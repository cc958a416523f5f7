/**
 * The search for data paths (manager/controllers/app/select_modules.go).
 *
 * A path is a chain of module capabilities from the data source to the requested sink.
 */
module DataPaths {
  import opened Prelude
  import opened AdminPolicies

  datatype Interface = Interface(protocol: string, dataFormat: string)

  /** An access point to data: a data store, or a virtual endpoint that the workload activates. */
  datatype Node = Node(connection: Option<Interface>, virtual: bool)

  /** A pair of interfaces a capability connects; either may be missing. */
  datatype InOut = InOut(source: Option<Interface>, sink: Option<Interface>)

  /** A capability whose scope is left out counts as none of the three. */
  datatype Scope = Unspecified | AssetScope | WorkloadScope | ClusterScope

  datatype Capability = Capability(
    name: string, scope: Scope, interfaces: seq<InOut>, api: Option<Interface>, actions: seq<string>)

  datatype Module = Module(name: string, moduleType: string, chart: string, capabilities: seq<Capability>)

  type Modules = map<string, Module>

  /** A capability of a module together with the access points it connects. */
  datatype Edge = Edge(source: Node, sink: Node, mod: Module, index: nat) {
    predicate HasCapability() {
      index < |mod.capabilities|
    }

    function Cap(): Capability
      requires HasCapability()
    {
      mod.capabilities[index]
    }
  }

  function Last(path: seq<Edge>): Edge
    requires path != []
  {
    path[|path| - 1]
  }

  predicate Match(a: Option<Interface>, b: Option<Interface>) {
    a.Some? && b.Some? && a.value.dataFormat == b.value.dataFormat && a.value.protocol == b.value.protocol
  }

  predicate SupportsSource(c: Capability, source: Node) {
    || (source.virtual && Match(c.api, source.connection))
    || exists i :: 0 <= i < |c.interfaces| && Match(c.interfaces[i].source, source.connection)
  }

  predicate SupportsSink(c: Capability, sink: Node) {
    || (sink.virtual && Match(c.api, sink.connection))
    || exists i :: 0 <= i < |c.interfaces| && Match(c.interfaces[i].sink, sink.connection)
  }

  /** Only an explicit "False" forbids a capability. */
  predicate AllowCapability(config: map<string, Decision>, capability: string) {
    capability !in config || config[capability].deploy != StatusFalse
  }

  // ---------------------------------------------------------------------------------------------
  // What a data path is
  // ---------------------------------------------------------------------------------------------

  /** The edge is an allowed capability of a deployed module that can deliver to its own sink. */
  ghost predicate Usable(modules: Modules, config: map<string, Decision>, e: Edge) {
    && e.mod in modules.Values
    && e.HasCapability()
    && AllowCapability(config, e.Cap().name)
    && SupportsSink(e.Cap(), e.sink)
  }

  /** Two edges meet in a data store over an interface that the second one reads. */
  ghost predicate Joined(first: Edge, second: Edge) {
    && first.sink == second.source
    && !second.source.virtual
    && second.HasCapability()
    && exists i :: 0 <= i < |second.Cap().interfaces| && second.Cap().interfaces[i].source == second.source.connection
  }

  ghost predicate IsDataPath(modules: Modules, config: map<string, Decision>, source: Node, sink: Node, limit: int,
                             path: seq<Edge>) {
    && 1 <= |path| && (|path| == 1 || |path| <= limit)
    && path[0].source == source
    && Last(path).sink == sink
    && (forall i :: 0 <= i < |path| ==> Usable(modules, config, path[i]))
    && SupportsSource(path[0].Cap(), source)
    && (forall i :: 0 < i < |path| ==> Joined(path[i - 1], path[i]))
  }

  /** A longer path is a path to the source of its last edge, followed by that edge. */
  lemma {:induction false} LongerPath(
    modules: Modules, config: map<string, Decision>, source: Node, sink: Node, limit: int, path: seq<Edge>,
    last: Edge)
    requires path != []
    ensures IsDataPath(modules, config, source, sink, limit, path + [last]) <==>
            && limit > 1
            && IsDataPath(modules, config, source, last.source, limit - 1, path)
            && Usable(modules, config, last) && last.sink == sink && Joined(Last(path), last)
  {
    hide Usable;
    var longer := path + [last];
    assert forall i :: 0 <= i < |path| ==> longer[i] == path[i];
    assert longer[|path|] == last;
    if IsDataPath(modules, config, source, sink, limit, longer) {
      assert Joined(longer[|path| - 1], longer[|path|]);
      assert Usable(modules, config, longer[|path|]);
    }
  }

  // ---------------------------------------------------------------------------------------------
  // The code
  // ---------------------------------------------------------------------------------------------

  ghost predicate EndsWith(path: seq<Edge>, mod: Module, index: nat) {
    path != [] && Last(path).mod == mod && Last(path).index == index
  }

  /** The paths whose last edge is the given capability. */
  method PathsThrough(modules: Modules, config: map<string, Decision>, source: Node, sink: Node, n: int,
                      mod: Module, index: nat) returns (solutions: seq<seq<Edge>>)
    requires mod in modules.Values && index < |mod.capabilities|
    ensures forall p :: p in solutions <==>
              IsDataPath(modules, config, source, sink, n, p) && EndsWith(p, mod, index)
    decreases if n > 1 then n else 1, 0
  {
    solutions := [];
    var capability := mod.capabilities[index];
    if !AllowCapability(config, capability.name) || !SupportsSink(capability, sink) {
      return;
    }
    var direct := Edge(source, sink, mod, index);
    if SupportsSource(capability, source) {
      solutions := [[direct]];
    }
    if n > 1 {
      ghost var start := solutions;
      for i := 0 to |capability.interfaces|
        invariant forall p :: p in solutions <==> p in start || Via(modules, config, source, sink, n, mod, index, p, i)
      {
        var node := Node(capability.interfaces[i].source, false);
        var paths := FindPathsWithinLimit(modules, config, source, node, n - 1);
        var extended := AppendToAll(paths, Edge(node, sink, mod, index));
        OneMoreInterface(modules, config, source, sink, n, mod, index, i, paths, extended);
        solutions := solutions + extended;
      }
    }
    forall p ensures p in solutions <==> IsDataPath(modules, config, source, sink, n, p) && EndsWith(p, mod, index) {
      DirectOrVia(modules, config, source, sink, n, mod, index, p);
    }
  }

  lemma {:induction false} DirectOrVia(
    modules: Modules, config: map<string, Decision>, source: Node, sink: Node, n: int, mod: Module, index: nat,
    p: seq<Edge>)
    requires mod in modules.Values && index < |mod.capabilities|
    requires AllowCapability(config, mod.capabilities[index].name) && SupportsSink(mod.capabilities[index], sink)
    ensures IsDataPath(modules, config, source, sink, n, p) && EndsWith(p, mod, index) <==>
            || (p == [Edge(source, sink, mod, index)] && SupportsSource(mod.capabilities[index], source))
            || (n > 1 && Via(modules, config, source, sink, n, mod, index, p, |mod.capabilities[index].interfaces|))
  {
    if |p| == 1 {
      assert p == [p[0]];
    } else if IsDataPath(modules, config, source, sink, n, p) && EndsWith(p, mod, index) {
      assert Joined(p[|p| - 2], p[|p| - 1]);
    }
  }

  /** Paths of two edges or more that enter the capability through one of its first `count` interfaces. */
  ghost predicate Via(modules: Modules, config: map<string, Decision>, source: Node, sink: Node, n: int,
                      mod: Module, index: nat, p: seq<Edge>, count: nat)
    requires index < |mod.capabilities| && count <= |mod.capabilities[index].interfaces|
  {
    && |p| > 1 && IsDataPath(modules, config, source, sink, n, p) && EndsWith(p, mod, index)
    && exists i :: 0 <= i < count && Last(p).source == Node(mod.capabilities[index].interfaces[i].source, false)
  }

  lemma {:induction false} OneMoreInterface(
    modules: Modules, config: map<string, Decision>, source: Node, sink: Node, n: int, mod: Module, index: nat,
    i: nat, paths: seq<seq<Edge>>, extended: seq<seq<Edge>>)
    requires n > 1 && mod in modules.Values && index < |mod.capabilities| && i < |mod.capabilities[index].interfaces|
    requires AllowCapability(config, mod.capabilities[index].name) && SupportsSink(mod.capabilities[index], sink)
    requires var node := Node(mod.capabilities[index].interfaces[i].source, false);
             && (forall p :: p in paths <==> IsDataPath(modules, config, source, node, n - 1, p))
             && (forall p :: p in extended <==> exists q :: q in paths && p == q + [Edge(node, sink, mod, index)])
    ensures forall p :: Via(modules, config, source, sink, n, mod, index, p, i + 1) <==>
              Via(modules, config, source, sink, n, mod, index, p, i) || p in extended
  {
    var node := Node(mod.capabilities[index].interfaces[i].source, false);
    var last := Edge(node, sink, mod, index);
    forall p: seq<Edge> ensures p in extended <==>
      |p| > 1 && IsDataPath(modules, config, source, sink, n, p) && EndsWith(p, mod, index) && Last(p).source == node
    {
      if |p| > 1 {
        var q := p[..|p| - 1];
        assert p == q + [Last(p)];
        LongerPath(modules, config, source, sink, n, q, Last(p));
      }
      if p in extended {
        var q :| q in paths && p == q + [last];
        assert last.Cap().interfaces[i].source == last.source.connection;
        assert Joined(Last(q), last);
        LongerPath(modules, config, source, sink, n, q, last);
      }
    }
  }

  method AppendToAll(paths: seq<seq<Edge>>, last: Edge) returns (extended: seq<seq<Edge>>)
    ensures forall p :: p in extended <==> exists q :: q in paths && p == q + [last]
  {
    extended := [];
    for i := 0 to |paths|
      invariant forall p :: p in extended <==> exists q :: q in paths[..i] && p == q + [last]
    {
      extended := extended + [paths[i] + [last]];
      assert paths[..i + 1] == paths[..i] + [paths[i]];
    }
    assert paths[..|paths|] == paths;
  }

  /** All data paths of at most `n` edges (one edge is always tried), in the order the modules are visited. */
  method FindPathsWithinLimit(modules: Modules, config: map<string, Decision>, source: Node, sink: Node, n: int)
    returns (solutions: seq<seq<Edge>>)
    ensures forall p :: p in solutions <==> IsDataPath(modules, config, source, sink, n, p)
    decreases if n > 1 then n else 1, 1
  {
    solutions := [];
    var todo := modules.Keys;
    while todo != {}
      invariant todo <= modules.Keys
      invariant forall p :: p in solutions <==>
                  IsDataPath(modules, config, source, sink, n, p) &&
                  exists k :: k in modules.Keys - todo && modules[k] == Last(p).mod
    {
      var k :| k in todo;
      var mod := modules[k];
      ghost var before := solutions;
      for index := 0 to |mod.capabilities|
        invariant forall p :: p in solutions <==>
                    (p in before ||
                     (IsDataPath(modules, config, source, sink, n, p) && Last(p).mod == mod && Last(p).index < index))
      {
        var through := PathsThrough(modules, config, source, sink, n, mod, index);
        solutions := solutions + through;
      }
      todo := todo - {k};
    }
  }
}
