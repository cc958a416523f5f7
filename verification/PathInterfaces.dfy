/**
 * What connects the modules of a data path: protocols and data formats (manager/controllers/app/select_modules.go).
 */
module PathInterfaces {
  import opened Prelude
  import opened AdminPolicies
  import opened DataPaths

  /** The interface is given, and has the protocol and the data format of the access point. */
  ghost predicate Speaks(i: Option<Interface>, node: Node) {
    && i.Some? && node.connection.Some?
    && i.value.protocol == node.connection.value.protocol
    && i.value.dataFormat == node.connection.value.dataFormat
  }

  /** One of the interfaces writes to the access point, or, if it is virtual, the API offers it. */
  ghost predicate Delivers(c: Capability, sink: Node) {
    || (sink.virtual && Speaks(c.api, sink))
    || exists i :: 0 <= i < |c.interfaces| && Speaks(c.interfaces[i].sink, sink)
  }

  /** One of the interfaces reads from the access point, or, if it is virtual, the API does. */
  ghost predicate Fetches(c: Capability, source: Node) {
    || (source.virtual && Speaks(c.api, source))
    || exists i :: 0 <= i < |c.interfaces| && Speaks(c.interfaces[i].source, source)
  }

  /** The edge is a capability of one of the modules that no decision forbids, and delivers to its sink. */
  ghost predicate IsLink(modules: Modules, config: map<string, Decision>, e: Edge) {
    && (exists k :: k in modules && modules[k] == e.mod) && e.index < |e.mod.capabilities|
    && var c := e.mod.capabilities[e.index];
       Delivers(c, e.sink) && !(c.name in config && config[c.name].deploy == StatusFalse)
  }

  /** The first edge writes to a data store, and an interface of the second reads just what is written there. */
  ghost predicate Follows(first: Edge, second: Edge) {
    && second.source == first.sink && !first.sink.virtual && second.index < |second.mod.capabilities|
    && var c := second.mod.capabilities[second.index];
       exists i :: 0 <= i < |c.interfaces| && Speaks(c.interfaces[i].source, first.sink)
  }

  /** A chain of capabilities from the source to the sink, described by protocols, data formats and decisions alone. */
  ghost predicate IsChain(modules: Modules, config: map<string, Decision>, source: Node, sink: Node, limit: int,
                          path: seq<Edge>) {
    && path != [] && (|path| > 1 ==> |path| <= limit)
    && path[0].source == source && path[|path| - 1].sink == sink
    && (forall i :: 0 <= i < |path| ==> IsLink(modules, config, path[i]))
    && Fetches(path[0].mod.capabilities[path[0].index], source)
    && (forall i :: 0 < i < |path| ==> Follows(path[i - 1], path[i]))
  }

  lemma {:induction false} SpeaksAlike(c: Capability, node: Node)
    ensures SupportsSink(c, node) <==> Delivers(c, node)
    ensures SupportsSource(c, node) <==> Fetches(c, node)
  {
    forall i: Option<Interface>
      ensures Match(i, node.connection) <==> Speaks(i, node)
    {
    }
  }

  lemma {:induction false} LinkExactly(modules: Modules, config: map<string, Decision>, e: Edge)
    ensures Usable(modules, config, e) <==> IsLink(modules, config, e)
  {
    if e.HasCapability() {
      SpeaksAlike(e.Cap(), e.sink);
    }
    hide SupportsSink, Delivers;
    assert e.mod in modules.Values <==> exists k :: k in modules && modules[k] == e.mod;
  }

  lemma {:induction false} FollowsExactly(modules: Modules, config: map<string, Decision>, first: Edge, second: Edge)
    requires IsLink(modules, config, first)
    ensures Joined(first, second) <==> Follows(first, second)
  {
    var node := first.sink;
    assert node.connection.Some?;
    if second.HasCapability() {
      var c := second.Cap();
      forall i | 0 <= i < |c.interfaces|
        ensures c.interfaces[i].source == node.connection <==> Speaks(c.interfaces[i].source, node)
      {
        SameFields(c.interfaces[i].source, node);
      }
    }
    hide Speaks;
  }

  lemma {:induction false} SameFields(i: Option<Interface>, node: Node)
    requires node.connection.Some?
    ensures i == node.connection <==> Speaks(i, node)
  {
  }

  /** A data path is exactly a chain: what is found depends on protocols and data formats as they are written. */
  lemma {:induction false} DataPathExactly(
    modules: Modules, config: map<string, Decision>, source: Node, sink: Node, limit: int, path: seq<Edge>)
    ensures IsDataPath(modules, config, source, sink, limit, path) <==>
            IsChain(modules, config, source, sink, limit, path)
  {
    forall i | 0 <= i < |path|
      ensures Usable(modules, config, path[i]) <==> IsLink(modules, config, path[i])
    {
      LinkExactly(modules, config, path[i]);
    }
    forall i | 0 < i < |path| && IsLink(modules, config, path[i - 1])
      ensures Joined(path[i - 1], path[i]) <==> Follows(path[i - 1], path[i])
    {
      FollowsExactly(modules, config, path[i - 1], path[i]);
    }
    if path != [] && path[0].HasCapability() {
      SpeaksAlike(path[0].Cap(), source);
    }
    hide Joined, Follows, SupportsSource, Fetches;
    if forall i :: 0 <= i < |path| ==> Usable(modules, config, path[i]) {
      assert path != [] ==> path[0].HasCapability() && path[0].index < |path[0].mod.capabilities|;
    }
  }

  /**
   * A module with one pair of interfaces is a path between two stores exactly if it is allowed and has the protocol
   * and the data format of both; a difference in any of the four means that there is none.
   */
  lemma {:induction false} SingleCapability(
    k: string, m: Module, config: map<string, Decision>, from: Interface, to: Interface, source: Interface,
    sink: Interface, limit: int)
    requires |m.capabilities| == 1 && m.capabilities[0].interfaces == [InOut(Some(from), Some(to))] && limit <= 1
    ensures
      (exists path ::
         IsDataPath(map[k := m], config, Node(Some(source), false), Node(Some(sink), false), limit, path)) <==>
      && !(m.capabilities[0].name in config && config[m.capabilities[0].name].deploy == StatusFalse)
      && from.protocol == source.protocol && from.dataFormat == source.dataFormat
      && to.protocol == sink.protocol && to.dataFormat == sink.dataFormat
  {
    var (c, a, b) := (m.capabilities[0], Node(Some(source), false), Node(Some(sink), false));
    var only := [Edge(a, b, m, 0)];
    assert c.interfaces[0] == InOut(Some(from), Some(to));
    assert Delivers(c, b) <==> Speaks(Some(to), b);
    assert Fetches(c, a) <==> Speaks(Some(from), a);
    assert k in map[k := m] && map[k := m][k] == m;
    DataPathExactly(map[k := m], config, a, b, limit, only);
    if path :| IsDataPath(map[k := m], config, a, b, limit, path) {
      DataPathExactly(map[k := m], config, a, b, limit, path);
      assert path == [path[0]] && IsLink(map[k := m], config, path[0]);
    }
  }
}
