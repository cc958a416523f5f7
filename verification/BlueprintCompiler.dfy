/**
 * From a plotter to one blueprint per cluster (manager/controllers/app/blueprint_mgr.go and
 * getBlueprintsMap in manager/controllers/app/plotter_controller.go).
 */
module BlueprintCompiler {
  import opened Prelude
  import opened DataPaths
  import opened Planner
  import opened PlotterTypes

  datatype ReadArg = ReadArg(source: DataStore, assetID: string, transformations: seq<Action>)

  datatype WriteArg = WriteArg(destination: DataStore, assetID: string, transformations: seq<Action>)

  datatype CopyArg = CopyArg(source: DataStore, destination: DataStore, assetID: string, transformations: seq<Action>)

  datatype Arguments = Arguments(copy: Option<CopyArg>, read: seq<ReadArg>, write: seq<WriteArg>)

  /** A module to run in a cluster, with its arguments. */
  datatype Instance = Instance(
    chart: string, args: Arguments, assetIDs: seq<string>, cluster: string, moduleName: string, scope: Scope)

  datatype BlueprintModule = BlueprintModule(name: string, chart: string, args: Arguments, assetIDs: seq<string>)

  datatype BlueprintSpec = BlueprintSpec(cluster: string, modules: map<string, BlueprintModule>)

  // ---------------------------------------------------------------------------------------------
  // Blueprints from instances
  // ---------------------------------------------------------------------------------------------

  /** What a shared instance becomes when another one of its module is united with it. */
  function Unite(u: Instance, x: Instance): Instance {
    u.(args := u.args.(read := u.args.read + x.args.read, write := u.args.write + x.args.write),
       assetIDs := u.assetIDs + x.assetIDs)
  }

  predicate SharedBy(x: Instance, moduleName: string) {
    x.scope != AssetScope && x.moduleName == moduleName
  }

  /** All instances of a module that is not run per asset, united in order. */
  ghost function United(list: seq<Instance>, moduleName: string): Option<Instance> {
    if list == [] then None
    else
      var x, u := list[|list| - 1], United(list[..|list| - 1], moduleName);
      if !SharedBy(x, moduleName) then u
      else if u.None? then Some(x)
      else Some(Unite(u.value, x))
  }

  ghost function PerAsset(list: seq<Instance>): seq<Instance> {
    if list == [] then []
    else PerAsset(list[..|list| - 1]) + if list[|list| - 1].scope == AssetScope then [list[|list| - 1]] else []
  }

  /** `order` lists the modules that are not run per asset, each once. */
  ghost predicate ListsSharedModules(order: seq<string>, list: seq<Instance>) {
    && (forall i, j :: 0 <= i < j < |order| ==> order[i] != order[j])
    && forall m :: m in order <==> United(list, m).Some?
  }

  ghost function UnitedIn(list: seq<Instance>, order: seq<string>): seq<Instance>
    requires forall m :: m in order ==> United(list, m).Some?
  {
    if order == [] then []
    else UnitedIn(list, order[..|order| - 1]) + [United(list, order[|order| - 1]).value]
  }

  ghost predicate InCluster(list: seq<Instance>, cluster: string) {
    forall i :: 0 <= i < |list| ==> list[i].cluster == cluster
  }

  function MapKey(moduleName: string, cluster: string): string {
    moduleName + "," + cluster
  }

  lemma {:induction false} MapKeyInjective(m: string, m': string, cluster: string)
    requires MapKey(m, cluster) == MapKey(m', cluster)
    ensures m == m'
  {
    assert m == MapKey(m, cluster)[..|m|] && m' == MapKey(m', cluster)[..|m'|];
  }

  /** The map of shared instances holds what has been united so far. */
  ghost predicate HoldsUnited(instanceMap: map<string, Instance>, list: seq<Instance>, cluster: string) {
    && (forall k :: k in instanceMap ==> k == MapKey(instanceMap[k].moduleName, cluster))
    && forall m :: (if MapKey(m, cluster) in instanceMap then Some(instanceMap[MapKey(m, cluster)]) else None) ==
                   United(list, m)
  }

  /** Instances run per asset stay as they are; all others are united by module, in any order. */
  method RefineInstances(list: seq<Instance>, ghost cluster: string)
    returns (newInstances: seq<Instance>)
    requires InCluster(list, cluster)
    ensures exists order :: ListsSharedModules(order, list) && newInstances == PerAsset(list) + UnitedIn(list, order)
  {
    newInstances := [];
    var instanceMap: map<string, Instance> := map[];
    for i := 0 to |list|
      invariant newInstances == PerAsset(list[..i])
      invariant HoldsUnited(instanceMap, list[..i], cluster)
    {
      assert list[..i + 1][..i] == list[..i];
      var x := list[i];
      if x.scope == AssetScope {
        newInstances := newInstances + [x];
        NextIsPerAsset(instanceMap, list, i, cluster);
      } else {
        var key := x.moduleName + "," + x.cluster;
        NextIsShared(instanceMap, list, i, cluster);
        if key !in instanceMap {
          instanceMap := instanceMap[key := x];
        } else {
          instanceMap := instanceMap[key := Unite(instanceMap[key], x)];
        }
      }
    }
    assert list[..|list|] == list;
    var shared := MapValues(instanceMap, list, cluster);
    newInstances := newInstances + shared;
  }

  lemma {:induction false} NextIsPerAsset(
    instanceMap: map<string, Instance>, list: seq<Instance>, i: nat, cluster: string)
    requires i < |list| && list[i].scope == AssetScope && HoldsUnited(instanceMap, list[..i], cluster)
    ensures HoldsUnited(instanceMap, list[..i + 1], cluster)
  {
    assert list[..i + 1][..i] == list[..i];
    assert forall m :: United(list[..i + 1], m) == United(list[..i], m);
  }

  lemma {:induction false} NextIsShared(
    instanceMap: map<string, Instance>, list: seq<Instance>, i: nat, cluster: string)
    requires i < |list| && list[i].scope != AssetScope && list[i].cluster == cluster
    requires HoldsUnited(instanceMap, list[..i], cluster)
    ensures var x, key := list[i], MapKey(list[i].moduleName, cluster);
            HoldsUnited(instanceMap[key := if key in instanceMap then Unite(instanceMap[key], x) else x],
                        list[..i + 1], cluster)
  {
    var x, key := list[i], MapKey(list[i].moduleName, cluster);
    var now := instanceMap[key := if key in instanceMap then Unite(instanceMap[key], x) else x];
    assert list[..i + 1][..i] == list[..i];
    forall m ensures
      (if MapKey(m, cluster) in now then Some(now[MapKey(m, cluster)]) else None) == United(list[..i + 1], m)
    {
      if m != x.moduleName && MapKey(m, cluster) == key {
        MapKeyInjective(m, x.moduleName, cluster);
      }
    }
  }

  /** The modules in `order` are those whose keys have been visited, each once. */
  ghost predicate Visited(instanceMap: map<string, Instance>, cluster: string, todo: set<string>, order: seq<string>) {
    && (forall i, j :: 0 <= i < j < |order| ==> order[i] != order[j])
    && (forall m :: m in order <==> MapKey(m, cluster) in instanceMap && MapKey(m, cluster) !in todo)
  }

  lemma {:induction false} OneMoreVisited(
    instanceMap: map<string, Instance>, cluster: string, todo: set<string>, order: seq<string>, m: string)
    requires Visited(instanceMap, cluster, todo, order) && MapKey(m, cluster) in todo && todo <= instanceMap.Keys
    ensures Visited(instanceMap, cluster, todo - {MapKey(m, cluster)}, order + [m])
  {
    hide MapKey;
    var (todo', order') := (todo - {MapKey(m, cluster)}, order + [m]);
    forall m'
      ensures m' in order' <==> MapKey(m', cluster) in instanceMap && MapKey(m', cluster) !in todo'
    {
      if MapKey(m', cluster) == MapKey(m, cluster) {
        MapKeyInjective(m', m, cluster);
      }
    }
  }

  lemma {:induction false} UnitedInSnoc(list: seq<Instance>, order: seq<string>, m: string)
    requires (forall m' :: m' in order ==> United(list, m').Some?) && United(list, m).Some?
    ensures UnitedIn(list, order + [m]) == UnitedIn(list, order) + [United(list, m).value]
  {
    assert (order + [m])[..|order|] == order;
  }

  lemma {:induction false} AllVisited(
    instanceMap: map<string, Instance>, list: seq<Instance>, cluster: string, order: seq<string>)
    requires HoldsUnited(instanceMap, list, cluster) && Visited(instanceMap, cluster, {}, order)
    ensures ListsSharedModules(order, list)
  {
  }

  /** The final loop over the map of shared instances, in whatever order the map is visited. */
  method MapValues(instanceMap: map<string, Instance>, ghost list: seq<Instance>, ghost cluster: string)
    returns (values: seq<Instance>)
    requires HoldsUnited(instanceMap, list, cluster)
    ensures exists order :: ListsSharedModules(order, list) && values == UnitedIn(list, order)
  {
    values := [];
    ghost var order: seq<string> := [];
    var todo := instanceMap.Keys;
    while todo != {}
      invariant todo <= instanceMap.Keys && Visited(instanceMap, cluster, todo, order)
      invariant forall m :: m in order ==> United(list, m).Some?
      invariant values == UnitedIn(list, order)
    {
      var k :| k in todo;
      ghost var m := instanceMap[k].moduleName;
      assert k == MapKey(m, cluster) && United(list, m) == Some(instanceMap[k]);
      hide *;
      OneMoreVisited(instanceMap, cluster, todo, order, m);
      UnitedInSnoc(list, order, m);
      values := values + [instanceMap[k]];
      order := order + [m];
      todo := todo - {k};
    }
    AllVisited(instanceMap, list, cluster, order);
  }

  /** An instance run per asset is named after its first asset (by a hash), any other after its module. */
  function InstanceName(x: Instance, hash: string -> string): string
    requires Named(x)
  {
    if x.scope == AssetScope then x.moduleName + "-" + hash(x.assetIDs[0]) else x.moduleName
  }

  predicate Named(x: Instance) {
    x.scope == AssetScope ==> x.assetIDs != []
  }

  ghost predicate AllNamed(list: seq<Instance>) {
    forall i :: 0 <= i < |list| ==> Named(list[i])
  }

  function ToModule(x: Instance): BlueprintModule {
    BlueprintModule(x.moduleName, x.chart, x.args, x.assetIDs)
  }

  /** The last instance of the list with the given name. */
  ghost function LastNamed(list: seq<Instance>, hash: string -> string, name: string): Option<Instance>
    requires AllNamed(list)
  {
    if list == [] then None
    else if InstanceName(list[|list| - 1], hash) == name then Some(list[|list| - 1])
    else LastNamed(list[..|list| - 1], hash, name)
  }

  /** The modules of a blueprint hold the last instance of each name. */
  ghost predicate HoldsLast(modules: map<string, BlueprintModule>, list: seq<Instance>, hash: string -> string)
    requires AllNamed(list)
  {
    forall n :: (if n in modules then Some(modules[n]) else None) ==
                match LastNamed(list, hash, n) { case Some(x) => Some(ToModule(x)) case None => None }
  }

  method GenerateBlueprint(
    instances: seq<Instance>, cluster: string, hash: string -> string) returns (spec: BlueprintSpec)
    requires AllNamed(instances)
    ensures spec.cluster == cluster && HoldsLast(spec.modules, instances, hash)
  {
    var modules: map<string, BlueprintModule> := map[];
    for i := 0 to |instances|
      invariant HoldsLast(modules, instances[..i], hash)
    {
      assert instances[..i + 1][..i] == instances[..i];
      modules := modules[InstanceName(instances[i], hash) := ToModule(instances[i])];
    }
    assert instances[..|instances|] == instances;
    spec := BlueprintSpec(cluster, modules);
  }

  /** The instances of one cluster, in order. */
  ghost function OnCluster(list: seq<Instance>, cluster: string): seq<Instance> {
    if list == [] then []
    else OnCluster(list[..|list| - 1], cluster) + if list[|list| - 1].cluster == cluster then [list[|list| - 1]] else []
  }

  /** What a blueprint runs under a name: the united instance of a shared module, or else the last per-asset one. */
  ghost function Compiled(list: seq<Instance>, hash: string -> string, name: string): Option<Instance>
    requires AllNamed(PerAsset(list))
  {
    if United(list, name).Some? then United(list, name) else LastNamed(PerAsset(list), hash, name)
  }

  ghost predicate IsCompiled(modules: map<string, BlueprintModule>, list: seq<Instance>, hash: string -> string) {
    && AllNamed(PerAsset(list))
    && forall n :: (if n in modules then Some(modules[n]) else None) ==
                   match Compiled(list, hash, n) { case Some(x) => Some(ToModule(x)) case None => None }
  }

  lemma {:induction false} OneMoreOnCluster(list: seq<Instance>, i: nat)
    requires i < |list|
    ensures forall c ::
      OnCluster(list[..i + 1], c) == OnCluster(list[..i], c) + if c == list[i].cluster then [list[i]] else []
  {
    assert list[..i + 1][..i] == list[..i];
  }

  method GroupByCluster(instances: seq<Instance>) returns (instanceMap: map<string, seq<Instance>>)
    ensures forall c :: c in instanceMap <==> OnCluster(instances, c) != []
    ensures forall c :: c in instanceMap ==> instanceMap[c] == OnCluster(instances, c)
  {
    instanceMap := map[];
    for i := 0 to |instances|
      invariant forall c :: (if c in instanceMap then instanceMap[c] else []) == OnCluster(instances[..i], c)
      invariant forall c :: c in instanceMap ==> instanceMap[c] != []
    {
      OneMoreOnCluster(instances, i);
      hide OnCluster;
      var c := instances[i].cluster;
      instanceMap := instanceMap[c := (if c in instanceMap then instanceMap[c] else []) + [instances[i]]];
    }
    assert instances[..|instances|] == instances;
  }

  method CompileCluster(list: seq<Instance>, cluster: string, hash: string -> string) returns (spec: BlueprintSpec)
    requires AllNamed(list) && InCluster(list, cluster)
    ensures spec.cluster == cluster && IsCompiled(spec.modules, list, hash)
  {
    var refined := RefineInstances(list, cluster);
    ghost var order :| ListsSharedModules(order, list) && refined == PerAsset(list) + UnitedIn(list, order);
    RefinedNames(list, order, hash);
    spec := GenerateBlueprint(refined, cluster, hash);
    CompiledFromRefined(spec.modules, list, order, hash);
  }

  /** One blueprint per cluster that has instances, whatever order the maps are visited in. */
  method GenerateBlueprints(
    instances: seq<Instance>, hash: string -> string) returns (blueprints: map<string, BlueprintSpec>)
    requires AllNamed(instances)
    ensures forall c :: c in blueprints <==> OnCluster(instances, c) != []
    ensures forall c :: c in blueprints ==>
              blueprints[c].cluster == c && IsCompiled(blueprints[c].modules, OnCluster(instances, c), hash)
  {
    hide IsCompiled, OnCluster;
    var instanceMap := GroupByCluster(instances);
    blueprints := map[];
    var todo := instanceMap.Keys;
    while todo != {}
      invariant todo <= instanceMap.Keys && blueprints.Keys == instanceMap.Keys - todo
      invariant forall c :: c in blueprints ==>
                  blueprints[c].cluster == c && IsCompiled(blueprints[c].modules, OnCluster(instances, c), hash)
    {
      var c :| c in todo;
      OnClusterOnly(instances, c);
      var spec := CompileCluster(instanceMap[c], c, hash);
      blueprints := blueprints[c := spec];
      todo := todo - {c};
    }
  }

  lemma {:induction false} OnClusterOnly(list: seq<Instance>, cluster: string)
    requires AllNamed(list)
    ensures InCluster(OnCluster(list, cluster), cluster) && AllNamed(OnCluster(list, cluster))
  {
    if list != [] {
      OnClusterOnly(list[..|list| - 1], cluster);
    }
  }

  lemma {:induction false} PerAssetOnly(list: seq<Instance>)
    ensures forall x :: x in PerAsset(list) <==> x in list && x.scope == AssetScope
  {
    if list != [] {
      PerAssetOnly(list[..|list| - 1]);
      assert list == list[..|list| - 1] + [list[|list| - 1]];
    }
  }

  lemma {:induction false} UnitedIsShared(list: seq<Instance>, m: string)
    ensures United(list, m).Some? ==> SharedBy(United(list, m).value, m)
  {
    if list != [] {
      UnitedIsShared(list[..|list| - 1], m);
    }
  }

  lemma {:induction false} RefinedNames(list: seq<Instance>, order: seq<string>, hash: string -> string)
    requires AllNamed(list) && ListsSharedModules(order, list)
    ensures AllNamed(PerAsset(list)) && AllNamed(UnitedIn(list, order))
    ensures AllNamed(PerAsset(list) + UnitedIn(list, order))
  {
    PerAssetOnly(list);
    forall i | 0 <= i < |PerAsset(list)| ensures Named(PerAsset(list)[i]) {
      assert PerAsset(list)[i] in PerAsset(list);
    }
    LastUnited(list, order, hash, "");
  }

  lemma {:induction false} LastUnited(list: seq<Instance>, order: seq<string>, hash: string -> string, name: string)
    requires forall m :: m in order ==> United(list, m).Some?
    ensures AllNamed(UnitedIn(list, order))
    ensures LastNamed(UnitedIn(list, order), hash, name) == if name in order then United(list, name) else None
  {
    if order != [] {
      var init, m := order[..|order| - 1], order[|order| - 1];
      assert order == init + [m];
      LastUnited(list, init, hash, name);
      UnitedIsShared(list, m);
      var us := UnitedIn(list, init);
      assert UnitedIn(list, order)[..|us|] == us;
    }
  }

  lemma {:induction false} LastNamedConcat(a: seq<Instance>, b: seq<Instance>, hash: string -> string, name: string)
    requires AllNamed(a) && AllNamed(b) && AllNamed(a + b)
    ensures LastNamed(a + b, hash, name) ==
            if LastNamed(b, hash, name).Some? then LastNamed(b, hash, name) else LastNamed(a, hash, name)
  {
    if b == [] {
      assert a + b == a;
    } else {
      assert (a + b)[..|a + b| - 1] == a + b[..|b| - 1];
      LastNamedConcat(a, b[..|b| - 1], hash, name);
    }
  }

  lemma {:induction false} CompiledFromRefined(
    modules: map<string, BlueprintModule>, list: seq<Instance>, order: seq<string>, hash: string -> string)
    requires AllNamed(PerAsset(list)) && ListsSharedModules(order, list)
    requires AllNamed(PerAsset(list) + UnitedIn(list, order))
    requires HoldsLast(modules, PerAsset(list) + UnitedIn(list, order), hash)
    ensures IsCompiled(modules, list, hash)
  {
    var a, b := PerAsset(list), UnitedIn(list, order);
    forall n ensures LastNamed(a + b, hash, n) == Compiled(list, hash, n) {
      LastUnited(list, order, hash, n);
      LastNamedConcat(a, b, hash, n);
    }
    hide LastNamed, United, PerAsset, UnitedIn, Compiled;
  }

  /** The blueprint is a function of the instances: no order of visiting the maps can change it. */
  lemma {:induction false} CompiledIsUnique(
    modules: map<string, BlueprintModule>, modules': map<string, BlueprintModule>, list: seq<Instance>,
    hash: string -> string)
    requires IsCompiled(modules, list, hash) && IsCompiled(modules', list, hash)
    ensures modules == modules'
  {
    hide Compiled;
    forall n ensures (n in modules <==> n in modules') && (n in modules ==> modules[n] == modules'[n]) {}
  }

  // ---------------------------------------------------------------------------------------------
  // Names of refined instances
  // ---------------------------------------------------------------------------------------------

  ghost predicate DistinctNames(list: seq<Instance>, hash: string -> string)
    requires AllNamed(list)
  {
    forall i, j :: 0 <= i < j < |list| ==> InstanceName(list[i], hash) != InstanceName(list[j], hash)
  }

  /** The module map built from a list. */
  ghost function LastOf(list: seq<Instance>, hash: string -> string): map<string, BlueprintModule>
    requires AllNamed(list)
  {
    if list == [] then map[]
    else LastOf(list[..|list| - 1], hash)[InstanceName(list[|list| - 1], hash) := ToModule(list[|list| - 1])]
  }

  lemma {:induction false} LastOfIsHeld(
    modules: map<string, BlueprintModule>, list: seq<Instance>, hash: string -> string)
    requires AllNamed(list)
    ensures HoldsLast(modules, list, hash) <==> modules == LastOf(list, hash)
    decreases |list|
  {
    if list != [] {
      LastOfIsHeld(LastOf(list[..|list| - 1], hash), list[..|list| - 1], hash);
    }
    assert HoldsLast(LastOf(list, hash), list, hash);
    if HoldsLast(modules, list, hash) {
      hide LastNamed, LastOf;
      var held := LastOf(list, hash);
      forall n ensures (n in modules <==> n in held) && (n in modules ==> modules[n] == held[n]) {}
    }
  }

  ghost predicate NameTaken(list: seq<Instance>, hash: string -> string, name: string)
    requires AllNamed(list)
  {
    exists i :: 0 <= i < |list| && InstanceName(list[i], hash) == name
  }

  lemma {:induction false} NamesOfLastOf(list: seq<Instance>, hash: string -> string)
    requires AllNamed(list)
    ensures forall n :: n in LastOf(list, hash) <==> NameTaken(list, hash, n)
  {
    if list != [] {
      var init := list[..|list| - 1];
      NamesOfLastOf(init, hash);
      assert forall i :: 0 <= i < |init| ==> list[i] == init[i];
      forall n
        ensures NameTaken(list, hash, n) <==> NameTaken(init, hash, n) || n == InstanceName(list[|init|], hash) {}
    }
  }

  lemma {:induction false} SizeOfLastOf(list: seq<Instance>, hash: string -> string)
    requires AllNamed(list)
    ensures |LastOf(list, hash)| <= |list|
    ensures |LastOf(list, hash)| == |list| <==> DistinctNames(list, hash)
  {
    if list != [] {
      var init, name := list[..|list| - 1], InstanceName(list[|list| - 1], hash);
      SizeOfLastOf(init, hash);
      NamesOfLastOf(init, hash);
      DistinctSnoc(list, hash);
      SizeAfterUpdate(LastOf(init, hash), name, ToModule(list[|init|]));
      hide DistinctNames, NameTaken;
    }
  }

  lemma {:induction false} SizeAfterUpdate(held: map<string, BlueprintModule>, name: string, m: BlueprintModule)
    ensures |held[name := m]| == |held| + if name in held then 0 else 1
  {
    assert held[name := m].Keys == held.Keys + {name};
  }

  lemma {:induction false} DistinctAreHeld(list: seq<Instance>, hash: string -> string, i: nat)
    requires AllNamed(list) && DistinctNames(list, hash) && i < |list|
    ensures InstanceName(list[i], hash) in LastOf(list, hash)
    ensures LastOf(list, hash)[InstanceName(list[i], hash)] == ToModule(list[i])
  {
    var init := list[..|list| - 1];
    if i < |init| {
      DistinctSnoc(list, hash);
      DistinctAreHeld(init, hash, i);
      assert list[i] == init[i];
      assert NameTaken(init, hash, InstanceName(init[i], hash));
    }
  }

  lemma {:induction false} DistinctSnoc(list: seq<Instance>, hash: string -> string)
    requires AllNamed(list) && list != []
    ensures DistinctNames(list, hash) <==>
            DistinctNames(list[..|list| - 1], hash) &&
            !NameTaken(list[..|list| - 1], hash, InstanceName(list[|list| - 1], hash))
  {
    assert forall i :: 0 <= i < |list| - 1 ==> list[i] == list[..|list| - 1][i];
  }

  /** A blueprint has a module for each refined instance, unchanged, exactly when their names are distinct. */
  lemma {:induction false} EveryInstanceDeployedExactly(modules: map<string, BlueprintModule>, list: seq<Instance>,
                                                        hash: string -> string)
    requires AllNamed(list) && HoldsLast(modules, list, hash)
    ensures |modules| <= |list|
    ensures |modules| == |list| <==> DistinctNames(list, hash)
    ensures DistinctNames(list, hash) ==>
              forall i :: 0 <= i < |list| ==>
                InstanceName(list[i], hash) in modules && modules[InstanceName(list[i], hash)] == ToModule(list[i])
  {
    LastOfIsHeld(modules, list, hash);
    SizeOfLastOf(list, hash);
    if DistinctNames(list, hash) {
      forall i | 0 <= i < |list|
        ensures InstanceName(list[i], hash) in modules && modules[InstanceName(list[i], hash)] == ToModule(list[i])
      {
        DistinctAreHeld(list, hash, i);
      }
    }
  }
}
