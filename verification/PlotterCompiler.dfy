/**
 * Collecting the module instances of a plotter (getBlueprintsMap and convertPlotterModuleToBlueprintModule
 * in manager/controllers/app/plotter_controller.go), and what reaches the clusters in the end.
 */
module PlotterCompiler {
  import opened Prelude
  import opened AdminPolicies
  import opened DataPaths
  import opened Planner
  import opened PlotterTypes
  import opened PlotterGeneration
  import opened PlotterContents
  import opened BlueprintCompiler
  import opened BlueprintDelivery

  const NO_VAULT := Vault("", "", "", "")
  const NO_STORE := DataStore("", "", map[])
  const PLUGIN := "plugin"

  /** The store with the credentials of one flow type only, and the cluster's way to log in. */
  function ForFlow(store: DataStore, authPath: string, t: FlowType): DataStore {
    store.(vault := map[t := (if t in store.vault then store.vault[t] else NO_VAULT).(authPath := authPath)])
  }

  function StoreOf(spec: PlotterSpec, assetID: string): DataStore {
    if assetID in spec.assets then spec.assets[assetID].store else NO_STORE
  }

  /** What the code dereferences without a check: a source, and a sink unless the flow reads. */
  ghost predicate Runnable(t: FlowType, step: Step) {
    step.parameters.Some? ==>
      && (step.parameters.value.source.assetID != "" || step.parameters.value.source.api.Some?)
      && (t != ReadFlow ==> step.parameters.value.sink.Some?)
  }

  function SourceStore(spec: PlotterSpec, source: StepSource, authPath: string): DataStore
    requires source.assetID != "" || source.api.Some?
  {
    if source.assetID != "" then ForFlow(StoreOf(spec, source.assetID), authPath, ReadFlow)
    else DataStore(source.api.value.protocol, source.api.value.dataFormat, map[])
  }

  function ArgumentsFor(spec: PlotterSpec, assetID: string, t: FlowType, p: StepParameters, authPath: string): Arguments
    requires p.source.assetID != "" || p.source.api.Some?
    requires t != ReadFlow ==> p.sink.Some?
  {
    match t
    case ReadFlow => Arguments(None, [ReadArg(SourceStore(spec, p.source, authPath), assetID, p.actions)], [])
    case WriteFlow =>
      Arguments(None, [], [WriteArg(ForFlow(StoreOf(spec, p.sink.value), authPath, WriteFlow), assetID, p.actions)])
    case CopyFlow =>
      Arguments(Some(CopyArg(SourceStore(spec, p.source, authPath),
                             ForFlow(StoreOf(spec, p.sink.value), authPath, WriteFlow), assetID, p.actions)), [], [])
  }

  function AuthPath(clusters: seq<ClusterInfo>, cluster: string): string {
    if clusters == [] then ""
    else if clusters[0].name == cluster then
      (if clusters[0].vaultAuthPath == "" then "" else "/v1/auth/" + clusters[0].vaultAuthPath + "/login")
    else AuthPath(clusters[1..], cluster)
  }

  /** The instance for one module of a step's template; a plugin gets no arguments of its own. */
  function InstanceFor(
    spec: PlotterSpec, clusters: seq<ClusterInfo>, assetID: string, t: FlowType, step: Step, m: ModuleInfo)
    : Instance
    requires Runnable(t, step)
  {
    var args := if step.parameters.None? || m.moduleType == PLUGIN then Arguments(None, [], [])
                else ArgumentsFor(spec, assetID, t, step.parameters.value, AuthPath(clusters, step.cluster));
    Instance(m.chart, args, [assetID], step.cluster, m.name, m.scope)
  }

  function TemplateModules(spec: PlotterSpec, template: string): seq<ModuleInfo> {
    if template in spec.templates then spec.templates[template].modules else []
  }

  ghost predicate RunnableSubFlow(s: SubFlow) {
    forall i, j :: 0 <= i < |s.steps| && 0 <= j < |s.steps[i]| ==> Runnable(s.flowType, s.steps[i][j])
  }

  ghost predicate RunnableFlow(f: Flow) {
    forall i :: 0 <= i < |f.subFlows| ==> RunnableSubFlow(f.subFlows[i])
  }

  ghost predicate RunnableFlows(flows: seq<Flow>) {
    forall i :: 0 <= i < |flows| ==> RunnableFlow(flows[i])
  }

  // The instances of the plotter, in step order, one function per level of nesting.

  ghost function OfModules(spec: PlotterSpec, clusters: seq<ClusterInfo>, assetID: string, t: FlowType, step: Step,
                           modules: seq<ModuleInfo>): seq<Instance>
    requires Runnable(t, step)
  {
    if modules == [] then []
    else OfModules(spec, clusters, assetID, t, step, modules[..|modules| - 1]) +
         [InstanceFor(spec, clusters, assetID, t, step, modules[|modules| - 1])]
  }

  ghost function OfSteps(spec: PlotterSpec, clusters: seq<ClusterInfo>, assetID: string, t: FlowType, steps: seq<Step>)
    : seq<Instance>
    requires forall j :: 0 <= j < |steps| ==> Runnable(t, steps[j])
  {
    if steps == [] then []
    else
      var last := steps[|steps| - 1];
      OfSteps(spec, clusters, assetID, t, steps[..|steps| - 1]) +
      OfModules(spec, clusters, assetID, t, last, TemplateModules(spec, last.template))
  }

  ghost function OfBranches(spec: PlotterSpec, clusters: seq<ClusterInfo>, assetID: string, t: FlowType,
                            branches: seq<seq<Step>>): seq<Instance>
    requires forall i, j :: 0 <= i < |branches| && 0 <= j < |branches[i]| ==> Runnable(t, branches[i][j])
  {
    if branches == [] then []
    else OfBranches(spec, clusters, assetID, t, branches[..|branches| - 1]) +
         OfSteps(spec, clusters, assetID, t, branches[|branches| - 1])
  }

  ghost function OfSubFlows(spec: PlotterSpec, clusters: seq<ClusterInfo>, assetID: string, subFlows: seq<SubFlow>)
    : seq<Instance>
    requires forall i :: 0 <= i < |subFlows| ==> RunnableSubFlow(subFlows[i])
  {
    if subFlows == [] then []
    else
      var last := subFlows[|subFlows| - 1];
      assert RunnableSubFlow(last);
      OfSubFlows(spec, clusters, assetID, subFlows[..|subFlows| - 1]) +
      OfBranches(spec, clusters, assetID, last.flowType, last.steps)
  }

  ghost function OfFlows(spec: PlotterSpec, clusters: seq<ClusterInfo>, flows: seq<Flow>): seq<Instance>
    requires RunnableFlows(flows)
  {
    if flows == [] then []
    else
      var last := flows[|flows| - 1];
      OfFlows(spec, clusters, flows[..|flows| - 1]) + OfSubFlows(spec, clusters, last.assetID, last.subFlows)
  }

  method ModuleInstances(spec: PlotterSpec, clusters: seq<ClusterInfo>, assetID: string, t: FlowType, step: Step)
    returns (instances: seq<Instance>)
    requires Runnable(t, step)
    ensures instances == OfModules(spec, clusters, assetID, t, step, TemplateModules(spec, step.template))
  {
    instances := [];
    var modules := TemplateModules(spec, step.template);
    for k := 0 to |modules|
      invariant instances == OfModules(spec, clusters, assetID, t, step, modules[..k])
    {
      assert modules[..k + 1][..k] == modules[..k];
      instances := instances + [InstanceFor(spec, clusters, assetID, t, step, modules[k])];
    }
    assert modules[..|modules|] == modules;
  }

  method StepInstances(spec: PlotterSpec, clusters: seq<ClusterInfo>, assetID: string, t: FlowType, steps: seq<Step>)
    returns (instances: seq<Instance>)
    requires forall j :: 0 <= j < |steps| ==> Runnable(t, steps[j])
    ensures instances == OfSteps(spec, clusters, assetID, t, steps)
  {
    hide OfModules, Runnable;
    instances := [];
    for j := 0 to |steps|
      invariant instances == OfSteps(spec, clusters, assetID, t, steps[..j])
    {
      assert steps[..j + 1][..j] == steps[..j];
      var more := ModuleInstances(spec, clusters, assetID, t, steps[j]);
      instances := instances + more;
    }
    assert steps[..|steps|] == steps;
  }

  method SubFlowInstances(spec: PlotterSpec, clusters: seq<ClusterInfo>, assetID: string, s: SubFlow)
    returns (instances: seq<Instance>)
    requires RunnableSubFlow(s)
    ensures instances == OfBranches(spec, clusters, assetID, s.flowType, s.steps)
  {
    instances := [];
    for j := 0 to |s.steps|
      invariant instances == OfBranches(spec, clusters, assetID, s.flowType, s.steps[..j])
    {
      assert s.steps[..j + 1][..j] == s.steps[..j];
      var more := StepInstances(spec, clusters, assetID, s.flowType, s.steps[j]);
      instances := instances + more;
    }
    assert s.steps[..|s.steps|] == s.steps;
  }

  method FlowInstances(spec: PlotterSpec, clusters: seq<ClusterInfo>, flow: Flow) returns (instances: seq<Instance>)
    requires RunnableFlow(flow)
    ensures instances == OfSubFlows(spec, clusters, flow.assetID, flow.subFlows)
  {
    instances := [];
    for i := 0 to |flow.subFlows|
      invariant instances == OfSubFlows(spec, clusters, flow.assetID, flow.subFlows[..i])
    {
      assert flow.subFlows[..i + 1][..i] == flow.subFlows[..i];
      assert RunnableSubFlow(flow.subFlows[i]);
      hide RunnableSubFlow, OfBranches;
      var more := SubFlowInstances(spec, clusters, flow.assetID, flow.subFlows[i]);
      instances := instances + more;
    }
    assert flow.subFlows[..|flow.subFlows|] == flow.subFlows;
  }

  /** The blueprints of a plotter: all its instances, cluster by cluster. */
  method GetBlueprintsMap(spec: PlotterSpec, clusters: seq<ClusterInfo>, hash: string -> string)
    returns (blueprints: map<string, BlueprintSpec>)
    requires RunnableFlows(spec.flows)
    ensures IsBlueprintMap(spec, clusters, hash, blueprints)
  {
    var instances: seq<Instance> := [];
    for i := 0 to |spec.flows|
      invariant instances == OfFlows(spec, clusters, spec.flows[..i])
    {
      assert spec.flows[..i + 1][..i] == spec.flows[..i];
      assert RunnableFlow(spec.flows[i]);
      var more := FlowInstances(spec, clusters, spec.flows[i]);
      instances := instances + more;
    }
    assert spec.flows[..|spec.flows|] == spec.flows;
    FlowsContained(spec, clusters, spec.flows);
    blueprints := GenerateBlueprints(instances, hash);
  }

  ghost predicate IsBlueprintMap(spec: PlotterSpec, clusters: seq<ClusterInfo>, hash: string -> string,
                                 blueprints: map<string, BlueprintSpec>)
    requires RunnableFlows(spec.flows)
  {
    var instances := OfFlows(spec, clusters, spec.flows);
    && (forall c :: c in blueprints <==> OnCluster(instances, c) != [])
    && (forall c :: c in blueprints ==>
          blueprints[c].cluster == c && IsCompiled(blueprints[c].modules, OnCluster(instances, c), hash))
  }

  // Every level contains the instances of its parts, and an instance is made for one asset.

  ghost predicate OneAssetEach(list: seq<Instance>) {
    forall i :: 0 <= i < |list| ==> |list[i].assetIDs| == 1
  }

  lemma {:induction false} ModulesContained(spec: PlotterSpec, clusters: seq<ClusterInfo>, assetID: string, t: FlowType,
                                            step: Step, modules: seq<ModuleInfo>)
    requires Runnable(t, step)
    ensures OneAssetEach(OfModules(spec, clusters, assetID, t, step, modules))
    ensures forall k :: 0 <= k < |modules| ==>
              InstanceFor(spec, clusters, assetID, t, step, modules[k]) in
              OfModules(spec, clusters, assetID, t, step, modules)
  {
    if modules != [] {
      ModulesContained(spec, clusters, assetID, t, step, modules[..|modules| - 1]);
      assert forall k :: 0 <= k < |modules| - 1 ==> modules[k] == modules[..|modules| - 1][k];
    }
  }

  lemma {:induction false} StepsContained(spec: PlotterSpec, clusters: seq<ClusterInfo>, assetID: string, t: FlowType,
                                          steps: seq<Step>)
    requires forall j :: 0 <= j < |steps| ==> Runnable(t, steps[j])
    ensures OneAssetEach(OfSteps(spec, clusters, assetID, t, steps))
    ensures forall j :: 0 <= j < |steps| ==>
              forall x ::
                x in OfModules(spec, clusters, assetID, t, steps[j], TemplateModules(spec, steps[j].template)) ==>
                x in OfSteps(spec, clusters, assetID, t, steps)
  {
    if steps != [] {
      var init, last := steps[..|steps| - 1], steps[|steps| - 1];
      StepsContained(spec, clusters, assetID, t, init);
      ModulesContained(spec, clusters, assetID, t, last, TemplateModules(spec, last.template));
      assert forall j :: 0 <= j < |init| ==> steps[j] == init[j];
    }
  }

  lemma {:induction false} BranchesContained(
    spec: PlotterSpec, clusters: seq<ClusterInfo>, assetID: string, t: FlowType, branches: seq<seq<Step>>)
    requires forall i, j :: 0 <= i < |branches| && 0 <= j < |branches[i]| ==> Runnable(t, branches[i][j])
    ensures OneAssetEach(OfBranches(spec, clusters, assetID, t, branches))
    ensures forall i, x :: 0 <= i < |branches| && x in OfSteps(spec, clusters, assetID, t, branches[i]) ==>
              x in OfBranches(spec, clusters, assetID, t, branches)
  {
    if branches != [] {
      var init := branches[..|branches| - 1];
      BranchesContained(spec, clusters, assetID, t, init);
      StepsContained(spec, clusters, assetID, t, branches[|branches| - 1]);
      assert forall i :: 0 <= i < |init| ==> branches[i] == init[i];
    }
  }

  lemma {:induction false} SubFlowsContained(spec: PlotterSpec, clusters: seq<ClusterInfo>, assetID: string,
                                             subFlows: seq<SubFlow>)
    requires forall i :: 0 <= i < |subFlows| ==> RunnableSubFlow(subFlows[i])
    ensures OneAssetEach(OfSubFlows(spec, clusters, assetID, subFlows))
    ensures forall i :: 0 <= i < |subFlows| ==>
              forall x :: x in OfBranches(spec, clusters, assetID, subFlows[i].flowType, subFlows[i].steps) ==>
                x in OfSubFlows(spec, clusters, assetID, subFlows)
  {
    if subFlows != [] {
      var init, last := subFlows[..|subFlows| - 1], subFlows[|subFlows| - 1];
      SubFlowsContained(spec, clusters, assetID, init);
      BranchesContained(spec, clusters, assetID, last.flowType, last.steps);
      assert forall i :: 0 <= i < |init| ==> subFlows[i] == init[i];
    }
  }

  lemma {:induction false} FlowsContained(spec: PlotterSpec, clusters: seq<ClusterInfo>, flows: seq<Flow>)
    requires RunnableFlows(flows)
    ensures OneAssetEach(OfFlows(spec, clusters, flows))
    ensures forall i, x :: 0 <= i < |flows| && x in OfSubFlows(spec, clusters, flows[i].assetID, flows[i].subFlows) ==>
              x in OfFlows(spec, clusters, flows)
  {
    if flows != [] {
      var init, last := flows[..|flows| - 1], flows[|flows| - 1];
      FlowsContained(spec, clusters, init);
      SubFlowsContained(spec, clusters, last.assetID, last.subFlows);
      assert forall i :: 0 <= i < |init| ==> flows[i] == init[i];
    }
  }

  lemma {:induction false} OnClusterContains(list: seq<Instance>, x: Instance)
    requires x in list
    ensures x in OnCluster(list, x.cluster)
  {
    if x != list[|list| - 1] {
      assert list == list[..|list| - 1] + [list[|list| - 1]];
      OnClusterContains(list[..|list| - 1], x);
    }
  }

  // ---------------------------------------------------------------------------------------------
  // From the plan to the cluster
  // ---------------------------------------------------------------------------------------------

  /** The instances that the blueprint of a cluster is compiled from, in step order. */
  ghost function InstancesOn(spec: PlotterSpec, clusters: seq<ClusterInfo>, c: string): seq<Instance>
    requires RunnableFlows(spec.flows)
  {
    OnCluster(OfFlows(spec, clusters, spec.flows), c)
  }

  lemma {:induction false} InstancesAreNamed(spec: PlotterSpec, clusters: seq<ClusterInfo>, c: string)
    requires RunnableFlows(spec.flows)
    ensures AllNamed(InstancesOn(spec, clusters, c))
  {
    FlowsContained(spec, clusters, spec.flows);
    OnClusterOnly(OfFlows(spec, clusters, spec.flows), c);
  }

  /**
   * In each cluster, under each name that is apart, the blueprint has a module exactly if there is an instance of
   * that name, and the module has the reads, writes and assets of exactly those instances, in step order.
   */
  lemma {:induction false} BlueprintDelivers(spec: PlotterSpec, clusters: seq<ClusterInfo>, hash: string -> string,
                                             blueprints: map<string, BlueprintSpec>, c: string, n: string)
    requires RunnableFlows(spec.flows) && IsBlueprintMap(spec, clusters, hash, blueprints)
    requires ApartAt(InstancesOn(spec, clusters, c), hash, n)
    ensures AllNamed(InstancesOn(spec, clusters, c))
    ensures
      var called := Those(InstancesOn(spec, clusters, c), Called(hash, n));
      && (c in blueprints && n in blueprints[c].modules <==> called != [])
      && (called != [] ==> Holds(blueprints[c].modules[n], called))
  {
    var list := InstancesOn(spec, clusters, c);
    InstancesAreNamed(spec, clusters, c);
    assert c in blueprints <==> list != [];
    if c in blueprints {
      assert IsCompiled(blueprints[c].modules, list, hash);
      hide OfFlows, OnCluster, IsCompiled, ApartAt;
      DeliveredInOrder(blueprints[c].modules, list, hash, n);
    }
  }

  lemma {:induction false} MirroredIsRunnable(a: Addition, f: Flow)
    requires Contributes(a, f) && a.dataset.id != ""
    ensures RunnableFlow(f)
  {
    forall i | 0 <= i < |f.subFlows|
      ensures RunnableSubFlow(f.subFlows[i])
    {
      assert Mirrors(a.dataset, a.plan, i, f.subFlows[i]);
      AssetNamesGrow(a.dataset.id, a.plan, 0, i);
    }
  }

  /** The flows of a generated plotter can be compiled, if no dataset has an empty name. */
  lemma {:induction false} BuiltIsRunnable(spec: PlotterSpec, adds: seq<Addition>)
    requires BuiltFrom(spec, adds) && forall k :: 0 <= k < |adds| ==> adds[k].dataset.id != ""
    ensures RunnableFlows(spec.flows)
  {
    forall k | 0 <= k < |spec.flows|
      ensures RunnableFlow(spec.flows[k])
    {
      assert Contributes(adds[k], spec.flows[k]);
      MirroredIsRunnable(adds[k], spec.flows[k]);
    }
  }

  /** Where element `i` reads, with the credentials for reading from its cluster. */
  ghost function SourceFor(a: Addition, clusters: seq<ClusterInfo>, i: nat): DataStore
    requires Successful(a) && i < |a.plan|
  {
    ForFlow(DetailsAt(a, i).store, AuthPath(clusters, a.plan[i].cluster), ReadFlow)
  }

  /** The copy that element `i` makes: from the store it reads to the store that the next element reads. */
  ghost function CopyFor(a: Addition, clusters: seq<ClusterInfo>, i: nat): CopyArg
    requires Successful(a) && i < |a.plan|
  {
    CopyArg(SourceFor(a, clusters, i),
            ForFlow(DetailsAt(a, i + 1).store, AuthPath(clusters, a.plan[i].cluster), WriteFlow),
            a.dataset.id, a.plan[i].actions)
  }

  ghost function ReadFor(a: Addition, clusters: seq<ClusterInfo>, i: nat): ReadArg
    requires Successful(a) && i < |a.plan|
  {
    ReadArg(SourceFor(a, clusters, i), a.dataset.id, a.plan[i].actions)
  }

  /** The arguments make a module do what the plan says for element `i`. */
  ghost predicate Performs(args: Arguments, a: Addition, clusters: seq<ClusterInfo>, i: nat)
    requires Successful(a) && i < |a.plan|
  {
    if a.plan[i].edge.sink.virtual then ReadFor(a, clusters, i) in args.read
    else args.copy == Some(CopyFor(a, clusters, i))
  }

  /** A plug-in gets no arguments, so it does not do what the plan says. */
  ghost predicate IsPlugin(a: Addition, i: nat)
    requires i < |a.plan|
  {
    a.plan[i].edge.mod.moduleType == PLUGIN
  }

  /** The name that the instance for element `i` gets. */
  ghost function ElementName(a: Addition, hash: string -> string, i: nat): string
    requires PlanCapable(a.plan) && i < |a.plan|
  {
    var e := a.plan[i].edge;
    if e.Cap().scope == AssetScope then e.mod.name + "-" + hash(a.dataset.id) else e.mod.name
  }

  /** The plotter serves element `i` as planned, and has the stores it reads and writes. */
  ghost predicate WellServed(spec: PlotterSpec, a: Addition, i: nat)
    requires Successful(a) && i < |a.plan|
  {
    && ServedAsPlanned(spec.templates, a.plan[i])
    && StoreHeld(spec.assets, a, i) && StoreHeld(spec.assets, a, i + 1)
  }

  lemma {:induction false} InstanceOfElement(
    spec: PlotterSpec, clusters: seq<ClusterInfo>, a: Addition, f: Flow, i: nat)
    returns (x: Instance)
    requires Contributes(a, f) && RunnableFlow(f) && i < |a.plan| && a.dataset.id != "" && WellServed(spec, a, i)
    ensures x in OfSubFlows(spec, clusters, f.assetID, f.subFlows)
    ensures x.cluster == a.plan[i].cluster && x.moduleName == a.plan[i].edge.mod.name
    ensures x.scope == a.plan[i].edge.Cap().scope
    ensures x.assetIDs == [a.dataset.id] && x.chart == a.plan[i].edge.mod.chart
    ensures x.args == if IsPlugin(a, i) then Arguments(None, [], [])
                      else if a.plan[i].edge.sink.virtual then Arguments(None, [ReadFor(a, clusters, i)], [])
                      else Arguments(Some(CopyFor(a, clusters, i)), [], [])
  {
    var s := f.subFlows[i];
    var r := a.plan[i];
    assert Mirrors(a.dataset, a.plan, i, s) && RunnableSubFlow(s);
    var step := s.steps[0][0];
    AssetNamesGrow(a.dataset.id, a.plan, 0, i);
    var modules := TemplateModules(spec, step.template);
    assert modules == TemplateFor(r).modules;
    x := InstanceFor(spec, clusters, a.dataset.id, s.flowType, step, modules[0]);
    hide AssetAt, DetailsAt;
    ModulesContained(spec, clusters, a.dataset.id, s.flowType, step, modules);
    StepsContained(spec, clusters, a.dataset.id, s.flowType, s.steps[0]);
    BranchesContained(spec, clusters, a.dataset.id, s.flowType, s.steps);
    SubFlowsContained(spec, clusters, a.dataset.id, f.subFlows);
  }

  /**
   * Every element of a plan becomes an instance of the planned module in the planned cluster; only a plug-in does
   * nothing.
   */
  lemma {:induction false} PlanReachesInstances(
    spec: PlotterSpec, clusters: seq<ClusterInfo>, adds: seq<Addition>, k: nat, i: nat)
    returns (x: Instance)
    requires BuiltFrom(spec, adds) && RunnableFlows(spec.flows) && k < |adds| && adds[k].dataset.id != ""
    requires Successful(adds[k]) && i < |adds[k].plan| && WellServed(spec, adds[k], i)
    ensures x in InstancesOn(spec, clusters, adds[k].plan[i].cluster)
    ensures x.moduleName == adds[k].plan[i].edge.mod.name && x.scope == adds[k].plan[i].edge.Cap().scope
    ensures x.assetIDs == [adds[k].dataset.id] && x.chart == adds[k].plan[i].edge.mod.chart
    ensures if IsPlugin(adds[k], i) then x.args == Arguments(None, [], []) else Performs(x.args, adds[k], clusters, i)
  {
    var (a, f) := (adds[k], spec.flows[k]);
    assert Contributes(a, f) && RunnableFlow(f);
    x := InstanceOfElement(spec, clusters, a, f, i);
    hide Contributes, WellServed, BuiltFrom, Successful;
    FlowsContained(spec, clusters, spec.flows);
    OnClusterContains(OfFlows(spec, clusters, spec.flows), x);
  }

  /** The instances that share a module in a cluster, in step order. */
  ghost function SharingOn(spec: PlotterSpec, clusters: seq<ClusterInfo>, c: string, m: string): seq<Instance>
    requires RunnableFlows(spec.flows)
  {
    Those(InstancesOn(spec, clusters, c), Sharing(m))
  }

  /** The plotter does not mix up what its flows need. */
  ghost predicate Undisturbed(adds: seq<Addition>) {
    && AllSuccessful(adds) && StoresAgree(adds)
    && (forall r, s :: ElementOf(adds, r) && ElementOf(adds, s) ==> SameTemplate(r, s))
    && (forall k :: 0 <= k < |adds| ==> adds[k].dataset.id != "")
  }

  lemma {:induction false} UndisturbedIsServed(spec: PlotterSpec, adds: seq<Addition>, k: nat, i: nat)
    requires BuiltFrom(spec, adds) && Undisturbed(adds) && k < |adds| && i < |adds[k].plan|
    ensures Successful(adds[k]) && WellServed(spec, adds[k], i)
  {
    TemplatesMatchExactly(spec, adds);
    StoresMatchExactly(spec, adds);
    assert ElementOf(adds, adds[k].plan[i]);
    assert StoreHeld(spec.assets, adds[k], i) && StoreHeld(spec.assets, adds[k], i + 1);
  }

  /** What the blueprint of its cluster has for element `i`. */
  ghost predicate Reached(spec: PlotterSpec, clusters: seq<ClusterInfo>, hash: string -> string,
                          blueprints: map<string, BlueprintSpec>, a: Addition, i: nat)
    requires RunnableFlows(spec.flows) && Successful(a) && i < |a.plan|
  {
    var (r, n) := (a.plan[i], ElementName(a, hash, i));
    && r.cluster in blueprints && n in blueprints[r.cluster].modules
    && var m := blueprints[r.cluster].modules[n];
       && m.name == r.edge.mod.name && a.dataset.id in m.assetIDs
       && if r.edge.Cap().scope == AssetScope then
            && m.chart == r.edge.mod.chart && m.assetIDs == [a.dataset.id]
            && (Performs(m.args, a, clusters, i) <==> !IsPlugin(a, i))
          else
            var shared := SharingOn(spec, clusters, r.cluster, r.edge.mod.name);
            && shared != [] && m.chart == shared[0].chart
            && (Performs(m.args, a, clusters, i) <==>
                if r.edge.sink.virtual then ReadFor(a, clusters, i) in Reads(shared)
                else shared[0].args.copy == Some(CopyFor(a, clusters, i)))
            && (r.edge.sink.virtual && !IsPlugin(a, i) ==> Performs(m.args, a, clusters, i))
  }

  /**
   * The blueprint of the planned cluster has a module for every element of every plan.  It is the planned module, with
   * the planned actions, stores and credentials, except that a plug-in gets no arguments and a shared module makes only
   * the copy of its first instance.
   */
  lemma {:induction false} PlanReachesBlueprint(
    spec: PlotterSpec, clusters: seq<ClusterInfo>, hash: string -> string, blueprints: map<string, BlueprintSpec>,
    adds: seq<Addition>, k: nat, i: nat) returns (x: Instance)
    requires BuiltFrom(spec, adds) && Undisturbed(adds) && k < |adds| && i < |adds[k].plan|
    requires RunnableFlows(spec.flows) && IsBlueprintMap(spec, clusters, hash, blueprints)
    requires ApartAt(InstancesOn(spec, clusters, adds[k].plan[i].cluster), hash, ElementName(adds[k], hash, i))
    ensures Reached(spec, clusters, hash, blueprints, adds[k], i)
    ensures x in InstancesOn(spec, clusters, adds[k].plan[i].cluster) && x.scope == adds[k].plan[i].edge.Cap().scope
    ensures x.moduleName == adds[k].plan[i].edge.mod.name
    ensures !IsPlugin(adds[k], i) ==> Performs(x.args, adds[k], clusters, i)
  {
    var (a, r, n) := (adds[k], adds[k].plan[i], ElementName(adds[k], hash, i));
    UndisturbedIsServed(spec, adds, k, i);
    x := PlanReachesInstances(spec, clusters, adds, k, i);
    BlueprintDelivers(spec, clusters, hash, blueprints, r.cluster, n);
    IsHeld(InstancesOn(spec, clusters, r.cluster), hash, x, n);
    hide *;
    ReachedByHeld(spec, clusters, hash, blueprints, a, i, x);
  }

  lemma {:induction false} ReachedByHeld(
    spec: PlotterSpec, clusters: seq<ClusterInfo>, hash: string -> string, blueprints: map<string, BlueprintSpec>,
    a: Addition, i: nat, x: Instance)
    requires RunnableFlows(spec.flows) && Successful(a) && i < |a.plan|
    requires x.moduleName == a.plan[i].edge.mod.name && x.scope == a.plan[i].edge.Cap().scope
    requires x.assetIDs == [a.dataset.id] && x.chart == a.plan[i].edge.mod.chart
    requires if IsPlugin(a, i) then x.args == Arguments(None, [], []) else Performs(x.args, a, clusters, i)
    requires
      var (r, n) := (a.plan[i], ElementName(a, hash, i));
      var list := InstancesOn(spec, clusters, r.cluster);
      && Held(list, hash, x, n) && r.cluster in blueprints && n in blueprints[r.cluster].modules
      && Holds(blueprints[r.cluster].modules[n], Those(list, Called(hash, n)))
    ensures Reached(spec, clusters, hash, blueprints, a, i)
  {
    hide RunnableFlows, InstancesOn, Successful, SourceFor, CopyFor, Those, Reads, Writes, Assets;
  }

  ghost function TwoCopies(): Addition {
    Addition(PlainDataset("d"), [ElementBy("M", "copy", true), ElementBy("M", "copy", true)])
  }

  lemma {:induction false} TwoCopiesStores()
    ensures var a := TwoCopies();
      && Successful(a) && NameAt(a, 0) == "d" && NameAt(a, 1) == "d-copy" && NameAt(a, 2) !in {"d", "d-copy"}
      && DetailsAt(a, 0).store.connection == "d" && DetailsAt(a, 1).store.connection == "bucket"
  {
    var a := TwoCopies();
    PlainSucceeds("d", a.plan);
    assert AssetAt("d", a.plan, 0) == "d";
    AssetNamesGrow("d", a.plan, 0, 2);
    AssetNamesGrow("d", a.plan, 1, 2);
    assert CopyBetween(a.plan, 0, 2) && CopyBetween(a.plan, 1, 2);
  }

  lemma {:induction false} TwoCopiesAgree()
    ensures AllSuccessful([TwoCopies()]) && StoresAgree([TwoCopies()])
  {
    TwoCopiesStores();
    hide Successful, NameAt, DetailsAt;
  }

  lemma {:induction false} TwoCopiesDiffer(clusters: seq<ClusterInfo>, hash: string -> string)
    ensures var a := TwoCopies();
      && Successful(a) && Undisturbed([a]) && CopyFor(a, clusters, 0) != CopyFor(a, clusters, 1)
      && ElementName(a, hash, 0) == ElementName(a, hash, 1)
  {
    TwoCopiesStores();
    TwoCopiesAgree();
    hide Successful, NameAt, DetailsAt, StoresAgree;
  }

  /** A plan with two copies by one module in one cluster: both get one name, and no module makes both copies. */
  lemma {:induction false} TwoCopiesCollide(
    clusters: seq<ClusterInfo>, hash: string -> string) returns (spec: PlotterSpec)
    ensures Successful(TwoCopies()) && Undisturbed([TwoCopies()]) && BuiltFrom(spec, [TwoCopies()])
    ensures RunnableFlows(spec.flows)
    ensures AllNamed(InstancesOn(spec, clusters, "cluster"))
    ensures !NamesApart(InstancesOn(spec, clusters, "cluster"), hash)
    ensures ElementName(TwoCopies(), hash, 0) == ElementName(TwoCopies(), hash, 1)
    ensures forall args :: !(Performs(args, TwoCopies(), clusters, 0) && Performs(args, TwoCopies(), clusters, 1))
  {
    var a := TwoCopies();
    var adds := [a];
    TwoCopiesDiffer(clusters, hash);
    spec := PlotterOf(adds);
    BuiltIsRunnable(spec, adds);
    UndisturbedIsServed(spec, adds, 0, 0);
    UndisturbedIsServed(spec, adds, 0, 1);
    var x := PlanReachesInstances(spec, clusters, adds, 0, 0);
    var y := PlanReachesInstances(spec, clusters, adds, 0, 1);
    InstancesAreNamed(spec, clusters, "cluster");
    hide BuiltFrom, Undisturbed, Successful, RunnableFlows, InstancesOn, CopyFor;
    OneNameTwice(InstancesOn(spec, clusters, "cluster"), hash, x, y);
  }
}
