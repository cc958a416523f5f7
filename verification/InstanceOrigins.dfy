/**
 * Where the arguments in a blueprint come from: stores, credentials and actions, field by field
 * (manager/controllers/app/plotter_controller.go).
 */
module InstanceOrigins {
  import opened Prelude
  import opened AdminPolicies
  import opened DataPaths
  import opened Planner
  import opened PlotterTypes
  import opened BlueprintCompiler
  import opened BlueprintDelivery
  import opened PlotterCompiler

  // ---------------------------------------------------------------------------------------------
  // Stores and credentials
  // ---------------------------------------------------------------------------------------------

  /** The first cluster of that name. */
  ghost predicate IsFirstNamed(clusters: seq<ClusterInfo>, cluster: string, k: int) {
    && 0 <= k < |clusters| && clusters[k].name == cluster
    && forall j :: 0 <= j < k ==> clusters[j].name != cluster
  }

  /** The path to log in from the cluster: that of the first one of its name, if it has one. */
  ghost predicate LogsIn(clusters: seq<ClusterInfo>, cluster: string, path: string) {
    && (forall k :: IsFirstNamed(clusters, cluster, k) ==>
          path == if clusters[k].vaultAuthPath == "" then "" else "/v1/auth/" + clusters[k].vaultAuthPath + "/login")
    && ((forall k :: 0 <= k < |clusters| ==> clusters[k].name != cluster) ==> path == "")
  }

  lemma {:induction false} AuthPathExactly(clusters: seq<ClusterInfo>, cluster: string)
    ensures LogsIn(clusters, cluster, AuthPath(clusters, cluster))
  {
    if clusters != [] && clusters[0].name != cluster {
      var rest := clusters[1..];
      AuthPathExactly(rest, cluster);
      forall k | IsFirstNamed(clusters, cluster, k)
        ensures IsFirstNamed(rest, cluster, k - 1)
      {
        assert rest[k - 1] == clusters[k];
        assert forall j :: 0 <= j < k - 1 ==> rest[j] == clusters[j + 1];
      }
      assert forall k :: 0 <= k < |rest| ==> rest[k] == clusters[k + 1];
    }
  }

  /** The store is the one held, with just the credentials for one kind of access, to be used from the cluster. */
  ghost predicate Granted(store: DataStore, held: DataStore, t: FlowType, clusters: seq<ClusterInfo>, cluster: string) {
    && store.connection == held.connection && store.format == held.format
    && store.vault.Keys == {t} && LogsIn(clusters, cluster, store.vault[t].authPath)
    && var (v, none) := (store.vault[t], t !in held.vault);
       && v.role == (if none then "" else held.vault[t].role)
       && v.address == (if none then "" else held.vault[t].address)
       && v.secretPath == (if none then "" else held.vault[t].secretPath)
  }

  /** The store of the asset, with just the credentials for one kind of access; an unknown asset has an empty store. */
  ghost predicate FromAsset(
    spec: PlotterSpec, asset: string, store: DataStore, t: FlowType, clusters: seq<ClusterInfo>, cluster: string)
  {
    && (asset in spec.assets ==> Granted(store, spec.assets[asset].store, t, clusters, cluster))
    && (asset !in spec.assets ==> Granted(store, DataStore("", "", map[]), t, clusters, cluster))
  }

  /** The store of the asset that is read, or the service of another step, for which there are no credentials. */
  ghost predicate FromSource(
    spec: PlotterSpec, source: StepSource, store: DataStore, clusters: seq<ClusterInfo>, cluster: string)
  {
    if source.assetID != "" then FromAsset(spec, source.assetID, store, ReadFlow, clusters, cluster)
    else source.api.Some? && store.vault == map[] &&
         store.connection == source.api.value.protocol && store.format == source.api.value.dataFormat
  }

  lemma {:induction false} GrantedByFlow(
    spec: PlotterSpec, asset: string, t: FlowType, clusters: seq<ClusterInfo>, cluster: string)
    ensures FromAsset(spec, asset, ForFlow(StoreOf(spec, asset), AuthPath(clusters, cluster), t), t, clusters, cluster)
  {
    AuthPathExactly(clusters, cluster);
    hide LogsIn, AuthPath;
  }

  lemma {:induction false} GrantedBySource(
    spec: PlotterSpec, source: StepSource, clusters: seq<ClusterInfo>, cluster: string)
    requires source.assetID != "" || source.api.Some?
    ensures FromSource(spec, source, SourceStore(spec, source, AuthPath(clusters, cluster)), clusters, cluster)
  {
    GrantedByFlow(spec, source.assetID, ReadFlow, clusters, cluster);
    hide FromAsset, ForFlow;
  }

  // ---------------------------------------------------------------------------------------------
  // Origins
  // ---------------------------------------------------------------------------------------------

  /** What an instance is made for: one module of the template of one step of a sub-flow. */
  datatype Origin = Origin(flow: Flow, subFlow: SubFlow, step: Step, mod: ModuleInfo)

  ghost predicate StepOf(s: SubFlow, step: Step) {
    exists i :: 0 <= i < |s.steps| && step in s.steps[i]
  }

  ghost predicate IsOrigin(spec: PlotterSpec, o: Origin) {
    && o.flow in spec.flows && o.subFlow in o.flow.subFlows && StepOf(o.subFlow, o.step)
    && o.step.template in spec.templates && o.mod in spec.templates[o.step.template].modules
  }

  /** The module is given arguments: it is not a plug-in, and the step has some. */
  ghost predicate HasArguments(o: Origin, t: FlowType) {
    o.step.parameters.Some? && o.mod.moduleType != "plugin" && o.subFlow.flowType == t
  }

  ghost predicate ReadFrom(spec: PlotterSpec, clusters: seq<ClusterInfo>, o: Origin, r: ReadArg) {
    && HasArguments(o, ReadFlow) && r.assetID == o.flow.assetID
    && var p := o.step.parameters.value;
       r.transformations == p.actions && FromSource(spec, p.source, r.source, clusters, o.step.cluster)
  }

  ghost predicate WriteFrom(spec: PlotterSpec, clusters: seq<ClusterInfo>, o: Origin, w: WriteArg) {
    && HasArguments(o, WriteFlow) && w.assetID == o.flow.assetID
    && var p := o.step.parameters.value;
       && w.transformations == p.actions && p.sink.Some?
       && FromAsset(spec, p.sink.value, w.destination, WriteFlow, clusters, o.step.cluster)
  }

  ghost predicate CopyFrom(spec: PlotterSpec, clusters: seq<ClusterInfo>, o: Origin, c: CopyArg) {
    && HasArguments(o, CopyFlow) && c.assetID == o.flow.assetID
    && var p := o.step.parameters.value;
       && c.transformations == p.actions && p.sink.Some?
       && FromSource(spec, p.source, c.source, clusters, o.step.cluster)
       && FromAsset(spec, p.sink.value, c.destination, WriteFlow, clusters, o.step.cluster)
  }

  ghost predicate ArgumentsFrom(spec: PlotterSpec, clusters: seq<ClusterInfo>, o: Origin, args: Arguments) {
    && (forall r :: r in args.read ==> ReadFrom(spec, clusters, o, r))
    && (forall w :: w in args.write ==> WriteFrom(spec, clusters, o, w))
    && (args.copy.Some? ==> CopyFrom(spec, clusters, o, args.copy.value))
    && |args.read| == (if HasArguments(o, ReadFlow) then 1 else 0)
    && |args.write| == (if HasArguments(o, WriteFlow) then 1 else 0)
    && (args.copy.Some? <==> HasArguments(o, CopyFlow))
  }

  /** The instance is the planned module with the arguments of its step, for the dataset of its flow. */
  ghost predicate MadeFor(spec: PlotterSpec, clusters: seq<ClusterInfo>, o: Origin, x: Instance) {
    && x.cluster == o.step.cluster && x.moduleName == o.mod.name && x.chart == o.mod.chart && x.scope == o.mod.scope
    && x.assetIDs == [o.flow.assetID] && ArgumentsFrom(spec, clusters, o, x.args)
  }

  lemma {:induction false} InstanceIsMade(spec: PlotterSpec, clusters: seq<ClusterInfo>, o: Origin)
    requires Runnable(o.subFlow.flowType, o.step)
    ensures MadeFor(spec, clusters, o,
                    InstanceFor(spec, clusters, o.flow.assetID, o.subFlow.flowType, o.step, o.mod))
  {
    if o.step.parameters.Some? {
      var (p, c) := (o.step.parameters.value, o.step.cluster);
      GrantedBySource(spec, p.source, clusters, c);
      if p.sink.Some? {
        GrantedByFlow(spec, p.sink.value, WriteFlow, clusters, c);
      }
    }
    hide FromSource, FromAsset, SourceStore, ForFlow, AuthPath;
  }

  // Every instance has an origin, level by level.

  lemma {:induction false} OriginInModules(
    spec: PlotterSpec, clusters: seq<ClusterInfo>, assetID: string, t: FlowType, step: Step, modules: seq<ModuleInfo>,
    x: Instance) returns (m: ModuleInfo)
    requires Runnable(t, step) && x in OfModules(spec, clusters, assetID, t, step, modules)
    ensures m in modules && x == InstanceFor(spec, clusters, assetID, t, step, m)
  {
    var last := modules[|modules| - 1];
    hide InstanceFor;
    if x == InstanceFor(spec, clusters, assetID, t, step, last) {
      m := last;
    } else {
      m := OriginInModules(spec, clusters, assetID, t, step, modules[..|modules| - 1], x);
    }
  }

  lemma {:induction false} OriginInSteps(
    spec: PlotterSpec, clusters: seq<ClusterInfo>, assetID: string, t: FlowType, steps: seq<Step>, x: Instance)
    returns (step: Step)
    requires forall j :: 0 <= j < |steps| ==> Runnable(t, steps[j])
    requires x in OfSteps(spec, clusters, assetID, t, steps)
    ensures step in steps && Runnable(t, step)
    ensures x in OfModules(spec, clusters, assetID, t, step, TemplateModules(spec, step.template))
  {
    var last := steps[|steps| - 1];
    hide OfModules, Runnable;
    if x in OfModules(spec, clusters, assetID, t, last, TemplateModules(spec, last.template)) {
      step := last;
    } else {
      step := OriginInSteps(spec, clusters, assetID, t, steps[..|steps| - 1], x);
    }
  }

  lemma {:induction false} OriginInBranches(
    spec: PlotterSpec, clusters: seq<ClusterInfo>, assetID: string, t: FlowType, branches: seq<seq<Step>>, x: Instance)
    returns (i: nat)
    requires forall i, j :: 0 <= i < |branches| && 0 <= j < |branches[i]| ==> Runnable(t, branches[i][j])
    requires x in OfBranches(spec, clusters, assetID, t, branches)
    ensures i < |branches| && x in OfSteps(spec, clusters, assetID, t, branches[i])
  {
    var last := |branches| - 1;
    hide OfSteps, Runnable;
    if x in OfSteps(spec, clusters, assetID, t, branches[last]) {
      i := last;
    } else {
      i := OriginInBranches(spec, clusters, assetID, t, branches[..last], x);
    }
  }

  lemma {:induction false} OriginInSubFlows(
    spec: PlotterSpec, clusters: seq<ClusterInfo>, assetID: string, subFlows: seq<SubFlow>, x: Instance)
    returns (s: SubFlow)
    requires forall i :: 0 <= i < |subFlows| ==> RunnableSubFlow(subFlows[i])
    requires x in OfSubFlows(spec, clusters, assetID, subFlows)
    ensures s in subFlows && RunnableSubFlow(s) && x in OfBranches(spec, clusters, assetID, s.flowType, s.steps)
  {
    var last := subFlows[|subFlows| - 1];
    assert RunnableSubFlow(last);
    hide OfBranches;
    if x in OfBranches(spec, clusters, assetID, last.flowType, last.steps) {
      s := last;
    } else {
      s := OriginInSubFlows(spec, clusters, assetID, subFlows[..|subFlows| - 1], x);
    }
  }

  lemma {:induction false} OriginInFlows(spec: PlotterSpec, clusters: seq<ClusterInfo>, flows: seq<Flow>, x: Instance)
    returns (f: Flow)
    requires RunnableFlows(flows) && x in OfFlows(spec, clusters, flows)
    ensures f in flows && RunnableFlow(f) && x in OfSubFlows(spec, clusters, f.assetID, f.subFlows)
  {
    var last := flows[|flows| - 1];
    assert RunnableFlow(last);
    hide OfSubFlows, RunnableFlow;
    if x in OfSubFlows(spec, clusters, last.assetID, last.subFlows) {
      f := last;
    } else {
      f := OriginInFlows(spec, clusters, flows[..|flows| - 1], x);
    }
  }

  /** Every instance of a plotter is made for a module of a step, with the store and the credentials of its assets. */
  lemma {:induction false} InstanceHasOrigin(spec: PlotterSpec, clusters: seq<ClusterInfo>, x: Instance)
    returns (o: Origin)
    requires RunnableFlows(spec.flows) && x in OfFlows(spec, clusters, spec.flows)
    ensures IsOrigin(spec, o) && MadeFor(spec, clusters, o, x)
  {
    var f := OriginInFlows(spec, clusters, spec.flows, x);
    var s := OriginInSubFlows(spec, clusters, f.assetID, f.subFlows, x);
    var i := OriginInBranches(spec, clusters, f.assetID, s.flowType, s.steps, x);
    var step := OriginInSteps(spec, clusters, f.assetID, s.flowType, s.steps[i], x);
    var m := OriginInModules(spec, clusters, f.assetID, s.flowType, step, TemplateModules(spec, step.template), x);
    o := Origin(f, s, step, m);
    assert StepOf(s, step);
    hide RunnableFlows, RunnableFlow, RunnableSubFlow, OfFlows, OfSubFlows, OfBranches, OfSteps, OfModules, MadeFor;
    InstanceIsMade(spec, clusters, o);
  }

  // ---------------------------------------------------------------------------------------------
  // Blueprints
  // ---------------------------------------------------------------------------------------------

  lemma {:induction false} ReadOf(list: seq<Instance>, r: ReadArg) returns (x: Instance)
    requires r in Reads(list)
    ensures x in list && r in x.args.read
  {
    var last := list[|list| - 1];
    if r in last.args.read {
      x := last;
    } else {
      x := ReadOf(list[..|list| - 1], r);
    }
  }

  lemma {:induction false} WriteOf(list: seq<Instance>, w: WriteArg) returns (x: Instance)
    requires w in Writes(list)
    ensures x in list && w in x.args.write
  {
    var last := list[|list| - 1];
    if w in last.args.write {
      x := last;
    } else {
      x := WriteOf(list[..|list| - 1], w);
    }
  }

  /** Whatever a compiled module does, it does for instances of the list. */
  lemma {:induction false} CompiledFromInstances(
    modules: map<string, BlueprintModule>, list: seq<Instance>, hash: string -> string, n: string)
    returns (those: seq<Instance>)
    requires IsCompiled(modules, list, hash) && n in modules
    ensures those != [] && (forall x :: x in those ==> x in list)
    ensures modules[n].args == Arguments(those[0].args.copy, Reads(those), Writes(those))
    ensures modules[n].name == those[0].moduleName && modules[n].chart == those[0].chart
    ensures modules[n].assetIDs == Assets(those)
  {
    var shared := Those(list, Sharing(n));
    var own := Those(list, Own(hash, n));
    UnitedInOrder(list, n);
    LastOwn(list, hash, n);
    ThoseMembers(list, Sharing(n));
    ThoseMembers(list, Own(hash, n));
    assert Some(modules[n]) ==
      match Compiled(list, hash, n) { case Some(x) => Some(ToModule(x)) case None => None };
    hide Those, United, LastNamed, PerAsset, IsCompiled;
    if United(list, n).Some? {
      those := shared;
    } else {
      those := [own[|own| - 1]];
      assert those[0] in own;
      CarriesOne(those[0]);
    }
  }

  ghost predicate ReadGranted(spec: PlotterSpec, clusters: seq<ClusterInfo>, c: string, r: ReadArg) {
    exists o :: IsOrigin(spec, o) && o.step.cluster == c && ReadFrom(spec, clusters, o, r)
  }

  ghost predicate WriteGranted(spec: PlotterSpec, clusters: seq<ClusterInfo>, c: string, w: WriteArg) {
    exists o :: IsOrigin(spec, o) && o.step.cluster == c && WriteFrom(spec, clusters, o, w)
  }

  ghost predicate CopyGranted(spec: PlotterSpec, clusters: seq<ClusterInfo>, c: string, a: CopyArg) {
    exists o :: IsOrigin(spec, o) && o.step.cluster == c && CopyFrom(spec, clusters, o, a)
  }

  lemma {:induction false} InstanceIsGranted(spec: PlotterSpec, clusters: seq<ClusterInfo>, c: string, x: Instance)
    requires RunnableFlows(spec.flows) && x in OfFlows(spec, clusters, spec.flows) && x.cluster == c
    ensures forall r :: r in x.args.read ==> ReadGranted(spec, clusters, c, r)
    ensures forall w :: w in x.args.write ==> WriteGranted(spec, clusters, c, w)
    ensures x.args.copy.Some? ==> CopyGranted(spec, clusters, c, x.args.copy.value)
  {
    var o := InstanceHasOrigin(spec, clusters, x);
    hide IsOrigin, ReadFrom, WriteFrom, CopyFrom, RunnableFlows, OfFlows;
  }

  /** The instances of a cluster are instances of the plotter that run there. */
  lemma {:induction false} RunsThere(spec: PlotterSpec, clusters: seq<ClusterInfo>, c: string, x: Instance)
    requires RunnableFlows(spec.flows) && x in InstancesOn(spec, clusters, c)
    ensures x in OfFlows(spec, clusters, spec.flows) && x.cluster == c
  {
    hide OfFlows;
    OnClusterMembers(OfFlows(spec, clusters, spec.flows), c, x);
  }

  lemma {:induction false} OnClusterMembers(list: seq<Instance>, c: string, x: Instance)
    requires x in OnCluster(list, c)
    ensures x in list && x.cluster == c
  {
    var last := list[|list| - 1];
    if last.cluster != c || x != last {
      OnClusterMembers(list[..|list| - 1], c, x);
    }
  }

  /**
   * Every read, write and copy in a blueprint belongs to a step in its cluster: it has the connection and the format of
   * the asset's store, the asset's credentials for just that kind of access, and the log-in path of the cluster.
   */
  lemma {:induction false} ArgumentsAreGranted(
    spec: PlotterSpec, clusters: seq<ClusterInfo>, hash: string -> string, blueprints: map<string, BlueprintSpec>,
    c: string, n: string)
    requires RunnableFlows(spec.flows) && IsBlueprintMap(spec, clusters, hash, blueprints)
    requires c in blueprints && n in blueprints[c].modules
    ensures var args := blueprints[c].modules[n].args;
      && (forall r :: r in args.read ==> ReadGranted(spec, clusters, c, r))
      && (forall w :: w in args.write ==> WriteGranted(spec, clusters, c, w))
      && (args.copy.Some? ==> CopyGranted(spec, clusters, c, args.copy.value))
  {
    var (list, args) := (InstancesOn(spec, clusters, c), blueprints[c].modules[n].args);
    assert IsCompiled(blueprints[c].modules, list, hash);
    hide *;
    var those := CompiledFromInstances(blueprints[c].modules, list, hash, n);
    forall x | x in those
      ensures x in OfFlows(spec, clusters, spec.flows) && x.cluster == c
    {
      RunsThere(spec, clusters, c, x);
    }
    forall r | r in args.read
      ensures ReadGranted(spec, clusters, c, r)
    {
      var x := ReadOf(those, r);
      InstanceIsGranted(spec, clusters, c, x);
    }
    forall w | w in args.write
      ensures WriteGranted(spec, clusters, c, w)
    {
      var x := WriteOf(those, w);
      InstanceIsGranted(spec, clusters, c, x);
    }
    InstanceIsGranted(spec, clusters, c, those[0]);
  }

  /** For every module of the template of every step there is an instance in the cluster of the step. */
  lemma {:induction false} OriginHasInstance(spec: PlotterSpec, clusters: seq<ClusterInfo>, o: Origin)
    returns (x: Instance)
    requires RunnableFlows(spec.flows) && IsOrigin(spec, o)
    ensures x in InstancesOn(spec, clusters, o.step.cluster) && MadeFor(spec, clusters, o, x)
  {
    var (f, s, t) := (o.flow, o.subFlow, o.subFlow.flowType);
    var i :| 0 <= i < |s.steps| && o.step in s.steps[i];
    assert RunnableFlow(f) && RunnableSubFlow(s) && Runnable(t, o.step);
    x := InstanceFor(spec, clusters, f.assetID, t, o.step, o.mod);
    InstanceIsMade(spec, clusters, o);
    hide MadeFor, InstanceFor, Runnable;
    ModulesContained(spec, clusters, f.assetID, t, o.step, TemplateModules(spec, o.step.template));
    StepsContained(spec, clusters, f.assetID, t, s.steps[i]);
    BranchesContained(spec, clusters, f.assetID, t, s.steps);
    SubFlowsContained(spec, clusters, f.assetID, f.subFlows);
    FlowsContained(spec, clusters, spec.flows);
    hide OfModules, OfSteps, OfBranches, OfSubFlows, OfFlows;
    assert x in OfFlows(spec, clusters, spec.flows);
    OnClusterContains(OfFlows(spec, clusters, spec.flows), x);
    assert x.cluster == o.step.cluster by {
      MadeWhere(spec, clusters, o, x);
    }
  }

  lemma {:induction false} MadeWhere(spec: PlotterSpec, clusters: seq<ClusterInfo>, o: Origin, x: Instance)
    requires MadeFor(spec, clusters, o, x)
    ensures x.cluster == o.step.cluster
  {
  }
}
