/**
 * From a plan to a flow of the plotter (manager/controllers/app/plotter_generator.go).
 */
module PlotterGeneration {
  import opened Prelude
  import opened AdminPolicies
  import opened DataPaths
  import opened Planner
  import opened PlotterTypes

  datatype Outcome<T> = Ok(value: T) | Failed(message: string)

  /** What a bucket allocation yields: the bucket that is tracked, and the data store made of it. */
  datatype Allocation = Allocation(bucket: string, store: DataStore)

  /** One dataset of the application, with the outcomes of the calls made for it. */
  datatype Dataset = Dataset(
    id: string,
    store: DataStore,
    item: Item,
    service: (Edge, string) -> Outcome<string>,     // rendering the API of a module for an asset
    allocate: (nat, string) -> Outcome<Allocation>) // allocating storage in a region for an edge

  const COPY_SUFFIX := "-copy"

  /** The asset that edge `i` reads: every copy before it has added a suffix to the name. */
  ghost function AssetAt(id: string, plan: seq<ResolvedEdge>, i: nat): string
    requires i <= |plan|
  {
    if i == 0 then id
    else AssetAt(id, plan, i - 1) + if plan[i - 1].edge.sink.virtual then "" else COPY_SUFFIX
  }

  ghost predicate PlanCapable(plan: seq<ResolvedEdge>) {
    forall i :: 0 <= i < |plan| ==> plan[i].edge.HasCapability()
  }

  function ServiceFor(d: Dataset, e: Edge, assetID: string): Outcome<Option<string>>
    requires e.HasCapability()
  {
    if e.Cap().api.None? then Ok(None)
    else match d.service(e, assetID)
         case Ok(service) => Ok(Some(service))
         case Failed(message) => Failed(message)
  }

  /** The sub-flow for one element of the plan that reads asset `from` and, if it copies, writes asset `to`. */
  function SubFlowFor(r: ResolvedEdge, from: string, to: string, api: Option<string>): SubFlow
    requires r.edge.HasCapability()
  {
    var sink := if r.edge.sink.virtual then None else Some(to);
    var step := Step(r.cluster, r.edge.Cap().name, Some(StepParameters(StepSource(from, None), sink, api, r.actions)));
    if r.edge.sink.virtual then SubFlow(ReadFlow, WorkloadTrigger, [[step]])
    else SubFlow(CopyFlow, InitTrigger, [[step]])
  }

  /** The calls needed for element `i` succeed. */
  ghost predicate Succeeds(d: Dataset, plan: seq<ResolvedEdge>, i: nat)
    requires PlanCapable(plan) && i < |plan|
  {
    && ServiceFor(d, plan[i].edge, AssetAt(d.id, plan, i)).Ok?
    && (plan[i].edge.sink.virtual || d.allocate(i, plan[i].region).Ok?)
  }

  /** Sub-flow `i` does what the plan says for element `i`. */
  ghost predicate Mirrors(d: Dataset, plan: seq<ResolvedEdge>, i: nat, f: SubFlow)
    requires PlanCapable(plan) && i < |plan|
  {
    && Succeeds(d, plan, i)
    && f == SubFlowFor(plan[i], AssetAt(d.id, plan, i), AssetAt(d.id, plan, i + 1),
                       ServiceFor(d, plan[i].edge, AssetAt(d.id, plan, i)).value)
  }

  ghost predicate MirrorsPlan(d: Dataset, plan: seq<ResolvedEdge>, f: Flow)
    requires PlanCapable(plan)
  {
    && plan != [] && |f.subFlows| == |plan|
    && (forall i :: 0 <= i < |plan| ==> Mirrors(d, plan, i, f.subFlows[i]))
    && f.assetID == d.id
    && f.flowType == f.subFlows[|plan| - 1].flowType
    && f.name == d.id + "-" + FlowTypeName(f.flowType)
  }

  /** The assets that the first `n` elements add: the dataset itself, and one for every copy. */
  ghost function FlowAssets(d: Dataset, plan: seq<ResolvedEdge>, n: nat): map<string, AssetDetails>
    requires n <= |plan|
  {
    if n == 0 then map[d.id := AssetDetails("", d.store)]
    else
      var assets, r := FlowAssets(d, plan, n - 1), plan[n - 1];
      if r.edge.sink.virtual || d.allocate(n - 1, r.region).Failed? then assets
      else assets[AssetAt(d.id, plan, n) :=
          AssetDetails(AssetAt(d.id, plan, n - 1), d.allocate(n - 1, r.region).value.store)]
  }

  function TemplateFor(r: ResolvedEdge): Template
    requires r.edge.HasCapability()
  {
    var m, c := r.edge.mod, r.edge.Cap();
    Template(c.name, [ModuleInfo(m.name, m.moduleType, m.chart, c.scope)])
  }

  /** One template per capability name; the last element with that name decides which module it holds. */
  ghost function FlowTemplates(plan: seq<ResolvedEdge>): map<string, Template>
    requires PlanCapable(plan)
  {
    if plan == [] then map[]
    else
      var r := plan[|plan| - 1];
      FlowTemplates(plan[..|plan| - 1])[r.edge.Cap().name := TemplateFor(r)]
  }

  /** The tracked buckets after `n` elements: the dataset's entry is the bucket of its last copy, if any. */
  ghost function Tracked(d: Dataset, plan: seq<ResolvedEdge>, n: nat, before: map<string, string>): map<string, string>
    requires n <= |plan|
  {
    if n == 0 then before
    else
      var r := plan[n - 1];
      if r.edge.sink.virtual || d.allocate(n - 1, r.region).Failed? then Tracked(d, plan, n - 1, before)
      else Tracked(d, plan, n - 1, before)[d.id := d.allocate(n - 1, r.region).value.bucket]
  }

  /** What the loop over the plan has collected after `n` elements. */
  ghost predicate Built(d: Dataset, plan: seq<ResolvedEdge>, n: nat,
                        subFlows: seq<SubFlow>, assets: map<string, AssetDetails>, templates: seq<Template>)
    requires PlanCapable(plan) && n <= |plan|
  {
    && |subFlows| == n && (forall k :: 0 <= k < n ==> Mirrors(d, plan, k, subFlows[k]))
    && |templates| == n && (forall k :: 0 <= k < n ==> templates[k] == TemplateFor(plan[k]))
    && assets == FlowAssets(d, plan, n)
  }

  /** The plotter after a flow that mirrors the plan has been added. */
  ghost predicate Added(d: Dataset, plan: seq<ResolvedEdge>, before: PlotterSpec, after: PlotterSpec) {
    && PlanCapable(plan)
    && |after.flows| == |before.flows| + 1
    && before.flows <= after.flows
    && MirrorsPlan(d, plan, after.flows[|before.flows|])
    && after.assets == before.assets + FlowAssets(d, plan, |plan|)
    && after.templates == before.templates + FlowTemplates(plan)
  }

  /** An attempt to serve a dataset: the chosen plan (empty if there is none), and how far it was carried out. */
  datatype Attempt = Attempt(dataset: Dataset, plan: seq<ResolvedEdge>, done: nat)

  /** The attempt went as far as it could: a valid plan if there is any, up to the first element whose calls fail. */
  ghost predicate Tried(env: Env, modules: Modules, t: Attempt) {
    && t.done <= |t.plan| && PlanCapable(t.plan)
    && (t.plan == [] ==> forall plan :: !IsValidPlan(env, t.dataset.item, modules, plan))
    && (t.plan != [] ==> IsValidPlan(env, t.dataset.item, modules, t.plan))
    && (forall i :: 0 <= i < t.done ==> Succeeds(t.dataset, t.plan, i))
    && (t.done < |t.plan| ==> !Succeeds(t.dataset, t.plan, t.done))
  }

  ghost predicate Completed(t: Attempt) {
    t.plan != [] && t.done == |t.plan|
  }

  const NO_PATH := "Deployed modules do not provide the functionality required to construct a data path for "

  /** Why the attempt was not completed: no plan, or no service or storage for an element of it. */
  ghost function FailureOf(t: Attempt): string {
    if t.plan == [] then NO_PATH + t.dataset.id
    else if t.done >= |t.plan| || !t.plan[t.done].edge.HasCapability() then ""
    else
      var e := t.plan[t.done];
      match ServiceFor(t.dataset, e.edge, AssetAt(t.dataset.id, t.plan, t.done))
      case Failed(message) => message
      case Ok(_) =>
        match t.dataset.allocate(t.done, e.region) { case Failed(message) => message case Ok(_) => "" }
  }

  /** What one element needs and brings. */
  lemma {:induction false} ElementStep(d: Dataset, plan: seq<ResolvedEdge>, i: nat, before: map<string, string>)
    requires PlanCapable(plan) && i < |plan|
    ensures
      var (service, bucket) := (ServiceFor(d, plan[i].edge, AssetAt(d.id, plan, i)), d.allocate(i, plan[i].region));
      var virtual := plan[i].edge.sink.virtual;
      && (service.Failed? ==> FailureOf(Attempt(d, plan, i)) == service.message)
      && (service.Ok? && bucket.Failed? ==> FailureOf(Attempt(d, plan, i)) == bucket.message)
      && (Succeeds(d, plan, i) <==> service.Ok? && (virtual || bucket.Ok?))
      && AssetAt(d.id, plan, i + 1) == AssetAt(d.id, plan, i) + (if virtual then "" else COPY_SUFFIX)
      && Tracked(d, plan, i + 1, before) ==
         if virtual || bucket.Failed? then Tracked(d, plan, i, before)
         else Tracked(d, plan, i, before)[d.id := bucket.value.bucket]
  {
  }

  /** The first plan found. */
  method SelectPlan(env: Env, item: Item, modules: Modules) returns (selection: Option<seq<ResolvedEdge>>)
    ensures selection.None? <==> forall plan :: !IsValidPlan(env, item, modules, plan)
    ensures selection.Some? ==> IsValidPlan(env, item, modules, selection.value)
    ensures selection.Some? ==> PlanCapable(selection.value) && selection.value != []
  {
    var plans := FindPaths(env, item, modules);
    if |plans| == 0 {
      return None;
    }
    assert plans[0] in plans;
    PlanIsCapable(env, item, modules, plans[0]);
    return Some(plans[0]);
  }

  class PlotterGenerator {
    var spec: PlotterSpec
    var provisionedStorage: map<string, string>

    constructor ()
      ensures spec == PlotterSpec(map[], [], map[]) && provisionedStorage == map[]
    {
      spec, provisionedStorage := PlotterSpec(map[], [], map[]), map[];
    }

    /** Allocates storage for the copy an element makes, and tracks the bucket under the dataset's name. */
    method GetCopyDestination(d: Dataset, i: nat, region: string) returns (store: Outcome<DataStore>)
      modifies this`provisionedStorage
      ensures d.allocate(i, region).Failed? ==>
                store == Failed(d.allocate(i, region).message) && provisionedStorage == old(provisionedStorage)
      ensures d.allocate(i, region).Ok? ==>
                && store == Ok(d.allocate(i, region).value.store)
                && provisionedStorage == old(provisionedStorage)[d.id := d.allocate(i, region).value.bucket]
    {
      match d.allocate(i, region)
      case Failed(message) =>
        store := Failed(message);
      case Ok(allocation) =>
        provisionedStorage := provisionedStorage[d.id := allocation.bucket];
        store := Ok(allocation.store);
    }

    /** The loop over the chosen plan, up to the first call that fails. */
    method BuildSubFlows(d: Dataset, plan: seq<ResolvedEdge>)
      returns (err: Option<string>, subFlows: seq<SubFlow>, assets: map<string, AssetDetails>, templates: seq<Template>,
               ghost done: nat)
      requires PlanCapable(plan)
      modifies this`provisionedStorage
      ensures done <= |plan| && (err.None? <==> done == |plan|) && (forall i :: 0 <= i < done ==> Succeeds(d, plan, i))
      ensures done < |plan| ==> !Succeeds(d, plan, done)
      ensures err.Some? ==> err.value == FailureOf(Attempt(d, plan, done))
      ensures err.None? ==> Built(d, plan, |plan|, subFlows, assets, templates)
      ensures provisionedStorage == Tracked(d, plan, done, old(provisionedStorage))
    {
      subFlows, templates := [], [];
      assets := map[d.id := AssetDetails("", d.store)];
      var assetID := d.id;
      for i := 0 to |plan|
        invariant assetID == AssetAt(d.id, plan, i)
        invariant Built(d, plan, i, subFlows, assets, templates)
        invariant provisionedStorage == Tracked(d, plan, i, old(provisionedStorage))
        invariant forall k :: 0 <= k < i ==> Succeeds(d, plan, k)
      {
        var r := plan[i];
        ElementStep(d, plan, i, old(provisionedStorage));
        hide Built, FailureOf, SubFlowFor, TemplateFor, Tracked, Succeeds, ServiceFor, AssetAt;
        var service := ServiceFor(d, r.edge, assetID);
        if service.Failed? {
          return Some(service.message), subFlows, assets, templates, i;
        }
        templates := templates + [TemplateFor(r)];
        if !r.edge.sink.virtual {
          var store := GetCopyDestination(d, i, r.region);
          if store.Failed? {
            return Some(store.message), subFlows, assets, templates, i;
          }
          BuiltCopy(d, plan, i, subFlows, assets, templates, service.value);
          var copyID := assetID + COPY_SUFFIX;
          assets := assets[copyID := AssetDetails(assetID, store.value)];
          subFlows := subFlows + [SubFlowFor(r, assetID, copyID, service.value)];
          assetID := copyID;
        } else {
          BuiltRead(d, plan, i, subFlows, assets, templates, service.value);
          subFlows := subFlows + [SubFlowFor(r, assetID, assetID, service.value)];
        }
      }
      err, done := None, |plan|;
    }

    /** Adds the flow for one dataset, if the attempt is completed; buckets stay tracked in any case. */
    method AddFlowInfoForAsset(env: Env, modules: Modules, d: Dataset) returns (err: Option<string>, ghost t: Attempt)
      modifies this
      ensures t.dataset == d && Tried(env, modules, t)
      ensures err.None? <==> Completed(t)
      ensures err.Some? ==> err.value == FailureOf(t)
      ensures err.None? ==> Added(d, t.plan, old(spec), spec)
      ensures err.Some? ==> spec == old(spec)
      ensures provisionedStorage == Tracked(d, t.plan, t.done, old(provisionedStorage))
    {
      hide IsValidPlan, Mirrors, FlowAssets, FlowTemplates, Succeeds, TemplateFor;
      var selection := SelectPlan(env, d.item, modules);
      if selection.None? {
        return Some(NO_PATH + d.id), Attempt(d, [], 0);
      }
      hide Tracked, FailureOf;
      var plan := selection.value;
      var subFlows, assets, templates;
      ghost var done;
      err, subFlows, assets, templates, done := BuildSubFlows(d, plan);
      t := Attempt(d, plan, done);
      if err.Some? {
        return;
      }
      var flowType := subFlows[|subFlows| - 1].flowType;
      var flow := Flow(d.id + "-" + FlowTypeName(flowType), flowType, d.id, subFlows);
      spec := spec.(flows := spec.flows + [flow], assets := spec.assets + assets);
      AddTemplates(templates, plan);
      assert Added(d, plan, old(spec), spec);
    }

    method AddTemplates(templates: seq<Template>, ghost plan: seq<ResolvedEdge>)
      requires PlanCapable(plan) && |templates| == |plan|
      requires forall k :: 0 <= k < |plan| ==> templates[k] == TemplateFor(plan[k])
      modifies this`spec
      ensures spec == old(spec).(templates := old(spec).templates + FlowTemplates(plan))
    {
      for k := 0 to |templates|
        invariant spec == old(spec).(templates := old(spec).templates + FlowTemplates(plan[..k]))
      {
        FlowTemplatesSnoc(plan, k);
        hide FlowTemplates, TemplateFor;
        AddedLast(old(spec).templates, FlowTemplates(plan[..k]), templates[k]);
        spec := spec.(templates := spec.templates[templates[k].name := templates[k]]);
      }
      assert plan[..|plan|] == plan;
    }
  }

  lemma {:induction false} AddedLast(before: map<string, Template>, added: map<string, Template>, t: Template)
    ensures (before + added)[t.name := t] == before + added[t.name := t]
  {
  }

  lemma {:induction false} FlowTemplatesSnoc(plan: seq<ResolvedEdge>, k: nat)
    requires PlanCapable(plan) && k < |plan|
    ensures FlowTemplates(plan[..k + 1]) == FlowTemplates(plan[..k])[TemplateFor(plan[k]).name := TemplateFor(plan[k])]
  {
    assert plan[..k + 1][..k] == plan[..k];
  }

  lemma {:induction false} PlanIsCapable(env: Env, item: Item, modules: Modules, plan: seq<ResolvedEdge>)
    requires IsValidPlan(env, item, modules, plan)
    ensures PlanCapable(plan) && plan != []
  {
    assert forall i :: 0 <= i < |plan| ==> plan[i].edge == EdgesOf(plan)[i];
  }

  lemma {:induction false} BuiltRead(
    d: Dataset, plan: seq<ResolvedEdge>, i: nat, subFlows: seq<SubFlow>, assets: map<string, AssetDetails>,
    templates: seq<Template>, service: Option<string>)
    requires PlanCapable(plan) && i < |plan| && plan[i].edge.sink.virtual
    requires templates != [] && Built(d, plan, i, subFlows, assets, templates[..|templates| - 1])
    requires templates[|templates| - 1] == TemplateFor(plan[i])
    requires ServiceFor(d, plan[i].edge, AssetAt(d.id, plan, i)) == Ok(service)
    ensures var from := AssetAt(d.id, plan, i);
            Built(d, plan, i + 1, subFlows + [SubFlowFor(plan[i], from, from, service)], assets, templates)
  {
    assert forall k :: 0 <= k < i ==> templates[k] == templates[..i][k];
  }

  lemma {:induction false} BuiltCopy(
    d: Dataset, plan: seq<ResolvedEdge>, i: nat, subFlows: seq<SubFlow>, assets: map<string, AssetDetails>,
    templates: seq<Template>, service: Option<string>)
    requires PlanCapable(plan) && i < |plan| && !plan[i].edge.sink.virtual
    requires templates != [] && Built(d, plan, i, subFlows, assets, templates[..|templates| - 1])
    requires templates[|templates| - 1] == TemplateFor(plan[i])
    requires ServiceFor(d, plan[i].edge, AssetAt(d.id, plan, i)) == Ok(service) && d.allocate(i, plan[i].region).Ok?
    ensures var from, to := AssetAt(d.id, plan, i), AssetAt(d.id, plan, i) + COPY_SUFFIX;
            Built(d, plan, i + 1, subFlows + [SubFlowFor(plan[i], from, to, service)],
                  assets[to := AssetDetails(from, d.allocate(i, plan[i].region).value.store)], templates)
  {
    assert forall k :: 0 <= k < i ==> templates[k] == templates[..i][k];
  }

  ghost predicate CopyBetween(plan: seq<ResolvedEdge>, i: nat, j: nat)
    requires i <= j <= |plan|
  {
    exists k :: i <= k < j && !plan[k].edge.sink.virtual
  }

  /** Past a copy, assets have longer names, so a copy never overwrites an asset of its own flow. */
  lemma {:induction false} AssetNamesGrow(id: string, plan: seq<ResolvedEdge>, i: nat, j: nat)
    requires i <= j <= |plan|
    ensures |AssetAt(id, plan, i)| <= |AssetAt(id, plan, j)|
    ensures |AssetAt(id, plan, i)| < |AssetAt(id, plan, j)| <==> CopyBetween(plan, i, j)
    ensures AssetAt(id, plan, i) == AssetAt(id, plan, j) <==> !CopyBetween(plan, i, j)
  {
    if i < j {
      AssetNamesGrow(id, plan, i, j - 1);
    }
  }

  // ---------------------------------------------------------------------------------------------
  // What every generated flow guarantees
  // ---------------------------------------------------------------------------------------------

  function CopyName(id: string, n: nat): string {
    if n == 0 then id else CopyName(id, n - 1) + COPY_SUFFIX
  }

  ghost function SourceOf(f: Flow, i: nat): string
    requires i < |f.subFlows| && OneStep(f.subFlows[i])
  {
    f.subFlows[i].steps[0][0].parameters.value.source.assetID
  }

  ghost function SinkOf(f: Flow, i: nat): Option<string>
    requires i < |f.subFlows| && OneStep(f.subFlows[i])
  {
    f.subFlows[i].steps[0][0].parameters.value.sink
  }

  ghost predicate OneStep(s: SubFlow) {
    |s.steps| == 1 && |s.steps[0]| == 1 && s.steps[0][0].parameters.Some?
  }

  /** Only the last element may deliver to a virtual endpoint, and it delivers to the requested sink. */
  ghost predicate EndsAt(plan: seq<ResolvedEdge>, sink: Node) {
    && plan != [] && plan[|plan| - 1].edge.sink == sink
    && forall i :: 0 <= i < |plan| - 1 ==> !plan[i].edge.sink.virtual
  }

  lemma {:induction false} ValidPlanEnds(env: Env, item: Item, modules: Modules, plan: seq<ResolvedEdge>)
    requires IsValidPlan(env, item, modules, plan)
    ensures EndsAt(plan, item.sink)
  {
    var edges := EdgesOf(plan);
    hide Usable, Accepts, IsPlan;
    forall i | 0 <= i < |plan| - 1 ensures !plan[i].edge.sink.virtual {
      assert Joined(edges[i], edges[i + 1]);
    }
  }

  lemma {:induction false} AssetAtIsCopy(plan: seq<ResolvedEdge>, sink: Node, id: string, i: nat)
    requires EndsAt(plan, sink) && i < |plan|
    ensures AssetAt(id, plan, i) == CopyName(id, i)
  {
    if i > 0 {
      AssetAtIsCopy(plan, sink, id, i - 1);
    }
  }

  /** The step offers the service of the capability for the asset it reads, if the capability has an API. */
  ghost predicate ServedBy(d: Dataset, e: Edge, asset: string, api: Option<string>)
    requires e.HasCapability()
  {
    if e.Cap().api.None? then api == None else api.Some? && d.service(e, asset) == Ok(api.value)
  }

  /** Sub-flow `i` of a chain of copies; the last one reads exactly when the workload asked to read. */
  ghost predicate ChainLink(d: Dataset, plan: seq<ResolvedEdge>, f: Flow, i: nat)
    requires i < |plan| == |f.subFlows|
  {
    var last, s := i + 1 == |plan|, f.subFlows[i];
    && OneStep(s)
    && s.flowType == (if last && d.item.sink.virtual then ReadFlow else CopyFlow)
    && SourceOf(f, i) == CopyName(d.id, i)
    && SinkOf(f, i) == (if last && d.item.sink.virtual then None else Some(CopyName(d.id, i + 1)))
    && s.trigger == (if last && d.item.sink.virtual then WorkloadTrigger else InitTrigger)
    && s.steps[0][0].cluster == plan[i].cluster && plan[i].edge.HasCapability()
    && s.steps[0][0].template == plan[i].edge.Cap().name
    && s.steps[0][0].parameters.value.actions == plan[i].actions
    && ServedBy(d, plan[i].edge, CopyName(d.id, i), s.steps[0][0].parameters.value.api)
  }

  /**
   * A flow is a chain of copies that ends in a read exactly when the workload asked to read: each copy is made at the
   * start and writes what the next sub-flow reads, the read waits for the workload, and each step has the cluster, the
   * actions and the service of its plan element.
   */
  lemma {:induction false} FlowIsChain(env: Env, modules: Modules, d: Dataset, plan: seq<ResolvedEdge>, f: Flow)
    requires IsValidPlan(env, d.item, modules, plan) && PlanCapable(plan) && MirrorsPlan(d, plan, f)
    ensures f.flowType == if d.item.sink.virtual then ReadFlow else CopyFlow
    ensures f.assetID == d.id && f.name == d.id + if d.item.sink.virtual then "-read" else "-copy"
    ensures forall i :: 0 <= i < |plan| ==> ChainLink(d, plan, f, i)
  {
    ValidPlanEnds(env, d.item, modules, plan);
    LinkMirrors(d, plan, f, |plan| - 1);
    NameMirrors(d, plan, f);
    hide IsValidPlan, Mirrors, ServedBy, CopyName;
    forall i | 0 <= i < |plan|
      ensures ChainLink(d, plan, f, i)
    {
      LinkMirrors(d, plan, f, i);
    }
  }

  lemma {:induction false} NameMirrors(d: Dataset, plan: seq<ResolvedEdge>, f: Flow)
    requires PlanCapable(plan) && MirrorsPlan(d, plan, f)
    ensures f.assetID == d.id && (f.flowType == ReadFlow ==> f.name == d.id + "-read")
    ensures f.flowType == CopyFlow ==> f.name == d.id + "-copy"
  {
    hide Mirrors;
    assert d.id + "-" + "read" == d.id + "-read" && d.id + "-" + "copy" == d.id + "-copy";
  }

  lemma {:induction false} LinkMirrors(d: Dataset, plan: seq<ResolvedEdge>, f: Flow, i: nat)
    requires PlanCapable(plan) && EndsAt(plan, d.item.sink) && MirrorsPlan(d, plan, f) && i < |plan|
    ensures ChainLink(d, plan, f, i)
  {
    assert Mirrors(d, plan, i, f.subFlows[i]);
    AssetAtIsCopy(plan, d.item.sink, d.id, i);
    assert !plan[i].edge.sink.virtual ==> AssetAt(d.id, plan, i + 1) == CopyName(d.id, i + 1);
    hide AssetAt, CopyName;
  }
}
