/**
 * What a plotter holds after the flows of several datasets have been added to it
 * (manager/controllers/app/plotter_generator.go).  Assets and templates of all flows share one map each.
 */
module PlotterContents {
  import opened Prelude
  import opened AdminPolicies
  import opened DataPaths
  import opened Planner
  import opened PlotterTypes
  import opened PlotterGeneration

  /** A dataset and the plan its flow was made from. */
  datatype Addition = Addition(dataset: Dataset, plan: seq<ResolvedEdge>)

  /** The plan has been carried out: every call for it has succeeded. */
  ghost predicate Successful(a: Addition) {
    PlanCapable(a.plan) && forall i :: 0 <= i < |a.plan| ==> Succeeds(a.dataset, a.plan, i)
  }

  ghost predicate AllSuccessful(adds: seq<Addition>) {
    forall k :: 0 <= k < |adds| ==> Successful(adds[k])
  }

  ghost function AllAssets(adds: seq<Addition>): map<string, AssetDetails> {
    if adds == [] then map[]
    else
      var a := adds[|adds| - 1];
      AllAssets(adds[..|adds| - 1]) + FlowAssets(a.dataset, a.plan, |a.plan|)
  }

  ghost function AllTemplates(adds: seq<Addition>): map<string, Template>
    requires AllSuccessful(adds)
  {
    if adds == [] then map[] else AllTemplates(adds[..|adds| - 1]) + FlowTemplates(adds[|adds| - 1].plan)
  }

  ghost predicate Contributes(a: Addition, f: Flow) {
    Successful(a) && MirrorsPlan(a.dataset, a.plan, f)
  }

  /** The plotter is the result of adding these flows, one after the other, to an empty one. */
  ghost predicate BuiltFrom(spec: PlotterSpec, adds: seq<Addition>) {
    && AllSuccessful(adds) && |spec.flows| == |adds|
    && (forall k :: 0 <= k < |adds| ==> Contributes(adds[k], spec.flows[k]))
    && spec.assets == AllAssets(adds)
    && spec.templates == AllTemplates(adds)
  }

  lemma {:induction false} BuiltFromNothing(spec: PlotterSpec)
    requires spec == PlotterSpec(map[], [], map[])
    ensures BuiltFrom(spec, [])
  {
  }

  lemma {:induction false} AddedSucceeds(d: Dataset, plan: seq<ResolvedEdge>, before: PlotterSpec, after: PlotterSpec)
    requires Added(d, plan, before, after)
    ensures Successful(Addition(d, plan))
  {
    var f := after.flows[|before.flows|];
    forall i | 0 <= i < |plan|
      ensures Succeeds(d, plan, i)
    {
      assert Mirrors(d, plan, i, f.subFlows[i]);
    }
  }

  lemma {:induction false} BuiltFromOneMore(
    before: PlotterSpec, adds: seq<Addition>, d: Dataset, plan: seq<ResolvedEdge>, after: PlotterSpec)
    requires BuiltFrom(before, adds) && Added(d, plan, before, after)
    ensures BuiltFrom(after, adds + [Addition(d, plan)])
  {
    AddedSucceeds(d, plan, before, after);
    var a := Addition(d, plan);
    var more := adds + [a];
    assert Contributes(a, after.flows[|adds|]);
    hide Successful, Contributes, MirrorsPlan, FlowAssets, FlowTemplates;
    assert more[..|adds|] == adds;
    forall k | 0 <= k < |more|
      ensures Successful(more[k]) && Contributes(more[k], after.flows[k])
    {
      if k < |adds| {
        assert more[k] == adds[k] && after.flows[k] == before.flows[k] && Contributes(adds[k], before.flows[k]);
      }
    }
  }

  // ---------------------------------------------------------------------------------------------
  // Templates
  // ---------------------------------------------------------------------------------------------

  /** An element of one of the plans. */
  ghost predicate ElementOf(adds: seq<Addition>, r: ResolvedEdge) {
    exists k :: 0 <= k < |adds| && r in adds[k].plan
  }

  /** The template that the steps of the element name holds the module that the plan chose. */
  ghost predicate ServedAsPlanned(templates: map<string, Template>, r: ResolvedEdge) {
    r.edge.HasCapability() && r.edge.Cap().name in templates && templates[r.edge.Cap().name] == TemplateFor(r)
  }

  /** The two elements do not ask for different modules under the same capability name. */
  ghost predicate SameTemplate(r: ResolvedEdge, s: ResolvedEdge) {
    r.edge.HasCapability() && s.edge.HasCapability() && r.edge.Cap().name == s.edge.Cap().name ==>
      TemplateFor(r) == TemplateFor(s)
  }

  lemma {:induction false} FlowTemplatesHold(plan: seq<ResolvedEdge>)
    requires PlanCapable(plan)
    ensures forall r :: r in plan ==> r.edge.HasCapability() && r.edge.Cap().name in FlowTemplates(plan)
    ensures forall n :: n in FlowTemplates(plan) ==>
      exists r ::
        r in plan && r.edge.HasCapability() && r.edge.Cap().name == n && FlowTemplates(plan)[n] == TemplateFor(r)
  {
    if plan != [] {
      var (init, last) := (plan[..|plan| - 1], plan[|plan| - 1]);
      assert plan == init + [last];
      assert forall i :: 0 <= i < |init| ==> init[i] == plan[i];
      FlowTemplatesHold(init);
    }
  }

  lemma {:induction false} AllTemplatesHold(adds: seq<Addition>)
    requires AllSuccessful(adds)
    ensures forall r :: ElementOf(adds, r) ==> r.edge.HasCapability() && r.edge.Cap().name in AllTemplates(adds)
    ensures forall n :: n in AllTemplates(adds) ==>
      exists r ::
        && ElementOf(adds, r) && r.edge.HasCapability()
        && r.edge.Cap().name == n && AllTemplates(adds)[n] == TemplateFor(r)
  {
    if adds != [] {
      var (init, last) := (adds[..|adds| - 1], adds[|adds| - 1]);
      assert forall k :: 0 <= k < |init| ==> init[k] == adds[k];
      AllTemplatesHold(init);
      assert Successful(last);
      FlowTemplatesHold(last.plan);
      forall r
        ensures ElementOf(adds, r) <==> ElementOf(init, r) || r in last.plan
      {
        if ElementOf(init, r) {
          var k :| 0 <= k < |init| && r in init[k].plan;
          assert r in adds[k].plan;
        }
      }
      hide ElementOf, FlowTemplates, AllSuccessful, Successful;
    }
  }

  /** Every step of every flow is served by the module its plan chose exactly if no two plans differ on a capability. */
  lemma {:induction false} TemplatesMatchExactly(spec: PlotterSpec, adds: seq<Addition>)
    requires BuiltFrom(spec, adds)
    ensures (forall r :: ElementOf(adds, r) ==> ServedAsPlanned(spec.templates, r)) <==>
      forall r, s :: ElementOf(adds, r) && ElementOf(adds, s) ==> SameTemplate(r, s)
  {
    AllTemplatesHold(adds);
    hide ElementOf, AllTemplates, BuiltFrom;
    assert spec.templates == AllTemplates(adds) by {
      BuiltTemplates(spec, adds);
    }
    if forall r, s :: ElementOf(adds, r) && ElementOf(adds, s) ==> SameTemplate(r, s) {
      forall r | ElementOf(adds, r)
        ensures ServedAsPlanned(spec.templates, r)
      {
        var s :| ElementOf(adds, s) && s.edge.HasCapability() && s.edge.Cap().name == r.edge.Cap().name &&
          AllTemplates(adds)[r.edge.Cap().name] == TemplateFor(s);
        assert SameTemplate(r, s);
      }
    }
    if forall r :: ElementOf(adds, r) ==> ServedAsPlanned(spec.templates, r) {
      forall r, s | ElementOf(adds, r) && ElementOf(adds, s)
        ensures SameTemplate(r, s)
      {
        assert ServedAsPlanned(spec.templates, r) && ServedAsPlanned(spec.templates, s);
      }
    }
  }

  lemma {:induction false} BuiltTemplates(spec: PlotterSpec, adds: seq<Addition>)
    requires BuiltFrom(spec, adds)
    ensures AllSuccessful(adds) && spec.templates == AllTemplates(adds) && spec.assets == AllAssets(adds)
  {
  }

  // ---------------------------------------------------------------------------------------------
  // Stores
  // ---------------------------------------------------------------------------------------------

  /** What the flow records for the asset that element `i` reads (or, past the last one, that it delivers). */
  ghost function DetailsAt(a: Addition, i: nat): AssetDetails
    requires i <= |a.plan| && Successful(a)
  {
    if i == 0 then AssetDetails("", a.dataset.store)
    else if a.plan[i - 1].edge.sink.virtual then DetailsAt(a, i - 1)
    else
      assert Succeeds(a.dataset, a.plan, i - 1);
      AssetDetails(AssetAt(a.dataset.id, a.plan, i - 1), a.dataset.allocate(i - 1, a.plan[i - 1].region).value.store)
  }

  ghost function NameAt(a: Addition, i: nat): string
    requires i <= |a.plan|
  {
    AssetAt(a.dataset.id, a.plan, i)
  }

  /** A copy gets a name that no asset before it in the flow has. */
  lemma {:induction false} CopyIsNew(a: Addition, n: nat)
    requires 0 < n <= |a.plan| && !a.plan[n - 1].edge.sink.virtual
    ensures forall i :: 0 <= i < n ==> NameAt(a, i) != NameAt(a, n)
  {
    forall i | 0 <= i < n
      ensures NameAt(a, i) != NameAt(a, n)
    {
      AssetNamesGrow(a.dataset.id, a.plan, i, n);
      assert CopyBetween(a.plan, i, n);
    }
  }

  lemma {:induction false} FlowAssetsSnoc(a: Addition, n: nat)
    requires Successful(a) && 0 < n <= |a.plan|
    ensures var before := FlowAssets(a.dataset, a.plan, n - 1);
      if a.plan[n - 1].edge.sink.virtual
      then FlowAssets(a.dataset, a.plan, n) == before &&
           NameAt(a, n) == NameAt(a, n - 1) && DetailsAt(a, n) == DetailsAt(a, n - 1)
      else FlowAssets(a.dataset, a.plan, n) == before[NameAt(a, n) := DetailsAt(a, n)]
  {
    assert Succeeds(a.dataset, a.plan, n - 1);
  }

  lemma {:induction false} FlowAssetAt(a: Addition, n: nat, i: nat)
    requires Successful(a) && i <= n <= |a.plan|
    ensures NameAt(a, i) in FlowAssets(a.dataset, a.plan, n)
    ensures FlowAssets(a.dataset, a.plan, n)[NameAt(a, i)] == DetailsAt(a, i)
  {
    if n == 0 {
      return;
    }
    hide Successful, FlowAssets, NameAt, DetailsAt;
    FlowAssetsSnoc(a, n);
    if !a.plan[n - 1].edge.sink.virtual {
      CopyIsNew(a, n);
    }
    if i < n {
      FlowAssetAt(a, n - 1, i);
    } else {
      FlowAssetAt(a, n - 1, n - 1);
    }
  }

  lemma {:induction false} FlowAssetFrom(a: Addition, n: nat, key: string) returns (i: nat)
    requires Successful(a) && n <= |a.plan| && key in FlowAssets(a.dataset, a.plan, n)
    ensures i <= n && NameAt(a, i) == key
  {
    if n == 0 {
      return 0;
    }
    hide Successful, FlowAssets, NameAt, DetailsAt;
    FlowAssetsSnoc(a, n);
    if key == NameAt(a, n) {
      return n;
    }
    i := FlowAssetFrom(a, n - 1, key);
  }

  /** The assets a flow adds are those its elements read and deliver, each with its own store. */
  lemma {:induction false} FlowAssetsHold(a: Addition, n: nat)
    requires Successful(a) && n <= |a.plan|
    ensures forall i :: 0 <= i <= n ==> NameAt(a, i) in FlowAssets(a.dataset, a.plan, n)
    ensures forall i :: 0 <= i <= n ==> FlowAssets(a.dataset, a.plan, n)[NameAt(a, i)] == DetailsAt(a, i)
    ensures forall key :: key in FlowAssets(a.dataset, a.plan, n) ==> exists i :: 0 <= i <= n && NameAt(a, i) == key
  {
    hide Successful, FlowAssets, NameAt, DetailsAt;
    forall i | 0 <= i <= n
      ensures NameAt(a, i) in FlowAssets(a.dataset, a.plan, n)
      ensures FlowAssets(a.dataset, a.plan, n)[NameAt(a, i)] == DetailsAt(a, i)
    {
      FlowAssetAt(a, n, i);
    }
    forall key | key in FlowAssets(a.dataset, a.plan, n)
      ensures exists i :: 0 <= i <= n && NameAt(a, i) == key
    {
      var i := FlowAssetFrom(a, n, key);
    }
  }

  ghost predicate StoreHeld(assets: map<string, AssetDetails>, a: Addition, i: int)
    requires Successful(a)
  {
    0 <= i <= |a.plan| ==> NameAt(a, i) in assets && assets[NameAt(a, i)].store == DetailsAt(a, i).store
  }

  /** Every element of every flow finds the store that was made for it. */
  ghost predicate StoresMatch(assets: map<string, AssetDetails>, adds: seq<Addition>)
    requires AllSuccessful(adds)
  {
    forall k, i :: 0 <= k < |adds| ==> StoreHeld(assets, adds[k], i)
  }

  ghost predicate SameStore(a: Addition, i: int, b: Addition, j: int)
    requires Successful(a) && Successful(b)
  {
    0 <= i <= |a.plan| && 0 <= j <= |b.plan| && NameAt(a, i) == NameAt(b, j) ==>
      DetailsAt(a, i).store == DetailsAt(b, j).store
  }

  /** No asset name stands for two stores. */
  ghost predicate StoresAgree(adds: seq<Addition>)
    requires AllSuccessful(adds)
  {
    forall k, i, l, j :: 0 <= k < |adds| && 0 <= l < |adds| ==> SameStore(adds[k], i, adds[l], j)
  }

  lemma {:induction false} AssetIsThere(adds: seq<Addition>, k: nat, i: nat)
    requires AllSuccessful(adds) && k < |adds| && i <= |adds[k].plan|
    ensures NameAt(adds[k], i) in AllAssets(adds)
  {
    var (init, last) := (adds[..|adds| - 1], adds[|adds| - 1]);
    assert Successful(last) && forall l :: 0 <= l < |init| ==> init[l] == adds[l];
    hide Successful, FlowAssets, NameAt;
    if k < |init| {
      assert init[k] == adds[k];
      AssetIsThere(init, k, i);
    } else {
      FlowAssetAt(last, |last.plan|, i);
    }
  }

  lemma {:induction false} AssetIsRecorded(adds: seq<Addition>, key: string)
    requires AllSuccessful(adds) && key in AllAssets(adds)
    ensures Recorded(adds, key, AllAssets(adds)[key])
  {
    var (init, last) := (adds[..|adds| - 1], adds[|adds| - 1]);
    assert Successful(last) && forall l :: 0 <= l < |init| ==> init[l] == adds[l];
    hide Successful, FlowAssets, NameAt, DetailsAt, Recorded;
    if key in FlowAssets(last.dataset, last.plan, |last.plan|) {
      var i := FlowAssetFrom(last, |last.plan|, key);
      FlowAssetAt(last, |last.plan|, i);
      OwnRecord(adds, i);
    } else {
      AssetIsRecorded(init, key);
      EarlierRecord(adds, key, AllAssets(init)[key]);
    }
  }

  lemma {:induction false} OwnRecord(adds: seq<Addition>, i: nat)
    requires adds != [] && Successful(adds[|adds| - 1]) && i <= |adds[|adds| - 1].plan|
    ensures var a := adds[|adds| - 1]; Recorded(adds, NameAt(a, i), DetailsAt(a, i))
  {
    var a := adds[|adds| - 1];
    hide Successful, NameAt, DetailsAt;
    assert RecordedAt(adds[|adds| - 1], i, NameAt(a, i), DetailsAt(a, i));
  }

  lemma {:induction false} EarlierRecord(adds: seq<Addition>, key: string, details: AssetDetails)
    requires adds != [] && Recorded(adds[..|adds| - 1], key, details)
    ensures Recorded(adds, key, details)
  {
    var init := adds[..|adds| - 1];
    hide RecordedAt;
    var k, i :| 0 <= k < |init| && RecordedAt(init[k], i, key, details);
    assert RecordedAt(adds[k], i, key, details);
  }

  ghost predicate RecordedAt(a: Addition, i: int, key: string, details: AssetDetails) {
    Successful(a) && 0 <= i <= |a.plan| && NameAt(a, i) == key && DetailsAt(a, i) == details
  }

  ghost predicate Recorded(adds: seq<Addition>, key: string, details: AssetDetails) {
    exists k, i :: 0 <= k < |adds| && RecordedAt(adds[k], i, key, details)
  }

  /**
   * Every element of every flow finds the store that was made for it exactly if no asset name stands for two stores.
   */
  lemma {:induction false} StoresMatchExactly(spec: PlotterSpec, adds: seq<Addition>)
    requires BuiltFrom(spec, adds)
    ensures StoresMatch(spec.assets, adds) <==> StoresAgree(adds)
  {
    BuiltTemplates(spec, adds);
    hide AllAssets, BuiltFrom, Successful;
    if StoresAgree(adds) {
      forall k, i | 0 <= k < |adds|
        ensures StoreHeld(spec.assets, adds[k], i)
      {
        if 0 <= i <= |adds[k].plan| {
          var key := NameAt(adds[k], i);
          AssetIsThere(adds, k, i);
          AssetIsRecorded(adds, key);
          var l, j :| 0 <= l < |adds| && RecordedAt(adds[l], j, key, spec.assets[key]);
          assert SameStore(adds[k], i, adds[l], j);
        }
      }
    }
    if StoresMatch(spec.assets, adds) {
      forall k, i, l, j | 0 <= k < |adds| && 0 <= l < |adds|
        ensures SameStore(adds[k], i, adds[l], j)
      {
        assert StoreHeld(spec.assets, adds[k], i) && StoreHeld(spec.assets, adds[l], j);
      }
    }
  }

  // ---------------------------------------------------------------------------------------------
  // References
  // ---------------------------------------------------------------------------------------------

  /** Everything a flow refers to stays in the plotter when further flows are added. */
  lemma {:induction false} ReferencesResolve(
    d: Dataset, plan: seq<ResolvedEdge>, before: PlotterSpec, after: PlotterSpec)
    requires Resolves(before) && Added(d, plan, before, after)
    ensures Resolves(after)
  {
    forall i | 0 <= i < |after.flows| ensures FlowResolves(after, after.flows[i]) {
      if i < |before.flows| {
        assert after.flows[i] == before.flows[i] && FlowResolves(before, before.flows[i]);
        StillResolves(before.flows[i], before, after);
      } else {
        NewFlowResolves(d, plan, before, after);
      }
    }
  }

  lemma {:induction false} StillResolves(f: Flow, before: PlotterSpec, after: PlotterSpec)
    requires FlowResolves(before, f)
    requires before.assets.Keys <= after.assets.Keys && before.templates.Keys <= after.templates.Keys
    ensures FlowResolves(after, f)
  {
    forall i | 0 <= i < |f.subFlows| ensures SubFlowResolves(after, f.subFlows[i]) {
      assert SubFlowResolves(before, f.subFlows[i]);
      forall j, k | 0 <= j < |f.subFlows[i].steps| && 0 <= k < |f.subFlows[i].steps[j]|
        ensures StepResolves(after, f.subFlows[i].steps[j][k])
      {
        assert StepResolves(before, f.subFlows[i].steps[j][k]);
      }
    }
  }

  lemma {:induction false} ElementIsThere(
    d: Dataset, plan: seq<ResolvedEdge>, before: PlotterSpec, after: PlotterSpec, i: nat)
    requires Added(d, plan, before, after) && i < |plan|
    ensures AssetAt(d.id, plan, i) in after.assets && AssetAt(d.id, plan, i + 1) in after.assets
    ensures plan[i].edge.HasCapability() && plan[i].edge.Cap().name in after.templates
  {
    AddedSucceeds(d, plan, before, after);
    var (assets, templates) := (FlowAssets(d, plan, |plan|), FlowTemplates(plan));
    assert after.assets == before.assets + assets && after.templates == before.templates + templates;
    hide Added, Successful, FlowAssets, FlowTemplates, AssetAt, TemplateFor, DetailsAt;
    FlowTemplatesHold(plan);
    FlowAssetAt(Addition(d, plan), |plan|, i);
    FlowAssetAt(Addition(d, plan), |plan|, i + 1);
    assert plan[i] in plan;
  }

  lemma {:induction false} NewFlowResolves(
    d: Dataset, plan: seq<ResolvedEdge>, before: PlotterSpec, after: PlotterSpec)
    requires Added(d, plan, before, after)
    ensures FlowResolves(after, after.flows[|before.flows|])
  {
    var f := after.flows[|before.flows|];
    assert |f.subFlows| == |plan| && forall i :: 0 <= i < |plan| ==> Mirrors(d, plan, i, f.subFlows[i]);
    hide Added, SubFlowResolves, Mirrors, AssetAt;
    forall i | 0 <= i < |plan|
      ensures SubFlowResolves(after, f.subFlows[i])
    {
      ElementIsThere(d, plan, before, after, i);
      MirrorResolves(d, plan, i, f.subFlows[i], after);
    }
  }

  lemma {:induction false} MirrorResolves(d: Dataset, plan: seq<ResolvedEdge>, i: nat, f: SubFlow, spec: PlotterSpec)
    requires PlanCapable(plan) && i < |plan| && Mirrors(d, plan, i, f)
    requires AssetAt(d.id, plan, i) in spec.assets && AssetAt(d.id, plan, i + 1) in spec.assets
    requires plan[i].edge.Cap().name in spec.templates
    ensures SubFlowResolves(spec, f)
  {
    hide AssetAt, Succeeds;
  }

  // ---------------------------------------------------------------------------------------------
  // Flows that disturb each other
  // ---------------------------------------------------------------------------------------------

  /** The flow that mirrors a plan. */
  ghost function FlowFor(a: Addition): Flow
    requires Successful(a) && a.plan != []
  {
    var subFlows := seq(|a.plan|, i requires 0 <= i < |a.plan| => SubFlowAt(a, i));
    var t := subFlows[|a.plan| - 1].flowType;
    Flow(a.dataset.id + "-" + FlowTypeName(t), t, a.dataset.id, subFlows)
  }

  ghost function SubFlowAt(a: Addition, i: nat): SubFlow
    requires Successful(a) && i < |a.plan|
  {
    assert Succeeds(a.dataset, a.plan, i);
    SubFlowFor(a.plan[i], NameAt(a, i), NameAt(a, i + 1), ServiceFor(a.dataset, a.plan[i].edge, NameAt(a, i)).value)
  }

  /** Any successful plans make up a plotter. */
  lemma {:induction false} PlotterOf(adds: seq<Addition>) returns (spec: PlotterSpec)
    requires AllSuccessful(adds) && forall k :: 0 <= k < |adds| ==> adds[k].plan != []
    ensures BuiltFrom(spec, adds)
  {
    var flows := seq(|adds|, k requires 0 <= k < |adds| => FlowFor(adds[k]));
    spec := PlotterSpec(AllAssets(adds), flows, AllTemplates(adds));
    forall k | 0 <= k < |adds|
      ensures Contributes(adds[k], flows[k])
    {
      var (a, f) := (adds[k], FlowFor(adds[k]));
      forall i | 0 <= i < |a.plan|
        ensures Mirrors(a.dataset, a.plan, i, f.subFlows[i])
      {
        assert Succeeds(a.dataset, a.plan, i);
      }
    }
  }

  ghost function ElementBy(m: string, capability: string, copies: bool): ResolvedEdge {
    var c := Capability(capability, AssetScope, [], None, []);
    ResolvedEdge(Edge(Node(None, false), Node(None, !copies), Module(m, "service", m, [c]), 0), [], "cluster", "")
  }

  ghost function PlainDataset(id: string): Dataset {
    var item := Item(Node(None, false), Node(None, true), map[], [], 2);
    Dataset(id, DataStore(id, "", map[]), item, (e, asset) => Ok(""),
            (i, region) => Ok(Allocation("bucket", DataStore("bucket", "", map[]))))
  }

  lemma {:induction false} PlainSucceeds(id: string, plan: seq<ResolvedEdge>)
    requires forall i :: 0 <= i < |plan| ==> plan[i].edge.HasCapability() && plan[i].edge.Cap().api.None?
    ensures Successful(Addition(PlainDataset(id), plan))
  {
    var a := Addition(PlainDataset(id), plan);
    forall i | 0 <= i < |plan|
      ensures Succeeds(a.dataset, a.plan, i)
    {
    }
  }

  lemma {:induction false} LastFlowWins(adds: seq<Addition>)
    requires AllSuccessful(adds) && adds != []
    ensures forall n :: n in FlowTemplates(adds[|adds| - 1].plan) ==>
      n in AllTemplates(adds) && AllTemplates(adds)[n] == FlowTemplates(adds[|adds| - 1].plan)[n]
    ensures var a := adds[|adds| - 1]; forall n :: n in FlowAssets(a.dataset, a.plan, |a.plan|) ==>
      n in AllAssets(adds) && AllAssets(adds)[n] == FlowAssets(a.dataset, a.plan, |a.plan|)[n]
  {
    hide FlowTemplates, FlowAssets, AllSuccessful, Successful;
  }

  ghost function TwoReaders(): seq<Addition> {
    [Addition(PlainDataset("x"), [ElementBy("A", "read", false)]),
     Addition(PlainDataset("y"), [ElementBy("B", "read", false)])]
  }

  lemma {:induction false} TwoReadersDiffer(r: ResolvedEdge)
    requires r == ElementBy("A", "read", false)
    ensures var adds := TwoReaders();
      && AllSuccessful(adds) && |adds| == 2 && adds[0].plan == [r] && adds[1].plan != [] && r.edge.HasCapability()
      && r.edge.Cap().name in FlowTemplates(adds[1].plan)
      && FlowTemplates(adds[1].plan)[r.edge.Cap().name] != TemplateFor(r)
  {
    var s := ElementBy("B", "read", false);
    PlainSucceeds("x", [r]);
    PlainSucceeds("y", [s]);
    assert [s][..0] == [];
    assert FlowTemplates([s]) == map["read" := TemplateFor(s)];
  }

  /** Two datasets read by different modules: the second flow takes over the template of the first. */
  lemma {:induction false} TemplateTakenOver()
    ensures exists spec: PlotterSpec, adds: seq<Addition>, r ::
      BuiltFrom(spec, adds) && |adds| == 2 && r in adds[0].plan && !ServedAsPlanned(spec.templates, r)
  {
    var (adds, r) := (TwoReaders(), ElementBy("A", "read", false));
    TwoReadersDiffer(r);
    LastFlowWins(adds);
    hide AllSuccessful, BuiltFrom, FlowTemplates, AllTemplates, TwoReaders, ElementBy, TemplateFor,
         FlowAssets, AllAssets;
    var spec := PlotterOf(adds);
    BuiltTemplates(spec, adds);
    assert r in adds[0].plan && !ServedAsPlanned(spec.templates, r);
  }

  ghost function CopyAndNamesake(): seq<Addition> {
    [Addition(PlainDataset("x"), [ElementBy("A", "copy", true), ElementBy("B", "read", false)]),
     Addition(PlainDataset("x-copy"), [ElementBy("B", "read", false)])]
  }

  lemma {:induction false} NamesakesDiffer()
    ensures var adds := CopyAndNamesake();
      && AllSuccessful(adds) && |adds| == 2 && |adds[0].plan| == 2 && |adds[1].plan| == 1
      && NameAt(adds[0], 1) == NameAt(adds[1], 0) && DetailsAt(adds[0], 1).store != DetailsAt(adds[1], 0).store
  {
    var adds := CopyAndNamesake();
    PlainSucceeds("x", adds[0].plan);
    PlainSucceeds("x-copy", adds[1].plan);
    assert AssetAt("x", adds[0].plan, 0) == "x";
    assert NameAt(adds[0], 1) == "x-copy";
    assert DetailsAt(adds[0], 1).store.connection == "bucket" && DetailsAt(adds[1], 0).store.connection == "x-copy";
  }

  /** A dataset named like the copy of another: the second flow takes over the store of the first one's copy. */
  lemma {:induction false} StoreTakenOver()
    ensures exists spec: PlotterSpec, adds: seq<Addition>, i ::
      BuiltFrom(spec, adds) && |adds| == 2 && AllSuccessful(adds) && !StoreHeld(spec.assets, adds[0], i)
  {
    var adds := CopyAndNamesake();
    NamesakesDiffer();
    FlowAssetsHold(adds[1], 1);
    LastFlowWins(adds);
    hide AllSuccessful, BuiltFrom, NameAt, DetailsAt, FlowAssets, AllAssets, FlowTemplates,
         AllTemplates, CopyAndNamesake;
    var spec := PlotterOf(adds);
    BuiltTemplates(spec, adds);
    assert !StoreHeld(spec.assets, adds[0], 1);
  }
}
