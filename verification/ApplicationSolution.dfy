/**
 * The plotter that an application is turned into, and the buckets that are left behind
 * (manager/controllers/app/fybrikapplication_controller.go, plotter_generator.go).
 */
module ApplicationSolution {
  import opened Prelude
  import opened DataPaths
  import opened Planner
  import opened PlotterTypes
  import opened PlotterGeneration
  import opened PlotterContents

  /** Every attempt went as far as it could, in the environment of its dataset. */
  ghost predicate AllTried(env: string -> Env, modules: Modules, tries: seq<Attempt>) {
    forall j :: 0 <= j < |tries| ==> Tried(env(tries[j].dataset.id), modules, tries[j])
  }

  ghost predicate WithinPlans(tries: seq<Attempt>) {
    forall j :: 0 <= j < |tries| ==> tries[j].done <= |tries[j].plan|
  }

  /** The flows that completed attempts add. */
  ghost function Additions(tries: seq<Attempt>): seq<Addition> {
    if tries == [] then []
    else
      var t := tries[|tries| - 1];
      Additions(tries[..|tries| - 1]) + if Completed(t) then [Addition(t.dataset, t.plan)] else []
  }

  /** The buckets that are tracked after all attempts, completed or not. */
  ghost function Buckets(tries: seq<Attempt>): map<string, string>
    requires WithinPlans(tries)
  {
    if tries == [] then map[]
    else
      var t := tries[|tries| - 1];
      Tracked(t.dataset, t.plan, t.done, Buckets(tries[..|tries| - 1]))
  }

  /** The plotter is made of the plans of all completed attempts, and the buckets are those the attempts allocated. */
  ghost predicate Solves(
    env: string -> Env, modules: Modules, tries: seq<Attempt>, spec: PlotterSpec, storage: map<string, string>)
  {
    && AllTried(env, modules, tries) && WithinPlans(tries)
    && BuiltFrom(spec, Additions(tries))
    && storage == Buckets(tries)
  }

  lemma {:induction false} SolvesNothing(env: string -> Env, modules: Modules, spec: PlotterSpec)
    requires spec == PlotterSpec(map[], [], map[])
    ensures Solves(env, modules, [], spec, map[])
  {
    BuiltFromNothing(spec);
  }

  lemma {:induction false} OneMoreAttempt(tries: seq<Attempt>, t: Attempt)
    requires WithinPlans(tries) && t.done <= |t.plan|
    ensures WithinPlans(tries + [t])
    ensures Additions(tries + [t]) ==
      if Completed(t) then Additions(tries) + [Addition(t.dataset, t.plan)] else Additions(tries)
    ensures Buckets(tries + [t]) == Tracked(t.dataset, t.plan, t.done, Buckets(tries))
  {
    assert (tries + [t])[..|tries|] == tries;
  }

  lemma {:induction false} SolvesOneMore(
    env: string -> Env, modules: Modules, tries: seq<Attempt>, spec: PlotterSpec, storage: map<string, string>,
    t: Attempt, spec': PlotterSpec, storage': map<string, string>)
    requires Solves(env, modules, tries, spec, storage) && Tried(env(t.dataset.id), modules, t)
    requires if Completed(t) then Added(t.dataset, t.plan, spec, spec') else spec' == spec
    requires storage' == Tracked(t.dataset, t.plan, t.done, storage)
    ensures Solves(env, modules, tries + [t], spec', storage')
  {
    OneMoreAttempt(tries, t);
    if Completed(t) {
      BuiltFromOneMore(spec, Additions(tries), t.dataset, t.plan, spec');
    }
    hide Tried, BuiltFrom, Additions, Buckets;
  }

  // ---------------------------------------------------------------------------------------------
  // Flows
  // ---------------------------------------------------------------------------------------------

  ghost predicate HasFlow(spec: PlotterSpec, id: string) {
    exists i :: 0 <= i < |spec.flows| && spec.flows[i].assetID == id
  }

  lemma {:induction false} AdditionsAreCompleted(tries: seq<Attempt>)
    ensures forall t :: t in tries && Completed(t) ==> Addition(t.dataset, t.plan) in Additions(tries)
    ensures forall a :: a in Additions(tries) ==> Attempt(a.dataset, a.plan, |a.plan|) in tries && a.plan != []
  {
    if tries != [] {
      var (init, last) := (tries[..|tries| - 1], tries[|tries| - 1]);
      AdditionsAreCompleted(init);
      assert tries == init + [last];
    }
  }

  /** A dataset has a flow exactly if an attempt for it was completed. */
  lemma {:induction false} FlowsAreCompleted(tries: seq<Attempt>, spec: PlotterSpec, id: string)
    requires BuiltFrom(spec, Additions(tries))
    ensures HasFlow(spec, id) <==> exists t :: t in tries && Completed(t) && t.dataset.id == id
  {
    if HasFlow(spec, id) {
      var t := FlowWasCompleted(tries, spec, id);
    }
    if t :| t in tries && Completed(t) && t.dataset.id == id {
      CompletedHasFlow(tries, spec, t);
    }
  }

  lemma {:induction false} CompletedHasFlow(tries: seq<Attempt>, spec: PlotterSpec, t: Attempt)
    requires BuiltFrom(spec, Additions(tries)) && t in tries && Completed(t)
    ensures HasFlow(spec, t.dataset.id)
  {
    var adds := Additions(tries);
    AdditionsAreCompleted(tries);
    FlowNames(spec, adds);
    hide Additions, BuiltFrom;
    var i :| 0 <= i < |adds| && adds[i] == Addition(t.dataset, t.plan);
    assert spec.flows[i].assetID == t.dataset.id;
  }

  lemma {:induction false} FlowWasCompleted(tries: seq<Attempt>, spec: PlotterSpec, id: string) returns (t: Attempt)
    requires BuiltFrom(spec, Additions(tries)) && HasFlow(spec, id)
    ensures t in tries && Completed(t) && t.dataset.id == id
  {
    var adds := Additions(tries);
    AdditionsAreCompleted(tries);
    FlowNames(spec, adds);
    hide Additions, BuiltFrom;
    var i :| 0 <= i < |spec.flows| && spec.flows[i].assetID == id;
    assert adds[i] in adds;
    t := Attempt(adds[i].dataset, adds[i].plan, |adds[i].plan|);
  }

  lemma {:induction false} FlowNames(spec: PlotterSpec, adds: seq<Addition>)
    requires BuiltFrom(spec, adds)
    ensures |spec.flows| == |adds| && forall i :: 0 <= i < |adds| ==> spec.flows[i].assetID == adds[i].dataset.id
  {
    hide MirrorsPlan;
    forall i | 0 <= i < |adds|
      ensures spec.flows[i].assetID == adds[i].dataset.id
    {
      assert Contributes(adds[i], spec.flows[i]);
      MirrorNames(adds[i].dataset, adds[i].plan, spec.flows[i]);
    }
  }

  lemma {:induction false} MirrorNames(d: Dataset, plan: seq<ResolvedEdge>, f: Flow)
    requires PlanCapable(plan) && MirrorsPlan(d, plan, f)
    ensures f.assetID == d.id
  {
  }

  // ---------------------------------------------------------------------------------------------
  // Buckets
  // ---------------------------------------------------------------------------------------------

  /** The bucket of the last copy among the first `n` elements. */
  ghost function LastBucket(d: Dataset, plan: seq<ResolvedEdge>, n: nat): Option<string>
    requires n <= |plan|
  {
    if n == 0 then None
    else
      var r := plan[n - 1];
      if r.edge.sink.virtual || d.allocate(n - 1, r.region).Failed? then LastBucket(d, plan, n - 1)
      else Some(d.allocate(n - 1, r.region).value.bucket)
  }

  ghost function LeftBehind(t: Attempt): Option<string>
    requires t.done <= |t.plan|
  {
    LastBucket(t.dataset, t.plan, t.done)
  }

  lemma {:induction false} TrackedExactly(d: Dataset, plan: seq<ResolvedEdge>, n: nat, before: map<string, string>)
    requires n <= |plan|
    ensures Tracked(d, plan, n, before) ==
      match LastBucket(d, plan, n) { case None => before case Some(bucket) => before[d.id := bucket] }
  {
    if n > 0 {
      TrackedExactly(d, plan, n - 1, before);
    }
  }

  /** An attempt leaves a bucket behind exactly if it has carried out a copy. */
  lemma {:induction false} CopiesLeaveBuckets(env: Env, modules: Modules, t: Attempt, n: nat)
    requires Tried(env, modules, t) && n <= t.done
    ensures LastBucket(t.dataset, t.plan, n).Some? <==> exists k :: 0 <= k < n && !t.plan[k].edge.sink.virtual
  {
    hide IsValidPlan;
    if n > 0 {
      CopiesLeaveBuckets(env, modules, t, n - 1);
      assert Succeeds(t.dataset, t.plan, n - 1);
    }
  }

  ghost predicate LeftBy(t: Attempt, id: string, bucket: string) {
    t.done <= |t.plan| && t.dataset.id == id && LeftBehind(t) == Some(bucket)
  }

  /** The tracked buckets are those that the attempts left behind. */
  lemma {:induction false} BucketsExactly(tries: seq<Attempt>)
    requires WithinPlans(tries)
    ensures forall id :: id in Buckets(tries) ==> exists t :: t in tries && LeftBy(t, id, Buckets(tries)[id])
    ensures forall t :: t in tries && t.done <= |t.plan| && LeftBehind(t).Some? ==> t.dataset.id in Buckets(tries)
  {
    if tries != [] {
      var (init, last) := (tries[..|tries| - 1], tries[|tries| - 1]);
      BucketsExactly(init);
      assert tries == init + [last];
      TrackedExactly(last.dataset, last.plan, last.done, Buckets(init));
      hide LastBucket, Tracked;
      forall id | id in Buckets(tries)
        ensures exists t :: t in tries && LeftBy(t, id, Buckets(tries)[id])
      {
        if id == last.dataset.id && LeftBehind(last).Some? {
          assert LeftBy(last, id, Buckets(tries)[id]);
        } else {
          var t :| t in init && LeftBy(t, id, Buckets(init)[id]);
          assert t in tries && LeftBy(t, id, Buckets(tries)[id]);
        }
      }
    }
  }

  ghost predicate DistinctAttempts(tries: seq<Attempt>) {
    forall i, j :: 0 <= i < j < |tries| ==> tries[i].dataset.id != tries[j].dataset.id
  }

  /** If no dataset is listed twice, each has exactly the bucket that its own attempt left behind. */
  lemma {:induction false} OwnBuckets(tries: seq<Attempt>, j: nat)
    requires WithinPlans(tries) && DistinctAttempts(tries) && j < |tries|
    ensures var (id, buckets) := (tries[j].dataset.id, Buckets(tries));
      (if id in buckets then Some(buckets[id]) else None) == LeftBehind(tries[j])
  {
    var (id, buckets) := (tries[j].dataset.id, Buckets(tries));
    BucketsExactly(tries);
    assert tries[j] in tries;
    hide LastBucket, Buckets;
    if id in buckets {
      var t :| t in tries && LeftBy(t, id, buckets[id]);
      var i :| 0 <= i < |tries| && tries[i] == t;
      assert i == j;
    }
  }
}
