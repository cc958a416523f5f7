/**
 * When there is a plan (manager/controllers/app/select_modules.go), in terms of what is written in the modules, the
 * policy answers and the clusters, and not of how the planner goes about it.
 */
module PlanConditions {
  import opened Prelude
  import opened AdminPolicies
  import opened DataPaths
  import opened Planner
  import opened PlanGuarantees
  import opened PathInterfaces

  /** Writing to the region is not denied, and the capability lists every action that is required for it. */
  ghost predicate Writable(env: Env, c: Capability, region: string) {
    match env.writePolicy(region)
    case CallError(message) => message != WRITE_NOT_ALLOWED
    case Answer(result) => forall i :: 0 <= i < |result| ==> result[i].name != DENY && result[i].name in c.actions
  }

  ghost predicate LastWritable(env: Env, c: Capability, k: int) {
    && 0 <= k < |env.regions| && Writable(env, c, env.regions[k])
    && forall j :: k < j < |env.regions| ==> !Writable(env, c, env.regions[j])
  }

  /** The last region that can be written to has a name. */
  ghost predicate HasStorage(env: Env, c: Capability) {
    exists k :: LastWritable(env, c, k) && env.regions[k] != ""
  }

  /** Something is to be done to the data at this edge: before it is stored, or as the first edge that can. */
  ghost predicate Transforms(env: Env, required: seq<Action>, edges: seq<Edge>, i: nat)
    requires Capable(edges) && i < |edges|
  {
    || (!edges[i].sink.virtual &&
        exists k :: LastWritable(env, edges[i].Cap(), k) && env.writePolicy(env.regions[k]).Answer? &&
                    env.writePolicy(env.regions[k]).result != [])
    || (exists a :: a in required && FirstToOffer(edges, a, i))
  }

  /** The cluster has an allowed value for everything the decision on the capability restricts. */
  ghost predicate Fits(config: map<string, Decision>, capability: string, c: ClusterInfo) {
    capability in config ==>
      var r := config[capability].restrictions.clusters;
      forall key :: key in r ==> ClusterField(c, key).Some? && ClusterField(c, key).value in r[key]
  }

  /**
   * Every edge that stores data has a region and every edge a cluster; every required action is offered, and every
   * capability that must be deployed used, somewhere on the path.
   */
  ghost predicate Plannable(env: Env, item: Item, edges: seq<Edge>)
    requires Capable(edges)
  {
    && (forall i :: 0 <= i < |edges| && !edges[i].sink.virtual ==> HasStorage(env, edges[i].Cap()))
    && (forall i :: 0 <= i < |edges| ==> HasCluster(env, item, edges, i))
    && (forall a :: a in item.actions ==> exists i :: 0 <= i < |edges| && a.name in edges[i].Cap().actions)
    && (forall c :: c in item.config && item.config[c].deploy == StatusTrue ==>
          exists i :: 0 <= i < |edges| && edges[i].Cap().name == c)
  }

  ghost predicate HasCluster(env: Env, item: Item, edges: seq<Edge>, i: nat)
    requires Capable(edges) && i < |edges|
  {
    exists k :: 0 <= k < |env.clusters| && Fits(item.config, edges[i].Cap().name, env.clusters[k]) &&
                (Transforms(env, item.actions, edges, i) ==> Fits(item.config, TRANSFORM, env.clusters[k]))
  }

  lemma {:induction false} WritableExactly(env: Env, c: Capability, region: string)
    ensures Acceptable(env, c, region) <==> Writable(env, c, region)
  {
    if env.writePolicy(region).Answer? {
      var result := env.writePolicy(region).result;
      assert forall i :: 0 <= i < |result| ==> (Supports(c, result[i]) <==> result[i].name in c.actions);
    }
  }

  lemma {:induction false} ChosenExactly(env: Env, c: Capability)
    ensures
      var chosen := ChosenRegion(env, c, env.regions);
      && (chosen.Some? <==> exists k :: LastWritable(env, c, k))
      && (forall k :: LastWritable(env, c, k) ==> chosen == Some(env.regions[k]))
  {
    ChosenIsLastAcceptable(env, c, env.regions);
    forall k | 0 <= k < |env.regions|
      ensures Acceptable(env, c, env.regions[k]) <==> Writable(env, c, env.regions[k])
    {
      WritableExactly(env, c, env.regions[k]);
    }
    hide Acceptable, Writable, ChosenRegion;
    var chosen := ChosenRegion(env, c, env.regions);
    if chosen.Some? {
      var n: nat :| n < |env.regions| && env.regions[n] == chosen.value && Acceptable(env, c, env.regions[n]) &&
                    forall j :: n < j < |env.regions| ==> !Acceptable(env, c, env.regions[j]);
      assert LastWritable(env, c, n);
      forall k | LastWritable(env, c, k)
        ensures k == n
      {
        assert !(k < n) && !(n < k);
      }
    }
  }

  lemma {:induction false} TransformsExactly(env: Env, required: seq<Action>, edges: seq<Edge>, i: nat)
    requires Capable(edges) && i < |edges|
    ensures |ActionsAt(env, required, edges, i)| > 0 <==> Transforms(env, required, edges, i)
  {
    var taken := Assigned(required, edges, i);
    assert taken != [] <==> exists a :: a in required && FirstToOffer(edges, a, i) by {
      AssignedToFirstSupporter(required, edges, i);
      forall a
        ensures FirstSupporter(edges, a) == i <==> FirstToOffer(edges, a, i)
      {
        FirstOffers(edges, a, i);
      }
      hide Assigned, FirstSupporter, FirstToOffer;
      if taken != [] {
        assert taken[0] in taken;
      }
    }
    hide Assigned, FirstToOffer, LastWritable;
    ChosenExactly(env, edges[i].Cap());
  }

  lemma {:induction false} FitsExactly(config: map<string, Decision>, capability: string, c: ClusterInfo)
    ensures MeetsRestriction(ClusterRestriction(config, capability), c) <==> Fits(config, capability, c)
  {
  }

  lemma {:induction false} EdgeExactly(env: Env, item: Item, edges: seq<Edge>, i: nat)
    requires Capable(edges) && i < |edges|
    ensures EdgeAccepted(env, item, edges, i) <==>
            (edges[i].sink.virtual || HasStorage(env, edges[i].Cap())) && HasCluster(env, item, edges, i)
  {
    ChosenExactly(env, edges[i].Cap());
    TransformsExactly(env, item.actions, edges, i);
    hide LastWritable, ChosenRegion, ActionsAt, Transforms, MeetsRestriction, ClusterRestriction, Fits;
    forall k | 0 <= k < |env.clusters|
      ensures
        MayRun(item.config, edges[i].Cap().name, ActionsAt(env, item.actions, edges, i), env.clusters[k]) <==>
        Fits(item.config, edges[i].Cap().name, env.clusters[k]) &&
        (Transforms(env, item.actions, edges, i) ==> Fits(item.config, TRANSFORM, env.clusters[k]))
    {
      FitsExactly(item.config, edges[i].Cap().name, env.clusters[k]);
      FitsExactly(item.config, TRANSFORM, env.clusters[k]);
    }
  }

  lemma {:induction false} OfferedExactly(edges: seq<Edge>, a: Action)
    requires Capable(edges)
    ensures FirstSupporter(edges, a) < |edges| <==> exists i :: 0 <= i < |edges| && a.name in edges[i].Cap().actions
  {
    var k := FirstSupporter(edges, a);
    assert k < |edges| ==> Supports(edges[k].Cap(), a);
    assert forall i :: 0 <= i < |edges| && i < k ==> !Supports(edges[i].Cap(), a);
  }

  lemma {:induction false} AcceptsExactly(env: Env, item: Item, edges: seq<Edge>)
    requires Capable(edges)
    ensures Accepts(env, item, edges) <==> Plannable(env, item, edges)
  {
    forall i | 0 <= i < |edges|
      ensures EdgeAccepted(env, item, edges, i) <==>
        (edges[i].sink.virtual || HasStorage(env, edges[i].Cap())) && HasCluster(env, item, edges, i)
    {
      EdgeExactly(env, item, edges, i);
    }
    forall a
      ensures FirstSupporter(edges, a) < |edges| <==>
        exists i :: 0 <= i < |edges| && a.name in edges[i].Cap().actions
    {
      OfferedExactly(edges, a);
    }
    hide EdgeAccepted, HasStorage, HasCluster, FirstSupporter;
    if Plannable(env, item, edges) {
      assert forall i :: 0 <= i < |item.actions| ==> item.actions[i] in item.actions;
    }
  }

  lemma {:induction false} FirstOfSome(env: Env, config: map<string, Decision>, capability: string,
                                       actions: seq<Action>, k: nat) returns (first: nat)
    requires k < |env.clusters| && MayRun(config, capability, actions, env.clusters[k])
    ensures first < |env.clusters| && IsFirstCluster(env, config, capability, actions, first)
  {
    hide MayRun;
    if j: nat :| j < k && MayRun(config, capability, actions, env.clusters[j]) {
      first := FirstOfSome(env, config, capability, actions, j);
    } else {
      first := k;
    }
  }

  lemma {:induction false} ResolveEdge(env: Env, item: Item, edges: seq<Edge>, i: nat) returns (r: ResolvedEdge)
    requires Capable(edges) && i < |edges| && EdgeAccepted(env, item, edges, i)
    ensures ResolvedAt(env, item, edges, i, r)
  {
    hide ActionsAt, MayRun, IsFirstCluster, ChosenRegion;
    var actions := ActionsAt(env, item.actions, edges, i);
    var k: nat :| k < |env.clusters| && MayRun(item.config, edges[i].Cap().name, actions, env.clusters[k]);
    var first := FirstOfSome(env, item.config, edges[i].Cap().name, actions, k);
    var region := if edges[i].sink.virtual then "" else ChosenRegion(env, edges[i].Cap(), env.regions).value;
    r := ResolvedEdge(edges[i], actions, env.clusters[first].name, region);
  }

  lemma {:induction false} ResolvePath(env: Env, item: Item, edges: seq<Edge>, n: nat) returns (plan: seq<ResolvedEdge>)
    requires Capable(edges) && n <= |edges| && Accepts(env, item, edges)
    ensures |plan| == n && forall i :: 0 <= i < n ==> ResolvedAt(env, item, edges, i, plan[i])
  {
    if n == 0 {
      return [];
    }
    assert EdgeAccepted(env, item, edges, n - 1);
    hide *;
    var front := ResolvePath(env, item, edges, n - 1);
    var r := ResolveEdge(env, item, edges, n - 1);
    plan := front + [r];
  }

  /** A path has a plan exactly if it is a chain of modules and can be planned. */
  lemma {:induction false} PlanExistsExactly(env: Env, item: Item, modules: Modules, path: seq<Edge>)
    ensures
      (exists plan :: IsValidPlan(env, item, modules, plan) && EdgesOf(plan) == path) <==>
      IsChain(modules, item.config, item.source, item.sink, item.limit, path) &&
      Capable(path) && Plannable(env, item, path)
  {
    DataPathExactly(modules, item.config, item.source, item.sink, item.limit, path);
    if Capable(path) {
      AcceptsExactly(env, item, path);
    }
    hide IsDataPath, IsChain, Accepts, Plannable, Capable;
    if plan :| IsValidPlan(env, item, modules, plan) && EdgesOf(plan) == path {
    }
    if IsDataPath(modules, item.config, item.source, item.sink, item.limit, path) && Capable(path) &&
       Accepts(env, item, path) {
      var plan := ResolvePath(env, item, path, |path|);
      assert IsPlan(env, item, path, plan);
      PlansAreUnique(env, item, path, plan, plan);
      assert IsValidPlan(env, item, modules, plan);
    }
  }
}
