/**
 * What every plan guarantees, whatever the modules, clusters, regions and policies are.
 */
module PlanGuarantees {
  import opened Prelude
  import opened AdminPolicies
  import opened PolicyEnforcement
  import opened DataPaths
  import opened Planner

  // ---------------------------------------------------------------------------------------------
  // Read actions are conserved
  // ---------------------------------------------------------------------------------------------

  /** All read actions placed on the first `n` edges, with multiplicity. */
  ghost function Placed(required: seq<Action>, edges: seq<Edge>, n: nat): multiset<Action>
    requires Capable(edges)
  {
    if n == 0 then multiset{} else Placed(required, edges, n - 1) + multiset(Assigned(required, edges, n - 1))
  }

  lemma {:induction false} PendingSplits(required: seq<Action>, edges: seq<Edge>, i: nat)
    requires Capable(edges)
    ensures multiset(Pending(required, edges, i)) ==
            multiset(Assigned(required, edges, i)) + multiset(Pending(required, edges, i + 1))
  {
    if required != [] {
      PendingSplits(required[..|required| - 1], edges, i);
    }
  }

  lemma {:induction false} PlacedOrPending(required: seq<Action>, edges: seq<Edge>, n: nat)
    requires Capable(edges)
    ensures Placed(required, edges, n) + multiset(Pending(required, edges, n)) == multiset(required)
  {
    hide Pending, Assigned, FirstSupporter;
    if n == 0 {
      AllPending(required, edges);
    } else {
      PlacedOrPending(required, edges, n - 1);
      PendingSplits(required, edges, n - 1);
    }
  }

  lemma {:induction false} AssignedToFirstSupporter(required: seq<Action>, edges: seq<Edge>, i: nat)
    requires Capable(edges)
    ensures forall a :: a in Assigned(required, edges, i) <==> a in required && FirstSupporter(edges, a) == i
  {
    if required != [] {
      AssignedToFirstSupporter(required[..|required| - 1], edges, i);
      assert required == required[..|required| - 1] + [required[|required| - 1]];
    }
  }

  /** The actions of a plan element beyond the write actions of its storage region. */
  ghost function ReadActions(env: Env, r: ResolvedEdge): seq<Action>
    requires r.edge.HasCapability() && |WriteActions(env, r.edge)| <= |r.actions|
  {
    r.actions[|WriteActions(env, r.edge)|..]
  }

  ghost predicate HasReadActions(env: Env, plan: seq<ResolvedEdge>) {
    forall i :: 0 <= i < |plan| ==>
      plan[i].edge.HasCapability() && |WriteActions(env, plan[i].edge)| <= |plan[i].actions|
  }

  ghost function AllReadActions(env: Env, plan: seq<ResolvedEdge>): multiset<Action>
    requires HasReadActions(env, plan)
  {
    if plan == [] then multiset{}
    else AllReadActions(env, plan[..|plan| - 1]) + multiset(ReadActions(env, plan[|plan| - 1]))
  }

  lemma {:induction false} ReadActionsOf(env: Env, item: Item, edges: seq<Edge>, plan: seq<ResolvedEdge>, i: nat)
    requires Capable(edges) && IsPlan(env, item, edges, plan) && i < |plan|
    ensures plan[i].edge.HasCapability() && |WriteActions(env, plan[i].edge)| <= |plan[i].actions|
    ensures ReadActions(env, plan[i]) == Assigned(item.actions, edges, i)
  {
    hide Assigned, WriteActions, IsFirstCluster;
    assert ResolvedAt(env, item, edges, i, plan[i]);
  }

  lemma {:induction false} ReadActionsArePlaced(env: Env, item: Item, edges: seq<Edge>, plan: seq<ResolvedEdge>, n: nat)
    requires Capable(edges) && IsPlan(env, item, edges, plan) && n <= |plan|
    ensures HasReadActions(env, plan[..n]) && AllReadActions(env, plan[..n]) == Placed(item.actions, edges, n)
  {
    hide Assigned, WriteActions, IsPlan, ReadActions;
    if n > 0 {
      var init, last := plan[..n - 1], plan[n - 1];
      ReadActionsArePlaced(env, item, edges, plan, n - 1);
      assert plan[..n] == init + [last];
      ReadActionsOf(env, item, edges, plan, n - 1);
      assert plan[..n][..n - 1] == init;
    }
  }

  /** The capability of edge `i` has the action in its list, and no earlier one has. */
  ghost predicate FirstToOffer(edges: seq<Edge>, a: Action, i: nat)
    requires Capable(edges)
  {
    && i < |edges| && a.name in edges[i].Cap().actions
    && forall j :: 0 <= j < i ==> a.name !in edges[j].Cap().actions
  }

  lemma {:induction false} FirstOffers(edges: seq<Edge>, a: Action, i: nat)
    requires Capable(edges) && i < |edges|
    ensures FirstSupporter(edges, a) == i <==> FirstToOffer(edges, a, i)
  {
    var k := FirstSupporter(edges, a);
    assert k < |edges| ==> Supports(edges[k].Cap(), a);
    assert i < k ==> !Supports(edges[i].Cap(), a);
  }

  /** Every occurrence of a required action is placed once, on the first edge that supports it. */
  lemma {:induction false} ReadActionsAreConserved(env: Env, item: Item, modules: Modules, plan: seq<ResolvedEdge>)
    requires IsValidPlan(env, item, modules, plan)
    ensures HasReadActions(env, plan)
    ensures AllReadActions(env, plan) == multiset(item.actions)
    ensures forall i, a :: 0 <= i < |plan| ==>
              (a in ReadActions(env, plan[i]) <==> a in item.actions && FirstToOffer(EdgesOf(plan), a, i))
  {
    hide IsDataPath, Assigned, Pending, Placed, FirstSupporter, ReadActions, AllReadActions, WriteActions;
    var edges := EdgesOf(plan);
    ReadActionsArePlaced(env, item, edges, plan, |plan|);
    assert plan[..|plan|] == plan;
    PlacedOrPending(item.actions, edges, |plan|);
    NonePending(item.actions, edges);
    hide HasReadActions;
    forall i, a | 0 <= i < |plan|
      ensures plan[i].edge.HasCapability() && |WriteActions(env, plan[i].edge)| <= |plan[i].actions|
      ensures a in ReadActions(env, plan[i]) <==> a in item.actions && FirstToOffer(edges, a, i)
    {
      ReadActionsOf(env, item, edges, plan, i);
      FirstOffers(edges, a, i);
      AssignedToFirstSupporter(item.actions, edges, i);
    }
  }

  // ---------------------------------------------------------------------------------------------
  // Writes are governed
  // ---------------------------------------------------------------------------------------------

  lemma {:induction false} ChosenIsLastAcceptable(env: Env, c: Capability, regions: seq<string>)
    ensures var r := ChosenRegion(env, c, regions);
            && (r.None? <==> forall k :: 0 <= k < |regions| ==> !Acceptable(env, c, regions[k]))
            && (r.Some? ==> exists k :: 0 <= k < |regions| && regions[k] == r.value && Acceptable(env, c, regions[k]) &&
                                        forall j :: k < j < |regions| ==> !Acceptable(env, c, regions[j]))
  {
    if regions != [] && !Acceptable(env, c, regions[|regions| - 1]) {
      var init := regions[..|regions| - 1];
      ChosenIsLastAcceptable(env, c, init);
      var r := ChosenRegion(env, c, init);
      if r.Some? {
        var k :| 0 <= k < |init| && init[k] == r.value && Acceptable(env, c, init[k]) &&
                 forall j :: k < j < |init| ==> !Acceptable(env, c, init[j]);
        assert forall j :: k < j < |regions| ==> j == |init| || regions[j] == init[j];
        assert regions[k] == r.value;
      } else {
        assert forall j :: 0 <= j < |init| ==> regions[j] == init[j];
      }
    }
  }

  /** Data is stored only in a configured region where writing is not denied, after all its write actions. */
  lemma {:induction false} StorageIsGoverned(env: Env, item: Item, modules: Modules, plan: seq<ResolvedEdge>, i: nat)
    requires IsValidPlan(env, item, modules, plan) && i < |plan| && !plan[i].edge.sink.virtual
    ensures plan[i].region in env.regions && plan[i].region != ""
    ensures !Denies(env.writePolicy(plan[i].region))
    ensures RegionActions(env, plan[i].region) <= plan[i].actions
  {
    var edges := EdgesOf(plan);
    assert ResolvedAt(env, item, edges, i, plan[i]);
    ChosenIsLastAcceptable(env, edges[i].Cap(), env.regions);
  }

  /** The policy manager could not be asked about the region, for a reason other than a denial. */
  ghost predicate LookupFails(env: Env, region: string) {
    env.writePolicy(region).CallError? && env.writePolicy(region).message != WRITE_NOT_ALLOWED
  }

  /**
   * The region is one that the policy manager has answered for exactly if every failed lookup is followed
   * by an acceptable answer: a failed lookup counts as leave to write.
   */
  lemma {:induction false} AnsweredExactly(env: Env, c: Capability, regions: seq<string>)
    ensures
      var chosen := ChosenRegion(env, c, regions);
      (chosen.Some? ==> env.writePolicy(chosen.value).Answer?) <==>
      forall j :: 0 <= j < |regions| && LookupFails(env, regions[j]) ==>
        exists k :: j < k < |regions| && Acceptable(env, c, regions[k]) && env.writePolicy(regions[k]).Answer?
  {
    var chosen := ChosenRegion(env, c, regions);
    ChosenIsLastAcceptable(env, c, regions);
    assert forall j :: 0 <= j < |regions| && LookupFails(env, regions[j]) ==> Acceptable(env, c, regions[j]);
    if chosen.Some? {
      var n :| 0 <= n < |regions| && regions[n] == chosen.value && Acceptable(env, c, regions[n]) &&
               forall j :: n < j < |regions| ==> !Acceptable(env, c, regions[j]);
      assert env.writePolicy(regions[n]).Answer? || LookupFails(env, regions[n]);
    }
  }

  /** A policy manager that cannot be reached: the region is chosen although nobody was asked about it. */
  lemma {:induction false} UnansweredIsChosen(c: Capability)
    ensures exists env: Env ::
      && ChosenRegion(env, c, env.regions).Some? && !env.writePolicy(ChosenRegion(env, c, env.regions).value).Answer?
  {
    var env := Env([], ["region"], (region: string) => CallError("unreachable"));
    AnsweredExactly(env, c, env.regions);
    assert LookupFails(env, env.regions[0]) && Acceptable(env, c, env.regions[0]);
    ChosenIsLastAcceptable(env, c, env.regions);
  }

  /** Every action of a plan is one its module performs. */
  lemma {:induction false} PlannedActionsAreSupported(
    env: Env, item: Item, modules: Modules, plan: seq<ResolvedEdge>, i: nat)
    requires IsValidPlan(env, item, modules, plan) && i < |plan|
    ensures plan[i].edge.HasCapability()
    ensures forall a :: a in plan[i].actions ==> a.name in plan[i].edge.Cap().actions
  {
    var edges := EdgesOf(plan);
    var c := edges[i].Cap();
    assert ResolvedAt(env, item, edges, i, plan[i]);
    ChosenIsLastAcceptable(env, c, env.regions);
    AssignedToFirstSupporter(item.actions, edges, i);
    var w, r := WriteActions(env, edges[i]), Assigned(item.actions, edges, i);
    assert SupportsAll(c, w);
    forall k | 0 <= k < |r| ensures Supports(c, r[k]) {
      assert r[k] in r;
    }
  }

  // ---------------------------------------------------------------------------------------------
  // Config policies are obeyed, rule by rule
  // ---------------------------------------------------------------------------------------------

  /** The cluster has an allowed value for everything the decision lists values for. */
  ghost predicate Tolerates(d: Decision, c: ClusterInfo) {
    forall key :: key in d.restrictions.clusters && d.restrictions.clusters[key] != [] ==>
      ClusterField(c, key).Some? && ClusterField(c, key).value in d.restrictions.clusters[key]
  }

  /** All applicable rules for the capability tolerate the cluster. */
  ghost predicate RulesTolerate(rules: seq<Rule>, policySet: string, capability: string, c: ClusterInfo) {
    forall i :: 0 <= i < |rules| && Applies(rules[i], policySet) && rules[i].capability == capability ==>
      Tolerates(rules[i].decision, c)
  }

  /** A cluster that meets the decision for a capability is tolerated by every rule that the decision enforces. */
  lemma {:induction false} EnforcedIsTolerated(config: map<string, Decision>, rules: seq<Rule>, policySet: string,
                                               capability: string, c: ClusterInfo)
    requires Enforces(config, rules, policySet)
    requires MeetsRestriction(ClusterRestriction(config, capability), c)
    ensures RulesTolerate(rules, policySet, capability, c)
  {
    forall i | 0 <= i < |rules| && Applies(rules[i], policySet) && rules[i].capability == capability
      ensures Tolerates(rules[i].decision, c)
    {
      var (d, r) := (config[capability], rules[i].decision);
      forall key | key in r.restrictions.clusters && r.restrictions.clusters[key] != []
        ensures ClusterField(c, key).Some? && ClusterField(c, key).value in r.restrictions.clusters[key]
      {
        assert EnforcedOn(RestrictionOn(d, Clusters), RestrictionOn(r, Clusters), key);
      }
    }
  }

  /**
   * A plan made under decisions that enforce the rules runs each capability in a cluster that every single applicable
   * rule tolerates (the rules for "transform" too if the element performs actions), uses no capability a rule forbids,
   * and uses every capability a rule requires.  Restrictions of modules and storage accounts are not looked at.
   */
  lemma {:induction false} PlanObeysEveryRule(env: Env, item: Item, modules: Modules, plan: seq<ResolvedEdge>,
                                              rules: seq<Rule>, policySet: string)
    requires IsValidPlan(env, item, modules, plan) && Enforces(item.config, rules, policySet)
    ensures forall i :: 0 <= i < |plan| ==> RunsWhereTolerated(env, rules, policySet, plan[i])
    ensures forall i, r ::
      0 <= i < |plan| && r in rules && Applies(r, policySet) && r.decision.deploy == StatusFalse ==>
              plan[i].edge.Cap().name != r.capability
    ensures forall r :: r in rules && Applies(r, policySet) && r.decision.deploy == StatusTrue ==>
              exists i :: 0 <= i < |plan| && plan[i].edge.Cap().name == r.capability
  {
    var edges := EdgesOf(plan);
    assert forall i :: 0 <= i < |plan| ==> plan[i].edge == edges[i] && edges[i].HasCapability();
    forall i | 0 <= i < |plan|
      ensures RunsWhereTolerated(env, rules, policySet, plan[i])
    {
      assert ResolvedAt(env, item, edges, i, plan[i]);
      var k: nat :| IsFirstCluster(env, item.config, edges[i].Cap().name, plan[i].actions, k) &&
                    plan[i].cluster == env.clusters[k].name;
      EnforcedIsTolerated(item.config, rules, policySet, edges[i].Cap().name, env.clusters[k]);
      if plan[i].actions != [] {
        EnforcedIsTolerated(item.config, rules, policySet, TRANSFORM, env.clusters[k]);
      }
    }
    assert forall j :: 0 <= j < |rules| && Applies(rules[j], policySet) ==>
        rules[j].capability in item.config && EnforcedBy(item.config[rules[j].capability], rules[j]);
    assert forall i :: 0 <= i < |plan| ==> Usable(modules, item.config, edges[i]);
    assert forall c :: c in item.config && item.config[c].deploy == StatusTrue ==> CapabilityOnPath(edges, c);
  }

  ghost predicate RunsWhereTolerated(env: Env, rules: seq<Rule>, policySet: string, r: ResolvedEdge) {
    && r.edge.HasCapability()
    && exists k :: 0 <= k < |env.clusters| && env.clusters[k].name == r.cluster &&
                   RulesTolerate(rules, policySet, r.edge.Cap().name, env.clusters[k]) &&
                   (r.actions != [] ==> RulesTolerate(rules, policySet, TRANSFORM, env.clusters[k]))
  }

  /** Without empty lists the check of a merged restriction is exactly the check of every rule. */
  lemma {:induction false} ClusterCheckIsConjunction(
    config: map<string, Decision>, policies: seq<Policy>, rules: seq<Rule>, policySet: string, capability: string,
    c: ClusterInfo)
    requires Reflects(config, policies, rules, policySet) && Satisfiable(rules)
    ensures MeetsRestriction(ClusterRestriction(config, capability), c) <==>
            RulesTolerate(rules, policySet, capability, c)
  {
    if MeetsRestriction(ClusterRestriction(config, capability), c) {
      ReflectedIsEnforced(config, policies, rules, policySet);
      EnforcedIsTolerated(config, rules, policySet, capability, c);
    }
    if RulesTolerate(rules, policySet, capability, c) && capability in config {
      var ds := DecisionsFor(rules, policySet, capability);
      assert Represents(config[capability], ds);
      SatisfiableDecisions(rules, policySet, capability);
      DecisionsAreDecided(rules, policySet, capability);
      forall d | d in ds ensures Tolerates(d, c) {
        var i :| 0 <= i < |rules| && rules[i].capability == capability && Applies(rules[i], policySet) &&
                 WithDefaults(rules[i].decision) == d;
        assert Tolerates(rules[i].decision, c);
      }
      hide Reflects, Represents, DecisionsFor, RulesTolerate;
      forall key | key in ClusterRestriction(config, capability)
        ensures ClusterField(c, key).Some? && ClusterField(c, key).value in ClusterRestriction(config, capability)[key]
      {
        MergedIsConjunction(config[capability], ds, Clusters, key);
        var d :| d in ds && key in RestrictionOn(d, Clusters);
        assert Tolerates(d, c);
        assert NoDecisionRulesOut(ds, Clusters, key, ClusterField(c, key).value) by {
          forall e | e in ds && key in RestrictionOn(e, Clusters)
            ensures ClusterField(c, key).value in RestrictionOn(e, Clusters)[key]
          {
            assert Tolerates(e, c);
          }
        }
      }
    }
  }
}
