/**
 * From the application to the blueprints: what holds of every plotter that is submitted, and of the blueprints
 * that are compiled from it.
 */
module EndToEnd {
  import opened Prelude
  import opened AdminPolicies
  import opened PolicyEnforcement
  import opened DataPaths
  import opened Planner
  import opened PlanGuarantees
  import opened PlotterTypes
  import opened PlotterGeneration
  import opened PlotterContents
  import opened ApplicationSolution
  import opened ApplicationReconciliation
  import opened BlueprintCompiler
  import opened BlueprintDelivery
  import opened PlotterCompiler

  /** A plan that meets the request for its dataset, whatever the rules were. */
  ghost predicate Planned(env: Env, modules: Modules, a: Addition) {
    && IsValidPlan(env, a.dataset.item, modules, a.plan) && Successful(a)
    && HasReadActions(env, a.plan) && AllReadActions(env, a.plan) == multiset(a.dataset.item.actions)
  }

  /** The plan obeys the deploy status and the cluster restrictions of every rule that applies. */
  ghost predicate Obeys(env: Env, a: Addition, rules: seq<Rule>, policySet: string) {
    && PlanCapable(a.plan)
    && (forall i :: 0 <= i < |a.plan| ==> RunsWhereTolerated(env, rules, policySet, a.plan[i]))
    && (forall i, r :: 0 <= i < |a.plan| && r in rules && Applies(r, policySet) && r.decision.deploy == StatusFalse ==>
          a.plan[i].edge.Cap().name != r.capability)
    && (forall r :: r in rules && Applies(r, policySet) && r.decision.deploy == StatusTrue ==>
          exists i :: 0 <= i < |a.plan| && a.plan[i].edge.Cap().name == r.capability)
  }

  lemma {:induction false} AdditionIsPlanned(env: string -> Env, modules: Modules, tries: seq<Attempt>, a: Addition)
    requires AllTried(env, modules, tries) && a in Additions(tries)
    ensures Planned(env(a.dataset.id), modules, a)
  {
    AdditionsAreCompleted(tries);
    var t := Attempt(a.dataset, a.plan, |a.plan|);
    assert Tried(env(a.dataset.id), modules, t);
    hide AllTried, Additions, IsValidPlan;
    ReadActionsAreConserved(env(a.dataset.id), a.dataset.item, modules, a.plan);
  }

  lemma {:induction false} PlannedObeys(
    env: Env, modules: Modules, a: Addition, policies: seq<Policy>, rules: seq<Rule>, policySet: string)
    requires Planned(env, modules, a) && Evaluated(a.dataset.item.config, policies, rules, policySet)
    ensures Obeys(env, a, Heeded(rules, policySet), policySet)
  {
    hide IsValidPlan, Evaluated, Enforces, Heeded;
    EvaluationIsEnforced(a.dataset.item.config, policies, rules, policySet);
    PlanObeysEveryRule(env, a.dataset.item, modules, a.plan, Heeded(rules, policySet), policySet);
  }

  lemma {:induction false} SolvedIsBuilt(
    env: string -> Env, modules: Modules, tries: seq<Attempt>, spec: PlotterSpec, storage: map<string, string>)
    requires Solves(env, modules, tries, spec, storage)
    ensures AllTried(env, modules, tries) && BuiltFrom(spec, Additions(tries))
  {
  }

  /** Every dataset of a submitted plotter that is not denied has a flow made from a plan for it. */
  lemma {:induction false} SubmittedIsPlanned(
    data: seq<DataContext>, states: map<string, AssetState>, storage: map<string, string>, s: Surroundings,
    spec: PlotterSpec, tries: seq<Attempt>, k: nat, d: Dataset, env: string -> Env, modules: Modules)
    returns (a: Addition)
    requires s.listing == Ok((env, modules)) && MadeBy(data, states, storage, s, spec, tries)
    requires k < |data| && s.info(data[k].id) == Ok(d) && !Denied(states, data[k].id)
    requires ApplicationReconciliation.WellFormed(s)
    ensures a in Additions(tries) && a.dataset == d && Planned(env(d.id), modules, a)
  {
    var t := AttemptOf(data, states, storage, s, spec, tries, k);
    AttemptIsCompleted(data, states, storage, s, spec, tries, t);
    a := Addition(t.dataset, t.plan);
    assert Solves(env, modules, tries, spec, storage);
    hide *;
    AdditionsAreCompleted(tries);
    SolvedIsBuilt(env, modules, tries, spec, storage);
    AdditionIsPlanned(env, modules, tries, a);
  }

  lemma {:induction false} AttemptIsCompleted(
    data: seq<DataContext>, states: map<string, AssetState>, storage: map<string, string>, s: Surroundings,
    spec: PlotterSpec, tries: seq<Attempt>, t: Attempt)
    requires s.listing.Ok? && MadeBy(data, states, storage, s, spec, tries) && t in tries
    ensures Completed(t) || Denied(states, t.dataset.id)
  {
  }

  /**
   * The blueprints are compiled from the plotter, whose flows do not disturb each other; in no cluster do instances
   * clash or share a module for different copies, and no module is a plug-in.
   */
  ghost predicate Deployed(spec: PlotterSpec, clusters: seq<ClusterInfo>, hash: string -> string,
                           blueprints: map<string, BlueprintSpec>, adds: seq<Addition>)
  {
    && Undisturbed(adds) && RunnableFlows(spec.flows) && IsBlueprintMap(spec, clusters, hash, blueprints)
    && (forall c :: AllNamed(InstancesOn(spec, clusters, c)) && NamesApart(InstancesOn(spec, clusters, c), hash))
    && (forall c, x :: x in InstancesOn(spec, clusters, c) ==> MakesFirstCopy(InstancesOn(spec, clusters, c), x))
    && (forall r :: ElementOf(adds, r) ==> r.edge.mod.moduleType != PLUGIN)
  }

  /** The planned module is in the blueprint of the planned cluster, and does what the plan says for element `i`. */
  ghost predicate CarriedOutAt(
    clusters: seq<ClusterInfo>, hash: string -> string, blueprints: map<string, BlueprintSpec>, a: Addition, i: nat)
    requires Successful(a) && i < |a.plan|
  {
    var (r, n) := (a.plan[i], ElementName(a, hash, i));
    && r.cluster in blueprints && n in blueprints[r.cluster].modules
    && blueprints[r.cluster].modules[n].name == r.edge.mod.name
    && a.dataset.id in blueprints[r.cluster].modules[n].assetIDs
    && Performs(blueprints[r.cluster].modules[n].args, a, clusters, i)
  }

  /** The blueprints carry out the plan, element by element. */
  ghost predicate CarriedOut(clusters: seq<ClusterInfo>, hash: string -> string, blueprints: map<string, BlueprintSpec>,
                             a: Addition)
  {
    Successful(a) && forall i :: 0 <= i < |a.plan| ==> CarriedOutAt(clusters, hash, blueprints, a, i)
  }

  lemma {:induction false} AdditionReaches(
    spec: PlotterSpec, clusters: seq<ClusterInfo>, hash: string -> string, blueprints: map<string, BlueprintSpec>,
    adds: seq<Addition>, a: Addition, i: nat)
    requires BuiltFrom(spec, adds) && a in adds && Successful(a) && i < |a.plan|
    requires RunnableFlows(spec.flows) && Deployed(spec, clusters, hash, blueprints, adds)
    ensures CarriedOutAt(clusters, hash, blueprints, a, i)
  {
    var j :| 0 <= j < |adds| && adds[j] == a;
    assert a.plan[i] in adds[j].plan && ElementOf(adds, a.plan[i]);
    var list := InstancesOn(spec, clusters, a.plan[i].cluster);
    assert AllNamed(list) && NamesApart(list, hash) && !IsPlugin(a, i);
    assert forall x :: x in list ==> MakesFirstCopy(list, x);
    hide *;
    ApartByName(list, hash, ElementName(a, hash, i));
    var x := PlanReachesBlueprint(spec, clusters, hash, blueprints, adds, j, i);
    ReachedIsCarriedOut(spec, clusters, hash, blueprints, a, i, x);
  }

  lemma {:induction false} ReachedIsCarriedOut(
    spec: PlotterSpec, clusters: seq<ClusterInfo>, hash: string -> string, blueprints: map<string, BlueprintSpec>,
    a: Addition, i: nat, x: Instance)
    requires RunnableFlows(spec.flows) && Successful(a) && i < |a.plan|
    requires Reached(spec, clusters, hash, blueprints, a, i)
    requires x.scope == a.plan[i].edge.Cap().scope && x.moduleName == a.plan[i].edge.mod.name
    requires !IsPlugin(a, i) && Performs(x.args, a, clusters, i)
    requires MakesFirstCopy(InstancesOn(spec, clusters, a.plan[i].cluster), x)
    ensures CarriedOutAt(clusters, hash, blueprints, a, i)
  {
    hide RunnableFlows, Successful, InstancesOn, SourceFor, CopyFor, Those, Reads;
  }

  lemma {:induction false} AdditionIsCarriedOut(
    spec: PlotterSpec, clusters: seq<ClusterInfo>, hash: string -> string, blueprints: map<string, BlueprintSpec>,
    adds: seq<Addition>, a: Addition)
    requires BuiltFrom(spec, adds) && a in adds && Deployed(spec, clusters, hash, blueprints, adds)
    ensures CarriedOut(clusters, hash, blueprints, a)
  {
    assert RunnableFlows(spec.flows) && Successful(a);
    hide BuiltFrom, Successful, RunnableFlows, Deployed, CarriedOutAt;
    forall i | 0 <= i < |a.plan|
      ensures CarriedOutAt(clusters, hash, blueprints, a, i)
    {
      AdditionReaches(spec, clusters, hash, blueprints, adds, a, i);
    }
  }

  /**
   * Every dataset of a submitted plotter that is not denied has a plan that places each required action once, obeys the
   * deploy status and the cluster restrictions of every applicable rule before the first conflict, if there is one, and
   * is carried out, element by element, by the blueprints compiled from the plotter, if nothing stands in the way.
   */
  lemma {:induction false} SubmittedIsEnforced(
    data: seq<DataContext>, states: map<string, AssetState>, storage: map<string, string>, s: Surroundings,
    spec: PlotterSpec, tries: seq<Attempt>, k: nat, d: Dataset, env: string -> Env, modules: Modules,
    policies: seq<Policy>, rules: seq<Rule>, policySet: string,
    clusters: seq<ClusterInfo>, hash: string -> string, blueprints: map<string, BlueprintSpec>) returns (a: Addition)
    requires s.listing == Ok((env, modules)) && MadeBy(data, states, storage, s, spec, tries)
    requires k < |data| && s.info(data[k].id) == Ok(d) && !Denied(states, data[k].id)
    requires ApplicationReconciliation.WellFormed(s)
    requires Evaluated(d.item.config, policies, rules, policySet)
    ensures a in Additions(tries) && a.dataset == d
    ensures Planned(env(d.id), modules, a) && Obeys(env(d.id), a, Heeded(rules, policySet), policySet)
    ensures Heeded(rules, policySet) == rules <==> Consistent(rules, policySet)
    ensures Deployed(spec, clusters, hash, blueprints, Additions(tries)) ==> CarriedOut(clusters, hash, blueprints, a)
  {
    assert Solves(env, modules, tries, spec, storage) && d.id == data[k].id;
    hide *;
    a := SubmittedIsPlanned(data, states, storage, s, spec, tries, k, d, env, modules);
    PlannedObeys(env(d.id), modules, a, policies, rules, policySet);
    HeededExactly(rules, policySet);
    SolvedIsBuilt(env, modules, tries, spec, storage);
    if Deployed(spec, clusters, hash, blueprints, Additions(tries)) {
      AdditionIsCarriedOut(spec, clusters, hash, blueprints, Additions(tries), a);
    }
  }
}
