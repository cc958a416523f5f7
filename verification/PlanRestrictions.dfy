/**
 * What config decisions can and cannot achieve: exactly which plans they leave
 * (manager/controllers/app/select_modules.go).
 */
module PlanRestrictions {
  import opened Prelude
  import opened AdminPolicies
  import opened PolicyEnforcement
  import opened DataPaths
  import opened Planner
  import opened PlanGuarantees

  // ---------------------------------------------------------------------------------------------
  // What the planner does not look at
  // ---------------------------------------------------------------------------------------------

  /** The decisions differ at most in their restrictions of modules and storage accounts, and in their policies. */
  ghost predicate SameForPlanner(config: map<string, Decision>, config': map<string, Decision>) {
    && config.Keys == config'.Keys
    && forall c :: c in config ==>
        config'[c].deploy == config[c].deploy && config'[c].restrictions.clusters == config[c].restrictions.clusters
  }

  lemma {:induction false} SameEdge(
    env: Env, item: Item, config: map<string, Decision>, edges: seq<Edge>, i: nat, r: ResolvedEdge)
    requires SameForPlanner(item.config, config) && Capable(edges) && i < |edges|
    ensures EdgeAccepted(env, item, edges, i) ==> EdgeAccepted(env, item.(config := config), edges, i)
    ensures ResolvedAt(env, item, edges, i, r) ==> ResolvedAt(env, item.(config := config), edges, i, r)
  {
    hide ActionsAt, ChosenRegion, MeetsRestriction;
    forall capability
      ensures ClusterRestriction(config, capability) == ClusterRestriction(item.config, capability)
    {
    }
    var item' := item.(config := config);
    if ResolvedAt(env, item, edges, i, r) {
      var k: nat :|
        IsFirstCluster(env, item.config, edges[i].Cap().name, r.actions, k) && r.cluster == env.clusters[k].name;
      assert IsFirstCluster(env, item'.config, edges[i].Cap().name, r.actions, k);
    }
  }

  lemma {:induction false} StaysValid(
    env: Env, item: Item, modules: Modules, plan: seq<ResolvedEdge>, config: map<string, Decision>)
    requires SameForPlanner(item.config, config) && IsValidPlan(env, item, modules, plan)
    ensures IsValidPlan(env, item.(config := config), modules, plan)
  {
    var (edges, item') := (EdgesOf(plan), item.(config := config));
    hide EdgeAccepted, ResolvedAt, SupportsSink, SupportsSource, Joined, FirstSupporter;
    forall i | 0 <= i < |plan|
      ensures EdgeAccepted(env, item', edges, i) && ResolvedAt(env, item', edges, i, plan[i])
      ensures Usable(modules, config, edges[i])
    {
      assert EdgeAccepted(env, item, edges, i) && ResolvedAt(env, item, edges, i, plan[i]);
      assert Usable(modules, item.config, edges[i]);
      SameEdge(env, item, config, edges, i, plan[i]);
    }
  }

  /** Restrictions of modules and storage accounts make no difference to what is a plan. */
  lemma {:induction false} OnlyClustersMatter(
    env: Env, item: Item, modules: Modules, plan: seq<ResolvedEdge>, config: map<string, Decision>)
    requires SameForPlanner(item.config, config)
    ensures IsValidPlan(env, item, modules, plan) <==> IsValidPlan(env, item.(config := config), modules, plan)
  {
    hide IsValidPlan;
    var item' := item.(config := config);
    if IsValidPlan(env, item, modules, plan) {
      StaysValid(env, item, modules, plan, config);
    }
    if IsValidPlan(env, item', modules, plan) {
      StaysValid(env, item', modules, plan, item.config);
      assert item'.(config := item.config) == item;
    }
  }

  // ---------------------------------------------------------------------------------------------
  // Which capabilities some plan can use
  // ---------------------------------------------------------------------------------------------

  /** The key denotes a field of a cluster that can have the value. */
  predicate Denotes(key: string, v: string) {
    key in {"name", "metadata.region"} || (key in {"metadata.zone", "metadata.vaultAuthPath"} && v != "")
  }

  /** Every key denotes a field that can have one of the values. */
  ghost predicate Runnable(r: Restriction) {
    forall key :: key in r ==> exists v :: v in r[key] && Denotes(key, v)
  }

  ghost function Pick(r: Restriction, key: string): (v: string)
    requires Runnable(r)
    ensures key in r ==> v in r[key] && Denotes(key, v)
  {
    if key in r then
      var v :| v in r[key] && Denotes(key, v);
      v
    else ""
  }

  ghost function ClusterFor(r: Restriction): ClusterInfo
    requires Runnable(r)
  {
    ClusterInfo(Pick(r, "name"), Pick(r, "metadata.region"),
                Pick(r, "metadata.zone"), Pick(r, "metadata.vaultAuthPath"))
  }

  /** Some cluster meets a restriction exactly if every key denotes a field that can have one of its values. */
  lemma {:induction false} RunnableExactly(r: Restriction)
    ensures Runnable(r) <==> exists c :: MeetsRestriction(r, c)
    ensures Runnable(r) ==> MeetsRestriction(r, ClusterFor(r))
  {
    if Runnable(r) {
      forall key | key in r
        ensures ClusterField(ClusterFor(r), key).Some? && ClusterField(ClusterFor(r), key).value in r[key]
      {
        assert Denotes(key, Pick(r, key));
      }
      assert MeetsRestriction(r, ClusterFor(r));
    }
    if c :| MeetsRestriction(r, c) {
      forall key | key in r
        ensures exists v :: v in r[key] && Denotes(key, v)
      {
        assert ClusterField(c, key).value in r[key] && Denotes(key, ClusterField(c, key).value);
      }
    }
  }

  ghost function Demanded(config: map<string, Decision>): set<string> {
    set c | c in config && config[c].deploy == StatusTrue
  }

  /** Every capability that must be deployed can run in some cluster. */
  ghost predicate Feasible(config: map<string, Decision>) {
    forall c :: c in Demanded(config) ==> Runnable(ClusterRestriction(config, c))
  }

  /** The decisions leave plans with the capability: it is allowed, and it and all that is demanded can run. */
  ghost predicate Deployable(config: map<string, Decision>, c: string) {
    AllowCapability(config, c) && Runnable(ClusterRestriction(config, c)) && Feasible(config)
  }

  lemma {:induction false} AcceptedIsRunnable(env: Env, item: Item, edges: seq<Edge>, i: nat)
    requires Capable(edges) && i < |edges| && EdgeAccepted(env, item, edges, i)
    ensures Runnable(ClusterRestriction(item.config, edges[i].Cap().name))
  {
    hide ActionsAt, ChosenRegion, Runnable;
    RunnableExactly(ClusterRestriction(item.config, edges[i].Cap().name));
  }

  lemma {:induction false} UsedIsDeployable(env: Env, item: Item, modules: Modules, plan: seq<ResolvedEdge>, i: nat)
    requires IsValidPlan(env, item, modules, plan) && i < |plan|
    ensures plan[i].edge.HasCapability() && Deployable(item.config, plan[i].edge.Cap().name)
  {
    var edges := EdgesOf(plan);
    assert Usable(modules, item.config, edges[i]);
    hide EdgeAccepted, Runnable, IsPlan;
    AcceptedIsRunnable(env, item, edges, i);
    forall c | c in Demanded(item.config)
      ensures Runnable(ClusterRestriction(item.config, c))
    {
      assert CapabilityOnPath(edges, c);
      var j :| 0 <= j < |edges| && edges[j].Cap().name == c;
      AcceptedIsRunnable(env, item, edges, j);
    }
  }

  // ---------------------------------------------------------------------------------------------
  // A plan with a given capability
  // ---------------------------------------------------------------------------------------------

  const COPIES := Interface("s3", "csv")
  const STORE := Node(Some(COPIES), false)

  /** A module that copies data, of the given type and chart. */
  function CopyModule(c: string, x: string): Module {
    Module(c, x, x, [Capability(c, Unspecified, [InOut(Some(COPIES), Some(COPIES))], None, [])])
  }

  ghost function CopyEdges(caps: seq<string>, x: string): (edges: seq<Edge>)
    ensures |edges| == |caps| &&
      forall i :: 0 <= i < |caps| ==> edges[i] == Edge(STORE, STORE, CopyModule(caps[i], x), 0)
  {
    seq(|caps|, i requires 0 <= i < |caps| => Edge(STORE, STORE, CopyModule(caps[i], x), 0))
  }

  ghost function CopyModules(caps: seq<string>, x: string): Modules {
    map c | c in SetOf(caps) :: CopyModule(c, x)
  }

  lemma {:induction false} CopiesArePath(config: map<string, Decision>, caps: seq<string>, x: string)
    requires caps != [] && forall i :: 0 <= i < |caps| ==> AllowCapability(config, caps[i])
    ensures IsDataPath(CopyModules(caps, x), config, STORE, STORE, |caps|, CopyEdges(caps, x))
  {
    var (edges, modules) := (CopyEdges(caps, x), CopyModules(caps, x));
    forall i | 0 <= i < |caps|
      ensures Usable(modules, config, edges[i]) && SupportsSource(edges[i].Cap(), STORE)
      ensures (i > 0 ==> Joined(edges[i - 1], edges[i]))
    {
      assert caps[i] in modules && modules[caps[i]] == edges[i].mod;
      assert Match(edges[i].Cap().interfaces[0].source, STORE.connection);
      assert Match(edges[i].Cap().interfaces[0].sink, STORE.connection);
    }
  }

  /** A cluster for each capability, of which `first` is for the first; and one region, open to all. */
  ghost function CopyEnv(
    config: map<string, Decision>, caps: seq<string>, first: ClusterInfo, region: string): (env: Env)
    requires forall i :: 0 <= i < |caps| ==> Runnable(ClusterRestriction(config, caps[i]))
    ensures |env.clusters| == |caps| && env.regions == [region] && env.writePolicy(region) == Answer([])
    ensures forall i :: 0 <= i < |caps| ==>
      env.clusters[i] == if i == 0 then first else ClusterFor(ClusterRestriction(config, caps[i]))
  {
    var clusters := seq(|caps|, i requires 0 <= i < |caps| =>
                          if i == 0 then first else ClusterFor(ClusterRestriction(config, caps[i])));
    Env(clusters, [region], (r: string) => Answer([]))
  }

  lemma {:induction false} CopiesAreAccepted(
    config: map<string, Decision>, caps: seq<string>, x: string, first: ClusterInfo, region: string)
    requires region != "" && forall i :: 0 <= i < |caps| ==> Runnable(ClusterRestriction(config, caps[i]))
    requires forall c :: c in Demanded(config) ==> c in caps
    requires caps != [] && MeetsRestriction(ClusterRestriction(config, caps[0]), first)
    ensures Capable(CopyEdges(caps, x))
    ensures Accepts(CopyEnv(config, caps, first, region), Item(STORE, STORE, config, [], |caps|), CopyEdges(caps, x))
  {
    var (edges, env, item) := (CopyEdges(caps, x), CopyEnv(config, caps, first, region),
                                Item(STORE, STORE, config, [], |caps|));
    forall i | 0 <= i < |edges|
      ensures EdgeAccepted(env, item, edges, i)
    {
      assert ChosenRegion(env, edges[i].Cap(), env.regions) == Some(region);
      assert ActionsAt(env, item.actions, edges, i) == [];
      RunnableExactly(ClusterRestriction(config, caps[i]));
      assert MayRun(config, edges[i].Cap().name, [], env.clusters[i]);
    }
    forall c | c in config && config[c].deploy == StatusTrue
      ensures CapabilityOnPath(edges, c)
    {
      assert c in Demanded(config);
      var i :| 0 <= i < |caps| && caps[i] == c;
      assert edges[i].Cap().name == c;
    }
  }

  lemma {:induction false} FirstClusterExists(
    env: Env, config: map<string, Decision>, capability: string, actions: seq<Action>, n: nat) returns (k: nat)
    requires n < |env.clusters| && MayRun(config, capability, actions, env.clusters[n])
    ensures IsFirstCluster(env, config, capability, actions, k)
  {
    hide MayRun;
    if j :| 0 <= j < n && MayRun(config, capability, actions, env.clusters[j]) {
      k := FirstClusterExists(env, config, capability, actions, j);
    } else {
      k := n;
    }
  }

  lemma {:induction false} ResolvedExists(env: Env, item: Item, edges: seq<Edge>, i: nat)
    requires Capable(edges) && i < |edges| && EdgeAccepted(env, item, edges, i)
    ensures exists r :: ResolvedAt(env, item, edges, i, r)
  {
    var actions := ActionsAt(env, item.actions, edges, i);
    hide ActionsAt, MayRun;
    var n :| 0 <= n < |env.clusters| && MayRun(item.config, edges[i].Cap().name, actions, env.clusters[n]);
    var k := FirstClusterExists(env, item.config, edges[i].Cap().name, actions, n);
    var chosen := ChosenRegion(env, edges[i].Cap(), env.regions);
    var region := if edges[i].sink.virtual then "" else chosen.value;
    var r := ResolvedEdge(edges[i], actions, env.clusters[k].name, region);
    assert ResolvedAt(env, item, edges, i, r);
  }

  ghost function ResolvedFor(env: Env, item: Item, edges: seq<Edge>, i: nat): (r: ResolvedEdge)
    requires Capable(edges) && i < |edges| && EdgeAccepted(env, item, edges, i)
    ensures ResolvedAt(env, item, edges, i, r)
  {
    ResolvedExists(env, item, edges, i);
    var r :| ResolvedAt(env, item, edges, i, r);
    r
  }

  /** An accepted path has a plan. */
  lemma {:induction false} PlanExists(
    env: Env, item: Item, modules: Modules, edges: seq<Edge>) returns (plan: seq<ResolvedEdge>)
    requires IsDataPath(modules, item.config, item.source, item.sink, item.limit, edges)
    requires Capable(edges) && Accepts(env, item, edges)
    ensures IsValidPlan(env, item, modules, plan) && EdgesOf(plan) == edges
  {
    hide EdgeAccepted, ResolvedAt, IsDataPath, CapabilityOnPath, FirstSupporter;
    plan := seq(|edges|, i requires 0 <= i < |edges| => ResolvedFor(env, item, edges, i));
    forall i | 0 <= i < |plan|
      ensures plan[i].edge == edges[i] && ResolvedAt(env, item, edges, i, plan[i])
    {
      ResolvedHasEdge(env, item, edges, i, plan[i]);
    }
    assert EdgesOf(plan) == edges;
  }

  lemma {:induction false} ResolvedHasEdge(env: Env, item: Item, edges: seq<Edge>, i: nat, r: ResolvedEdge)
    requires Capable(edges) && i < |edges| && ResolvedAt(env, item, edges, i, r)
    ensures r.edge == edges[i]
    ensures !edges[i].sink.virtual ==> ChosenRegion(env, edges[i].Cap(), env.regions) == Some(r.region)
  {
  }

  lemma {:induction false} Listed(s: set<string>) returns (l: seq<string>)
    ensures SetOf(l) == s
  {
    if s == {} {
      l := [];
    } else {
      var x :| x in s;
      var rest := Listed(s - {x});
      l := [x] + rest;
      assert forall y :: y in l <==> y == x || y in SetOf(rest);
    }
  }

  /** The capability and all that must be deployed, in a list. */
  ghost predicate ListsDemanded(config: map<string, Decision>, c: string, caps: seq<string>) {
    && caps != [] && caps[0] == c && (forall d :: d in Demanded(config) ==> d in caps)
    && forall i :: 0 <= i < |caps| ==>
        && caps[i] in {c} + Demanded(config)
        && AllowCapability(config, caps[i]) && Runnable(ClusterRestriction(config, caps[i]))
  }

  lemma {:induction false} DemandedListed(config: map<string, Decision>, c: string) returns (caps: seq<string>)
    requires Deployable(config, c)
    ensures ListsDemanded(config, c, caps)
  {
    var demanded := Listed(Demanded(config));
    caps := [c] + demanded;
    hide Runnable, ClusterRestriction;
    assert forall d :: d in Demanded(config) ==> d in SetOf(demanded) && d in caps;
    forall i | 0 <= i < |caps|
      ensures caps[i] in {c} + Demanded(config) && AllowCapability(config, caps[i])
      ensures Runnable(ClusterRestriction(config, caps[i]))
    {
      if i > 0 {
        assert caps[i] in SetOf(demanded) && caps[i] in Demanded(config);
      }
    }
  }

  /** A plan with all that it was made from. */
  datatype Planning = Planning(env: Env, item: Item, modules: Modules, plan: seq<ResolvedEdge>)

  ghost predicate ValidUnder(p: Planning, config: map<string, Decision>) {
    p.item.config == config && IsValidPlan(p.env, p.item, p.modules, p.plan)
  }

  lemma {:induction false} CopyPlan(
    config: map<string, Decision>, c: string, caps: seq<string>, x: string, first: ClusterInfo, region: string)
    returns (p: Planning)
    requires ListsDemanded(config, c, caps) && region != "" && MeetsRestriction(ClusterRestriction(config, c), first)
    ensures ValidUnder(p, config) && EdgesOf(p.plan) == CopyEdges(caps, x) && p.item.actions == []
    ensures p.env.regions == [region] && p.env.writePolicy(region) == Answer([])
    ensures p.env.clusters != [] && p.env.clusters[0] == first
  {
    assert forall i :: 0 <= i < |caps| ==>
        AllowCapability(config, caps[i]) && Runnable(ClusterRestriction(config, caps[i]));
    assert caps != [] && caps[0] == c && forall d :: d in Demanded(config) ==> d in caps;
    hide *;
    CopiesArePath(config, caps, x);
    CopiesAreAccepted(config, caps, x, first, region);
    var env, item := CopyEnv(config, caps, first, region), Item(STORE, STORE, config, [], |caps|);
    var plan := PlanExists(env, item, CopyModules(caps, x), CopyEdges(caps, x));
    p := Planning(env, item, CopyModules(caps, x), plan);
    IsValidUnder(p);
  }

  lemma {:induction false} IsValidUnder(p: Planning)
    requires IsValidPlan(p.env, p.item, p.modules, p.plan)
    ensures ValidUnder(p, p.item.config)
  {
  }

  /**
   * If the decisions leave plans with a capability, there is one by any type of module, in any suitable cluster and
   * region.
   */
  lemma {:induction false} PlanFor(
    config: map<string, Decision>, c: string, x: string, first: ClusterInfo, region: string)
    returns (p: Planning)
    requires Deployable(config, c) && region != "" && MeetsRestriction(ClusterRestriction(config, c), first)
    ensures ValidUnder(p, config) && p.plan != []
    ensures p.plan[0].edge == Edge(STORE, STORE, CopyModule(c, x), 0) && p.plan[0].region == region
    ensures p.plan[0].actions == [] && p.env.clusters != [] && p.env.clusters[0] == first
    ensures forall i :: 0 <= i < |p.plan| ==>
      p.plan[i].edge.HasCapability() && p.plan[i].edge.Cap().name in {c} + Demanded(config)
  {
    var caps := DemandedListed(config, c);
    p := CopyPlan(config, c, caps, x, first, region);
    hide Runnable, Deployable, AllowCapability, Demanded, ClusterRestriction, IsValidPlan, MeetsRestriction;
    forall i | 0 <= i < |p.plan|
      ensures p.plan[i].edge == Edge(STORE, STORE, CopyModule(caps[i], x), 0)
    {
      assert p.plan[i].edge == EdgesOf(p.plan)[i];
    }
    hide CopyEdges, EdgesOf;
    PlanRegion(p.env, p.item, p.modules, p.plan, region);
  }

  lemma {:induction false} PlanRegion(env: Env, item: Item, modules: Modules, plan: seq<ResolvedEdge>, region: string)
    requires IsValidPlan(env, item, modules, plan) && plan != [] && !plan[0].edge.sink.virtual && item.actions == []
    requires env.regions == [region] && env.writePolicy(region) == Answer([])
    ensures plan[0].region == region && plan[0].actions == []
  {
    var edges := EdgesOf(plan);
    assert ResolvedAt(env, item, edges, 0, plan[0]);
    ChosenIsLastAcceptable(env, edges[0].Cap(), env.regions);
  }

  /** The same with some cluster, some module and some region. */
  lemma {:induction false} AnyPlanFor(config: map<string, Decision>, c: string) returns (p: Planning)
    requires Deployable(config, c)
    ensures ValidUnder(p, config) && p.plan != [] && UsedIn(p, 0, config, c)
    ensures forall i :: 0 <= i < |p.plan| ==>
      p.plan[i].edge.HasCapability() && p.plan[i].edge.Cap().name in {c} + Demanded(config)
  {
    var r := ClusterRestriction(config, c);
    RunnableExactly(r);
    p := PlanFor(config, c, "", ClusterFor(r), "region");
  }

  // ---------------------------------------------------------------------------------------------
  // What holds of all plans
  // ---------------------------------------------------------------------------------------------

  /** The plan is valid under the decisions and uses the capability in element `i`. */
  ghost predicate UsedIn(p: Planning, i: int, config: map<string, Decision>, c: string) {
    && ValidUnder(p, config)
    && 0 <= i < |p.plan| && p.plan[i].edge.HasCapability() && p.plan[i].edge.Cap().name == c
  }

  /** A capability is used by some plan exactly if it is allowed and it and all that is demanded can run somewhere. */
  lemma {:induction false} UsedExactly(config: map<string, Decision>, c: string)
    ensures (exists p, i :: UsedIn(p, i, config, c)) <==> Deployable(config, c)
  {
    hide IsValidPlan, Deployable;
    if Deployable(config, c) {
      var p := AnyPlanFor(config, c);
    }
    if p, i :| UsedIn(p, i, config, c) {
      UsedIsDeployable(p.env, p.item, p.modules, p.plan, i);
    }
  }

  ghost predicate Uses(plan: seq<ResolvedEdge>, c: string) {
    exists i :: 0 <= i < |plan| && plan[i].edge.HasCapability() && plan[i].edge.Cap().name == c
  }

  /** Every plan uses a capability exactly if it is demanded, or something demanded can run nowhere. */
  lemma {:induction false} RequiredExactly(config: map<string, Decision>, c: string)
    ensures (forall p :: ValidUnder(p, config) ==> Uses(p.plan, c)) <==> c in Demanded(config) || !Feasible(config)
  {
    if c !in Demanded(config) && Feasible(config) {
      var f := Fresh(config.Keys + {c});
      assert Runnable(ClusterRestriction(config, f));
      hide IsValidPlan, Runnable, Demanded;
      var p := AnyPlanFor(config, f);
      assert ValidUnder(p, config) && !Uses(p.plan, c);
    } else {
      hide Runnable;
      forall p | ValidUnder(p, config)
        ensures Uses(p.plan, c)
      {
        DemandedIsUsed(p.env, p.item, p.modules, p.plan, c);
      }
    }
  }

  lemma {:induction false} DemandedIsUsed(env: Env, item: Item, modules: Modules, plan: seq<ResolvedEdge>, c: string)
    requires IsValidPlan(env, item, modules, plan)
    ensures Feasible(item.config) && (c in Demanded(item.config) ==> Uses(plan, c))
  {
    UsedIsDeployable(env, item, modules, plan, 0);
    var edges := EdgesOf(plan);
    if c in Demanded(item.config) {
      assert CapabilityOnPath(edges, c);
      var i :| 0 <= i < |edges| && edges[i].Cap().name == c;
      assert plan[i].edge == edges[i];
    }
  }

  /** A string that is not in the set. */
  ghost function Fresh(s: set<string>): (x: string)
    ensures x !in s && x != ""
  {
    var n := Longest(s);
    seq(n + 1, i => 'x')
  }

  ghost function Longest(s: set<string>): (n: nat)
    ensures forall x :: x in s ==> |x| <= n
  {
    if s == {} then 0
    else
      var x :| x in s;
      var n := Longest(s - {x});
      if |x| > n then |x| else n
  }

  /** Element `i` is placed in cluster `k`. */
  ghost predicate PlacedIn(p: Planning, i: int, k: int) {
    && 0 <= i < |p.plan| && 0 <= k && p.plan[i].edge.HasCapability()
    && IsFirstCluster(p.env, p.item.config, p.plan[i].edge.Cap().name, p.plan[i].actions, k)
  }

  /**
   * Every plan runs a capability only in clusters that a rule tolerates exactly if the rule tolerates all clusters that
   * meet the decision, or no plan has the capability.
   */
  lemma {:induction false} ClustersObeyedExactly(config: map<string, Decision>, r: Rule)
    ensures (forall p, i, k :: UsedIn(p, i, config, r.capability) && PlacedIn(p, i, k) ==>
               Tolerates(r.decision, p.env.clusters[k])) <==>
      || (forall c :: MeetsRestriction(ClusterRestriction(config, r.capability), c) ==> Tolerates(r.decision, c))
      || !Deployable(config, r.capability)
  {
    hide IsValidPlan, Deployable, Tolerates, MeetsRestriction, ClusterRestriction;
    if c :| MeetsRestriction(ClusterRestriction(config, r.capability), c) && !Tolerates(r.decision, c) {
      if Deployable(config, r.capability) {
        var p := PlanFor(config, r.capability, "", c, "region");
        assert UsedIn(p, 0, config, r.capability) && PlacedIn(p, 0, 0);
      } else {
        UsedExactly(config, r.capability);
      }
    }
  }

  // ---------------------------------------------------------------------------------------------
  // Restrictions of modules and storage accounts
  // ---------------------------------------------------------------------------------------------

  /** The properties of a module that are modelled. */
  function ModuleField(m: Module, key: string): Option<string> {
    if key == "type" then Some(m.moduleType) else if key == "chart.name" then Some(m.chart) else None
  }

  ghost predicate ToleratesModule(d: Decision, m: Module) {
    forall key :: Values(d.restrictions.modules, key) != [] ==>
      ModuleField(m, key).Some? && ModuleField(m, key).value in d.restrictions.modules[key]
  }

  /** `account` gives the properties of the storage account that serves a region. */
  ghost predicate ToleratesAccount(d: Decision, account: (string, string) -> Option<string>, region: string) {
    forall key :: Values(d.restrictions.storageAccounts, key) != [] ==>
      account(region, key).Some? && account(region, key).value in d.restrictions.storageAccounts[key]
  }

  ghost predicate RestrictsModules(d: Decision) {
    exists key :: Values(d.restrictions.modules, key) != []
  }

  lemma {:induction false} SomeModuleIsExcluded(d: Decision, c: string) returns (x: string)
    requires RestrictsModules(d)
    ensures !ToleratesModule(d, CopyModule(c, x))
  {
    var key :| Values(d.restrictions.modules, key) != [];
    x := Fresh(SetOf(d.restrictions.modules[key]));
    assert x !in d.restrictions.modules[key];
  }

  /**
   * Every plan uses only modules that a rule tolerates exactly if the rule restricts none, or no plan has its
   * capability.
   */
  lemma {:induction false} ModulesObeyedExactly(config: map<string, Decision>, r: Rule)
    ensures (forall p, i :: UsedIn(p, i, config, r.capability) ==> ToleratesModule(r.decision, p.plan[i].edge.mod)) <==>
      !RestrictsModules(r.decision) || !Deployable(config, r.capability)
  {
    hide IsValidPlan, Runnable;
    if RestrictsModules(r.decision) && Deployable(config, r.capability) {
      var x := SomeModuleIsExcluded(r.decision, r.capability);
      RunnableExactly(ClusterRestriction(config, r.capability));
      hide Deployable;
      var p := PlanFor(config, r.capability, x, ClusterFor(ClusterRestriction(config, r.capability)), "region");
      hide ToleratesModule;
      assert UsedIn(p, 0, config, r.capability) && !ToleratesModule(r.decision, p.plan[0].edge.mod);
    } else if !Deployable(config, r.capability) {
      UsedExactly(config, r.capability);
    }
  }

  /**
   * Every plan stores only where a rule tolerates exactly if the rule tolerates all regions, or no plan has its
   * capability.
   */
  lemma {:induction false} StorageObeyedExactly(
    config: map<string, Decision>, r: Rule, account: (string, string) -> Option<string>)
    ensures (forall p, i :: UsedIn(p, i, config, r.capability) ==>
               p.plan[i].edge.sink.virtual || ToleratesAccount(r.decision, account, p.plan[i].region)) <==>
      (forall region :: region != "" ==> ToleratesAccount(r.decision, account, region)) ||
      !Deployable(config, r.capability)
  {
    hide ToleratesAccount, IsValidPlan, Runnable;
    if region :| region != "" && !ToleratesAccount(r.decision, account, region) {
      if Deployable(config, r.capability) {
        RunnableExactly(ClusterRestriction(config, r.capability));
        var p := PlanFor(config, r.capability, "", ClusterFor(ClusterRestriction(config, r.capability)), region);
        assert UsedIn(p, 0, config, r.capability);
      } else {
        UsedExactly(config, r.capability);
      }
    } else {
      forall p, i | UsedIn(p, i, config, r.capability)
        ensures p.plan[i].edge.sink.virtual || p.plan[i].region != ""
      {
        if !p.plan[i].edge.sink.virtual {
          StorageIsGoverned(p.env, p.item, p.modules, p.plan, i);
        }
      }
    }
  }

  // ---------------------------------------------------------------------------------------------
  // Rules that are not obeyed
  // ---------------------------------------------------------------------------------------------

  function Plain(status: DeploymentStatus, modules: Restriction): Decision {
    Decision(status, Restrictions(map[], modules, map[]), NO_POLICY)
  }

  function ConflictingRules(): seq<Rule> {
    [Rule("a", Plain(StatusFalse, map[])), Rule("a", Plain(StatusTrue, map[])), Rule("b", Plain(StatusFalse, map[]))]
  }

  lemma {:induction false} OneRule(r: Rule, policySet: string)
    requires Applies(r, policySet)
    ensures Consistent([r], policySet)
    ensures Reflects(map[r.capability := WithDefaults(r.decision)], [r.decision.policy], [r], policySet)
  {
    NoRules(policySet);
    hide Consistent, Reflects;
    FirstRule(map[], [], [], r, policySet);
    var none: seq<Rule> := [];
    var nothing: seq<Policy> := [];
    var no: map<string, Decision> := map[];
    assert none + [r] == [r] && nothing + [r.decision.policy] == [r.decision.policy];
    assert no[r.capability := WithDefaults(r.decision)] == map[r.capability := WithDefaults(r.decision)];
  }

  /** Two rules that quarrel over a capability: the decision of the first is left. */
  lemma {:induction false} TwoRulesConflict(no: Rule, yes: Rule, policySet: string)
    requires Applies(no, policySet) && Applies(yes, policySet) && no.capability == yes.capability
    requires no.decision.deploy == StatusFalse && yes.decision.deploy == StatusTrue
    ensures !Consistent([no, yes], policySet)
    ensures Evaluated(map[no.capability := no.decision], [no.decision.policy, yes.decision.policy], [no, yes],
                      policySet)
  {
    var config := map[no.capability := no.decision];
    OneRule(no, policySet);
    hide Consistent, Reflects, IsLeft;
    MergedRule(config, [no.decision.policy], [no], yes, policySet, no.decision);
    assert !CanMerge(no.decision, yes.decision);
    StaysAsItWas(no.decision, yes.decision);
    var policies := [no.decision.policy] + [yes.decision.policy];
    assert StoppedFrom(config, [no.decision.policy], config, policies, [no], yes, policySet);
    assert [no] + [yes] == [no, yes] && policies == [no.decision.policy, yes.decision.policy];
    StopsHere(config, policies, [no], yes, policySet);
  }

  lemma {:induction false} StaysAsItWas(held: Decision, added: Decision)
    ensures IsLeft(held, added, held)
  {
    forall on
      ensures PartlyMerged(RestrictionOn(held, on), RestrictionOn(added, on), RestrictionOn(held, on))
    {
      NothingMerged(RestrictionOn(held, on), RestrictionOn(added, on));
    }
  }

  /** Two rules that conflict over one capability: a third rule, which forbids another, is not obeyed. */
  lemma {:induction false} ConflictLetsThrough()
    returns (config: map<string, Decision>, policies: seq<Policy>, p: Planning)
    ensures Evaluated(config, policies, ConflictingRules(), "") && ValidUnder(p, config)
    ensures Applies(ConflictingRules()[2], "") && ConflictingRules()[2].decision.deploy == StatusFalse
    ensures Uses(p.plan, ConflictingRules()[2].capability)
  {
    var (rules, no) := (ConflictingRules(), ConflictingRules()[0]);
    config, policies := map[no.capability := no.decision], [no.decision.policy, rules[1].decision.policy];
    TwoRulesConflict(no, rules[1], "");
    assert rules == [no, rules[1]] + rules[2..];
    EvaluationPersists(config, policies, [no, rules[1]], rules[2..], "");
    hide Evaluated;
    assert Demanded(config) == {};
    p := AnyPlanFor(config, "b");
  }

  /** A rule that restricts reading to one type of module: a plan reads by a module of another type. */
  lemma {:induction false} ExcludedModuleIsUsed()
    returns (rules: seq<Rule>, config: map<string, Decision>, policies: seq<Policy>, p: Planning)
    ensures |rules| == 1 && Applies(rules[0], "") && Consistent(rules, "") && Reflects(config, policies, rules, "")
    ensures UsedIn(p, 0, config, rules[0].capability) && !ToleratesModule(rules[0].decision, p.plan[0].edge.mod)
  {
    var r := Rule("read", Plain(StatusTrue, map["type" := ["service"]]));
    rules, config, policies := [r], map[r.capability := r.decision], [r.decision.policy];
    OneRule(r, "");
    hide Consistent, Reflects;
    var c := ClusterInfo("cluster", "region", "", "");
    p := PlanFor(config, "read", "config", c, "region");
    assert ModuleField(p.plan[0].edge.mod, "type") == Some("config");
    assert Values(r.decision.restrictions.modules, "type") == ["service"];
  }

  /** A rule that restricts copying to one storage account: a plan stores data in a region of another account. */
  lemma {:induction false} ExcludedAccountIsUsed(account: (string, string) -> Option<string>)
    returns (rules: seq<Rule>, config: map<string, Decision>, policies: seq<Policy>, p: Planning)
    requires account("eu", "id") == Some("eu-account")
    ensures |rules| == 1 && Applies(rules[0], "") && Consistent(rules, "") && Reflects(config, policies, rules, "")
    ensures UsedIn(p, 0, config, rules[0].capability) && !p.plan[0].edge.sink.virtual
    ensures !ToleratesAccount(rules[0].decision, account, p.plan[0].region)
  {
    var accounts: Restriction := map["id" := ["us-account"]];
    var r := Rule("copy", Decision(StatusTrue, Restrictions(map[], map[], accounts), NO_POLICY));
    rules, config, policies := [r], map[r.capability := r.decision], [r.decision.policy];
    OneRule(r, "");
    hide Consistent, Reflects;
    p := PlanFor(config, "copy", "", ClusterInfo("cluster", "region", "", ""), "eu");
    assert Values(r.decision.restrictions.storageAccounts, "id") == ["us-account"];
  }
}
