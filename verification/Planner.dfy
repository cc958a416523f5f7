/**
 * Turning data paths into plans (manager/controllers/app/select_modules.go): every edge of a path is given
 * governance actions, a storage region and a cluster, or the path is rejected.
 */
module Planner {
  import opened Prelude
  import opened AdminPolicies
  import opened DataPaths

  /** A governance action; modules declare the actions they perform by name. */
  datatype Action = Action(name: string, properties: string)

  datatype ClusterInfo = ClusterInfo(name: string, region: string, zone: string, vaultAuthPath: string)

  datatype ResolvedEdge = ResolvedEdge(edge: Edge, actions: seq<Action>, cluster: string, region: string)

  const DENY := "Deny"
  const TRANSFORM := "transform"
  const READ_ACCESS_DENIED := "governance policies forbid access to the data"
  const WRITE_NOT_ALLOWED := "governance policies forbid writing of the data"

  datatype Operation = ReadOperation | WriteOperation

  /** What the policy manager returns: an error of the call or of its validation, or a list of actions. */
  datatype Response = CallError(message: string) | Answer(result: seq<Action>)

  /** The surroundings of the planner: clusters, storage regions, and the policy for writing to each region. */
  datatype Env = Env(clusters: seq<ClusterInfo>, regions: seq<string>, writePolicy: string -> Response)

  /** The request for one dataset: evaluated config policies and actions required for reading it. */
  datatype Item = Item(source: Node, sink: Node, config: map<string, Decision>, actions: seq<Action>, limit: int)

  // ---------------------------------------------------------------------------------------------
  // Policy lookup (manager/controllers/app/policy_compiler_interface.go)
  // ---------------------------------------------------------------------------------------------

  ghost predicate Denies(response: Response) {
    response.Answer? && exists i :: 0 <= i < |response.result| && response.result[i].name == DENY
  }

  function DenialMessage(op: Operation): string {
    if op == ReadOperation then READ_ACCESS_DENIED else WRITE_NOT_ALLOWED
  }

  method LookupPolicyDecisions(response: Response, op: Operation) returns (actions: seq<Action>, err: Option<string>)
    ensures response.CallError? ==> actions == [] && err == Some(response.message)
    ensures response.Answer? && !Denies(response) ==> actions == response.result && err == None
    ensures Denies(response) ==>
      && err == Some(match op case ReadOperation => READ_ACCESS_DENIED case WriteOperation => WRITE_NOT_ALLOWED)
      && actions < response.result && response.result[|actions|].name == DENY
    ensures forall i :: 0 <= i < |actions| ==> actions[i].name != DENY
  {
    actions := [];
    if response.CallError? {
      return actions, Some(response.message);
    }
    for i := 0 to |response.result|
      invariant actions == response.result[..i]
      invariant forall k :: 0 <= k < i ==> response.result[k].name != DENY
    {
      if response.result[i].name == DENY {
        return actions, Some(DenialMessage(op));
      }
      actions := actions + [response.result[i]];
    }
    return actions, None;
  }

  // ---------------------------------------------------------------------------------------------
  // What a plan is
  // ---------------------------------------------------------------------------------------------

  predicate Supports(c: Capability, action: Action) {
    action.name in c.actions
  }

  ghost predicate SupportsAll(c: Capability, actions: seq<Action>) {
    forall i :: 0 <= i < |actions| ==> Supports(c, actions[i])
  }

  /** Data may be written to the region, and the capability performs all that the policy asks for there. */
  ghost predicate Acceptable(env: Env, c: Capability, region: string) {
    match env.writePolicy(region)
    case CallError(message) => message != WRITE_NOT_ALLOWED
    case Answer(result) => !Denies(Answer(result)) && SupportsAll(c, result)
  }

  ghost function RegionActions(env: Env, region: string): seq<Action> {
    match env.writePolicy(region)
    case CallError(_) => []
    case Answer(result) => result
  }

  /** The last acceptable region. */
  ghost function ChosenRegion(env: Env, c: Capability, regions: seq<string>): Option<string> {
    if regions == [] then None
    else if Acceptable(env, c, regions[|regions| - 1]) then Some(regions[|regions| - 1])
    else ChosenRegion(env, c, regions[..|regions| - 1])
  }

  ghost predicate Capable(edges: seq<Edge>) {
    forall i :: 0 <= i < |edges| ==> edges[i].HasCapability()
  }

  /** The position of the first edge that supports the action; the length of the path if none does. */
  ghost function FirstSupporter(edges: seq<Edge>, action: Action): (k: nat)
    requires Capable(edges)
    ensures k <= |edges|
    ensures k < |edges| ==> Supports(edges[k].Cap(), action)
    ensures forall j :: 0 <= j < k ==> !Supports(edges[j].Cap(), action)
  {
    if edges == [] then 0
    else
      var init := edges[..|edges| - 1];
      var k := FirstSupporter(init, action);
      if k < |init| then k
      else if Supports(edges[|edges| - 1].Cap(), action) then |init|
      else |edges|
  }

  /** The required actions whose first supporter is edge `i`, in order. */
  ghost function Assigned(required: seq<Action>, edges: seq<Edge>, i: nat): seq<Action>
    requires Capable(edges)
  {
    if required == [] then []
    else
      var a := required[|required| - 1];
      Assigned(required[..|required| - 1], edges, i) + if FirstSupporter(edges, a) == i then [a] else []
  }

  /** The required actions that none of the first `i` edges supports, in order. */
  ghost function Pending(required: seq<Action>, edges: seq<Edge>, i: nat): seq<Action>
    requires Capable(edges)
  {
    if required == [] then []
    else
      var a := required[|required| - 1];
      Pending(required[..|required| - 1], edges, i) + if FirstSupporter(edges, a) >= i then [a] else []
  }

  ghost function WriteActions(env: Env, e: Edge): seq<Action>
    requires e.HasCapability()
  {
    if e.sink.virtual then []
    else match ChosenRegion(env, e.Cap(), env.regions)
         case Some(region) => RegionActions(env, region)
         case None => []
  }

  /** Write actions of the chosen region first, then the read actions that land on this edge. */
  ghost function ActionsAt(env: Env, required: seq<Action>, edges: seq<Edge>, i: nat): seq<Action>
    requires Capable(edges) && i < |edges|
  {
    WriteActions(env, edges[i]) + Assigned(required, edges, i)
  }

  /** The field of the cluster description that a dotted key denotes; an empty optional field is missing. */
  function ClusterField(c: ClusterInfo, key: string): Option<string> {
    if key == "name" then Some(c.name)
    else if key == "metadata.region" then Some(c.region)
    else if key == "metadata.zone" && c.zone != "" then Some(c.zone)
    else if key == "metadata.vaultAuthPath" && c.vaultAuthPath != "" then Some(c.vaultAuthPath)
    else None
  }

  predicate MeetsRestriction(r: Restriction, c: ClusterInfo) {
    forall key :: key in r ==> ClusterField(c, key).Some? && ClusterField(c, key).value in r[key]
  }

  function ClusterRestriction(config: map<string, Decision>, capability: string): Restriction {
    if capability in config then config[capability].restrictions.clusters else map[]
  }

  predicate MayRun(config: map<string, Decision>, capability: string, actions: seq<Action>, c: ClusterInfo) {
    && MeetsRestriction(ClusterRestriction(config, capability), c)
    && (|actions| > 0 ==> MeetsRestriction(ClusterRestriction(config, TRANSFORM), c))
  }

  /** The first cluster in which the capability may run with these actions. */
  ghost predicate IsFirstCluster(
    env: Env, config: map<string, Decision>, capability: string, actions: seq<Action>, k: nat)
  {
    && k < |env.clusters|
    && MayRun(config, capability, actions, env.clusters[k])
    && forall j :: 0 <= j < k ==> !MayRun(config, capability, actions, env.clusters[j])
  }

  ghost predicate EdgeAccepted(env: Env, item: Item, edges: seq<Edge>, i: nat)
    requires Capable(edges) && i < |edges|
  {
    && (edges[i].sink.virtual || ChosenRegion(env, edges[i].Cap(), env.regions) !in {None, Some("")})
    && exists k :: 0 <= k < |env.clusters| &&
                   MayRun(item.config, edges[i].Cap().name, ActionsAt(env, item.actions, edges, i), env.clusters[k])
  }

  ghost predicate CapabilityOnPath(edges: seq<Edge>, capability: string)
    requires Capable(edges)
  {
    exists i :: 0 <= i < |edges| && edges[i].Cap().name == capability
  }

  /** When a path becomes a plan. */
  ghost predicate Accepts(env: Env, item: Item, edges: seq<Edge>)
    requires Capable(edges)
  {
    && (forall i :: 0 <= i < |edges| ==> EdgeAccepted(env, item, edges, i))
    && (forall i :: 0 <= i < |item.actions| ==> FirstSupporter(edges, item.actions[i]) < |edges|)
    && (forall c :: c in item.config && item.config[c].deploy == StatusTrue ==> CapabilityOnPath(edges, c))
  }

  /** What is written into edge `i`. */
  ghost predicate ResolvedAt(env: Env, item: Item, edges: seq<Edge>, i: nat, r: ResolvedEdge)
    requires Capable(edges) && i < |edges|
  {
    && r.edge == edges[i]
    && r.actions == ActionsAt(env, item.actions, edges, i)
    && (edges[i].sink.virtual ==> r.region == "")
    && (!edges[i].sink.virtual ==> ChosenRegion(env, edges[i].Cap(), env.regions) == Some(r.region) && r.region != "")
    && exists k: nat ::
         IsFirstCluster(env, item.config, edges[i].Cap().name, r.actions, k) && r.cluster == env.clusters[k].name
  }

  ghost predicate IsPlan(env: Env, item: Item, edges: seq<Edge>, plan: seq<ResolvedEdge>)
    requires Capable(edges)
  {
    && |plan| == |edges|
    && forall i :: 0 <= i < |plan| ==> ResolvedAt(env, item, edges, i, plan[i])
  }

  // ---------------------------------------------------------------------------------------------
  // The code
  // ---------------------------------------------------------------------------------------------

  method SupportsGovernanceActions(c: Capability, actions: seq<Action>) returns (ok: bool)
    ensures ok <==> SupportsAll(c, actions)
  {
    for i := 0 to |actions|
      invariant SupportsAll(c, actions[..i])
    {
      if !Supports(c, actions[i]) {
        return false;
      }
    }
    assert actions[..|actions|] == actions;
    return true;
  }

  /** Writes the last acceptable region, with its write actions, into the element. */
  method SelectStorage(env: Env, path: array<ResolvedEdge>, ind: nat)
    requires ind < path.Length && path[ind].edge.HasCapability()
    requires path[ind].region == "" && path[ind].actions == []
    modifies path
    ensures forall j :: 0 <= j < path.Length && j != ind ==> path[j] == old(path[j])
    ensures var chosen := ChosenRegion(env, old(path[ind].edge).Cap(), env.regions);
            path[ind] == if chosen.None? then old(path[ind])
                         else old(path[ind]).(region := chosen.value, actions := RegionActions(env, chosen.value))
  {
    var capability := path[ind].edge.Cap();
    for k := 0 to |env.regions|
      invariant forall j :: 0 <= j < path.Length && j != ind ==> path[j] == old(path[j])
      invariant var chosen := ChosenRegion(env, capability, env.regions[..k]);
                path[ind] == if chosen.None? then old(path[ind])
                             else old(path[ind]).(region := chosen.value, actions := RegionActions(env, chosen.value))
    {
      var region := env.regions[k];
      assert env.regions[..k + 1][..k] == env.regions[..k];
      var actions, err := LookupPolicyDecisions(env.writePolicy(region), WriteOperation);
      if err == Some(WRITE_NOT_ALLOWED) {
        continue;
      }
      var supported := SupportsGovernanceActions(capability, actions);
      if !supported {
        continue;
      }
      path[ind] := path[ind].(actions := actions, region := region);
    }
    assert env.regions[..|env.regions|] == env.regions;
  }

  ghost function Supported(c: Capability, actions: seq<Action>, wanted: bool): seq<Action> {
    if actions == [] then []
    else
      var a := actions[|actions| - 1];
      Supported(c, actions[..|actions| - 1], wanted) + if Supports(c, a) == wanted then [a] else []
  }

  /** Takes the actions the element supports, and hands the others on. */
  method TakeReadActions(path: array<ResolvedEdge>, ind: nat, required: seq<Action>) returns (unsupported: seq<Action>)
    requires ind < path.Length && path[ind].edge.HasCapability()
    modifies path
    ensures forall j :: 0 <= j < path.Length && j != ind ==> path[j] == old(path[j])
    ensures var c := old(path[ind].edge).Cap();
            && path[ind] == old(path[ind]).(actions := old(path[ind].actions) + Supported(c, required, true))
            && unsupported == Supported(c, required, false)
  {
    var capability := path[ind].edge.Cap();
    unsupported := [];
    for k := 0 to |required|
      invariant forall j :: 0 <= j < path.Length && j != ind ==> path[j] == old(path[j])
      invariant path[ind] ==
                old(path[ind]).(actions := old(path[ind].actions) + Supported(capability, required[..k], true))
      invariant unsupported == Supported(capability, required[..k], false)
    {
      assert required[..k + 1][..k] == required[..k];
      if Supports(capability, required[k]) {
        path[ind] := path[ind].(actions := path[ind].actions + [required[k]]);
      } else {
        unsupported := unsupported + [required[k]];
      }
    }
    assert required[..|required|] == required;
  }

  /** The actions an edge takes over from those still pending are the ones it is the first to support. */
  lemma {:induction false} TakenAreAssigned(required: seq<Action>, edges: seq<Edge>, i: nat)
    requires Capable(edges) && i < |edges|
    ensures Supported(edges[i].Cap(), Pending(required, edges, i), true) == Assigned(required, edges, i)
    ensures Supported(edges[i].Cap(), Pending(required, edges, i), false) == Pending(required, edges, i + 1)
  {
    if required != [] {
      var init, a := required[..|required| - 1], required[|required| - 1];
      TakenAreAssigned(init, edges, i);
      SupportedSnoc(edges[i].Cap(), Pending(init, edges, i), a, true);
      SupportedSnoc(edges[i].Cap(), Pending(init, edges, i), a, false);
      var k := FirstSupporter(edges, a);
      if k < i {
        assert Pending(required, edges, i) == Pending(init, edges, i);
      } else {
        assert Pending(required, edges, i) == Pending(init, edges, i) + [a];
        assert Supports(edges[i].Cap(), a) <==> k == i;
      }
    }
  }

  lemma {:induction false} SupportedSnoc(c: Capability, actions: seq<Action>, a: Action, wanted: bool)
    ensures Supported(c, actions + [a], wanted) ==
            Supported(c, actions, wanted) + if Supports(c, a) == wanted then [a] else []
  {
    assert (actions + [a])[..|actions|] == actions;
  }

  lemma {:induction false} AllPending(required: seq<Action>, edges: seq<Edge>)
    requires Capable(edges)
    ensures Pending(required, edges, 0) == required
  {
    if required != [] {
      AllPending(required[..|required| - 1], edges);
    }
  }

  lemma {:induction false} NonePending(required: seq<Action>, edges: seq<Edge>)
    requires Capable(edges)
    ensures Pending(required, edges, |edges|) == [] <==>
            forall i :: 0 <= i < |required| ==> FirstSupporter(edges, required[i]) < |edges|
  {
    if required != [] {
      var init := required[..|required| - 1];
      NonePending(init, edges);
      assert forall i :: 0 <= i < |init| ==> required[i] == init[i];
    }
  }

  method FindCluster(env: Env, config: map<string, Decision>, path: array<ResolvedEdge>, ind: nat) returns (ok: bool)
    requires ind < path.Length && path[ind].edge.HasCapability()
    modifies path
    ensures forall j :: 0 <= j < path.Length && j != ind ==> path[j] == old(path[j])
    ensures var r := old(path[ind]);
            && (ok <==>
                exists k :: 0 <= k < |env.clusters| && MayRun(config, r.edge.Cap().name, r.actions, env.clusters[k]))
            && (ok ==> exists k: nat :: IsFirstCluster(env, config, r.edge.Cap().name, r.actions, k) &&
                                        path[ind] == r.(cluster := env.clusters[k].name))
            && (!ok ==> path[ind] == r)
  {
    for k := 0 to |env.clusters|
      invariant path[..] == old(path[..])
      invariant forall j :: 0 <= j < k ==>
        !MayRun(config, path[ind].edge.Cap().name, path[ind].actions, env.clusters[j])
    {
      if MayRun(config, path[ind].edge.Cap().name, path[ind].actions, env.clusters[k]) {
        path[ind] := path[ind].(cluster := env.clusters[k].name);
        return true;
      }
    }
    return false;
  }

  /** The loop body of validation: storage, actions and cluster for one element. */
  method ResolveElement(env: Env, item: Item, path: array<ResolvedEdge>, ind: nat, required: seq<Action>,
                        ghost edges: seq<Edge>) returns (ok: bool, unsupported: seq<Action>)
    requires ind < path.Length == |edges| && Capable(edges)
    requires path[ind].edge == edges[ind] && path[ind].region == ""
    requires required == Pending(item.actions, edges, ind)
    modifies path
    ensures forall j :: 0 <= j < path.Length && j != ind ==> path[j] == old(path[j])
    ensures path[ind].edge == edges[ind]
    ensures ok <==> EdgeAccepted(env, item, edges, ind)
    ensures ok ==> ResolvedAt(env, item, edges, ind, path[ind])
    ensures ok ==> unsupported == Pending(item.actions, edges, ind + 1)
  {
    unsupported := [];
    path[ind] := path[ind].(actions := []);
    if !path[ind].edge.sink.virtual {
      SelectStorage(env, path, ind);
      if path[ind].region == "" {
        return false, unsupported;
      }
    }
    TakenAreAssigned(item.actions, edges, ind);
    unsupported := TakeReadActions(path, ind, required);
    hide ChosenRegion, RegionActions, Supported, Assigned, Pending;
    assert path[ind].actions == ActionsAt(env, item.actions, edges, ind);
    ok := FindCluster(env, item.config, path, ind);
  }

  /** Whether every capability that the config policies require is on the path. */
  method DeploysRequired(config: map<string, Decision>, path: array<ResolvedEdge>, ghost edges: seq<Edge>)
    returns (ok: bool)
    requires path.Length == |edges| && Capable(edges) && forall i :: 0 <= i < path.Length ==> path[i].edge == edges[i]
    ensures ok <==> forall c :: c in config && config[c].deploy == StatusTrue ==> CapabilityOnPath(edges, c)
  {
    var present: set<string> := {};
    for ind := 0 to path.Length
      invariant forall c :: c in present <==> exists i :: 0 <= i < ind && edges[i].Cap().name == c
    {
      assert path[ind].edge == edges[ind];
      present := present + {path[ind].edge.Cap().name};
    }
    assert forall c :: c in present <==> CapabilityOnPath(edges, c);
    return forall c :: c in config && config[c].deploy == StatusTrue ==> c in present;
  }

  ghost predicate AcceptedUpTo(env: Env, item: Item, edges: seq<Edge>, n: nat)
    requires Capable(edges) && n <= |edges|
  {
    forall i :: 0 <= i < n ==> EdgeAccepted(env, item, edges, i)
  }

  ghost predicate ResolvedUpTo(env: Env, item: Item, edges: seq<Edge>, plan: seq<ResolvedEdge>, n: nat)
    requires Capable(edges) && n <= |edges| && n <= |plan|
  {
    forall i :: 0 <= i < n ==> ResolvedAt(env, item, edges, i, plan[i])
  }

  ghost predicate SameEdges(edges: seq<Edge>, path: seq<ResolvedEdge>) {
    |path| == |edges| && forall i :: 0 <= i < |path| ==> path[i].edge == edges[i]
  }

  /** From element `n` on, no storage has been chosen. */
  ghost predicate Unresolved(edges: seq<Edge>, path: seq<ResolvedEdge>, n: nat) {
    SameEdges(edges, path) && forall i :: n <= i < |path| ==> path[i].region == ""
  }

  lemma {:induction false} NoneResolved(env: Env, item: Item, edges: seq<Edge>, path: seq<ResolvedEdge>)
    requires Capable(edges)
    ensures AcceptedUpTo(env, item, edges, 0) && ResolvedUpTo(env, item, edges, path, 0)
  {
  }

  lemma {:induction false} NextUnresolved(edges: seq<Edge>, path: seq<ResolvedEdge>, n: nat)
    requires Unresolved(edges, path, n)
    ensures SameEdges(edges, path) && |path| == |edges|
    ensures n < |path| ==> path[n].edge == edges[n] && path[n].region == ""
  {
  }

  lemma {:induction false} RejectedByOne(env: Env, item: Item, edges: seq<Edge>, n: nat)
    requires Capable(edges) && n <= |edges| && !AcceptedUpTo(env, item, edges, n)
    ensures !AcceptedUpTo(env, item, edges, |edges|)
  {
  }

  lemma {:induction false} OneMoreResolved(
    env: Env, item: Item, edges: seq<Edge>, before: seq<ResolvedEdge>, after: seq<ResolvedEdge>, n: nat)
    requires Capable(edges) && n < |edges| && Unresolved(edges, before, n) && |after| == |before|
    requires forall j :: 0 <= j < |after| && j != n ==> after[j] == before[j]
    requires after[n].edge == edges[n]
    ensures Unresolved(edges, after, n + 1)
    ensures AcceptedUpTo(env, item, edges, n + 1) <==>
      AcceptedUpTo(env, item, edges, n) && EdgeAccepted(env, item, edges, n)
    ensures ResolvedUpTo(env, item, edges, before, n) && ResolvedAt(env, item, edges, n, after[n]) ==>
      ResolvedUpTo(env, item, edges, after, n + 1)
  {
  }

  /** The main loop of validation, up to the first element that cannot be resolved. */
  method ResolveAll(env: Env, item: Item, path: array<ResolvedEdge>, ghost edges: seq<Edge>)
    returns (ok: bool, unsupported: seq<Action>)
    requires Capable(edges) && Unresolved(edges, path[..], 0)
    modifies path
    ensures SameEdges(edges, path[..])
    ensures ok <==> AcceptedUpTo(env, item, edges, |edges|)
    ensures ok ==> ResolvedUpTo(env, item, edges, path[..], |edges|)
    ensures ok ==> unsupported == Pending(item.actions, edges, |edges|)
  {
    hide *;
    AllPending(item.actions, edges);
    NoneResolved(env, item, edges, path[..]);
    NextUnresolved(edges, path[..], 0);
    unsupported := item.actions;
    for ind := 0 to path.Length
      invariant Unresolved(edges, path[..], ind)
      invariant AcceptedUpTo(env, item, edges, ind) && ResolvedUpTo(env, item, edges, path[..], ind)
      invariant unsupported == Pending(item.actions, edges, ind)
    {
      ghost var before := path[..];
      NextUnresolved(edges, before, ind);
      ok, unsupported := ResolveElement(env, item, path, ind, unsupported, edges);
      OneMoreResolved(env, item, edges, before, path[..], ind);
      if !ok {
        NextUnresolved(edges, path[..], ind + 1);
        RejectedByOne(env, item, edges, ind + 1);
        return;
      }
    }
    NextUnresolved(edges, path[..], |edges|);
    ok := true;
  }

  /** Decides whether the freshly found path `edges` is a plan, and if so writes the plan into `path`. */
  method Validate(env: Env, item: Item, path: array<ResolvedEdge>, ghost edges: seq<Edge>) returns (ok: bool)
    requires Capable(edges) && Unresolved(edges, path[..], 0)
    modifies path
    ensures ok <==> Accepts(env, item, edges)
    ensures ok ==> IsPlan(env, item, edges, path[..])
  {
    hide EdgeAccepted, ResolvedAt, Pending, FirstSupporter, CapabilityOnPath;
    var required;
    ok, required := ResolveAll(env, item, path, edges);
    if !ok {
      return;
    }
    NonePending(item.actions, edges);
    if |required| > 0 {
      return false;
    }
    ok := DeploysRequired(item.config, path, edges);
  }

  ghost function EdgesOf(plan: seq<ResolvedEdge>): (edges: seq<Edge>)
    ensures |edges| == |plan| && forall i :: 0 <= i < |plan| ==> edges[i] == plan[i].edge
  {
    seq(|plan|, i requires 0 <= i < |plan| => plan[i].edge)
  }

  /** A data path that is accepted, with everything that is written into it. */
  ghost predicate IsValidPlan(env: Env, item: Item, modules: Modules, plan: seq<ResolvedEdge>) {
    var edges := EdgesOf(plan);
    && IsDataPath(modules, item.config, item.source, item.sink, item.limit, edges)
    && Capable(edges)
    && Accepts(env, item, edges)
    && IsPlan(env, item, edges, plan)
  }

  lemma {:induction false} PlansAreUnique(
    env: Env, item: Item, edges: seq<Edge>, plan: seq<ResolvedEdge>, plan': seq<ResolvedEdge>)
    requires Capable(edges) && IsPlan(env, item, edges, plan) && IsPlan(env, item, edges, plan')
    ensures plan == plan' && EdgesOf(plan) == edges
  {
    forall i | 0 <= i < |plan| ensures plan[i] == plan'[i] && plan[i].edge == edges[i] {
      assert ResolvedAt(env, item, edges, i, plan[i]) && ResolvedAt(env, item, edges, i, plan'[i]);
      hide ActionsAt, ChosenRegion, MayRun;
    }
  }

  /** Validates a copy of a path with nothing resolved yet. */
  method TryPath(env: Env, item: Item, p: seq<Edge>) returns (ok: bool, plan: seq<ResolvedEdge>)
    requires Capable(p)
    ensures ok <==> Accepts(env, item, p)
    ensures ok ==> IsPlan(env, item, p, plan)
  {
    hide Accepts, IsPlan, Capable;
    var path := new ResolvedEdge[|p|](k requires 0 <= k < |p| => ResolvedEdge(p[k], [], "", ""));
    assert Unresolved(p, path[..], 0);
    ok := Validate(env, item, path, p);
    plan := path[..];
  }

  lemma {:induction false} PlanOfPath(
    env: Env, item: Item, modules: Modules, p: seq<Edge>, ok: bool, plan: seq<ResolvedEdge>)
    requires IsDataPath(modules, item.config, item.source, item.sink, item.limit, p) && Capable(p)
    requires ok <==> Accepts(env, item, p)
    requires ok ==> IsPlan(env, item, p, plan)
    ensures forall q :: IsValidPlan(env, item, modules, q) && EdgesOf(q) == p <==> ok && q == plan
  {
    hide IsDataPath, Accepts, IsPlan;
    forall q
      ensures IsValidPlan(env, item, modules, q) && EdgesOf(q) == p <==> ok && q == plan
    {
      if ok {
        PlansAreUnique(env, item, p, plan, plan);
      }
      if ok && IsValidPlan(env, item, modules, q) && EdgesOf(q) == p {
        PlansAreUnique(env, item, p, q, plan);
      }
    }
  }

  lemma {:induction false} DataPathIsCapable(modules: Modules, item: Item, p: seq<Edge>)
    requires IsDataPath(modules, item.config, item.source, item.sink, item.limit, p)
    ensures Capable(p)
  {
  }

  lemma {:induction false} ValidPlanHasPath(env: Env, item: Item, modules: Modules, plan: seq<ResolvedEdge>)
    requires IsValidPlan(env, item, modules, plan)
    ensures IsDataPath(modules, item.config, item.source, item.sink, item.limit, EdgesOf(plan))
  {
  }

  /** All plans for a dataset: exactly the accepted data paths. */
  method FindPaths(env: Env, item: Item, modules: Modules) returns (plans: seq<seq<ResolvedEdge>>)
    ensures forall plan :: plan in plans <==> IsValidPlan(env, item, modules, plan)
  {
    hide *;
    var paths := FindPathsWithinLimit(modules, item.config, item.source, item.sink, item.limit);
    plans := [];
    for i := 0 to |paths|
      invariant forall plan :: plan in plans <==> IsValidPlan(env, item, modules, plan) && EdgesOf(plan) in paths[..i]
    {
      var p := paths[i];
      assert p in paths;
      DataPathIsCapable(modules, item, p);
      var ok, plan := TryPath(env, item, p);
      PlanOfPath(env, item, modules, p, ok, plan);
      assert paths[..i + 1] == paths[..i] + [p];
      if ok {
        plans := plans + [plan];
      }
    }
    assert paths[..|paths|] == paths;
    forall plan | IsValidPlan(env, item, modules, plan)
      ensures EdgesOf(plan) in paths
    {
      ValidPlanHasPath(env, item, modules, plan);
    }
  }
}
