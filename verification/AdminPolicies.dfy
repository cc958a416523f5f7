/**
 * Admin configuration policies (pkg/adminconfig/rego_file_evaluator.go).
 *
 * Rules for the same capability are folded into one decision.  The first part of this module is the
 * code; the second says what a folded decision means for the individual rules.
 */
module AdminPolicies {
  import opened Prelude

  /** `Undefined` is the empty string a rule may leave in its deploy field. */
  datatype DeploymentStatus = Undefined | StatusUnknown | StatusTrue | StatusFalse

  /** A property mapped to the list of values it may take. */
  type Restriction = map<string, seq<string>>

  datatype Restrictions = Restrictions(clusters: Restriction, modules: Restriction, storageAccounts: Restriction)

  datatype Policy = Policy(id: string, policySetID: string, description: string, version: string)

  const NO_POLICY := Policy("", "", "", "")

  datatype Decision = Decision(deploy: DeploymentStatus, restrictions: Restrictions, policy: Policy)

  datatype Rule = Rule(capability: string, decision: Decision)

  /** One expression of an OPA result: either it fails validation, or it is a list of rules. */
  datatype Expression = Malformed | Config(rules: seq<Rule>)

  /** The three resources a decision can restrict. */
  datatype Resource = Clusters | Modules | StorageAccounts

  function RestrictionOn(d: Decision, on: Resource): Restriction {
    match on
    case Clusters => d.restrictions.clusters
    case Modules => d.restrictions.modules
    case StorageAccounts => d.restrictions.storageAccounts
  }

  // ---------------------------------------------------------------------------------------------
  // The code
  // ---------------------------------------------------------------------------------------------

  /** The elements of `a` that occur in `b`, in the order and with the multiplicity of `a`. */
  function Common(a: seq<string>, b: seq<string>): seq<string> {
    if a == [] then []
    else Common(a[..|a| - 1], b) + (if a[|a| - 1] in b then [a[|a| - 1]] else [])
  }

  lemma {:induction false} CommonElements(a: seq<string>, b: seq<string>)
    ensures forall v :: v in Common(a, b) <==> v in a && v in b
  {
    if a != [] {
      CommonElements(a[..|a| - 1], b);
      assert a == a[..|a| - 1] + [a[|a| - 1]];
    }
  }

  method Intersection(set1: seq<string>, set2: seq<string>) returns (res: seq<string>)
    ensures res == Common(set1, set2)
    ensures forall v :: v in res <==> v in set1 && v in set2
  {
    res := [];
    for i := 0 to |set1|
      invariant res == Common(set1[..i], set2)
    {
      var j := 0;
      while j < |set2| && set2[j] != set1[i]
        invariant j <= |set2|
        invariant set1[i] !in set2[..j]
      {
        j := j + 1;
      }
      assert set1[..i + 1][..i] == set1[..i];
      assert set2 == set2[..j] + set2[j..];
      if j < |set2| {
        res := res + [set1[i]];
      }
    }
    assert set1[..|set1|] == set1;
    CommonElements(set1, set2);
  }

  function Values(r: Restriction, key: string): (values: seq<string>) {
    if key in r then r[key] else []
  }

  /** The values left for a key that holds `held` when a decision listing `added` is merged into it. */
  function MergedValues(held: seq<string>, added: seq<string>): seq<string> {
    if |held| == 0 then added else Common(held, added)
  }

  ghost predicate KeyConflict(held: seq<string>, added: seq<string>) {
    held != [] && forall v :: v in held ==> v !in added
  }

  ghost predicate Mergeable(held: Restriction, added: Restriction) {
    forall key :: key in added ==> !KeyConflict(Values(held, key), added[key])
  }

  /** The restriction that results when nothing conflicts. */
  function MergedRestriction(held: Restriction, added: Restriction): Restriction {
    map key | key in held.Keys + added.Keys ::
      if key in added then MergedValues(Values(held, key), added[key]) else held[key]
  }

  lemma {:induction false} MergeOneKey(held: Restriction, added: Restriction, key: string, values: seq<string>)
    requires key !in added
    ensures MergedRestriction(held, added[key := values]) ==
            MergedRestriction(held, added)[key := MergedValues(Values(held, key), values)]
    ensures Values(MergedRestriction(held, added), key) == Values(held, key)
    ensures Mergeable(held, added[key := values]) <==>
            Mergeable(held, added) && !KeyConflict(Values(held, key), values)
  {
    hide KeyConflict, MergedValues;
    var more := added[key := values];
    assert forall k :: k in added ==> more[k] == added[k];
    assert more[key] == values;
  }

  /** Merges `r2` into `r1`, key by key in any order; a key both restrict to disjoint values is a conflict. */
  method MergeRestrictions(r1: Restriction, r2: Restriction) returns (ok: bool, merged: Restriction)
    ensures ok <==> Mergeable(r1, r2)
    ensures ok ==> merged == MergedRestriction(r1, r2)
    ensures PartlyMerged(r1, r2, merged)
  {
    merged := r1;
    var todo := r2.Keys;
    ghost var done: Restriction := map[];
    while todo != {}
      invariant todo <= r2.Keys && done == r2 - todo
      invariant merged == MergedRestriction(r1, done)
      invariant Mergeable(r1, done)
    {
      hide Mergeable, MergedRestriction;
      var key :| key in todo;
      MergeOneKey(r1, done, key, r2[key]);
      done := done[key := r2[key]];
      if |Values(merged, key)| == 0 {
        merged := merged[key := r2[key]];
      } else {
        var both := Intersection(merged[key], r2[key]);
        merged := merged[key := both];
        if |both| == 0 {
          assert Mergeable(r1, r2) ==> Mergeable(r1, done) by {
            SomeMergeable(r1, r2, done);
          }
          IsPartlyMerged(r1, r2, done);
          ok := false;
          return;
        }
        assert both[0] in both;
      }
      todo := todo - {key};
    }
    assert done == r2;
    IsPartlyMerged(r1, r2, r2);
    ok := true;
  }

  ghost predicate PartOf(some: Restriction, r: Restriction) {
    some.Keys <= r.Keys && forall key :: key in some ==> some[key] == r[key]
  }

  /** Some of the keys of `r2` have been merged into `r1`. */
  ghost predicate PartlyMerged(r1: Restriction, r2: Restriction, merged: Restriction) {
    exists some :: PartOf(some, r2) && merged == MergedRestriction(r1, some)
  }

  lemma {:induction false} IsPartlyMerged(r1: Restriction, r2: Restriction, some: Restriction)
    requires some.Keys <= r2.Keys && forall key :: key in some ==> some[key] == r2[key]
    ensures PartlyMerged(r1, r2, MergedRestriction(r1, some))
  {
    hide MergedRestriction;
    assert PartOf(some, r2);
  }

  lemma {:induction false} NothingMerged(r1: Restriction, r2: Restriction)
    ensures PartlyMerged(r1, r2, r1)
  {
    var none: Restriction := map[];
    assert PartOf(none, r2) && r1 == MergedRestriction(r1, none);
  }

  /** Merging works on the map that is held, in place; one that was missing is replaced by a new map instead. */
  method InPlace(held: Restriction, now: Restriction) returns (left: Restriction)
    ensures left == now || left == held == map[]
  {
    if |held| == 0 {
      if * {
        return held;
      }
    }
    return now;
  }

  lemma {:induction false} SomeMergeable(held: Restriction, added: Restriction, some: Restriction)
    requires some.Keys <= added.Keys && forall key :: key in some ==> some[key] == added[key]
    ensures Mergeable(held, added) ==> Mergeable(held, some)
  {
    hide KeyConflict;
  }

  /** What two deploy statuses amount to together; `None` is a conflict. */
  function MergedDeploy(held: DeploymentStatus, added: DeploymentStatus): Option<DeploymentStatus> {
    if held == StatusUnknown then Some(added)
    else if added != StatusUnknown && added != held then None
    else Some(held)
  }

  ghost predicate CanMerge(held: Decision, added: Decision) {
    && MergedDeploy(held.deploy, added.deploy).Some?
    && forall on :: Mergeable(RestrictionOn(held, on), RestrictionOn(added, on))
  }

  ghost predicate IsMerge(held: Decision, added: Decision, merged: Decision) {
    && MergedDeploy(held.deploy, added.deploy) == Some(merged.deploy)
    && forall on :: RestrictionOn(merged, on) == MergedRestriction(RestrictionOn(held, on), RestrictionOn(added, on))
  }

  /** What a failed merge leaves in the decision held: its deploy status, and restrictions that are partly merged. */
  ghost predicate IsLeft(held: Decision, added: Decision, left: Decision) {
    && left.deploy == held.deploy && left.policy == held.policy
    && forall on :: PartlyMerged(RestrictionOn(held, on), RestrictionOn(added, on), RestrictionOn(left, on))
  }

  /** Merges two decisions; `left` is what becomes of the one held if they conflict. */
  method Merge(newDecision: Decision, oldDecision: Decision) returns (valid: bool, merged: Decision, left: Decision)
    ensures valid <==> CanMerge(oldDecision, newDecision)
    ensures valid ==> IsMerge(oldDecision, newDecision, merged)
    ensures IsLeft(oldDecision, newDecision, left)
  {
    hide PartlyMerged, Mergeable, MergedRestriction;
    merged := Decision(Undefined, Restrictions(map[], map[], map[]), NO_POLICY);
    left := oldDecision;
    forall on
      ensures PartlyMerged(RestrictionOn(oldDecision, on), RestrictionOn(newDecision, on),
                           RestrictionOn(oldDecision, on))
    {
      NothingMerged(RestrictionOn(oldDecision, on), RestrictionOn(newDecision, on));
    }
    var deploy := oldDecision.deploy;
    if deploy == StatusUnknown {
      deploy := newDecision.deploy;
    } else if newDecision.deploy != StatusUnknown {
      if newDecision.deploy != deploy {
        return false, merged, left;
      }
    }
    var held, added := oldDecision.restrictions, newDecision.restrictions;
    var okC, clusters := MergeRestrictions(held.clusters, added.clusters);
    var leftC := InPlace(held.clusters, clusters);
    left := oldDecision.(restrictions := Restrictions(leftC, held.modules, held.storageAccounts));
    if !okC {
      assert !Mergeable(RestrictionOn(oldDecision, Clusters), RestrictionOn(newDecision, Clusters));
      return false, merged, left;
    }
    var okM, modules := MergeRestrictions(held.modules, added.modules);
    var leftM := InPlace(held.modules, modules);
    left := oldDecision.(restrictions := Restrictions(leftC, leftM, held.storageAccounts));
    if !okM {
      assert !Mergeable(RestrictionOn(oldDecision, Modules), RestrictionOn(newDecision, Modules));
      return false, merged, left;
    }
    var okS, accounts := MergeRestrictions(held.storageAccounts, added.storageAccounts);
    var leftS := InPlace(held.storageAccounts, accounts);
    left := oldDecision.(restrictions := Restrictions(leftC, leftM, leftS));
    if !okS {
      assert !Mergeable(RestrictionOn(oldDecision, StorageAccounts), RestrictionOn(newDecision, StorageAccounts));
      return false, merged, left;
    }
    merged := Decision(deploy, Restrictions(clusters, modules, accounts), NO_POLICY);
    valid := true;
  }

  /** A rule of another policy set is skipped; an unnamed set, of rule or workload, matches any. */
  predicate Applies(rule: Rule, policySet: string) {
    rule.decision.policy.policySetID == "" || policySet == "" || rule.decision.policy.policySetID == policySet
  }

  function WithDefaults(d: Decision): Decision {
    if d.deploy == Undefined then d.(deploy := StatusUnknown) else d
  }

  /** The output of an evaluation, filled in place. */
  class EvaluatorOutput {
    var valid: bool
    var configDecisions: map<string, Decision>
    var policies: seq<Policy>

    constructor ()
      ensures !valid && configDecisions == map[] && policies == []
    {
      valid, configDecisions, policies := false, map[], [];
    }

    /** The body of the innermost loop; `seen` are the rules before this one. */
    method AddRule(rule: Rule, policySet: string, ghost seen: seq<Rule>) returns (ok: bool)
      requires Consistent(seen, policySet) && Reflects(configDecisions, policies, seen, policySet)
      modifies this`configDecisions, this`policies
      ensures ok <==> Consistent(seen + [rule], policySet)
      ensures ok ==> Reflects(configDecisions, policies, seen + [rule], policySet)
      ensures !ok ==> Stopped(configDecisions, policies, seen, rule, policySet)
    {
      hide Reflects, Consistent;
      if !Applies(rule, policySet) {
        SkippedRule(configDecisions, policies, seen, rule, policySet);
        return true;
      }
      var newDecision := WithDefaults(rule.decision);
      ghost var before, held := policies, configDecisions;
      policies := policies + [newDecision.policy];
      if rule.capability !in configDecisions {
        FirstRule(configDecisions, before, seen, rule, policySet);
        configDecisions := configDecisions[rule.capability := newDecision];
        return true;
      }
      var canMerge, merged, left := Merge(newDecision, configDecisions[rule.capability]);
      MergedRule(configDecisions, before, seen, rule, policySet, merged);
      configDecisions := configDecisions[rule.capability := if canMerge then merged else left];
      assert StoppedFrom(held, before, configDecisions, policies, seen, rule, policySet) || canMerge;
      return canMerge;
    }

    /** The innermost loop: the rules of one expression, up to the first conflict. */
    method AddRules(rules: seq<Rule>, policySet: string, ghost seen: seq<Rule>) returns (ok: bool)
      requires Consistent(seen, policySet) && Reflects(configDecisions, policies, seen, policySet)
      modifies this`configDecisions, this`policies
      ensures ok <==> Consistent(seen + rules, policySet)
      ensures Evaluated(configDecisions, policies, seen + rules, policySet)
    {
      hide Consistent, Reflects, Stopped, Evaluated;
      ghost var now := seen;
      for i := 0 to |rules|
        invariant now == seen + rules[..i]
        invariant Consistent(now, policySet) && Reflects(configDecisions, policies, now, policySet)
      {
        ok := AddRule(rules[i], policySet, now);
        if !ok {
          assert seen + rules == (now + [rules[i]]) + rules[i + 1..];
          ConflictPersists(now + [rules[i]], rules[i + 1..], policySet);
          StopsHere(configDecisions, policies, now, rules[i], policySet);
          EvaluationPersists(configDecisions, policies, now + [rules[i]], rules[i + 1..], policySet);
          return;
        }
        now := now + [rules[i]];
      }
      assert now == seen + rules;
      RunsThrough(configDecisions, policies, now, policySet);
      return true;
    }

    /**
     * Parses an OPA result set, one result's expressions after the other's.  `err` is the error return;
     * a conflict is reported through `valid` alone, and the rules after it are not looked at.
     */
    method GetOPADecisions(policySet: string, rs: seq<seq<Expression>>) returns (err: bool)
      requires configDecisions == map[] && policies == []
      modifies this
      ensures valid <==> rs != [] && WellFormed(Flatten(rs)) && Consistent(AllRules(Flatten(rs)), policySet)
      ensures valid ==> Reflects(configDecisions, policies, AllRules(Flatten(rs)), policySet)
      ensures err <==> rs == [] || FailsOnMalformed(Flatten(rs), policySet)
      ensures !err ==> Evaluated(configDecisions, policies, AllRules(Flatten(rs)), policySet)
    {
      hide Consistent, Reflects, Evaluated;
      valid := false;
      if |rs| == 0 {
        return true;
      }
      var es := Flatten(rs);
      ghost var seen: seq<Rule> := [];
      NoRules(policySet);
      for j := 0 to |es|
        invariant !valid && seen == AllRules(es[..j]) && Consistent(seen, policySet)
        invariant forall k :: 0 <= k < j ==> es[k].Config?
        invariant Reflects(configDecisions, policies, seen, policySet)
      {
        hide *;
        if es[j].Malformed? {
          EndsMalformed(es, j, policySet);
          return true;
        }
        var ok := AddRules(es[j].rules, policySet, seen);
        AllRulesSnoc(es, j);
        seen := seen + es[j].rules;
        if !ok {
          EndsInConflict(es, j + 1, configDecisions, policies, policySet);
          return false;
        }
        EvaluationReflects(configDecisions, policies, seen, policySet);
      }
      assert es[..|es|] == es;
      RunsThrough(configDecisions, policies, seen, policySet);
      valid := true;
      return false;
    }
  }

  // ---------------------------------------------------------------------------------------------
  // What the fold means
  // ---------------------------------------------------------------------------------------------

  /** The decisions of the applicable rules for one capability, in rule order. */
  ghost function DecisionsFor(rules: seq<Rule>, policySet: string, capability: string): seq<Decision> {
    if rules == [] then []
    else
      var rule := rules[|rules| - 1];
      DecisionsFor(rules[..|rules| - 1], policySet, capability) +
      if rule.capability == capability && Applies(rule, policySet) then [WithDefaults(rule.decision)] else []
  }

  ghost function PoliciesOf(rules: seq<Rule>, policySet: string): seq<Policy> {
    if rules == [] then []
    else
      var rule := rules[|rules| - 1];
      PoliciesOf(rules[..|rules| - 1], policySet) +
      if Applies(rule, policySet) then [rule.decision.policy] else []
  }

  /** The value lists a sequence of decisions gives for one key of one resource. */
  ghost function Lists(ds: seq<Decision>, on: Resource, key: string): seq<seq<string>> {
    if ds == [] then []
    else
      var r := RestrictionOn(ds[|ds| - 1], on);
      Lists(ds[..|ds| - 1], on, key) + if key in r then [r[key]] else []
  }

  /** The lists that count: an empty list is overlooked as long as no other list came before it. */
  ghost function Effective(lists: seq<seq<string>>): seq<seq<string>> {
    if lists == [] then []
    else
      var e := Effective(lists[..|lists| - 1]);
      if e == [] && lists[|lists| - 1] == [] then [] else e + [lists[|lists| - 1]]
  }

  /** The values every list contains; none when there is no list. */
  ghost function Shared(lists: seq<seq<string>>): set<string> {
    if lists == [] then {} else set v | v in lists[0] && forall i :: 0 <= i < |lists| ==> v in lists[i]
  }

  ghost predicate Clash(lists: seq<seq<string>>) {
    Effective(lists) != [] && Shared(Effective(lists)) == {}
  }

  ghost predicate Says(ds: seq<Decision>, status: DeploymentStatus) {
    exists i :: 0 <= i < |ds| && ds[i].deploy == status
  }

  ghost predicate Compatible(ds: seq<Decision>) {
    && !(Says(ds, StatusTrue) && Says(ds, StatusFalse))
    && forall on :: ClashFree(ds, on)
  }

  ghost predicate ClashFree(ds: seq<Decision>, on: Resource) {
    forall key :: !Clash(Lists(ds, on, key))
  }

  ghost predicate Consistent(rules: seq<Rule>, policySet: string) {
    forall c :: Compatible(DecisionsFor(rules, policySet, c))
  }

  /** A single decision that says what all of `ds` say together. */
  ghost predicate Represents(d: Decision, ds: seq<Decision>) {
    && d.deploy != Undefined
    && (d.deploy == StatusTrue <==> Says(ds, StatusTrue))
    && (d.deploy == StatusFalse <==> Says(ds, StatusFalse))
    && forall on, key :: RepresentsKey(RestrictionOn(d, on), key, Lists(ds, on, key))
  }

  ghost predicate RepresentsKey(r: Restriction, key: string, lists: seq<seq<string>>) {
    && (key in r <==> lists != [])
    && SetOf(Values(r, key)) == Shared(Effective(lists))
  }

  /** The output of a fold over `rules` that met no conflict. */
  ghost predicate Reflects(config: map<string, Decision>, policies: seq<Policy>, rules: seq<Rule>, policySet: string) {
    && policies == PoliciesOf(rules, policySet)
    && forall c ::
        && (c in config <==> DecisionsFor(rules, policySet, c) != [])
        && (c in config ==> Represents(config[c], DecisionsFor(rules, policySet, c)))
  }

  /** What is left of the decisions `held` for `seen` when the next rule conflicts with them. */
  ghost predicate StoppedFrom(held: map<string, Decision>, before: seq<Policy>, config: map<string, Decision>,
                              policies: seq<Policy>, seen: seq<Rule>, rule: Rule, policySet: string) {
    && Reflects(held, before, seen, policySet) && Applies(rule, policySet)
    && rule.capability in held && rule.capability in config
    && config == held[rule.capability := config[rule.capability]]
    && IsLeft(held[rule.capability], WithDefaults(rule.decision), config[rule.capability])
    && policies == before + [rule.decision.policy]
  }

  ghost predicate Stopped(
    config: map<string, Decision>, policies: seq<Policy>, seen: seq<Rule>, rule: Rule, policySet: string)
  {
    exists held, before :: StoppedFrom(held, before, config, policies, seen, rule, policySet)
  }

  /** Rule `n` is the first that conflicts with the rules before it. */
  ghost predicate FirstConflict(rules: seq<Rule>, policySet: string, n: nat) {
    n < |rules| && Consistent(rules[..n], policySet) && !Consistent(rules[..n + 1], policySet)
  }

  /** The output of a fold over `rules`: it reflects all of them, or it stops at the first conflict. */
  ghost predicate Evaluated(config: map<string, Decision>, policies: seq<Policy>, rules: seq<Rule>, policySet: string) {
    if Consistent(rules, policySet) then Reflects(config, policies, rules, policySet)
    else exists n: nat ::
      FirstConflict(rules, policySet, n) && Stopped(config, policies, rules[..n], rules[n], policySet)
  }

  function Flatten<T>(rs: seq<seq<T>>): seq<T> {
    if rs == [] then [] else Flatten(rs[..|rs| - 1]) + rs[|rs| - 1]
  }

  ghost predicate WellFormed(es: seq<Expression>) {
    forall i :: 0 <= i < |es| ==> es[i].Config?
  }

  ghost function AllRules(es: seq<Expression>): seq<Rule> {
    if es == [] then []
    else AllRules(es[..|es| - 1]) + (if es[|es| - 1].Config? then es[|es| - 1].rules else [])
  }

  /** A malformed expression is reached before any conflict. */
  ghost predicate FailsOnMalformed(es: seq<Expression>, policySet: string) {
    exists k :: 0 <= k < |es| && es[k].Malformed? && WellFormed(es[..k]) && Consistent(AllRules(es[..k]), policySet)
  }

  // Concatenation laws of the definitions above.

  lemma {:induction false} AllRulesConcat(a: seq<Expression>, b: seq<Expression>)
    ensures AllRules(a + b) == AllRules(a) + AllRules(b)
  {
    if b == [] {
      assert a + b == a;
    } else {
      AllRulesConcat(a, b[..|b| - 1]);
      assert (a + b)[..|a + b| - 1] == a + b[..|b| - 1];
    }
  }

  lemma {:induction false} DecisionsConcat(a: seq<Rule>, b: seq<Rule>, policySet: string, c: string)
    ensures DecisionsFor(a + b, policySet, c) == DecisionsFor(a, policySet, c) + DecisionsFor(b, policySet, c)
  {
    if b == [] {
      assert a + b == a;
    } else {
      DecisionsConcat(a, b[..|b| - 1], policySet, c);
      assert (a + b)[..|a + b| - 1] == a + b[..|b| - 1];
    }
  }

  lemma {:induction false} ListsConcat(a: seq<Decision>, b: seq<Decision>, on: Resource, key: string)
    ensures Lists(a + b, on, key) == Lists(a, on, key) + Lists(b, on, key)
  {
    if b == [] {
      assert a + b == a;
    } else {
      ListsConcat(a, b[..|b| - 1], on, key);
      assert (a + b)[..|a + b| - 1] == a + b[..|b| - 1];
    }
  }

  /** Once a list counts, every later one does. */
  lemma {:induction false} EffectiveConcat(a: seq<seq<string>>, b: seq<seq<string>>)
    ensures Effective(a + b) == if Effective(a) == [] then Effective(b) else Effective(a) + b
  {
    if b == [] {
      assert a + b == a;
    } else {
      EffectiveConcat(a, b[..|b| - 1]);
      assert (a + b)[..|a + b| - 1] == a + b[..|b| - 1];
      assert b == b[..|b| - 1] + [b[|b| - 1]];
    }
  }

  /** More lists leave fewer values, and never undo a clash. */
  lemma {:induction false} ClashPersists(a: seq<seq<string>>, b: seq<seq<string>>)
    requires Clash(a)
    ensures Clash(a + b)
  {
    EffectiveConcat(a, b);
    SharedByAll(Effective(a));
    SharedByAll(Effective(a) + b);
  }

  lemma {:induction false} ConflictPersists(a: seq<Rule>, b: seq<Rule>, policySet: string)
    requires !Consistent(a, policySet)
    ensures !Consistent(a + b, policySet)
  {
    var c :| !Compatible(DecisionsFor(a, policySet, c));
    var ds, es := DecisionsFor(a, policySet, c), DecisionsFor(b, policySet, c);
    DecisionsConcat(a, b, policySet, c);
    if Says(ds, StatusTrue) && Says(ds, StatusFalse) {
      SaysConcat(ds, es, StatusTrue);
      SaysConcat(ds, es, StatusFalse);
    } else {
      var on :| !ClashFree(ds, on);
      var key :| Clash(Lists(ds, on, key));
      ListsConcat(ds, es, on, key);
      ClashPersists(Lists(ds, on, key), Lists(es, on, key));
      assert !ClashFree(ds + es, on);
    }
  }

  lemma {:induction false} SaysConcat(a: seq<Decision>, b: seq<Decision>, status: DeploymentStatus)
    ensures Says(a + b, status) <==> Says(a, status) || Says(b, status)
  {
    if Says(a, status) {
      var i :| 0 <= i < |a| && a[i].deploy == status;
      assert (a + b)[i].deploy == status;
    }
    if Says(b, status) {
      var i :| 0 <= i < |b| && b[i].deploy == status;
      assert (a + b)[|a| + i].deploy == status;
    }
  }

  lemma {:induction false} ConflictStops(es: seq<Expression>, read: nat, policySet: string)
    requires read <= |es| && WellFormed(es[..read]) && !Consistent(AllRules(es[..read]), policySet)
    ensures !Consistent(AllRules(es), policySet)
    ensures !FailsOnMalformed(es, policySet)
  {
    forall k | read <= k <= |es| ensures !Consistent(AllRules(es[..k]), policySet) {
      assert es[..k] == es[..read] + es[read..k];
      AllRulesConcat(es[..read], es[read..k]);
      ConflictPersists(AllRules(es[..read]), AllRules(es[read..k]), policySet);
    }
    assert es[..|es|] == es;
    assert forall k :: 0 <= k < read ==> es[k] == es[..read][k];
  }

  lemma {:induction false} AllRulesSnoc(es: seq<Expression>, j: nat)
    requires j < |es| && es[j].Config?
    ensures AllRules(es[..j + 1]) == AllRules(es[..j]) + es[j].rules
  {
    assert es[..j + 1][..j] == es[..j];
  }

  lemma {:induction false} EndsMalformed(es: seq<Expression>, j: nat, policySet: string)
    requires j < |es| && es[j].Malformed? && Consistent(AllRules(es[..j]), policySet)
    requires forall k :: 0 <= k < j ==> es[k].Config?
    ensures FailsOnMalformed(es, policySet) && !WellFormed(es)
  {
    hide Consistent, AllRules;
    assert WellFormed(es[..j]);
  }

  lemma {:induction false} EndsInConflict(
    es: seq<Expression>, read: nat, config: map<string, Decision>, policies: seq<Policy>, policySet: string)
    requires read <= |es| && !Consistent(AllRules(es[..read]), policySet)
    requires forall k :: 0 <= k < read ==> es[k].Config?
    requires Evaluated(config, policies, AllRules(es[..read]), policySet)
    ensures !Consistent(AllRules(es), policySet) && !FailsOnMalformed(es, policySet)
    ensures Evaluated(config, policies, AllRules(es), policySet)
  {
    hide Consistent, Evaluated, AllRules;
    assert WellFormed(es[..read]);
    ConflictStops(es, read, policySet);
    assert es == es[..read] + es[read..];
    AllRulesConcat(es[..read], es[read..]);
    EvaluationPersists(config, policies, AllRules(es[..read]), AllRules(es[read..]), policySet);
  }

  lemma {:induction false} RunsThrough(
    config: map<string, Decision>, policies: seq<Policy>, rules: seq<Rule>, policySet: string)
    requires Consistent(rules, policySet) && Reflects(config, policies, rules, policySet)
    ensures Evaluated(config, policies, rules, policySet)
  {
  }

  lemma {:induction false} EvaluationReflects(
    config: map<string, Decision>, policies: seq<Policy>, rules: seq<Rule>, policySet: string)
    requires Consistent(rules, policySet) && Evaluated(config, policies, rules, policySet)
    ensures Reflects(config, policies, rules, policySet)
  {
  }

  lemma {:induction false} StopsHere(
    config: map<string, Decision>, policies: seq<Policy>, seen: seq<Rule>, rule: Rule, policySet: string)
    requires Consistent(seen, policySet) && !Consistent(seen + [rule], policySet)
    requires Stopped(config, policies, seen, rule, policySet)
    ensures Evaluated(config, policies, seen + [rule], policySet)
  {
    hide Consistent, Stopped;
    var rules := seen + [rule];
    assert rules[..|seen|] == seen && rules[..|seen| + 1] == rules;
    assert FirstConflict(rules, policySet, |seen|);
  }

  lemma {:induction false} SameFirstConflict(rules: seq<Rule>, more: seq<Rule>, policySet: string, n: nat)
    requires !Consistent(rules, policySet)
    ensures FirstConflict(rules + more, policySet, n) <==> FirstConflict(rules, policySet, n)
    ensures FirstConflict(rules, policySet, n) ==> (rules + more)[..n] == rules[..n] && (rules + more)[n] == rules[n]
  {
    hide Consistent;
    var all := rules + more;
    if n < |rules| {
      assert all[..n] == rules[..n] && all[..n + 1] == rules[..n + 1];
    } else if n < |all| {
      assert all[..n] == rules + more[..n - |rules|];
      ConflictPersists(rules, more[..n - |rules|], policySet);
    }
  }

  /** Once the rules conflict, whatever follows is ignored. */
  lemma {:induction false} EvaluationPersists(
    config: map<string, Decision>, policies: seq<Policy>, rules: seq<Rule>, more: seq<Rule>, policySet: string)
    requires !Consistent(rules, policySet)
    ensures Evaluated(config, policies, rules + more, policySet) <==> Evaluated(config, policies, rules, policySet)
  {
    hide Consistent, Stopped, FirstConflict;
    ConflictPersists(rules, more, policySet);
    forall n: nat
      ensures FirstConflict(rules + more, policySet, n) <==> FirstConflict(rules, policySet, n)
      ensures FirstConflict(rules, policySet, n) ==>
        n < |rules| && (rules + more)[..n] == rules[..n] && (rules + more)[n] == rules[n]
    {
      SameFirstConflict(rules, more, policySet, n);
      WithinRules(rules, policySet, n);
    }
  }

  lemma {:induction false} WithinRules(rules: seq<Rule>, policySet: string, n: nat)
    ensures FirstConflict(rules, policySet, n) ==>
      n < |rules| && Consistent(rules[..n], policySet) && !Consistent(rules[..n + 1], policySet)
  {
  }

  // The steps of the fold keep `Reflects`, and detect a conflict exactly when there is one.

  lemma {:induction false} KeyStep(held: seq<string>, lists: seq<seq<string>>, added: seq<string>)
    requires SetOf(held) == Shared(Effective(lists)) && !Clash(lists)
    ensures KeyConflict(held, added) <==> Clash(lists + [added])
    ensures SetOf(MergedValues(held, added)) == Shared(Effective(lists + [added]))
  {
    assert (lists + [added])[..|lists|] == lists;
    var e := Effective(lists);
    CommonElements(held, added);
    if held == [] {
      assert e == [];
      assert added != [] ==> Effective(lists + [added]) == [added] && added[0] in Shared([added]);
    } else {
      assert held[0] in SetOf(held);
      var f := e + [added];
      assert Effective(lists + [added]) == f && f[0] == e[0];
      forall v ensures v in Shared(f) <==> v in held && v in added {
        assert v in held <==> v in SetOf(held);
        if v in held && v in added {
          forall i | 0 <= i < |f| ensures v in f[i] {}
        }
        if v in Shared(f) {
          forall i | 0 <= i < |e| ensures v in e[i] { assert e[i] == f[i]; }
          assert f[|e|] == added;
        }
      }
    }
  }

  lemma {:induction false} DecisionStep(held: Decision, ds: seq<Decision>, added: Decision, merged: Decision)
    requires Compatible(ds) && Represents(held, ds) && added.deploy != Undefined
    ensures CanMerge(held, added) <==> Compatible(ds + [added])
    ensures CanMerge(held, added) && IsMerge(held, added, merged) ==> Represents(merged, ds + [added])
  {
    SaysConcat(ds, [added], StatusTrue);
    SaysConcat(ds, [added], StatusFalse);
    assert [added][0] == added;
    forall on ensures Mergeable(RestrictionOn(held, on), RestrictionOn(added, on)) <==> ClashFree(ds + [added], on) {
      assert ClashFree(ds, on);
      RestrictionStep(held, ds, added, on);
    }
    if IsMerge(held, added, merged) {
      forall on, key ensures RepresentsKey(RestrictionOn(merged, on), key, Lists(ds + [added], on, key)) {
        assert ClashFree(ds, on);
        RestrictionStep(held, ds, added, on);
      }
    }
  }

  lemma {:induction false} RestrictionStep(held: Decision, ds: seq<Decision>, added: Decision, on: Resource)
    requires ClashFree(ds, on) && Represents(held, ds)
    ensures Mergeable(RestrictionOn(held, on), RestrictionOn(added, on)) <==> ClashFree(ds + [added], on)
    ensures forall key :: RepresentsKey(MergedRestriction(RestrictionOn(held, on), RestrictionOn(added, on)), key,
                                        Lists(ds + [added], on, key))
  {
    var h, a := RestrictionOn(held, on), RestrictionOn(added, on);
    forall key {:trigger key in a}
      ensures RepresentsKey(MergedRestriction(h, a), key, Lists(ds + [added], on, key))
      ensures Clash(Lists(ds + [added], on, key)) <==> key in a && KeyConflict(Values(h, key), a[key])
    {
      assert RepresentsKey(h, key, Lists(ds, on, key)) && !Clash(Lists(ds, on, key));
      assert (ds + [added])[..|ds|] == ds;
      RestrictionKeyStep(h, a, key, Lists(ds, on, key));
    }
  }

  lemma {:induction false} RestrictionKeyStep(h: Restriction, a: Restriction, key: string, lists: seq<seq<string>>)
    requires RepresentsKey(h, key, lists) && !Clash(lists)
    ensures var now := lists + if key in a then [a[key]] else [];
            && RepresentsKey(MergedRestriction(h, a), key, now)
            && (Clash(now) <==> key in a && KeyConflict(Values(h, key), a[key]))
  {
    if key in a {
      KeyStep(Values(h, key), lists, a[key]);
    } else {
      assert lists + [] == lists;
    }
  }

  lemma {:induction false} NoRules(policySet: string)
    ensures Consistent([], policySet) && Reflects(map[], [], [], policySet)
  {
    assert forall c :: DecisionsFor([], policySet, c) == [];
    assert forall on, key :: Lists([], on, key) == [];
  }

  lemma {:induction false} SkippedRule(
    config: map<string, Decision>, policies: seq<Policy>, rules: seq<Rule>, rule: Rule, policySet: string)
    requires Consistent(rules, policySet) && Reflects(config, policies, rules, policySet)
    requires !Applies(rule, policySet)
    ensures Consistent(rules + [rule], policySet) && Reflects(config, policies, rules + [rule], policySet)
  {
    assert (rules + [rule])[..|rules|] == rules;
    assert forall c :: DecisionsFor(rules + [rule], policySet, c) == DecisionsFor(rules, policySet, c);
  }

  lemma {:induction false} Alone(d: Decision)
    requires d.deploy != Undefined
    ensures Compatible([d]) && Represents(d, [d])
  {
    assert [d][..0] == [] && [d][0] == d;
    forall on, key
      ensures !Clash(Lists([d], on, key)) && RepresentsKey(RestrictionOn(d, on), key, Lists([d], on, key))
    {
      var r := RestrictionOn(d, on);
      if key in r {
        var lists := [r[key]];
        assert Lists([d], on, key) == lists && lists[..0] == [];
        if r[key] != [] {
          assert Effective(lists) == lists && r[key][0] in Shared(lists);
        }
      }
    }
  }

  lemma {:induction false} FirstRule(
    config: map<string, Decision>, policies: seq<Policy>, rules: seq<Rule>, rule: Rule, policySet: string)
    requires Consistent(rules, policySet) && Reflects(config, policies, rules, policySet)
    requires Applies(rule, policySet) && rule.capability !in config
    ensures Consistent(rules + [rule], policySet)
    ensures Reflects(config[rule.capability := WithDefaults(rule.decision)], policies + [rule.decision.policy],
                     rules + [rule], policySet)
  {
    var next := rules + [rule];
    assert next[..|rules|] == rules;
    Alone(WithDefaults(rule.decision));
    assert DecisionsFor(next, policySet, rule.capability) == [WithDefaults(rule.decision)];
    assert forall c :: c != rule.capability ==> DecisionsFor(next, policySet, c) == DecisionsFor(rules, policySet, c);
  }

  lemma {:induction false} MergedRule(
    config: map<string, Decision>, policies: seq<Policy>, rules: seq<Rule>, rule: Rule, policySet: string,
    merged: Decision)
    requires Consistent(rules, policySet) && Reflects(config, policies, rules, policySet)
    requires Applies(rule, policySet) && rule.capability in config
    ensures Consistent(rules + [rule], policySet) <==> CanMerge(config[rule.capability], WithDefaults(rule.decision))
    ensures CanMerge(config[rule.capability], WithDefaults(rule.decision)) &&
            IsMerge(config[rule.capability], WithDefaults(rule.decision), merged) ==>
              Reflects(config[rule.capability := merged], policies + [rule.decision.policy], rules + [rule], policySet)
  {
    var next, added := rules + [rule], WithDefaults(rule.decision);
    assert next[..|rules|] == rules;
    var ds := DecisionsFor(rules, policySet, rule.capability);
    DecisionStep(config[rule.capability], ds, added, merged);
    assert DecisionsFor(next, policySet, rule.capability) == ds + [added];
    assert forall c :: c != rule.capability ==> DecisionsFor(next, policySet, c) == DecisionsFor(rules, policySet, c);
  }

  // ---------------------------------------------------------------------------------------------
  // Consequences: the merge is a conjunction
  // ---------------------------------------------------------------------------------------------

  /** Every list a rule gives is non-empty; an empty one is not a restriction anything could meet. */
  ghost predicate Satisfiable(rules: seq<Rule>) {
    forall i, on, key :: 0 <= i < |rules| && key in RestrictionOn(rules[i].decision, on) ==>
      RestrictionOn(rules[i].decision, on)[key] != []
  }

  /** Some applicable rule decides `d` for the capability. */
  ghost predicate Decided(rules: seq<Rule>, policySet: string, c: string, d: Decision) {
    exists i :: 0 <= i < |rules| && rules[i].capability == c && Applies(rules[i], policySet) &&
                WithDefaults(rules[i].decision) == d
  }

  lemma {:induction false} DecisionsAreDecided(rules: seq<Rule>, policySet: string, c: string)
    ensures forall d :: d in DecisionsFor(rules, policySet, c) <==> Decided(rules, policySet, c, d)
  {
    if rules != [] {
      var init, rule := rules[..|rules| - 1], rules[|rules| - 1];
      DecisionsAreDecided(init, policySet, c);
      forall d ensures d in DecisionsFor(rules, policySet, c) <==> Decided(rules, policySet, c, d) {
        if Decided(init, policySet, c, d) {
          var i :| 0 <= i < |init| && init[i].capability == c && Applies(init[i], policySet) &&
                   WithDefaults(init[i].decision) == d;
          assert rules[i] == init[i];
        }
        if Decided(rules, policySet, c, d) {
          var i :| 0 <= i < |rules| && rules[i].capability == c && Applies(rules[i], policySet) &&
                   WithDefaults(rules[i].decision) == d;
          assert i < |init| ==> init[i] == rules[i];
        }
      }
    }
  }

  lemma {:induction false} ListsAreGiven(ds: seq<Decision>, on: Resource, key: string)
    ensures forall l :: l in Lists(ds, on, key) <==>
              exists d :: d in ds && key in RestrictionOn(d, on) && RestrictionOn(d, on)[key] == l
  {
    if ds != [] {
      ListsAreGiven(ds[..|ds| - 1], on, key);
      assert ds == ds[..|ds| - 1] + [ds[|ds| - 1]];
    }
  }

  lemma {:induction false} EffectiveLists(lists: seq<seq<string>>)
    ensures forall l :: l in Effective(lists) ==> l in lists
    ensures forall l :: l in lists && l != [] ==> l in Effective(lists)
    ensures [] !in lists ==> Effective(lists) == lists
  {
    if lists != [] {
      EffectiveLists(lists[..|lists| - 1]);
      assert lists == lists[..|lists| - 1] + [lists[|lists| - 1]];
    }
  }

  lemma {:induction false} SharedByAll(lists: seq<seq<string>>)
    ensures forall v :: v in Shared(lists) <==> lists != [] && forall l :: l in lists ==> v in l
  {
    forall v ensures v in Shared(lists) <==> lists != [] && forall l :: l in lists ==> v in l {
      if lists != [] && (forall l :: l in lists ==> v in l) {
        assert lists[0] in lists;
      }
    }
  }

  /** Whatever the merged decision leaves for a key, every single decision with values for it allows. */
  lemma {:induction false} MergedObeysEach(merged: Decision, ds: seq<Decision>, d: Decision, on: Resource, key: string)
    requires Represents(merged, ds) && d in ds
    requires key in RestrictionOn(d, on) && RestrictionOn(d, on)[key] != []
    ensures key in RestrictionOn(merged, on)
    ensures forall v :: v in RestrictionOn(merged, on)[key] ==> v in RestrictionOn(d, on)[key]
  {
    var lists := Lists(ds, on, key);
    assert RepresentsKey(RestrictionOn(merged, on), key, lists);
    ListsAreGiven(ds, on, key);
    EffectiveLists(lists);
    SharedByAll(Effective(lists));
    assert RestrictionOn(d, on)[key] in lists;
    forall v | v in RestrictionOn(merged, on)[key] ensures v in RestrictionOn(d, on)[key] {
      assert v in SetOf(Values(RestrictionOn(merged, on), key));
    }
  }

  ghost predicate NoDecisionRulesOut(ds: seq<Decision>, on: Resource, key: string, v: string) {
    forall d :: d in ds && key in RestrictionOn(d, on) ==> v in RestrictionOn(d, on)[key]
  }

  /** Without empty lists, the values shared by all lists are those no decision rules out. */
  lemma {:induction false} SharedByDecisions(ds: seq<Decision>, on: Resource, key: string)
    requires forall d :: d in ds && key in RestrictionOn(d, on) ==> RestrictionOn(d, on)[key] != []
    ensures Effective(Lists(ds, on, key)) == Lists(ds, on, key)
    ensures Lists(ds, on, key) != [] <==> exists d :: d in ds && key in RestrictionOn(d, on)
    ensures forall v :: v in Shared(Lists(ds, on, key)) <==>
                        Lists(ds, on, key) != [] && NoDecisionRulesOut(ds, on, key, v)
  {
    var lists := Lists(ds, on, key);
    ListsAreGiven(ds, on, key);
    EffectiveLists(lists);
    SharedByAll(lists);
    hide Lists, Effective, Shared;
    assert forall d :: d in ds && key in RestrictionOn(d, on) ==> RestrictionOn(d, on)[key] in lists;
    if lists != [] {
      assert lists[0] in lists;
    }
  }

  /** For satisfiable decisions the merge is exact: a value is left iff no decision rules it out. */
  lemma {:induction false} MergedIsConjunction(merged: Decision, ds: seq<Decision>, on: Resource, key: string)
    requires Represents(merged, ds)
    requires forall d :: d in ds && key in RestrictionOn(d, on) ==> RestrictionOn(d, on)[key] != []
    ensures key in RestrictionOn(merged, on) <==> exists d :: d in ds && key in RestrictionOn(d, on)
    ensures forall v :: key in RestrictionOn(merged, on) ==>
              (v in RestrictionOn(merged, on)[key] <==> NoDecisionRulesOut(ds, on, key, v))
  {
    var r := RestrictionOn(merged, on);
    assert RepresentsKey(r, key, Lists(ds, on, key));
    SharedByDecisions(ds, on, key);
    forall v | key in r ensures v in r[key] <==> v in SetOf(Values(r, key)) {}
  }

  /** Reference definition of a conflict: a quarrel over deployment, or a key with no value all rules accept. */
  ghost predicate Quarrel(rules: seq<Rule>, policySet: string, c: string) {
    || (DecidedStatus(rules, policySet, c, StatusTrue) && DecidedStatus(rules, policySet, c, StatusFalse))
    || exists on :: KeyQuarrel(rules, policySet, c, on)
  }

  ghost predicate KeyQuarrel(rules: seq<Rule>, policySet: string, c: string, on: Resource) {
    exists key :: NothingLeft(rules, policySet, c, on, key)
  }

  ghost predicate DecidedStatus(rules: seq<Rule>, policySet: string, c: string, status: DeploymentStatus) {
    exists d :: Decided(rules, policySet, c, d) && d.deploy == status
  }

  ghost predicate NothingLeft(rules: seq<Rule>, policySet: string, c: string, on: Resource, key: string) {
    && (exists d :: Decided(rules, policySet, c, d) && key in RestrictionOn(d, on))
    && forall v :: !AcceptedByAll(rules, policySet, c, on, key, v)
  }

  ghost predicate AcceptedByAll(rules: seq<Rule>, policySet: string, c: string, on: Resource, key: string, v: string) {
    forall d :: Decided(rules, policySet, c, d) && key in RestrictionOn(d, on) ==> v in RestrictionOn(d, on)[key]
  }

  lemma {:induction false} ConflictIsQuarrel(rules: seq<Rule>, policySet: string, c: string)
    requires Satisfiable(rules)
    ensures Compatible(DecisionsFor(rules, policySet, c)) <==> !Quarrel(rules, policySet, c)
  {
    var ds := DecisionsFor(rules, policySet, c);
    forall on ensures ClashFree(ds, on) <==> !KeyQuarrel(rules, policySet, c, on) {
      forall key ensures Clash(Lists(ds, on, key)) <==> NothingLeft(rules, policySet, c, on, key) {
        ClashIsNothingLeft(rules, policySet, c, on, key);
      }
    }
    DecisionsAreDecided(rules, policySet, c);
    forall status ensures Says(ds, status) <==> DecidedStatus(rules, policySet, c, status) {
      SaysMembers(ds, status);
    }
  }

  lemma {:induction false} ClashIsNothingLeft(rules: seq<Rule>, policySet: string, c: string, on: Resource, key: string)
    requires Satisfiable(rules)
    ensures Clash(Lists(DecisionsFor(rules, policySet, c), on, key)) <==> NothingLeft(rules, policySet, c, on, key)
  {
    var ds := DecisionsFor(rules, policySet, c);
    DecisionsAreDecided(rules, policySet, c);
    SatisfiableDecisions(rules, policySet, c);
    SharedByDecisions(ds, on, key);
    hide Decided, Satisfiable, Lists, DecisionsFor, Effective, Shared;
    forall v ensures NoDecisionRulesOut(ds, on, key, v) <==> AcceptedByAll(rules, policySet, c, on, key, v) {}
  }

  lemma {:induction false} SatisfiableDecisions(rules: seq<Rule>, policySet: string, c: string)
    requires Satisfiable(rules)
    ensures forall d, on, key :: d in DecisionsFor(rules, policySet, c) && key in RestrictionOn(d, on) ==>
              RestrictionOn(d, on)[key] != []
  {
    DecisionsAreDecided(rules, policySet, c);
    forall d, on, key | d in DecisionsFor(rules, policySet, c) && key in RestrictionOn(d, on)
      ensures RestrictionOn(d, on)[key] != []
    {
      var i :| 0 <= i < |rules| && rules[i].capability == c && WithDefaults(rules[i].decision) == d;
      var e := WithDefaults(rules[i].decision);
      assert e.restrictions == rules[i].decision.restrictions;
      assert e == d;
      assert RestrictionOn(rules[i].decision, on) == RestrictionOn(d, on);
    }
  }

  ghost predicate SameDecision(d: Decision, d': Decision) {
    && d.deploy == d'.deploy
    && forall on, key :: SameKey(RestrictionOn(d, on), RestrictionOn(d', on), key)
  }

  ghost predicate SameKey(r: Restriction, r': Restriction, key: string) {
    (key in r <==> key in r') && SetOf(Values(r, key)) == SetOf(Values(r', key))
  }

  ghost predicate SameConfig(config: map<string, Decision>, config': map<string, Decision>) {
    config.Keys == config'.Keys && forall c :: c in config ==> SameDecision(config[c], config'[c])
  }

  lemma {:induction false} SameRulesDecideAlike(rules: seq<Rule>, rules': seq<Rule>, policySet: string, c: string)
    requires SetOf(rules) == SetOf(rules')
    ensures forall d :: Decided(rules, policySet, c, d) <==> Decided(rules', policySet, c, d)
    ensures forall d :: d in DecisionsFor(rules, policySet, c) <==> d in DecisionsFor(rules', policySet, c)
  {
    DecisionsAreDecided(rules, policySet, c);
    DecisionsAreDecided(rules', policySet, c);
    assert forall i :: 0 <= i < |rules| ==> rules[i] in SetOf(rules');
    assert forall i :: 0 <= i < |rules'| ==> rules'[i] in SetOf(rules);
    assert forall r :: r in SetOf(rules) ==> exists i :: 0 <= i < |rules| && rules[i] == r;
    assert forall r :: r in SetOf(rules') ==> exists i :: 0 <= i < |rules'| && rules'[i] == r;
  }

  lemma {:induction false} SaysMembers(ds: seq<Decision>, status: DeploymentStatus)
    ensures Says(ds, status) <==> exists d :: d in ds && d.deploy == status
  {
  }
}
