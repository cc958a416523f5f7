/**
 * Which rules the decisions stand for (pkg/adminconfig/rego_file_evaluator.go).  After a conflict the decisions made so
 * far are used all the same (manager/controllers/app/fybrikapplication_controller.go).
 */
module PolicyEnforcement {
  import opened Prelude
  import opened AdminPolicies

  /** What the decision allows for the key is allowed by the rule, unless the rule lists nothing. */
  ghost predicate EnforcedOn(d: Restriction, r: Restriction, key: string) {
    Values(r, key) != [] ==> key in d && forall v :: v in d[key] ==> v in r[key]
  }

  /** The decision has the deploy status that the rule asks for, and allows nothing that the rule does not. */
  ghost predicate EnforcedBy(d: Decision, r: Rule) {
    && (r.decision.deploy in {StatusTrue, StatusFalse} ==> d.deploy == r.decision.deploy)
    && forall on, key :: EnforcedOn(RestrictionOn(d, on), RestrictionOn(r.decision, on), key)
  }

  /** Every applicable rule is enforced by the decision for its capability. */
  ghost predicate Enforces(config: map<string, Decision>, rules: seq<Rule>, policySet: string) {
    forall i :: 0 <= i < |rules| && Applies(rules[i], policySet) ==>
      rules[i].capability in config && EnforcedBy(config[rules[i].capability], rules[i])
  }

  lemma {:induction false} RuleIsDecided(rules: seq<Rule>, policySet: string, i: nat)
    requires i < |rules| && Applies(rules[i], policySet)
    ensures WithDefaults(rules[i].decision) in DecisionsFor(rules, policySet, rules[i].capability)
  {
    DecisionsAreDecided(rules, policySet, rules[i].capability);
    assert Decided(rules, policySet, rules[i].capability, WithDefaults(rules[i].decision));
  }

  lemma {:induction false} RepresentedIsEnforced(d: Decision, ds: seq<Decision>, r: Rule)
    requires Represents(d, ds) && WithDefaults(r.decision) in ds
    ensures EnforcedBy(d, r)
  {
    var e := WithDefaults(r.decision);
    SaysMembers(ds, StatusTrue);
    SaysMembers(ds, StatusFalse);
    hide Represents;
    assert r.decision.deploy in {StatusTrue, StatusFalse} ==> d.deploy == r.decision.deploy by {
      StatusIsSaid(d, ds, e);
    }
    forall on, key
      ensures EnforcedOn(RestrictionOn(d, on), RestrictionOn(r.decision, on), key)
    {
      assert RestrictionOn(e, on) == RestrictionOn(r.decision, on);
      if Values(RestrictionOn(e, on), key) != [] {
        MergedObeysEach(d, ds, e, on, key);
      }
    }
  }

  lemma {:induction false} StatusIsSaid(d: Decision, ds: seq<Decision>, e: Decision)
    requires Represents(d, ds) && e in ds
    ensures e.deploy in {StatusTrue, StatusFalse} ==> d.deploy == e.deploy
  {
    SaysMembers(ds, StatusTrue);
    SaysMembers(ds, StatusFalse);
  }

  lemma {:induction false} ReflectedAt(
    config: map<string, Decision>, policies: seq<Policy>, rules: seq<Rule>, policySet: string, c: string)
    requires Reflects(config, policies, rules, policySet)
    ensures c in config <==> DecisionsFor(rules, policySet, c) != []
    ensures c in config ==> Represents(config[c], DecisionsFor(rules, policySet, c))
  {
  }

  lemma {:induction false} ReflectedIsEnforced(
    config: map<string, Decision>, policies: seq<Policy>, rules: seq<Rule>, policySet: string)
    requires Reflects(config, policies, rules, policySet)
    ensures Enforces(config, rules, policySet)
  {
    hide Reflects, EnforcedBy, Represents;
    forall i | 0 <= i < |rules| && Applies(rules[i], policySet)
      ensures rules[i].capability in config && EnforcedBy(config[rules[i].capability], rules[i])
    {
      var c := rules[i].capability;
      RuleIsDecided(rules, policySet, i);
      ReflectedAt(config, policies, rules, policySet, c);
      RepresentedIsEnforced(config[c], DecisionsFor(rules, policySet, c), rules[i]);
    }
  }

  // ---------------------------------------------------------------------------------------------
  // After a conflict
  // ---------------------------------------------------------------------------------------------

  /** If a decision without conflicts lists values for a key, some are left. */
  lemma {:induction false} ValuesAreLeft(held: Decision, ds: seq<Decision>, d: Decision, on: Resource, key: string)
    requires Compatible(ds) && Represents(held, ds) && d in ds && Values(RestrictionOn(d, on), key) != []
    ensures Values(RestrictionOn(held, on), key) != []
  {
    var lists := Lists(ds, on, key);
    assert ClashFree(ds, on) && RepresentsKey(RestrictionOn(held, on), key, lists);
    ListsAreGiven(ds, on, key);
    EffectiveLists(lists);
    assert RestrictionOn(d, on)[key] in Effective(lists);
    assert SetOf(Values(RestrictionOn(held, on), key)) != {};
  }

  /** Merging more keys only takes values away from a key that has some. */
  lemma {:induction false} PartlyMergedAllowsLess(
    held: Restriction, added: Restriction, left: Restriction, r: Restriction, key: string)
    requires PartlyMerged(held, added, left) && EnforcedOn(held, r, key)
    requires Values(r, key) != [] ==> Values(held, key) != []
    ensures EnforcedOn(left, r, key)
  {
    var some :| PartOf(some, added) && left == MergedRestriction(held, some);
    if key in some {
      CommonElements(Values(held, key), some[key]);
    }
  }

  lemma {:induction false} LeftIsEnforced(held: Decision, added: Decision, left: Decision, ds: seq<Decision>, r: Rule)
    requires Compatible(ds) && Represents(held, ds) && WithDefaults(r.decision) in ds && IsLeft(held, added, left)
    ensures EnforcedBy(left, r)
  {
    RepresentedIsEnforced(held, ds, r);
    var e := WithDefaults(r.decision);
    hide Represents, Compatible, PartlyMerged, EnforcedOn;
    forall on, key
      ensures EnforcedOn(RestrictionOn(left, on), RestrictionOn(r.decision, on), key)
    {
      assert RestrictionOn(e, on) == RestrictionOn(r.decision, on);
      assert EnforcedOn(RestrictionOn(held, on), RestrictionOn(r.decision, on), key);
      if Values(RestrictionOn(e, on), key) != [] {
        ValuesAreLeft(held, ds, e, on, key);
      }
      PartlyMergedAllowsLess(RestrictionOn(held, on), RestrictionOn(added, on), RestrictionOn(left, on),
                             RestrictionOn(r.decision, on), key);
    }
  }

  lemma {:induction false} ConsistentAt(rules: seq<Rule>, policySet: string, c: string)
    requires Consistent(rules, policySet)
    ensures Compatible(DecisionsFor(rules, policySet, c))
  {
  }

  /** The decisions left after a conflict still enforce every rule before it. */
  lemma {:induction false} StoppedIsEnforced(
    config: map<string, Decision>, policies: seq<Policy>, seen: seq<Rule>, rule: Rule, policySet: string)
    requires Consistent(seen, policySet) && Stopped(config, policies, seen, rule, policySet)
    ensures Enforces(config, seen, policySet)
  {
    var held, before :| StoppedFrom(held, before, config, policies, seen, rule, policySet);
    ReflectedIsEnforced(held, before, seen, policySet);
    hide Reflects, Consistent, EnforcedBy, IsLeft, Represents;
    forall i | 0 <= i < |seen| && Applies(seen[i], policySet)
      ensures seen[i].capability in config && EnforcedBy(config[seen[i].capability], seen[i])
    {
      var c := seen[i].capability;
      if c == rule.capability {
        RuleIsDecided(seen, policySet, i);
        ReflectedAt(held, before, seen, policySet, c);
        ConsistentAt(seen, policySet, c);
        LeftIsEnforced(held[c], WithDefaults(rule.decision), config[c], DecisionsFor(seen, policySet, c), seen[i]);
      }
    }
  }

  /** The rules that are looked at before a conflict; all rules if there is none. */
  ghost function Heeded(rules: seq<Rule>, policySet: string): seq<Rule> {
    if rules == [] || Consistent(rules, policySet) then rules else Heeded(rules[..|rules| - 1], policySet)
  }

  lemma {:induction false} HeededUpTo(rules: seq<Rule>, policySet: string, n: nat)
    requires FirstConflict(rules, policySet, n)
    ensures !Consistent(rules, policySet) && Heeded(rules, policySet) == rules[..n]
  {
    hide Consistent;
    assert rules == rules[..n + 1] + rules[n + 1..];
    ConflictPersists(rules[..n + 1], rules[n + 1..], policySet);
    var (init, last) := (rules[..|rules| - 1], rules[|rules| - 1]);
    if n < |init| {
      assert init == rules[..n + 1] + rules[n + 1..|rules| - 1];
      ConflictPersists(rules[..n + 1], rules[n + 1..|rules| - 1], policySet);
      assert init[..n] == rules[..n] && init[..n + 1] == rules[..n + 1];
      HeededUpTo(init, policySet, n);
    }
  }

  /** The rules heeded come first, are free of conflict, and are all rules exactly if these are. */
  lemma {:induction false} HeededExactly(rules: seq<Rule>, policySet: string)
    ensures Heeded(rules, policySet) <= rules && Consistent(Heeded(rules, policySet), policySet)
    ensures Heeded(rules, policySet) == rules <==> Consistent(rules, policySet)
  {
    NoRules(policySet);
    hide Consistent;
    if rules != [] && !Consistent(rules, policySet) {
      HeededExactly(rules[..|rules| - 1], policySet);
    }
  }

  /** Whatever an evaluation without error returns enforces the rules before the first conflict. */
  lemma {:induction false} EvaluationIsEnforced(
    config: map<string, Decision>, policies: seq<Policy>, rules: seq<Rule>, policySet: string)
    requires Evaluated(config, policies, rules, policySet)
    ensures Enforces(config, Heeded(rules, policySet), policySet)
  {
    hide Consistent, Reflects, Enforces, Stopped;
    if Consistent(rules, policySet) {
      ReflectedIsEnforced(config, policies, rules, policySet);
    } else {
      var n: nat :| FirstConflict(rules, policySet, n) && Stopped(config, policies, rules[..n], rules[n], policySet);
      HeededUpTo(rules, policySet, n);
      StoppedIsEnforced(config, policies, rules[..n], rules[n], policySet);
    }
  }

  // ---------------------------------------------------------------------------------------------
  // Rules that come too late
  // ---------------------------------------------------------------------------------------------

  /** No applicable rule is about the capability. */
  ghost predicate Unmentioned(rules: seq<Rule>, policySet: string, c: string) {
    forall i :: 0 <= i < |rules| && Applies(rules[i], policySet) ==> rules[i].capability != c
  }

  lemma {:induction false} NoDecisions(rules: seq<Rule>, policySet: string, c: string)
    requires Unmentioned(rules, policySet, c)
    ensures DecisionsFor(rules, policySet, c) == []
  {
    if rules != [] {
      var init := rules[..|rules| - 1];
      assert forall i :: 0 <= i < |init| ==> init[i] == rules[i];
      NoDecisions(init, policySet, c);
    }
  }

  lemma {:induction false} NewCapabilityIsConsistent(rules: seq<Rule>, r: Rule, policySet: string)
    requires Consistent(rules, policySet) && Applies(r, policySet) && Unmentioned(rules, policySet, r.capability)
    ensures Consistent(rules + [r], policySet)
    ensures DecisionsFor(rules + [r], policySet, r.capability) == [WithDefaults(r.decision)]
  {
    NoDecisions(rules, policySet, r.capability);
    assert (rules + [r])[..|rules|] == rules;
    Alone(WithDefaults(r.decision));
    forall c
      ensures Compatible(DecisionsFor(rules + [r], policySet, c))
    {
      assert c != r.capability ==> DecisionsFor(rules + [r], policySet, c) == DecisionsFor(rules, policySet, c);
    }
  }

  /** The first rule about a capability makes a decision exactly if the rules before it do not conflict. */
  lemma {:induction false} LateRuleCountsExactly(
    config: map<string, Decision>, policies: seq<Policy>, rules: seq<Rule>, r: Rule, policySet: string)
    requires Applies(r, policySet) && Unmentioned(rules, policySet, r.capability)
    requires Evaluated(config, policies, rules + [r], policySet)
    ensures r.capability in config <==> Consistent(rules, policySet)
    ensures Consistent(rules, policySet) ==> EnforcedBy(config[r.capability], r)
  {
    if Consistent(rules, policySet) {
      NewCapabilityIsConsistent(rules, r, policySet);
      hide Consistent, Reflects;
      ReflectedAt(config, policies, rules + [r], policySet, r.capability);
      RepresentedIsEnforced(config[r.capability], [WithDefaults(r.decision)], r);
    } else {
      EvaluationPersists(config, policies, rules, [r], policySet);
      StoppedLeavesOut(config, policies, rules, r.capability, policySet);
    }
  }

  lemma {:induction false} StoppedLeavesOut(
    config: map<string, Decision>, policies: seq<Policy>, rules: seq<Rule>, c: string, policySet: string)
    requires !Consistent(rules, policySet) && Evaluated(config, policies, rules, policySet)
    requires Unmentioned(rules, policySet, c)
    ensures c !in config
  {
    hide Consistent;
    var n: nat :| FirstConflict(rules, policySet, n) && Stopped(config, policies, rules[..n], rules[n], policySet);
    var held, before :| StoppedFrom(held, before, config, policies, rules[..n], rules[n], policySet);
    hide Reflects;
    NoDecisions(rules[..n], policySet, c);
    ReflectedAt(held, before, rules[..n], policySet, c);
  }
}
