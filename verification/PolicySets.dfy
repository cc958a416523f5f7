/**
 * Policy sets (pkg/adminconfig/rego_file_evaluator.go): which rules concern a workload, by the identifiers alone.
 */
module PolicySets {
  import opened Prelude
  import opened AdminPolicies
  import opened PolicyEnforcement

  /** Both the rule and the workload name a policy set, and not the same one. */
  ghost predicate Foreign(r: Rule, policySet: string) {
    var own := r.decision.policy.policySetID;
    own != "" && policySet != "" && own != policySet
  }

  lemma {:induction false} ForeignExactly(r: Rule, policySet: string)
    ensures Applies(r, policySet) <==> !Foreign(r, policySet)
  {
  }

  // ---------------------------------------------------------------------------------------------
  // Rules that concern the workload
  // ---------------------------------------------------------------------------------------------

  lemma {:induction false} PolicyIsRecorded(rules: seq<Rule>, policySet: string, i: nat)
    requires i < |rules| && !Foreign(rules[i], policySet)
    ensures rules[i].decision.policy in PoliciesOf(rules, policySet)
  {
    ForeignExactly(rules[i], policySet);
    hide Applies;
    var init := rules[..|rules| - 1];
    if i < |init| {
      assert init[i] == rules[i];
      PolicyIsRecorded(init, policySet, i);
    }
  }

  lemma {:induction false} EvaluatedPolicies(
    config: map<string, Decision>, policies: seq<Policy>, rules: seq<Rule>, policySet: string)
    requires Evaluated(config, policies, rules, policySet)
    ensures PoliciesOf(Heeded(rules, policySet), policySet) <= policies
  {
    hide Consistent;
    if !Consistent(rules, policySet) {
      var n: nat :| FirstConflict(rules, policySet, n) && Stopped(config, policies, rules[..n], rules[n], policySet);
      HeededUpTo(rules, policySet, n);
      var held, before :| StoppedFrom(held, before, config, policies, rules[..n], rules[n], policySet);
      assert before == PoliciesOf(rules[..n], policySet);
    }
  }

  lemma {:induction false} HeededBeyond(rules: seq<Rule>, policySet: string, n: nat)
    requires n <= |rules| && Consistent(rules[..n], policySet)
    ensures n <= |Heeded(rules, policySet)|
  {
    hide Consistent;
    if rules != [] && !Consistent(rules, policySet) {
      assert rules[..|rules|] == rules;
      var init := rules[..|rules| - 1];
      assert n < |rules| && init[..n] == rules[..n];
      HeededBeyond(init, policySet, n);
    }
  }

  /**
   * A rule of the workload's own set, or where rule or workload name none, is recorded and enforced, if no conflict
   * comes before it or with it.
   */
  lemma {:induction false} OwnRuleCounts(
    config: map<string, Decision>, policies: seq<Policy>, rules: seq<Rule>, policySet: string, i: nat)
    requires Evaluated(config, policies, rules, policySet) && i < |rules| && Consistent(rules[..i + 1], policySet)
    requires
      || rules[i].decision.policy.policySetID == policySet
      || rules[i].decision.policy.policySetID == "" || policySet == ""
    ensures rules[i].decision.policy in policies
    ensures rules[i].capability in config && EnforcedBy(config[rules[i].capability], rules[i])
  {
    var heeded := Heeded(rules, policySet);
    ForeignExactly(rules[i], policySet);
    EvaluatedPolicies(config, policies, rules, policySet);
    HeededBeyond(rules, policySet, i + 1);
    HeededExactly(rules, policySet);
    EvaluationIsEnforced(config, policies, rules, policySet);
    hide Consistent, Evaluated, Heeded, EnforcedBy, Applies;
    assert heeded[i] == rules[i];
    PolicyIsRecorded(heeded, policySet, i);
  }

  // ---------------------------------------------------------------------------------------------
  // Rules of other sets
  // ---------------------------------------------------------------------------------------------

  /** The rules without those of other policy sets. */
  ghost function Relevant(rules: seq<Rule>, policySet: string): seq<Rule> {
    if rules == [] then []
    else
      var rule := rules[|rules| - 1];
      Relevant(rules[..|rules| - 1], policySet) + if Foreign(rule, policySet) then [] else [rule]
  }

  lemma {:induction false} OneMoreRule(init: seq<Rule>, rule: Rule, policySet: string, c: string)
    ensures DecisionsFor(init + [rule], policySet, c) ==
      DecisionsFor(init, policySet, c) +
      if rule.capability == c && !Foreign(rule, policySet) then [WithDefaults(rule.decision)] else []
    ensures PoliciesOf(init + [rule], policySet) ==
      PoliciesOf(init, policySet) + if Foreign(rule, policySet) then [] else [rule.decision.policy]
  {
    assert (init + [rule])[..|init|] == init;
    ForeignExactly(rule, policySet);
  }

  lemma {:induction false} RelevantDecide(rules: seq<Rule>, policySet: string, c: string)
    ensures DecisionsFor(Relevant(rules, policySet), policySet, c) == DecisionsFor(rules, policySet, c)
    ensures PoliciesOf(Relevant(rules, policySet), policySet) == PoliciesOf(rules, policySet)
  {
    if rules == [] {
      return;
    }
    var (init, rule) := (rules[..|rules| - 1], rules[|rules| - 1]);
    var rest := Relevant(init, policySet);
    assert rules == init + [rule];
    assert Relevant(rules, policySet) == if Foreign(rule, policySet) then rest else rest + [rule];
    RelevantDecide(init, policySet, c);
    hide *;
    OneMoreRule(init, rule, policySet, c);
    OneMoreRule(rest, rule, policySet, c);
  }

  lemma {:induction false} RelevantAlike(rules: seq<Rule>, policySet: string)
    ensures Consistent(Relevant(rules, policySet), policySet) <==> Consistent(rules, policySet)
    ensures forall config, policies ::
      Reflects(config, policies, Relevant(rules, policySet), policySet) <==>
      Reflects(config, policies, rules, policySet)
  {
    hide *;
    forall c
      ensures DecisionsFor(Relevant(rules, policySet), policySet, c) == DecisionsFor(rules, policySet, c)
    {
      RelevantDecide(rules, policySet, c);
    }
    RelevantDecide(rules, policySet, "");
    SameDecisionsDecide(rules, Relevant(rules, policySet), policySet);
  }

  lemma {:induction false} SameDecisionsDecide(rules: seq<Rule>, rules': seq<Rule>, policySet: string)
    requires PoliciesOf(rules', policySet) == PoliciesOf(rules, policySet)
    requires forall c :: DecisionsFor(rules', policySet, c) == DecisionsFor(rules, policySet, c)
    ensures Consistent(rules', policySet) <==> Consistent(rules, policySet)
    ensures forall config, policies ::
      Reflects(config, policies, rules', policySet) <==> Reflects(config, policies, rules, policySet)
  {
    hide DecisionsFor, PoliciesOf, Compatible, Represents;
  }

  /** If the last rule is the first conflict, an evaluation stops there. */
  lemma {:induction false} StopsExactly(
    config: map<string, Decision>, policies: seq<Policy>, seen: seq<Rule>, rule: Rule, policySet: string)
    requires Consistent(seen, policySet) && !Consistent(seen + [rule], policySet)
    ensures Evaluated(config, policies, seen + [rule], policySet) <==> Stopped(config, policies, seen, rule, policySet)
  {
    var rules := seen + [rule];
    hide Consistent, Stopped;
    if Stopped(config, policies, seen, rule, policySet) {
      StopsHere(config, policies, seen, rule, policySet);
    }
    if Evaluated(config, policies, rules, policySet) {
      var n: nat :| FirstConflict(rules, policySet, n) && Stopped(config, policies, rules[..n], rules[n], policySet);
      assert rules[..|seen|] == seen;
      if n < |seen| {
        assert seen == rules[..n + 1] + rules[n + 1..|seen|];
        ConflictPersists(rules[..n + 1], rules[n + 1..|seen|], policySet);
      }
    }
  }

  lemma {:induction false} SameStopped(
    config: map<string, Decision>, policies: seq<Policy>, seen: seq<Rule>, seen': seq<Rule>, rule: Rule,
    policySet: string)
    requires forall held, before ::
      Reflects(held, before, seen', policySet) <==> Reflects(held, before, seen, policySet)
    ensures Stopped(config, policies, seen', rule, policySet) <==> Stopped(config, policies, seen, rule, policySet)
  {
    hide Reflects, IsLeft;
    forall held, before
      ensures StoppedFrom(held, before, config, policies, seen', rule, policySet) <==>
              StoppedFrom(held, before, config, policies, seen, rule, policySet)
    {
      assert Reflects(held, before, seen', policySet) <==> Reflects(held, before, seen, policySet);
    }
  }

  lemma {:induction false} SkippedIsConsistent(rules: seq<Rule>, rule: Rule, policySet: string)
    requires Foreign(rule, policySet)
    ensures Consistent(rules + [rule], policySet) <==> Consistent(rules, policySet)
  {
    ForeignExactly(rule, policySet);
    assert (rules + [rule])[..|rules|] == rules;
    assert forall c :: DecisionsFor(rules + [rule], policySet, c) == DecisionsFor(rules, policySet, c);
  }

  /** Taking out all rules of other policy sets leaves the output of an evaluation as it is. */
  lemma {:induction false} ForeignRulesAreIgnored(
    config: map<string, Decision>, policies: seq<Policy>, rules: seq<Rule>, policySet: string)
    ensures Evaluated(config, policies, Relevant(rules, policySet), policySet) <==>
            Evaluated(config, policies, rules, policySet)
  {
    if rules == [] {
      return;
    }
    var (init, rule) := (rules[..|rules| - 1], rules[|rules| - 1]);
    var rest := Relevant(init, policySet);
    assert rules == init + [rule];
    assert Relevant(rules, policySet) == if Foreign(rule, policySet) then rest else rest + [rule];
    ForeignRulesAreIgnored(config, policies, init, policySet);
    RelevantAlike(init, policySet);
    RelevantAlike(rules, policySet);
    hide Consistent, Reflects, Relevant, Stopped;
    if !Consistent(init, policySet) {
      EvaluationPersists(config, policies, init, [rule], policySet);
      EvaluationPersists(config, policies, rest, [rule], policySet);
    } else if Consistent(rules, policySet) {
      assert Reflects(config, policies, Relevant(rules, policySet), policySet) <==>
             Reflects(config, policies, rules, policySet);
    } else {
      if Foreign(rule, policySet) {
        SkippedIsConsistent(init, rule, policySet);
      }
      StopsExactly(config, policies, init, rule, policySet);
      StopsExactly(config, policies, rest, rule, policySet);
      SameStopped(config, policies, init, rest, rule, policySet);
    }
  }

  // ---------------------------------------------------------------------------------------------
  // Rules of the workload's own set
  // ---------------------------------------------------------------------------------------------

  /** The rule without its policy set. */
  ghost function Unset(r: Rule): Rule {
    r.(decision := r.decision.(policy := r.decision.policy.(policySetID := "")))
  }

  /** The rules of the workload's own set lose the set; all others stay as they are. */
  ghost function UnsetOwn(rules: seq<Rule>, policySet: string): (u: seq<Rule>)
    ensures |u| == |rules|
    ensures forall i :: 0 <= i < |rules| ==>
      u[i] == if rules[i].decision.policy.policySetID == policySet then Unset(rules[i]) else rules[i]
  {
    seq(|rules|, i requires 0 <= i < |rules| =>
          if rules[i].decision.policy.policySetID == policySet then Unset(rules[i]) else rules[i])
  }

  /** The rules say the same, one by one, whatever policies they come from. */
  ghost predicate Alike(rules: seq<Rule>, rules': seq<Rule>, policySet: string) {
    |rules'| == |rules| && forall i :: 0 <= i < |rules| ==> AlikeRule(rules[i], rules'[i], policySet)
  }

  ghost predicate AlikeRule(r: Rule, r': Rule, policySet: string) {
    && r'.capability == r.capability && AlikeDecision(r.decision, r'.decision)
    && (Applies(r', policySet) <==> Applies(r, policySet))
  }

  ghost predicate AlikeDecision(d: Decision, d': Decision) {
    d'.deploy == d.deploy && d'.restrictions == d.restrictions
  }

  ghost predicate AlikeDecisions(ds: seq<Decision>, ds': seq<Decision>) {
    |ds'| == |ds| && forall i :: 0 <= i < |ds| ==> AlikeDecision(ds[i], ds'[i])
  }

  lemma {:induction false} DecideAlike(rules: seq<Rule>, rules': seq<Rule>, policySet: string, c: string)
    requires Alike(rules, rules', policySet)
    ensures AlikeDecisions(DecisionsFor(rules, policySet, c), DecisionsFor(rules', policySet, c))
  {
    if rules != [] {
      var n := |rules| - 1;
      assert AlikeRule(rules[n], rules'[n], policySet);
      assert Alike(rules[..n], rules'[..n], policySet);
      hide Applies;
      DecideAlike(rules[..n], rules'[..n], policySet, c);
    }
  }

  lemma {:induction false} ListsAlike(ds: seq<Decision>, ds': seq<Decision>, on: Resource, key: string)
    requires AlikeDecisions(ds, ds')
    ensures Lists(ds', on, key) == Lists(ds, on, key)
  {
    if ds != [] {
      var n := |ds| - 1;
      assert AlikeDecision(ds[n], ds'[n]) && AlikeDecisions(ds[..n], ds'[..n]);
      ListsAlike(ds[..n], ds'[..n], on, key);
    }
  }

  lemma {:induction false} SayAlike(ds: seq<Decision>, ds': seq<Decision>, status: DeploymentStatus)
    requires AlikeDecisions(ds, ds')
    ensures Says(ds', status) <==> Says(ds, status)
  {
    assert forall i :: 0 <= i < |ds| ==> AlikeDecision(ds[i], ds'[i]);
  }

  lemma {:induction false} RepresentAlike(ds: seq<Decision>, ds': seq<Decision>)
    requires AlikeDecisions(ds, ds')
    ensures Compatible(ds') <==> Compatible(ds)
    ensures forall d :: Represents(d, ds') <==> Represents(d, ds)
  {
    SayAlike(ds, ds', StatusTrue);
    SayAlike(ds, ds', StatusFalse);
    forall on, key
      ensures Lists(ds', on, key) == Lists(ds, on, key)
    {
      ListsAlike(ds, ds', on, key);
    }
    hide Lists, Says, Clash, RepresentsKey, AlikeDecisions;
    forall on
      ensures ClashFree(ds', on) <==> ClashFree(ds, on)
    {
    }
  }

  /** The decisions stand for the rules. */
  ghost predicate Decides(config: map<string, Decision>, rules: seq<Rule>, policySet: string) {
    Reflects(config, PoliciesOf(rules, policySet), rules, policySet)
  }

  lemma {:induction false} ReflectAlike(rules: seq<Rule>, rules': seq<Rule>, policySet: string)
    requires Alike(rules, rules', policySet)
    ensures Consistent(rules', policySet) <==> Consistent(rules, policySet)
    ensures forall config :: Decides(config, rules', policySet) <==> Decides(config, rules, policySet)
  {
    forall c
      ensures Compatible(DecisionsFor(rules', policySet, c)) <==> Compatible(DecisionsFor(rules, policySet, c))
      ensures DecisionsFor(rules', policySet, c) == [] <==> DecisionsFor(rules, policySet, c) == []
      ensures forall d ::
        Represents(d, DecisionsFor(rules', policySet, c)) <==> Represents(d, DecisionsFor(rules, policySet, c))
    {
      DecideAlike(rules, rules', policySet, c);
      RepresentAlike(DecisionsFor(rules, policySet, c), DecisionsFor(rules', policySet, c));
    }
    hide Compatible, Represents, DecisionsFor, PoliciesOf, Alike;
  }

  /** The evaluation gives these decisions, whatever policies it records. */
  ghost predicate Gives(config: map<string, Decision>, rules: seq<Rule>, policySet: string) {
    exists policies :: Evaluated(config, policies, rules, policySet)
  }

  lemma {:induction false} StoppedAlike(
    config: map<string, Decision>, policies: seq<Policy>, seen: seq<Rule>, seen': seq<Rule>, rule: Rule, rule': Rule,
    policySet: string)
    requires Alike(seen, seen', policySet) && AlikeRule(rule, rule', policySet)
    requires Stopped(config, policies, seen, rule, policySet)
    ensures exists policies' :: Stopped(config, policies', seen', rule', policySet)
  {
    ReflectAlike(seen, seen', policySet);
    var held, before :| StoppedFrom(held, before, config, policies, seen, rule, policySet);
    assert before == PoliciesOf(seen, policySet);
    assert Decides(held, seen, policySet) && Decides(held, seen', policySet);
    LeftAlike(held[rule.capability], rule.decision, rule'.decision, config[rule.capability]);
    hide Reflects, PoliciesOf, Applies, IsLeft, AlikeDecision;
    var before' := PoliciesOf(seen', policySet);
    var policies' := before' + [rule'.decision.policy];
    assert StoppedFrom(held, before', config, policies', seen', rule', policySet);
    assert Stopped(config, policies', seen', rule', policySet);
  }

  lemma {:induction false} LeftAlike(held: Decision, d: Decision, d': Decision, left: Decision)
    requires AlikeDecision(d, d') && IsLeft(held, WithDefaults(d), left)
    ensures IsLeft(held, WithDefaults(d'), left)
  {
    hide PartlyMerged;
    assert forall on :: RestrictionOn(WithDefaults(d'), on) == RestrictionOn(WithDefaults(d), on);
  }

  lemma {:induction false} GiveAlike(
    config: map<string, Decision>, rules: seq<Rule>, rules': seq<Rule>, policySet: string)
    requires Alike(rules, rules', policySet) && Gives(config, rules, policySet)
    ensures Gives(config, rules', policySet)
  {
    ReflectAlike(rules, rules', policySet);
    var policies :| Evaluated(config, policies, rules, policySet);
    hide Consistent, Stopped, AlikeRule, Alike;
    if Consistent(rules, policySet) {
      assert policies == PoliciesOf(rules, policySet);
      assert Decides(config, rules, policySet) && Decides(config, rules', policySet);
      hide Reflects;
      assert Evaluated(config, PoliciesOf(rules', policySet), rules', policySet);
    } else {
      var n: nat :| FirstConflict(rules, policySet, n) && Stopped(config, policies, rules[..n], rules[n], policySet);
      GiveAlikeStopped(config, policies, rules, rules', policySet, n);
    }
  }

  lemma {:induction false} GiveAlikeStopped(
    config: map<string, Decision>, policies: seq<Policy>, rules: seq<Rule>, rules': seq<Rule>, policySet: string,
    n: nat)
    requires Alike(rules, rules', policySet) && !Consistent(rules', policySet) && FirstConflict(rules, policySet, n)
    requires Stopped(config, policies, rules[..n], rules[n], policySet)
    ensures Gives(config, rules', policySet)
  {
    hide Consistent, Stopped, AlikeRule, Reflects;
    assert Alike(rules[..n], rules'[..n], policySet) && Alike(rules[..n + 1], rules'[..n + 1], policySet);
    hide Alike;
    ReflectAlike(rules[..n], rules'[..n], policySet);
    ReflectAlike(rules[..n + 1], rules'[..n + 1], policySet);
    assert FirstConflict(rules', policySet, n);
    StoppedAlike(config, policies, rules[..n], rules'[..n], rules[n], rules'[n], policySet);
    var policies' :| Stopped(config, policies', rules'[..n], rules'[n], policySet);
    assert Evaluated(config, policies', rules', policySet);
  }

  /** Rules of the workload's own policy set decide just what the same rules without a set decide. */
  lemma {:induction false} OwnSetIsNoSet(config: map<string, Decision>, rules: seq<Rule>, policySet: string)
    ensures Consistent(UnsetOwn(rules, policySet), policySet) <==> Consistent(rules, policySet)
    ensures Gives(config, UnsetOwn(rules, policySet), policySet) <==> Gives(config, rules, policySet)
  {
    var own := UnsetOwn(rules, policySet);
    forall i | 0 <= i < |rules|
      ensures AlikeRule(rules[i], own[i], policySet) && AlikeRule(own[i], rules[i], policySet)
    {
      ForeignExactly(rules[i], policySet);
      ForeignExactly(own[i], policySet);
    }
    hide AlikeRule, Gives, Consistent;
    assert Alike(rules, own, policySet) && Alike(own, rules, policySet);
    ReflectAlike(rules, own, policySet);
    if Gives(config, rules, policySet) {
      GiveAlike(config, rules, own, policySet);
    }
    if Gives(config, own, policySet) {
      GiveAlike(config, own, rules, policySet);
    }
  }
}
