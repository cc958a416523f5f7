/**
 * When the order in which config policies are merged matters (pkg/adminconfig/rego_file_evaluator.go): a list
 * of no values is overlooked before, and is a conflict after, a list of values for the same key.
 */
module PolicyOrder {
  import opened Prelude
  import opened AdminPolicies

  // ---------------------------------------------------------------------------------------------
  // Conflicts, rule by rule
  // ---------------------------------------------------------------------------------------------

  ghost predicate Gives(r: Rule, policySet: string, c: string, on: Resource, key: string) {
    Applies(r, policySet) && r.capability == c && key in RestrictionOn(r.decision, on)
  }

  ghost predicate GivesBlank(r: Rule, policySet: string, c: string, on: Resource, key: string) {
    Gives(r, policySet, c, on, key) && RestrictionOn(r.decision, on)[key] == []
  }

  ghost predicate GivesValues(r: Rule, policySet: string, c: string, on: Resource, key: string) {
    Gives(r, policySet, c, on, key) && RestrictionOn(r.decision, on)[key] != []
  }

  ghost predicate MustPrecedeOn(r: Rule, s: Rule, policySet: string, on: Resource, key: string) {
    GivesBlank(r, policySet, r.capability, on, key) && GivesValues(s, policySet, r.capability, on, key)
  }

  /** The rules conflict unless `r` comes before `s`. */
  ghost predicate MustPrecede(r: Rule, s: Rule, policySet: string) {
    exists on, key :: MustPrecedeOn(r, s, policySet, on, key)
  }

  ghost predicate InOrder(rules: seq<Rule>, policySet: string) {
    forall i, j :: 0 <= i < j < |rules| ==> !MustPrecede(rules[j], rules[i], policySet)
  }

  ghost predicate Demands(r: Rule, policySet: string, c: string, status: DeploymentStatus) {
    Applies(r, policySet) && r.capability == c && r.decision.deploy == status
  }

  /** Some rule with values for the key leaves out `v`. */
  ghost predicate RuledOut(rules: set<Rule>, policySet: string, c: string, on: Resource, key: string, v: string) {
    exists r :: r in rules && GivesValues(r, policySet, c, on, key) && v !in RestrictionOn(r.decision, on)[key]
  }

  ghost predicate SomeValues(rules: set<Rule>, policySet: string, c: string, on: Resource, key: string) {
    exists r :: r in rules && GivesValues(r, policySet, c, on, key)
  }

  ghost predicate NothingShared(rules: set<Rule>, policySet: string, c: string, on: Resource, key: string) {
    SomeValues(rules, policySet, c, on, key) && forall v :: RuledOut(rules, policySet, c, on, key, v)
  }

  ghost predicate Demanded(rules: set<Rule>, policySet: string, c: string, status: DeploymentStatus) {
    exists r :: r in rules && Demands(r, policySet, c, status)
  }

  ghost predicate NoKeyShared(rules: set<Rule>, policySet: string, c: string) {
    exists on, key :: NothingShared(rules, policySet, c, on, key)
  }

  /** The rules conflict in every order: over deployment, or over values that have none in common. */
  ghost predicate Hopeless(rules: set<Rule>, policySet: string) {
    exists c :: HopelessFor(rules, policySet, c)
  }

  ghost predicate HopelessFor(rules: set<Rule>, policySet: string, c: string) {
    || (Demanded(rules, policySet, c, StatusTrue) && Demanded(rules, policySet, c, StatusFalse))
    || NoKeyShared(rules, policySet, c)
  }

  ghost predicate Ordered(rules: seq<Rule>, policySet: string, c: string) {
    forall on, key :: !BlankAfter(rules, policySet, c, on, key)
  }

  ghost predicate BlankAfter(rules: seq<Rule>, policySet: string, c: string, on: Resource, key: string) {
    exists i, j :: 0 <= i < j < |rules| &&
      GivesValues(rules[i], policySet, c, on, key) && GivesBlank(rules[j], policySet, c, on, key)
  }

  ghost function ListsFor(rules: seq<Rule>, policySet: string, c: string, on: Resource, key: string): seq<seq<string>> {
    Lists(DecisionsFor(rules, policySet, c), on, key)
  }

  ghost predicate GivenBy(rules: seq<Rule>, policySet: string, c: string, on: Resource, key: string, l: seq<string>) {
    exists r :: r in rules && GivesValues(r, policySet, c, on, key) && RestrictionOn(r.decision, on)[key] == l
  }

  lemma {:induction false} ListsForSnoc(
    init: seq<Rule>, x: Rule, policySet: string, c: string, on: Resource, key: string)
    ensures ListsFor(init + [x], policySet, c, on, key) ==
      ListsFor(init, policySet, c, on, key) +
      if Gives(x, policySet, c, on, key) then [RestrictionOn(x.decision, on)[key]] else []
  {
    assert (init + [x])[..|init|] == init;
    var ds := DecisionsFor(init, policySet, c);
    var d := WithDefaults(x.decision);
    assert d.restrictions == x.decision.restrictions;
    assert RestrictionOn(d, on) == RestrictionOn(x.decision, on);
    if x.capability == c && Applies(x, policySet) {
      assert DecisionsFor(init + [x], policySet, c) == ds + [d];
      assert (ds + [d])[..|ds|] == ds;
    } else {
      assert DecisionsFor(init + [x], policySet, c) == ds;
    }
  }

  lemma {:induction false} BlankAfterSnoc(
    init: seq<Rule>, x: Rule, policySet: string, c: string, on: Resource, key: string)
    ensures BlankAfter(init + [x], policySet, c, on, key) <==>
      || BlankAfter(init, policySet, c, on, key)
      || (GivesBlank(x, policySet, c, on, key) && exists r :: r in init && GivesValues(r, policySet, c, on, key))
  {
    hide GivesBlank, GivesValues;
    var rules := init + [x];
    assert forall i :: 0 <= i < |init| ==> rules[i] == init[i];
    assert rules[|init|] == x;
  }

  lemma {:induction false} EffectiveSnoc(lists: seq<seq<string>>, l: seq<string>)
    ensures Effective(lists + [l]) == if Effective(lists) == [] && l == [] then [] else Effective(lists) + [l]
  {
    assert (lists + [l])[..|lists|] == lists;
  }

  lemma {:induction false} GivenBySnoc(
    init: seq<Rule>, x: Rule, policySet: string, c: string, on: Resource, key: string, l: seq<string>)
    ensures GivenBy(init + [x], policySet, c, on, key, l) <==>
      || GivenBy(init, policySet, c, on, key, l)
      || (GivesValues(x, policySet, c, on, key) && RestrictionOn(x.decision, on)[key] == l)
  {
    assert forall r :: r in init + [x] <==> r in init || r == x;
  }

  ghost predicate Kept(
    rules: seq<Rule>, policySet: string, c: string, on: Resource, key: string, kept: seq<seq<string>>)
  {
    if BlankAfter(rules, policySet, c, on, key) then [] in kept
    else forall l :: l in kept <==> GivenBy(rules, policySet, c, on, key, l)
  }

  /** What the fold over the lists for a key has kept: the lists of values, and a blank only after one of them. */
  lemma {:induction false} EffectiveExactly(rules: seq<Rule>, policySet: string, c: string, on: Resource, key: string)
    ensures Kept(rules, policySet, c, on, key, Effective(ListsFor(rules, policySet, c, on, key)))
  {
    if rules != [] {
      var (init, x) := (rules[..|rules| - 1], rules[|rules| - 1]);
      assert rules == init + [x];
      EffectiveExactly(init, policySet, c, on, key);
      ListsForSnoc(init, x, policySet, c, on, key);
      var lists := ListsFor(init, policySet, c, on, key);
      if Gives(x, policySet, c, on, key) {
        EffectiveSnoc(lists, RestrictionOn(x.decision, on)[key]);
      } else {
        assert lists + [] == lists;
      }
      hide ListsFor, Effective;
      KeptSnoc(init, x, policySet, c, on, key, Effective(lists), Effective(ListsFor(rules, policySet, c, on, key)));
    }
  }

  lemma {:induction false} KeptSnoc(
    init: seq<Rule>, x: Rule, policySet: string, c: string, on: Resource, key: string,
    kept: seq<seq<string>>, kept': seq<seq<string>>)
    requires Kept(init, policySet, c, on, key, kept)
    requires kept' ==
      if !Gives(x, policySet, c, on, key) then kept
      else if kept == [] && GivesBlank(x, policySet, c, on, key) then []
      else kept + [RestrictionOn(x.decision, on)[key]]
    ensures Kept(init + [x], policySet, c, on, key, kept')
  {
    BlankAfterSnoc(init, x, policySet, c, on, key);
    forall l
      ensures GivenBy(init + [x], policySet, c, on, key, l) <==>
        || GivenBy(init, policySet, c, on, key, l)
        || (GivesValues(x, policySet, c, on, key) && RestrictionOn(x.decision, on)[key] == l)
    {
      GivenBySnoc(init, x, policySet, c, on, key, l);
    }
    NoneGiven(init, policySet, c, on, key, kept);
    hide BlankAfter, GivenBy;
  }

  lemma {:induction false} NoneGiven(
    rules: seq<Rule>, policySet: string, c: string, on: Resource, key: string, kept: seq<seq<string>>)
    requires Kept(rules, policySet, c, on, key, kept)
    ensures kept == [] <==> !exists r :: r in rules && GivesValues(r, policySet, c, on, key)
  {
    if BlankAfter(rules, policySet, c, on, key) {
      var i, j :| 0 <= i < j < |rules| &&
        GivesValues(rules[i], policySet, c, on, key) && GivesBlank(rules[j], policySet, c, on, key);
      assert rules[i] in rules;
    } else if r :| r in rules && GivesValues(r, policySet, c, on, key) {
      assert GivenBy(rules, policySet, c, on, key, RestrictionOn(r.decision, on)[key]);
    }
    if kept != [] {
      assert kept[0] in kept;
    }
  }

  // ---------------------------------------------------------------------------------------------
  // When rules are free of conflict in a given order
  // ---------------------------------------------------------------------------------------------

  lemma {:induction false} ClashExactly(rules: seq<Rule>, policySet: string, c: string, on: Resource, key: string)
    ensures Clash(ListsFor(rules, policySet, c, on, key)) <==>
      BlankAfter(rules, policySet, c, on, key) || NothingShared(SetOf(rules), policySet, c, on, key)
  {
    var kept := Effective(ListsFor(rules, policySet, c, on, key));
    EffectiveExactly(rules, policySet, c, on, key);
    NoneGiven(rules, policySet, c, on, key, kept);
    SharedByAll(kept);
    hide ListsFor, Effective, Shared, BlankAfter;
    assert forall r :: r in rules <==> r in SetOf(rules);
    if BlankAfter(rules, policySet, c, on, key) {
      assert forall v :: v !in Shared(kept);
    } else {
      forall v
        ensures v in Shared(kept) <==> kept != [] && !RuledOut(SetOf(rules), policySet, c, on, key, v)
      {
        KeptAndRuledOut(rules, policySet, c, on, key, kept, v);
      }
      hide RuledOut, Kept;
      assert kept != [] <==> SomeValues(SetOf(rules), policySet, c, on, key);
      assert Shared(kept) == {} <==> forall v :: v !in Shared(kept);
    }
  }

  lemma {:induction false} KeptAndRuledOut(
    rules: seq<Rule>, policySet: string, c: string, on: Resource, key: string, kept: seq<seq<string>>, v: string)
    requires Kept(rules, policySet, c, on, key, kept) && !BlankAfter(rules, policySet, c, on, key)
    ensures (forall l :: l in kept ==> v in l) <==> !RuledOut(SetOf(rules), policySet, c, on, key, v)
  {
    assert forall r :: r in rules <==> r in SetOf(rules);
    if r :| r in SetOf(rules) && GivesValues(r, policySet, c, on, key) && v !in RestrictionOn(r.decision, on)[key] {
      assert GivenBy(rules, policySet, c, on, key, RestrictionOn(r.decision, on)[key]);
    }
    if l :| l in kept && v !in l {
      assert GivenBy(rules, policySet, c, on, key, l);
    }
  }

  lemma {:induction false} DemandExactly(rules: seq<Rule>, policySet: string, c: string, status: DeploymentStatus)
    requires status in {StatusTrue, StatusFalse}
    ensures Says(DecisionsFor(rules, policySet, c), status) <==> Demanded(SetOf(rules), policySet, c, status)
  {
    var ds := DecisionsFor(rules, policySet, c);
    DecisionsAreDecided(rules, policySet, c);
    SaysMembers(ds, status);
    if d :| d in ds && d.deploy == status {
      var i :| 0 <= i < |rules| && rules[i].capability == c && Applies(rules[i], policySet) &&
        WithDefaults(rules[i].decision) == d;
      assert rules[i] in SetOf(rules) && Demands(rules[i], policySet, c, status);
    }
    if r :| r in SetOf(rules) && Demands(r, policySet, c, status) {
      var i :| 0 <= i < |rules| && rules[i] == r;
      assert Decided(rules, policySet, c, WithDefaults(r.decision));
    }
  }

  lemma {:induction false} OutOfOrder(rules: seq<Rule>, policySet: string)
    ensures InOrder(rules, policySet) <==> forall c :: Ordered(rules, policySet, c)
  {
    hide GivesBlank, GivesValues;
    if !InOrder(rules, policySet) {
      var i, j :| 0 <= i < j < |rules| && MustPrecede(rules[j], rules[i], policySet);
      var on, key :| MustPrecedeOn(rules[j], rules[i], policySet, on, key);
      assert BlankAfter(rules, policySet, rules[j].capability, on, key);
      assert !Ordered(rules, policySet, rules[j].capability);
    }
    if c :| !Ordered(rules, policySet, c) {
      var on, key :| BlankAfter(rules, policySet, c, on, key);
      var i, j :| 0 <= i < j < |rules| &&
        GivesValues(rules[i], policySet, c, on, key) && GivesBlank(rules[j], policySet, c, on, key);
      SameCapability(rules[j], policySet, c, on, key);
      assert MustPrecedeOn(rules[j], rules[i], policySet, on, key);
      assert MustPrecede(rules[j], rules[i], policySet);
    }
  }

  lemma {:induction false} SameCapability(r: Rule, policySet: string, c: string, on: Resource, key: string)
    requires GivesBlank(r, policySet, c, on, key)
    ensures r.capability == c
  {
  }

  /** Rules are free of conflict exactly if there is hope for them and no blank list comes after a list of values. */
  lemma {:induction false} ConsistentExactly(rules: seq<Rule>, policySet: string)
    ensures Consistent(rules, policySet) <==> !Hopeless(SetOf(rules), policySet) && InOrder(rules, policySet)
  {
    OutOfOrder(rules, policySet);
    forall c
      ensures Compatible(DecisionsFor(rules, policySet, c)) <==>
        !HopelessFor(SetOf(rules), policySet, c) && Ordered(rules, policySet, c)
    {
      DemandExactly(rules, policySet, c, StatusTrue);
      DemandExactly(rules, policySet, c, StatusFalse);
      ClashFreeExactly(rules, policySet, c, DecisionsFor(rules, policySet, c));
      hide Says, Demanded, NoKeyShared, Ordered, ClashFree, DecisionsFor;
    }
    hide Compatible, HopelessFor, Ordered, DecisionsFor, InOrder;
  }

  lemma {:induction false} ClashFreeExactly(rules: seq<Rule>, policySet: string, c: string, ds: seq<Decision>)
    requires ds == DecisionsFor(rules, policySet, c)
    ensures (forall on :: ClashFree(ds, on)) <==>
      !NoKeyShared(SetOf(rules), policySet, c) && Ordered(rules, policySet, c)
  {
    forall on, key
      ensures Clash(Lists(ds, on, key)) <==>
        BlankAfter(rules, policySet, c, on, key) || NothingShared(SetOf(rules), policySet, c, on, key)
    {
      ClashExactly(rules, policySet, c, on, key);
    }
    hide Clash, Lists, DecisionsFor, BlankAfter, NothingShared;
    if NoKeyShared(SetOf(rules), policySet, c) {
      var on, key :| NothingShared(SetOf(rules), policySet, c, on, key);
      assert Clash(Lists(ds, on, key));
      assert !ClashFree(ds, on);
    }
    if !Ordered(rules, policySet, c) {
      var on, key :| BlankAfter(rules, policySet, c, on, key);
      assert Clash(Lists(ds, on, key));
      assert !ClashFree(ds, on);
    }
    if !NoKeyShared(SetOf(rules), policySet, c) && Ordered(rules, policySet, c) {
      forall on
        ensures ClashFree(ds, on)
      {
        forall key
          ensures !Clash(Lists(ds, on, key))
        {
          assert !BlankAfter(rules, policySet, c, on, key) && !NothingShared(SetOf(rules), policySet, c, on, key);
        }
      }
    }
  }

  // ---------------------------------------------------------------------------------------------
  // Different orders
  // ---------------------------------------------------------------------------------------------

  /** Among any of the rules there is one that none of the others must precede. */
  ghost predicate Orderable(rules: set<Rule>, policySet: string) {
    forall some: set<Rule> :: some <= rules && some != {} ==> HasFirst(some, policySet)
  }

  ghost predicate HasFirst(some: set<Rule>, policySet: string) {
    exists r :: r in some && forall s :: s in some ==> !MustPrecede(s, r, policySet)
  }

  ghost predicate NoneMustPrecede(rules: set<Rule>, policySet: string) {
    forall r, s :: r in rules && s in rules ==> !MustPrecede(r, s, policySet)
  }

  lemma {:induction false} NotItself(r: Rule, policySet: string)
    ensures !MustPrecede(r, r, policySet)
  {
  }

  lemma {:induction false} SameMembers<T>(a: seq<T>, b: seq<T>)
    requires Permutation(a, b)
    ensures SetOf(a) == SetOf(b) && |a| == |b|
  {
    assert |a| == |multiset(a)| == |multiset(b)| == |b|;
    assert forall x :: x in a ==> x in multiset(a) && x in multiset(b) && x in b;
    assert forall x :: x in b ==> x in multiset(b) && x in multiset(a) && x in a;
  }

  lemma {:induction false} ToTheFront(rules: seq<Rule>, i: nat)
    requires i < |rules|
    ensures Permutation([rules[i]] + (rules[..i] + rules[i + 1..]), rules)
    ensures SetOf(rules[..i] + rules[i + 1..]) <= SetOf(rules)
  {
    assert rules == rules[..i] + [rules[i]] + rules[i + 1..];
    var rest := rules[..i] + rules[i + 1..];
    var moved := [rules[i]] + rest;
    SameMembers(moved, rules);
    assert forall r :: r in rest ==> r in moved;
  }

  /** Rules that can be put in order, in such an order. */
  lemma {:induction false} PutInOrder(rules: seq<Rule>, policySet: string) returns (p: seq<Rule>)
    requires Orderable(SetOf(rules), policySet)
    ensures Permutation(p, rules) && InOrder(p, policySet)
    decreases |rules|
  {
    if rules == [] {
      return [];
    }
    hide MustPrecede;
    assert rules[0] in SetOf(rules);
    assert HasFirst(SetOf(rules), policySet);
    var r :| r in SetOf(rules) && forall s :: s in SetOf(rules) ==> !MustPrecede(s, r, policySet);
    var i :| 0 <= i < |rules| && rules[i] == r;
    var rest := rules[..i] + rules[i + 1..];
    ToTheFront(rules, i);
    var q := PutInOrder(rest, policySet);
    SameMembers(q, rest);
    p := [r] + q;
    assert multiset(p) == multiset{r} + multiset(q) == multiset{r} + multiset(rest) == multiset([r] + rest);
    FirstInOrder(r, q, policySet);
  }

  lemma {:induction false} FirstInOrder(r: Rule, q: seq<Rule>, policySet: string)
    requires InOrder(q, policySet) && forall s :: s in SetOf(q) ==> !MustPrecede(s, r, policySet)
    ensures InOrder([r] + q, policySet)
  {
    hide MustPrecede;
    var p := [r] + q;
    forall a, b | 0 <= a < b < |p|
      ensures !MustPrecede(p[b], p[a], policySet)
    {
      assert p[b] == q[b - 1] && q[b - 1] in SetOf(q);
      if a > 0 {
        assert p[a] == q[a - 1];
      }
    }
  }

  lemma {:induction false} OrderedIsOrderable(p: seq<Rule>, policySet: string)
    requires InOrder(p, policySet)
    ensures Orderable(SetOf(p), policySet)
  {
    hide MustPrecede;
    forall some: set<Rule> | some <= SetOf(p) && some != {}
      ensures HasFirst(some, policySet)
    {
      var i := FirstOf(p, some);
      forall s | s in some
        ensures !MustPrecede(s, p[i], policySet)
      {
        var j :| 0 <= j < |p| && p[j] == s;
        if j == i {
          NotItself(s, policySet);
        }
      }
    }
  }

  lemma {:induction false} FirstOf(p: seq<Rule>, some: set<Rule>) returns (i: nat)
    requires some <= SetOf(p) && some != {}
    ensures i < |p| && p[i] in some && forall j :: 0 <= j < i ==> p[j] !in some
  {
    var r :| r in some;
    var k :| 0 <= k < |p| && p[k] == r;
    i := 0;
    while p[i] !in some
      invariant 0 <= i <= k && forall j :: 0 <= j < i ==> p[j] !in some
      decreases k - i
    {
      i := i + 1;
    }
  }

  /** A rule that must come first, put second. */
  lemma {:induction false} PutOutOfOrder(rules: seq<Rule>, policySet: string) returns (p: seq<Rule>)
    requires !NoneMustPrecede(SetOf(rules), policySet)
    ensures Permutation(p, rules) && !InOrder(p, policySet)
  {
    var r, s :| r in SetOf(rules) && s in SetOf(rules) && MustPrecede(r, s, policySet);
    NotItself(r, policySet);
    hide MustPrecede;
    var i :| 0 <= i < |rules| && rules[i] == s;
    var rest := rules[..i] + rules[i + 1..];
    p := [s] + rest;
    ToTheFront(rules, i);
    SameMembers(p, rules);
    assert r in p;
    var j :| 0 <= j < |p| && p[j] == r;
    assert MustPrecede(p[j], p[0], policySet);
  }

  /**
   * All orders of the rules agree on whether they conflict exactly if they conflict in every order (because
   * there is no hope for them, or because they cannot be put in order) or no rule must precede another.
   */
  lemma {:induction false} OrderFreeExactly(rules: seq<Rule>, policySet: string)
    ensures (forall p :: Permutation(p, rules) ==> (Consistent(p, policySet) <==> Consistent(rules, policySet))) <==>
      || Hopeless(SetOf(rules), policySet)
      || !Orderable(SetOf(rules), policySet) || NoneMustPrecede(SetOf(rules), policySet)
  {
    hide Consistent, Hopeless, Orderable, NoneMustPrecede, InOrder;
    forall p | Permutation(p, rules)
      ensures SetOf(p) == SetOf(rules)
      ensures Consistent(p, policySet) <==> !Hopeless(SetOf(rules), policySet) && InOrder(p, policySet)
      ensures InOrder(p, policySet) ==> Orderable(SetOf(rules), policySet)
      ensures NoneMustPrecede(SetOf(rules), policySet) ==> InOrder(p, policySet)
    {
      SameMembers(p, rules);
      ConsistentExactly(p, policySet);
      if InOrder(p, policySet) {
        OrderedIsOrderable(p, policySet);
      }
      if NoneMustPrecede(SetOf(p), policySet) {
        AlwaysInOrder(p, policySet);
      }
    }
    assert Permutation(rules, rules);
    if Orderable(SetOf(rules), policySet) &&
       !NoneMustPrecede(SetOf(rules), policySet) && !Hopeless(SetOf(rules), policySet) {
      var p := PutInOrder(rules, policySet);
      var q := PutOutOfOrder(rules, policySet);
      assert Consistent(p, policySet) && !Consistent(q, policySet);
    }
  }

  lemma {:induction false} AlwaysInOrder(p: seq<Rule>, policySet: string)
    requires NoneMustPrecede(SetOf(p), policySet)
    ensures InOrder(p, policySet)
  {
    hide MustPrecede;
    forall i, j | 0 <= i < j < |p|
      ensures !MustPrecede(p[j], p[i], policySet)
    {
      assert p[i] in SetOf(p) && p[j] in SetOf(p);
    }
  }

  /** Rules that do not conflict give the same decisions in every order in which they do not conflict. */
  lemma {:induction false} DecisionsAreOrderFree(rules: seq<Rule>, rules': seq<Rule>, policySet: string,
                                                 config: map<string, Decision>, policies: seq<Policy>,
                                                 config': map<string, Decision>, policies': seq<Policy>)
    requires SetOf(rules) == SetOf(rules') && Consistent(rules, policySet) && Consistent(rules', policySet)
    requires Reflects(config, policies, rules, policySet) && Reflects(config', policies', rules', policySet)
    ensures SameConfig(config, config')
  {
    ConsistentExactly(rules, policySet);
    ConsistentExactly(rules', policySet);
    OutOfOrder(rules, policySet);
    OutOfOrder(rules', policySet);
    hide Consistent, Hopeless, InOrder;
    forall c
      ensures (c in config <==> c in config') && (c in config ==> SameDecision(config[c], config'[c]))
    {
      var (ds, ds') := (DecisionsFor(rules, policySet, c), DecisionsFor(rules', policySet, c));
      SameRulesDecideAlike(rules, rules', policySet, c);
      assert ds != [] ==> ds[0] in ds';
      assert ds' != [] ==> ds'[0] in ds;
      if c in config {
        assert Represents(config[c], ds) && Represents(config'[c], ds');
        assert Ordered(rules, policySet, c) && Ordered(rules', policySet, c);
        hide Reflects;
        SameDecisions(rules, rules', policySet, c, config[c], config'[c]);
      }
    }
  }

  lemma {:induction false} SameDecisions(
    rules: seq<Rule>, rules': seq<Rule>, policySet: string, c: string, d: Decision, d': Decision)
    requires SetOf(rules) == SetOf(rules') && Ordered(rules, policySet, c) && Ordered(rules', policySet, c)
    requires Represents(d, DecisionsFor(rules, policySet, c)) && Represents(d', DecisionsFor(rules', policySet, c))
    ensures SameDecision(d, d')
  {
    DemandExactly(rules, policySet, c, StatusTrue);
    DemandExactly(rules, policySet, c, StatusFalse);
    DemandExactly(rules', policySet, c, StatusTrue);
    DemandExactly(rules', policySet, c, StatusFalse);
    forall on, key
      ensures SameKey(RestrictionOn(d, on), RestrictionOn(d', on), key)
    {
      assert !BlankAfter(rules, policySet, c, on, key) && !BlankAfter(rules', policySet, c, on, key);
      assert RepresentsKey(RestrictionOn(d, on), key, Lists(DecisionsFor(rules, policySet, c), on, key));
      assert RepresentsKey(RestrictionOn(d', on), key, Lists(DecisionsFor(rules', policySet, c), on, key));
      SameLists(rules, rules', policySet, c, on, key);
    }
  }

  lemma {:induction false} SameLists(
    rules: seq<Rule>, rules': seq<Rule>, policySet: string, c: string, on: Resource, key: string)
    requires SetOf(rules) == SetOf(rules')
    requires !BlankAfter(rules, policySet, c, on, key) && !BlankAfter(rules', policySet, c, on, key)
    ensures
      var (l, l') := (Lists(DecisionsFor(rules, policySet, c), on, key),
                      Lists(DecisionsFor(rules', policySet, c), on, key));
      (l != [] <==> l' != []) && Shared(Effective(l)) == Shared(Effective(l'))
  {
    EffectiveExactly(rules, policySet, c, on, key);
    EffectiveExactly(rules', policySet, c, on, key);
    SameKept(rules, rules', policySet, c, on, key, Effective(ListsFor(rules, policySet, c, on, key)),
             Effective(ListsFor(rules', policySet, c, on, key)));
    SameGiven(DecisionsFor(rules, policySet, c), DecisionsFor(rules', policySet, c), on, key) by {
      SameRulesDecideAlike(rules, rules', policySet, c);
    }
  }

  lemma {:induction false} SameKept(
    rules: seq<Rule>, rules': seq<Rule>, policySet: string, c: string, on: Resource, key: string,
    kept: seq<seq<string>>, kept': seq<seq<string>>)
    requires SetOf(rules) == SetOf(rules')
    requires !BlankAfter(rules, policySet, c, on, key) && !BlankAfter(rules', policySet, c, on, key)
    requires Kept(rules, policySet, c, on, key, kept) && Kept(rules', policySet, c, on, key, kept')
    ensures Shared(kept) == Shared(kept')
  {
    hide BlankAfter, GivesValues;
    forall r
      ensures r in rules <==> r in rules'
    {
      assert (r in SetOf(rules) <==> r in rules) && (r in SetOf(rules') <==> r in rules');
    }
    forall l
      ensures l in kept <==> l in kept'
    {
      assert GivenBy(rules, policySet, c, on, key, l) <==> GivenBy(rules', policySet, c, on, key, l);
    }
    hide Kept;
    assert (kept != [] ==> kept[0] in kept') && (kept' != [] ==> kept'[0] in kept);
    SharedByAll(kept);
    SharedByAll(kept');
  }

  lemma {:induction false} SameGiven(ds: seq<Decision>, ds': seq<Decision>, on: Resource, key: string)
    requires forall d :: d in ds <==> d in ds'
    ensures Lists(ds, on, key) != [] <==> Lists(ds', on, key) != []
  {
    var (l, l') := (Lists(ds, on, key), Lists(ds', on, key));
    ListsAreGiven(ds, on, key);
    ListsAreGiven(ds', on, key);
    hide Lists;
    if l != [] {
      assert l[0] in l;
      var d :| d in ds && key in RestrictionOn(d, on) && RestrictionOn(d, on)[key] == l[0];
      assert l[0] in l';
    }
    if l' != [] {
      assert l'[0] in l';
      var d :| d in ds' && key in RestrictionOn(d, on) && RestrictionOn(d, on)[key] == l'[0];
      assert l'[0] in l;
    }
  }

  /**
   * If no rule must precede another, the same rules in any order, even repeated, give the same verdict and decisions.
   */
  lemma {:induction false} OrderIsIrrelevant(rules: seq<Rule>, rules': seq<Rule>, policySet: string,
                                             config: map<string, Decision>, policies: seq<Policy>,
                                             config': map<string, Decision>, policies': seq<Policy>)
    requires NoneMustPrecede(SetOf(rules), policySet) && SetOf(rules) == SetOf(rules')
    ensures Consistent(rules, policySet) <==> Consistent(rules', policySet)
    ensures Consistent(rules, policySet) &&
            Reflects(config, policies, rules, policySet) && Reflects(config', policies', rules', policySet) ==>
              SameConfig(config, config')
  {
    ConsistentExactly(rules, policySet);
    ConsistentExactly(rules', policySet);
    AlwaysInOrder(rules, policySet);
    AlwaysInOrder(rules', policySet);
    hide Consistent, Hopeless, InOrder, NoneMustPrecede, Reflects, SameConfig;
    if Consistent(rules, policySet) &&
       Reflects(config, policies, rules, policySet) && Reflects(config', policies', rules', policySet) {
      DecisionsAreOrderFree(rules, rules', policySet, config, policies, config', policies');
    }
  }

  /** Two rules that restrict the regions of one capability, one of them to nothing. */
  ghost function RegionRule(values: seq<string>): Rule {
    Rule("read", Decision(StatusUnknown, Restrictions(map["metadata.region" := values], map[], map[]), NO_POLICY))
  }

  lemma {:induction false} EmptyListDependsOnOrder(policySet: string)
    ensures Consistent([RegionRule([]), RegionRule(["eu"])], policySet)
    ensures !Consistent([RegionRule(["eu"]), RegionRule([])], policySet)
  {
    var (blank, eu) := (RegionRule([]), RegionRule(["eu"]));
    var (good, bad) := ([blank, eu], [eu, blank]);
    ConsistentExactly(good, policySet);
    ConsistentExactly(bad, policySet);
    hide Consistent;
    assert MustPrecedeOn(bad[1], bad[0], policySet, Clusters, "metadata.region");
    assert MustPrecede(bad[1], bad[0], policySet);
    assert !MustPrecede(good[1], good[0], policySet);
    assert SetOf(good) == {blank, eu};
    forall c
      ensures !HopelessFor(SetOf(good), policySet, c)
    {
      forall on, key
        ensures !NothingShared(SetOf(good), policySet, c, on, key)
      {
        assert !RuledOut(SetOf(good), policySet, c, on, key, "eu");
      }
    }
  }
}
