/**
 * Merging the answers of several policy managers (pkg/connectors/policymanager/clients/policymanager.go):
 * decisions about the same dataset and operation become one.
 */
module PolicyCompaction {

  datatype AccessType = Unknown | Read | Copy | Write

  datatype Operation = Operation(kind: AccessType, destination: string)

  datatype Level = UnknownLevel | DatasetLevel | ColumnLevel | RowLevel | CellLevel

  datatype EnforcementAction = EnforcementAction(name: string, id: string, level: Level, args: map<string, string>)

  datatype Policy = Policy(id: string, name: string, description: string, kind: string, hierarchy: seq<string>)

  datatype OperationDecision = OperationDecision(
    operation: Operation,
    actions: seq<EnforcementAction>,
    policies: seq<Policy>)

  datatype DatasetDecision = DatasetDecision(dataset: string, decisions: seq<OperationDecision>)

  datatype ComponentVersion = ComponentVersion(name: string, id: string, version: string)

  datatype PoliciesDecisions = PoliciesDecisions(
    versions: seq<ComponentVersion>,
    datasets: seq<DatasetDecision>,
    general: seq<OperationDecision>)

  // ---------------------------------------------------------------------------------------------
  // Grouping by a key
  // ---------------------------------------------------------------------------------------------

  /** The keys that occur, each once, in the order of their first occurrence. */
  ghost function Keys<T, K>(s: seq<T>, key: T -> K): (ks: seq<K>)
    ensures forall i, j :: 0 <= i < j < |ks| ==> ks[i] != ks[j]
  {
    if |s| == 0 then [] else
      var ks := Keys(s[..|s| - 1], key);
      var k := key(s[|s| - 1]);
      if k in ks then ks else ks + [k]
  }

  /** The items with a given key, in order. */
  ghost function Having<T, K>(s: seq<T>, key: T -> K, k: K): (h: seq<T>)
    ensures forall i :: 0 <= i < |h| ==> key(h[i]) == k
  {
    if |s| == 0 then [] else
      var h := Having(s[..|s| - 1], key, k);
      if key(s[|s| - 1]) == k then h + [s[|s| - 1]] else h
  }

  /** One item per key, in the order of the keys. */
  ghost function Compact<T, K>(s: seq<T>, key: T -> K, group: seq<T> -> T): (c: seq<T>)
    ensures |c| == |Keys(s, key)|
    ensures forall i :: 0 <= i < |c| ==> c[i] == group(Having(s, key, Keys(s, key)[i]))
  {
    seq(|Keys(s, key)|, i requires 0 <= i < |Keys(s, key)| => group(Having(s, key, Keys(s, key)[i])))
  }

  lemma {:induction false} KeysAreThoseHad<T, K>(s: seq<T>, key: T -> K, k: K)
    ensures k in Keys(s, key) <==> Having(s, key, k) != []
  {
    if |s| > 0 {
      KeysAreThoseHad(s[..|s| - 1], key, k);
    }
  }

  lemma {:induction false} HavingConcat<T, K>(a: seq<T>, b: seq<T>, key: T -> K, k: K)
    ensures Having(a + b, key, k) == Having(a, key, k) + Having(b, key, k)
  {
    if |b| == 0 {
      assert a + b == a;
    } else {
      var n := |b| - 1;
      assert (a + b)[..|a + b| - 1] == a + b[..n];
      HavingConcat(a, b[..n], key, k);
    }
  }

  /** The keys of a concatenation depend only on the keys of its parts. */
  lemma {:induction false} KeysConcat<T, K>(a: seq<T>, b: seq<T>, a': seq<T>, b': seq<T>, key: T -> K)
    requires Keys(a, key) == Keys(a', key) && Keys(b, key) == Keys(b', key)
    ensures Keys(a + b, key) == Keys(a' + b', key)
  {
    KeysFollow(a, b, key);
    KeysFollow(a', b', key);
  }

  ghost function Following<K>(ks: seq<K>, more: seq<K>): seq<K> {
    if |more| == 0 then ks else
      var r := Following(ks, more[..|more| - 1]);
      if more[|more| - 1] in ks then r else r + [more[|more| - 1]]
  }

  lemma {:induction false} KeysFollow<T, K>(a: seq<T>, b: seq<T>, key: T -> K)
    ensures Keys(a + b, key) == Following(Keys(a, key), Keys(b, key))
  {
    if |b| == 0 {
      assert a + b == a;
    } else {
      var n := |b| - 1;
      var k := key(b[n]);
      assert (a + b)[..|a + b| - 1] == a + b[..n];
      KeysFollow(a, b[..n], key);
      FollowingMembers(Keys(a, key), Keys(b[..n], key), k);
      if k !in Keys(b[..n], key) {
        assert Keys(b, key)[..|Keys(b, key)| - 1] == Keys(b[..n], key);
      }
    }
  }

  lemma {:induction false} FollowingMembers<K>(ks: seq<K>, more: seq<K>, k: K)
    ensures k in Following(ks, more) <==> k in ks || k in more
  {
    if |more| > 0 {
      var n := |more| - 1;
      FollowingMembers(ks, more[..n], k);
      assert more == more[..n] + [more[n]];
    }
  }

  /** Distinct keys are already in the order of first occurrence. */
  lemma {:induction false} KeysOfDistinct<T, K>(s: seq<T>, key: T -> K, ks: seq<K>)
    requires |s| == |ks| && forall i :: 0 <= i < |s| ==> key(s[i]) == ks[i]
    requires forall i, j :: 0 <= i < j < |ks| ==> ks[i] != ks[j]
    ensures Keys(s, key) == ks
    ensures forall i :: 0 <= i < |s| ==> Having(s, key, ks[i]) == [s[i]]
  {
    if |s| > 0 {
      var n := |s| - 1;
      KeysOfDistinct(s[..n], key, ks[..n]);
      assert ks == ks[..n] + [ks[n]];
      KeysAreThoseHad(s[..n], key, ks[n]);
      forall i | 0 <= i < |s|
        ensures Having(s, key, ks[i]) == [s[i]]
      {
        if i < n {
          assert ks[..n][i] == ks[i] && s[..n][i] == s[i];
        }
      }
    }
  }

  /** A group has the key of its items. */
  ghost predicate KeepsKey<T(!new), K>(key: T -> K, group: seq<T> -> T) {
    forall h: seq<T> :: h != [] ==> key(group(h)) == key(h[0])
  }

  /** Grouping some neighbours first makes no difference. */
  ghost predicate Regroups<T(!new)>(group: seq<T> -> T) {
    forall t: seq<T>, h: seq<T>, u: seq<T> :: h != [] ==> group(t + [group(h)] + u) == group(t + h + u)
  }

  lemma {:induction false} CompactIsGrouped<T(!new), K>(s: seq<T>, key: T -> K, group: seq<T> -> T)
    requires KeepsKey(key, group)
    ensures Keys(Compact(s, key, group), key) == Keys(s, key)
    ensures forall k ::
      Having(Compact(s, key, group), key, k) == if k in Keys(s, key) then [group(Having(s, key, k))] else []
  {
    var c, ks := Compact(s, key, group), Keys(s, key);
    forall i | 0 <= i < |c|
      ensures key(c[i]) == ks[i]
    {
      KeysAreThoseHad(s, key, ks[i]);
    }
    KeysOfDistinct(c, key, ks);
    forall k
      ensures Having(c, key, k) == if k in ks then [group(Having(s, key, k))] else []
    {
      if k in ks {
        var i :| 0 <= i < |ks| && ks[i] == k;
        assert Having(c, key, ks[i]) == [c[i]];
      } else {
        KeysAreThoseHad(c, key, k);
      }
    }
  }

  lemma {:induction false} RegroupAt<T(!new)>(group: seq<T> -> T, t: seq<T>, h: seq<T>, u: seq<T>)
    requires Regroups(group) && h != []
    ensures group(t + [group(h)] + u) == group(t + h + u)
  {
  }

  lemma {:induction false} CompactPartAt<T(!new), K>(
    a: seq<T>, b: seq<T>, c: seq<T>, key: T -> K, group: seq<T> -> T, k: K)
    requires KeepsKey(key, group) && Regroups(group)
    ensures group(Having(a + Compact(b, key, group) + c, key, k)) == group(Having(a + b + c, key, k))
  {
    hide Regroups, KeepsKey, Compact;
    var b' := Compact(b, key, group);
    HavingConcat(a + b', c, key, k);
    HavingConcat(a, b', key, k);
    HavingConcat(a + b, c, key, k);
    HavingConcat(a, b, key, k);
    CompactIsGrouped(b, key, group);
    KeysAreThoseHad(b, key, k);
    if k in Keys(b, key) {
      RegroupAt(group, Having(a, key, k), Having(b, key, k), Having(c, key, k));
    }
  }

  /** Compacting a part of a sequence first makes no difference to compacting the whole. */
  lemma {:induction false} CompactPart<T(!new), K>(a: seq<T>, b: seq<T>, c: seq<T>, key: T -> K, group: seq<T> -> T)
    requires KeepsKey(key, group) && Regroups(group)
    ensures Compact(a + Compact(b, key, group) + c, key, group) == Compact(a + b + c, key, group)
  {
    hide Regroups, KeepsKey, Compact;
    var b' := Compact(b, key, group);
    var left, right := a + b' + c, a + b + c;
    CompactIsGrouped(b, key, group);
    KeysConcat(a, b', a, b, key);
    KeysConcat(a + b', c, a + b, c, key);
    forall i | 0 <= i < |Keys(left, key)|
      ensures Compact(left, key, group)[i] == Compact(right, key, group)[i]
    {
      CompactPartAt(a, b, c, key, group, Keys(left, key)[i]);
    }
  }

  /** Compacting once is enough. */
  lemma {:induction false} CompactTwice<T(!new), K>(s: seq<T>, key: T -> K, group: seq<T> -> T)
    requires KeepsKey(key, group) && Regroups(group)
    ensures Compact(Compact(s, key, group), key, group) == Compact(s, key, group)
  {
    var none: seq<T> := [];
    CompactPart(none, s, none, key, group);
    assert none + s + none == s && none + Compact(s, key, group) + none == Compact(s, key, group);
  }

  // ---------------------------------------------------------------------------------------------
  // Decisions about operations, and about datasets
  // ---------------------------------------------------------------------------------------------

  ghost function Flat<T, U>(s: seq<T>, f: T -> seq<U>): seq<U> {
    if |s| == 0 then [] else Flat(s[..|s| - 1], f) + f(s[|s| - 1])
  }

  lemma {:induction false} FlatConcat<T, U>(a: seq<T>, b: seq<T>, f: T -> seq<U>)
    ensures Flat(a + b, f) == Flat(a, f) + Flat(b, f)
  {
    if |b| == 0 {
      assert a + b == a;
    } else {
      var n := |b| - 1;
      assert (a + b)[..|a + b| - 1] == a + b[..n];
      FlatConcat(a, b[..n], f);
    }
  }

  lemma {:induction false} FlatOne<T, U>(x: T, f: T -> seq<U>)
    ensures Flat([x], f) == f(x)
  {
    assert [x][..0] == [];
  }

  ghost function OperationOf(d: OperationDecision): Operation { d.operation }

  ghost function ActionsIn(d: OperationDecision): seq<EnforcementAction> { d.actions }

  ghost function PoliciesIn(d: OperationDecision): seq<Policy> { d.policies }

  ghost function DatasetOf(d: DatasetDecision): string { d.dataset }

  ghost function DecisionsIn(d: DatasetDecision): seq<OperationDecision> { d.decisions }

  ghost function OperationGroup(h: seq<OperationDecision>): OperationDecision {
    OperationDecision(if h == [] then Operation(Unknown, "") else h[0].operation,
                      Flat(h, ActionsIn), Flat(h, PoliciesIn))
  }

  ghost function DatasetGroup(h: seq<DatasetDecision>): DatasetDecision {
    DatasetDecision(if h == [] then "" else h[0].dataset, CompactOperations(Flat(h, DecisionsIn)))
  }

  ghost function CompactOperations(s: seq<OperationDecision>): seq<OperationDecision> {
    Compact(s, OperationOf, OperationGroup)
  }

  ghost function CompactDatasets(s: seq<DatasetDecision>): seq<DatasetDecision> {
    Compact(s, DatasetOf, DatasetGroup)
  }

  lemma {:induction false} FlatRegroups<T, U>(t: seq<T>, x: T, h: seq<T>, u: seq<T>, f: T -> seq<U>)
    ensures Flat(t + [x] + u, f) == Flat(t, f) + f(x) + Flat(u, f)
    ensures Flat(t + h + u, f) == Flat(t, f) + Flat(h, f) + Flat(u, f)
  {
    FlatConcat(t + [x], u, f);
    FlatConcat(t, [x], f);
    FlatOne(x, f);
    FlatConcat(t + h, u, f);
    FlatConcat(t, h, f);
  }

  lemma {:induction false} OperationsRegroup()
    ensures KeepsKey(OperationOf, OperationGroup) && Regroups(OperationGroup)
  {
    forall t: seq<OperationDecision>, h: seq<OperationDecision>, u: seq<OperationDecision> | h != []
      ensures OperationGroup(t + [OperationGroup(h)] + u) == OperationGroup(t + h + u)
    {
      FlatRegroups(t, OperationGroup(h), h, u, ActionsIn);
      FlatRegroups(t, OperationGroup(h), h, u, PoliciesIn);
    }
  }

  lemma {:induction false} DatasetsRegroup()
    ensures KeepsKey(DatasetOf, DatasetGroup) && Regroups(DatasetGroup)
  {
    OperationsRegroup();
    forall t: seq<DatasetDecision>, h: seq<DatasetDecision>, u: seq<DatasetDecision> | h != []
      ensures DatasetGroup(t + [DatasetGroup(h)] + u) == DatasetGroup(t + h + u)
    {
      hide KeepsKey, Regroups, Compact, Flat;
      FlatRegroups(t, DatasetGroup(h), h, u, DecisionsIn);
      CompactPart(Flat(t, DecisionsIn), Flat(h, DecisionsIn), Flat(u, DecisionsIn), OperationOf, OperationGroup);
    }
  }

  // ---------------------------------------------------------------------------------------------
  // The code
  // ---------------------------------------------------------------------------------------------

  method GroupByOperation(decisions: seq<OperationDecision>)
    returns (keys: seq<Operation>, byOperation: map<Operation, OperationDecision>)
    ensures keys == Keys(decisions, OperationOf)
    ensures forall k :: k in byOperation <==> k in keys
    ensures forall k :: k in byOperation ==> byOperation[k] == OperationGroup(Having(decisions, OperationOf, k))
  {
    keys, byOperation := [], map[];
    for i := 0 to |decisions|
      invariant keys == Keys(decisions[..i], OperationOf)
      invariant forall k :: k in byOperation <==> k in keys
      invariant forall k :: k in byOperation ==>
        byOperation[k] == OperationGroup(Having(decisions[..i], OperationOf, k))
    {
      var d := decisions[i];
      var key := d.operation;
      assert decisions[..i + 1][..i] == decisions[..i];
      ghost var h := Having(decisions[..i], OperationOf, key);
      KeysAreThoseHad(decisions[..i], OperationOf, key);
      FlatConcat(h, [d], ActionsIn);
      FlatConcat(h, [d], PoliciesIn);
      FlatOne(d, ActionsIn);
      FlatOne(d, PoliciesIn);
      if key !in byOperation {
        keys := keys + [key];
        byOperation := byOperation[key := OperationDecision(key, [], [])];
      }
      var group := byOperation[key];
      byOperation := byOperation[key := OperationDecision(key, group.actions + d.actions, group.policies + d.policies)];
    }
    assert decisions[..|decisions|] == decisions;
  }

  method CompactOperationDecisions(decisions: seq<OperationDecision>) returns (compacted: seq<OperationDecision>)
    ensures compacted == CompactOperations(decisions)
  {
    if |decisions| == 0 {
      return [];
    }
    hide Keys, Having, Flat, Compact;
    var keys, byOperation := GroupByOperation(decisions);
    compacted := [];
    for i := 0 to |keys|
      invariant compacted == CompactOperations(decisions)[..i]
    {
      assert keys[i] in byOperation;
      compacted := compacted + [byOperation[keys[i]]];
    }
  }

  method GroupByDataset(decisions: seq<DatasetDecision>) returns (keys: seq<string>, byID: map<string, DatasetDecision>)
    ensures keys == Keys(decisions, DatasetOf)
    ensures forall k :: k in byID <==> k in keys
    ensures forall k :: k in byID ==> byID[k] == DatasetDecision(k, Flat(Having(decisions, DatasetOf, k), DecisionsIn))
  {
    keys, byID := [], map[];
    for i := 0 to |decisions|
      invariant keys == Keys(decisions[..i], DatasetOf)
      invariant forall k :: k in byID <==> k in keys
      invariant forall k :: k in byID ==>
        byID[k] == DatasetDecision(k, Flat(Having(decisions[..i], DatasetOf, k), DecisionsIn))
    {
      var d := decisions[i];
      var key := d.dataset;
      assert decisions[..i + 1][..i] == decisions[..i];
      ghost var h := Having(decisions[..i], DatasetOf, key);
      KeysAreThoseHad(decisions[..i], DatasetOf, key);
      FlatConcat(h, [d], DecisionsIn);
      FlatOne(d, DecisionsIn);
      if key !in byID {
        keys := keys + [key];
        byID := byID[key := DatasetDecision(key, [])];
      }
      byID := byID[key := DatasetDecision(key, byID[key].decisions + d.decisions)];
    }
    assert decisions[..|decisions|] == decisions;
  }

  method CompactPolicyDecisions(decisions: PoliciesDecisions) returns (compacted: PoliciesDecisions)
    ensures compacted == PoliciesDecisions(
      decisions.versions, CompactDatasets(decisions.datasets), CompactOperations(decisions.general))
  {
    hide Keys, Having, Flat, CompactOperations, Compact;
    var general := CompactOperationDecisions(decisions.general);
    var keys, byID := GroupByDataset(decisions.datasets);
    var datasets := [];
    for i := 0 to |keys|
      invariant datasets == CompactDatasets(decisions.datasets)[..i]
    {
      assert keys[i] in byID;
      var d := byID[keys[i]];
      var operations := CompactOperationDecisions(d.decisions);
      KeysAreThoseHad(decisions.datasets, DatasetOf, keys[i]);
      datasets := datasets + [DatasetDecision(d.dataset, operations)];
    }
    return PoliciesDecisions(decisions.versions, datasets, general);
  }

  ghost function VersionsIn(d: PoliciesDecisions): seq<ComponentVersion> { d.versions }

  ghost function DatasetsIn(d: PoliciesDecisions): seq<DatasetDecision> { d.datasets }

  ghost function GeneralIn(d: PoliciesDecisions): seq<OperationDecision> { d.general }

  ghost function Merged(answers: seq<PoliciesDecisions>): PoliciesDecisions {
    PoliciesDecisions(
      Flat(answers, VersionsIn),
      CompactDatasets(Flat(answers, DatasetsIn)),
      CompactOperations(Flat(answers, GeneralIn)))
  }

  method MergePoliciesDecisions(answers: seq<PoliciesDecisions>) returns (merged: PoliciesDecisions)
    ensures merged == Merged(answers)
  {
    var all := PoliciesDecisions([], [], []);
    for i := 0 to |answers|
      invariant all == PoliciesDecisions(
        Flat(answers[..i], VersionsIn), Flat(answers[..i], DatasetsIn), Flat(answers[..i], GeneralIn))
    {
      var d := answers[i];
      assert answers[..i + 1][..i] == answers[..i];
      all := PoliciesDecisions(all.versions + d.versions, all.datasets + d.datasets, all.general + d.general);
    }
    assert answers[..|answers|] == answers;
    merged := CompactPolicyDecisions(all);
  }

  // ---------------------------------------------------------------------------------------------
  // What merging means
  // ---------------------------------------------------------------------------------------------

  /** What an answer says about an operation on a dataset: a plain filter, with no grouping. */
  ghost function DecisionsAbout(
    datasets: seq<DatasetDecision>, id: string, operation: Operation): seq<OperationDecision>
  {
    Having(Flat(Having(datasets, DatasetOf, id), DecisionsIn), OperationOf, operation)
  }

  ghost function ActionsAbout(
    datasets: seq<DatasetDecision>, id: string, operation: Operation): seq<EnforcementAction>
  {
    Flat(DecisionsAbout(datasets, id, operation), ActionsIn)
  }

  ghost function PoliciesAbout(datasets: seq<DatasetDecision>, id: string, operation: Operation): seq<Policy> {
    Flat(DecisionsAbout(datasets, id, operation), PoliciesIn)
  }

  lemma {:induction false} OperationsKeepActions(s: seq<OperationDecision>, operation: Operation)
    ensures Flat(Having(CompactOperations(s), OperationOf, operation), ActionsIn) ==
      Flat(Having(s, OperationOf, operation), ActionsIn)
    ensures Flat(Having(CompactOperations(s), OperationOf, operation), PoliciesIn) ==
      Flat(Having(s, OperationOf, operation), PoliciesIn)
    ensures |Having(CompactOperations(s), OperationOf, operation)| <= 1
  {
    OperationsRegroup();
    CompactIsGrouped(s, OperationOf, OperationGroup);
    KeysAreThoseHad(s, OperationOf, operation);
    var h := Having(s, OperationOf, operation);
    if h != [] {
      FlatOne(OperationGroup(h), ActionsIn);
      FlatOne(OperationGroup(h), PoliciesIn);
    }
  }

  /**
   * Compacting keeps every action and every policy, in order, and leaves one decision for each dataset and operation.
   */
  lemma {:induction false} CompactingKeepsActions(s: seq<DatasetDecision>, id: string, operation: Operation)
    ensures ActionsAbout(CompactDatasets(s), id, operation) == ActionsAbout(s, id, operation)
    ensures PoliciesAbout(CompactDatasets(s), id, operation) == PoliciesAbout(s, id, operation)
    ensures |Having(CompactDatasets(s), DatasetOf, id)| <= 1 && |DecisionsAbout(CompactDatasets(s), id, operation)| <= 1
  {
    hide CompactOperations;
    DatasetsRegroup();
    CompactIsGrouped(s, DatasetOf, DatasetGroup);
    KeysAreThoseHad(s, DatasetOf, id);
    var h := Having(s, DatasetOf, id);
    if h != [] {
      FlatOne(DatasetGroup(h), DecisionsIn);
      OperationsKeepActions(Flat(h, DecisionsIn), operation);
    }
  }

  lemma {:induction false} ActionsConcat(
    a: seq<DatasetDecision>, b: seq<DatasetDecision>, id: string, operation: Operation)
    ensures ActionsAbout(a + b, id, operation) == ActionsAbout(a, id, operation) + ActionsAbout(b, id, operation)
    ensures PoliciesAbout(a + b, id, operation) == PoliciesAbout(a, id, operation) + PoliciesAbout(b, id, operation)
  {
    var (ha, hb) := (Having(a, DatasetOf, id), Having(b, DatasetOf, id));
    HavingConcat(a, b, DatasetOf, id);
    FlatConcat(ha, hb, DecisionsIn);
    HavingConcat(Flat(ha, DecisionsIn), Flat(hb, DecisionsIn), OperationOf, operation);
    FlatConcat(DecisionsAbout(a, id, operation), DecisionsAbout(b, id, operation), ActionsIn);
    FlatConcat(DecisionsAbout(a, id, operation), DecisionsAbout(b, id, operation), PoliciesIn);
  }

  /** What the merged answer says is what the answers say, one after the other. */
  lemma {:induction false} MergedSaysAll(answers: seq<PoliciesDecisions>, id: string, operation: Operation)
    ensures ActionsAbout(Merged(answers).datasets, id, operation)
         == Flat(answers, (d: PoliciesDecisions) => ActionsAbout(d.datasets, id, operation))
    ensures PoliciesAbout(Merged(answers).datasets, id, operation)
         == Flat(answers, (d: PoliciesDecisions) => PoliciesAbout(d.datasets, id, operation))
  {
    CompactingKeepsActions(Flat(answers, DatasetsIn), id, operation);
    AnswersSay(answers, id, operation,
               (d: PoliciesDecisions) => ActionsAbout(d.datasets, id, operation),
               (d: PoliciesDecisions) => PoliciesAbout(d.datasets, id, operation));
  }

  lemma {:induction false} AnswersSay(
    answers: seq<PoliciesDecisions>, id: string, operation: Operation,
    actions: PoliciesDecisions -> seq<EnforcementAction>, policies: PoliciesDecisions -> seq<Policy>)
    requires forall d :: actions(d) == ActionsAbout(d.datasets, id, operation)
    requires forall d :: policies(d) == PoliciesAbout(d.datasets, id, operation)
    ensures ActionsAbout(Flat(answers, DatasetsIn), id, operation) == Flat(answers, actions)
    ensures PoliciesAbout(Flat(answers, DatasetsIn), id, operation) == Flat(answers, policies)
  {
    if |answers| > 0 {
      var n := |answers| - 1;
      AnswersSay(answers[..n], id, operation, actions, policies);
      ActionsConcat(Flat(answers[..n], DatasetsIn), answers[n].datasets, id, operation);
    }
  }

  /** What an answer says about an operation whatever the dataset. */
  ghost function GeneralActions(general: seq<OperationDecision>, operation: Operation): seq<EnforcementAction> {
    Flat(Having(general, OperationOf, operation), ActionsIn)
  }

  ghost function GeneralPolicies(general: seq<OperationDecision>, operation: Operation): seq<Policy> {
    Flat(Having(general, OperationOf, operation), PoliciesIn)
  }

  /** The same for the general decisions, of which there is at most one for each operation. */
  lemma {:induction false} GeneralSaysAll(answers: seq<PoliciesDecisions>, operation: Operation)
    ensures GeneralActions(Merged(answers).general, operation)
         == Flat(answers, (d: PoliciesDecisions) => GeneralActions(d.general, operation))
    ensures GeneralPolicies(Merged(answers).general, operation)
         == Flat(answers, (d: PoliciesDecisions) => GeneralPolicies(d.general, operation))
    ensures |Having(Merged(answers).general, OperationOf, operation)| <= 1
  {
    OperationsKeepActions(Flat(answers, GeneralIn), operation);
    AnswersSayInGeneral(answers, operation,
                        (d: PoliciesDecisions) => GeneralActions(d.general, operation),
                        (d: PoliciesDecisions) => GeneralPolicies(d.general, operation));
  }

  lemma {:induction false} AnswersSayInGeneral(
    answers: seq<PoliciesDecisions>, operation: Operation,
    actions: PoliciesDecisions -> seq<EnforcementAction>, policies: PoliciesDecisions -> seq<Policy>)
    requires forall d :: actions(d) == GeneralActions(d.general, operation)
    requires forall d :: policies(d) == GeneralPolicies(d.general, operation)
    ensures GeneralActions(Flat(answers, GeneralIn), operation) == Flat(answers, actions)
    ensures GeneralPolicies(Flat(answers, GeneralIn), operation) == Flat(answers, policies)
  {
    if |answers| > 0 {
      var n := |answers| - 1;
      AnswersSayInGeneral(answers[..n], operation, actions, policies);
      var (a, b) := (Flat(answers[..n], GeneralIn), answers[n].general);
      HavingConcat(a, b, OperationOf, operation);
      FlatConcat(Having(a, OperationOf, operation), Having(b, OperationOf, operation), ActionsIn);
      FlatConcat(Having(a, OperationOf, operation), Having(b, OperationOf, operation), PoliciesIn);
    }
  }

  /** Merging some of the answers first makes no difference; in particular, merging is associative and idempotent. */
  lemma {:induction false} MergeNested(a: seq<PoliciesDecisions>, b: seq<PoliciesDecisions>, c: seq<PoliciesDecisions>)
    ensures Merged(a + [Merged(b)] + c) == Merged(a + b + c)
  {
    hide KeepsKey, Regroups, Compact;
    FlatRegroups(a, Merged(b), b, c, VersionsIn);
    FlatRegroups(a, Merged(b), b, c, DatasetsIn);
    FlatRegroups(a, Merged(b), b, c, GeneralIn);
    OperationsRegroup();
    DatasetsRegroup();
    CompactPart(Flat(a, DatasetsIn), Flat(b, DatasetsIn), Flat(c, DatasetsIn), DatasetOf, DatasetGroup);
    CompactPart(Flat(a, GeneralIn), Flat(b, GeneralIn), Flat(c, GeneralIn), OperationOf, OperationGroup);
  }

  /** The datasets of the merged answer are those of the answers, each once, in the order they are first named. */
  lemma {:induction false} MergedIsOrdered(answers: seq<PoliciesDecisions>, i: nat)
    requires i < |Merged(answers).datasets|
    ensures Keys(Merged(answers).datasets, DatasetOf) == Keys(Flat(answers, DatasetsIn), DatasetOf)
    ensures
      var d := Merged(answers).datasets[i];
      var said := Flat(Having(Flat(answers, DatasetsIn), DatasetOf, d.dataset), DecisionsIn);
      Keys(d.decisions, OperationOf) == Keys(said, OperationOf) && |d.decisions| == |Keys(said, OperationOf)|
  {
    OperationsRegroup();
    DatasetsRegroup();
    var all := Flat(answers, DatasetsIn);
    CompactIsGrouped(all, DatasetOf, DatasetGroup);
    var k := Keys(all, DatasetOf)[i];
    KeysAreThoseHad(all, DatasetOf, k);
    CompactIsGrouped(Flat(Having(all, DatasetOf, k), DecisionsIn), OperationOf, OperationGroup);
  }

  /** The operations of the general decisions are those of the answers, each once, in the order they are first named. */
  lemma {:induction false} GeneralIsOrdered(answers: seq<PoliciesDecisions>)
    ensures
      var said := Keys(Flat(answers, GeneralIn), OperationOf);
      Keys(Merged(answers).general, OperationOf) == said && |Merged(answers).general| == |said|
  {
    OperationsRegroup();
    CompactIsGrouped(Flat(answers, GeneralIn), OperationOf, OperationGroup);
  }
}
