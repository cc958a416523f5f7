/**
 * What merged taxonomy layers say in the end (pkg/taxonomy/compile/merge.go): which layer has the last word on a
 * keyword and on additional properties, which one names the type, and in what order alternatives are listed.
 */
module TaxonomyLayers {
  import opened Prelude
  import opened TaxonomyMerge

  /** The layer has a schema here that no later layer drops, and the schema says something in this respect. */
  ghost predicate Speaks<T(!new)>(docs: seq<Document>, key: string, path: Path, of: Tree -> Option<T>, i: int) {
    Survives(docs, key, path, i) && of(Schema(docs[i], key, path).value).Some?
  }

  ghost predicate SpeaksLast<T(!new)>(docs: seq<Document>, key: string, path: Path, of: Tree -> Option<T>, i: int) {
    Speaks(docs, key, path, of, i) && forall j :: i < j ==> !Speaks(docs, key, path, of, j)
  }

  /** The last layer to speak says this. */
  ghost predicate LastWord<T(!new)>(docs: seq<Document>, key: string, path: Path, of: Tree -> Option<T>, x: T) {
    exists i :: SpeaksLast(docs, key, path, of, i) && of(Schema(docs[i], key, path).value) == Some(x)
  }

  ghost predicate Says<T>(t: Option<Tree>, of: Tree -> Option<T>, x: T) {
    t.Some? && of(t.value) == Some(x)
  }

  ghost predicate IsFirst(docs: seq<Document>, key: string, path: Path, i: int) {
    Survives(docs, key, path, i) && forall j :: j < i ==> !Survives(docs, key, path, j)
  }

  /** What the first `n` layers list, one after the other. */
  ghost function Listed(docs: seq<Document>, key: string, path: Path, of: Tree -> seq<string>, n: nat): seq<string>
    requires n <= |docs|
  {
    if n == 0 then []
    else
      Listed(docs, key, path, of, n - 1) +
      if Survives(docs, key, path, n - 1) then of(Schema(docs[n - 1], key, path).value) else []
  }

  // ---------------------------------------------------------------------------------------------
  // The last layer overrides the others
  // ---------------------------------------------------------------------------------------------

  /** In this respect the source of a merge overrides the destination, if it says anything. */
  ghost predicate Overrides<T(!new)>(of: Tree -> Option<T>) {
    forall dst, src :: of(MergeTrees(dst, src)) == if of(src).Some? then of(src) else of(dst)
  }

  /** The last layer drops nothing of what the earlier ones have at this path. */
  ghost predicate Keeps(docs: seq<Document>, key: string, path: Path)
    requires |docs| > 0
  {
    !Cuts(Lookup(docs[|docs| - 1], key), path)
  }

  lemma {:induction false} EarlierOrLast(docs: seq<Document>, key: string, path: Path, i: int)
    requires |docs| > 0
    ensures
      var n := |docs| - 1;
      Survives(docs, key, path, i) <==>
      (Keeps(docs, key, path) && Survives(docs[..n], key, path, i)) || (i == n && Schema(docs[n], key, path).Some?)
    ensures
      var front := docs[..|docs| - 1];
      Survives(front, key, path, i) ==> 0 <= i < |front| && front[i] == docs[i]
  {
    SurvivesOneMore(docs, key, path);
  }

  lemma {:induction false} SpeakerIsLastOrEarlier<T(!new)>(
    docs: seq<Document>, key: string, path: Path, of: Tree -> Option<T>, i: int)
    requires |docs| > 0
    ensures
      var n := |docs| - 1;
      SpeaksLast(docs, key, path, of, i) <==>
      if Speaks(docs, key, path, of, n) then i == n
      else Keeps(docs, key, path) && SpeaksLast(docs[..n], key, path, of, i)
  {
    var n := |docs| - 1;
    forall j
      ensures j != n ==>
        (Speaks(docs, key, path, of, j) <==> Keeps(docs, key, path) && Speaks(docs[..n], key, path, of, j))
      ensures Speaks(docs, key, path, of, j) ==> j <= n
    {
      EarlierOrLast(docs, key, path, j);
    }
    EarlierOrLast(docs, key, path, n);
    hide Speaks, Keeps;
    assert SpeaksLast(docs, key, path, of, i) && Speaks(docs, key, path, of, n) ==> !(i < n);
  }

  lemma {:induction false} WordIsLastOrEarlier<T(!new)>(
    docs: seq<Document>, key: string, path: Path, of: Tree -> Option<T>, x: T)
    requires |docs| > 0
    ensures
      var n := |docs| - 1;
      LastWord(docs, key, path, of, x) <==>
      if Speaks(docs, key, path, of, n) then Says(Schema(docs[n], key, path), of, x)
      else Keeps(docs, key, path) && LastWord(docs[..n], key, path, of, x)
  {
    var n := |docs| - 1;
    forall i
      ensures SpeaksLast(docs, key, path, of, i) <==>
        if Speaks(docs, key, path, of, n) then i == n
        else Keeps(docs, key, path) && SpeaksLast(docs[..n], key, path, of, i)
      ensures SpeaksLast(docs[..n], key, path, of, i) ==> 0 <= i < n && docs[..n][i] == docs[i]
    {
      SpeakerIsLastOrEarlier(docs, key, path, of, i);
      EarlierOrLast(docs, key, path, i);
    }
    hide SpeaksLast, Keeps, Schema, Survives;
    if Speaks(docs, key, path, of, n) {
      assert SpeaksLast(docs, key, path, of, n);
    } else if Keeps(docs, key, path) && LastWord(docs[..n], key, path, of, x) {
      var i :| SpeaksLast(docs[..n], key, path, of, i) && of(Schema(docs[..n][i], key, path).value) == Some(x);
      assert SpeaksLast(docs, key, path, of, i);
    }
  }

  lemma {:induction false} SourceOverrides<T(!new)>(
    dst: Option<Tree>, src: Option<Tree>, of: Tree -> Option<T>, x: T)
    requires Overrides(of)
    ensures Says(MergeOptions(dst, src), of, x) <==>
            if src.Some? && of(src.value).Some? then Says(src, of, x) else Says(dst, of, x)
  {
    hide MergeTrees;
  }

  lemma {:induction false} NoneSays<T(!new)>(of: Tree -> Option<T>, x: T)
    ensures !Says(None, of, x)
  {
  }

  /** Where the source overrides, the merged layers say what the last layer to say anything says. */
  lemma {:induction false} LastWordCounts<T(!new)>(
    docs: seq<Document>, key: string, path: Path, of: Tree -> Option<T>, x: T)
    requires Parsed(docs) && Overrides(of)
    ensures Says(Schema(MergeLayers(docs), key, path), of, x) <==> LastWord(docs, key, path, of, x)
  {
    if |docs| == 0 {
      return;
    }
    var n := |docs| - 1;
    assert Parsed(docs[..n]);
    var kept := if Keeps(docs, key, path) then Schema(MergeLayers(docs[..n]), key, path) else None;
    assert Schema(MergeLayers(docs), key, path) == MergeOptions(kept, Schema(docs[n], key, path)) by {
      OneMoreLayer(docs, key, path);
    }
    assert Speaks(docs, key, path, of, n) <==>
           Schema(docs[n], key, path).Some? && of(Schema(docs[n], key, path).value).Some? by {
      EarlierOrLast(docs, key, path, n);
    }
    hide *;
    LastWordCounts(docs[..n], key, path, of, x);
    WordIsLastOrEarlier(docs, key, path, of, x);
    SourceOverrides(kept, Schema(docs[n], key, path), of, x);
    NoneSays(of, x);
  }

  ghost function KeywordIn(k: Keyword): Tree -> Option<string> {
    (t: Tree) => if k in t.node.keywords then Some(t.node.keywords[k]) else None
  }

  /** A boolean, or no boolean but a schema. */
  ghost function AdditionalIn(): Tree -> Option<Option<bool>> {
    (t: Tree) =>
      if t.node.additionalAllowed.Some? then Some(t.node.additionalAllowed)
      else if AdditionalProperties in t.children then Some(None)
      else None
  }

  /** The value of a keyword is the one given by the last layer that gives any, and there is none if no layer does. */
  lemma {:induction false} LastKeywordCounts(docs: seq<Document>, key: string, path: Path, k: Keyword, value: string)
    requires Parsed(docs)
    ensures Says(Schema(MergeLayers(docs), key, path), KeywordIn(k), value) <==>
            LastWord(docs, key, path, KeywordIn(k), value)
  {
    assert Overrides(KeywordIn(k));
    LastWordCounts(docs, key, path, KeywordIn(k), value);
  }

  /** Whether additional properties are allowed, forbidden or described by a schema is up to the last layer to say. */
  lemma {:induction false} LastAdditionalCounts(
    docs: seq<Document>, key: string, path: Path, allowed: Option<bool>)
    requires Parsed(docs)
    ensures Says(Schema(MergeLayers(docs), key, path), AdditionalIn(), allowed) <==>
            LastWord(docs, key, path, AdditionalIn(), allowed)
  {
    forall dst, src
      ensures AdditionalIn()(MergeTrees(dst, src)) ==
              if AdditionalIn()(src).Some? then AdditionalIn()(src) else AdditionalIn()(dst)
    {
      assert AdditionalProperties in MergeTrees(dst, src).children <==> Filled(dst, src, AdditionalProperties);
    }
    LastWordCounts(docs, key, path, AdditionalIn(), allowed);
  }

  // ---------------------------------------------------------------------------------------------
  // The first layer names the type, and alternatives are appended
  // ---------------------------------------------------------------------------------------------

  /** The type and the reference are those of the first layer that has the schema. */
  lemma {:induction false} FirstLayerNames(docs: seq<Document>, key: string, path: Path, i: int)
    requires Parsed(docs) && IsFirst(docs, key, path, i)
    ensures
      var merged := Schema(MergeLayers(docs), key, path);
      var first := Schema(docs[i], key, path).value.node;
      merged.Some? && merged.value.node.kind == first.kind && merged.value.node.ref == first.ref
  {
    var n := |docs| - 1;
    assert Parsed(docs[..n]);
    OneMoreLayer(docs, key, path);
    EarlierOrLast(docs, key, path, i);
    if i < n {
      forall j | j < i
        ensures !Survives(docs[..n], key, path, j)
      {
        EarlierOrLast(docs, key, path, j);
      }
      FirstLayerNames(docs[..n], key, path, i);
    } else if Keeps(docs, key, path) {
      NoneBefore(docs, key, path);
    }
  }

  lemma {:induction false} NoneBefore(docs: seq<Document>, key: string, path: Path)
    requires Parsed(docs) && |docs| > 0 && Keeps(docs, key, path)
    requires forall j :: j < |docs| - 1 ==> !Survives(docs, key, path, j)
    ensures Schema(MergeLayers(docs[..|docs| - 1]), key, path).None?
  {
    var n := |docs| - 1;
    assert Parsed(docs[..n]);
    DuplicateFreeExactly(docs[..n], key, path);
    hide Parsed, Schema, Cuts, Lookup, MergeLayers, Survives;
    if AnyLayer(docs[..n], key, path) {
      var j :| Survives(docs[..n], key, path, j);
      EarlierOrLast(docs, key, path, j);
      assert false;
    }
  }

  ghost function OneOfIn(): Tree -> seq<string> { (t: Tree) => t.node.oneOf }

  ghost function AllOfIn(): Tree -> seq<string> { (t: Tree) => t.node.allOf }

  ghost function AnyOfIn(): Tree -> seq<string> { (t: Tree) => t.node.anyOf }

  ghost function ListIn(t: Option<Tree>, of: Tree -> seq<string>): seq<string> {
    if t.Some? then of(t.value) else []
  }

  /** Alternatives are those of all layers, in the order of the layers. */
  lemma {:induction false} AlternativesAreAppended(docs: seq<Document>, key: string, path: Path)
    requires Parsed(docs)
    ensures
      var merged := Schema(MergeLayers(docs), key, path);
      && ListIn(merged, OneOfIn()) == Listed(docs, key, path, OneOfIn(), |docs|)
      && ListIn(merged, AllOfIn()) == Listed(docs, key, path, AllOfIn(), |docs|)
      && ListIn(merged, AnyOfIn()) == Listed(docs, key, path, AnyOfIn(), |docs|)
  {
    ListsAreAppended(docs, key, path, OneOfIn());
    ListsAreAppended(docs, key, path, AllOfIn());
    ListsAreAppended(docs, key, path, AnyOfIn());
  }

  lemma {:induction false} ListOfMerged(dst: Option<Tree>, src: Option<Tree>, of: Tree -> seq<string>)
    requires forall d, s :: of(MergeTrees(d, s)) == of(d) + of(s)
    ensures ListIn(MergeOptions(dst, src), of) == ListIn(dst, of) + ListIn(src, of)
    ensures ListIn(None, of) == []
  {
    hide MergeTrees;
  }

  lemma {:induction false} ListsAreAppended(docs: seq<Document>, key: string, path: Path, of: Tree -> seq<string>)
    requires Parsed(docs) && forall dst, src :: of(MergeTrees(dst, src)) == of(dst) + of(src)
    ensures ListIn(Schema(MergeLayers(docs), key, path), of) == Listed(docs, key, path, of, |docs|)
  {
    if |docs| == 0 {
      return;
    }
    var n := |docs| - 1;
    assert Parsed(docs[..n]);
    var last := Schema(docs[n], key, path);
    var kept := if Keeps(docs, key, path) then Schema(MergeLayers(docs[..n]), key, path) else None;
    assert Schema(MergeLayers(docs), key, path) == MergeOptions(kept, last) by {
      OneMoreLayer(docs, key, path);
    }
    hide *;
    ListedLast(docs, key, path, of);
    ListsAreAppended(docs[..n], key, path, of);
    ListedEarlier(docs, key, path, of, n);
    ListOfMerged(kept, last, of);
  }

  lemma {:induction false} ListedLast(docs: seq<Document>, key: string, path: Path, of: Tree -> seq<string>)
    requires |docs| > 0
    ensures
      var n := |docs| - 1;
      Listed(docs, key, path, of, |docs|) == Listed(docs, key, path, of, n) + ListIn(Schema(docs[n], key, path), of)
  {
    EarlierOrLast(docs, key, path, |docs| - 1);
    hide Survives, Schema;
  }

  lemma {:induction false} ListedEarlier(
    docs: seq<Document>, key: string, path: Path, of: Tree -> seq<string>, k: nat)
    requires k < |docs|
    ensures
      var front := docs[..|docs| - 1];
      Listed(docs, key, path, of, k) == if Keeps(docs, key, path) then Listed(front, key, path, of, k) else []
  {
    if k > 0 {
      ListedEarlier(docs, key, path, of, k - 1);
      EarlierOrLast(docs, key, path, k - 1);
    }
  }
}
