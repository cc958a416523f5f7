/**
 * Merging the layers of a taxonomy (pkg/taxonomy/compile/merge.go): JSON schemas that are changed in place.
 */
module TaxonomyMerge {
  import opened Prelude

  // ---------------------------------------------------------------------------------------------
  // Sorting and removing duplicates
  // ---------------------------------------------------------------------------------------------

  /** The order of strings, which is also that of the encodings of JSON values. */
  predicate Before(a: string, b: string) {
    b != "" && (a == "" || a[0] < b[0] || (a[0] == b[0] && Before(a[1..], b[1..])))
  }

  lemma {:induction false} BeforeIsTotal(a: string, b: string)
    ensures !Before(a, a)
    ensures Before(a, b) || Before(b, a) || a == b
    ensures !(Before(a, b) && Before(b, a))
  {
    if a != "" {
      BeforeIsTotal(a[1..], if b != "" then b[1..] else "");
      assert b != "" && a[0] == b[0] && a[1..] == b[1..] ==> a == [a[0]] + a[1..] == b;
    }
  }

  lemma {:induction false} BeforeIsTransitive(a: string, b: string, c: string)
    requires Before(a, b) && Before(b, c)
    ensures Before(a, c)
  {
    if a != "" && a[0] == b[0] == c[0] {
      BeforeIsTransitive(a[1..], b[1..], c[1..]);
    }
  }

  /** The strings agree up to some point, where the first ends or has the smaller character. */
  ghost predicate Differ(a: string, b: string, k: int) {
    && 0 <= k <= |a| && k < |b| && (forall i :: 0 <= i < k ==> a[i] == b[i])
    && (k == |a| || a[k] < b[k])
  }

  lemma {:induction false} BeforeExactly(a: string, b: string)
    ensures Before(a, b) <==> exists k :: Differ(a, b, k)
  {
    if a == "" {
      assert b != "" ==> Differ(a, b, 0);
    } else if b != "" {
      var (c, d) := (a[1..], b[1..]);
      BeforeExactly(c, d);
      if a[0] < b[0] {
        assert Differ(a, b, 0);
      } else if Before(a, b) {
        var k :| Differ(c, d, k);
        assert forall i :: 0 < i < k + 1 ==> a[i] == c[i - 1] && b[i] == d[i - 1];
        assert Differ(a, b, k + 1);
      } else if k :| Differ(a, b, k) {
        assert k > 0 && Differ(c, d, k - 1);
      }
    }
  }

  ghost predicate Ascending(s: seq<string>) {
    forall i, j :: 0 <= i < j < |s| ==> Before(s[i], s[j])
  }

  ghost predicate Distinct(s: seq<string>) {
    forall i, j :: 0 <= i < j < |s| ==> s[i] != s[j]
  }

  function Insert(s: seq<string>, x: string): seq<string> {
    if |s| == 0 || Before(s[|s| - 1], x) then s + [x]
    else if s[|s| - 1] == x then s
    else Insert(s[..|s| - 1], x) + [s[|s| - 1]]
  }

  lemma {:induction false} InsertKeepsOrder(s: seq<string>, x: string)
    requires Ascending(s)
    ensures Ascending(Insert(s, x)) && SetOf(Insert(s, x)) == SetOf(s) + {x}
  {
    if |s| > 0 {
      var (front, y) := (s[..|s| - 1], s[|s| - 1]);
      assert s == front + [y];
      BeforeIsTotal(x, y);
      if Before(y, x) {
        forall i | 0 <= i < |front|
          ensures Before(s[i], x)
        {
          BeforeIsTransitive(s[i], y, x);
        }
      } else if x != y {
        InsertKeepsOrder(front, x);
        var r := Insert(front, x);
        assert forall z :: z in SetOf(front) + {x} ==> Before(z, y);
        assert forall i :: 0 <= i < |r| ==> r[i] in SetOf(r);
        assert SetOf(r + [y]) == SetOf(r) + {y};
      }
    }
  }

  /** The elements in ascending order, each once. */
  function Unique(s: seq<string>): (r: seq<string>)
    ensures Ascending(r) && SetOf(r) == SetOf(s)
  {
    if |s| == 0 then [] else
      assert s == s[..|s| - 1] + [s[|s| - 1]];
      InsertKeepsOrder(Unique(s[..|s| - 1]), s[|s| - 1]);
      Insert(Unique(s[..|s| - 1]), s[|s| - 1])
  }

  /** There is only one way to sort a set. */
  lemma {:induction false} AscendingIsUnique(a: seq<string>, b: seq<string>)
    requires Ascending(a) && Ascending(b) && SetOf(a) == SetOf(b)
    ensures a == b
  {
    NoElements(a);
    NoElements(b);
    if a != [] {
      var (m, n) := (|a| - 1, |b| - 1);
      assert a[m] in SetOf(b) && b[n] in SetOf(a);
      BeforeIsTotal(a[m], b[n]);
      assert a[m] == b[n];
      WithoutGreatest(a);
      WithoutGreatest(b);
      AscendingIsUnique(a[..m], b[..n]);
      assert a == a[..m] + [a[m]] && b == b[..n] + [b[n]];
    }
  }

  lemma {:induction false} NoElements(s: seq<string>)
    ensures s == [] <==> SetOf(s) == {}
  {
    if s != [] {
      assert s[0] in SetOf(s);
    }
  }

  lemma {:induction false} WithoutGreatest(s: seq<string>)
    requires Ascending(s) && |s| > 0
    ensures SetOf(s[..|s| - 1]) == SetOf(s) - {s[|s| - 1]}
  {
    var n := |s| - 1;
    assert s == s[..n] + [s[n]];
    forall i | 0 <= i < n
      ensures s[i] != s[n]
    {
      BeforeIsTotal(s[i], s[n]);
    }
  }

  // ---------------------------------------------------------------------------------------------
  // Schemas as values
  // ---------------------------------------------------------------------------------------------

  /** Keywords of which a layer gives a new value or none. */
  datatype Keyword =
    | Title | Description | Default | Format | Pattern
    | MinProps | MaxProps | MinLength | MaxLength | MinItems | MaxItems | UniqueItems
    | Min | Max | MultipleOf | ExclusiveMin | ExclusiveMax

  /** Where a schema holds another one.  Only a document, which is a schema too, holds definitions. */
  datatype Slot = Property(name: string) | Items | Not | AdditionalProperties | Definition(name: string)

  /** What a schema says itself.  JSON values and alternatives are given by their encodings. */
  datatype Node = Node(
    kind: string,
    ref: string,
    keywords: map<Keyword, string>,
    additionalAllowed: Option<bool>,
    oneOf: seq<string>,
    allOf: seq<string>,
    anyOf: seq<string>,
    required: seq<string>,
    enum: seq<string>)

  datatype Tree = Tree(node: Node, children: map<Slot, Tree>)

  function MergeNodes(dst: Node, src: Node, srcHasAdditional: bool): Node {
    Node(
      dst.kind,
      dst.ref,
      dst.keywords + src.keywords,
      if src.additionalAllowed
      .Some? then src.additionalAllowed else if srcHasAdditional then None else dst.additionalAllowed,
      dst.oneOf + src.oneOf,
      dst.allOf + src.allOf,
      dst.anyOf + src.anyOf,
      Unique(dst.required + src.required),
      Unique(dst.enum + src.enum))
  }

  /** The slots of a merged schema; `additionalProperties: true` or `false` replaces a schema there. */
  ghost predicate Filled(dst: Tree, src: Tree, slot: Slot) {
    if slot == AdditionalProperties && src.node.additionalAllowed.Some? then false
    else slot in dst.children || slot in src.children
  }

  ghost function MergeTrees(dst: Tree, src: Tree): (r: Tree)
    decreases dst
  {
    Tree(
      MergeNodes(dst.node, src.node, AdditionalProperties in src.children),
      map slot | slot in dst.children.Keys + src.children.Keys && Filled(dst, src, slot) ::
        if slot !in dst.children then src.children[slot]
        else if slot !in src.children then dst.children[slot]
        else MergeTrees(dst.children[slot], src.children[slot]))
  }

  // ---------------------------------------------------------------------------------------------
  // What merging means, at every path
  // ---------------------------------------------------------------------------------------------

  type Path = seq<Slot>

  ghost function At(t: Option<Tree>, path: Path): Option<Tree>
    decreases |path|
  {
    if t.None? || |path| == 0 then t
    else if path[0] !in t.value.children then None
    else At(Some(t.value.children[path[0]]), path[1..])
  }

  ghost function MergeOptions(dst: Option<Tree>, src: Option<Tree>): Option<Tree> {
    if dst.None? then src else if src.None? then dst else Some(MergeTrees(dst.value, src.value))
  }

  /** Additional properties are given by a boolean or by a schema, never by both, as a parsed document has them. */
  ghost predicate OneForm(t: Tree) {
    && (t.node.additionalAllowed.Some? ==> AdditionalProperties !in t.children)
    && forall slot :: slot in t.children ==> OneForm(t.children[slot])
  }

  /** On the way down the path the schema gives a boolean for additional properties that the path goes through. */
  ghost predicate Cuts(t: Option<Tree>, path: Path)
    decreases |path|
  {
    t.Some? && |path| > 0 &&
    ((path[0] == AdditionalProperties && t.value.node.additionalAllowed.Some?) || Cuts(At(t, path[..1]), path[1..]))
  }

  lemma {:induction false} AtStep(t: Option<Tree>, path: Path)
    requires |path| > 0
    ensures At(t, path) == At(At(t, path[..1]), path[1..])
  {
    assert path[..1][1..] == [];
  }

  /** Merging schemas merges them at every path, except that a boolean in the source drops what is below it. */
  lemma {:induction false} MergedAt(dst: Option<Tree>, src: Option<Tree>, path: Path)
    requires src.Some? ==> OneForm(src.value)
    ensures At(MergeOptions(dst, src), path) ==
      MergeOptions(if Cuts(src, path) then None else At(dst, path), At(src, path))
    decreases |path|
  {
    if dst.Some? && src.Some? && |path| > 0 {
      var (d, s, slot) := (dst.value, src.value, path[0]);
      AtStep(dst, path);
      AtStep(src, path);
      AtStep(MergeOptions(dst, src), path);
      assert path[..1] == [slot] && [slot][1..] == [];
      assert slot in MergeTrees(d, s).children <==> Filled(d, s, slot);
      if Filled(d, s, slot) {
        MergedAt(At(dst, [slot]), At(src, [slot]), path[1..]);
        assert At(MergeOptions(dst, src), [slot]) == MergeOptions(At(dst, [slot]), At(src, [slot]));
      }
    }
  }

  lemma {:induction false} MergedIsOneForm(dst: Tree, src: Tree)
    requires OneForm(dst) && OneForm(src)
    ensures OneForm(MergeTrees(dst, src))
    decreases dst
  {
    var m := MergeTrees(dst, src);
    forall slot | slot in m.children
      ensures OneForm(m.children[slot])
    {
      if slot in dst.children && slot in src.children {
        MergedIsOneForm(dst.children[slot], src.children[slot]);
      }
    }
  }

  ghost function Required(t: Option<Tree>): set<string> {
    if t.None? then {} else SetOf(t.value.node.required)
  }

  ghost function Enumerated(t: Option<Tree>): set<string> {
    if t.None? then {} else SetOf(t.value.node.enum)
  }

  ghost function PropertiesOf(t: Option<Tree>): set<string> {
    if t.None? then {} else set slot | slot in t.value.children && slot.Property? :: slot.name
  }

  lemma {:induction false} SetOfConcat(a: seq<string>, b: seq<string>)
    ensures SetOf(a + b) == SetOf(a) + SetOf(b)
  {
  }

  lemma {:induction false} AscendingIsDistinct(s: seq<string>)
    requires Ascending(s)
    ensures Distinct(s)
  {
    forall i, j | 0 <= i < j < |s|
      ensures s[i] != s[j]
    {
      BeforeIsTotal(s[i], s[j]);
    }
  }

  lemma {:induction false} MergedSets(dst: Option<Tree>, src: Option<Tree>)
    ensures Required(MergeOptions(dst, src)) == Required(dst) + Required(src)
    ensures Enumerated(MergeOptions(dst, src)) == Enumerated(dst) + Enumerated(src)
    ensures PropertiesOf(MergeOptions(dst, src)) == PropertiesOf(dst) + PropertiesOf(src)
    ensures dst.Some? && src.Some? ==> DuplicateFree(MergeOptions(dst, src).value)
  {
    if dst.Some? && src.Some? {
      var (d, s) := (dst.value, src.value);
      var m := MergeTrees(d, s);
      SetOfConcat(d.node.required, s.node.required);
      SetOfConcat(d.node.enum, s.node.enum);
      AscendingIsDistinct(m.node.required);
      AscendingIsDistinct(m.node.enum);
      forall name
        ensures Property(name) in m.children <==> Property(name) in d.children || Property(name) in s.children
      {
      }
      forall name
        ensures name in PropertiesOf(Some(m)) <==> name in PropertiesOf(dst) + PropertiesOf(src)
      {
        HasProperty(m, name);
        HasProperty(d, name);
        HasProperty(s, name);
      }
    }
  }

  lemma {:induction false} HasProperty(t: Tree, name: string)
    ensures name in PropertiesOf(Some(t)) <==> Property(name) in t.children
  {
    if Property(name) in t.children {
      assert Property(name).name == name;
    }
  }

  /** Sections 5.4.3 and 5.5.1 of JSON Schema Validation draft 4 ask for this. */
  ghost predicate DuplicateFree(t: Tree) {
    Distinct(t.node.required) && Distinct(t.node.enum)
  }

  type Document = Tree

  const EMPTY_DOCUMENT: Document := Tree(Node("", "", map[], None, [], [], [], [], []), map[])

  ghost function Lookup(doc: Document, key: string): Option<Tree> {
    if Definition(key) in doc.children then Some(doc.children[Definition(key)]) else None
  }

  ghost function DefinitionsOf(doc: Document): (r: set<Slot>)
    ensures r <= doc.children.Keys
  {
    set slot | slot in doc.children && slot.Definition?
  }

  /** Only the definitions of a layer are merged. */
  ghost function MergeDocuments(dst: Document, src: Document): Document {
    Tree(dst.node,
         map slot | slot in dst.children.Keys + DefinitionsOf(src) :: Expected(dst, src, DefinitionsOf(src), slot))
  }

  /** What a field holds when the slots in `done` have been merged. */
  ghost function Expected(dst: Tree, src: Tree, done: set<Slot>, slot: Slot): Tree
    requires slot in dst.children || (slot in done && slot in src.children)
  {
    if slot !in dst.children then src.children[slot]
    else if slot in done && slot in src.children then MergeTrees(dst.children[slot], src.children[slot])
    else dst.children[slot]
  }

  /** The layers, merged one after the other. */
  ghost function MergeLayers(docs: seq<Document>): Document {
    if |docs| == 0 then EMPTY_DOCUMENT else MergeDocuments(MergeLayers(docs[..|docs| - 1]), docs[|docs| - 1])
  }

  /** The schema at a path of a definition. */
  ghost function Schema(doc: Document, key: string, path: Path): Option<Tree> {
    At(Lookup(doc, key), path)
  }

  /** Layer `i` has a schema at this path, and no later layer drops it. */
  ghost predicate Survives(docs: seq<Document>, key: string, path: Path, i: int) {
    && 0 <= i < |docs| && Schema(docs[i], key, path).Some?
    && forall j :: i < j < |docs| ==> !Cuts(Lookup(docs[j], key), path)
  }

  ghost predicate InOneLayer(docs: seq<Document>, key: string, path: Path, of: Option<Tree> -> set<string>, x: string) {
    exists i :: Survives(docs, key, path, i) && x in of(Schema(docs[i], key, path))
  }

  /** More than one layer has a schema at this path that is not dropped. */
  ghost predicate Repeated(docs: seq<Document>, key: string, path: Path) {
    exists i, j :: i < j && Survives(docs, key, path, i) && Survives(docs, key, path, j)
  }

  ghost predicate AnyLayer(docs: seq<Document>, key: string, path: Path) {
    exists i :: Survives(docs, key, path, i)
  }

  ghost predicate EveryLayerClean(docs: seq<Document>, key: string, path: Path) {
    forall i :: Survives(docs, key, path, i) ==> DuplicateFree(Schema(docs[i], key, path).value)
  }

  ghost predicate Parsed(docs: seq<Document>) {
    forall i :: 0 <= i < |docs| ==> OneForm(docs[i])
  }

  /** Merged layers have the form of parsed ones, so they can be a layer again. */
  lemma {:induction false} MergedLayersParse(docs: seq<Document>)
    requires Parsed(docs)
    ensures OneForm(MergeLayers(docs))
  {
    if |docs| > 0 {
      var (init, last) := (docs[..|docs| - 1], docs[|docs| - 1]);
      MergedLayersParse(init);
      MergedDocumentIsOneForm(MergeLayers(init), last);
    }
  }

  lemma {:induction false} MergedDocumentIsOneForm(dst: Document, src: Document)
    requires OneForm(dst) && OneForm(src)
    ensures OneForm(MergeDocuments(dst, src))
  {
    var m := MergeDocuments(dst, src);
    forall slot | slot in m.children
      ensures OneForm(m.children[slot])
    {
      if slot in dst.children && slot in src.children {
        MergedIsOneForm(dst.children[slot], src.children[slot]);
      }
    }
  }

  lemma {:induction false} OneMoreLayer(docs: seq<Document>, key: string, path: Path)
    requires |docs| > 0 && Parsed(docs)
    ensures
      var n := |docs| - 1;
      var kept := if Cuts(Lookup(docs[n], key), path) then None else Schema(MergeLayers(docs[..n]), key, path);
      Schema(MergeLayers(docs), key, path) == MergeOptions(kept, Schema(docs[n], key, path))
  {
    var n := |docs| - 1;
    MergedAt(Lookup(MergeLayers(docs[..n]), key), Lookup(docs[n], key), path);
    assert Definition(key) in DefinitionsOf(docs[n]) <==> Definition(key) in docs[n].children;
  }

  lemma {:induction false} SurvivesOneMore(docs: seq<Document>, key: string, path: Path)
    requires |docs| > 0
    ensures
      var n := |docs| - 1;
      var kept := !Cuts(Lookup(docs[n], key), path);
      forall i :: Survives(docs, key, path, i) <==>
        (kept && Survives(docs[..n], key, path, i)) || (i == n && Schema(docs[n], key, path).Some?)
    ensures forall i :: Survives(docs[..|docs| - 1], key, path, i) ==>
      0 <= i < |docs| - 1 && docs[..|docs| - 1][i] == docs[i] && Schema(docs[i], key, path).Some?
  {
    hide Schema, Cuts, Lookup;
    var n := |docs| - 1;
    assert forall j :: 0 <= j < n ==> docs[..n][j] == docs[j];
    forall i | Survives(docs[..n], key, path, i)
      ensures 0 <= i < n && docs[..n][i] == docs[i] && Schema(docs[i], key, path).Some?
    {
    }
    forall i
      ensures Survives(docs, key, path, i) <==>
        (!Cuts(Lookup(docs[n], key), path) && Survives(docs[..n], key, path, i)) ||
        (i == n && Schema(docs[n], key, path).Some?)
    {
      if 0 <= i < n && Survives(docs, key, path, i) {
        assert !Cuts(Lookup(docs[n], key), path);
        forall j | i < j < n
          ensures !Cuts(Lookup(docs[..n][j], key), path)
        {
          assert docs[..n][j] == docs[j];
        }
      }
    }
  }

  /** At every path the merged layers have what some layer has there, unless a later layer drops it. */
  lemma {:induction false} LayersUnite(docs: seq<Document>, key: string, path: Path, x: string)
    requires Parsed(docs)
    ensures
      var merged := Schema(MergeLayers(docs), key, path);
      && (x in Required(merged) <==> InOneLayer(docs, key, path, Required, x))
      && (x in Enumerated(merged) <==> InOneLayer(docs, key, path, Enumerated, x))
      && (x in PropertiesOf(merged) <==> InOneLayer(docs, key, path, PropertiesOf, x))
  {
    if |docs| == 0 {
      return;
    }
    var n := |docs| - 1;
    assert Parsed(docs[..n]);
    hide Parsed, Schema, Cuts, Lookup, MergeLayers, InOneLayer, MergeOptions;
    var cut := Cuts(Lookup(docs[n], key), path);
    OneMoreLayer(docs, key, path);
    LayersUnite(docs[..n], key, path, x);
    MergedSets(if cut then None else Schema(MergeLayers(docs[..n]), key, path), Schema(docs[n], key, path));
    LastLayerOr(docs, key, path, Required, x);
    LastLayerOr(docs, key, path, Enumerated, x);
    LastLayerOr(docs, key, path, PropertiesOf, x);
  }

  lemma {:induction false} LastLayerOr(
    docs: seq<Document>, key: string, path: Path, of: Option<Tree> -> set<string>, x: string)
    requires |docs| > 0 && of(None) == {}
    ensures
      var n := |docs| - 1;
      InOneLayer(docs, key, path, of, x) <==>
      (!Cuts(Lookup(docs[n], key), path) && InOneLayer(docs[..n], key, path, of, x)) ||
      x in of(Schema(docs[n], key, path))
  {
    var n := |docs| - 1;
    if InOneLayer(docs, key, path, of, x) {
      LastOrEarlierLayer(docs, key, path, of, x);
    }
    if !Cuts(Lookup(docs[n], key), path) && InOneLayer(docs[..n], key, path, of, x) {
      EarlierLayerStays(docs, key, path, of, x);
    }
    SurvivesOneMore(docs, key, path);
    hide Schema, Cuts, Lookup, Survives;
    assert x in of(Schema(docs[n], key, path)) ==> Survives(docs, key, path, n);
  }

  lemma {:induction false} LastOrEarlierLayer(
    docs: seq<Document>, key: string, path: Path, of: Option<Tree> -> set<string>, x: string)
    requires |docs| > 0 && InOneLayer(docs, key, path, of, x)
    ensures
      var n := |docs| - 1;
      (!Cuts(Lookup(docs[n], key), path) && InOneLayer(docs[..n], key, path, of, x)) ||
      x in of(Schema(docs[n], key, path))
  {
    var n := |docs| - 1;
    SurvivesOneMore(docs, key, path);
    hide Schema, Cuts, Lookup, Survives;
    var i :| Survives(docs, key, path, i) && x in of(Schema(docs[i], key, path));
    assert i < n ==> docs[i] == docs[..n][i];
  }

  lemma {:induction false} EarlierLayerStays(
    docs: seq<Document>, key: string, path: Path, of: Option<Tree> -> set<string>, x: string)
    requires |docs| > 0
    requires var n := |docs| - 1; !Cuts(Lookup(docs[n], key), path) && InOneLayer(docs[..n], key, path, of, x)
    ensures InOneLayer(docs, key, path, of, x)
  {
    var n := |docs| - 1;
    SurvivesOneMore(docs, key, path);
    hide Schema, Cuts, Lookup, Survives;
    var i :| Survives(docs[..n], key, path, i) && x in of(Schema(docs[..n][i], key, path));
    assert docs[i] == docs[..n][i];
    assert Survives(docs, key, path, i);
  }

  /**
   * A schema is in the merged layers exactly if a layer has it and none drops it; it is free of duplicates
   * exactly if several such layers have it, or the one that has it is.
   */
  lemma {:induction false} DuplicateFreeExactly(docs: seq<Document>, key: string, path: Path)
    requires Parsed(docs)
    ensures Schema(MergeLayers(docs), key, path).Some? <==> AnyLayer(docs, key, path)
    ensures
      var merged := Schema(MergeLayers(docs), key, path);
      merged.Some? ==> (DuplicateFree(merged.value) <==> Repeated(docs, key, path) || EveryLayerClean(docs, key, path))
  {
    if |docs| == 0 {
      return;
    }
    var n := |docs| - 1;
    assert Parsed(docs[..n]);
    hide *;
    OneMoreLayer(docs, key, path);
    DuplicateFreeExactly(docs[..n], key, path);
    var kept := if Cuts(Lookup(docs[n], key), path) then None else Schema(MergeLayers(docs[..n]), key, path);
    CleanWhenMerged(kept, Schema(docs[n], key, path));
    LastLayer(docs, key, path);
    NoLayerThere(docs[..n], key, path);
  }

  lemma {:induction false} CleanWhenMerged(dst: Option<Tree>, src: Option<Tree>)
    ensures MergeOptions(dst, src).Some? <==> dst.Some? || src.Some?
    ensures dst.Some? && src.Some? ==> DuplicateFree(MergeOptions(dst, src).value)
    ensures dst.None? ==> MergeOptions(dst, src) == src
    ensures src.None? ==> MergeOptions(dst, src) == dst
  {
    MergedSets(dst, src);
  }

  lemma {:induction false} NoLayerThere(docs: seq<Document>, key: string, path: Path)
    ensures !AnyLayer(docs, key, path) ==> !Repeated(docs, key, path) && EveryLayerClean(docs, key, path)
  {
  }

  lemma {:induction false} LastLayer(docs: seq<Document>, key: string, path: Path)
    requires |docs| > 0
    ensures
      var (front, last) := (docs[..|docs| - 1], Schema(docs[|docs| - 1], key, path));
      var kept := !Cuts(Lookup(docs[|docs| - 1], key), path);
      && (AnyLayer(docs, key, path) <==> (kept && AnyLayer(front, key, path)) || last.Some?)
      && (Repeated(docs, key, path) <==>
          kept && (Repeated(front, key, path) || (AnyLayer(front, key, path) && last.Some?)))
      && (EveryLayerClean(docs, key, path) <==>
          (kept ==> EveryLayerClean(front, key, path)) && (last.Some? ==> DuplicateFree(last.value)))
  {
    var n := |docs| - 1;
    SurvivesOneMore(docs, key, path);
    hide Schema, Cuts, Lookup, DuplicateFree, Survives;
    assert Schema(docs[n], key, path).Some? ==> Survives(docs, key, path, n);
    RepeatedLast(docs, key, path);
    hide Repeated;
    if EveryLayerClean(docs, key, path) && !Cuts(Lookup(docs[n], key), path) {
      forall i | Survives(docs[..n], key, path, i)
        ensures DuplicateFree(Schema(docs[..n][i], key, path).value)
      {
        assert Survives(docs, key, path, i);
      }
    }
  }

  lemma {:induction false} RepeatedLast(docs: seq<Document>, key: string, path: Path)
    requires |docs| > 0
    ensures
      var (front, last) := (docs[..|docs| - 1], Schema(docs[|docs| - 1], key, path));
      var kept := !Cuts(Lookup(docs[|docs| - 1], key), path);
      Repeated(docs, key, path) <==> kept && (Repeated(front, key, path) || (AnyLayer(front, key, path) && last.Some?))
  {
    var n := |docs| - 1;
    SurvivesOneMore(docs, key, path);
    TwoAlive(docs, docs[..n], key, path, n, !Cuts(Lookup(docs[n], key), path), Schema(docs[n], key, path).Some?);
  }

  lemma {:induction false} TwoAlive(
    docs: seq<Document>, front: seq<Document>, key: string, path: Path, n: int, kept: bool, last: bool)
    requires forall i :: Survives(docs, key, path, i) <==> (kept && Survives(front, key, path, i)) || (i == n && last)
    requires forall i :: Survives(front, key, path, i) ==> i < n
    ensures Repeated(docs, key, path) <==> kept && (Repeated(front, key, path) || (AnyLayer(front, key, path) && last))
  {
    hide Survives;
    if Repeated(docs, key, path) {
      var i, j :| i < j && Survives(docs, key, path, i) && Survives(docs, key, path, j);
      assert kept && Survives(front, key, path, i);
    }
    if kept && Repeated(front, key, path) {
      var i, j :| i < j && Survives(front, key, path, i) && Survives(front, key, path, j);
      assert Survives(docs, key, path, i) && Survives(docs, key, path, j);
    }
    if kept && AnyLayer(front, key, path) && last {
      var i :| Survives(front, key, path, i);
      assert Survives(docs, key, path, i) && Survives(docs, key, path, n);
    }
  }

  /** `{"additionalProperties": {"required": ["a"]}}` under a layer with `{"additionalProperties": false}`. */
  lemma {:induction false} BooleanDropsSchema()
    ensures exists docs: seq<Document>, key, path ::
      && Parsed(docs) && |docs| == 2 && "a" in Required(Schema(docs[0], key, path))
      && Schema(MergeLayers(docs), key, path).None?
  {
    var inner := Tree(EMPTY_DOCUMENT.node.(required := ["a"]), map[]);
    var open := Tree(EMPTY_DOCUMENT.node, map[AdditionalProperties := inner]);
    var closed := Tree(EMPTY_DOCUMENT.node.(additionalAllowed := Some(false)), map[]);
    var (lower, upper) := (Layer("k", open), Layer("k", closed));
    var (docs, path) := ([lower, upper], [AdditionalProperties]);
    assert path[1..] == [] && path[..1] == path;
    assert OneForm(inner) && OneForm(open) && OneForm(closed);
    assert Schema(lower, "k", path) == Some(inner);
    assert "a" in inner.node.required;
    assert Cuts(Lookup(upper, "k"), path);
    OneMoreLayer(docs, "k", path);
  }

  /** A document with one definition. */
  ghost function Layer(key: string, t: Tree): Document {
    Tree(EMPTY_DOCUMENT.node, map[Definition(key) := t])
  }

  /** A definition that one layer has keeps its duplicates. */
  lemma {:induction false} DuplicatesStay()
    ensures exists docs: seq<Document>, key, path ::
      && Parsed(docs) && Schema(MergeLayers(docs), key, path).Some?
      && !DuplicateFree(Schema(MergeLayers(docs), key, path).value)
  {
    var t := Tree(EMPTY_DOCUMENT.node.(required := ["a", "a"]), map[]);
    var (docs, none) := ([Layer("k", t)], []);
    assert t.node.required[0] == t.node.required[1];
    OneMoreLayer(docs, "k", none);
    assert docs[..0] == [];
    assert Schema(MergeLayers(docs), "k", none) == Some(t);
  }

  // ---------------------------------------------------------------------------------------------
  // Schemas in memory
  // ---------------------------------------------------------------------------------------------

  /** A schema, with what it holds all the way down and the schemas it is made of. */
  class SchemaObject {
    var node: Node
    var children: map<Slot, SchemaObject>
    ghost var contents: Tree
    ghost var Repr: set<SchemaObject>

    constructor (node: Node)
      ensures this.node == node && children == map[] && contents == Tree(node, map[]) && Repr == {this} && Valid(this)
    {
      this.node, children, contents, Repr := node, map[], Tree(node, map[]), {this};
    }
  }

  ghost predicate Below(o: SchemaObject, slot: Slot)
    requires slot in o.children
    reads o, o.Repr
  {
    var c := o.children[slot];
    c in o.Repr && c.Repr <= o.Repr && o !in c.Repr &&
    slot in o.contents.children && o.contents.children[slot] == c.contents
  }

  ghost predicate Local(o: SchemaObject)
    reads o, o.Repr
  {
    && o in o.Repr && (forall x :: x in o.Repr ==> x.Repr <= o.Repr)
    && o.contents.node == o.node && o.contents.children.Keys == o.children.Keys
    && (forall s :: s in o.children ==> Below(o, s))
    && (forall s, t :: s in o.children && t in o.children && s != t ==> o.children[s].Repr !! o.children[t].Repr)
  }

  /** A schema none of whose parts is held twice. */
  ghost predicate Valid(o: SchemaObject)
    reads o, o.Repr
  {
    Local(o) && forall x :: x in o.Repr ==> Local(x)
  }

  /** A schema that is made of some of the given objects, and what it holds. */
  ghost predicate Made(c: SchemaObject, from: set<SchemaObject>, t: Tree)
    reads from
  {
    c in from && c.Repr <= from && Valid(c) && c.contents == t
  }

  lemma {:induction false} ChildIsMade(o: SchemaObject, slot: Slot)
    requires Valid(o) && slot in o.children
    ensures slot in o.contents.children
    ensures Made(o.children[slot], o.children[slot].Repr, o.contents.children[slot])
    ensures o.children[slot].Repr <= o.Repr - {o}
  {
    assert Below(o, slot);
  }

  /** The objects a field is made of when the slots in `done` have been merged. */
  ghost function Share(
    dst: map<Slot, set<SchemaObject>>, src: map<Slot, set<SchemaObject>>, done: set<Slot>, slot: Slot)
    : set<SchemaObject>
  {
    (if slot in dst then dst[slot] else {}) + (if slot in done && slot in src then src[slot] else {})
  }

  /** The objects of different fields, and of two schemas, are different. */
  ghost predicate Apart(dst: map<Slot, set<SchemaObject>>, src: map<Slot, set<SchemaObject>>, o: SchemaObject) {
    && (forall s :: s in dst ==> o !in dst[s]) && (forall s :: s in src ==> o !in src[s])
    && (forall s, t :: s in dst && t in dst && s != t ==> dst[s] !! dst[t])
    && (forall s, t :: s in src && t in src && s != t ==> src[s] !! src[t])
    && (forall s, t :: s in dst && t in src ==> dst[s] !! src[t])
  }

  lemma {:induction false} SharesApart(
    dst: map<Slot, set<SchemaObject>>, src: map<Slot, set<SchemaObject>>, o: SchemaObject,
    done: set<Slot>, done': set<Slot>, s: Slot, t: Slot)
    requires Apart(dst, src, o)
    ensures s != t ==> Share(dst, src, done, s) !! Share(dst, src, done', t)
    ensures o !in Share(dst, src, done, s)
  {
  }

  ghost function ReprsOf(children: map<Slot, SchemaObject>): (r: map<Slot, set<SchemaObject>>)
    reads children.Values
    ensures r.Keys == children.Keys && forall s :: s in children ==> r[s] == children[s].Repr
  {
    map s | s in children :: children[s].Repr
  }

  lemma {:induction false} PartsApart(dst: SchemaObject, src: SchemaObject)
    requires Valid(dst) && Valid(src) && dst.Repr !! src.Repr
    ensures Apart(ReprsOf(dst.children), ReprsOf(src.children), dst)
  {
    forall s | s in dst.children
      ensures dst.children[s].Repr <= dst.Repr - {dst}
    {
      ChildIsMade(dst, s);
    }
    forall s | s in src.children
      ensures src.children[s].Repr <= src.Repr
    {
      ChildIsMade(src, s);
    }
  }

  /** The fields of `dst`, with the slots in `done` merged. */
  ghost predicate Merged(
    dst: SchemaObject, d: Tree, s: Tree, dstParts: map<Slot, set<SchemaObject>>, srcParts: map<Slot, set<SchemaObject>>,
    done: set<Slot>)
    reads dst, set slot, x | slot in dst.children && x in Share(dstParts, srcParts, done, slot) :: x
  {
    && dst.children.Keys == d.children.Keys + done && done <= s.children.Keys
    && forall slot :: slot in dst.children ==>
         Made(dst.children[slot], Share(dstParts, srcParts, done, slot), Expected(d, s, done, slot))
  }

  lemma {:induction false} MadeOfMore(c: SchemaObject, from: set<SchemaObject>, more: set<SchemaObject>, t: Tree)
    requires Made(c, from, t) && from <= more
    ensures Made(c, more, t)
  {
  }

  /** Other fields are not concerned by the merging of one. */
  lemma {:induction false} OtherSlots(
    d: Tree, s: Tree, dstParts: map<Slot, set<SchemaObject>>, srcParts: map<Slot, set<SchemaObject>>,
    done: set<Slot>, slot: Slot, other: Slot)
    requires other != slot && (other in d.children || (other in done && other in s.children))
    ensures Share(dstParts, srcParts, done + {slot}, other) == Share(dstParts, srcParts, done, other)
    ensures Expected(d, s, done + {slot}, other) == Expected(d, s, done, other)
  {
  }

  lemma {:induction false} SlotDone(
    d: Tree, s: Tree, dstParts: map<Slot, set<SchemaObject>>, srcParts: map<Slot, set<SchemaObject>>, done: set<Slot>,
    slot: Slot)
    requires slot in s.children && slot in srcParts && slot !in done
    ensures srcParts[slot] <= Share(dstParts, srcParts, done + {slot}, slot)
    ensures slot !in d.children ==> Expected(d, s, done + {slot}, slot) == s.children[slot]
    ensures slot in d.children ==>
      && Expected(d, s, done, slot) == d.children[slot]
      && Expected(d, s, done + {slot}, slot) == MergeTrees(d.children[slot], s.children[slot])
    ensures slot in dstParts ==>
      && Share(dstParts, srcParts, done, slot) == dstParts[slot]
      && Share(dstParts, srcParts, done + {slot}, slot) == dstParts[slot] + srcParts[slot]
  {
  }

  /** A field that only `src` has is taken over as it is. */
  method TakeSlot(
    dst: SchemaObject, slot: Slot, c: SchemaObject, ghost d: Tree, ghost s: Tree,
    ghost dstParts: map<Slot, set<SchemaObject>>, ghost srcParts: map<Slot, set<SchemaObject>>, ghost done: set<Slot>)
    requires Apart(dstParts, srcParts, dst) && Merged(dst, d, s, dstParts, srcParts, done)
    requires slot !in dst.children && slot !in done && slot in s.children && slot in srcParts
    requires Made(c, srcParts[slot], s.children[slot])
    modifies dst`children
    ensures Merged(dst, d, s, dstParts, srcParts, done + {slot}) && dst.children.Keys == old(dst.children.Keys) + {slot}
  {
    hide Made, Apart, MergeTrees, Expected, Share, Valid, Local;
    SlotDone(d, s, dstParts, srcParts, done, slot);
    dst.children := dst.children[slot := c];
    forall t | t in dst.children
      ensures Made(dst.children[t], Share(dstParts, srcParts, done + {slot}, t), Expected(d, s, done + {slot}, t))
    {
      SharesApart(dstParts, srcParts, dst, done + {slot}, done, t, slot);
      if t == slot {
        MadeOfMore(c, srcParts[slot], Share(dstParts, srcParts, done + {slot}, slot), s.children[slot]);
      } else {
        OtherSlots(d, s, dstParts, srcParts, done, slot, t);
        assert old(Made(dst.children[t], Share(dstParts, srcParts, done, t), Expected(d, s, done, t)));
      }
    }
  }

  /** Merges two schemas that are made of different objects. */
  method MergeMade(
    m: SchemaObject, c: SchemaObject, ghost from: set<SchemaObject>, ghost from': set<SchemaObject>, ghost t: Tree,
    ghost t': Tree)
    requires Made(m, from, t) && Made(c, from', t') && from !! from'
    modifies from
    ensures Made(m, from + from', MergeTrees(t, t'))
    decreases t', 4
  {
    MergeSchemaRef(m, c);
  }

  /** A field that both have is merged. */
  method MergeSlot(
    dst: SchemaObject, slot: Slot, c: SchemaObject, ghost d: Tree, ghost s: Tree,
    ghost dstParts: map<Slot, set<SchemaObject>>, ghost srcParts: map<Slot, set<SchemaObject>>, ghost done: set<Slot>)
    requires Apart(dstParts, srcParts, dst) && Merged(dst, d, s, dstParts, srcParts, done)
    requires slot in dst.children && slot !in done && slot in s.children && slot in dstParts && slot in srcParts
    requires Made(c, srcParts[slot], s.children[slot])
    modifies dstParts[slot]
    ensures Merged(dst, d, s, dstParts, srcParts, done + {slot}) && unchanged(dst)
    decreases s, 0
  {
    hide Made, MergeTrees, Expected, Share, Valid, Local;
    SlotDone(d, s, dstParts, srcParts, done, slot);
    var m := dst.children[slot];
    assert Made(m, dstParts[slot], d.children[slot]);
    MergeMade(m, c, dstParts[slot], srcParts[slot], d.children[slot], s.children[slot]);
    forall t | t in dst.children
      ensures Made(dst.children[t], Share(dstParts, srcParts, done + {slot}, t), Expected(d, s, done + {slot}, t))
    {
      if t != slot {
        SharesApart(dstParts, srcParts, dst, done, done, t, slot);
        OtherSlots(d, s, dstParts, srcParts, done, slot, t);
        assert old(Made(dst.children[t], Share(dstParts, srcParts, done, t), Expected(d, s, done, t)));
      }
    }
  }

  method MergeField(
    dst: SchemaObject, slot: Slot, c: SchemaObject, ghost d: Tree, ghost s: Tree,
    ghost dstParts: map<Slot, set<SchemaObject>>, ghost srcParts: map<Slot, set<SchemaObject>>, ghost done: set<Slot>)
    requires Apart(dstParts, srcParts, dst) && Merged(dst, d, s, dstParts, srcParts, done)
    requires slot !in done && slot in s.children && slot in srcParts && d.children.Keys <= dstParts.Keys
    requires Made(c, srcParts[slot], s.children[slot])
    modifies dst`children, if slot in dstParts then dstParts[slot] else {}
    ensures Merged(dst, d, s, dstParts, srcParts, done + {slot})
    ensures dst.node == old(dst.node) && dst.contents == old(dst.contents) && dst.Repr == old(dst.Repr)
    decreases s, 1
  {
    hide Made, MergeTrees, Expected, Share, Valid, Local;
    if slot !in dst.children {
      TakeSlot(dst, slot, c, d, s, dstParts, srcParts, done);
    } else {
      MergeSlot(dst, slot, c, d, s, dstParts, srcParts, done);
    }
  }

  method MergeChildren(
    dst: SchemaObject, fields: map<Slot, SchemaObject>, slots: set<Slot>, ghost d: Tree, ghost s: Tree,
    ghost world: set<SchemaObject>, ghost dstParts: map<Slot, set<SchemaObject>>,
    ghost srcParts: map<Slot, set<SchemaObject>>)
    requires slots <= fields.Keys && slots <= srcParts.Keys && slots <= s.children.Keys
    requires forall slot :: slot in slots ==>
      srcParts[slot] !! world && Made(fields[slot], srcParts[slot], s.children[slot])
    requires dst in world && Apart(dstParts, srcParts, dst)
    requires d.children.Keys <= dstParts.Keys && forall slot :: slot in dstParts ==> dstParts[slot] <= world
    requires Merged(dst, d, s, dstParts, srcParts, {})
    modifies world
    ensures Merged(dst, d, s, dstParts, srcParts, slots)
    ensures dst.node == old(dst.node) && dst.contents == old(dst.contents) && dst.Repr == old(dst.Repr)
    decreases s, 2
  {
    hide *;
    var todo := slots;
    ghost var done: set<Slot> := {};
    while todo != {}
      invariant todo <= slots && done == slots - todo
      invariant forall slot :: slot in slots ==> Made(fields[slot], srcParts[slot], s.children[slot])
      invariant Merged(dst, d, s, dstParts, srcParts, done)
      invariant dst.node == old(dst.node) && dst.contents == old(dst.contents) && dst.Repr == old(dst.Repr)
      decreases |todo|
    {
      var slot :| slot in todo;
      MergeField(dst, slot, fields[slot], d, s, dstParts, srcParts, done);
      done := done + {slot};
      todo := todo - {slot};
    }
    assert done == slots;
  }

  /** What the field `additionalProperties` of `dst` held is dropped if `src` gives a boolean. */
  ghost function Trimmed(d: Tree, s: Tree): (r: Tree)
    ensures r.children.Keys <= d.children.Keys
  {
    if s.node.additionalAllowed.Some? then Tree(d.node, d.children - {AdditionalProperties}) else d
  }

  ghost function MergedSlots(s: Tree): (r: set<Slot>)
    ensures r <= s.children.Keys
  {
    if s.node.additionalAllowed.Some? then s.children.Keys - {AdditionalProperties} else s.children.Keys
  }

  /** The fields that are left when all have been merged are those of the merged tree. */
  lemma {:induction false} AllMerged(d: Tree, s: Tree, r: Tree)
    requires r.node == MergeNodes(d.node, s.node, AdditionalProperties in s.children)
    requires r.children.Keys == Trimmed(d, s).children.Keys + MergedSlots(s)
    requires forall slot :: slot in r.children ==> r.children[slot] == Expected(Trimmed(d, s), s, MergedSlots(s), slot)
    ensures r == MergeTrees(d, s)
  {
    hide Expected, Trimmed, MergedSlots;
    var m := MergeTrees(d, s);
    forall slot
      ensures slot in r.children <==> slot in m.children
      ensures slot in r.children ==> r.children[slot] == m.children[slot]
    {
      MergedSlotAt(d, s, slot);
    }
    assert r.children == m.children;
  }

  lemma {:induction false} MergedSlotAt(d: Tree, s: Tree, slot: Slot)
    ensures slot in MergeTrees(d, s).children <==> slot in Trimmed(d, s).children.Keys + MergedSlots(s)
    ensures slot in MergeTrees(d, s).children ==>
      MergeTrees(d, s).children[slot] == Expected(Trimmed(d, s), s, MergedSlots(s), slot)
  {
    assert slot in MergeTrees(d, s).children <==> Filled(d, s, slot);
  }

  /** The merged fields make up a schema again. */
  ghost method Close(
    dst: SchemaObject, d: Tree, s: Tree, dstParts: map<Slot, set<SchemaObject>>, srcParts: map<Slot, set<SchemaObject>>,
    done: set<Slot>, all: set<SchemaObject>)
    requires Apart(dstParts, srcParts, dst) && Merged(dst, d, s, dstParts, srcParts, done) && dst in all
    requires forall slot :: slot in dst.children ==> Share(dstParts, srcParts, done, slot) <= all
    modifies dst`contents, dst`Repr
    ensures Valid(dst) && dst.Repr <= all
    ensures dst.contents.node == dst.node && dst.contents.children.Keys == dst.children.Keys == d.children.Keys + done
    ensures forall slot :: slot in dst.children ==> dst.contents.children[slot] == Expected(d, s, done, slot)
  {
    MadeIsApart(dst, d, s, dstParts, srcParts, done, all);
    hide *;
    Assemble(dst);
  }

  ghost function PartsOf(children: map<Slot, SchemaObject>): set<SchemaObject>
    reads children.Values
  {
    set slot, x | slot in children && x in children[slot].Repr :: x
  }

  ghost function ContentsOf(children: map<Slot, SchemaObject>): (m: map<Slot, Tree>)
    reads children.Values
    ensures m.Keys == children.Keys && forall slot :: slot in children ==> m[slot] == children[slot].contents
  {
    map slot | slot in children :: children[slot].contents
  }

  lemma {:induction false} MadeIsApart(
    o: SchemaObject, d: Tree, s: Tree, dstParts: map<Slot, set<SchemaObject>>, srcParts: map<Slot, set<SchemaObject>>,
    done: set<Slot>, all: set<SchemaObject>)
    requires Apart(dstParts, srcParts, o) && Merged(o, d, s, dstParts, srcParts, done)
    requires forall slot :: slot in o.children ==> Share(dstParts, srcParts, done, slot) <= all
    ensures forall slot :: slot in o.children ==> Valid(o.children[slot]) && o !in o.children[slot].Repr
    ensures o !in o.children.Values && PartsOf(o.children) <= all
    ensures o.children.Keys == d.children.Keys + done
    ensures forall slot :: slot in o.children ==> o.children[slot].contents == Expected(d, s, done, slot)
    ensures forall s, t :: s in o.children && t in o.children && s != t ==> o.children[s].Repr !! o.children[t].Repr
  {
    hide Apart, Share, Valid, MergeTrees;
    forall slot | slot in o.children
      ensures Valid(o.children[slot]) && o !in o.children[slot].Repr && o.children[slot].Repr <= all
      ensures o != o.children[slot]
    {
      SharesApart(dstParts, srcParts, o, done, done, slot, slot);
    }
    forall s, t | s in o.children && t in o.children && s != t
      ensures o.children[s].Repr !! o.children[t].Repr
    {
      SharesApart(dstParts, srcParts, o, done, done, s, t);
    }
  }

  /** Schemas that share nothing make up a schema. */
  ghost method Assemble(o: SchemaObject)
    requires forall slot :: slot in o.children ==> Valid(o.children[slot]) && o !in o.children[slot].Repr
    requires forall s, t :: s in o.children && t in o.children && s != t ==> o.children[s].Repr !! o.children[t].Repr
    requires o !in o.children.Values
    modifies o`contents, o`Repr
    ensures Valid(o) && o.Repr == {o} + old(PartsOf(o.children))
    ensures o.contents == Tree(o.node, old(ContentsOf(o.children)))
  {
    hide *;
    var contents, parts := ContentsOf(o.children), PartsOf(o.children);
    o.contents := Tree(o.node, contents);
    o.Repr := {o} + parts;
    assert ContentsOf(o.children) == contents && PartsOf(o.children) == parts;
    Assembled(o);
  }

  lemma {:induction false} Assembled(o: SchemaObject)
    requires forall slot :: slot in o.children ==> Valid(o.children[slot]) && o !in o.children[slot].Repr
    requires forall s, t :: s in o.children && t in o.children && s != t ==> o.children[s].Repr !! o.children[t].Repr
    requires o.Repr == {o} + PartsOf(o.children)
    requires o.contents == Tree(o.node, ContentsOf(o.children))
    ensures Valid(o)
  {
    forall x | x in o.Repr && x != o
      ensures Local(x) && x.Repr <= o.Repr
    {
      var slot :| slot in o.children && x in o.children[slot].Repr;
      PartOf(o, slot, x);
    }
    forall slot | slot in o.children
      ensures Below(o, slot)
    {
      var c := o.children[slot];
      assert Local(c);
      forall x | x in c.Repr
        ensures x in o.Repr
      {
      }
    }
  }

  lemma {:induction false} PartOf(o: SchemaObject, slot: Slot, x: SchemaObject)
    requires slot in o.children && Valid(o.children[slot]) && x in o.children[slot].Repr
    requires o.Repr == {o} + PartsOf(o.children)
    ensures Local(x) && x.Repr <= o.Repr
  {
    var c := o.children[slot];
    assert Local(c) && Local(x);
    forall y | y in x.Repr
      ensures y in o.Repr
    {
      assert y in c.Repr;
    }
  }

  /** The first part of a merge: what the schema says itself. */
  method MergeOwn(dst: SchemaObject, src: SchemaObject, ghost d: Tree, ghost s: Tree,
                  ghost dstParts: map<Slot, set<SchemaObject>>, ghost srcParts: map<Slot, set<SchemaObject>>)
    returns (slots: set<Slot>)
    requires dst != src && Apart(dstParts, srcParts, dst) && d.children.Keys == dst.children.Keys == dstParts.Keys
    requires d.node == dst.node && s.node == src.node && s.children.Keys == src.children.Keys
    requires forall slot :: slot in dst.children ==> Made(dst.children[slot], dstParts[slot], d.children[slot])
    modifies dst`node, dst`children
    ensures dst.node == MergeNodes(d.node, s.node, AdditionalProperties in s.children)
    ensures slots == MergedSlots(s) && Merged(dst, Trimmed(d, s), s, dstParts, srcParts, {})
  {
    hide Made;
    slots := src.children.Keys;
    dst.node := MergeNodes(dst.node, src.node, AdditionalProperties in src.children);
    if src.node.additionalAllowed.Some? {
      slots := slots - {AdditionalProperties};
      dst.children := dst.children - {AdditionalProperties};
    }
    forall slot | slot in dst.children
      ensures Made(dst.children[slot], Share(dstParts, srcParts, {}, slot), Expected(Trimmed(d, s), s, {}, slot))
    {
      assert Share(dstParts, srcParts, {}, slot) == dstParts[slot] && Trimmed(d, s).children[slot] == d.children[slot];
      assert old(Made(dst.children[slot], dstParts[slot], d.children[slot]));
    }
  }

  method MergeSchemaRef(dst: SchemaObject, src: SchemaObject)
    requires Valid(dst) && Valid(src) && dst.Repr !! src.Repr
    modifies dst.Repr
    ensures Valid(dst) && dst.Repr <= old(dst.Repr) + src.Repr
    ensures dst.contents == MergeTrees(old(dst.contents), src.contents)
    decreases src.contents, 3
  {
    hide *;
    ghost var (d, s, world) := (dst.contents, src.contents, dst.Repr);
    ghost var (dstParts, srcParts) := (ReprsOf(dst.children), ReprsOf(src.children));
    PartsApart(dst, src);
    PartsMade(dst);
    PartsMade(src);
    SharesWithin(dstParts, srcParts, world, src.Repr);
    var slots := MergeOwn(dst, src, d, s, dstParts, srcParts);
    MergeChildren(dst, src.children, slots, Trimmed(d, s), s, world, dstParts, srcParts);
    Close(dst, Trimmed(d, s), s, dstParts, srcParts, slots, world + src.Repr);
    AllMerged(d, s, dst.contents);
  }

  lemma {:induction false} SharesWithin(
    dst: map<Slot, set<SchemaObject>>, src: map<Slot, set<SchemaObject>>, a: set<SchemaObject>, b: set<SchemaObject>)
    requires forall slot :: slot in dst ==> dst[slot] <= a
    requires forall slot :: slot in src ==> src[slot] <= b
    ensures forall done, slot :: Share(dst, src, done, slot) <= a + b
  {
  }

  lemma {:induction false} PartsMade(o: SchemaObject)
    requires Valid(o)
    ensures o in o.Repr && o.contents.node == o.node && o.contents.children.Keys == o.children.Keys
    ensures forall slot :: slot in o.children ==>
      Made(o.children[slot], o.children[slot].Repr, o.contents.children[slot]) && o.children[slot].Repr <= o.Repr - {o}
  {
    forall slot | slot in o.children
      ensures Made(o.children[slot], o.children[slot].Repr, o.contents.children[slot])
      ensures o.children[slot].Repr <= o.Repr - {o}
    {
      ChildIsMade(o, slot);
    }
  }

  /** Merges the definitions of a document into another. */
  method Merge(dst: SchemaObject, src: SchemaObject)
    requires Valid(dst) && Valid(src) && dst.Repr !! src.Repr
    modifies dst.Repr
    ensures Valid(dst) && dst.Repr <= old(dst.Repr) + src.Repr
    ensures dst.contents == MergeDocuments(old(dst.contents), src.contents)
  {
    hide *;
    ghost var (d, s, world) := (dst.contents, src.contents, dst.Repr);
    ghost var (dstParts, srcParts) := (ReprsOf(dst.children), ReprsOf(src.children));
    PartsApart(dst, src);
    PartsMade(dst);
    PartsMade(src);
    SharesWithin(dstParts, srcParts, world, src.Repr);
    NoneMerged(dst, d, s, dstParts, srcParts);
    var slots := set slot | slot in src.children && slot.Definition?;
    MergeChildren(dst, src.children, slots, d, s, world, dstParts, srcParts);
    Close(dst, d, s, dstParts, srcParts, slots, world + src.Repr);
    DefinitionsMerged(d, s, slots, dst.contents);
  }

  lemma {:induction false} NoneMerged(
    o: SchemaObject, d: Tree, s: Tree, dstParts: map<Slot, set<SchemaObject>>, srcParts: map<Slot, set<SchemaObject>>)
    requires o.children.Keys == d.children.Keys == dstParts.Keys
    requires forall slot :: slot in o.children ==> Made(o.children[slot], dstParts[slot], d.children[slot])
    ensures Merged(o, d, s, dstParts, srcParts, {})
  {
    hide Made;
    forall slot | slot in o.children
      ensures Made(o.children[slot], Share(dstParts, srcParts, {}, slot), Expected(d, s, {}, slot))
    {
      assert Share(dstParts, srcParts, {}, slot) == dstParts[slot];
    }
  }

  lemma {:induction false} DefinitionsMerged(d: Tree, s: Tree, slots: set<Slot>, r: Tree)
    requires slots == set slot | slot in s.children && slot.Definition?
    requires r.node == d.node && r.children.Keys == d.children.Keys + slots
    requires forall slot :: slot in r.children ==> r.children[slot] == Expected(d, s, slots, slot)
    ensures r == MergeDocuments(d, s)
  {
    assert DefinitionsOf(s) == slots;
    assert r.children == MergeDocuments(d, s).children;
  }

  ghost function ContentsOfAll(docs: seq<SchemaObject>): (r: seq<Tree>)
    reads docs
    ensures |r| == |docs| && forall i :: 0 <= i < |docs| ==> r[i] == docs[i].contents
  {
    seq(|docs|, i requires 0 <= i < |docs| reads docs => docs[i].contents)
  }

  ghost function ReprsOfAll(docs: seq<SchemaObject>): (r: seq<set<SchemaObject>>)
    reads docs
    ensures |r| == |docs| && forall i :: 0 <= i < |docs| ==> r[i] == docs[i].Repr
  {
    seq(|docs|, i requires 0 <= i < |docs| reads docs => docs[i].Repr)
  }

  ghost function Joined(parts: seq<set<SchemaObject>>): set<SchemaObject> {
    set i, x | 0 <= i < |parts| && x in parts[i] :: x
  }

  lemma {:induction false} JoinedApart(parts: seq<set<SchemaObject>>, i: nat)
    requires i < |parts| && forall j, k :: 0 <= j < k < |parts| ==> parts[j] !! parts[k]
    ensures Joined(parts[..i]) !! parts[i] && Joined(parts[..i]) <= Joined(parts)
    ensures Joined(parts[..i]) + parts[i] <= Joined(parts[..i + 1])
    ensures forall j :: i < j < |parts| ==> Joined(parts[..i]) !! parts[j]
  {
    assert parts[..i + 1][i] == parts[i];
    assert forall j :: 0 <= j < i ==> parts[..i][j] == parts[j] && parts[..i + 1][j] == parts[j];
  }

  lemma {:induction false} LayersStep(layers: seq<Document>, i: nat)
    requires i < |layers|
    ensures MergeLayers(layers[..i + 1]) == MergeDocuments(MergeLayers(layers[..i]), layers[i])
  {
    assert layers[..i + 1][..i] == layers[..i];
  }

  lemma {:induction false} NoLayers(layers: seq<Document>)
    ensures MergeLayers(layers[..0]) == Tree(EMPTY_DOCUMENT.node, map[])
  {
  }

  lemma {:induction false} AllMade(docs: seq<SchemaObject>)
    requires forall i :: 0 <= i < |docs| ==> Valid(docs[i])
    ensures forall i :: 0 <= i < |docs| ==> Made(docs[i], docs[i].Repr, docs[i].contents)
  {
  }

  method MergeLayer(
    result: SchemaObject, doc: SchemaObject, ghost merged: set<SchemaObject>, ghost part: set<SchemaObject>,
    ghost layer: Tree)
    requires Valid(result) && result.Repr <= merged && Made(doc, part, layer) && merged !! part
    modifies merged
    ensures Valid(result) && result.Repr <= merged + part
    ensures result.contents == MergeDocuments(old(result.contents), layer)
  {
    Merge(result, doc);
  }

  method MergeDefinitions(documents: seq<SchemaObject>) returns (result: SchemaObject)
    requires forall i :: 0 <= i < |documents| ==> Valid(documents[i])
    requires forall i, j :: 0 <= i < j < |documents| ==> documents[i].Repr !! documents[j].Repr
    modifies Joined(ReprsOfAll(documents))
    ensures Valid(result) && result.contents == MergeLayers(old(ContentsOfAll(documents)))
  {
    hide *;
    ghost var (layers, parts) := (ContentsOfAll(documents), ReprsOfAll(documents));
    AllMade(documents);
    NoLayers(layers);
    result := new SchemaObject(EMPTY_DOCUMENT.node);
    assert forall j :: 0 <= j < |documents| ==> result !in parts[j];
    for i := 0 to |documents|
      invariant Valid(result) && result.contents == MergeLayers(layers[..i])
      invariant result.Repr <= {result} + Joined(parts[..i])
      invariant forall j :: i <= j < |documents| ==> Made(documents[j], parts[j], layers[j])
    {
      LayersStep(layers, i);
      JoinedApart(parts, i);
      ghost var merged := {result} + Joined(parts[..i]);
      assert forall j :: i <= j < |documents| ==> parts[j] !! merged;
      label before:
      MergeLayer(result, documents[i], merged, parts[i], layers[i]);
      forall j | i < j < |documents|
        ensures Made(documents[j], parts[j], layers[j])
      {
        assert old@before(Made(documents[j], parts[j], layers[j]));
      }
    }
    assert layers[..|documents|] == layers;
  }
}
