/**
 * What reaches the modules of a blueprint (manager/controllers/app/blueprint_mgr.go): the arguments and the
 * assets of the instances of its cluster, name by name and in step order.
 */
module BlueprintDelivery {
  import opened Prelude
  import opened DataPaths
  import opened PlotterTypes
  import opened BlueprintCompiler

  ghost function Those(list: seq<Instance>, keep: Instance -> bool): seq<Instance> {
    if list == [] then []
    else Those(list[..|list| - 1], keep) + if keep(list[|list| - 1]) then [list[|list| - 1]] else []
  }

  /** Instances with a given name in the blueprint. */
  ghost function Called(hash: string -> string, n: string): Instance -> bool {
    (x: Instance) => Named(x) && InstanceName(x, hash) == n
  }

  /** Those of them that are run once per asset. */
  ghost function Own(hash: string -> string, n: string): Instance -> bool {
    (x: Instance) => x.scope == AssetScope && Named(x) && InstanceName(x, hash) == n
  }

  /** Those of them that share a module. */
  ghost function Sharing(n: string): Instance -> bool {
    (x: Instance) => SharedBy(x, n)
  }

  // What a list of instances carries, in order.

  ghost function Reads(list: seq<Instance>): seq<ReadArg> {
    if list == [] then [] else Reads(list[..|list| - 1]) + list[|list| - 1].args.read
  }

  ghost function Writes(list: seq<Instance>): seq<WriteArg> {
    if list == [] then [] else Writes(list[..|list| - 1]) + list[|list| - 1].args.write
  }

  ghost function Assets(list: seq<Instance>): seq<string> {
    if list == [] then [] else Assets(list[..|list| - 1]) + list[|list| - 1].assetIDs
  }

  lemma {:induction false} ThoseMembers(list: seq<Instance>, keep: Instance -> bool)
    ensures forall x :: x in Those(list, keep) <==> x in list && keep(x)
  {
    if list != [] {
      var (init, last) := (list[..|list| - 1], list[|list| - 1]);
      ThoseMembers(init, keep);
      assert list == init + [last];
    }
  }

  lemma {:induction false} AtLeastTwo(list: seq<Instance>, keep: Instance -> bool, i: nat, j: nat)
    requires i < j < |list| && keep(list[i]) && keep(list[j])
    ensures |Those(list, keep)| >= 2
  {
    var init := list[..|list| - 1];
    if j < |init| {
      AtLeastTwo(init, keep, i, j);
    } else {
      ThoseMembers(init, keep);
      assert init[i] in init && init[i] in Those(init, keep);
    }
  }

  lemma {:induction false} FindTwo(list: seq<Instance>, keep: Instance -> bool) returns (i: nat, j: nat)
    requires |Those(list, keep)| >= 2
    ensures i < j < |list| && keep(list[i]) && keep(list[j])
  {
    var (init, last) := (list[..|list| - 1], list[|list| - 1]);
    if |Those(init, keep)| >= 2 {
      i, j := FindTwo(init, keep);
    } else {
      ThoseMembers(init, keep);
      assert Those(init, keep)[0] in Those(init, keep);
      var k :| 0 <= k < |init| && init[k] == Those(init, keep)[0];
      i, j := k, |init|;
    }
  }

  ghost predicate Splits(called: seq<Instance>, own: seq<Instance>, shared: seq<Instance>) {
    && |Assets(called)| == |Assets(own)| + |Assets(shared)|
    && (own == [] ==> called == shared) && (shared == [] ==> called == own)
  }

  /** A name is called by instances that own it and instances that share it. */
  lemma {:induction false} CalledSplits(list: seq<Instance>, hash: string -> string, n: string)
    requires AllNamed(list)
    ensures Splits(Those(list, Called(hash, n)), Those(list, Own(hash, n)), Those(list, Sharing(n)))
  {
    if list == [] {
      return;
    }
    var (init, last) := (list[..|list| - 1], list[|list| - 1]);
    assert AllNamed(init) && Named(last) && list == init + [last];
    hide *;
    CalledSplits(init, hash, n);
    ThoseSnoc(init, last, Called(hash, n));
    ThoseSnoc(init, last, Own(hash, n));
    ThoseSnoc(init, last, Sharing(n));
    CalledEither(last, hash, n);
    SplitStep(Those(init, Called(hash, n)), Those(init, Own(hash, n)), Those(init, Sharing(n)), last,
              Own(hash, n)(last), Sharing(n)(last));
  }

  lemma {:induction false} SplitStep(
    called: seq<Instance>, own: seq<Instance>, shared: seq<Instance>, x: Instance, owns: bool, shares: bool)
    requires Splits(called, own, shared) && !(owns && shares)
    ensures Splits(if owns || shares then called + [x] else called, if owns then own + [x] else own,
                   if shares then shared + [x] else shared)
  {
    AssetsSnoc(called, x);
    AssetsSnoc(own, x);
    AssetsSnoc(shared, x);
    hide Assets;
  }

  lemma {:induction false} CalledEither(x: Instance, hash: string -> string, n: string)
    requires Named(x)
    ensures Called(hash, n)(x) <==> Own(hash, n)(x) || Sharing(n)(x)
    ensures !(Own(hash, n)(x) && Sharing(n)(x))
  {
  }

  lemma {:induction false} ThoseSnoc(init: seq<Instance>, x: Instance, keep: Instance -> bool)
    ensures Those(init + [x], keep) == if keep(x) then Those(init, keep) + [x] else Those(init, keep)
  {
    assert (init + [x])[..|init|] == init;
  }

  lemma {:induction false} AssetsSnoc(list: seq<Instance>, x: Instance)
    ensures Assets(list + [x]) == Assets(list) + x.assetIDs && Assets(list + []) == Assets(list)
    ensures Reads(list + [x]) == Reads(list) + x.args.read
    ensures Writes(list + [x]) == Writes(list) + x.args.write
  {
    assert (list + [x])[..|list|] == list && list + [] == list;
  }

  lemma {:induction false} CarriedByAll(list: seq<Instance>, x: Instance)
    requires x in list
    ensures forall r :: r in x.args.read ==> r in Reads(list)
    ensures forall w :: w in x.args.write ==> w in Writes(list)
    ensures forall id :: id in x.assetIDs ==> id in Assets(list)
  {
    var (init, last) := (list[..|list| - 1], list[|list| - 1]);
    assert list == init + [last];
    if x in init {
      CarriedByAll(init, x);
    }
  }

  /** The instance carries what the list carries, in order, and makes the copy that the first of the list makes. */
  ghost predicate Carries(u: Instance, list: seq<Instance>) {
    && list != [] && u == list[0].(args := u.args, assetIDs := u.assetIDs)
    && u.args == Arguments(list[0].args.copy, Reads(list), Writes(list)) && u.assetIDs == Assets(list)
  }

  lemma {:induction false} CarriesOne(x: Instance)
    ensures Carries(x, [x])
  {
    var none: seq<Instance> := [];
    AssetsSnoc(none, x);
    assert none + [x] == [x];
    assert Reads([x]) == x.args.read && Writes([x]) == x.args.write && Assets([x]) == x.assetIDs;
  }

  lemma {:induction false} CarriesMore(u: Instance, list: seq<Instance>, x: Instance)
    requires Carries(u, list)
    ensures Carries(Unite(u, x), list + [x])
  {
    AssetsSnoc(list, x);
  }

  /** A shared module carries what its instances carry, in order; of copies it keeps that of the first instance. */
  lemma {:induction false} UnitedInOrder(list: seq<Instance>, n: string)
    ensures United(list, n).None? <==> Those(list, Sharing(n)) == []
    ensures United(list, n).Some? ==> Carries(United(list, n).value, Those(list, Sharing(n)))
  {
    if list != [] {
      var (init, last) := (list[..|list| - 1], list[|list| - 1]);
      UnitedInOrder(init, n);
      hide Carries;
      var before := Those(init, Sharing(n));
      if !SharedBy(last, n) {
        assert Those(list, Sharing(n)) == before;
      } else if before == [] {
        assert Those(list, Sharing(n)) == [last];
        CarriesOne(last);
      } else {
        CarriesMore(United(init, n).value, before, last);
      }
    }
  }

  lemma {:induction false} LastOwn(list: seq<Instance>, hash: string -> string, n: string)
    requires AllNamed(PerAsset(list))
    ensures
      var own := Those(list, Own(hash, n));
      LastNamed(PerAsset(list), hash, n) == if own == [] then None else Some(own[|own| - 1])
  {
    if list != [] {
      var (init, last) := (list[..|list| - 1], list[|list| - 1]);
      var kept := PerAsset(init);
      assert PerAsset(list)[..|kept|] == kept;
      assert forall i :: 0 <= i < |kept| ==> kept[i] == PerAsset(list)[i];
      LastOwn(init, hash, n);
      if last.scope == AssetScope {
        assert PerAsset(list) == kept + [last];
        assert PerAsset(list)[|kept|] == last && Named(last);
      } else {
        assert PerAsset(list) == kept;
      }
    }
  }

  // ---------------------------------------------------------------------------------------------
  // Distinct names
  // ---------------------------------------------------------------------------------------------

  /** Two instances have the same name only if they share a module. */
  ghost predicate NamesApart(list: seq<Instance>, hash: string -> string)
    requires AllNamed(list)
  {
    forall i, j :: 0 <= i < j < |list| && InstanceName(list[i], hash) == InstanceName(list[j], hash) ==>
      list[i].scope != AssetScope && list[j].scope != AssetScope
  }

  /** The name belongs to one instance alone, or to a shared module alone. */
  ghost predicate ApartAt(list: seq<Instance>, hash: string -> string, n: string) {
    || Those(list, Own(hash, n)) == []
    || (|Those(list, Own(hash, n))| == 1 && Those(list, Sharing(n)) == [])
  }

  lemma {:induction false} ApartByName(list: seq<Instance>, hash: string -> string, n: string)
    requires AllNamed(list) && NamesApart(list, hash)
    ensures ApartAt(list, hash, n)
  {
    if |Those(list, Own(hash, n))| >= 2 {
      OwnedTwice(list, hash, n);
    }
    if Those(list, Own(hash, n)) != [] && Those(list, Sharing(n)) != [] {
      OwnedAndShared(list, hash, n);
    }
  }

  lemma {:induction false} OwnedTwice(list: seq<Instance>, hash: string -> string, n: string)
    requires AllNamed(list) && |Those(list, Own(hash, n))| >= 2
    ensures !NamesApart(list, hash)
  {
    var i, j := FindTwo(list, Own(hash, n));
  }

  lemma {:induction false} OwnedAndShared(list: seq<Instance>, hash: string -> string, n: string)
    requires AllNamed(list) && Those(list, Own(hash, n)) != [] && Those(list, Sharing(n)) != []
    ensures !NamesApart(list, hash)
  {
    var (own, shared) := (Those(list, Own(hash, n)), Those(list, Sharing(n)));
    ThoseMembers(list, Own(hash, n));
    ThoseMembers(list, Sharing(n));
    assert own[0] in own && shared[0] in shared;
    var i :| 0 <= i < |list| && list[i] == own[0];
    var j :| 0 <= j < |list| && list[j] == shared[0];
    assert InstanceName(list[i], hash) == InstanceName(list[j], hash) && i != j;
  }

  lemma {:induction false} OneNameTwice(list: seq<Instance>, hash: string -> string, x: Instance, y: Instance)
    requires AllNamed(list) && x in list && y in list && x != y && x.scope == AssetScope && Named(x) && Named(y)
    requires InstanceName(x, hash) == InstanceName(y, hash)
    ensures !NamesApart(list, hash)
  {
    var i :| 0 <= i < |list| && list[i] == x;
    var j :| 0 <= j < |list| && list[j] == y;
    assert InstanceName(list[i], hash) == InstanceName(list[j], hash);
  }

  lemma {:induction false} ApartEverywhere(list: seq<Instance>, hash: string -> string)
    requires AllNamed(list) && forall n :: ApartAt(list, hash, n)
    ensures NamesApart(list, hash)
  {
    forall i, j | 0 <= i < j < |list| && InstanceName(list[i], hash) == InstanceName(list[j], hash)
      ensures list[i].scope != AssetScope && list[j].scope != AssetScope
    {
      var n := InstanceName(list[i], hash);
      assert ApartAt(list, hash, n);
      ThoseMembers(list, Own(hash, n));
      ThoseMembers(list, Sharing(n));
      assert list[i] in list && list[j] in list;
      if list[i].scope == AssetScope && list[j].scope == AssetScope {
        AtLeastTwo(list, Own(hash, n), i, j);
      }
    }
  }

  /** What a module of the blueprint holds, if it holds the arguments of all instances of its name. */
  ghost predicate Holds(m: BlueprintModule, instances: seq<Instance>) {
    && instances != [] && m.name == instances[0].moduleName && m.chart == instances[0].chart
    && m.args == Arguments(instances[0].args.copy, Reads(instances), Writes(instances))
    && m.assetIDs == Assets(instances)
  }

  /**
   * With distinct names, each module of a blueprint has the reads, the writes and the assets of exactly the
   * instances of its name, in step order, and there is a module for each name.
   */
  lemma {:induction false} DeliveredInOrder(
    modules: map<string, BlueprintModule>, list: seq<Instance>, hash: string -> string, n: string)
    requires IsCompiled(modules, list, hash) && AllNamed(list) && ApartAt(list, hash, n)
    ensures n in modules <==> Those(list, Called(hash, n)) != []
    ensures n in modules ==> Holds(modules[n], Those(list, Called(hash, n)))
  {
    var (own, shared) := (Those(list, Own(hash, n)), Those(list, Sharing(n)));
    CalledSplits(list, hash, n);
    UnitedInOrder(list, n);
    LastOwn(list, hash, n);
    if |own| == 1 {
      CarriesOne(own[0]);
      assert own == [own[0]];
    }
    assert (if n in modules then Some(modules[n]) else None) ==
      match Compiled(list, hash, n) { case Some(x) => Some(ToModule(x)) case None => None };
    hide Those, United, LastNamed, PerAsset, IsCompiled;
  }

  lemma {:induction false} OwnAssets(list: seq<Instance>)
    requires list != [] && forall i :: 0 <= i < |list| ==> list[i].assetIDs != []
    ensures |Assets(list)| >= |list[|list| - 1].assetIDs| + |list| - 1
  {
    if |list| > 1 {
      OwnAssets(list[..|list| - 1]);
    }
  }

  /** A name that is not apart loses an asset. */
  lemma {:induction false} ClashLoses(
    modules: map<string, BlueprintModule>, list: seq<Instance>, hash: string -> string, n: string)
    requires IsCompiled(modules, list, hash) && AllNamed(list) && !ApartAt(list, hash, n)
    ensures n in modules && |modules[n].assetIDs| < |Assets(Those(list, Called(hash, n)))|
  {
    var (own, shared) := (Those(list, Own(hash, n)), Those(list, Sharing(n)));
    CalledSplits(list, hash, n);
    UnitedInOrder(list, n);
    LastOwn(list, hash, n);
    ThoseMembers(list, Own(hash, n));
    assert forall i :: 0 <= i < |own| ==> own[i] in own;
    OwnAssets(own);
    assert (if n in modules then Some(modules[n]) else None) ==
      match Compiled(list, hash, n) { case Some(x) => Some(ToModule(x)) case None => None };
    hide Those, United, LastNamed, PerAsset, IsCompiled;
  }

  /** Every asset of every instance is delivered, in order, exactly if the names are apart. */
  lemma {:induction false} DeliveredExactly(
    modules: map<string, BlueprintModule>, list: seq<Instance>, hash: string -> string)
    requires IsCompiled(modules, list, hash) && AllNamed(list)
    ensures NamesApart(list, hash) <==> forall n :: n in modules ==> Holds(modules[n], Those(list, Called(hash, n)))
  {
    hide Holds, IsCompiled, Those, NamesApart;
    if NamesApart(list, hash) {
      forall n | n in modules
        ensures Holds(modules[n], Those(list, Called(hash, n)))
      {
        ApartByName(list, hash, n);
        DeliveredInOrder(modules, list, hash, n);
      }
    } else {
      if forall n :: ApartAt(list, hash, n) {
        ApartEverywhere(list, hash);
        assert false;
      }
      var n :| !ApartAt(list, hash, n);
      ClashLoses(modules, list, hash, n);
      HoldsAssets(modules[n], Those(list, Called(hash, n)));
    }
  }

  lemma {:induction false} HoldsAssets(m: BlueprintModule, instances: seq<Instance>)
    ensures Holds(m, instances) ==> m.assetIDs == Assets(instances)
  {
  }

  /** The instances of its name are the instance alone, or those that share its module. */
  ghost predicate Held(list: seq<Instance>, hash: string -> string, x: Instance, n: string) {
    var called := Those(list, Called(hash, n));
    && called != [] && called[0].moduleName == x.moduleName
    && (forall r :: r in x.args.read ==> r in Reads(called)) && (forall id :: id in x.assetIDs ==> id in Assets(called))
    && (x.scope == AssetScope ==> called == [x] && Assets(called) == x.assetIDs && Reads(called) == x.args.read)
    && (x.scope != AssetScope ==> called == Those(list, Sharing(x.moduleName)))
  }

  lemma {:induction false} IsHeld(list: seq<Instance>, hash: string -> string, x: Instance, n: string)
    requires x in list && AllNamed(list) && Called(hash, n)(x) && ApartAt(list, hash, n)
    ensures Held(list, hash, x, n)
  {
    var called := Those(list, Called(hash, n));
    ThoseMembers(list, Called(hash, n));
    CarriedByAll(called, x);
    if x.scope == AssetScope {
      HeldAlone(list, hash, x, n);
      CarriesOne(x);
    } else {
      HeldTogether(list, hash, x, n);
    }
    hide Those, Reads, Writes, Assets, ApartAt;
  }

  lemma {:induction false} HeldAlone(list: seq<Instance>, hash: string -> string, x: Instance, n: string)
    requires x in list && AllNamed(list) && Own(hash, n)(x) && ApartAt(list, hash, n)
    ensures Those(list, Called(hash, n)) == [x]
  {
    hide Those, Assets, Called, Own, Sharing, Named, AllNamed;
    CalledSplits(list, hash, n);
    ThoseMembers(list, Own(hash, n));
    var own := Those(list, Own(hash, n));
    assert x in own && |own| == 1 && own[0] == x;
  }

  lemma {:induction false} HeldTogether(list: seq<Instance>, hash: string -> string, x: Instance, n: string)
    requires x in list && AllNamed(list) && Sharing(n)(x) && ApartAt(list, hash, n)
    ensures Those(list, Called(hash, n)) == Those(list, Sharing(n)) != []
    ensures Those(list, Called(hash, n))[0].moduleName == x.moduleName
  {
    hide Those, Assets, Called, Own, Named, AllNamed;
    CalledSplits(list, hash, n);
    ThoseMembers(list, Sharing(n));
    assert x in Those(list, Sharing(n));
    assert Those(list, Sharing(n))[0] in Those(list, Sharing(n));
  }

  // ---------------------------------------------------------------------------------------------
  // Copies
  // ---------------------------------------------------------------------------------------------

  ghost predicate CopySurvives(modules: map<string, BlueprintModule>, hash: string -> string, x: Instance) {
    x.args.copy.Some? && Named(x) ==>
      InstanceName(x, hash) in modules && modules[InstanceName(x, hash)].args.copy == x.args.copy
  }

  /** The copy is one that the first instance of a shared module makes. */
  ghost predicate MakesFirstCopy(list: seq<Instance>, x: Instance) {
    x.args.copy.Some? && x.scope != AssetScope ==>
      Those(list, Sharing(x.moduleName)) != [] && Those(list, Sharing(x.moduleName))[0].args.copy == x.args.copy
  }

  lemma {:induction false} CopyKept(
    modules: map<string, BlueprintModule>, list: seq<Instance>, hash: string -> string, x: Instance)
    requires IsCompiled(modules, list, hash) && AllNamed(list) && x in list && Named(x)
    requires ApartAt(list, hash, InstanceName(x, hash))
    ensures CopySurvives(modules, hash, x) <==> MakesFirstCopy(list, x)
  {
    var n := InstanceName(x, hash);
    DeliveredInOrder(modules, list, hash, n);
    if x.scope == AssetScope {
      HeldAlone(list, hash, x, n);
    } else {
      HeldTogether(list, hash, x, n);
    }
    hide IsCompiled, Those;
  }

  /**
   * With distinct names every copy is made exactly if no shared module is given two different ones, or one too late.
   */
  lemma {:induction false} EveryCopySurvivesExactly(
    modules: map<string, BlueprintModule>, list: seq<Instance>, hash: string -> string)
    requires IsCompiled(modules, list, hash) && AllNamed(list) && NamesApart(list, hash)
    ensures (forall x :: x in list ==> CopySurvives(modules, hash, x)) <==>
      forall x :: x in list ==> MakesFirstCopy(list, x)
  {
    hide IsCompiled, NamesApart, CopySurvives, MakesFirstCopy;
    forall x | x in list
      ensures CopySurvives(modules, hash, x) <==> MakesFirstCopy(list, x)
    {
      ApartByName(list, hash, InstanceName(x, hash));
      CopyKept(modules, list, hash, x);
    }
  }

  // ---------------------------------------------------------------------------------------------
  // Instances that get lost
  // ---------------------------------------------------------------------------------------------

  ghost function CopyInstance(scope: Scope, to: string): Instance {
    var copy := CopyArg(DataStore("source", "", map[]), DataStore(to, "", map[]), "d", []);
    Instance("chart", Arguments(Some(copy), [], []), ["d"], "cluster", "m", scope)
  }

  /** Two copies by a module without a scope: the second one is not made. */
  lemma {:induction false} SharedCopyDropped(hash: string -> string)
    ensures exists modules, list, x :: IsCompiled(modules, list, hash) && x in list && !CopySurvives(modules, hash, x)
  {
    var (x, y) := (CopyInstance(Unspecified, "first"), CopyInstance(Unspecified, "second"));
    var list := [x, y];
    assert list[..1] == [x] && [x][..0] == [];
    assert forall m :: United([x], m) == if m == "m" then Some(x) else None;
    assert forall m :: United(list, m) == if m == "m" then Some(Unite(x, y)) else None;
    var none: seq<Instance> := [];
    assert PerAsset([x]) == PerAsset(none) + none == none;
    assert PerAsset(list) == PerAsset([x]) + none == none;
    var modules := map["m" := ToModule(Unite(x, y))];
    assert IsCompiled(modules, list, hash);
    assert y in list && !CopySurvives(modules, hash, y);
  }

  lemma {:induction false} TwoPerAsset(x: Instance, y: Instance)
    requires x.scope == AssetScope && y.scope == AssetScope
    ensures PerAsset([x, y]) == [x, y] && forall m :: United([x, y], m) == None
  {
    var (list, none) := ([x, y], []);
    assert list[..1] == [x] && [x][..0] == none;
    assert PerAsset([x]) == PerAsset(none) + [x] == [x];
    assert forall m :: United([x], m) == None;
  }

  lemma {:induction false} LastOfTwo(x: Instance, y: Instance, hash: string -> string, name: string)
    requires Named(x) && Named(y) && InstanceName(x, hash) == InstanceName(y, hash) == name
    ensures forall n :: LastNamed([x, y], hash, n) == if n == name then Some(y) else None
  {
    var list := [x, y];
    assert list[..1] == [x] && [x][..0] == [];
    assert forall n :: n != name ==> LastNamed([x], hash, n) == None;
  }

  /** Two copies of one dataset by a module run per asset: both are named after the dataset, and the first is lost. */
  lemma {:induction false} OwnCopyReplaced(hash: string -> string)
    ensures exists modules, list, x :: IsCompiled(modules, list, hash) && x in list && !CopySurvives(modules, hash, x)
    ensures exists modules, list ::
      && AllNamed(list) && HoldsLast(modules, list, hash) && !DistinctNames(list, hash) && |modules| < |list|
  {
    var (x, y) := (CopyInstance(AssetScope, "first"), CopyInstance(AssetScope, "second"));
    var (list, name) := ([x, y], "m-" + hash("d"));
    assert "m" + "-" == "m-";
    assert InstanceName(x, hash) == InstanceName(y, hash) == name;
    var modules := map[name := ToModule(y)];
    TwoPerAsset(x, y);
    LastOfTwo(x, y, hash, name);
    hide PerAsset, United, LastNamed;
    assert IsCompiled(modules, list, hash);
    assert x in list && !CopySurvives(modules, hash, x);
    assert HoldsLast(modules, list, hash) && |modules| == 1;
    assert InstanceName(list[0], hash) == InstanceName(list[1], hash);
  }
}
