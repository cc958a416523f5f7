/**
 * The plotter controller (manager/controllers/app/plotter_controller.go): it creates, updates and deletes
 * one blueprint per cluster, and remembers in its status which ones it has created.
 */
module PlotterReconciliation {
  import opened Prelude
  import opened BlueprintCompiler

  datatype ObservedState = ObservedState(ready: bool, error: string)

  /** A blueprint as it is in its cluster: the spec, and what the blueprint controller there reports. */
  datatype RemoteBlueprint = RemoteBlueprint(
    spec: BlueprintSpec, state: ObservedState, modulesState: map<string, ObservedState>)

  /** The plotter and the clusters.  `desired` is what its spec compiles to. */
  datatype World = World(
    desired: map<string, BlueprintSpec>,
    generation: int,
    deleting: bool,
    finalizer: bool,
    tracked: map<string, ObservedState>,         // Status.Blueprints: the last state seen per cluster
    observedGeneration: int,
    ready: bool,
    assets: map<string, ObservedState>,
    deployed: map<string, RemoteBlueprint>)

  const UNKNOWN_STATE := ObservedState(false, "")

  /** What a pass does in one cluster. */
  datatype Event =
    | FetchFailed    // the blueprint could not be fetched; the pass ends here
    | Missing        // the blueprint was not found (yet)
    | Updated        // the blueprint differed, and was updated
    | UpdateFailed   // the blueprint differed, and could not be updated
    | OutOfSync      // the blueprint differs, but the plotter has not changed
    | InSync         // the blueprint is as desired
    | Created
    | CreateFailed
    | Deleted
    | DeleteFailed

  datatype FetchAnswer = FetchRefused | FetchEmpty | FetchServed

  /** A deletion is done, done without an answer, refused, or has no channel to go through. */
  datatype DeleteAnswer = DeleteDone | DeleteLost | DeleteRefused | NoChannel

  /** What the cluster manager answers in one pass; the last is whether the finalizers of the plotter can be updated. */
  datatype Answers = Answers(
    fetch: string -> FetchAnswer, create: string -> bool, update: string -> bool, delete: string -> DeleteAnswer,
    finalizer: bool)

  predicate IsError(e: Event) {
    e in {FetchFailed, UpdateFailed, CreateFailed, DeleteFailed}
  }

  predicate IsWrite(e: Event) {
    e in {Updated, UpdateFailed, Created, CreateFailed, Deleted, DeleteFailed}
  }

  // ---------------------------------------------------------------------------------------------
  // What a pass may do
  // ---------------------------------------------------------------------------------------------

  function Get<T>(m: map<string, T>, c: string): Option<T> {
    if c in m then Some(m[c]) else None
  }

  /**
   * The event is possible in a cluster with this desired spec, tracked state and blueprint, and explains how
   * the tracked state and the blueprint change.
   */
  ghost predicate Explained(e: Event, spec: Option<BlueprintSpec>, changed: bool,
                            tracked: Option<ObservedState>, tracked': Option<ObservedState>,
                            remote: Option<RemoteBlueprint>, remote': Option<RemoteBlueprint>) {
    var known := spec.Some? && tracked.Some?;
    var differs := known && remote.Some? && remote.value.spec != spec.value;
    match e
    case FetchFailed => known && tracked' == tracked && remote' == remote
    case Missing => known && tracked' == tracked && remote' == remote
    case Updated =>
      differs && changed && tracked' == Some(UNKNOWN_STATE) && remote' == Some(remote.value.(spec := spec.value))
    case UpdateFailed => differs && changed && tracked' == tracked && remote' == remote
    case OutOfSync => differs && !changed && tracked' == tracked && remote' == remote
    case InSync =>
      && known && remote.Some? && remote.value.spec == spec.value
      && tracked' == Some(remote.value.state) && remote' == remote
    case Created =>
      && spec.Some? && tracked.None? && tracked' == Some(UNKNOWN_STATE)
      && remote' == Some(match remote
                         case Some(r) => r.(spec := spec.value)
                         case None => RemoteBlueprint(spec.value, UNKNOWN_STATE, map[]))
    case CreateFailed => spec.Some? && tracked.None? && tracked' == tracked && remote' == remote
    case Deleted => spec.None? && tracked.Some? && tracked' == None && remote' == None
    case DeleteFailed => spec.None? && tracked.Some? && tracked' == tracked && (remote' == remote || remote' == None)
  }

  ghost predicate Explains(e: Event, w: World, w': World, c: string) {
    Explained(e, Get(w.desired, c), w.generation != w.observedGeneration,
              Get(w.tracked, c), Get(w'.tracked, c), Get(w.deployed, c), Get(w'.deployed, c))
  }

  ghost predicate Untouched(w: World, w': World, c: string) {
    Get(w'.tracked, c) == Get(w.tracked, c) && Get(w'.deployed, c) == Get(w.deployed, c)
  }

  ghost predicate Fetchable(w: World, answers: Answers, c: string) {
    answers.fetch(c) == FetchServed && c in w.deployed
  }

  ghost predicate Differs(w: World, c: string) {
    c in w.desired && c in w.deployed && w.deployed[c].spec != w.desired[c]
  }

  /**
   * The event in a desired cluster, by whether it is tracked, whether the generation is new, whether the fetch is
   * refused or finds a blueprint, whether that differs, and whether creating and updating are accepted.
   */
  ghost predicate EventFor(
    e: Event, known: bool, changed: bool, refused: bool, found: bool, differs: bool, create: bool, update: bool)
  {
    && (e == Created <==> !known && create) && (e == CreateFailed <==> !known && !create)
    && (e == FetchFailed <==> known && refused) && (e == Missing <==> known && !refused && !found)
    && (e == InSync <==> known && found && !differs) && (e == OutOfSync <==> known && found && differs && !changed)
    && (e == Updated <==> known && found && differs && changed && update)
    && (e == UpdateFailed <==> known && found && differs && changed && !update)
  }

  /** The event is the one that the answers of the cluster manager lead to. */
  ghost predicate DesiredEvent(e: Event, w: World, answers: Answers, c: string) {
    EventFor(e, c in w.tracked, w.generation != w.observedGeneration, answers.fetch(c) == FetchRefused,
             Fetchable(w, answers, c), Differs(w, c), answers.create(c), answers.update(c))
  }

  /** A deletion that counts as one: it was done, or there was nothing left to go through. */
  ghost predicate Removes(w: World, answers: Answers, c: string) {
    answers.delete(c) == DeleteDone || (answers.delete(c) == NoChannel && c !in w.deployed)
  }

  /** The event in a cluster is the one that the answers lead to. */
  ghost predicate Determined(e: Event, w: World, answers: Answers, n: World, c: string) {
    if c in w.desired then DesiredEvent(e, w, answers, c)
    else
      && (e == Deleted <==> Removes(w, answers, c)) && (e == DeleteFailed <==> !Removes(w, answers, c))
      && (c in n.deployed <==> c in w.deployed && answers.delete(c) !in {DeleteDone, DeleteLost})
  }

  ghost predicate Decided(w: World, answers: Answers, n: World, events: map<string, Event>) {
    forall c :: c in events ==> Determined(events[c], w, answers, n, c)
  }

  ghost predicate ModuleOf(spec: BlueprintSpec, asset: string) {
    exists n :: n in spec.modules && asset in spec.modules[n].assetIDs
  }

  ghost predicate ReportsOn(b: RemoteBlueprint, n: string, asset: string) {
    n in b.modulesState && n in b.spec.modules && asset in b.spec.modules[n].assetIDs
  }

  /** A blueprint in this state says nothing yet about its assets, so they are not ready. */
  predicate IsPending(e: Event) {
    e in {Missing, Updated, UpdateFailed, Created, CreateFailed}
  }

  /** The asset is processed by a module of a blueprint that is pending, or that reports on its modules. */
  ghost predicate Touched(e: Event, spec: Option<BlueprintSpec>, remote: Option<RemoteBlueprint>, asset: string) {
    if IsPending(e) then spec.Some? && ModuleOf(spec.value, asset)
    else e in {OutOfSync, InSync} && remote.Some? && exists n :: ReportsOn(remote.value, n, asset)
  }

  /** ... and it is not ready there. */
  ghost predicate Blocked(e: Event, spec: Option<BlueprintSpec>, remote: Option<RemoteBlueprint>, asset: string) {
    if IsPending(e) then spec.Some? && ModuleOf(spec.value, asset)
    else e in {OutOfSync, InSync} && remote.Some? &&
         exists n :: ReportsOn(remote.value, n, asset) && !remote.value.modulesState[n].ready
  }

  ghost predicate Touches(w: World, e: Event, c: string, asset: string) {
    Touched(e, Get(w.desired, c), Get(w.deployed, c), asset)
  }

  ghost predicate Blocks(w: World, e: Event, c: string, asset: string) {
    Blocked(e, Get(w.desired, c), Get(w.deployed, c), asset)
  }

  ghost predicate SomeTouches(w: World, events: map<string, Event>, asset: string) {
    exists c :: c in events && Touches(w, events[c], c, asset)
  }

  ghost predicate SomeBlocks(w: World, events: map<string, Event>, asset: string) {
    exists c :: c in events && Blocks(w, events[c], c, asset)
  }

  /** The asset states are those of the clusters looked at: ready unless some cluster blocks the asset. */
  ghost predicate AssetsReflect(w: World, events: map<string, Event>, assets: map<string, ObservedState>) {
    forall a :: AssetReflects(w, events, assets, a)
  }

  ghost predicate AssetReflects(w: World, events: map<string, Event>, assets: map<string, ObservedState>, a: string) {
    && (a in assets <==> SomeTouches(w, events, a))
    && (a in assets ==> (assets[a].ready <==> !SomeBlocks(w, events, a)))
  }

  ghost predicate Affirms(w: World, e: Event, c: string) {
    e == CreateFailed || (e == InSync && Get(w.deployed, c).Some? && Get(w.deployed, c).value.state.ready)
  }

  /** Every cluster's change is explained by its event, or there is none. */
  ghost predicate Walked(w: World, n: World, events: map<string, Event>) {
    forall c :: WalkedAt(w, n, events, c)
  }

  ghost predicate WalkedAt(w: World, n: World, events: map<string, Event>, c: string) {
    if c in events then Explains(events[c], w, n, c) else Untouched(w, n, c)
  }

  /** An inner pass with these events; it ends early iff a fetch fails. */
  ghost predicate Pass(w: World, w': World, events: map<string, Event>) {
    && w'.desired == w.desired && w'.generation == w.generation
    && w'.deleting == w.deleting && w'.finalizer == w.finalizer
    && Walked(w, w', events)
    && if FetchFailed in events.Values
       then w'.observedGeneration == w.observedGeneration && w'.ready == w.ready && w'.assets == w.assets
       else && events.Keys == w.desired.Keys + w.tracked.Keys
            && w'.observedGeneration == w.generation
            && (w'.ready <==> forall c :: c in w.desired ==> Affirms(w, events[c], c))
            && AssetsReflect(w, events, w'.assets)
  }

  // ---------------------------------------------------------------------------------------------
  // The code
  // ---------------------------------------------------------------------------------------------

  /** One more cluster is accounted for in the asset states. */
  ghost predicate AssetStep(w: World, e: Event, c: string,
                            assets: map<string, ObservedState>, assets': map<string, ObservedState>) {
    forall a :: AssetStepAt(w, e, c, assets, assets', a)
  }

  ghost predicate AssetStepAt(w: World, e: Event, c: string,
                              assets: map<string, ObservedState>, assets': map<string, ObservedState>, a: string) {
    && (a in assets' <==> a in assets || Touches(w, e, c, a))
    && (a in assets' ==> (assets'[a].ready <==> (a in assets ==> assets[a].ready) && !Blocks(w, e, c, a)))
  }

  ghost predicate Recorded(
    assets: map<string, ObservedState>, b: RemoteBlueprint, assets': map<string, ObservedState>)
  {
    forall a ::
      && (a in assets' <==> a in assets || exists n :: ReportsOn(b, n, a))
      && (a in assets' ==>
          (assets'[a].ready <==>
           (a in assets ==> assets[a].ready) && !exists n :: ReportsOn(b, n, a) && !b.modulesState[n].ready))
  }

  ghost predicate MarkedNotReady(
    assets: map<string, ObservedState>, spec: BlueprintSpec, assets': map<string, ObservedState>)
  {
    forall a ::
      && (a in assets' <==> a in assets || ModuleOf(spec, a))
      && (a in assets' ==> (assets'[a].ready <==> !ModuleOf(spec, a) && a in assets && assets[a].ready))
  }

  lemma {:induction false} RecordedStep(w: World, e: Event, c: string,
                                        assets: map<string, ObservedState>, assets': map<string, ObservedState>)
    requires e in {InSync, OutOfSync} && c in w.deployed && Recorded(assets, w.deployed[c], assets')
    ensures AssetStep(w, e, c, assets, assets')
  {
    forall a ensures AssetStepAt(w, e, c, assets, assets', a) {}
  }

  lemma {:induction false} NotReadyStep(w: World, e: Event, c: string,
                                        assets: map<string, ObservedState>, assets': map<string, ObservedState>)
    requires IsPending(e) && c in w.desired && MarkedNotReady(assets, w.desired[c], assets')
    ensures AssetStep(w, e, c, assets, assets')
  {
    forall a ensures AssetStepAt(w, e, c, assets, assets', a) {}
  }

  /** Records the module states of a blueprint; an asset once found not ready stays so. */
  method UpdatePlotterAssetsState(assets: map<string, ObservedState>, blueprint: RemoteBlueprint)
    returns (assets': map<string, ObservedState>)
    ensures Recorded(assets, blueprint, assets')
  {
    assets' := assets;
    var todo := blueprint.modulesState.Keys;
    while todo != {}
      invariant todo <= blueprint.modulesState.Keys
      invariant forall a :: a in assets' <==> a in assets || exists n :: n !in todo && ReportsOn(blueprint, n, a)
      invariant forall a :: a in assets' ==>
                  (assets'[a].ready <==>
                   (a in assets ==> assets[a].ready) &&
                   !exists n :: n !in todo && ReportsOn(blueprint, n, a) && !blueprint.modulesState[n].ready)
    {
      var name :| name in todo;
      var ids := if name in blueprint.spec.modules then blueprint.spec.modules[name].assetIDs else [];
      assets' := RecordState(assets', ids, blueprint.modulesState[name]);
      forall a ensures a in ids <==> ReportsOn(blueprint, name, a) {}
      OneMoreModule(blueprint, todo, name);
      todo := todo - {name};
    }
  }

  lemma {:induction false} OneMoreModule(b: RemoteBlueprint, todo: set<string>, name: string)
    requires name in todo
    ensures forall a :: (exists n :: n !in todo - {name} && ReportsOn(b, n, a)) <==>
                        (exists n :: n !in todo && ReportsOn(b, n, a)) || ReportsOn(b, name, a)
    ensures forall a :: (exists n :: n !in todo - {name} && ReportsOn(b, n, a) && !b.modulesState[n].ready) <==>
                        || (exists n :: n !in todo && ReportsOn(b, n, a) && !b.modulesState[n].ready)
                        || (ReportsOn(b, name, a) && !b.modulesState[name].ready)
  {
  }

  /** The inner loop: the state of one module for each of its assets. */
  method RecordState(assets: map<string, ObservedState>, ids: seq<string>, state: ObservedState)
    returns (assets': map<string, ObservedState>)
    ensures forall a :: a in assets' <==> a in assets || a in ids
    ensures forall a :: a in assets' ==>
              (assets'[a].ready <==> (a in assets ==> assets[a].ready) && (a in ids ==> state.ready))
  {
    assets' := assets;
    for i := 0 to |ids|
      invariant forall a :: a in assets' <==> a in assets || a in ids[..i]
      invariant forall a :: a in assets' ==>
                  (assets'[a].ready <==> (a in assets ==> assets[a].ready) && (a in ids[..i] ==> state.ready))
    {
      var id := ids[i];
      assert ids[..i + 1] == ids[..i] + [id];
      if id !in assets' {
        assets' := assets'[id := state];
      } else if !state.ready {
        assets' := assets'[id := ObservedState(false, assets'[id].error + "\n" + state.error)];
      }
    }
    assert ids[..|ids|] == ids;
  }

  /** Marks all assets of a blueprint that is being changed, or cannot be looked at, as not ready. */
  method SetAssetsNotReady(assets: map<string, ObservedState>, spec: BlueprintSpec, error: string)
    returns (assets': map<string, ObservedState>)
    ensures MarkedNotReady(assets, spec, assets')
  {
    assets' := assets;
    var todo := spec.modules.Keys;
    while todo != {}
      invariant todo <= spec.modules.Keys
      invariant forall a :: a in assets' <==>
                  a in assets || exists n :: n in spec.modules.Keys - todo && a in spec.modules[n].assetIDs
      invariant forall a :: a in assets' ==>
                  if (exists n :: n in spec.modules.Keys - todo && a in spec.modules[n].assetIDs)
                  then !assets'[a].ready else assets'[a] == assets[a]
    {
      var name :| name in todo;
      var ids := spec.modules[name].assetIDs;
      ghost var before := assets';
      for i := 0 to |ids|
        invariant forall a :: a in assets' <==> a in before || a in ids[..i]
        invariant forall a :: a in assets' ==> if a in ids[..i] then !assets'[a].ready else assets'[a] == before[a]
      {
        assert ids[..i + 1] == ids[..i] + [ids[i]];
        assets' := assets'[ids[i] := ObservedState(false, error)];
      }
      assert ids[..|ids|] == ids;
      todo := todo - {name};
    }
  }

  datatype Fetch = FetchError | NotFound | Found(blueprint: RemoteBlueprint)

  datatype Removal = Removed | ChannelNotFound | RemovalFailed

  class PlotterReconciler {
    var desired: map<string, BlueprintSpec>
    var generation: int
    var deleting: bool
    var finalizer: bool
    var tracked: map<string, ObservedState>
    var observedGeneration: int
    var ready: bool
    var assets: map<string, ObservedState>
    var deployed: map<string, RemoteBlueprint>  // in the clusters, behind the cluster manager

    ghost function Now(): World
      reads this
    {
      World(desired, generation, deleting, finalizer, tracked, observedGeneration, ready, assets, deployed)
    }

    // The cluster manager; any of its calls may fail.

    method GetBlueprint(c: string, answers: Answers) returns (f: Fetch)
      ensures f.FetchError? <==> answers.fetch(c) == FetchRefused
      ensures f.Found? <==> Fetchable(Now(), answers, c)
      ensures f.Found? ==> f.blueprint == deployed[c]
    {
      match answers.fetch(c)
      case FetchRefused => return FetchError;
      case FetchEmpty => return NotFound;
      case FetchServed => return if c in deployed then Found(deployed[c]) else NotFound;
    }

    method CreateBlueprint(c: string, spec: BlueprintSpec, answers: Answers) returns (ok: bool)
      modifies this`deployed
      ensures ok == answers.create(c)
      ensures deployed ==
        if !ok then old(deployed)
        else if c in old(deployed) then old(deployed)[c := old(deployed)[c].(spec := spec)]
        else old(deployed)[c := RemoteBlueprint(spec, UNKNOWN_STATE, map[])]
    {
      if !answers.create(c) {
        return false;
      }
      var b := if c in deployed then deployed[c].(spec := spec) else RemoteBlueprint(spec, UNKNOWN_STATE, map[]);
      deployed := deployed[c := b];
      return true;
    }

    method UpdateBlueprint(c: string, b: RemoteBlueprint, answers: Answers) returns (ok: bool)
      modifies this`deployed
      ensures ok == answers.update(c) && deployed == if ok then old(deployed)[c := b] else old(deployed)
    {
      if !answers.update(c) {
        return false;
      }
      deployed := deployed[c := b];
      return true;
    }

    method DeleteBlueprint(c: string, answers: Answers) returns (r: Removal)
      modifies this`deployed
      ensures deployed == if answers.delete(c) in {DeleteDone, DeleteLost} then old(deployed) - {c} else old(deployed)
      ensures r.Removed? <==> answers.delete(c) == DeleteDone
      ensures r.ChannelNotFound? <==> answers.delete(c) == NoChannel && c !in old(deployed)
    {
      match answers.delete(c) {
        case DeleteDone =>
          deployed := deployed - {c};
          return Removed;
        case DeleteLost =>
          deployed := deployed - {c};
          return RemovalFailed;
        case NoChannel =>
          return if c in deployed then RemovalFailed else ChannelNotFound;
        case DeleteRefused =>
          return RemovalFailed;
      }
    }

    /** The first loop's body for a cluster without status. */
    method HandleNew(c: string, answers: Answers, isReady: bool, assetMap: map<string, ObservedState>)
      returns (e: Event, isReady': bool, assetMap': map<string, ObservedState>)
      requires c in desired && c !in tracked
      modifies this`tracked, this`deployed
      ensures Explains(e, old(Now()), Now(), c) && DesiredEvent(e, old(Now()), answers, c)
      ensures forall d :: d != c ==> Untouched(old(Now()), Now(), d)
      ensures isReady' <==> isReady && Affirms(old(Now()), e, c)
      ensures AssetStep(old(Now()), e, c, assetMap, assetMap')
    {
      hide AssetStep, MarkedNotReady;
      var spec := desired[c];
      var created := CreateBlueprint(c, spec, answers);
      if !created {
        assetMap' := SetAssetsNotReady(assetMap, spec, "could not create the blueprint");
        NotReadyStep(old(Now()), CreateFailed, c, assetMap, assetMap');
        return CreateFailed, isReady, assetMap';
      }
      tracked := tracked[c := UNKNOWN_STATE];
      assetMap' := SetAssetsNotReady(assetMap, spec, "Blueprint just created");
      NotReadyStep(old(Now()), Created, c, assetMap, assetMap');
      return Created, false, assetMap';
    }

    /** The first loop's body for a cluster whose blueprint has been fetched. */
    method HandleFetched(
      c: string, answers: Answers, remote: RemoteBlueprint, isReady: bool, assetMap: map<string, ObservedState>)
      returns (e: Event, isReady': bool, assetMap': map<string, ObservedState>)
      requires c in desired && c in tracked && Fetchable(Now(), answers, c) && remote == deployed[c]
      modifies this`tracked, this`deployed
      ensures Explains(e, old(Now()), Now(), c) && DesiredEvent(e, old(Now()), answers, c)
      ensures forall d :: d != c ==> Untouched(old(Now()), Now(), d)
      ensures isReady' <==> isReady && Affirms(old(Now()), e, c)
      ensures AssetStep(old(Now()), e, c, assetMap, assetMap')
    {
      hide AssetStep, Recorded;
      var spec := desired[c];
      if spec == remote.spec {
        tracked := tracked[c := remote.state];
        assetMap' := UpdatePlotterAssetsState(assetMap, remote);
        RecordedStep(old(Now()), InSync, c, assetMap, assetMap');
        return InSync, isReady && remote.state.ready, assetMap';
      }
      if generation == observedGeneration {
        assetMap' := UpdatePlotterAssetsState(assetMap, remote);
        RecordedStep(old(Now()), OutOfSync, c, assetMap, assetMap');
        return OutOfSync, false, assetMap';
      }
      e, assetMap' := HandleChanged(c, answers, remote, assetMap);
      isReady' := false;
    }

    /** The blueprint differs and the plotter has changed. */
    method HandleChanged(
      c: string, answers: Answers, remote: RemoteBlueprint, assetMap: map<string, ObservedState>)
      returns (e: Event, assetMap': map<string, ObservedState>)
      requires c in desired && c in tracked && Fetchable(Now(), answers, c) && remote == deployed[c]
      requires desired[c] != remote.spec && generation != observedGeneration
      modifies this`tracked, this`deployed
      ensures Explains(e, old(Now()), Now(), c) && DesiredEvent(e, old(Now()), answers, c)
      ensures forall d :: d != c ==> Untouched(old(Now()), Now(), d)
      ensures e in {Updated, UpdateFailed} && AssetStep(old(Now()), e, c, assetMap, assetMap')
    {
      hide AssetStep, MarkedNotReady;
      var spec := desired[c];
      var updated := UpdateBlueprint(c, remote.(spec := spec), answers);
      if !updated {
        assetMap' := SetAssetsNotReady(assetMap, spec, "could not update the blueprint");
        NotReadyStep(old(Now()), UpdateFailed, c, assetMap, assetMap');
        return UpdateFailed, assetMap';
      }
      tracked := tracked[c := UNKNOWN_STATE];
      assetMap' := SetAssetsNotReady(assetMap, spec, "Blueprint changes just applied");
      NotReadyStep(old(Now()), Updated, c, assetMap, assetMap');
      return Updated, assetMap';
    }

    /** The first loop's body: one desired cluster. */
    method HandleCluster(c: string, answers: Answers, isReady: bool, assetMap: map<string, ObservedState>)
      returns (e: Event, isReady': bool, assetMap': map<string, ObservedState>)
      requires c in desired
      modifies this`tracked, this`deployed
      ensures Explains(e, old(Now()), Now(), c) && DesiredEvent(e, old(Now()), answers, c)
      ensures forall d :: d != c ==> Untouched(old(Now()), Now(), d)
      ensures e != FetchFailed ==> (isReady' <==> isReady && Affirms(old(Now()), e, c))
      ensures e != FetchFailed ==> AssetStep(old(Now()), e, c, assetMap, assetMap')
    {
      if c !in tracked {
        e, isReady', assetMap' := HandleNew(c, answers, isReady, assetMap);
        return;
      }
      var fetched := GetBlueprint(c, answers);
      match fetched {
        case FetchError =>
          return FetchFailed, isReady, assetMap;
        case NotFound =>
          assetMap' := SetAssetsNotReady(assetMap, desired[c], "Could not yet find remote blueprint");
          NotReadyStep(old(Now()), Missing, c, assetMap, assetMap');
          return Missing, false, assetMap';
        case Found(remote) =>
          e, isReady', assetMap' := HandleFetched(c, answers, remote, isReady, assetMap);
      }
    }

    /** One more desired cluster. */
    method HandleNext(c: string, answers: Answers, ghost w: World, ghost events: map<string, Event>, isReady: bool,
                      assetMap: map<string, ObservedState>)
      returns (e: Event, isReady': bool, assetMap': map<string, ObservedState>)
      requires c in desired && c !in events && SoFar(w, answers, Now(), events, isReady, assetMap)
      modifies this`tracked, this`deployed
      ensures Now() == w.(tracked := tracked, deployed := deployed)
      ensures Walked(w, Now(), events[c := e]) && Decided(w, answers, Now(), events[c := e])
      ensures e != FetchFailed ==> SoFar(w, answers, Now(), events[c := e], isReady', assetMap')
    {
      ghost var m := Now();
      hide Walked, Tallied, Explains, Untouched, AssetStep, Affirms, DesiredEvent, Decided;
      e, isReady', assetMap' := HandleCluster(c, answers, isReady, assetMap);
      OneMoreWalked(w, m, Now(), events, c, e);
      OneMoreDesired(w, answers, m, Now(), events, c, e);
      if e != FetchFailed {
        OneMoreTallied(w, m, events, c, e, isReady, isReady', assetMap, assetMap');
      }
    }

    /** The first loop: every desired cluster in any order, until a fetch fails. */
    method HandleClusters(answers: Answers)
      returns (events: map<string, Event>, isReady: bool, assetMap: map<string, ObservedState>)
      modifies this`tracked, this`deployed
      ensures Walked(old(Now()), Now(), events) && Decided(old(Now()), answers, Now(), events)
      ensures events.Keys <= desired.Keys
      ensures FetchFailed !in events.Values ==>
                events.Keys == desired.Keys && Tallied(old(Now()), events, isReady, assetMap)
    {
      ghost var w := Now();
      events, isReady, assetMap := map[], true, map[];
      var todo := desired.Keys;
      NothingSoFar(w, answers);
      hide Walked, Tallied, Decided;
      while todo != {}
        invariant todo <= desired.Keys && events.Keys == desired.Keys - todo
        invariant forall c :: c in events ==> events[c] != FetchFailed
        invariant Now() == w.(tracked := tracked, deployed := deployed)
        invariant SoFar(w, answers, Now(), events, isReady, assetMap)
      {
        var c :| c in todo;
        var e;
        e, isReady, assetMap := HandleNext(c, answers, w, events, isReady, assetMap);
        events := events[c := e];
        if e == FetchFailed {
          assert events[c] == FetchFailed && FetchFailed in events.Values;
          return;
        }
        todo := todo - {c};
      }
    }

    /** The second loop: tracked clusters that are no longer desired, in any order. */
    method TidyUp(answers: Answers) returns (events: map<string, Event>)
      modifies this`tracked, this`deployed
      ensures events.Keys == old(tracked).Keys - desired.Keys
      ensures Walked(old(Now()), Now(), events) && Decided(old(Now()), answers, Now(), events)
    {
      ghost var w := Now();
      events := map[];
      var todo := tracked.Keys - desired.Keys;
      while todo != {}
        invariant todo <= tracked.Keys && todo !! desired.Keys && events.Keys == w.tracked.Keys - desired.Keys - todo
        invariant Now() == w.(tracked := tracked, deployed := deployed)
        invariant Walked(w, Now(), events) && Decided(w, answers, Now(), events)
      {
        hide Walked, Determined, Decided, Explains, Untouched;
        var c :| c in todo;
        ghost var m, before := Now(), events;
        var e := DeleteOne(c, answers);
        OneMoreWalked(w, m, Now(), before, c, e);
        OneMoreDecided(w, answers, m, Now(), before, c, e);
        events := events[c := e];
        todo := todo - {c};
      }
    }

    method DeleteOne(c: string, answers: Answers) returns (e: Event)
      requires c in tracked && c !in desired
      modifies this`tracked, this`deployed
      ensures Explains(e, old(Now()), Now(), c) && Determined(e, old(Now()), answers, Now(), c)
      ensures forall d :: d != c ==> Untouched(old(Now()), Now(), d)
      ensures tracked.Keys == old(tracked).Keys || tracked.Keys == old(tracked).Keys - {c}
    {
      var removal := DeleteBlueprint(c, answers);
      if removal.RemovalFailed? {
        return DeleteFailed;
      }
      tracked := tracked - {c};
      return Deleted;
    }

    /** One pass over the clusters. */
    method ReconcileBlueprints(answers: Answers) returns (events: map<string, Event>)
      modifies this`tracked, this`deployed, this`observedGeneration, this`ready, this`assets
      ensures Pass(old(Now()), Now(), events) && Decided(old(Now()), answers, Now(), events)
    {
      hide Pass, Walked, Tallied, AssetsReflect, Affirms, Decided;
      ghost var w := Now();
      var isReady, assetMap;
      events, isReady, assetMap := HandleClusters(answers);
      ghost var m, first := Now(), events;
      assert m == w.(tracked := m.tracked, deployed := m.deployed);
      if FetchFailed in events.Values {
        PassEndsEarly(w, m, events);
        return;
      }
      var removals := TidyUp(answers);
      ghost var n := Now();
      assert n == w.(tracked := n.tracked, deployed := n.deployed);
      RemovalsDelete(m, answers, n, removals);
      PassOver(w, m, n, first, removals, isReady, assetMap);
      PassDecided(w, answers, m, n, first, removals);
      events := events + removals;
      observedGeneration, ready, assets := generation, isReady, assetMap;
      PassEnds(w, n, Now(), events);
      SameDecided(w, answers, n, Now(), events);
    }

    /** Deletes what the plotter has created before letting it go; `ok` is false when an error is returned. */
    method ReconcileFinalizers(answers: Answers) returns (ok: bool)
      modifies this`finalizer, this`deployed
      ensures Finalized(old(Now()), answers, Now(), ok)
    {
      if deleting {
        if finalizer {
          var todo := tracked.Keys;
          while todo != {}
            invariant todo <= tracked.Keys && Now() == old(Now()).(deployed := deployed)
            invariant forall c :: c in deployed ==> c in old(deployed) && deployed[c] == old(deployed)[c]
            invariant forall c :: c in old(deployed) && (c !in tracked || c in todo) ==> c in deployed
            invariant forall c :: c in tracked && c !in todo ==> answers.delete(c) == DeleteDone && c !in deployed
          {
            var c :| c in todo;
            var removal := DeleteBlueprint(c, answers);
            if !removal.Removed? {
              return false;
            }
            todo := todo - {c};
          }
          if !answers.finalizer {
            return false;  // the plotter could not be updated
          }
          finalizer := false;
        }
        return true;
      }
      if !finalizer {
        if !answers.finalizer {
          return false;
        }
        finalizer := true;
      }
      return true;
    }

    method Reconcile(answers: Answers)
      modifies this
      ensures ReconciledBy(old(Now()), answers, Now())
    {
      var ok := ReconcileFinalizers(answers);
      ghost var m := Now();
      if !ok || deleting {
        assert ReconciledVia(old(Now()), answers, m, ok, Now());
        return;
      }
      var events := ReconcileBlueprints(answers);
      assert PassBy(m, answers, Now(), events);
      assert ReconciledVia(old(Now()), answers, m, ok, Now());
    }
  }

  /** What the first loop has done so far. */
  ghost predicate SoFar(w: World, answers: Answers, n: World, events: map<string, Event>, isReady: bool,
                        assets: map<string, ObservedState>) {
    && n == w.(tracked := n.tracked, deployed := n.deployed)
    && Walked(w, n, events) && Decided(w, answers, n, events) && Tallied(w, events, isReady, assets)
  }

  lemma {:induction false} NothingSoFar(w: World, answers: Answers)
    ensures SoFar(w, answers, w, map[], true, map[])
  {
  }

  lemma {:induction false} OneMoreDecided(
    w: World, answers: Answers, m: World, n: World, events: map<string, Event>, c: string, e: Event)
    requires m == w.(tracked := m.tracked, deployed := m.deployed)
    requires n == w.(tracked := n.tracked, deployed := n.deployed)
    requires Decided(w, answers, m, events) && c !in events && Determined(e, m, answers, n, c) && Untouched(w, m, c)
    requires forall d :: d != c ==> Untouched(m, n, d)
    ensures Decided(w, answers, n, events[c := e])
  {
    var events' := events[c := e];
    SameDetermined(e, w, m, answers, n, n, c);
    forall d | d in events'
      ensures Determined(events'[d], w, answers, n, d)
    {
      if d != c {
        assert Determined(events[d], w, answers, m, d) && Untouched(m, n, d);
        SameDetermined(events[d], w, w, answers, m, n, d);
      }
    }
  }

  /** What a cluster's event is depends on that cluster alone. */
  lemma {:induction false} SameDetermined(
    e: Event, w: World, m: World, answers: Answers, n: World, n': World, c: string)
    requires m == w.(tracked := m.tracked, deployed := m.deployed) && Untouched(w, m, c)
    requires c in n'.deployed <==> c in n.deployed
    ensures Determined(e, m, answers, n, c) <==> Determined(e, w, answers, n', c)
  {
    assert c in m.deployed <==> c in w.deployed;
    assert c in w.deployed ==> m.deployed[c] == w.deployed[c];
    assert c in m.tracked <==> c in w.tracked;
    hide Untouched, EventFor;
  }

  lemma {:induction false} OneMoreDesired(
    w: World, answers: Answers, m: World, n: World, events: map<string, Event>, c: string, e: Event)
    requires m == w.(tracked := m.tracked, deployed := m.deployed)
    requires n == w.(tracked := n.tracked, deployed := n.deployed)
    requires c in w.desired && DesiredEvent(e, m, answers, c) && Untouched(w, m, c)
    requires Decided(w, answers, m, events) && c !in events && forall d :: d != c ==> Untouched(m, n, d)
    ensures Decided(w, answers, n, events[c := e])
  {
    hide DesiredEvent, Decided;
    assert Determined(e, m, answers, n, c);
    OneMoreDecided(w, answers, m, n, events, c, e);
  }

  lemma {:induction false} RemovalsDelete(m: World, answers: Answers, n: World, removals: map<string, Event>)
    requires Decided(m, answers, n, removals) && removals.Keys !! m.desired.Keys
    ensures forall c :: c in removals ==> removals[c] in {Deleted, DeleteFailed}
  {
    forall c | c in removals
      ensures removals[c] in {Deleted, DeleteFailed}
    {
      assert Determined(removals[c], m, answers, n, c);
    }
  }

  /** Each cluster is dealt with once, so what is decided in one loop stays decided. */
  lemma {:induction false} PassDecided(
    w: World, answers: Answers, m: World, n: World, events: map<string, Event>, removals: map<string, Event>)
    requires m == w.(tracked := m.tracked, deployed := m.deployed)
    requires n == w.(tracked := n.tracked, deployed := n.deployed)
    requires Walked(w, m, events) && Decided(w, answers, m, events) && events.Keys == w.desired.Keys
    requires Walked(m, n, removals) && Decided(m, answers, n, removals) && removals.Keys !! w.desired.Keys
    ensures Decided(w, answers, n, events + removals)
  {
    var all := events + removals;
    hide DesiredEvent;
    forall c | c in all
      ensures Determined(all[c], w, answers, n, c)
    {
      assert WalkedAt(w, m, events, c) && WalkedAt(m, n, removals, c);
      if c in removals {
        assert Determined(removals[c], m, answers, n, c);
        SameDetermined(removals[c], w, m, answers, n, n, c);
      } else {
        assert Determined(events[c], w, answers, m, c);
      }
    }
  }

  lemma {:induction false} SameDecided(w: World, answers: Answers, n: World, n': World, events: map<string, Event>)
    requires Decided(w, answers, n, events) && n'.deployed == n.deployed
    ensures Decided(w, answers, n', events)
  {
    hide DesiredEvent;
    forall c | c in events
      ensures Determined(events[c], w, answers, n', c)
    {
      assert Determined(events[c], w, answers, n, c);
    }
  }

  /** Readiness and asset states sum up the events. */
  ghost predicate Tallied(w: World, events: map<string, Event>, isReady: bool, assets: map<string, ObservedState>) {
    && (isReady <==> forall c :: c in events ==> Affirms(w, events[c], c))
    && AssetsReflect(w, events, assets)
  }

  /** What the other clusters went through is still explained after one more cluster has been handled. */
  lemma {:induction false} OneMoreWalked(w: World, m: World, n: World, events: map<string, Event>, c: string, e: Event)
    requires m == w.(tracked := m.tracked, deployed := m.deployed)
    requires n == w.(tracked := n.tracked, deployed := n.deployed)
    requires Walked(w, m, events) && c !in events && Explains(e, m, n, c)
    requires forall d :: d != c ==> Untouched(m, n, d)
    ensures Walked(w, n, events[c := e]) && Untouched(w, m, c)
  {
    hide Explained, Get;
    assert WalkedAt(w, m, events, c);
    var events' := events[c := e];
    forall d ensures WalkedAt(w, n, events', d) {
      assert WalkedAt(w, m, events, d);
      assert d != c ==> Untouched(m, n, d);
    }
  }

  lemma {:induction false} OneMoreTallied(w: World, m: World, events: map<string, Event>, c: string, e: Event,
                                          isReady: bool, isReady': bool,
                                          assets: map<string, ObservedState>, assets': map<string, ObservedState>)
    requires m == w.(tracked := m.tracked, deployed := m.deployed) && Untouched(w, m, c) && c !in events
    requires Tallied(w, events, isReady, assets)
    requires (isReady' <==> isReady && Affirms(m, e, c)) && AssetStep(m, e, c, assets, assets')
    ensures Tallied(w, events[c := e], isReady', assets')
  {
    hide Touched, Blocked, Get, AssetsReflect;
    assert Affirms(m, e, c) <==> Affirms(w, e, c);
    forall a ensures AssetStepAt(w, e, c, assets, assets', a) {
      assert AssetStepAt(m, e, c, assets, assets', a);
    }
    OneMoreCluster(w, events, c, e, assets, assets');
    hide Affirms, AssetStep;
    var events' := events[c := e];
    assert events'[c] == e && forall d :: d in events ==> events'[d] == events[d];
  }

  lemma {:induction false} OneMoreCluster(w: World, events: map<string, Event>, c: string, e: Event,
                                          assets: map<string, ObservedState>, assets': map<string, ObservedState>)
    requires c !in events && AssetsReflect(w, events, assets) && AssetStep(w, e, c, assets, assets')
    ensures AssetsReflect(w, events[c := e], assets')
  {
    var events' := events[c := e];
    forall a ensures AssetReflects(w, events', assets', a) {
      assert AssetReflects(w, events, assets, a);
      assert AssetStepAt(w, e, c, assets, assets', a);
      OneMoreClusterAt(w, events, c, e, a);
      hide AssetsReflect, AssetStep, SomeTouches, SomeBlocks, Touches, Blocks;
    }
  }

  lemma {:induction false} OneMoreClusterAt(w: World, events: map<string, Event>, c: string, e: Event, a: string)
    requires c !in events
    ensures SomeTouches(w, events[c := e], a) <==> SomeTouches(w, events, a) || Touches(w, e, c, a)
    ensures SomeBlocks(w, events[c := e], a) <==> SomeBlocks(w, events, a) || Blocks(w, e, c, a)
    ensures SomeBlocks(w, events, a) ==> SomeTouches(w, events, a)
  {
    forall d | d in events && Blocks(w, events[d], d, a) ensures Touches(w, events[d], d, a) {}
    hide Touches, Blocks;
    var events' := events[c := e];
    assert events'[c] == e && forall d :: d in events ==> events'[d] == events[d];
  }

  lemma {:induction false} SameClusters(w: World, n: World, n': World, events: map<string, Event>)
    requires Walked(w, n, events) && n'.tracked == n.tracked && n'.deployed == n.deployed
    ensures Walked(w, n', events)
  {
    forall c ensures WalkedAt(w, n', events, c) {
      assert WalkedAt(w, n, events, c);
    }
  }

  /** The two loops of a pass deal with different clusters, so their events can be put together. */
  lemma {:induction false} PassOver(
    w: World, m: World, n: World, events: map<string, Event>, removals: map<string, Event>, isReady: bool,
    assets: map<string, ObservedState>)
    requires m == w.(tracked := m.tracked, deployed := m.deployed)
    requires n == w.(tracked := n.tracked, deployed := n.deployed)
    requires Walked(w, m, events) && events.Keys == w.desired.Keys && FetchFailed !in events.Values
    requires Tallied(w, events, isReady, assets)
    requires Walked(m, n, removals) && removals.Keys == m.tracked.Keys - w.desired.Keys
    requires forall c :: c in removals ==> removals[c] in {Deleted, DeleteFailed}
    ensures Walked(w, n, events + removals) && FetchFailed !in (events + removals).Values
    ensures (events + removals).Keys == w.desired.Keys + w.tracked.Keys
    ensures isReady <==> forall c :: c in w.desired ==> Affirms(w, (events + removals)[c], c)
    ensures AssetsReflect(w, events + removals, assets)
  {
    var all := events + removals;
    forall c ensures WalkedAt(w, n, all, c) {
      assert WalkedAt(w, m, events, c) && WalkedAt(m, n, removals, c);
      hide Explained;
    }
    forall c | c !in w.desired ensures c in m.tracked <==> c in w.tracked {
      assert WalkedAt(w, m, events, c);
    }
    assert forall c :: c in w.desired ==> all[c] == events[c];
    forall a ensures AssetReflects(w, all, assets, a) {
      assert AssetReflects(w, events, assets, a);
      RemovalsTouchNothing(w, events, removals, a);
    }
  }

  lemma {:induction false} PassEndsEarly(w: World, m: World, events: map<string, Event>)
    requires m == w.(tracked := m.tracked, deployed := m.deployed)
    requires Walked(w, m, events) && FetchFailed in events.Values
    ensures Pass(w, m, events)
  {
  }

  lemma {:induction false} PassEnds(w: World, n: World, n': World, events: map<string, Event>)
    requires n == w.(tracked := n.tracked, deployed := n.deployed)
    requires n' == n.(observedGeneration := n.generation, ready := n'.ready, assets := n'.assets)
    requires Walked(w, n, events) && FetchFailed !in events.Values && events.Keys == w.desired.Keys + w.tracked.Keys
    requires n'.ready <==> forall c :: c in w.desired ==> Affirms(w, events[c], c)
    requires AssetsReflect(w, events, n'.assets)
    ensures Pass(w, n', events)
  {
    hide Walked, AssetsReflect, Affirms;
    SameClusters(w, n, n', events);
  }

  lemma {:induction false} RemovalsTouchNothing(
    w: World, events: map<string, Event>, removals: map<string, Event>, a: string)
    requires events.Keys !! removals.Keys && forall c :: c in removals ==> removals[c] in {Deleted, DeleteFailed}
    ensures SomeTouches(w, events + removals, a) <==> SomeTouches(w, events, a)
    ensures SomeBlocks(w, events + removals, a) <==> SomeBlocks(w, events, a)
  {
    var all := events + removals;
    forall c | c in removals ensures !Touches(w, all[c], c, a) && !Blocks(w, all[c], c, a) {}
    hide Touches, Blocks;
    assert forall c :: c in events ==> c in all && all[c] == events[c];
    assert forall c :: c in all ==> c in events || c in removals;
  }

  // ---------------------------------------------------------------------------------------------
  // Runs
  // ---------------------------------------------------------------------------------------------

  /** The finalizer phase: adds the finalizer, or on deletion removes it once every tracked blueprint is gone. */
  ghost predicate Finalized(w: World, answers: Answers, w': World, ok: bool) {
    if w.deleting && w.finalizer then
      && w' == w.(finalizer := !ok, deployed := w'.deployed)
      && (forall c :: c in w'.deployed ==> c in w.deployed && w'.deployed[c] == w.deployed[c])
      && (forall c :: c in w.deployed && c !in w'.deployed ==>
            c in w.tracked && answers.delete(c) in {DeleteDone, DeleteLost})
      && (ok <==> answers.finalizer && forall c :: c in w.tracked ==> answers.delete(c) == DeleteDone)
      && (ok ==> forall c :: c in w.tracked ==> c !in w'.deployed)
    else if w.deleting || w.finalizer then w' == w && ok
    else w' == w.(finalizer := ok) && ok == answers.finalizer
  }

  ghost predicate PassBy(w: World, answers: Answers, w': World, events: map<string, Event>) {
    Pass(w, w', events) && Decided(w, answers, w', events)
  }

  /** One call of the reconciler, with these answers of the cluster manager, and this state after the first phase. */
  ghost predicate ReconciledVia(w: World, answers: Answers, m: World, ok: bool, w': World) {
    && Finalized(w, answers, m, ok)
    && if !ok || m.deleting then w' == m else exists events :: PassBy(m, answers, w', events)
  }

  ghost predicate ReconciledBy(w: World, answers: Answers, w': World) {
    exists m, ok :: ReconciledVia(w, answers, m, ok, w')
  }

  /** One call of the reconciler, whatever the cluster manager answers. */
  ghost predicate Reconciled(w: World, w': World) {
    exists answers :: ReconciledBy(w, answers, w')
  }

  /** The plotter is edited, or marked for deletion, or blueprints report or get lost in their clusters. */
  ghost predicate Interfered(w: World, w': World) {
    || (w'.generation > w.generation && w' == w.(desired := w'.desired, generation := w'.generation))
    || (w'.generation >= w.generation && w' == w.(deleting := true, generation := w'.generation))
    || (w' == w.(deployed := w'.deployed) && Reports(w.deployed, w'.deployed))
  }

  ghost predicate Reports(deployed: map<string, RemoteBlueprint>, deployed': map<string, RemoteBlueprint>) {
    forall c :: c in deployed' ==> c in deployed && deployed'[c].spec == deployed[c].spec
  }

  ghost predicate IsRun(run: seq<World>) {
    && run != [] && run[0].deployed == map[] && run[0].tracked == map[] && !run[0].finalizer
    && forall i :: 0 <= i < |run| - 1 ==> Reconciled(run[i], run[i + 1]) || Interfered(run[i], run[i + 1])
  }

  /** Whatever is deployed is tracked, and guarded by the finalizer. */
  ghost predicate Safe(w: World) {
    w.deployed.Keys <= w.tracked.Keys && (w.deployed != map[] ==> w.finalizer)
  }

  lemma {:induction false} PassKeepsTrack(w: World, w': World, events: map<string, Event>)
    requires Safe(w) && w.finalizer && Pass(w, w', events)
    ensures Safe(w')
  {
    forall c | c in w'.deployed ensures c in w'.tracked {
      assert WalkedAt(w, w', events, c);
    }
  }

  lemma {:induction false} ReconcilingIsSafe(w: World, w': World)
    requires Safe(w) && Reconciled(w, w')
    ensures Safe(w')
    ensures w.finalizer && !w'.finalizer ==> w.deleting && w'.deployed == map[]
  {
    var answers :| ReconciledBy(w, answers, w');
    var m, ok :| ReconciledVia(w, answers, m, ok, w');
    hide Pass, Decided;
    assert forall c :: c in m.deployed ==> c in w.deployed;
    assert Safe(m);
    if ok && !m.deleting {
      var events :| PassBy(m, answers, w', events);
      PassKeepsTrack(m, w', events);
      assert w'.finalizer == m.finalizer by { PassFrame(m, w', events); }
    }
  }

  lemma {:induction false} PassFrame(w: World, w': World, events: map<string, Event>)
    requires Pass(w, w', events)
    ensures w' == w.(tracked := w'.tracked, deployed := w'.deployed, observedGeneration := w'.observedGeneration,
                     ready := w'.ready, assets := w'.assets)
  {
  }

  /** In every run no blueprint is ever left behind: it stays tracked, and the finalizer goes only when none is left. */
  lemma {:induction false} NoBlueprintIsLeaked(run: seq<World>, i: nat)
    requires IsRun(run) && i < |run|
    ensures Safe(run[i])
    ensures i > 0 && run[i - 1].finalizer && !run[i].finalizer ==> run[i].deployed == map[]
  {
    if i > 0 {
      NoBlueprintIsLeaked(run, i - 1);
      hide Reconciled, Interfered;
      assert Reconciled(run[i - 1], run[i - 1 + 1]) || Interfered(run[i - 1], run[i - 1 + 1]);
      if Reconciled(run[i - 1], run[i]) {
        ReconcilingIsSafe(run[i - 1], run[i]);
      } else {
        InterferenceIsSafe(run[i - 1], run[i]);
      }
    }
  }

  lemma {:induction false} InterferenceIsSafe(w: World, w': World)
    requires Safe(w) && Interfered(w, w')
    ensures Safe(w') && w'.finalizer == w.finalizer
  {
  }

  // ---------------------------------------------------------------------------------------------
  // Convergence and readiness
  // ---------------------------------------------------------------------------------------------

  ghost predicate ErrorFree(events: map<string, Event>) {
    forall c :: c in events ==> !IsError(events[c])
  }

  /** The clusters hold exactly the desired blueprints, and the plotter knows it. */
  ghost predicate Converged(w: World) {
    && w.deployed.Keys == w.desired.Keys == w.tracked.Keys
    && (forall c :: c in w.desired ==> w.deployed[c].spec == w.desired[c])
    && w.observedGeneration == w.generation
  }

  /** A pass on a new generation that meets no error, and finds what it looks for, brings the clusters in line. */
  lemma {:induction false} CleanPassConverges(w: World, w': World, events: map<string, Event>)
    requires Safe(w) && Pass(w, w', events)
    requires w.generation != w.observedGeneration && ErrorFree(events) && Missing !in events.Values
    ensures Converged(w')
  {
    hide AssetsReflect, Affirms;
    assert forall c :: c in events ==> events[c] in events.Values;
    assert FetchFailed !in events.Values;
    forall c ensures (c in w'.deployed <==> c in w.desired) && (c in w'.tracked <==> c in w.desired)
      ensures c in w'.deployed ==> w'.deployed[c].spec == w.desired[c]
    {
      assert WalkedAt(w, w', events, c);
    }
  }

  /** The event leaves the cluster as desired: either it was made so, or it was so although it was not found. */
  ghost predicate Settles(w: World, e: Event, c: string) {
    || e in {InSync, Updated, Created, Deleted}
    || (e == Missing && c in w.deployed && c in w.desired && w.deployed[c].spec == w.desired[c])
  }

  /** A completed pass brings the clusters in line exactly if every event settles its cluster. */
  lemma {:induction false} ConvergesExactly(w: World, w': World, events: map<string, Event>)
    requires Safe(w) && Pass(w, w', events) && FetchFailed !in events.Values
    ensures Converged(w') <==> forall c :: c in events ==> Settles(w, events[c], c)
  {
    hide AssetsReflect, Affirms;
    assert forall c :: c in events ==> events[c] in events.Values;
    forall c
      ensures c in events ==> (Settles(w, events[c], c) <==> LeftAsDesired(w', c))
      ensures c !in events ==> LeftAsDesired(w', c)
    {
      assert WalkedAt(w, w', events, c);
    }
    ConvergedEverywhere(w');
  }

  lemma {:induction false} ConvergedEverywhere(w: World)
    requires w.observedGeneration == w.generation
    ensures Converged(w) <==> forall c :: LeftAsDesired(w, c)
  {
    if forall c :: LeftAsDesired(w, c) {
      forall c
        ensures (c in w.deployed <==> c in w.desired) && (c in w.tracked <==> c in w.desired)
        ensures c in w.desired ==> w.deployed[c].spec == w.desired[c]
      {
        assert LeftAsDesired(w, c);
      }
      assert w.deployed.Keys == w.desired.Keys == w.tracked.Keys;
    }
    if Converged(w) {
      forall c
        ensures LeftAsDesired(w, c)
      {
        assert c in w.deployed.Keys <==> c in w.desired.Keys;
        assert c in w.tracked.Keys <==> c in w.desired.Keys;
      }
    }
  }

  ghost predicate LeftAsDesired(w: World, c: string) {
    && (c in w.deployed <==> c in w.desired) && (c in w.tracked <==> c in w.desired)
    && (c in w.desired ==> w.deployed[c].spec == w.desired[c])
  }

  /** The cluster manager does all it is asked to do. */
  ghost predicate GrantsAll(answers: Answers) {
    answers.finalizer && forall c ::
      answers.fetch(c) == FetchServed && answers.create(c) && answers.update(c) && answers.delete(c) == DeleteDone
  }

  /** A tracked blueprint is where it should be, or can still be brought in line with a new generation. */
  ghost predicate Mendable(w: World, c: string) {
    c in w.desired && c in w.tracked ==>
      c in w.deployed && (w.deployed[c].spec == w.desired[c] || w.generation != w.observedGeneration)
  }

  /** If all calls succeed, a pass brings the clusters in line exactly if no tracked blueprint is lost or drifted. */
  lemma {:induction false} GrantedPassConvergesExactly(
    w: World, answers: Answers, w': World, events: map<string, Event>)
    requires Safe(w) && PassBy(w, answers, w', events) && GrantsAll(answers)
    ensures FetchFailed !in events.Values && ErrorFree(events)
    ensures Converged(w') <==> forall c :: Mendable(w, c)
  {
    hide Pass, Converged;
    forall c | c in events
      ensures !IsError(events[c])
      ensures Settles(w, events[c], c) <==> Mendable(w, c)
    {
      assert Determined(events[c], w, answers, w', c);
      EventOf(w, answers, w', events, c);
    }
    assert FetchFailed !in events.Values;
    ConvergesExactly(w, w', events);
    forall c | c !in events
      ensures Mendable(w, c)
    {
      EventOf(w, answers, w', events, c);
    }
  }

  lemma {:induction false} EventOf(w: World, answers: Answers, w': World, events: map<string, Event>, c: string)
    requires PassBy(w, answers, w', events)
    ensures c in events ==> Explains(events[c], w, w', c)
    ensures FetchFailed !in events.Values && c in w.desired ==> c in events
  {
    assert WalkedAt(w, w', events, c);
  }

  /**
   * If all calls succeed, a plotter that is not being deleted has every desired spec deployed and tracked, and nothing
   * else, exactly if no tracked blueprint was lost or had drifted; one that is being deleted is gone for good.
   */
  lemma {:induction false} GrantedCallConverges(w: World, answers: Answers, w': World)
    requires Safe(w) && ReconciledBy(w, answers, w') && GrantsAll(answers)
    ensures !w.deleting ==> (Converged(w') <==> forall c :: Mendable(w, c))
    ensures w.deleting ==> w'.deployed == map[] && !w'.finalizer
  {
    var m, ok :| ReconciledVia(w, answers, m, ok, w');
    hide PassBy, Converged;
    if !w.deleting {
      assert m == w.(finalizer := true) && ok;
      var events :| PassBy(m, answers, w', events);
      GrantedPassConvergesExactly(m, answers, w', events);
      assert forall c :: Mendable(m, c) <==> Mendable(w, c);
    }
  }

  /** From then on passes write nothing, as long as the plotter is not edited and no blueprint is lost. */
  lemma {:induction false} ConvergedIsQuiet(w: World, w': World, events: map<string, Event>)
    requires Converged(w) && Pass(w, w', events)
    ensures forall c :: c in events ==> !IsWrite(events[c])
    ensures Converged(w')
  {
    hide AssetsReflect, Affirms;
    forall c ensures c in events ==> !IsWrite(events[c])
      ensures Get(w'.deployed, c) == Get(w.deployed, c) && (c in w'.tracked <==> c in w.tracked)
    {
      assert WalkedAt(w, w', events, c);
    }
    assert w'.deployed == w.deployed by {
      forall c
        ensures (c in w'.deployed <==> c in w.deployed) && (c in w.deployed ==> w'.deployed[c] == w.deployed[c]) {
        assert Get(w'.deployed, c) == Get(w.deployed, c);
      }
    }
  }

  lemma {:induction false} ReportsKeepConverged(w: World, w': World)
    requires Converged(w) && w' == w.(deployed := w'.deployed) && Reports(w.deployed, w'.deployed)
    requires w'.deployed.Keys == w.deployed.Keys
    ensures Converged(w')
  {
  }

  /** All desired blueprints are in place and report that they are ready. */
  ghost predicate AllReady(w: World) {
    && w.tracked.Keys == w.desired.Keys
    && forall c :: c in w.desired ==> c in w.deployed && w.deployed[c].spec == w.desired[c] && w.deployed[c].state.ready
  }

  /**
   * A completed pass that reports ready has everything in place exactly when no create and no delete failed:
   * a failed create does not count against readiness.
   */
  lemma {:induction false} ReadyMeansDeployedExactly(w: World, w': World, events: map<string, Event>)
    requires Pass(w, w', events) && FetchFailed !in events.Values && w'.ready
    ensures AllReady(w') <==> CreateFailed !in events.Values && DeleteFailed !in events.Values
  {
    forall c ensures c in w.desired ==> (c in w'.tracked <==> events[c] != CreateFailed)
      ensures c in w.desired && c in w'.tracked ==>
                c in w'.deployed && w'.deployed[c].spec == w.desired[c] && w'.deployed[c].state.ready
      ensures c !in w.desired ==> (c in w'.tracked <==> c in events && events[c] == DeleteFailed)
      ensures c in w.desired ==> events[c] != DeleteFailed
      ensures c !in w.desired && c in events ==> events[c] != CreateFailed
    {
      assert WalkedAt(w, w', events, c);
      assert c in w.desired ==> Affirms(w, events[c], c);
    }
    if AllReady(w') {
      assert forall c :: c in events ==> events[c] != CreateFailed && events[c] != DeleteFailed;
    }
    if CreateFailed !in events.Values && DeleteFailed !in events.Values {
      assert forall c :: c in events ==> events[c] in events.Values;
      assert forall c :: c in w'.tracked <==> c in w.desired;
      assert w'.tracked.Keys == w'.desired.Keys;
    }
  }

  /** A plotter whose only blueprint cannot be created is reported ready all the same. */
  lemma {:induction false} FailedCreateIsReportedReady(c: string, spec: BlueprintSpec, w: World, w': World)
    requires w.desired == map[c := spec] && w.tracked == map[] && w.deployed == map[]
    requires Pass(w, w', map[c := CreateFailed])
    ensures w'.ready && w'.deployed == map[]
  {
    var events := map[c := CreateFailed];
    assert FetchFailed !in events.Values;
    forall d ensures d !in w'.deployed {
      assert WalkedAt(w, w', events, d);
    }
  }

  // ---------------------------------------------------------------------------------------------
  // Drift
  // ---------------------------------------------------------------------------------------------

  /** The blueprint of a cluster is lost or not as desired, but the generation has been recorded. */
  ghost predicate Drifted(w: World, c: string) {
    && w.observedGeneration == w.generation && c in w.desired && c in w.tracked
    && (c in w.deployed ==> w.deployed[c].spec != w.desired[c])
  }

  lemma {:induction false} PassKeepsDrift(w: World, w': World, events: map<string, Event>, c: string)
    requires Drifted(w, c) && Pass(w, w', events)
    ensures Drifted(w', c) && (c !in w.deployed ==> c !in w'.deployed)
  {
    assert WalkedAt(w, w', events, c);
  }

  lemma {:induction false} StepKeepsDrift(w: World, w': World, c: string)
    requires (Reconciled(w, w') || Interfered(w, w')) && Drifted(w, c)
    ensures w'.generation >= w.generation
    ensures w'.generation == w.generation ==> Drifted(w', c) && (c !in w.deployed ==> c !in w'.deployed)
  {
    if Reconciled(w, w') {
      var answers :| ReconciledBy(w, answers, w');
      var m, ok :| ReconciledVia(w, answers, m, ok, w');
      assert Drifted(m, c) && m.generation == w.generation && (c !in w.deployed ==> c !in m.deployed);
      hide Pass, Finalized, Decided;
      if ok && !m.deleting {
        var events :| PassBy(m, answers, w', events);
        PassKeepsDrift(m, w', events, c);
        PassFrame(m, w', events);
      }
    }
  }

  lemma {:induction false} GenerationsGrow(run: seq<World>, i: nat, j: nat)
    requires IsRun(run) && i <= j < |run|
    ensures run[i].generation <= run[j].generation
  {
    if i < j {
      GenerationsGrow(run, i, j - 1);
      assert Reconciled(run[j - 1], run[j - 1 + 1]) || Interfered(run[j - 1], run[j - 1 + 1]);
      hide Pass;
      if Reconciled(run[j - 1], run[j]) {
        ReconcilingKeepsGeneration(run[j - 1], run[j]);
      }
    }
  }

  lemma {:induction false} ReconcilingKeepsGeneration(w: World, w': World)
    requires Reconciled(w, w')
    ensures w'.generation == w.generation
  {
    var answers :| ReconciledBy(w, answers, w');
    var m, ok :| ReconciledVia(w, answers, m, ok, w');
    if ok && !m.deleting {
      var events :| PassBy(m, answers, w', events);
      PassFrame(m, w', events);
    }
  }

  /**
   * In every run, a blueprint that is not as desired once the generation has been recorded stays so until the
   * generation changes; one that is lost in its cluster is not created again.
   */
  lemma {:induction false} DriftIsNotRepaired(run: seq<World>, i: nat, j: nat, c: string)
    requires IsRun(run) && i <= j < |run| && Drifted(run[i], c) && run[j].generation == run[i].generation
    ensures Drifted(run[j], c) && (c !in run[i].deployed ==> c !in run[j].deployed)
  {
    if i < j {
      GenerationsGrow(run, i, j - 1);
      GenerationsGrow(run, j - 1, j);
      DriftIsNotRepaired(run, i, j - 1, c);
      assert Reconciled(run[j - 1], run[j - 1 + 1]) || Interfered(run[j - 1], run[j - 1 + 1]);
      hide Reconciled, Interfered, Drifted;
      StepKeepsDrift(run[j - 1], run[j], c);
    }
  }
}
