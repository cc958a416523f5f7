/**
 * The application controller (manager/controllers/app/fybrikapplication_controller.go and
 * fybrikapplication_conditions.go): it turns the datasets of an application into a plotter, and reports
 * per dataset whether it is denied, in error, or ready.
 */
module ApplicationReconciliation {
  import opened Prelude
  import opened DataPaths
  import opened Planner
  import opened PlotterTypes
  import opened PlotterGeneration
  import opened PlotterContents
  import opened ApplicationSolution

  /** A dataset of the application; a non-empty catalog asks for the copy to be registered there. */
  datatype DataContext = DataContext(id: string, catalogID: string)

  datatype AssetState = AssetState(ready: bool, deny: bool, error: bool, catalogedAsset: string)

  datatype Validity = Unchecked | Valid | Invalid

  datatype Status = Status(
    errorMessage: string,
    assetStates: Option<map<string, AssetState>>,  // None until the first pass
    ready: bool,
    observedGeneration: int,
    validatedGeneration: int,
    validity: Validity,
    generated: Option<int>,                        // the application version the plotter was generated for
    provisionedStorage: map<string, string>)

  /** What the plotter reports. */
  datatype Report = Report(ready: bool, error: string)

  datatype BucketStatus = StatusUnavailable | Provisioned | NotProvisioned(errorMessage: string)

  /** What the collaborators answer in one pass. */
  datatype Surroundings = Surroundings(
    webhooks: bool,                                // validation is done elsewhere
    specIsValid: bool,
    plotterExists: bool,
    report: Option<Report>,                        // None if the plotter's status cannot be read
    workloadClusterKnown: bool,
    info: string -> Outcome<Dataset>,              // catalog, policy manager and config policies, per dataset
    listing: Outcome<(string -> Env, Modules)>,    // per dataset clusters, storage and policies; the modules
    bucket: string -> BucketStatus,
    create: Option<string>,                        // the error of creating or updating the plotter
    register: (string, string) -> Outcome<string>, // registering in a catalog what is in a bucket, made persistent
    written: bool)                                 // whether the status can be written

  const INVALID_ASSET_ID := "the asset does not exist"
  const COPY_NOT_ALLOWED := "copy of the data is required but can not be done according to the governance policies"
  const INVALID_ASSET_DATA_STORE := "the asset data store is not supported"
  const INVALID_CLUSTER_CONFIGURATION := "cluster configuration does not support the requirements"

  const VALIDATION_FAILED := "validation failed"  // the message of the validation, whatever it is

  const NEW_STATE := AssetState(false, false, false, "")

  predicate IsDenial(message: string) {
    message in {INVALID_ASSET_ID, READ_ACCESS_DENIED, COPY_NOT_ALLOWED, WRITE_NOT_ALLOWED, INVALID_ASSET_DATA_STORE}
  }

  /** A denial is final for this generation; any other message is an error. */
  function Flag(state: AssetState, message: string): AssetState {
    if IsDenial(message) then state.(deny := true) else state.(error := true)
  }

  /** Which messages deny, word by word. */
  lemma {:induction false} DenialsExactly(state: AssetState, message: string)
    ensures
      var denial :=
        || message == "the asset does not exist" || message == "governance policies forbid access to the data"
        || message == "governance policies forbid writing of the data"
        || message == "the asset data store is not supported"
        || message == "copy of the data is required but can not be done according to the governance policies";
      && Flag(state, message).deny == (state.deny || denial) && Flag(state, message).error == (state.error || !denial)
      && Flag(state, message).ready == state.ready && Flag(state, message).catalogedAsset == state.catalogedAsset
  {
  }

  /** One of the first `n` datasets has this name. */
  ghost predicate HasId(data: seq<DataContext>, n: nat, id: string)
    requires n <= |data|
  {
    exists i :: 0 <= i < n && data[i].id == id
  }

  /** There is a state for every dataset, and for nothing else. */
  ghost predicate Covers(states: map<string, AssetState>, data: seq<DataContext>) {
    forall id :: id in states <==> HasId(data, |data|, id)
  }

  ghost predicate NoneReady(states: map<string, AssetState>) {
    forall id :: id in states ==> !states[id].ready
  }

  ghost predicate WellFormed(s: Surroundings) {
    forall id :: s.info(id).Ok? ==> s.info(id).value.id == id
  }

  ghost predicate Flagged(states: map<string, AssetState>, id: string) {
    id in states && (states[id].deny || states[id].error)
  }

  ghost predicate Denied(states: map<string, AssetState>, id: string) {
    id in states && states[id].deny
  }

  /** The datasets whose requirements can be found, in the order of the application. */
  ghost function Wanted(s: Surroundings, data: seq<DataContext>): seq<Dataset> {
    if data == [] then []
    else
      var info := s.info(data[|data| - 1].id);
      Wanted(s, data[..|data| - 1]) + if info.Ok? then [info.value] else []
  }

  /** If there are no requirements for the dataset, the reason is flagged. */
  ghost predicate Explained(s: Surroundings, id: string, states: map<string, AssetState>) {
    s.info(id).Failed? ==> id in states && if IsDenial(s.info(id).message) then states[id].deny else states[id].error
  }

  ghost predicate DistinctIds(requirements: seq<Dataset>) {
    forall i, j :: 0 <= i < j < |requirements| ==> requirements[i].id != requirements[j].id
  }

  ghost predicate DistinctData(data: seq<DataContext>) {
    forall i, j :: 0 <= i < j < |data| ==> data[i].id != data[j].id
  }

  /** One attempt for each of the requirements. */
  ghost predicate AttemptsFor(requirements: seq<Dataset>, tries: seq<Attempt>) {
    |tries| == |requirements| && forall j :: 0 <= j < |tries| ==> tries[j].dataset == requirements[j]
  }

  /** The dataset of each attempt is flagged, or the attempt was completed. */
  ghost predicate CompletedOrFlagged(states: map<string, AssetState>, tries: seq<Attempt>) {
    forall j :: 0 <= j < |tries| ==> Completed(tries[j]) || Flagged(states, tries[j].dataset.id)
  }

  /** The first `n` datasets without requirements are flagged, and nothing else changes. */
  ghost predicate CollectedInto(s: Surroundings, data: seq<DataContext>, n: nat, before: map<string, AssetState>,
                                after: map<string, AssetState>)
    requires n <= |data|
  {
    && after.Keys == before.Keys
    && forall id :: id in before ==>
        after[id] ==
        if HasId(data, n, id) && s.info(id).Failed? then Flag(before[id], s.info(id).message) else before[id]
  }

  /** Some attempt for the dataset failed with a denial. */
  ghost predicate DeniedBy(tries: seq<Attempt>, id: string) {
    exists t :: t in tries && t.dataset.id == id && !Completed(t) && IsDenial(FailureOf(t))
  }

  /** Some attempt for the dataset failed with any other message. */
  ghost predicate FailedBy(tries: seq<Attempt>, id: string) {
    exists t :: t in tries && t.dataset.id == id && !Completed(t) && !IsDenial(FailureOf(t))
  }

  /** The datasets of failed attempts are flagged, and nothing else changes. */
  ghost predicate FlaggedBy(tries: seq<Attempt>, before: map<string, AssetState>, after: map<string, AssetState>) {
    && after.Keys == before.Keys
    && forall id :: id in before ==>
        after[id] ==
        before[id].(deny := before[id].deny || DeniedBy(tries, id), error := before[id].error || FailedBy(tries, id))
  }

  /** Conditions are only ever added. */
  ghost predicate Grown(states: map<string, AssetState>, states': map<string, AssetState>) {
    && states'.Keys == states.Keys
    && forall id :: id in states ==>
        && states'[id].ready == states[id].ready
        && (states[id].deny ==> states'[id].deny) && (states[id].error ==> states'[id].error)
  }

  // ---------------------------------------------------------------------------------------------
  // The code
  // ---------------------------------------------------------------------------------------------

  class Application {
    var data: seq<DataContext>
    var generation: int
    var stored: Status
    var plotter: Option<PlotterSpec>  // in the cluster, as last created or updated
    // the status as it is worked on during a pass
    var errorMessage: string
    var initialized: bool
    var states: map<string, AssetState>
    var ready: bool
    var observedGeneration: int
    var validatedGeneration: int
    var validity: Validity
    var generated: Option<int>
    var storage: map<string, string>

    function InMemory(): Status
      reads this
    {
      Status(errorMessage, if initialized then Some(states) else None, ready, observedGeneration, validatedGeneration,
             validity, generated, storage)
    }

    method Load()
      modifies this
      ensures data == old(data) && generation == old(generation) && stored == old(stored) && plotter == old(plotter)
      ensures InMemory() == stored
    {
      errorMessage, initialized, ready := stored.errorMessage, stored.assetStates.Some?, stored.ready;
      states := if initialized then stored.assetStates.value else map[];
      observedGeneration, validatedGeneration, validity :=
        stored.observedGeneration, stored.validatedGeneration, stored.validity;
      generated, storage := stored.generated, stored.provisionedStorage;
    }

    /** Forgets all conditions. */
    method InitStatus()
      modifies this`errorMessage, this`initialized, this`states, this`ready
      ensures errorMessage == "" && initialized && ready == (data == [])
      ensures Covers(states, data) && states == Fresh(data)
      ensures forall id :: id in states ==>
        !states[id].ready && !states[id].deny && !states[id].error && states[id].catalogedAsset == ""
    {
      errorMessage, initialized, states := "", true, map[];
      ready := |data| == 0;
      for i := 0 to |data|
        modifies this`states
        invariant forall id :: id in states <==> HasId(data, i, id)
        invariant forall id :: id in states ==> states[id] == NEW_STATE
      {
        forall id ensures HasId(data, i + 1, id) <==> HasId(data, i, id) || id == data[i].id {}
        states := states[data[i].id := NEW_STATE];
      }
      FreshIsNew(states, data);
    }

    /** A denial is final for this generation; any other error is reported as an error. */
    method AnalyzeError(id: string, message: string)
      requires id in states
      modifies this`states
      ensures states == old(states)[id := Flag(old(states)[id], message)]
    {
      if IsDenial(message) {
        states := states[id := states[id].(deny := true)];
      } else {
        states := states[id := states[id].(error := true)];
      }
    }

    /** Gathers the requirements of all datasets; those that fail are flagged instead. */
    method CollectRequirements(s: Surroundings) returns (requirements: seq<Dataset>)
      requires WellFormed(s) && Covers(states, data)
      modifies this`states
      ensures requirements == Wanted(s, data) && CollectedInto(s, data, |data|, old(states), states)
      ensures Grown(old(states), states) && forall k :: 0 <= k < |data| ==> Explained(s, data[k].id, states)
    {
      requirements := [];
      CoveredIds(states, data);
      NoneCollected(s, data, states);
      hide Flag, WellFormed, CollectedInto, Explained, Grown;
      for i := 0 to |data|
        invariant requirements == Wanted(s, data[..i]) && CollectedInto(s, data, i, old(states), states)
        invariant forall k :: 0 <= k < |data| ==> data[k].id in states
      {
        hide Covers, Wanted;
        WantedOneMore(s, data, i);
        var id := data[i].id;
        OneMoreCollected(s, data, i, old(states), states);
        match s.info(id) {
          case Ok(d) =>
            requirements := requirements + [d];
          case Failed(message) =>
            AnalyzeError(id, message);
        }
      }
      assert data[..|data|] == data;
      CollectedExplains(s, data, old(states), states);
    }

    /** Adds a flow to the plotter for one dataset, or flags it. */
    method Serve(env: Env, modules: Modules, d: Dataset, g: PlotterGenerator) returns (ghost t: Attempt)
      requires d.id in states
      modifies this`states, g
      ensures t.dataset == d && Tried(env, modules, t)
      ensures if Completed(t) then Added(d, t.plan, old(g.spec), g.spec) else g.spec == old(g.spec)
      ensures g.provisionedStorage == Tracked(d, t.plan, t.done, old(g.provisionedStorage))
      ensures states == if Completed(t) then old(states) else old(states)[d.id := Flag(old(states)[d.id], FailureOf(t))]
    {
      hide Tried, Added, Tracked, Flag, FailureOf;
      var err;
      err, t := g.AddFlowInfoForAsset(env, modules, d);
      if err.Some? {
        AnalyzeError(d.id, err.value);
      }
    }

    /** Adds a flow to the plotter for each dataset, or flags it. */
    method BuildSolution(env: string -> Env, modules: Modules, requirements: seq<Dataset>)
      returns (g: PlotterGenerator, ghost tries: seq<Attempt>)
      requires forall j :: 0 <= j < |requirements| ==> requirements[j].id in states
      modifies this`states
      ensures fresh(g) && Resolves(g.spec) && FlaggedBy(tries, old(states), states)
      ensures AttemptsFor(requirements, tries) && Solves(env, modules, tries, g.spec, g.provisionedStorage)
      ensures Grown(old(states), states) && CompletedOrFlagged(states, tries)
    {
      hide Resolves, Solves, Tried, Added, Tracked, Completed, FailureOf, Flag, FlaggedBy;
      g := new PlotterGenerator();
      tries := [];
      NothingYet(env, modules, g.spec);
      NoneFlagged(states);
      for i := 0 to |requirements|
        invariant fresh(g) && Resolves(g.spec) && FlaggedBy(tries, old(states), states)
        invariant states.Keys == old(states).Keys
        invariant AttemptsFor(requirements[..i], tries) && Solves(env, modules, tries, g.spec, g.provisionedStorage)
      {
        ghost var before, spec, storage := states, g.spec, g.provisionedStorage;
        ghost var t := Serve(env(requirements[i].id), modules, requirements[i], g);
        SolvesOneMore(env, modules, tries, spec, storage, t, g.spec, g.provisionedStorage);
        StillResolved(t, spec, g.spec);
        OneMoreFlagged(tries, old(states), before, states, t);
        tries := tries + [t];
      }
      assert requirements[..|requirements|] == requirements;
      AttemptsExplain(requirements, tries, old(states), states);
    }

    method HasErrors() returns (errors: bool)
      ensures errors <==> errorMessage != "" || exists id :: id in states && states[id].error
    {
      if errorMessage != "" {
        return true;
      }
      var todo := states.Keys;
      while todo != {}
        invariant todo <= states.Keys && forall id :: id in states && id !in todo ==> !states[id].error
      {
        var id :| id in todo;
        if states[id].error {
          return true;
        }
        todo := todo - {id};
      }
      return false;
    }

    /** Tracks exactly the planned buckets; `provisioned` says whether all of them have been provisioned. */
    method UpdateProvisionedStorageStatus(
      s: Surroundings, planned: map<string, string>) returns (provisioned: bool, ok: bool)
      modifies this`storage
      ensures storage == planned
      ensures !ok ==> SomeBucketFails(s, planned)
      ensures ok && !provisioned ==> SomeBucketWaits(s, planned)
      ensures provisioned <==> forall id :: id in planned ==> s.bucket(planned[id]) == Provisioned
    {
      var todo := storage.Keys - planned.Keys;
      while todo != {}
        invariant todo <= storage.Keys && storage.Keys <= planned.Keys + todo
      {
        var id :| id in todo;
        storage := storage - {id};
        todo := todo - {id};
      }
      todo := planned.Keys;
      while todo != {}
        invariant todo <= planned.Keys && storage.Keys <= planned.Keys
        invariant forall id :: id in planned && id !in todo ==> id in storage && storage[id] == planned[id]
      {
        var id :| id in todo;
        storage := storage[id := planned[id]];
        todo := todo - {id};
      }
      todo := storage.Keys;
      while todo != {}
        invariant todo <= storage.Keys && storage == planned
        invariant forall id :: id in planned && id !in todo ==> s.bucket(planned[id]) == Provisioned
      {
        var id :| id in todo;
        match s.bucket(storage[id]) {
          case StatusUnavailable =>
            return false, true;
          case NotProvisioned(message) =>
            return false, message == "";
          case Provisioned =>
            todo := todo - {id};
        }
      }
      return true, true;
    }

    /** Builds a plotter and hands it to the cluster, unless a dataset is in error or a bucket is missing. */
    method Submit(s: Surroundings, requirements: seq<Dataset>) returns (ok: bool, submitted: Option<PlotterSpec>)
      requires WellFormed(s) && data != [] && s.workloadClusterKnown
      requires errorMessage == "" && states == Collected(s, data) && requirements == Wanted(s, data) != []
      modifies this`errorMessage, this`states, this`storage, this`generated, this`plotter
      ensures Rebuilds(data, old(storage), s, Rebuild(ok, submitted, states, storage, errorMessage))
      ensures generated == if submitted.Some? && s.create.None? then Some(generation) else old(generated)
      ensures plotter == if submitted.Some? && s.create.None? then submitted else old(plotter)
    {
      hide Resolves, Solves, Grown, CompletedOrFlagged, AttemptsFor, FlaggedBy, Collected, Wanted, SomeBucketFails,
           SomeBucketWaits;
      CollectedCovers(s, data);
      WantedIds(s, data, states);
      submitted := None;
      if s.listing.Failed? {
        return false, submitted;
      }
      var (env, modules) := s.listing.value;
      var g;
      ghost var tries;
      g, tries := BuildSolution(env, modules, requirements);
      ghost var spec, buckets := g.spec, g.provisionedStorage;
      var errors := HasErrors();
      if errors {
        ghost var r := Rebuild(true, None, states, storage, errorMessage);
        assert Attempted(data, old(storage), s, r, tries, spec, buckets);
        return true, submitted;
      }
      var provisioned;
      provisioned, ok := UpdateProvisionedStorageStatus(s, g.provisionedStorage);
      if provisioned {
        submitted := Some(g.spec);
        if s.create.None? {
          plotter, generated, ok := submitted, Some(generation), true;
        } else if s.create.value == INVALID_CLUSTER_CONFIGURATION {
          errorMessage, ok := s.create.value, true;
        } else {
          ok := false;
        }
      }
      ghost var result := Rebuild(ok, submitted, states, storage, errorMessage);
      assert Attempted(data, old(storage), s, result, tries, spec, buckets);
    }

    /** Starts over with the current spec; `submitted` is the plotter handed to the cluster, if there is one. */
    method ReconcileSpec(s: Surroundings) returns (ok: bool, submitted: Option<PlotterSpec>)
      requires WellFormed(s)
      modifies this`errorMessage, this`initialized, this`states, this`ready, this`storage, this`generated, this`plotter
      ensures initialized && ready == (data == [])
      ensures Rebuilds(data, old(storage), s, Rebuild(ok, submitted, states, storage, errorMessage))
      ensures generated == if submitted.Some? && s.create.None? then Some(generation) else old(generated)
      ensures plotter == if submitted.Some? && s.create.None? then submitted else old(plotter)
    {
      hide Collected, Wanted, CollectedInto, Attempted, Fresh;
      InitStatus();
      if |data| == 0 {
        FreshOfNothing();
        return true, None;
      }
      if !s.workloadClusterKnown {
        return false, None;
      }
      var requirements := CollectRequirements(s);
      IsCollected(s, data, states);
      if |requirements| == 0 {
        return true, None;
      }
      ok, submitted := Submit(s, requirements);
    }

    /** Brings the conditions of one dataset in line with what the plotter reports. */
    method CheckDataset(s: Surroundings, report: Report, ctx: DataContext)
      requires ctx.id in states
      modifies this`states
      ensures states == old(states)[ctx.id := Concluded(s, storage, report, ctx, old(states)[ctx.id])]
    {
      var id := ctx.id;
      if states[id].deny {
        return;
      }
      if report.error != "" {
        states := states[id := states[id].(error := true)];
        return;
      }
      if !report.ready {
        return;
      }
      if ctx.catalogID != "" {
        if states[id].catalogedAsset != "" {
          return;
        }
        if id !in storage {
          states := states[id := states[id].(error := true)];
          return;
        }
        match s.register(ctx.catalogID, storage[id]) {
          case Failed(_) =>
            states := states[id := states[id].(error := true)];
            return;
          case Ok(newAsset) =>
            states := states[id := states[id].(catalogedAsset := newAsset)];
        }
      }
      states := states[id := states[id].(ready := true)];
    }

    /** Brings all conditions in line with what the plotter reports; denied datasets are not concerned. */
    method CheckReadiness(s: Surroundings, report: Report)
      requires initialized ==> Covers(states, data)
      modifies this`errorMessage, this`initialized, this`states, this`ready
      ensures initialized && Covers(states, data) && errorMessage == if old(initialized) then old(errorMessage) else ""
      ensures states == AfterReport(s, storage, report, data, if old(initialized) then old(states) else Fresh(data))
    {
      if !initialized {
        InitStatus();
      }
      ghost var before := states;
      for i := 0 to |data|
        modifies this`states
        invariant states.Keys == before.Keys && states == AfterReport(s, storage, report, data[..i], before)
      {
        assert HasId(data, |data|, data[i].id);
        hide AfterReport, Concluded, Covers;
        OneMoreConcluded(s, storage, report, data, i, before);
        CheckDataset(s, report, data[i]);
      }
      assert data[..|data|] == data;
    }

    /** Whether every dataset is ready or denied. */
    method IsReady() returns (r: bool)
      requires initialized && Covers(states, data)
      ensures r <==> AllSettled(data, states)
    {
      for i := 0 to |data|
        invariant forall k :: 0 <= k < i ==>
          data[k].id in states && (states[data[k].id].deny || states[data[k].id].ready)
      {
        assert HasId(data, |data|, data[i].id);
        if !states[data[i].id].deny && !states[data[i].id].ready {
          return false;
        }
      }
      return true;
    }

    ghost function Now(): App
      reads this
    {
      App(data, generation, stored, plotter)
    }

    /** Starts over, and stores what comes of it. */
    method StartOver(s: Surroundings) returns (submitted: Option<PlotterSpec>)
      requires WellFormed(s) && InMemory() == Validated(Now(), s)
      modifies this
      ensures data == old(data) && generation == old(generation) && Rebuilt(old(Now()), s, Now())
      ensures submitted.Some? ==> Justified(data, states, storage, s, submitted.value)
      ensures submitted.Some? && s.written ==>
        stored.assetStates == Some(states) && stored.provisionedStorage == storage
      ensures plotter == if submitted.Some? && s.create.None? then submitted else old(plotter)
    {
      hide Covers, NoneReady, Justified, Excused, Troubled, Flagged, CreationFails, AllSettled;
      hide WellFormed, Rebuilds, Rebuilt;
      var ok;
      ok, submitted := ReconcileSpec(s);
      ghost var r := Rebuild(ok, submitted, states, storage, errorMessage);
      RebuildMeans(data, old(storage), s, r);
      if ok {
        observedGeneration := generation;
        ready := IsReady();
      }
      if s.written {
        stored := InMemory();
      }
      IsRebuilt(old(Now()), s, Now(), r);
    }

    /** Rebuilds the plotter or checks on it, once the spec is known to be valid. */
    method ReconcileValid(s: Surroundings) returns (submitted: Option<PlotterSpec>)
      requires WellFormed(s) && StatesMatchSpec(Now()) && InMemory() == Validated(Now(), s)
      modifies this
      ensures data == old(data) && generation == old(generation) && Advanced(old(Now()), s, Now())
      ensures submitted.Some? ==> Justified(data, states, storage, s, submitted.value)
      ensures submitted.Some? && s.written ==>
        stored.assetStates == Some(states) && stored.provisionedStorage == storage
      ensures plotter == if submitted.Some? && s.create.None? then submitted else old(plotter)
    {
      hide Covers, Justified, Fresh, AllSettled, WellFormed, Rebuilt, AfterReport;
      var generationComplete := s.plotterExists && generated == Some(generation);
      if !generationComplete || observedGeneration != generation {
        submitted := StartOver(s);
        return;
      }
      submitted := None;
      if s.report.None? {
        return;
      }
      CheckReadiness(s, s.report.value);
      ready := IsReady();
      if s.written {
        stored := InMemory();
      }
    }

    /** One call of the reconciler on an application that is not being deleted. */
    method Reconcile(s: Surroundings) returns (submitted: Option<PlotterSpec>)
      requires WellFormed(s) && StatesMatchSpec(Now())
      modifies this
      ensures Reconciled(old(Now()), s, Now())
      ensures submitted.Some? ==> Justified(data, states, storage, s, submitted.value)
      ensures submitted.Some? && s.written ==>
        stored.assetStates == Some(states) && stored.provisionedStorage == storage
      ensures plotter == if submitted.Some? && s.create.None? then submitted else old(plotter)
    {
      hide StatesMatchSpec, WellFormed, Advanced, Justified;
      Load();
      if !s.webhooks && (validity == Unchecked || validatedGeneration != generation) {
        validatedGeneration := generation;
        if !s.specIsValid {
          errorMessage, validity := VALIDATION_FAILED, Invalid;
          if s.written {
            stored := InMemory();
          }
          return None;
        }
        validity := Valid;
      }
      if validity == Invalid {
        return None;
      }
      submitted := ReconcileValid(s);
    }
  }

  lemma {:induction false} CoveredIds(states: map<string, AssetState>, data: seq<DataContext>)
    requires Covers(states, data)
    ensures forall k :: 0 <= k < |data| ==> data[k].id in states
  {
    forall k | 0 <= k < |data|
      ensures data[k].id in states
    {
      assert HasId(data, |data|, data[k].id);
    }
  }

  lemma {:induction false} NoneCollected(s: Surroundings, data: seq<DataContext>, states: map<string, AssetState>)
    ensures CollectedInto(s, data, 0, states, states)
  {
  }

  lemma {:induction false} OneMoreCollected(
    s: Surroundings, data: seq<DataContext>, i: nat, before: map<string, AssetState>, states: map<string, AssetState>)
    requires i < |data| && data[i].id in states && CollectedInto(s, data, i, before, states)
    ensures s.info(data[i].id).Ok? ==> CollectedInto(s, data, i + 1, before, states)
    ensures s.info(data[i].id).Failed? ==>
      var (id, message) := (data[i].id, s.info(data[i].id).message);
      CollectedInto(s, data, i + 1, before, states[id := Flag(states[id], message)])
  {
    forall id
      ensures HasId(data, i + 1, id) <==> HasId(data, i, id) || id == data[i].id
    {
    }
    hide HasId;
    var (id, info) := (data[i].id, s.info(data[i].id));
    if info.Failed? {
      FlagTwice(before[id], info.message);
    }
    hide Flag;
  }

  lemma {:induction false} FlagTwice(state: AssetState, message: string)
    ensures Flag(Flag(state, message), message) == Flag(state, message)
  {
  }

  lemma {:induction false} CollectedExplains(
    s: Surroundings, data: seq<DataContext>, before: map<string, AssetState>, states: map<string, AssetState>)
    requires Covers(before, data) && CollectedInto(s, data, |data|, before, states)
    ensures Grown(before, states) && forall k :: 0 <= k < |data| ==> Explained(s, data[k].id, states)
  {
    forall id | id in before && s.info(id).Failed?
      ensures var (state, message) := (before[id], s.info(id).message);
        && Flag(state, message).ready == state.ready && (state.deny ==> Flag(state, message).deny)
        && (state.error ==> Flag(state, message).error)
    {
    }
    forall k | 0 <= k < |data|
      ensures Explained(s, data[k].id, states)
    {
      assert HasId(data, |data|, data[k].id);
    }
  }

  lemma {:induction false} NoneFlagged(states: map<string, AssetState>)
    ensures FlaggedBy([], states, states)
  {
  }

  lemma {:induction false} FlaggedAt(tries: seq<Attempt>, t: Attempt, id: string)
    ensures DeniedBy(tries + [t], id) <==>
      DeniedBy(tries, id) || (t.dataset.id == id && !Completed(t) && IsDenial(FailureOf(t)))
    ensures FailedBy(tries + [t], id) <==>
      FailedBy(tries, id) || (t.dataset.id == id && !Completed(t) && !IsDenial(FailureOf(t)))
  {
    hide FailureOf, IsDenial, Completed;
    var more := tries + [t];
    assert forall u :: u in more <==> u in tries || u == t;
  }

  lemma {:induction false} OneMoreFlagged(
    tries: seq<Attempt>, before: map<string, AssetState>, states: map<string, AssetState>,
    states': map<string, AssetState>, t: Attempt)
    requires FlaggedBy(tries, before, states) && t.dataset.id in states
    requires states' ==
      if Completed(t) then states else states[t.dataset.id := Flag(states[t.dataset.id], FailureOf(t))]
    ensures FlaggedBy(tries + [t], before, states')
  {
    forall id
      ensures DeniedBy(tries + [t], id) <==>
        DeniedBy(tries, id) || (t.dataset.id == id && !Completed(t) && IsDenial(FailureOf(t)))
      ensures FailedBy(tries + [t], id) <==>
        FailedBy(tries, id) || (t.dataset.id == id && !Completed(t) && !IsDenial(FailureOf(t)))
    {
      FlaggedAt(tries, t, id);
    }
    hide DeniedBy, FailedBy, FailureOf, IsDenial, Completed;
  }

  lemma {:induction false} AttemptsExplain(
    requirements: seq<Dataset>, tries: seq<Attempt>, before: map<string, AssetState>, states: map<string, AssetState>)
    requires FlaggedBy(tries, before, states) && AttemptsFor(requirements, tries)
    requires forall j :: 0 <= j < |requirements| ==> requirements[j].id in before
    ensures Grown(before, states) && CompletedOrFlagged(states, tries)
  {
    hide FailureOf, IsDenial, Completed;
    forall j | 0 <= j < |tries|
      ensures Completed(tries[j]) || Flagged(states, tries[j].dataset.id)
    {
      assert tries[j] in tries && tries[j].dataset.id in before;
    }
  }

  // ---------------------------------------------------------------------------------------------
  // What starting over amounts to
  // ---------------------------------------------------------------------------------------------

  /** The states once the requirements have been gathered: datasets without any are flagged. */
  ghost function Collected(s: Surroundings, data: seq<DataContext>): map<string, AssetState> {
    map id | id in Ids(data) :: if s.info(id).Failed? then Flag(NEW_STATE, s.info(id).message) else NEW_STATE
  }

  /** What starting over leads to. */
  datatype Rebuild = Rebuild(ok: bool, submitted: Option<PlotterSpec>, states: map<string, AssetState>,
                             storage: map<string, string>, errorMessage: string)

  ghost predicate AllProvisioned(s: Surroundings, buckets: map<string, string>) {
    forall id :: id in buckets ==> s.bucket(buckets[id]) == Provisioned
  }

  /**
   * An attempt is made for each dataset with requirements.  If one ends in error nothing is submitted; otherwise the
   * buckets are tracked, and the plotter is submitted if they are provisioned.
   */
  ghost predicate Attempted(data: seq<DataContext>, storage: map<string, string>, s: Surroundings, r: Rebuild,
                            tries: seq<Attempt>, spec: PlotterSpec, buckets: map<string, string>)
    requires s.listing.Ok?
  {
    && AttemptsFor(Wanted(s, data), tries) && Solves(s.listing.value.0, s.listing.value.1, tries, spec, buckets)
    && Resolves(spec) && FlaggedBy(tries, Collected(s, data), r.states)
    && if exists id :: id in r.states && r.states[id].error then
         r.ok && r.submitted.None? && r.storage == storage && r.errorMessage == ""
       else if !AllProvisioned(s, buckets) then
         && r.submitted.None? && r.storage == buckets && r.errorMessage == ""
         && if r.ok then SomeBucketWaits(s, buckets) else SomeBucketFails(s, buckets)
       else
         && r.submitted == Some(spec) && r.storage == buckets && r.ok == !CreationFails(s)
         && r.errorMessage ==
            if s.create == Some(INVALID_CLUSTER_CONFIGURATION) then INVALID_CLUSTER_CONFIGURATION else ""
  }

  /** All that starting over with the current spec can lead to. */
  ghost predicate Rebuilds(data: seq<DataContext>, storage: map<string, string>, s: Surroundings, r: Rebuild) {
    if data == [] then r == Rebuild(true, None, map[], storage, "")
    else if !s.workloadClusterKnown then r == Rebuild(false, None, Fresh(data), storage, "")
    else if Wanted(s, data) == [] then r == Rebuild(true, None, Collected(s, data), storage, "")
    else if s.listing.Failed? then r == Rebuild(false, None, Collected(s, data), storage, "")
    else exists tries, spec, buckets :: Attempted(data, storage, s, r, tries, spec, buckets)
  }

  lemma {:induction false} FreshOfNothing()
    ensures Fresh([]) == map[]
  {
  }

  lemma {:induction false} IdsAreCovered(data: seq<DataContext>)
    ensures forall id :: HasId(data, |data|, id) <==> id in Ids(data)
  {
  }

  lemma {:induction false} IsCollected(s: Surroundings, data: seq<DataContext>, states: map<string, AssetState>)
    requires CollectedInto(s, data, |data|, Fresh(data), states)
    ensures states == Collected(s, data)
  {
    IdsAreCovered(data);
    hide HasId, Ids, Flag;
  }

  lemma {:induction false} CollectedCovers(s: Surroundings, data: seq<DataContext>)
    ensures Covers(Collected(s, data), data) && NoneReady(Collected(s, data))
    ensures forall k :: 0 <= k < |data| ==> Explained(s, data[k].id, Collected(s, data))
  {
    IdsAreCovered(data);
    forall k | 0 <= k < |data|
      ensures Explained(s, data[k].id, Collected(s, data))
    {
      assert data[k].id in Ids(data);
    }
  }

  /**
   * Starting over leaves a state for each dataset, none of them ready.  A plotter is submitted only if it is justified,
   * and left out only for a reason; an error is returned only if something may change by trying again.
   */
  lemma {:induction false} RebuildMeans(
    data: seq<DataContext>, storage: map<string, string>, s: Surroundings, r: Rebuild)
    requires WellFormed(s) && Rebuilds(data, storage, s, r)
    ensures Covers(r.states, data) && NoneReady(r.states)
    ensures r.submitted.Some? ==> Justified(data, r.states, r.storage, s, r.submitted.value)
    ensures r.submitted.Some? ==> (r.ok <==> !CreationFails(s))
    ensures r.submitted.None? ==>
      || !s.workloadClusterKnown || Excused(r.states, r.storage, s)
      || forall k :: 0 <= k < |data| ==> Flagged(r.states, data[k].id)
    ensures !r.ok ==> data != [] && (!s.workloadClusterKnown || Troubled(r.storage, s))
    ensures data != [] && !s.workloadClusterKnown ==> !r.ok
  {
    IdsAreCovered(data);
    CollectedCovers(s, data);
    if data == [] || !s.workloadClusterKnown {
      return;
    }
    hide Fresh, Collected, Justified, Excused, Covers, NoneReady, Explained, Troubled;
    if Wanted(s, data) == [] {
      AllFlagged(s, data, r.states);
    } else if s.listing.Failed? {
      ListingExcuses(r.states, r.storage, s);
    } else {
      var tries, spec, buckets :| Attempted(data, storage, s, r, tries, spec, buckets);
      AttemptedMeans(data, storage, s, r, tries, spec, buckets);
    }
  }

  lemma {:induction false} ListingExcuses(
    states: map<string, AssetState>, storage: map<string, string>, s: Surroundings)
    requires s.listing.Failed?
    ensures Excused(states, storage, s) && Troubled(storage, s)
  {
  }

  lemma {:induction false} AttemptedMeans(
    data: seq<DataContext>, storage: map<string, string>, s: Surroundings, r: Rebuild,
    tries: seq<Attempt>, spec: PlotterSpec, buckets: map<string, string>)
    requires WellFormed(s) && s.listing.Ok? && Attempted(data, storage, s, r, tries, spec, buckets)
    ensures Covers(r.states, data) && NoneReady(r.states)
    ensures r.submitted.Some? ==> Justified(data, r.states, r.storage, s, r.submitted.value)
    ensures r.submitted.Some? ==> (r.ok <==> !CreationFails(s))
    ensures r.submitted.None? ==> Excused(r.states, r.storage, s)
    ensures !r.ok ==> Troubled(r.storage, s)
  {
    var before := Collected(s, data);
    CollectedCovers(s, data);
    WantedIds(s, data, before);
    AttemptsExplain(Wanted(s, data), tries, before, r.states);
    hide Collected, Wanted, Solves, Resolves, Explained, CompletedOrFlagged, AttemptsFor, Justified, FlaggedBy;
    if r.submitted.Some? {
      IsJustified(data, before, r.states, r.storage, s, spec, tries);
    }
  }

  lemma {:induction false} NothingYet(env: string -> Env, modules: Modules, spec: PlotterSpec)
    requires spec == PlotterSpec(map[], [], map[])
    ensures Resolves(spec) && Solves(env, modules, [], spec, map[])
  {
    SolvesNothing(env, modules, spec);
  }

  lemma {:induction false} StillResolved(t: Attempt, before: PlotterSpec, after: PlotterSpec)
    requires Resolves(before) && if Completed(t) then Added(t.dataset, t.plan, before, after) else after == before
    ensures Resolves(after)
  {
    if Completed(t) {
      ReferencesResolve(t.dataset, t.plan, before, after);
    }
  }

  ghost predicate SomeBucketFails(s: Surroundings, storage: map<string, string>) {
    exists id :: id in storage && s.bucket(storage[id]).NotProvisioned? && s.bucket(storage[id]).errorMessage != ""
  }

  ghost predicate SomeBucketWaits(s: Surroundings, storage: map<string, string>) {
    exists id :: id in storage && s.bucket(storage[id]) in {StatusUnavailable, NotProvisioned("")}
  }

  /** The plotter cannot be created, for a reason that trying again may remove. */
  ghost predicate CreationFails(s: Surroundings) {
    s.create.Some? && s.create.value != INVALID_CLUSTER_CONFIGURATION
  }

  /** Why a pass with requirements has to be tried again. */
  ghost predicate Troubled(storage: map<string, string>, s: Surroundings) {
    s.listing.Failed? || SomeBucketFails(s, storage) || CreationFails(s)
  }

  /** The plotter follows the plans of these attempts, one for each dataset with requirements that is not denied. */
  ghost predicate MadeBy(data: seq<DataContext>, states: map<string, AssetState>, storage: map<string, string>,
                         s: Surroundings, spec: PlotterSpec, tries: seq<Attempt>)
    requires s.listing.Ok?
  {
    && AttemptsFor(Wanted(s, data), tries)
    && Solves(s.listing.value.0, s.listing.value.1, tries, spec, storage)
    && forall j :: 0 <= j < |tries| ==> Completed(tries[j]) || Denied(states, tries[j].dataset.id)
  }

  /**
   * When a plotter may be submitted: it is made of valid plans, one for each dataset that is not denied, all that
   * its flows refer to is there, no dataset is in error, and the buckets that were allocated for the plans are
   * tracked and have been provisioned.
   */
  ghost predicate Justified(data: seq<DataContext>, states: map<string, AssetState>, storage: map<string, string>,
                            s: Surroundings, spec: PlotterSpec) {
    && s.listing.Ok? && (exists tries :: MadeBy(data, states, storage, s, spec, tries)) && Resolves(spec)
    && (forall k :: 0 <= k < |data| && s.info(data[k].id).Failed? ==> Denied(states, data[k].id))
    && (forall id :: id in states ==> !states[id].error)
    && (forall id :: id in storage ==> s.bucket(storage[id]) == Provisioned)
  }

  /** Why no plotter is submitted although there are requirements. */
  ghost predicate Excused(states: map<string, AssetState>, storage: map<string, string>, s: Surroundings) {
    || s.listing.Failed?
    || (exists id :: id in states && states[id].error)
    || (exists id :: id in storage && s.bucket(storage[id]) != Provisioned)
  }

  lemma {:induction false} WantedOneMore(s: Surroundings, data: seq<DataContext>, i: nat)
    requires i < |data|
    ensures var info := s.info(data[i].id);
      Wanted(s, data[..i + 1]) == if info.Ok? then Wanted(s, data[..i]) + [info.value] else Wanted(s, data[..i])
  {
    assert data[..i + 1][..i] == data[..i];
  }

  lemma {:induction false} WantedMembers(s: Surroundings, data: seq<DataContext>)
    ensures forall k :: 0 <= k < |data| && s.info(data[k].id).Ok? ==> s.info(data[k].id).value in Wanted(s, data)
    ensures forall d :: d in Wanted(s, data) ==> exists k :: 0 <= k < |data| && s.info(data[k].id) == Ok(d)
  {
    if data != [] {
      var init := data[..|data| - 1];
      WantedMembers(s, init);
      assert forall k :: 0 <= k < |init| ==> init[k] == data[k];
    }
  }

  lemma {:induction false} WantedIds(s: Surroundings, data: seq<DataContext>, states: map<string, AssetState>)
    requires WellFormed(s) && Covers(states, data)
    ensures forall j :: 0 <= j < |Wanted(s, data)| ==> Wanted(s, data)[j].id in states
  {
    WantedMembers(s, data);
    CoveredIds(states, data);
    forall j | 0 <= j < |Wanted(s, data)|
      ensures Wanted(s, data)[j].id in states
    {
      var d := Wanted(s, data)[j];
      assert d in Wanted(s, data);
      var k :| 0 <= k < |data| && s.info(data[k].id) == Ok(d);
    }
  }

  lemma {:induction false} WantedAreDistinct(s: Surroundings, data: seq<DataContext>)
    requires WellFormed(s) && DistinctData(data)
    ensures DistinctIds(Wanted(s, data))
  {
    if data != [] {
      var init := data[..|data| - 1];
      WantedAreDistinct(s, init);
      WantedMembers(s, init);
      var earlier := Wanted(s, init);
      forall j | 0 <= j < |earlier|
        ensures earlier[j].id != data[|data| - 1].id
      {
        assert earlier[j] in earlier;
        var k :| 0 <= k < |init| && s.info(init[k].id) == Ok(earlier[j]);
      }
    }
  }

  lemma {:induction false} AllFlagged(s: Surroundings, data: seq<DataContext>, states: map<string, AssetState>)
    requires Wanted(s, data) == [] && forall k :: 0 <= k < |data| ==> Explained(s, data[k].id, states)
    ensures forall k :: 0 <= k < |data| ==> Flagged(states, data[k].id)
  {
    WantedMembers(s, data);
  }

  lemma {:induction false} IsJustified(
    data: seq<DataContext>, earlier: map<string, AssetState>, states: map<string, AssetState>,
    storage: map<string, string>, s: Surroundings, spec: PlotterSpec, tries: seq<Attempt>)
    requires Grown(earlier, states) && forall id :: id in states ==> !states[id].error
    requires forall k :: 0 <= k < |data| ==> Explained(s, data[k].id, earlier)
    requires s.listing.Ok? && Solves(s.listing.value.0, s.listing.value.1, tries, spec, storage)
    requires AttemptsFor(Wanted(s, data), tries) && CompletedOrFlagged(states, tries) && Resolves(spec)
    requires forall id :: id in storage ==> s.bucket(storage[id]) == Provisioned
    ensures Justified(data, states, storage, s, spec)
  {
    hide Solves, Resolves, Completed, AttemptsFor, IsDenial;
    assert MadeBy(data, states, storage, s, spec, tries);
    forall k | 0 <= k < |data| && s.info(data[k].id).Failed?
      ensures Denied(states, data[k].id)
    {
      assert Explained(s, data[k].id, earlier);
    }
  }

  /**
   * Every dataset of a submitted plotter is denied or has a flow, and every bucket belongs to one of the application.
   */
  lemma {:induction false} JustifiedServes(
    data: seq<DataContext>, states: map<string, AssetState>, storage: map<string, string>, s: Surroundings,
    spec: PlotterSpec)
    requires WellFormed(s) && Justified(data, states, storage, s, spec)
    ensures forall k :: 0 <= k < |data| ==> Denied(states, data[k].id) || HasFlow(spec, data[k].id)
    ensures forall id :: id in storage ==> Denied(states, id) || HasFlow(spec, id)
  {
    var tries: seq<Attempt> :| MadeBy(data, states, storage, s, spec, tries);
    assert s.listing.Ok?;
    hide MadeBy, HasFlow;
    forall k | 0 <= k < |data|
      ensures Denied(states, data[k].id) || HasFlow(spec, data[k].id)
    {
      if s.info(data[k].id).Ok? {
        var t := AttemptOf(data, states, storage, s, spec, tries, k);
        AttemptServes(data, states, storage, s, spec, tries, t);
      }
    }
    forall id | id in storage
      ensures Denied(states, id) || HasFlow(spec, id)
    {
      var t := AttemptBehind(data, states, storage, s, spec, tries, id);
      AttemptServes(data, states, storage, s, spec, tries, t);
    }
  }

  lemma {:induction false} AttemptOf(
    data: seq<DataContext>, states: map<string, AssetState>, storage: map<string, string>, s: Surroundings,
    spec: PlotterSpec, tries: seq<Attempt>, k: nat) returns (t: Attempt)
    requires WellFormed(s) && s.listing.Ok? && MadeBy(data, states, storage, s, spec, tries)
    requires k < |data| && s.info(data[k].id).Ok?
    ensures t in tries && t.dataset == s.info(data[k].id).value && t.dataset.id == data[k].id
  {
    var (wanted, d) := (Wanted(s, data), s.info(data[k].id).value);
    WantedMembers(s, data);
    hide Wanted, Solves;
    assert d in wanted;
    var j :| 0 <= j < |wanted| && wanted[j] == d;
    t := tries[j];
  }

  lemma {:induction false} AttemptBehind(
    data: seq<DataContext>, states: map<string, AssetState>, storage: map<string, string>, s: Surroundings,
    spec: PlotterSpec, tries: seq<Attempt>, id: string) returns (t: Attempt)
    requires s.listing.Ok? && MadeBy(data, states, storage, s, spec, tries) && id in storage
    ensures t in tries && t.dataset.id == id
  {
    BucketsExactly(tries);
    hide AllTried, BuiltFrom, Wanted, Buckets;
    t :| t in tries && LeftBy(t, id, storage[id]);
  }

  lemma {:induction false} AttemptServes(
    data: seq<DataContext>, states: map<string, AssetState>, storage: map<string, string>, s: Surroundings,
    spec: PlotterSpec, tries: seq<Attempt>, t: Attempt)
    requires s.listing.Ok? && MadeBy(data, states, storage, s, spec, tries) && t in tries
    ensures Denied(states, t.dataset.id) || HasFlow(spec, t.dataset.id)
  {
    hide AllTried, BuiltFrom, Wanted, Buckets, HasFlow;
    if Completed(t) {
      CompletedHasFlow(tries, spec, t);
    }
  }

  /** If no dataset is listed twice, a dataset has exactly the bucket of the last copy made for it. */
  lemma {:induction false} JustifiedBuckets(
    data: seq<DataContext>, states: map<string, AssetState>, storage: map<string, string>, s: Surroundings,
    spec: PlotterSpec, tries: seq<Attempt>, j: nat)
    requires WellFormed(s) && DistinctData(data) && s.listing.Ok? && MadeBy(data, states, storage, s, spec, tries)
    requires j < |tries|
    ensures tries[j].done <= |tries[j].plan|
    ensures var id := tries[j].dataset.id; (if id in storage then Some(storage[id]) else None) == LeftBehind(tries[j])
  {
    WantedAreDistinct(s, data);
    hide AllTried, BuiltFrom, Wanted;
    OwnBuckets(tries, j);
  }

  // ---------------------------------------------------------------------------------------------
  // Runs
  // ---------------------------------------------------------------------------------------------

  /** The application as it is between passes. */
  datatype App = App(data: seq<DataContext>, generation: int, stored: Status, plotter: Option<PlotterSpec>)

  ghost function Ids(data: seq<DataContext>): set<string> {
    set i | 0 <= i < |data| :: data[i].id
  }

  ghost function Fresh(data: seq<DataContext>): map<string, AssetState> {
    map id | id in Ids(data) :: NEW_STATE
  }

  lemma {:induction false} FreshIsNew(states: map<string, AssetState>, data: seq<DataContext>)
    requires Covers(states, data) && forall id :: id in states ==> states[id] == NEW_STATE
    ensures states == Fresh(data)
  {
    assert forall id :: HasId(data, |data|, id) <==> id in Ids(data);
  }

  /** What becomes of the conditions of one dataset on a report. */
  ghost function Concluded(s: Surroundings, storage: map<string, string>, report: Report, ctx: DataContext,
                           state: AssetState): AssetState {
    if state.deny then state
    else if report.error != "" then state.(error := true)
    else if !report.ready then state
    else if ctx.catalogID == "" then state.(ready := true)
    else if state.catalogedAsset != "" then state
    else if ctx.id !in storage then state.(error := true)
    else match s.register(ctx.catalogID, storage[ctx.id])
         case Failed(_) => state.(error := true)
         case Ok(newAsset) => state.(catalogedAsset := newAsset, ready := true)
  }

  /** The conditions after a report, dataset by dataset. */
  ghost function AfterReport(s: Surroundings, storage: map<string, string>, report: Report, data: seq<DataContext>,
                             states: map<string, AssetState>): map<string, AssetState> {
    if data == [] then states
    else
      var (before, ctx) := (AfterReport(s, storage, report, data[..|data| - 1], states), data[|data| - 1]);
      if ctx.id in before then before[ctx.id := Concluded(s, storage, report, ctx, before[ctx.id])] else before
  }

  lemma {:induction false} OneMoreConcluded(
    s: Surroundings, storage: map<string, string>, report: Report, data: seq<DataContext>, i: nat,
    states: map<string, AssetState>)
    requires i < |data|
    ensures var (before, ctx) := (AfterReport(s, storage, report, data[..i], states), data[i]);
      AfterReport(s, storage, report, data[..i + 1], states) ==
      if ctx.id in before then before[ctx.id := Concluded(s, storage, report, ctx, before[ctx.id])] else before
  {
    assert data[..i + 1][..i] == data[..i];
  }

  /**
   * What a report means for a dataset that is not denied: an error is its error; a ready report without error
   * makes it ready, or has it registered first if that is asked for and possible.
   */
  ghost predicate Informed(states: map<string, AssetState>, ctx: DataContext, report: Report) {
    && ctx.id in states
    && var state := states[ctx.id];
       || state.deny
       || if report.error != "" then state.error
          else if !report.ready then true
          else if ctx.catalogID == "" then state.ready
          else state.ready || state.error || state.catalogedAsset != ""
  }

  /** How conditions may change on a report: denials stay, and only a clean ready report makes ready. */
  ghost predicate Followed(states: map<string, AssetState>, states': map<string, AssetState>, report: Report) {
    && states'.Keys == states.Keys
    && forall id :: id in states ==>
        && states'[id].deny == states[id].deny
        && (states[id].ready ==> states'[id].ready) && (states[id].error ==> states'[id].error)
        && (states'[id].ready && !states[id].ready ==> report.ready && report.error == "" && !states[id].deny)
        && (states'[id].catalogedAsset != states[id].catalogedAsset ==>
            states'[id].ready && states[id].catalogedAsset == "")
        && (states[id].deny || (report.error == "" && !report.ready) ==> states'[id] == states[id])
        && (report.error != "" && !states[id].deny && states'[id] != states[id] ==> states'[id].error)
  }

  lemma {:induction false} FollowedTwice(
    a: map<string, AssetState>, b: map<string, AssetState>, c: map<string, AssetState>, report: Report)
    requires Followed(a, b, report) && Followed(b, c, report)
    ensures Followed(a, c, report) && c.Keys == a.Keys
    ensures forall ctx :: Informed(b, ctx, report) ==> Informed(c, ctx, report)
  {
  }

  lemma {:induction false} ConcludedFollows(
    s: Surroundings, storage: map<string, string>, report: Report, ctx: DataContext, states: map<string, AssetState>)
    requires ctx.id in states
    ensures var states' := states[ctx.id := Concluded(s, storage, report, ctx, states[ctx.id])];
      Followed(states, states', report) && Informed(states', ctx, report)
  {
  }

  /** Denials stay, only a clean ready report makes ready, and every dataset that is not denied is concerned. */
  lemma {:induction false} ReportFollowed(
    s: Surroundings, storage: map<string, string>, report: Report, data: seq<DataContext>,
    states: map<string, AssetState>)
    requires forall k :: 0 <= k < |data| ==> data[k].id in states
    ensures Followed(states, AfterReport(s, storage, report, data, states), report)
    ensures forall k :: 0 <= k < |data| ==> Informed(AfterReport(s, storage, report, data, states), data[k], report)
  {
    if data != [] {
      var (init, ctx) := (data[..|data| - 1], data[|data| - 1]);
      assert forall k :: 0 <= k < |init| ==> init[k] == data[k];
      ReportFollowed(s, storage, report, init, states);
      var before := AfterReport(s, storage, report, init, states);
      assert ctx.id in before;
      ConcludedFollows(s, storage, report, ctx, before);
      FollowedTwice(states, before, AfterReport(s, storage, report, data, states), report);
      hide Followed, Informed, Concluded;
    }
  }

  ghost function StatesOf(a: App): map<string, AssetState> {
    if a.stored.assetStates.Some? then a.stored.assetStates.value else Fresh(a.data)
  }

  /** The plotter was generated for the very spec that the status describes. */
  ghost predicate UpToDate(a: App) {
    a.stored.generated == Some(a.generation) && a.stored.observedGeneration == a.generation
  }

  ghost predicate NeedsValidation(a: App, s: Surroundings) {
    !s.webhooks && (a.stored.validity == Unchecked || a.stored.validatedGeneration != a.generation)
  }

  ghost predicate KnownInvalid(a: App, s: Surroundings) {
    !NeedsValidation(a, s) && a.stored.validity == Invalid
  }

  /** The stored status, with the outcome of a validation if one was needed. */
  ghost function Validated(a: App, s: Surroundings): Status {
    if NeedsValidation(a, s) then a.stored.(validatedGeneration := a.generation, validity := Valid) else a.stored
  }

  /** What one pass stores: nothing, a rejection, a fresh start, or what the plotter reports. */
  ghost predicate Reconciled(a: App, s: Surroundings, a': App) {
    && a'.data == a.data && a'.generation == a.generation
    && if NeedsValidation(a, s) && !s.specIsValid then
         a'.plotter == a.plotter && a'.stored == if s.written then Rejected(a) else a.stored
       else if KnownInvalid(a, s) then a'.plotter == a.plotter && a'.stored == a.stored
       else Advanced(a, s, a')
  }

  ghost predicate Advanced(a: App, s: Surroundings, a': App) {
    if !s.plotterExists || !UpToDate(a) then Rebuilt(a, s, a')
    else
      && a'.plotter == a.plotter
      && a'.stored == if s.written && s.report.Some? then Checked(a, s, s.report.value) else a.stored
  }

  ghost function Rejected(a: App): Status {
    a.stored.(validatedGeneration := a.generation, validity := Invalid, errorMessage := VALIDATION_FAILED)
  }

  /** The status after starting over: without an error the generation is observed, and readiness is found out. */
  ghost function StatusAfter(a: App, s: Surroundings, r: Rebuild): Status {
    Validated(a, s).(
      errorMessage := r.errorMessage, assetStates := Some(r.states), provisionedStorage := r.storage,
      ready := if r.ok then AllSettled(a.data, r.states) else a.data == [],
      observedGeneration := if r.ok then a.generation else a.stored.observedGeneration,
      generated := if r.submitted.Some? && s.create.None? then Some(a.generation) else a.stored.generated)
  }

  /** The application has started over; a plotter that is accepted is in the cluster even if the status is lost. */
  ghost predicate Rebuilt(a: App, s: Surroundings, a': App) {
    exists r :: RebuiltBy(a, s, a', r)
  }

  ghost predicate RebuiltBy(a: App, s: Surroundings, a': App, r: Rebuild) {
    && Rebuilds(a.data, a.stored.provisionedStorage, s, r)
    && a'.plotter == (if r.submitted.Some? && s.create.None? then r.submitted else a.plotter)
    && a'.stored == if s.written then StatusAfter(a, s, r) else a.stored
  }

  /** The status after a report has been heard. */
  ghost function Checked(a: App, s: Surroundings, report: Report): Status {
    var states := AfterReport(s, a.stored.provisionedStorage, report, a.data, StatesOf(a));
    Validated(a, s).(
      errorMessage := if a.stored.assetStates.Some? then a.stored.errorMessage else "", assetStates := Some(states),
      ready := AllSettled(a.data, states))
  }

  /** The cluster has accepted this plotter, which was justified when it was submitted. */
  ghost predicate Accepted(a: App, s: Surroundings, plotter: Option<PlotterSpec>) {
    && s.create.None? && plotter.Some?
    && exists states, storage :: Justified(a.data, states, storage, s, plotter.value)
  }

  /** The plotter has been accepted by the cluster, and is justified by the status that is stored with it. */
  ghost predicate Generates(a: App, s: Surroundings, a': App) {
    && a'.stored.generated == Some(a.generation) && s.create.None? && a'.stored.assetStates.Some? && a'.plotter.Some?
    && Justified(a.data, a'.stored.assetStates.value, a'.stored.provisionedStorage, s, a'.plotter.value)
  }

  lemma {:induction false} IsRebuilt(a: App, s: Surroundings, a': App, r: Rebuild)
    requires Rebuilds(a.data, a.stored.provisionedStorage, s, r)
    requires a'.plotter == if r.submitted.Some? && s.create.None? then r.submitted else a.plotter
    requires a'.stored == if s.written then StatusAfter(a, s, r) else a.stored
    ensures Rebuilt(a, s, a')
  {
    hide Rebuilds, StatusAfter;
    assert RebuiltBy(a, s, a', r);
  }

  ghost predicate AllSettled(data: seq<DataContext>, states: map<string, AssetState>) {
    forall k :: 0 <= k < |data| ==> data[k].id in states && (states[data[k].id].deny || states[data[k].id].ready)
  }

  /** What the readiness check relies on: a status of the current generation has a state for every dataset. */
  ghost predicate StatesMatchSpec(a: App) {
    a.stored.observedGeneration == a.generation && a.stored.assetStates.Some? ==>
      Covers(a.stored.assetStates.value, a.data)
  }

  datatype Event = Edit | Pass(surroundings: Surroundings)

  ghost predicate Follows(a: App, e: Event, a': App) {
    match e
    case Edit => a'.generation > a.generation && a'.stored == a.stored && a'.plotter == a.plotter
    case Pass(s) => WellFormed(s) && Reconciled(a, s, a')
  }

  ghost predicate IsRun(run: seq<App>, events: seq<Event>) {
    && |run| == |events| + 1
    && run[0].plotter.None? && run[0].stored.assetStates.None? && run[0].stored.generated.None?
    && run[0].stored.observedGeneration < run[0].generation
    && forall i :: 0 <= i < |events| ==> Follows(run[i], events[i], run[i + 1])
  }

  /** The pass hears from the plotter of the current generation that it is ready. */
  ghost predicate HearsReady(a: App, e: Event) {
    e.Pass? && UpToDate(a) && e.surroundings.report == Some(Report(true, ""))
  }

  /** The generations for which a ready report has been heard so far. */
  ghost function Heard(run: seq<App>, events: seq<Event>, n: nat): set<int>
    requires n <= |events| < |run|
  {
    if n == 0 then {}
    else Heard(run, events, n - 1) + if HearsReady(run[n - 1], events[n - 1]) then {run[n - 1].generation} else {}
  }

  ghost predicate SomeReady(a: App) {
    a.stored.assetStates.Some? && !NoneReady(a.stored.assetStates.value)
  }

  ghost predicate NoneDeniedAndReady(states: map<string, AssetState>) {
    forall id :: id in states ==> !(states[id].deny && states[id].ready)
  }

  /**
   * No dataset is denied and ready at once, readiness goes back to a report for the observed generation, and an
   * application that is ready for its current generation has every dataset denied or ready.
   */
  ghost predicate Honest(a: App, heard: set<int>) {
    && a.stored.observedGeneration <= a.generation
    && (a.stored.observedGeneration == a.generation ==>
          && a.stored.assetStates.Some? && Covers(a.stored.assetStates.value, a.data)
          && (a.stored.ready ==> AllSettled(a.data, a.stored.assetStates.value)))
    && (a.stored.assetStates.Some? ==> NoneDeniedAndReady(a.stored.assetStates.value))
    && (SomeReady(a) ==> a.stored.observedGeneration in heard)
  }

  lemma {:induction false} RebuiltIsHonest(a: App, s: Surroundings, a': App, r: Rebuild, heard: set<int>)
    requires WellFormed(s) && Honest(a, heard) && a'.data == a.data && a'.generation == a.generation
    requires RebuiltBy(a, s, a', r)
    ensures Honest(a', heard)
  {
    RebuildMeans(a.data, a.stored.provisionedStorage, s, r);
    hide Rebuilds, Covers, Justified, Excused, Troubled, AllSettled;
    if s.written && !r.ok {
      assert !a'.stored.ready;
    }
  }

  lemma {:induction false} CheckedIsHonest(a: App, s: Surroundings, report: Report, heard: set<int>)
    requires Honest(a, heard) && UpToDate(a)
    ensures Honest(a.(stored := Checked(a, s, report)),
                   heard + if report == Report(true, "") then {a.generation} else {})
  {
    var states := StatesOf(a);
    CoveredIds(states, a.data);
    ReportFollowed(s, a.stored.provisionedStorage, report, a.data, states);
    var states' := AfterReport(s, a.stored.provisionedStorage, report, a.data, states);
    hide AfterReport, AllSettled;
    assert Covers(states', a.data);
    if !NoneReady(states') && NoneReady(states) {
      var id :| id in states' && states'[id].ready;
      assert report == Report(true, "");
    }
  }

  lemma {:induction false} StepIsHonest(a: App, e: Event, a': App, heard: set<int>)
    requires Honest(a, heard) && Follows(a, e, a')
    ensures Honest(a', heard + if HearsReady(a, e) then {a.generation} else {})
  {
    if e.Edit? {
      return;
    }
    var s := e.surroundings;
    hide Covers, AllSettled, Rebuilds, Checked, WellFormed;
    if (NeedsValidation(a, s) && !s.specIsValid) || KnownInvalid(a, s) {
      return;
    }
    if !s.plotterExists || !UpToDate(a) {
      var r :| RebuiltBy(a, s, a', r);
      hide StatusAfter;
      RebuiltIsHonest(a, s, a', r, heard);
    } else if s.written && s.report.Some? {
      CheckedIsHonest(a, s, s.report.value, heard);
      assert a' == a.(stored := Checked(a, s, s.report.value));
    }
  }

  /**
   * In every run, whatever is edited, reported or fails: no dataset is both denied and ready, a ready dataset
   * goes back to a ready report heard while the plotter was the one generated for the observed generation,
   * a status of the current generation has a state for each of its datasets, and if it says that the application is
   * ready, each of them is denied or ready.
   */
  lemma {:induction false} RunsAreHonest(run: seq<App>, events: seq<Event>, i: nat)
    requires IsRun(run, events) && i < |run|
    ensures Honest(run[i], Heard(run, events, i))
  {
    if i > 0 {
      RunsAreHonest(run, events, i - 1);
      assert Follows(run[i - 1], events[i - 1], run[i - 1 + 1]);
      StepIsHonest(run[i - 1], events[i - 1], run[i], Heard(run, events, i - 1));
    }
  }

  /** The pass `j` of the run has generated a justified plotter for the generation. */
  ghost predicate GeneratedAt(run: seq<App>, events: seq<Event>, j: nat, generation: int)
    requires |run| == |events| + 1
  {
    && j < |events| && events[j].Pass? && run[j].generation == generation
    && Generates(run[j], events[j].surroundings, run[j + 1])
  }

  lemma {:induction false} StepGenerates(a: App, e: Event, a': App)
    requires Follows(a, e, a') && a'.stored.generated != a.stored.generated
    ensures e.Pass? && Generates(a, e.surroundings, a') && a'.stored.generated == Some(a.generation)
  {
    var s := e.surroundings;
    hide Rebuilds, AfterReport, AllSettled, Justified;
    var r :| RebuiltBy(a, s, a', r);
    RebuildMeans(a.data, a.stored.provisionedStorage, s, r);
  }

  lemma {:induction false} StepAccepts(a: App, e: Event, a': App)
    requires Follows(a, e, a') && a'.plotter != a.plotter
    ensures e.Pass? && Accepted(a, e.surroundings, a'.plotter)
  {
    var s := e.surroundings;
    hide Rebuilds, AfterReport, AllSettled, Justified;
    var r :| RebuiltBy(a, s, a', r);
    RebuildMeans(a.data, a.stored.provisionedStorage, s, r);
  }

  /** In every run, the plotter of a generation goes back to a pass that submitted a justified one for it. */
  lemma {:induction false} GeneratedIsJustified(run: seq<App>, events: seq<Event>, i: nat) returns (j: nat)
    requires IsRun(run, events) && i < |run| && run[i].stored.generated.Some?
    ensures j < i && GeneratedAt(run, events, j, run[i].stored.generated.value)
  {
    assert i > 0;
    var (before, e) := (run[i - 1], events[i - 1]);
    assert Follows(before, e, run[i - 1 + 1]);
    hide Follows, Generates;
    if run[i].stored.generated == before.stored.generated {
      j := GeneratedIsJustified(run, events, i - 1);
    } else {
      StepGenerates(before, e, run[i]);
      j := i - 1;
    }
  }

  /** In every run, the plotter in the cluster is one that was justified in the pass that put it there. */
  lemma {:induction false} PlotterIsJustified(run: seq<App>, events: seq<Event>, i: nat) returns (j: nat)
    requires IsRun(run, events) && i < |run| && run[i].plotter.Some?
    ensures j < i && events[j].Pass? && Accepted(run[j], events[j].surroundings, run[i].plotter)
  {
    assert i > 0;
    var (before, e) := (run[i - 1], events[i - 1]);
    assert Follows(before, e, run[i - 1 + 1]);
    hide Accepted, Follows;
    if run[i].plotter == before.plotter {
      j := PlotterIsJustified(run, events, i - 1);
    } else {
      StepAccepts(before, e, run[i]);
      j := i - 1;
    }
  }
}
