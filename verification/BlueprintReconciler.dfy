/**
 * The blueprint controller (manager/controllers/app/blueprint_controller.go): it installs one Helm release
 * per module, and stamps each release in its status with the generation that last asked for it.
 */
module BlueprintReconciliation {
  import opened Prelude

  datatype Condition = ConditionTrue | ConditionFalse | ConditionUnknown

  datatype ReleaseStatus = NoRelease | ReleaseFailed | ReleaseDeployed | ReleasePending

  /** The answer to a call that changes something; an interrupted call fails, but only after its effect. */
  datatype Answer = Granted | Interrupted | Refused

  /**
   * What happens to the calls of a pass.  For each module: whether its arguments can be turned into Helm values,
   * what Helm says about its release if it has one (NoRelease if the query fails) and about the resources in it,
   * and how the application of its chart ends.  For each release: how its uninstallation ends.
   */
  datatype Helm = Helm(
    converts: string -> bool, status: string -> ReleaseStatus, resources: string -> Option<seq<Condition>>,
    apply: string -> Answer, uninstall: string -> Answer)

  /** What a pass does for one module. */
  datatype Event = Applied(ok: bool) | Inspected(condition: Condition) | Waiting

  /** The blueprint, its stored status, and the releases in its cluster. */
  datatype World = World(
    modules: set<string>,
    releaseOf: string -> string,
    generation: int,
    observedGeneration: int,
    releases: map<string, int>,
    moduleReady: map<string, bool>,
    ready: bool,
    installed: set<string>)

  // ---------------------------------------------------------------------------------------------
  // What a pass may do
  // ---------------------------------------------------------------------------------------------

  /** The release belongs to one of the modules. */
  ghost predicate WantedBy(modules: set<string>, releaseOf: string -> string, release: string) {
    exists m :: m in modules && releaseOf(m) == release
  }

  ghost predicate Wanted(w: World, release: string) {
    WantedBy(w.modules, w.releaseOf, release)
  }

  /** A pass tries to uninstall the release: its stamp is not the current generation. */
  ghost predicate Outdated(w: World, release: string) {
    !Wanted(w, release) && release in w.releases && w.releases[release] != w.generation
  }

  ghost predicate SameStamp(before: map<string, int>, after: map<string, int>, release: string) {
    && (release in after <==> release in before)
    && (release in before ==> after[release] == before[release])
  }

  /** What a pass does to one release, `kept` being those whose uninstallation failed. */
  ghost predicate Stamped(w: World, w': World, kept: set<string>, release: string) {
    if Wanted(w, release) then
      && release in w'.releases && w'.releases[release] == w.generation
      && (release in w.installed ==> release in w'.installed)
    else if Outdated(w, release) then
      if release in kept then
        && SameStamp(w.releases, w'.releases, release)
        && (release in w'.installed ==> release in w.installed)
      else release !in w'.releases && release !in w'.installed
    else
      && SameStamp(w.releases, w'.releases, release)
      && (release in w'.installed <==> release in w.installed)
  }

  /** The state a module is reported in: kept from earlier when nothing is known. */
  ghost predicate Reported(w: World, w': World, m: string, event: Event) {
    match event
    case Applied(_) => m in w'.moduleReady && !w'.moduleReady[m]
    case Inspected(ConditionTrue) => m in w'.moduleReady && w'.moduleReady[m]
    case Inspected(ConditionFalse) => m in w'.moduleReady && !w'.moduleReady[m]
    case _ =>
      && (m in w'.moduleReady <==> m in w.moduleReady)
      && (m in w.moduleReady ==> w'.moduleReady[m] == w.moduleReady[m])
  }

  /** What the event of a module says about its release and its state. */
  ghost predicate Witnessed(w: World, w': World, m: string, event: Event) {
    && (event != Applied(false) ==> w.releaseOf(m) in w'.installed)
    && (w.observedGeneration != w.generation ==> event.Applied?)
    && Reported(w, w', m, event)
  }

  ghost predicate SameSpec(w: World, w': World) {
    w'.modules == w.modules && w'.releaseOf == w.releaseOf && w'.generation == w.generation
  }

  /** A pass whose status is stored. */
  ghost predicate Pass(w: World, w': World, events: map<string, Event>, kept: set<string>) {
    && SameSpec(w, w')
    && w'.observedGeneration == w.generation
    && events.Keys == w.modules
    && (forall r :: r in kept ==> Outdated(w, r))
    && (forall r :: Stamped(w, w', kept, r))
    && (forall m :: m in events ==> Witnessed(w, w', m, events[m]))
    && (w'.ready <==> AllReady(events))
  }

  /** A pass whose status is lost, because it was given up half-way or could not be written. */
  ghost predicate LostPass(w: World, w': World) {
    && w' == w.(installed := w'.installed)
    && forall r :: r in w'.installed ==> r in w.installed || Wanted(w, r)
  }

  /** What a lost pass has left in the cluster: all that a whole pass leaves, or what the modules handled need. */
  ghost predicate LostBy(w: World, w': World, helm: Helm, events: map<string, Event>, kept: set<string>) {
    if AllConvert(w, helm) then exists p :: PassBy(w, p, helm, events, kept) && w'.installed == p.installed
    else events.Keys < w.modules && Heeded(w, w'.installed, helm, events)
  }

  /** The plotter controller changes the blueprint. */
  ghost predicate Edit(w: World, w': World) {
    && w.generation < w'.generation
    && w' == w.(modules := w'.modules, generation := w'.generation)
  }

  ghost predicate AllReady(events: map<string, Event>) {
    forall m :: m in events ==> events[m] == Inspected(ConditionTrue)
  }

  // What a pass does for given answers.

  ghost predicate AllTrue(resources: Option<seq<Condition>>) {
    resources.Some? && forall i :: 0 <= i < |resources.value| ==> resources.value[i] == ConditionTrue
  }

  /**
   * A chart is applied if the blueprint has changed, or there is no release or a failed one; otherwise a deployed
   * release is inspected, and a pending one left alone.
   */
  ghost predicate Decided(
    changed: bool, status: ReleaseStatus, resources: Option<seq<Condition>>, answer: Answer, event: Event) {
    match event
    case Applied(ok) => (changed || status == NoRelease || status == ReleaseFailed) && (ok <==> answer == Granted)
    case Inspected(c) =>
      && !changed && status == ReleaseDeployed
      && (c == ConditionTrue <==> AllTrue(resources))
      && (c == ConditionFalse <==> resources.Some? && ConditionFalse in resources.value)
    case Waiting => !changed && status == ReleasePending
  }

  /** The event of a module, if its release is or is not present when the module is handled. */
  ghost predicate DecidedWith(w: World, helm: Helm, m: string, present: bool, event: Event) {
    Decided(w.observedGeneration != w.generation, if present then helm.status(m) else NoRelease,
            helm.resources(m), helm.apply(m), event)
  }

  /** Another module has the same release. */
  ghost predicate Shared(w: World, m: string) {
    exists n :: n in w.modules && n != m && w.releaseOf(n) == w.releaseOf(m)
  }

  /** A release is present from the start, or since another module with the same release was handled. */
  ghost predicate Answered(w: World, helm: Helm, m: string, event: Event) {
    || DecidedWith(w, helm, m, w.releaseOf(m) in w.installed, event)
    || (Shared(w, m) && DecidedWith(w, helm, m, true, event))
  }

  /** The chart of a module with this release was applied, and not in vain. */
  ghost predicate Deploys(w: World, helm: Helm, events: map<string, Event>, release: string) {
    exists m :: m in events && w.releaseOf(m) == release && events[m].Applied? && helm.apply(m) != Refused
  }

  /** The modules handled, and what is installed after them. */
  ghost predicate Heeded(w: World, installed: set<string>, helm: Helm, events: map<string, Event>) {
    && (forall m :: m in events ==> Answered(w, helm, m, events[m]))
    && (forall r :: r in installed <==> r in w.installed || Deploys(w, helm, events, r))
  }

  /** A whole pass, for these answers. */
  ghost predicate PassBy(w: World, w': World, helm: Helm, events: map<string, Event>, kept: set<string>) {
    && Pass(w, w', events, kept)
    && (forall m :: m in events ==> Answered(w, helm, m, events[m]))
    && (forall r :: r in kept <==> Outdated(w, r) && helm.uninstall(r) != Granted)
    && (forall r :: r in w'.installed <==>
          if Outdated(w, r) then r in w.installed && helm.uninstall(r) == Refused
          else r in w.installed || Deploys(w, helm, events, r))
  }

  ghost predicate AllConvert(w: World, helm: Helm) {
    forall m :: m in w.modules ==> helm.converts(m)
  }

  // Half-way states of a pass: some modules handled, then some releases cleaned up.

  ghost predicate VisitedRelease(w: World, v: World, visited: set<string>, release: string) {
    if WantedBy(visited, w.releaseOf, release) then
      && release in v.releases && v.releases[release] == w.generation
      && (release in w.installed ==> release in v.installed)
    else
      && SameStamp(w.releases, v.releases, release)
      && (release in v.installed <==> release in w.installed)
  }

  ghost predicate Untouched(w: World, v: World, m: string) {
    && (m in v.moduleReady <==> m in w.moduleReady)
    && (m in w.moduleReady ==> v.moduleReady[m] == w.moduleReady[m])
  }

  ghost predicate Visited(w: World, v: World, events: map<string, Event>) {
    && SameSpec(w, v)
    && v.observedGeneration == w.generation
    && (forall r :: VisitedRelease(w, v, events.Keys, r))
    && (forall m :: m in events ==> Witnessed(w, v, m, events[m]))
    && (forall m :: m !in events ==> Untouched(w, v, m))
  }

  /** The clean-up has looked at this release and found that another generation asked for it. */
  ghost predicate Stale(v: World, todo: set<string>, release: string) {
    release in v.releases && v.releases[release] != v.observedGeneration && release !in todo
  }

  /** `todo` are the releases the clean-up has not looked at. */
  ghost predicate CleanedRelease(v: World, v': World, helm: Helm, todo: set<string>, release: string) {
    if Stale(v, todo, release) then
      && (release in v'.installed <==> release in v.installed && helm.uninstall(release) == Refused)
      && if helm.uninstall(release) == Granted then release !in v'.releases
         else SameStamp(v.releases, v'.releases, release)
    else
      && SameStamp(v.releases, v'.releases, release)
      && (release in v'.installed <==> release in v.installed)
  }

  ghost predicate Cleaned(v: World, v': World, helm: Helm, todo: set<string>, kept: set<string>) {
    && v' == v.(releases := v'.releases, installed := v'.installed)
    && (forall r :: r in kept <==> Stale(v, todo, r) && helm.uninstall(r) != Granted)
    && (forall r :: CleanedRelease(v, v', helm, todo, r))
  }

  // ---------------------------------------------------------------------------------------------
  // The code
  // ---------------------------------------------------------------------------------------------

  /** True if all resources are ready, False if one has failed, Unknown otherwise or when they cannot be listed. */
  method CheckReleaseStatus(resources: Option<seq<Condition>>) returns (c: Condition)
    ensures c == ConditionTrue <==> AllTrue(resources)
    ensures c == ConditionFalse <==> resources.Some? && ConditionFalse in resources.value
  {
    if resources.None? {
      return ConditionUnknown;
    }
    var states := resources.value;
    var numReady := 0;
    for i := 0 to |states|
      invariant 0 <= numReady <= i && ConditionFalse !in states[..i]
      invariant numReady == i <==> forall k :: 0 <= k < i ==> states[k] == ConditionTrue
    {
      if states[i] == ConditionFalse {
        return ConditionFalse;
      }
      if states[i] == ConditionTrue {
        numReady := numReady + 1;
      }
    }
    assert states[..|states|] == states;
    if numReady == |states| {
      return ConditionTrue;
    }
    return ConditionUnknown;
  }

  class BlueprintReconciler {
    var modules: set<string>
    const releaseOf: string -> string
    var generation: int
    var observedGeneration: int
    var releases: map<string, int>
    var moduleReady: map<string, bool>
    var ready: bool
    var installed: set<string>  // in the cluster, behind Helm

    constructor (modules: set<string>, releaseOf: string -> string, generation: int)
      ensures Now() == World(modules, releaseOf, generation, 0, map[], map[], false, {})
    {
      this.modules, this.releaseOf, this.generation := modules, releaseOf, generation;
      observedGeneration, releases, moduleReady, ready, installed := 0, map[], map[], false, {};
    }

    ghost function Now(): World
      reads this
    {
      World(modules, releaseOf, generation, observedGeneration, releases, moduleReady, ready, installed)
    }

    // Helm.

    method ReleaseStatusOf(release: string, status: ReleaseStatus) returns (answer: ReleaseStatus)
      ensures answer == if release in installed then status else NoRelease
    {
      answer := if release in installed then status else NoRelease;
    }

    method ApplyChart(release: string, answer: Answer) returns (ok: bool)
      modifies this`installed
      ensures installed == if answer == Refused then old(installed) else old(installed) + {release}
      ensures ok <==> answer == Granted
    {
      if answer != Refused {
        installed := installed + {release};
      }
      return answer == Granted;
    }

    method Uninstall(release: string, answer: Answer) returns (ok: bool)
      modifies this`installed
      ensures installed == if answer == Refused then old(installed) else old(installed) - {release}
      ensures ok <==> answer == Granted
    {
      if answer != Refused {
        installed := installed - {release};
      }
      return answer == Granted;
    }

    /** The body of the loop over the modules. */
    method HandleModule(m: string, updateRequired: bool, helm: Helm) returns (event: Event)
      modifies this`installed, this`releases, this`moduleReady
      ensures
        var status := if releaseOf(m) in old(installed) then helm.status(m) else NoRelease;
        Decided(updateRequired, status, helm.resources(m), helm.apply(m), event)
      ensures installed ==
              if event.Applied? && helm.apply(m) != Refused then old(installed) + {releaseOf(m)} else old(installed)
      ensures releases == old(releases)[releaseOf(m) := observedGeneration]
      ensures event.Applied? || event == Inspected(ConditionFalse) ==> moduleReady == old(moduleReady)[m := false]
      ensures event == Inspected(ConditionTrue) ==> moduleReady == old(moduleReady)[m := true]
      ensures event == Inspected(ConditionUnknown) || event == Waiting ==> moduleReady == old(moduleReady)
    {
      var release := releaseOf(m);
      var status := ReleaseStatusOf(release, helm.status(m));
      if updateRequired || status == NoRelease || status == ReleaseFailed {
        var ok := ApplyChart(release, helm.apply(m));
        moduleReady := moduleReady[m := false];
        event := Applied(ok);
      } else if status == ReleaseDeployed {
        var condition := CheckReleaseStatus(helm.resources(m));
        if condition == ConditionFalse {
          moduleReady := moduleReady[m := false];
        } else if condition == ConditionTrue {
          moduleReady := moduleReady[m := true];
        }
        event := Inspected(condition);
      } else {
        event := Waiting;
      }
      releases := releases[release := observedGeneration];
    }

    /** The loop over the modules; `w` is the state in which the pass began. */
    method HandleModules(updateRequired: bool, helm: Helm, ghost w: World)
      returns (aborted: bool, allReady: bool, ghost events: map<string, Event>)
      requires Now() == w.(observedGeneration := w.generation, ready := false)
      requires updateRequired <==> w.observedGeneration != w.generation
      modifies this`installed, this`releases, this`moduleReady
      ensures aborted <==> !AllConvert(w, helm)
      ensures if aborted then events.Keys < modules else events.Keys == modules
      ensures Visited(w, Now(), events) && Heeded(w, installed, helm, events)
      ensures allReady <==> AllReady(events)
    {
      hide Visited, AllReady, Heeded, Decided;
      NoneVisited(w, Now(), helm);
      var numReleases, numReady := 0, 0;
      var todo := modules;
      events := map[];
      while todo != {}
        invariant todo <= modules && events.Keys == modules - todo
        invariant Now() == w.(observedGeneration := w.generation, ready := false,
                              releases := releases, moduleReady := moduleReady, installed := installed)
        invariant Visited(w, Now(), events) && Heeded(w, installed, helm, events)
        invariant forall m :: m in events ==> helm.converts(m)
        invariant 0 <= numReady <= numReleases
        invariant numReady == numReleases <==> AllReady(events)
        decreases |todo|
      {
        var m :| m in todo;
        if !helm.converts(m) {
          return true, numReady == numReleases, events;
        }
        numReleases := numReleases + 1;
        ghost var before := Now();
        var event := HandleModule(m, updateRequired, helm);
        if event == Inspected(ConditionTrue) {
          numReady := numReady + 1;
        }
        NotVisited(w, before, events, m);
        EventWitnesses(w, before, Now(), helm, events, m, event);
        OneMoreHeeded(w, before, Now(), helm, events, m, event);
        OneMoreModule(w, before, Now(), events, m, event);
        OneMoreReady(events, m, event);
        events := events[m := event];
        todo := todo - {m};
      }
      return false, numReady == numReleases, events;
    }

    /** Uninstalls the releases that the current generation has not asked for. */
    method CleanUp(helm: Helm) returns (ghost kept: set<string>)
      modifies this`installed, this`releases
      ensures Cleaned(old(Now()), Now(), helm, {}, kept)
    {
      kept := {};
      var todo := releases.Keys;
      while todo != {}
        invariant todo <= old(releases).Keys
        invariant Cleaned(old(Now()), Now(), helm, todo, kept)
        decreases |todo|
      {
        var release :| release in todo;
        ghost var before := Now();
        assert CleanedRelease(old(Now()), before, helm, todo, release);
        ghost var failed := false;
        if releases[release] != observedGeneration {
          var ok := Uninstall(release, helm.uninstall(release));
          if ok {
            releases := releases - {release};
          }
          failed := !ok;
        }
        OneMoreRelease(old(Now()), before, Now(), helm, todo, kept, release, failed);
        kept := if failed then kept + {release} else kept;
        todo := todo - {release};
      }
    }

    method ReconcileSpec(helm: Helm)
      returns (aborted: bool, ghost events: map<string, Event>, ghost kept: set<string>)
      modifies this`observedGeneration, this`releases, this`moduleReady, this`ready, this`installed
      ensures aborted <==> !AllConvert(old(Now()), helm)
      ensures !aborted ==> PassBy(old(Now()), Now(), helm, events, kept)
      ensures aborted ==> events.Keys < modules && Heeded(old(Now()), installed, helm, events)
      ensures forall r :: r in installed ==> r in old(installed) || Wanted(old(Now()), r)
    {
      ghost var w := Now();
      var updateRequired := observedGeneration != generation;
      observedGeneration := generation;
      ready := false;
      kept := {};
      var allReady;
      aborted, allReady, events := HandleModules(updateRequired, helm, w);
      ghost var v := Now();
      VisitedInstalls(w, v, events);
      if aborted {
        return;
      }
      kept := CleanUp(helm);
      ghost var v' := Now();
      if allReady {
        ready := true;
      }
      PassIsBoth(w, v, v', Now(), helm, events, kept);
    }

    /**
     * A pass over a blueprint that is not being deleted, on a fetched copy of its status; `writable` says whether
     * the new status can be written.
     */
    method Reconcile(helm: Helm, writable: bool)
      returns (stored: bool, ghost events: map<string, Event>, ghost kept: set<string>)
      modifies this`observedGeneration, this`releases, this`moduleReady, this`ready, this`installed
      ensures stored <==> writable && AllConvert(old(Now()), helm)
      ensures stored ==> PassBy(old(Now()), Now(), helm, events, kept)
      ensures !stored ==> LostPass(old(Now()), Now()) && LostBy(old(Now()), Now(), helm, events, kept)
    {
      var observedGeneration0, releases0, moduleReady0, ready0 := observedGeneration, releases, moduleReady, ready;
      var aborted;
      aborted, events, kept := ReconcileSpec(helm);
      ghost var passed := Now();
      stored := !aborted && writable;
      if !stored {
        observedGeneration, releases, moduleReady, ready := observedGeneration0, releases0, moduleReady0, ready0;
        assert !aborted ==> PassBy(old(Now()), passed, helm, events, kept) && Now().installed == passed.installed;
      }
    }

    /** Before the blueprint is deleted; its finalizer is removed whether or not all of this succeeds. */
    method DeleteExternalResources(helm: Helm) returns (ok: bool, ghost failed: set<string>)
      modifies this`installed
      ensures RemovedBy(old(Now()), Now(), helm, failed) && (ok <==> failed == {})
    {
      ok, failed := true, {};
      var todo := releases.Keys;
      while todo != {}
        invariant todo <= releases.Keys && (ok <==> failed == {})
        invariant forall r :: r in failed <==> r in releases && r !in todo && helm.uninstall(r) != Granted
        invariant forall r :: r in installed <==>
          r in old(installed) && (r in releases && r !in todo ==> helm.uninstall(r) == Refused)
        decreases |todo|
      {
        var release :| release in todo;
        var removed := Uninstall(release, helm.uninstall(release));
        if !removed {
          ok, failed := false, failed + {release};
        }
        todo := todo - {release};
      }
    }
  }

  lemma {:induction false} NoneVisited(w: World, v: World, helm: Helm)
    requires v == w.(observedGeneration := w.generation, ready := v.ready)
    ensures Visited(w, v, map[]) && AllReady(map[]) && Heeded(w, v.installed, helm, map[])
  {
    var none: map<string, Event> := map[];
    assert none.Keys == {};
    forall r
      ensures VisitedRelease(w, v, none.Keys, r)
    {
      assert SameStamp(w.releases, v.releases, r);
    }
  }

  lemma {:induction false} NotVisited(w: World, v: World, events: map<string, Event>, m: string)
    requires Visited(w, v, events) && m !in events
    ensures Untouched(w, v, m)
  {
  }

  lemma {:induction false} OneMoreReady(events: map<string, Event>, m: string, event: Event)
    requires m !in events
    ensures AllReady(events[m := event]) <==> AllReady(events) && event == Inspected(ConditionTrue)
  {
    var events' := events[m := event];
    if AllReady(events') {
      assert m in events';
      forall n | n in events
        ensures events[n] == Inspected(ConditionTrue)
      {
        assert n in events' && events'[n] == events[n];
      }
    }
  }

  lemma {:induction false} EventWitnesses(
    w: World, v: World, v': World, helm: Helm, events: map<string, Event>, m: string, event: Event)
    requires Untouched(w, v, m)
    requires
      var status := if w.releaseOf(m) in v.installed then helm.status(m) else NoRelease;
      Decided(w.observedGeneration != w.generation, status, helm.resources(m), helm.apply(m), event)
    requires v'.installed ==
             if event.Applied? && helm.apply(m) != Refused then v.installed + {w.releaseOf(m)} else v.installed
    requires event.Applied? || event == Inspected(ConditionFalse) ==> v'.moduleReady == v.moduleReady[m := false]
    requires event == Inspected(ConditionTrue) ==> v'.moduleReady == v.moduleReady[m := true]
    requires event == Inspected(ConditionUnknown) || event == Waiting ==> v'.moduleReady == v.moduleReady
    ensures Witnessed(w, v', m, event) && forall n :: n != m ==> Untouched(v, v', n)
  {
    hide AllTrue;
  }

  lemma {:induction false} OneMoreHeeded(
    w: World, v: World, v': World, helm: Helm, events: map<string, Event>, m: string, event: Event)
    requires Heeded(w, v.installed, helm, events) && m in w.modules && m !in events && events.Keys <= w.modules
    requires
      var status := if w.releaseOf(m) in v.installed then helm.status(m) else NoRelease;
      Decided(w.observedGeneration != w.generation, status, helm.resources(m), helm.apply(m), event)
    requires v'.installed ==
             if event.Applied? && helm.apply(m) != Refused then v.installed + {w.releaseOf(m)} else v.installed
    ensures Heeded(w, v'.installed, helm, events[m := event])
  {
    hide Decided;
    var events' := events[m := event];
    assert Answered(w, helm, m, event) by {
      var release := w.releaseOf(m);
      if release in v.installed && release !in w.installed {
        var n :| n in events && w.releaseOf(n) == release && events[n].Applied? && helm.apply(n) != Refused;
        assert n in w.modules && n != m && Shared(w, m);
      }
    }
    forall n | n in events'
      ensures Answered(w, helm, n, events'[n])
    {
      assert n != m ==> Answered(w, helm, n, events[n]);
    }
    forall r
      ensures r in v'.installed <==> r in w.installed || Deploys(w, helm, events', r)
    {
      OneMoreDeploys(w, helm, events, m, event, r);
    }
  }

  lemma {:induction false} OneMoreDeploys(
    w: World, helm: Helm, events: map<string, Event>, m: string, event: Event, release: string)
    requires m !in events
    ensures Deploys(w, helm, events[m := event], release) <==>
            Deploys(w, helm, events, release) ||
            (w.releaseOf(m) == release && event.Applied? && helm.apply(m) != Refused)
  {
    var events' := events[m := event];
    if Deploys(w, helm, events, release) {
      var n :| n in events && w.releaseOf(n) == release && events[n].Applied? && helm.apply(n) != Refused;
      assert n in events' && events'[n] == events[n];
    }
    if w.releaseOf(m) == release && event.Applied? && helm.apply(m) != Refused {
      assert m in events' && events'[m] == event;
    }
    if Deploys(w, helm, events', release) {
      var n :| n in events' && w.releaseOf(n) == release && events'[n].Applied? && helm.apply(n) != Refused;
      assert n != m ==> n in events && events[n] == events'[n];
    }
  }

  lemma {:induction false} OneMoreModule(
    w: World, v: World, v': World, events: map<string, Event>, m: string, event: Event)
    requires Visited(w, v, events) && m !in events
    requires v' == v.(releases := v.releases[w.releaseOf(m) := w.generation], installed := v'.installed,
                      moduleReady := v'.moduleReady)
    requires v'.installed == v.installed || v'.installed == v.installed + {w.releaseOf(m)}
    requires Witnessed(w, v', m, event)
    requires forall n :: n != m ==> Untouched(v, v', n)
    ensures Visited(w, v', events[m := event])
  {
    var events' := events[m := event];
    forall r
      ensures VisitedRelease(w, v', events'.Keys, r)
    {
      assert VisitedRelease(w, v, events.Keys, r);
      assert events'.Keys == events.Keys + {m};
      if WantedBy(events.Keys, w.releaseOf, r) {
        var n :| n in events.Keys && w.releaseOf(n) == r;
        assert n in events'.Keys;
      }
      if r == w.releaseOf(m) {
        assert m in events'.Keys;
      }
    }
    forall n | n in events'
      ensures Witnessed(w, v', n, events'[n])
    {
      if n != m {
        assert Witnessed(w, v, n, events[n]) && Untouched(v, v', n);
      }
    }
    forall n | n !in events'
      ensures Untouched(w, v', n)
    {
      assert Untouched(w, v, n) && Untouched(v, v', n);
    }
  }

  lemma {:induction false} OneMoreRelease(
    v: World, before: World, after: World, helm: Helm, todo: set<string>, kept: set<string>, release: string,
    failed: bool)
    requires Cleaned(v, before, helm, todo, kept) && release in todo && todo <= v.releases.Keys
    requires after == before.(releases := after.releases, installed := after.installed)
    requires
      if v.releases[release] == v.observedGeneration then
        && after.releases == before.releases && after.installed == before.installed && !failed
      else
        && (failed <==> helm.uninstall(release) != Granted)
        && after.releases == (if failed then before.releases else before.releases - {release})
        && after.installed ==
           if helm.uninstall(release) == Refused then before.installed else before.installed - {release}
    ensures Cleaned(v, after, helm, todo - {release}, if failed then kept + {release} else kept)
  {
    var kept' := if failed then kept + {release} else kept;
    forall r
      ensures CleanedRelease(v, after, helm, todo - {release}, r)
    {
      assert CleanedRelease(v, before, helm, todo, r);
      assert r == release || SameStamp(before.releases, after.releases, r);
    }
    forall r
      ensures r in kept' <==> Stale(v, todo - {release}, r) && helm.uninstall(r) != Granted
    {
      assert r != release ==> (Stale(v, todo - {release}, r) <==> Stale(v, todo, r));
    }
  }

  lemma {:induction false} VisitedInstalls(w: World, v: World, events: map<string, Event>)
    requires Visited(w, v, events) && events.Keys <= w.modules
    ensures forall r :: r in v.installed ==> r in w.installed || Wanted(w, r)
  {
    forall r | r in v.installed
      ensures r in w.installed || Wanted(w, r)
    {
      assert VisitedRelease(w, v, events.Keys, r);
      if WantedBy(events.Keys, w.releaseOf, r) {
        var m :| m in events.Keys && w.releaseOf(m) == r;
        assert m in w.modules;
      }
    }
  }

  /** A release after the modules are handled and the clean-up is done. */
  lemma {:induction false} CleanedMeans(
    w: World, v: World, v': World, helm: Helm, events: map<string, Event>, kept: set<string>, r: string)
    requires Visited(w, v, events) && Heeded(w, v.installed, helm, events) && events.Keys == w.modules
    requires Cleaned(v, v', helm, {}, kept)
    ensures Stamped(w, v', kept, r) && (r in kept <==> Outdated(w, r) && helm.uninstall(r) != Granted)
    ensures r in v'.installed ==> r in v.installed
    ensures r in v'.installed <==>
            if Outdated(w, r) then r in w.installed && helm.uninstall(r) == Refused
            else r in w.installed || Deploys(w, helm, events, r)
  {
    hide Answered, Witnessed;
    assert VisitedRelease(w, v, events.Keys, r) && CleanedRelease(v, v', helm, {}, r);
    assert WantedBy(events.Keys, w.releaseOf, r) <==> Wanted(w, r);
  }

  lemma {:induction false} StillWitnessed(
    w: World, v: World, v': World, w': World, helm: Helm, events: map<string, Event>, kept: set<string>, m: string)
    requires Visited(w, v, events) && m in events && events.Keys == w.modules && Cleaned(v, v', helm, {}, kept)
    requires w' == v'.(ready := w'.ready)
    ensures Witnessed(w, w', m, events[m])
  {
    assert Witnessed(w, v, m, events[m]);
    var r := w.releaseOf(m);
    assert Wanted(w, r);
    assert VisitedRelease(w, v, events.Keys, r) && CleanedRelease(v, v', helm, {}, r);
  }

  /** Handling all modules and then cleaning up is a pass. */
  lemma {:induction false} PassIsBoth(
    w: World, v: World, v': World, w': World, helm: Helm, events: map<string, Event>, kept: set<string>)
    requires Visited(w, v, events) && Heeded(w, v.installed, helm, events) && events.Keys == w.modules
    requires Cleaned(v, v', helm, {}, kept)
    requires w' == v'.(ready := w'.ready)
    requires w'.ready <==> AllReady(events)
    ensures PassBy(w, w', helm, events, kept)
    ensures forall r :: r in w'.installed ==> r in w.installed || Wanted(w, r)
  {
    hide Answered, Witnessed;
    VisitedInstalls(w, v, events);
    forall r
      ensures Stamped(w, w', kept, r) && (r in kept <==> Outdated(w, r) && helm.uninstall(r) != Granted)
      ensures r in w'.installed ==> r in v.installed
      ensures r in w'.installed <==>
              if Outdated(w, r) then r in w.installed && helm.uninstall(r) == Refused
              else r in w.installed || Deploys(w, helm, events, r)
    {
      CleanedMeans(w, v, v', helm, events, kept, r);
    }
    forall m | m in events
      ensures Witnessed(w, w', m, events[m])
    {
      StillWitnessed(w, v, v', w', helm, events, kept, m);
    }
  }

  // ---------------------------------------------------------------------------------------------
  // Whole runs: no release is leaked
  // ---------------------------------------------------------------------------------------------

  /** Once a generation is observed, it is stamped on exactly the releases it asks for. */
  ghost predicate StampedExactly(w: World, release: string) {
    && (release in w.releases ==> w.releases[release] <= w.observedGeneration)
    && (w.observedGeneration == w.generation ==>
          (Wanted(w, release) <==> release in w.releases && w.releases[release] == w.generation))
  }

  /** An installed release is in the status; with a status lost, it may also be one the next pass puts there. */
  ghost predicate Accounted(w: World, lost: bool, release: string) {
    release in w.installed ==> release in w.releases || (lost && Wanted(w, release))
  }

  ghost predicate Safe(w: World, lost: bool) {
    && w.observedGeneration <= w.generation
    && (forall r :: StampedExactly(w, r))
    && (forall r :: Accounted(w, lost, r))
  }

  datatype Step = Stored(events: map<string, Event>, kept: set<string>) | Lost | Edited

  ghost predicate Follows(w: World, step: Step, w': World) {
    match step
    case Stored(events, kept) => Pass(w, w', events, kept)
    case Lost => LostPass(w, w')
    case Edited => Edit(w, w')
  }

  ghost predicate Run(ws: seq<World>, steps: seq<Step>) {
    && |ws| == |steps| + 1
    && forall i :: 0 <= i < |steps| ==> Follows(ws[i], steps[i], ws[i + 1])
  }

  /** The status of the last pass was lost. */
  ghost predicate Pending(steps: seq<Step>) {
    |steps| > 0 && (steps[|steps| - 1].Lost? || (steps[|steps| - 1].Edited? && Pending(steps[..|steps| - 1])))
  }

  /** No edit comes between a lost status and the next stored one. */
  ghost predicate Careful(steps: seq<Step>) {
    |steps| == 0 ||
    (Careful(steps[..|steps| - 1]) && (steps[|steps| - 1].Edited? ==> !Pending(steps[..|steps| - 1])))
  }

  /** A new blueprint. */
  ghost predicate Created(w: World) {
    w.releases == map[] && w.installed == {} && w.observedGeneration == 0 && w.generation > 0
  }

  /** A stored pass leaves in the status what the blueprint asks for and what could not be uninstalled. */
  lemma {:induction false} PassTracksExactly(
    w: World, w': World, events: map<string, Event>, kept: set<string>, lost: bool)
    requires Safe(w, lost) && Pass(w, w', events, kept)
    ensures Safe(w', false)
    ensures forall r :: r in w'.releases <==> Wanted(w', r) || r in kept
    ensures forall r :: r in w'.installed ==> Wanted(w', r) || r in kept
    ensures forall r :: r in kept ==> r in w.releases && w.releases[r] < w.generation
  {
    forall r
      ensures StampedExactly(w', r) && Accounted(w', false, r)
      ensures r in w'.releases <==> Wanted(w', r) || r in kept
      ensures r in w'.installed ==> Wanted(w', r) || r in kept
      ensures r in kept ==> r in w.releases && w.releases[r] < w.generation
    {
      assert StampedExactly(w, r) && Accounted(w, lost, r) && Stamped(w, w', kept, r);
      assert Wanted(w', r) <==> Wanted(w, r);
    }
  }

  lemma {:induction false} LostKeepsSafe(w: World, w': World, lost: bool)
    requires Safe(w, lost) && LostPass(w, w')
    ensures Safe(w', true)
  {
    forall r
      ensures StampedExactly(w', r) && Accounted(w', true, r)
    {
      assert StampedExactly(w, r) && Accounted(w, lost, r);
      assert Wanted(w', r) <==> Wanted(w, r);
    }
  }

  lemma {:induction false} EditKeepsSafe(w: World, w': World)
    requires Safe(w, false) && Edit(w, w')
    ensures Safe(w', false)
  {
    forall r
      ensures StampedExactly(w', r) && Accounted(w', false, r)
    {
      assert StampedExactly(w, r) && Accounted(w, false, r);
    }
  }

  lemma {:induction false} RunsAreSafe(ws: seq<World>, steps: seq<Step>)
    requires Run(ws, steps) && Created(ws[0]) && Careful(steps)
    ensures Safe(ws[|steps|], Pending(steps))
  {
    var n := |steps| - 1;
    if n >= 0 {
      var (w, w') := (ws[n], ws[n + 1]);
      assert Run(ws[..n + 1], steps[..n]) by {
        forall i | 0 <= i < n
          ensures Follows(ws[..n + 1][i], steps[..n][i], ws[..n + 1][i + 1])
        {
          assert Follows(ws[i], steps[i], ws[i + 1]);
        }
      }
      RunsAreSafe(ws[..n + 1], steps[..n]);
      assert Follows(w, steps[n], w');
      match steps[n]
      case Stored(events, kept) => PassTracksExactly(w, w', events, kept, Pending(steps[..n]));
      case Lost => LostKeepsSafe(w, w', Pending(steps[..n]));
      case Edited => EditKeepsSafe(w, w');
    }
  }

  /** The blueprint is deleted: every release of the status is uninstalled, except those that fail; no others are. */
  ghost predicate Removed(w: World, w': World, failed: set<string>) {
    && w' == w.(installed := w'.installed) && w'.installed <= w.installed && failed <= w.releases.Keys
    && (forall r :: r in w'.installed ==> r in failed || r !in w.releases)
    && (forall r :: r in w.installed && r !in w.releases ==> r in w'.installed)
  }

  /** A deletion for these answers. */
  ghost predicate RemovedBy(w: World, w': World, helm: Helm, failed: set<string>) {
    && Removed(w, w', failed)
    && (forall r :: r in failed <==> r in w.releases && helm.uninstall(r) != Granted)
    && (forall r :: r in w'.installed <==> r in w.installed && (r in w.releases ==> helm.uninstall(r) == Refused))
  }

  /** Deleting a blueprint after any run leaves behind only what failed, or what a lost status has hidden. */
  lemma {:induction false} DeletionIsSafe(ws: seq<World>, steps: seq<Step>, w': World, failed: set<string>)
    requires Run(ws, steps) && Created(ws[0]) && Careful(steps) && Removed(ws[|steps|], w', failed)
    ensures forall r :: r in w'.installed ==> r in failed || (Pending(steps) && Wanted(ws[|steps|], r))
    ensures !Pending(steps) && failed == {} ==> w'.installed == {}
  {
    RunsAreSafe(ws, steps);
    forall r | r in w'.installed
      ensures r in failed || (Pending(steps) && Wanted(ws[|steps|], r))
    {
      assert Accounted(ws[|steps|], Pending(steps), r);
    }
  }

  /** A deletion without failures leaves nothing behind exactly if all that is installed is in the status. */
  lemma {:induction false} DeletionIsCompleteExactly(w: World, w': World)
    requires Removed(w, w', {})
    ensures w'.installed == {} <==> w.installed <= w.releases.Keys
  {
    if w.installed <= w.releases.Keys {
      forall r
        ensures r !in w'.installed
      {
        assert r in w'.installed ==> r in w.releases.Keys;
      }
    }
  }

  /** A blueprint deleted after a lost status leaves a release behind although nothing failed. */
  lemma {:induction false} DeletionAfterLostStatusLeaks()
    ensures exists ws: seq<World>, steps: seq<Step>, w': World ::
      && Run(ws, steps) && Created(ws[0]) && Careful(steps) && Removed(ws[|steps|], w', {}) && w'.installed != {}
  {
    var w0 := World({"m"}, (m: string) => m, 1, 0, map[], map[], false, {});
    var w1 := w0.(installed := {"m"});
    assert LostPass(w0, w1) by {
      assert "m" in w0.modules && w0.releaseOf("m") == "m";
    }
    var ws, steps := [w0, w1], [Lost];
    assert Follows(ws[0], steps[0], ws[1]);
    assert steps[..0] == [];
    assert Removed(w1, w1, {}) && "m" in w1.installed;
  }

  /** A stored pass leaves a release untracked exactly if it found one that no module asks for. */
  lemma {:induction false} LeaksExactly(w: World, w': World, events: map<string, Event>, kept: set<string>)
    requires Pass(w, w', events, kept)
    ensures w'.installed <= w'.releases.Keys <==> forall r :: r in w.installed ==> r in w.releases || Wanted(w, r)
  {
    forall r
      ensures r in w'.installed && r !in w'.releases ==> r in w.installed && r !in w.releases && !Wanted(w, r)
      ensures r in w.installed && r !in w.releases && !Wanted(w, r) ==> r in w'.installed && r !in w'.releases
    {
      assert Stamped(w, w', kept, r);
    }
  }

  /** An edit after a lost status leaks a release, which the next pass neither removes nor puts in its status. */
  lemma {:induction false} LostStatusLeaks()
    ensures exists ws: seq<World>, steps: seq<Step> ::
      && Run(ws, steps) && Created(ws[0]) && |steps| > 0 && steps[|steps| - 1].Stored?
      && !(ws[|steps|].installed <= ws[|steps|].releases.Keys)
  {
    var w0 := World({"m"}, (m: string) => m, 1, 0, map[], map[], false, {});
    var w1 := w0.(installed := {"m"});
    var w2 := w1.(modules := {}, generation := 2);
    var w3 := w2.(observedGeneration := 2, ready := true);
    assert LostPass(w0, w1) by {
      assert "m" in w0.modules && w0.releaseOf("m") == "m";
    }
    assert Pass(w2, w3, map[], {}) by {
      forall r
        ensures Stamped(w2, w3, {}, r)
      {
        assert !Wanted(w2, r) && SameStamp(w2.releases, w3.releases, r);
      }
    }
    var ws, steps := [w0, w1, w2, w3], [Lost, Edited, Stored(map[], {})];
    assert Follows(ws[0], steps[0], ws[1]) && Follows(ws[1], steps[1], ws[2]) && Follows(ws[2], steps[2], ws[3]);
    assert "m" in ws[3].installed && "m" !in ws[3].releases;
  }

  // ---------------------------------------------------------------------------------------------
  // Readiness
  // ---------------------------------------------------------------------------------------------

  /** The blueprint is ready exactly if every module is reported ready by this very pass. */
  lemma {:induction false} ReadyExactly(w: World, w': World, events: map<string, Event>, kept: set<string>)
    requires Pass(w, w', events, kept)
    ensures w'.ready <==> forall m :: m in w.modules ==>
      m in w'.moduleReady && w'.moduleReady[m] && events[m] != Inspected(ConditionUnknown) && events[m] != Waiting
    ensures w'.ready ==> forall m :: m in w.modules ==> w.releaseOf(m) in w'.installed
    ensures w'.ready && w.modules != {} ==> w.observedGeneration == w.generation
  {
    forall m | m in w.modules
      ensures events[m] == Inspected(ConditionTrue) <==>
        m in w'.moduleReady && w'.moduleReady[m] && events[m] != Inspected(ConditionUnknown) && events[m] != Waiting
      ensures events[m] == Inspected(ConditionTrue) ==>
        w.releaseOf(m) in w'.installed && w.observedGeneration == w.generation
    {
      assert Witnessed(w, w', m, events[m]);
    }
  }

  /** In terms of Helm's answers: the generation is not new, and every release was there, deployed and in order. */
  lemma {:induction false} ReadyByAnswersExactly(
    w: World, w': World, helm: Helm, events: map<string, Event>, kept: set<string>)
    requires PassBy(w, w', helm, events, kept)
    ensures w'.ready <==> forall m :: m in w.modules ==>
      && w.observedGeneration == w.generation && w.releaseOf(m) in w.installed
      && helm.status(m) == ReleaseDeployed && AllTrue(helm.resources(m))
  {
    hide AllTrue, Stamped, Outdated;
    forall m | m in w.modules
      ensures
        var fit := && w.observedGeneration == w.generation && w.releaseOf(m) in w.installed
                   && helm.status(m) == ReleaseDeployed && AllTrue(helm.resources(m));
        && (fit ==> events[m] == Inspected(ConditionTrue))
        && (w'.ready ==> fit)
    {
      assert m in events && Answered(w, helm, m, events[m]) && Witnessed(w, w', m, events[m]);
      WantedIsDeployed(w, w', helm, events, kept, m);
      assert w'.ready ==> !Deploys(w, helm, events, w.releaseOf(m));
    }
  }

  /** A module's release that is in the cluster after a pass was there before, or is one the pass has deployed. */
  lemma {:induction false} WantedIsDeployed(
    w: World, w': World, helm: Helm, events: map<string, Event>, kept: set<string>, m: string)
    requires PassBy(w, w', helm, events, kept) && m in w.modules
    ensures w.releaseOf(m) in w'.installed <==>
            w.releaseOf(m) in w.installed || Deploys(w, helm, events, w.releaseOf(m))
  {
    hide Answered, Witnessed, Stamped;
    var r := w.releaseOf(m);
    assert Wanted(w, r);
    assert !Outdated(w, r);
  }

  /**
   * Two passes over an unchanged blueprint suffice: if every chart can be applied in the first, and every release
   * is deployed and in order in the second, the blueprint is ready.  If no uninstallation fails in the first, the
   * status then has exactly the releases that the blueprint asks for.
   */
  lemma {:induction false} TwoPassesSuffice(
    w: World, w1: World, w2: World, helm1: Helm, helm2: Helm, events1: map<string, Event>, events2: map<string, Event>,
    kept1: set<string>, kept2: set<string>, lost: bool)
    requires PassBy(w, w1, helm1, events1, kept1) && PassBy(w1, w2, helm2, events2, kept2)
    requires forall m :: m in w.modules ==> helm1.apply(m) == Granted
    requires forall m :: m in w.modules ==> helm2.status(m) == ReleaseDeployed && AllTrue(helm2.resources(m))
    ensures w2.ready && forall m :: m in w.modules ==> m in w2.moduleReady && w2.moduleReady[m]
    ensures Safe(w, lost) && (forall r :: helm1.uninstall(r) == Granted) ==>
              forall r :: r in w2.releases <==> Wanted(w, r)
  {
    hide AllTrue;
    forall m | m in w1.modules
      ensures w1.releaseOf(m) in w1.installed
    {
      ModuleIsDeployed(w, w1, helm1, events1, kept1, m);
    }
    ReadyByAnswersExactly(w1, w2, helm2, events2, kept2);
    ReadyExactly(w1, w2, events2, kept2);
    if Safe(w, lost) && forall r :: helm1.uninstall(r) == Granted {
      PassTracksExactly(w, w1, events1, kept1, lost);
      PassTracksExactly(w1, w2, events2, kept2, false);
      forall r
        ensures r in w2.releases <==> Wanted(w, r)
      {
        assert r !in kept1 && (Wanted(w1, r) <==> Wanted(w, r)) && !Outdated(w1, r);
        assert Wanted(w2, r) <==> Wanted(w1, r);
      }
    }
  }

  lemma {:induction false} ModuleIsDeployed(
    w: World, w': World, helm: Helm, events: map<string, Event>, kept: set<string>, m: string)
    requires PassBy(w, w', helm, events, kept) && m in w.modules && helm.apply(m) == Granted
    ensures w.releaseOf(m) in w'.installed
  {
    hide AllTrue;
    WantedIsDeployed(w, w', helm, events, kept, m);
    assert m in events && Answered(w, helm, m, events[m]);
    if w.releaseOf(m) !in w.installed {
      if DecidedWith(w, helm, m, false, events[m]) {
        assert events[m].Applied?;
        assert Deploys(w, helm, events, w.releaseOf(m));
      } else {
        assert Witnessed(w, w', m, events[m]);
      }
    }
  }

  /** A module stays reported as ready while its resources are unknown, though the blueprint no longer is. */
  lemma {:induction false} ModuleStateGoesStale()
    ensures exists w: World, w': World, events, kept ::
      Pass(w, w', events, kept) && w.ready && !w'.ready &&
      forall m :: m in w.modules ==> m in w'.moduleReady && w'.moduleReady[m]
  {
    var w := World({"m"}, (m: string) => m, 1, 1, map["m" := 1], map["m" := true], true, {"m"});
    var w' := w.(ready := false);
    var events := map["m" := Inspected(ConditionUnknown)];
    assert "m" in w.modules && w.releaseOf("m") == "m";
    forall r
      ensures Stamped(w, w', {}, r)
    {
      assert SameStamp(w.releases, w'.releases, r);
      assert Wanted(w, r) <==> r == "m";
    }
    assert Pass(w, w', events, {}) by {
      assert "m" in events;
    }
  }
}
