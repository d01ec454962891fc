/** Whole runs of the service over both stores: additions, refreshes, deletions, commits of
    resources, activations with and without new resources, and restarts, with a crash
    possible in every step except inside an addition. */
module ServiceRun {
  import opened Common
  import opened ResourceManifest
  import opened ResourceImage
  import opened SubscriptionImage
  import opened Storage
  import opened ResourceTransaction
  import opened ResourcePromotion
  import opened ResourcePlan
  import opened SubscriptionStore
  import opened SubscriptionRefresh
  import opened Activation
  import Fetch = ResourceFetch

  datatype Event =
    | Add(id: SubId, url: string, settings: nat)
    | Refresh(id: SubId, latest: Option<(string, nat)>, checked: nat, downloadOnly: bool, now: string -> Text, outside: Outside)
    | Delete(id: SubId)
    | Activate(id: SubId, resources: Option<Fetch.Request>, valid: bool, runtime: Runtime)
    | RefreshResources(request: Fetch.Request, valid: bool, restart: Option<Runtime>)
    | Restart(attempts: seq<Weather>)

  /** Both servers are honest in every event that asks them. */
  ghost predicate Fair(w: World, fw: Fetch.World, e: Event) {
    && (e.Refresh? ==> Honest(w, e.now, e.outside.reply))
    && (e.Activate? && e.resources.Some? ==> Fetch.Honest(fw, e.resources.value.now, e.resources.value.reply))
    && (e.RefreshResources? ==> Fetch.Honest(fw, e.request.now, e.request.reply))
  }

  /** The resources that a start-up exposes, and those an open journal offers, carry
      validators that belong to their hashes. */
  ghost predicate ResourcesTruthful(fw: Fetch.World, home: Image)
    requires Sound(home)
  {
    && Fetch.Truthful(fw, Committed(home).manifest.resources)
    && (home.journal.Some? ==> Fetch.Truthful(fw, home.journal.value.candidate.resources))
  }

  lemma LoadedIsTruthful(fw: Fetch.World, home: Image)
    requires Sound(home) && ResourcesTruthful(fw, home)
    ensures Fetch.Truthful(fw, Loaded(home).resources)
  {
    hide Sound, Committed;
    Exposed(home);
  }

  /** What holds between events: start-up would succeed, every pair that a record, the
      active subscription or the marker names is stored, and validators are truthful. */
  ghost predicate Steady(disk: Disk, registry: Registry, subs: Service, w: World, fw: Fetch.World)
    reads disk, registry, subs
  {
    && Serving(disk, registry, subs) && disk.weather != Faults
    && AllTruthful(w, subs.records, RecordsOf(disk.subs)) && ResourcesTruthful(fw, disk.home)
  }

  /** An addition whose two steps are taken together: a crash between them is the one that
      no start-up recovers from (SubscriptionStore.Service.Add). */
  method DoAdd(disk: Disk, registry: Registry, subs: Service, ghost w: World, ghost fw: Fetch.World, id: SubId, record: Record)
    requires Steady(disk, registry, subs, w, fw) && record.current == None && !record.downloadedOnly && record.etag == record.lastModified == ""
    modifies subs`records, disk`subs, disk`halted, disk`errors, disk`weather
    ensures Steady(disk, registry, subs, w, fw)
    ensures OutcomeOf(disk.home, disk.subs) == old(OutcomeOf(disk.home, disk.subs))
    ensures !old(disk.halted) ==> !disk.halted && subs.records == if id in old(subs.records) then old(subs.records) else old(subs.records)[id := record]
    ensures old(disk.halted) ==> disk.halted && disk.subs == old(disk.subs)
    ensures disk.weather == old(disk.weather)
  {
    hide Sound, Committed, StoreSound, Intact, InStep, RecordsOf;
    if disk.halted {
      return;
    }
    subs.NothingCut(id);
    RecordsAdd(disk.subs, id, record);
    var weather := disk.weather;
    disk.Reboot(Calm);
    var _ := subs.Add(id, record);
    disk.Reboot(weather);
    UnmarkedIsSound(disk.subs);
  }

  method DoRefresh(disk: Disk, registry: Registry, subs: Service, ghost w: World, ghost fw: Fetch.World, e: Event) returns (result: Result)
    requires e.Refresh? && Steady(disk, registry, subs, w, fw) && Honest(w, e.now, e.outside.reply)
    modifies subs`records, disk`subs, disk`halted, disk`errors, disk`weather
    ensures Steady(disk, registry, subs, w, fw)
    ensures OutcomeOf(disk.home, disk.subs) == old(OutcomeOf(disk.home, disk.subs))
    ensures !old(disk.halted) && e.outside.expired(0) == None && e.id in old(subs.records) && UpToDate(old(subs.records[e.id]), e.latest) ==>
      TraceOf(subs).Replied(e.now, e.id, e.checked, e.downloadOnly, e.outside, result)
    ensures !old(disk.halted) && e.latest.Some? ==> e.id in subs.records
  {
    hide Sound, Committed, StoreSound, Intact, InStep, Truthful, RecordsOf, Honest, Trace.Replied, Stored;
    result := Failed;
    if disk.halted {
      return;
    }
    if e.id !in subs.records && e.latest.Some? {
      DoAdd(disk, registry, subs, w, fw, e.id, Record(e.latest.value.0, e.latest.value.1, "", "", None, false, 0, 0));
    }
    if e.id in subs.records || e.latest == None {
      result := SubscriptionRefresh.Refresh(subs, w, e.now, e.id, e.latest, e.checked, e.downloadOnly, e.outside);
    }
    UnmarkedIsSound(disk.subs);
  }

  method DoDelete(disk: Disk, registry: Registry, subs: Service, ghost w: World, ghost fw: Fetch.World, id: SubId)
    requires Steady(disk, registry, subs, w, fw)
    modifies subs`records, disk`subs, disk`halted, disk`errors, disk`nextId
    ensures Steady(disk, registry, subs, w, fw)
    ensures OutcomeOf(disk.home, disk.subs) == old(OutcomeOf(disk.home, disk.subs))
    ensures !disk.halted ==> subs.records == if subs.active.Some? && subs.active.value.id == id then old(subs.records) else old(subs.records) - {id}
  {
    hide Sound, Committed, StoreSound, Intact, InStep, Truthful;
    if disk.halted {
      return;
    }
    assert id !in subs.records ==> subs.records - {id} == subs.records;
    var _ := subs.Delete(id);
    UnmarkedIsSound(disk.subs);
    assert forall k :: k in RecordsOf(disk.subs) ==> k in old(RecordsOf(disk.subs)) && RecordsOf(disk.subs)[k] == old(RecordsOf(disk.subs))[k];
  }

  /** Nothing but the disk keeps the requested resources from being committed: no journal is
      open, memory knows the manifest, every resource can be had, and there is room. */
  ghost predicate Feasible(disk: Disk, registry: Registry, request: Fetch.Request)
    reads disk, registry
  {
    && !disk.halted && disk.home.journal == None && InTouch(registry.active, disk.home)
    && Fetch.Preparable(disk.home.files, Loaded(disk.home), registry.maxBytes, request)
    && DistinctNames(Loaded(disk.home)) && Fetch.Room(disk.home, request, registry.maxBytes)
  }

  /** An activation, with resources that are staged for it if there are any. */
  method DoActivate(disk: Disk, registry: Registry, subs: Service, ghost w: World, ghost fw: Fetch.World, id: SubId,
                    request: Option<Fetch.Request>, valid: bool, runtime: Runtime)
    requires Steady(disk, registry, subs, w, fw) && (request.Some? ==> Fetch.Honest(fw, request.value.now, request.value.reply))
    modifies subs`active, registry, disk
    ensures Steady(disk, registry, subs, w, fw)
    ensures Turned(disk, subs, id, request)
    ensures !runtime.applies || runtime.cancelled || (request.Some? && !valid) ==> OutcomeOf(disk.home, disk.subs) == old(OutcomeOf(disk.home, disk.subs))
    ensures !disk.halted && old(id in subs.records && subs.records[id].current.Some?) && runtime.applies && !runtime.cancelled ==>
      request == None || (old(Feasible(disk, registry, request.value)) && valid && runtime.stops) ==> MustTurn(disk, subs, id, request)
    ensures disk.weather == old(disk.weather) && (disk.weather == Calm && !old(disk.halted) ==> !disk.halted)
  {
    hide Feasible, Sound, Committed, StoreSound, Intact, InStep, Truthful, RecordsOf, Plan.Staged, Fetch.Honest, Fetch.Truthful, Fetch.Answers;
    if disk.halted {
      return;
    }
    if request == None {
      var _, _ := Activation.Activate(subs, null, id, runtime);
      return;
    }
    var p := StageValid(disk, registry, fw, request.value, valid);
    if p != null {
      var _, _ := Activation.Activate(subs, p, id, runtime);
    }
  }

  lemma SameRoom(before: Image, after: Image, request: Fetch.Request, maxBytes: int)
    requires after == before.(stages := after.stages) && DistinctNames(Loaded(before))
    ensures DistinctNames(Loaded(after)) && (Fetch.Room(after, request, maxBytes) <==> Fetch.Room(before, request, maxBytes))
  {
  }

  /** Prepares, stages and validates a plan; what a start-up exposes does not change. */
  method StageValid(disk: Disk, registry: Registry, ghost fw: Fetch.World, request: Fetch.Request, valid: bool) returns (p: Plan?)
    requires registry.disk == disk && registry.maxBytes > 0 && BothSound(disk) && Issued(disk) && ResourcesTruthful(fw, disk.home)
    requires Fetch.Honest(fw, request.now, request.reply)
    modifies disk`home, disk`halted, disk`errors, disk`nextId
    ensures BothSound(disk) && Issued(disk) && Committed(disk.home) == old(Committed(disk.home)) && disk.home.journal == old(disk.home.journal)
    ensures old(disk.halted) ==> disk.halted
    ensures p != null ==> fresh(p) && p.registry == registry && registry.Valid() && p.Staged() && !p.finalized && (p.validated ==> valid)
    ensures p != null ==> Fetch.Truthful(fw, p.resources) && Fetch.Answers(request, old(Loaded(disk.home)).resources, p.resources)
    ensures Counting(disk) && disk.weather == old(disk.weather) && (disk.weather == Calm && !old(disk.halted) ==> !disk.halted)
    ensures old(Feasible(disk, registry, request)) && valid ==> disk.halted || disk.errors > old(disk.errors) || (p != null && Certain(p))
  {
    hide Fetch.Preparable, Fetch.Room, Plan.Whole, Plan.Committable, DistinctNames, ValidManifest, Sound, Committed, StoreSound, Plan.Staged, Fetch.Honest, Fetch.Truthful, Fetch.Answers;
    LoadedIsTruthful(fw, disk.home);
    Fetch.SoundIsValid(disk.home);
    ghost var before := disk.home;
    p := Fetch.StageDue(registry, fw, request);
    if p != null {
      SameRoom(before, disk.home, request, registry.maxBytes);
      var _ := p.Validate(valid);
      if p.validated && Fetch.Room(disk.home, request, p.maxBytes) && disk.home.journal == None {
        Fetch.StagedIsCommittable(p, disk.home, request);
      }
    }
  }

  /** A commit of resources without an activation leaves the active subscription alone. */
  method DoRefreshResources(disk: Disk, registry: Registry, subs: Service, ghost w: World, ghost fw: Fetch.World,
                            request: Fetch.Request, valid: bool, runtime: Option<Runtime>)
    requires Steady(disk, registry, subs, w, fw) && Fetch.Honest(fw, request.now, request.reply)
    modifies registry, disk
    ensures Steady(disk, registry, subs, w, fw) && old(Sound(disk.home))
    ensures
      var before, after := old(OutcomeOf(disk.home, disk.subs)), OutcomeOf(disk.home, disk.subs);
      && after.active == before.active
      && (after.resources == before.resources || Fetch.Answers(request, old(Loaded(disk.home)).resources, after.resources.manifest.resources))
      && (!valid || (runtime.Some? && !runtime.value.applies) ==> after.resources == before.resources)
      && (!disk.halted && old(Feasible(disk, registry, request)) && valid && (runtime.Some? ==> runtime.value.stops && runtime.value.applies) ==>
            Fetch.Answers(request, old(Loaded(disk.home)).resources, after.resources.manifest.resources))
  {
    hide Feasible, Sound, Committed, StoreSound, Intact, InStep, Truthful, RecordsOf, Plan.Staged, Fetch.Honest, Fetch.Truthful, Fetch.Answers;
    if disk.halted {
      return;
    }
    var p := StageValid(disk, registry, fw, request, valid);
    if p != null && !disk.halted {
      var _, _ := CommitResources(disk, p, runtime);
    }
  }

  /** The outcome stayed, or it became the subscription's current pair together with the
      resources of the request. */
  twostate predicate Turned(disk: Disk, subs: Service, id: SubId, request: Option<Fetch.Request>)
    reads disk, subs
  {
    && old(Sound(disk.home)) && Sound(disk.home)
    && var before, after := old(OutcomeOf(disk.home, disk.subs)), OutcomeOf(disk.home, disk.subs);
       after == before || MustTurn(disk, subs, id, request)
  }

  /** It became just that. */
  twostate predicate MustTurn(disk: Disk, subs: Service, id: SubId, request: Option<Fetch.Request>)
    reads disk, subs
  {
    && old(Sound(disk.home)) && Sound(disk.home) && id in old(subs.records) && old(subs.records[id].current).Some?
    && var before, after := old(OutcomeOf(disk.home, disk.subs)), OutcomeOf(disk.home, disk.subs);
       && after.active == Some(Applied(id, old(subs.records[id].current.value)))
       && (if request == None then after.resources == before.resources
           else Fetch.Answers(request.value, old(Loaded(disk.home)).resources, after.resources.manifest.resources))
  }

  method DoRestart(disk: Disk, ghost registry: Registry, ghost subs: Service, ghost w: World, ghost fw: Fetch.World, attempts: seq<Weather>) returns (registry': Registry, subs': Service)
    requires Steady(disk, registry, subs, w, fw)
    modifies disk
    ensures Steady(disk, registry', subs', w, fw) && fresh(registry') && fresh(subs') && !disk.halted && disk.subs.pending == None
    ensures OutcomeOf(disk.home, disk.subs) == old(OutcomeOf(disk.home, disk.subs))
  {
    hide Sound, Committed, StoreSound, Intact, InStep, Truthful, RecordsOf;
    registry', subs' := StartAfterCrashes(disk, attempts);
    disk.Reboot(Crashes);
    InStepActive(subs'.records, subs'.active, disk.subs);
  }

  /** Every run of the service keeps all of this, whatever crashes on the way. */
  method Run(disk: Disk, registry: Registry, subs: Service, ghost w: World, ghost fw: Fetch.World, events: seq<Event>) returns (registry': Registry, subs': Service)
    requires Steady(disk, registry, subs, w, fw)
    requires forall e :: e in events ==> Fair(w, fw, e)
    modifies disk, registry, subs
    ensures Steady(disk, registry', subs', w, fw)
  {
    hide Serving, AllTruthful, ResourcesTruthful, Sound, Committed, StoreSound, RecordsOf, Honest, Fetch.Honest;
    registry', subs' := registry, subs;
    for k := 0 to |events|
      invariant Steady(disk, registry', subs', w, fw)
      invariant registry' == registry || fresh(registry')
      invariant subs' == subs || fresh(subs')
    {
      assert events[k] in events;
      match events[k]
      case Add(id, url, settings) => DoAdd(disk, registry', subs', w, fw, id, Record(url, settings, "", "", None, false, 0, 0));
      case Refresh(_, _, _, _, _, _) => var _ := DoRefresh(disk, registry', subs', w, fw, events[k]);
      case Delete(id) => DoDelete(disk, registry', subs', w, fw, id);
      case Activate(id, resources, valid, runtime) => DoActivate(disk, registry', subs', w, fw, id, resources, valid, runtime);
      case RefreshResources(request, valid, restart) => DoRefreshResources(disk, registry', subs', w, fw, request, valid, restart);
      case Restart(attempts) => registry', subs' := DoRestart(disk, registry', subs', w, fw, attempts);
    }
  }

  /** The main statement about activations: an activation that also commits resources, cut
      short by a crash at any step, and any number of start-ups cut short after it, end
      with the old resources and the old subscription or with the new resources and the
      new subscription, never with a mix. */
  method ActivationIsAtomic(disk: Disk, registry: Registry, subs: Service, ghost w: World, ghost fw: Fetch.World, id: SubId, request: Fetch.Request, valid: bool,
                            runtime: Runtime, attempts: seq<Weather>) returns (registry': Registry, subs': Service)
    requires Steady(disk, registry, subs, w, fw) && Fetch.Honest(fw, request.now, request.reply)
    modifies disk, registry, subs
    ensures Steady(disk, registry', subs', w, fw) && !disk.halted && old(Sound(disk.home))
    ensures
      || (Committed(disk.home) == old(OutcomeOf(disk.home, disk.subs)).resources && subs'.active == old(OutcomeOf(disk.home, disk.subs)).active)
      || (Fetch.Answers(request, old(Loaded(disk.home)).resources, Committed(disk.home).manifest.resources) && id in old(subs.records) && old(subs.records[id].current).Some?
          && subs'.active == Some(Applied(id, old(subs.records[id].current.value))))
    ensures !valid || !runtime.applies || runtime.cancelled ==>
      Committed(disk.home) == old(OutcomeOf(disk.home, disk.subs)).resources && subs'.active == old(OutcomeOf(disk.home, disk.subs)).active
    ensures old(disk.weather == Calm && !disk.halted && Feasible(disk, registry, request) && id in subs.records && subs.records[id].current.Some?) ==>
      valid && runtime.stops && runtime.applies && !runtime.cancelled ==>
        (Fetch.Answers(request, old(Loaded(disk.home)).resources, Committed(disk.home).manifest.resources)
         && subs'.active == Some(Applied(id, old(subs.records[id].current.value))))
  {
    hide Feasible, Sound, Committed, StoreSound, Intact, InStep, Truthful, RecordsOf, Fetch.Honest, Fetch.Truthful, Fetch.Answers;
    DoActivate(disk, registry, subs, w, fw, id, Some(request), valid, runtime);
    registry', subs' := DoRestart(disk, registry, subs, w, fw, attempts);
    InStepActive(subs'.records, subs'.active, disk.subs);
    assert subs'.active == OutcomeOf(disk.home, disk.subs).active;
  }
}
