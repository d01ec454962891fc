/** Activating a subscription together with a resource commit: two stores, one commit
    point, and the start-up that finds whatever a crash left of it. */
module Activation {
  import opened Common
  import opened ResourceManifest
  import opened ResourceImage
  import opened SubscriptionImage
  import opened Storage
  import opened ResourceTransaction
  import opened ResourcePromotion
  import opened ResourceRecovery
  import opened ResourcePlan
  import opened SubscriptionStore

  /** What a start-up ends with: the resources it exposes and the active subscription. */
  datatype Outcome = Outcome(resources: View, active: Option<Applied>)

  ghost function OutcomeOf(home: Image, subs: Store): Outcome
    requires Sound(home)
  {
    Outcome(Committed(home), Resolved(subs, Committed(home).manifest.commitId))
  }

  ghost predicate BothSound(disk: Disk)
    reads disk
  {
    Sound(disk.home) && Named(disk) && StoreSound(disk.subs) && Committed(disk.home).manifest.version == 2
  }

  /** One start-up: resources first, then the store, then the marker between them. */
  method StartUp(disk: Disk) returns (registry: Registry?, subs: Service?)
    requires BothSound(disk)
    modifies disk`home, disk`subs, disk`halted, disk`errors, disk`nextId
    ensures Counting(disk)
    ensures BothSound(disk) && OutcomeOf(disk.home, disk.subs) == old(OutcomeOf(disk.home, disk.subs))
    ensures disk.weather == old(disk.weather) && disk.nextId >= old(disk.nextId)
    ensures RecordsOf(disk.subs) == old(RecordsOf(disk.subs))
    ensures registry != null && subs != null ==> Opened(disk, registry, subs) && fresh(registry) && fresh(subs)
    ensures !old(disk.halted) && disk.weather == Calm ==> registry != null && subs != null
  {
    hide Sound, Committed, StoreSound, Intact, InStep;
    registry, subs := null, null;
    var active := NewRegistry(disk);
    if active == None {
      return;
    }
    Exposed(disk.home);
    ghost var before := disk.subs;
    subs := NewStore(disk);
    QuarantineKeepsSound(before, disk.subs.quarantine);
    if subs == null {
      return;
    }
    var ok := subs.RecoverPending(active.value.commitId);
    if ok {
      registry := new Registry(disk, active.value);
    }
  }

  /** Both stores are open and agree with the disk, and nothing is pending. */
  ghost predicate Opened(disk: Disk, registry: Registry, subs: Service)
    reads disk, registry, subs
  {
    && registry.disk == disk && subs.disk == disk && !disk.halted
    && registry.maxBytes > 0 && registry.active == Loaded(disk.home)
    && StoreSound(disk.subs) && subs.Valid() && subs.Synced()
    && (forall id :: id in subs.records ==> id in RecordsOf(disk.subs) && RecordsOf(disk.subs)[id] == Some(subs.records[id]))
    && disk.home.journal == None && disk.subs.pending == None
  }

  /** Any number of start-ups that crash or fail anywhere, then one that runs through: it
      ends with the outcome that the disk stood for at the beginning. */
  method StartAfterCrashes(disk: Disk, attempts: seq<Weather>) returns (registry: Registry, subs: Service)
    requires BothSound(disk)
    modifies disk
    ensures BothSound(disk) && Opened(disk, registry, subs) && fresh(registry) && fresh(subs)
    ensures Committed(disk.home) == old(OutcomeOf(disk.home, disk.subs)).resources
    ensures subs.active == old(OutcomeOf(disk.home, disk.subs)).active
    ensures disk.nextId >= old(disk.nextId)
    ensures RecordsOf(disk.subs) == old(RecordsOf(disk.subs))
  {
    hide Sound, Committed, StoreSound, RecordsOf;
    for k := 0 to |attempts|
      invariant BothSound(disk) && OutcomeOf(disk.home, disk.subs) == old(OutcomeOf(disk.home, disk.subs))
      invariant disk.nextId >= old(disk.nextId) && RecordsOf(disk.subs) == old(RecordsOf(disk.subs))
    {
      disk.Reboot(attempts[k]);
      var _, _ := StartUp(disk);
    }
    disk.Reboot(Calm);
    var r, s := StartUp(disk);
    registry, subs := r, s;
  }

  /** An activation is rejected, complete, or committed with its marker still to remove. */
  datatype ActivationResult = Rejected | Activated | CleanupPending

  /** The world outside the two stores: whether the request was cancelled before, whether
      what runs could be stopped, whether the candidate could be started and, if that is to
      be undone, whether the candidate could be stopped and what ran before came back. */
  datatype Runtime = Runtime(cancelled: bool, stops: bool, applies: bool, undoes: bool, comesBack: bool)

  /** The plan is committed, unfinished, and under a commit ID of its own. */
  ghost predicate Staying(p: Plan)
    reads p, p.registry, p.registry.disk
  {
    && p.registry.Valid() && p.Unfinished() && p.Waiting()
    && p.commitId != Committed(p.registry.disk.home).manifest.commitId
  }

  ghost predicate Below(id: Option<nat>, next: nat) {
    id.Some? ==> id.value < next
  }

  /** Every commit ID on disk was issued before. */
  ghost predicate Issued(disk: Disk)
    reads disk
    requires Sound(disk.home)
  {
    && Below(Committed(disk.home).manifest.commitId, disk.nextId)
    && (disk.home.journal.Some? ==> Below(disk.home.journal.value.candidate.commitId, disk.nextId))
  }

  /** A journal offers these resources, or those it offered before. */
  twostate predicate OffersOnly(disk: Disk, resources: map<Id, ResourceState>)
    reads disk
  {
    disk.home.journal.Some? ==>
      || disk.home.journal.value.candidate.resources == resources
      || (old(disk.home.journal).Some? && disk.home.journal.value.candidate.resources == old(disk.home.journal).value.candidate.resources)
  }

  /** Everything is as before: no journal, and the manifest and files that a start-up would
      have exposed all along. */
  twostate predicate PutBack(disk: Disk)
    reads disk
  {
    && old(Sound(disk.home)) && disk.home.journal == None
    && Loaded(disk.home) == old(Committed(disk.home)).manifest && disk.home.files == old(Committed(disk.home)).files
  }

  lemma KeptIsPutBack(before: Image, after: Image)
    requires Sound(before) && Sound(after) && Committed(after) == Committed(before) && after.journal == None
    ensures Loaded(after) == Committed(before).manifest && after.files == Committed(before).files
  {
    hide Sound, Committed;
    Exposed(after);
    Shown(after);
  }

  /** Applies the profile together with the plan: promote, then start the candidate; if
      it does not start, promote back. Nothing that a start-up exposes changes. */
  method ApplyPlan(p: Plan, runtime: Runtime) returns (ok: bool)
    requires p.registry.Valid() && p.Staged() && (p.finalized ==> p.committed) && !p.registry.disk.halted
    requires Issued(p.registry.disk)
    modifies p, p.registry`active, p.registry.disk`home, p.registry.disk`halted, p.registry.disk`errors, p.registry.disk`nextId
    ensures p.registry.Valid() && Keeps(p.registry.disk) && Lives(p.registry.disk, ok) && Issued(p.registry.disk)
    ensures ok ==> Staying(p) && p.registry.active == p.Candidate() && p.commitId.value >= old(p.registry.disk.nextId)
    ensures OffersOnly(p.registry.disk, p.resources)
    ensures ok ==> runtime.stops && runtime.applies && old(p.validated)
    ensures !ok && old(Certain(p)) && runtime.stops && runtime.applies ==> p.registry.disk.halted || p.registry.disk.errors > old(p.registry.disk.errors)
    ensures !ok && runtime.undoes && old(p.registry.disk.home.journal) == None && p.registry.disk.errors == old(p.registry.disk.errors) ==>
      p.registry.disk.halted || PutBack(p.registry.disk)
    ensures !ok && runtime.undoes && old(!p.committed || p.rolledBack) && p.registry.disk.errors == old(p.registry.disk.errors) ==> p.registry.disk.halted || p.closed
  {
    hide Sound, Committed, AcceptedSound, Cleared, Plan.Staged, Plan.Committable, ValidManifest;
    ok := false;
    ghost var before := p.registry.disk.home;
    if runtime.stops {
      ok := CommitPlan(p);
    }
    if !ok {
      var _ := p.Abort();
    } else if !runtime.applies {
      p.WaitingIsMine();
      var _ := UndoPlan(p, runtime);
      ok := false;
    }
    if p.registry.disk.home.journal == None {
      KeptIsPutBack(before, p.registry.disk.home);
    }
  }

  /** Promotes the plan under a commit ID of its own. */
  method CommitPlan(p: Plan) returns (ok: bool)
    requires p.registry.Valid() && p.Staged() && (p.finalized ==> p.committed) && !p.registry.disk.halted
    requires Issued(p.registry.disk)
    modifies p, p.registry`active, p.registry.disk`home, p.registry.disk`halted, p.registry.disk`errors, p.registry.disk`nextId
    ensures p.registry.Valid() && Keeps(p.registry.disk) && Lives(p.registry.disk, ok) && Issued(p.registry.disk)
    ensures ok ==> Staying(p) && p.registry.active == p.Candidate() && p.commitId.value >= old(p.registry.disk.nextId)
    ensures ok ==> p.registry.disk.home.journal.Some? && InPromotion(p.registry.disk.home) && Undoable(p.registry.disk.home, p.registry.disk.home.journal.value)
    ensures OffersOnly(p.registry.disk, p.resources)
    ensures !ok && old(Certain(p)) ==> p.registry.disk.halted || p.registry.disk.errors > old(p.registry.disk.errors)
    ensures !ok && old(p.registry.disk.home.journal) == None && p.registry.disk.errors == old(p.registry.disk.errors) ==> p.registry.disk.halted || p.registry.disk.home.journal == None
    ensures ok ==> old(p.validated)
    ensures !ok ==> p.committed == old(p.committed) && p.rolledBack == old(p.rolledBack) && p.finalized == old(p.finalized)
  {
    hide Sound, Committed, AcceptedSound, Cleared, Plan.Staged, Plan.Committable, ValidManifest, Undoable;
    ghost var before := p.registry.disk.home;
    Exposed(before);
    ok := p.Commit();
    Exposed(p.registry.disk.home);
  }

  /** Stops the candidate and promotes back. If the candidate cannot be stopped the journal
      stays, for the next start-up to undo. An open promotion is undone without ever
      changing what a start-up exposes; an accepted one is not (AcceptedUndo). */
  method UndoPlan(p: Plan, runtime: Runtime) returns (ok: bool)
    requires p.registry.Valid() && (p.registry.disk.home.journal.Some? ==> Undoable(p.registry.disk.home, p.registry.disk.home.journal.value))
    modifies p, p.registry`active, p.registry.disk`home, p.registry.disk`halted, p.registry.disk`errors
    ensures Lives(p.registry.disk, ok) && Named(p.registry.disk)
    ensures old(p.registry.disk.home.journal.Some? ==> InPromotion(p.registry.disk.home)) ==> p.registry.Valid() && Keeps(p.registry.disk)
    ensures p.commitId == old(p.commitId) && p.dir == old(p.dir)
    ensures p.registry.disk.home.journal == None || p.registry.disk.home.journal == old(p.registry.disk.home.journal)
    ensures p.registry.disk.home.journal == None ==> Sound(p.registry.disk.home)
    ensures p.registry.disk.home.journal == None && old(p.registry.disk.home.journal.Some?) ==>
      && p.registry.disk.home.manifest == Some(old(p.registry.disk.home.journal.value.previous))
      && p.registry.disk.home.files ==
         old(Restored(p.registry.disk.home.files, Undo(p.registry.disk.home.journal.value.files, p.registry.disk.home.txns[p.registry.disk.home.journal.value.dir])))
    ensures ok && p.dir.Some? ==> p.registry.disk.home.journal == None
    ensures ok ==> runtime.undoes && runtime.comesBack
    ensures runtime.undoes && old(p.Mine() && p.Unfinished() && !p.registry.disk.halted) ==>
      p.registry.disk.halted || p.registry.disk.errors > old(p.registry.disk.errors) || (p.registry.disk.home.journal == None && ok == runtime.comesBack && p.closed)
  {
    hide Sound, Committed, Undoable;
    if !runtime.undoes || p.registry.disk.halted {
      return false;
    }
    ok := p.Rollback();
    if ok {
      var _ := p.Abort();
      ok := !p.registry.disk.halted && runtime.comesBack;
    }
  }

  /** The outcome once the plan is accepted: its manifest over the files as they are, and
      the new subscription. */
  ghost function NewOutcome(home: Image, applied: Applied): Outcome {
    Outcome(ViewOf(Loaded(home), home.files, home), Some(applied))
  }

  /** After an accepted plan was undone in spite of its acceptance: if start-up opens the home
      at all, the resources and the subscription are both the old ones or both the new. */
  ghost predicate Unmixed(home: Image, subs: Store, before: Outcome, candidate: Manifest, applied: Applied) {
    Sound(home) ==>
      var o := OutcomeOf(home, subs);
      || (o.resources.manifest == before.resources.manifest && o.active == before.active)
      || (o.resources.manifest == candidate && o.active == Some(applied))
  }

  /** An activation is accepted, and its marker still stands, marked or not. */
  ghost predicate Unmarked(disk: Disk, previous: Option<Applied>, commitId: Option<nat>)
    reads disk
  {
    && Sound(disk.home) && Committed(disk.home).manifest.commitId == commitId
    && disk.subs.pending.Some? && disk.subs.pending.value.previous == previous && Some(disk.subs.pending.value.commitId) == commitId
  }

  /** The durable part of an activation with a plan: marker, active.json, acceptance,
      marker again. Whatever happens, the disk stands for the old outcome or the new
      one, and only the accepted journal write leads from one to the other. Without
      faults the activation completes or the process dies. An error past the acceptance is
      answered by an undo (`revoked`), after which start-up may refuse the home but never
      mixes old and new. */
  method CommitBoth(subs: Service, p: Plan, applied: Applied, runtime: Runtime) returns (r: ActivationResult, ghost accepted: bool, ghost revoked: bool)
    requires p.registry.disk == subs.disk && Staying(p) && !subs.disk.halted
    requires BothSound(subs.disk) && subs.Valid() && subs.disk.subs.pending == None
    requires AppliedStored(subs.disk.subs.dirs, Some(applied))
    modifies subs`active, p, p.registry`active, subs.disk`home, subs.disk`subs, subs.disk`halted, subs.disk`errors
    ensures Counting(subs.disk)
    ensures subs.disk.subs.dirs == old(subs.disk.subs.dirs)
    ensures subs.Valid() && subs.disk.weather == old(subs.disk.weather) && OffersOnly(subs.disk, p.resources)
    ensures subs.disk.weather == Calm ==> !subs.disk.halted
    ensures !revoked ==> BothSound(subs.disk) && (old(Issued(subs.disk)) ==> Issued(subs.disk))
    ensures p.commitId == old(p.commitId)
    ensures !revoked ==> OutcomeOf(subs.disk.home, subs.disk.subs) == if accepted then old(NewOutcome(subs.disk.home, applied)) else old(OutcomeOf(subs.disk.home, subs.disk.subs))
    ensures revoked ==> r == Rejected && subs.disk.weather == Faults && Unmixed(subs.disk.home, subs.disk.subs, old(OutcomeOf(subs.disk.home, subs.disk.subs)), p.Candidate(), applied)
    ensures r == Activated ==> accepted && !subs.disk.halted && subs.disk.subs.pending == None && subs.disk.home.journal == None
    ensures r == CleanupPending ==> accepted
    ensures r == CleanupPending && !subs.disk.halted ==> Unmarked(subs.disk, old(subs.disk.subs.active), p.commitId)
    ensures r != Activated ==> subs.disk.halted || subs.disk.errors > old(subs.disk.errors)
    ensures r == Rejected && runtime.undoes && runtime.comesBack && subs.disk.errors <= old(subs.disk.errors) + 1 ==>
      subs.disk.halted || (PutBack(subs.disk) && subs.disk.subs == old(subs.disk.subs))
  {
    hide Sound, Committed, StoreSound, Intact, InStep, AcceptedSound, Cleared, PairStored, Undoable;
    r, accepted, revoked := Rejected, false, false;
    var previous := subs.active;
    Exposed(subs.disk.home);
    InStepActive(subs.records, subs.active, subs.disk.subs);
    var done := MarkAndApply(subs, p, applied, runtime);
    if !done {
      return;
    }
    done, accepted, revoked := FinalizeBoth(subs, p, previous, runtime);
    if !done {
      return;
    }
    done := subs.MarkAccepted();
    if done {
      done := subs.ClearPending();
    }
    r := if done then Activated else CleanupPending;
  }

  /** The marker and active.json before the acceptance; undone if either fails. */
  method MarkAndApply(subs: Service, p: Plan, applied: Applied, runtime: Runtime) returns (done: bool)
    requires p.registry.disk == subs.disk && Staying(p) && !subs.disk.halted
    requires BothSound(subs.disk) && subs.Valid() && subs.disk.subs.pending == None
    requires AppliedStored(subs.disk.subs.dirs, Some(applied))
    modifies subs`active, p, p.registry`active, subs.disk`home, subs.disk`subs, subs.disk`halted, subs.disk`errors
    ensures Counting(subs.disk) && subs.Valid() && subs.disk.weather == old(subs.disk.weather)
    ensures subs.disk.weather == Calm ==> !subs.disk.halted
    ensures subs.disk.subs.dirs == old(subs.disk.subs.dirs) && p.commitId == old(p.commitId)
    ensures BothSound(subs.disk) && OutcomeOf(subs.disk.home, subs.disk.subs) == old(OutcomeOf(subs.disk.home, subs.disk.subs))
    ensures subs.disk.home.journal == None || subs.disk.home.journal == old(subs.disk.home.journal)
    ensures done ==> !subs.disk.halted && subs.disk.home == old(subs.disk.home) && Staying(p)
    ensures done ==> subs.disk.subs == old(subs.disk.subs).(active := Some(applied), pending := Some(Pending(old(subs.disk.subs.active), p.commitId.value, false)))
    ensures !done ==> subs.disk.halted || subs.disk.errors > old(subs.disk.errors)
    ensures !done && runtime.undoes && runtime.comesBack && subs.disk.errors <= old(subs.disk.errors) + 1 ==>
      subs.disk.halted || (PutBack(subs.disk) && subs.disk.subs == old(subs.disk.subs))
  {
    hide Sound, Committed, StoreSound, Intact, InStep, AcceptedSound, Cleared, PairStored, Undoable, Target;
    var disk := subs.disk;
    var previous := subs.active;
    ghost var before := disk.home;
    InStepActive(subs.records, subs.active, disk.subs);
    ActiveOf(disk.subs);
    Exposed(before);
    p.WaitingIsMine();
    done := subs.MarkPending(previous, p.commitId.value);
    if !done {
      var _ := UndoPlan(p, runtime);
    } else {
      done := subs.SetApplied(applied.id, applied.pair);
      if !done && !disk.halted {
        UndoMarked(subs, p, runtime);
      }
    }
    if disk.home.journal == None {
      KeptIsPutBack(before, disk.home);
    }
  }

  /** active.json was not written: the plan is undone and then its marker goes. */
  method UndoMarked(subs: Service, p: Plan, runtime: Runtime)
    requires p.registry.disk == subs.disk && p.registry.Valid() && BothSound(subs.disk) && subs.Valid() && !subs.disk.halted
    requires InPromotion(subs.disk.home) && Undoable(subs.disk.home, subs.disk.home.journal.value) && p.Mine() && p.Unfinished()
    requires p.commitId.Some? && p.commitId != Committed(subs.disk.home).manifest.commitId
    requires subs.disk.subs.pending == Some(Pending(subs.disk.subs.active, p.commitId.value, false))
    modifies p, p.registry`active, subs.disk`home, subs.disk`subs, subs.disk`halted, subs.disk`errors
    ensures Counting(subs.disk) && BothSound(subs.disk) && subs.Valid() && subs.disk.weather == old(subs.disk.weather)
    ensures subs.disk.weather == Calm ==> !subs.disk.halted
    ensures p.commitId == old(p.commitId) && (subs.disk.home.journal == None || subs.disk.home.journal == old(subs.disk.home.journal))
    ensures subs.disk.subs == old(subs.disk.subs) || (subs.disk.subs == old(subs.disk.subs).(pending := None) && subs.disk.home.journal == None)
    ensures Committed(subs.disk.home) == old(Committed(subs.disk.home))
    ensures runtime.undoes && runtime.comesBack && subs.disk.errors == old(subs.disk.errors) ==>
      subs.disk.halted || (subs.disk.home.journal == None && subs.disk.subs == old(subs.disk.subs).(pending := None))
  {
    hide Sound, Committed, StoreSound, Intact, InStep, PairStored, Undoable, Target;
    var undone := UndoPlan(p, runtime);
    if undone {
      var _ := subs.ClearPending();
    }
  }

  /** Finalizes the plan behind an unaccepted marker; undoes everything if that fails. */
  method FinalizeBoth(subs: Service, p: Plan, previous: Option<Applied>, runtime: Runtime) returns (done: bool, ghost accepted: bool, ghost revoked: bool)
    requires p.registry.disk == subs.disk && Staying(p) && !subs.disk.halted
    requires BothSound(subs.disk) && subs.Valid()
    requires subs.disk.subs.pending == Some(Pending(previous, p.commitId.value, false)) && subs.disk.subs.active.Some?
    modifies subs`active, p, p.registry`active, subs.disk`home, subs.disk`subs, subs.disk`halted, subs.disk`errors
    ensures Counting(subs.disk)
    ensures subs.disk.subs.dirs == old(subs.disk.subs.dirs)
    ensures subs.Valid() && subs.disk.weather == old(subs.disk.weather) && OffersOnly(subs.disk, p.resources)
    ensures subs.disk.weather == Calm ==> !subs.disk.halted
    ensures !revoked ==> BothSound(subs.disk) && (old(Issued(subs.disk)) ==> Issued(subs.disk))
    ensures p.commitId == old(p.commitId)
    ensures !revoked ==>
      (OutcomeOf(subs.disk.home, subs.disk.subs) == if accepted then old(NewOutcome(subs.disk.home, subs.disk.subs.active.value)) else old(OutcomeOf(subs.disk.home, subs.disk.subs)))
    ensures revoked ==> !done && subs.disk.weather == Faults
    ensures revoked ==> Unmixed(subs.disk.home, subs.disk.subs, old(OutcomeOf(subs.disk.home, subs.disk.subs)), p.Candidate(), old(subs.disk.subs.active.value))
    ensures done ==> accepted && !subs.disk.halted && subs.disk.subs == old(subs.disk.subs) && subs.disk.home.journal == None
    ensures !done ==> subs.disk.halted || subs.disk.errors > old(subs.disk.errors)
    ensures !done && runtime.undoes && runtime.comesBack && subs.disk.errors <= old(subs.disk.errors) + 1 ==>
      subs.disk.halted || (PutBack(subs.disk) && subs.disk.subs == old(subs.disk.subs).(active := previous, pending := None))
  {
    hide Sound, Committed, StoreSound, Intact, InStep, AcceptedSound, Cleared, PairStored, Undoable;
    var disk := subs.disk;
    var journal := disk.home.journal;
    ghost var before := disk.home;
    p.WaitingIsMine();
    Exposed(before);
    Shown(before);
    done := p.Finalize();
    Exposed(disk.home);
    accepted, revoked := disk.home.journal != journal, false;
    if done || disk.halted {
      return;
    }
    if disk.home.journal == journal {
      UndoOpen(subs, p, previous, runtime);
    } else {
      revoked := true;
      StillUndoable(before, disk.home);
      Revoke(subs, p, previous, runtime);
    }
  }

  /** The undo after an error before the acceptance: both stores go back behind the marker. */
  method UndoOpen(subs: Service, p: Plan, previous: Option<Applied>, runtime: Runtime)
    requires p.registry.disk == subs.disk && p.registry.Valid() && BothSound(subs.disk) && subs.Valid() && !subs.disk.halted
    requires InPromotion(subs.disk.home) && Undoable(subs.disk.home, subs.disk.home.journal.value) && p.Mine() && p.Unfinished()
    requires p.commitId.Some? && p.commitId != Committed(subs.disk.home).manifest.commitId
    requires subs.disk.subs.pending == Some(Pending(previous, p.commitId.value, false))
    modifies subs`active, p, p.registry`active, subs.disk`home, subs.disk`subs, subs.disk`halted, subs.disk`errors
    ensures Counting(subs.disk) && BothSound(subs.disk) && subs.Valid() && subs.disk.weather == old(subs.disk.weather)
    ensures subs.disk.subs.dirs == old(subs.disk.subs.dirs) && p.commitId == old(p.commitId)
    ensures subs.disk.home.journal == None || subs.disk.home.journal == old(subs.disk.home.journal)
    ensures OutcomeOf(subs.disk.home, subs.disk.subs) == old(OutcomeOf(subs.disk.home, subs.disk.subs))
    ensures runtime.undoes && runtime.comesBack && subs.disk.errors == old(subs.disk.errors) ==>
      subs.disk.halted || (PutBack(subs.disk) && subs.disk.subs == old(subs.disk.subs).(active := previous, pending := None))
  {
    hide Sound, Committed, StoreSound, Intact, InStep, PairStored, Undoable, Target;
    ghost var before := subs.disk.home;
    var undone := UndoPlan(p, runtime);
    if subs.disk.home.journal == None {
      KeptIsPutBack(before, subs.disk.home);
    }
    UndoStore(subs, previous, undone);
  }

  /** The undo after an error past the acceptance. */
  method Revoke(subs: Service, p: Plan, previous: Option<Applied>, runtime: Runtime)
    requires p.registry.disk == subs.disk && p.registry.Valid() && subs.Valid() && subs.disk.weather == Faults && p.commitId.Some? && p.dir.Some?
    requires var journal := subs.disk.home.journal; journal.Some? && journal.value.phase == Accepted && DistinctEntries(journal.value.files) && Undoable(subs.disk.home, journal.value)
    requires subs.disk.home.journal.value.candidate == p.Candidate() && subs.disk.home.journal.value.previous.commitId != p.commitId
    requires subs.disk.subs.pending == Some(Pending(previous, p.commitId.value, false)) && subs.disk.subs.active.Some?
    modifies subs`active, p, p.registry`active, subs.disk`home, subs.disk`subs, subs.disk`halted, subs.disk`errors
    ensures Counting(subs.disk)
    ensures subs.disk.subs.dirs == old(subs.disk.subs.dirs) && subs.Valid() && subs.disk.weather == Faults && p.commitId == old(p.commitId)
    ensures subs.disk.home.journal == None || subs.disk.home.journal == old(subs.disk.home.journal)
    ensures Sound(subs.disk.home) ==>
      var o := OutcomeOf(subs.disk.home, subs.disk.subs);
      || (o.resources.manifest == old(subs.disk.home).journal.value.previous && o.active == previous)
      || (o.resources.manifest == p.Candidate() && o.active == old(subs.disk.subs).active)
    ensures runtime.undoes && runtime.comesBack && old(StoreSound(subs.disk.subs) && p.Mine() && p.Unfinished() && !subs.disk.halted) && subs.disk.errors == old(subs.disk.errors) ==>
      || subs.disk.halted
      || (subs.disk.home.journal == None && subs.disk.home.manifest == Some(old(subs.disk.home).journal.value.previous)
          && subs.disk.home.files == old(Restored(subs.disk.home.files, Undo(subs.disk.home.journal.value.files, subs.disk.home.txns[subs.disk.home.journal.value.dir])))
          && subs.disk.subs == old(subs.disk.subs).(active := previous, pending := None))
  {
    hide Sound, Committed, StoreSound, Intact, InStep, AcceptedSound, Cleared, PairStored, Undoable;
    var disk := subs.disk;
    var undone := UndoPlan(p, runtime);
    UndoStore(subs, previous, undone);
    if Sound(disk.home) {
      Exposed(disk.home);
    }
  }

  lemma StillUndoable(before: Image, after: Image)
    requires Sound(before) && InPromotion(before)
    requires after == before.(journal := Marked(before.journal), txns := after.txns, stages := after.stages) && after.txns == before.txns
    ensures DistinctEntries(after.journal.value.files) && Undoable(after, after.journal.value)
  {
  }

  lemma FallbackStored(st: Store)
    ensures StoreSound(st) && st.pending.Some? && !st.pending.value.accepted ==> AppliedStored(st.dirs, st.pending.value.previous)
  {
  }

  /** The store's part of the undo: back to the earlier pair, then the marker goes. */
  method UndoStore(subs: Service, previous: Option<Applied>, undone: bool)
    requires subs.Valid() && subs.disk.subs.pending.Some? && subs.disk.subs.pending.value.previous == previous
    modifies subs`active, subs.disk`subs, subs.disk`halted, subs.disk`errors
    ensures Counting(subs.disk)
    ensures subs.Valid() && subs.disk.weather == old(subs.disk.weather) && (old(subs.disk.halted) ==> subs.disk.halted)
    ensures !undone ==> subs.disk.subs == old(subs.disk.subs)
    ensures subs.disk.subs == old(subs.disk.subs) || subs.disk.subs == old(subs.disk.subs).(active := previous) || subs.disk.subs == old(subs.disk.subs).(active := previous, pending := None)
    ensures old(StoreSound(subs.disk.subs)) ==> StoreSound(subs.disk.subs)
    ensures undone && old(StoreSound(subs.disk.subs)) && !old(subs.disk.subs.pending.value.accepted) && !old(subs.disk.halted) ==>
      subs.disk.halted || subs.disk.errors > old(subs.disk.errors) || subs.disk.subs == old(subs.disk.subs).(active := previous, pending := None)
  {
    FallbackStored(subs.disk.subs);
    hide StoreSound, Intact, InStep, PairStored;
    if !undone {
      return;
    }
    var restored := subs.RestoreApplied(previous);
    if restored {
      var _ := subs.ClearPending();
    }
  }

  /** The new outcome of an activation: the subscription's current pair is applied, and
      the resources are the plan's, or unchanged without a plan. */
  ghost predicate IsNew(o: Outcome, before: Outcome, candidate: Option<Manifest>, applied: Applied) {
    && o.active == Some(applied)
    && (if candidate.Some? then o.resources.manifest == candidate.value else o.resources == before.resources)
  }

  /** A live service over both stores. */
  ghost predicate Serving(disk: Disk, registry: Registry, subs: Service)
    reads disk, registry, subs
  {
    && registry.disk == disk && subs.disk == disk && registry.maxBytes > 0
    && BothSound(disk) && Issued(disk) && subs.Valid()
    && (!disk.halted && disk.subs.pending.Some? ==> disk.subs.pending.value.accepted)
  }

  /** Reads the pair that is to be applied and the one that is. */
  method ReadSnapshots(subs: Service, id: SubId) returns (applied: Option<Applied>)
    requires subs.Valid() && !subs.disk.halted
    modifies subs.disk`halted, subs.disk`errors
    ensures Counting(subs.disk)
    ensures applied.Some? ==> applied.value.id == id && id in subs.records && subs.records[id].current == Some(applied.value.pair)
    ensures applied.Some? ==> AppliedStored(subs.disk.subs.dirs, applied) && !subs.disk.halted
    ensures subs.disk.weather == Calm ==> !subs.disk.halted
    ensures applied == None && id in subs.records && subs.records[id].current.Some? ==> subs.disk.halted || subs.disk.errors > old(subs.disk.errors)
  {
    hide StoreSound, Intact, InStep, PairStored;
    MemoryStored(subs.records, subs.active, subs.disk.subs, id);
    if id !in subs.records || subs.records[id].current == None {
      return None;
    }
    var pair := subs.records[id].current.value;
    var profile := subs.disk.ReadPair(id, pair);
    if profile == None {
      return None;
    }
    if subs.active.Some? {
      var previous := subs.disk.ReadPair(subs.active.value.id, subs.active.value.pair);
      if previous == None {
        return None;
      }
    }
    applied := Some(Applied(id, pair));
  }

  /** No directory holds a file that nobody needs, unless a step failed. */
  twostate predicate Tidied(subs: Service)
    reads subs, subs.disk
  {
    subs.disk.halted || subs.disk.errors > old(subs.disk.errors) || forall id :: id in subs.records ==> subs.Tidy(id)
  }

  /** Activation without a resource plan: the write of active.json is the commit. */
  method ActivateAlone(subs: Service, applied: Applied) returns (r: ActivationResult)
    requires BothSound(subs.disk) && subs.Valid() && !subs.disk.halted && subs.disk.subs.pending == None
    requires AppliedStored(subs.disk.subs.dirs, Some(applied))
    modifies subs`active, subs.disk`subs, subs.disk`halted, subs.disk`errors
    ensures Counting(subs.disk)
    ensures RecordsOf(subs.disk.subs) == old(RecordsOf(subs.disk.subs))
    ensures BothSound(subs.disk) && subs.Valid() && subs.disk.subs.pending == None && subs.disk.weather == old(subs.disk.weather)
    ensures subs.disk.weather == Calm ==> !subs.disk.halted
    ensures r != CleanupPending && (r == Rejected ==> subs.disk.halted || subs.disk.errors > old(subs.disk.errors))
    ensures subs.disk.subs.active == if r == Activated then Some(applied) else old(subs.disk.subs.active)
    ensures r == Activated ==> IsNew(OutcomeOf(subs.disk.home, subs.disk.subs), old(OutcomeOf(subs.disk.home, subs.disk.subs)), None, applied)
    ensures r != Activated ==> OutcomeOf(subs.disk.home, subs.disk.subs) == old(OutcomeOf(subs.disk.home, subs.disk.subs))
    ensures old(subs.active) == Some(applied) ==> r == Activated && subs.disk.subs == old(subs.disk.subs)
    ensures r == Activated && old(subs.active) != Some(applied) ==> Tidied(subs)
  {
    hide Sound, Committed, StoreSound, Intact, InStep, PairStored;
    if subs.active == Some(applied) {
      InStepActive(subs.records, subs.active, subs.disk.subs);
      return Activated;
    }
    var ok := subs.SetApplied(applied.id, applied.pair);
    if !ok {
      return Rejected;
    }
    subs.CleanupApplied();
    UnmarkedIsSound(subs.disk.subs);
    r := Activated;
  }

  /** Finalizes the plan alone, for what is already applied or for resources on their own. */
  method FinalizeAlone(disk: Disk, p: Plan, runtime: Runtime) returns (ok: bool, ghost revoked: bool)
    requires p.registry.disk == disk && Staying(p) && !disk.halted && BothSound(disk)
    modifies p, p.registry`active, disk`home, disk`halted, disk`errors
    ensures Counting(disk)
    ensures disk.weather == old(disk.weather) && p.commitId == old(p.commitId) && OffersOnly(disk, p.resources)
    ensures !revoked ==> BothSound(disk) && (old(Issued(disk)) ==> Issued(disk))
    ensures !revoked ==> Committed(disk.home) == old(Committed(disk.home)) || Committed(disk.home).manifest == p.Candidate()
    ensures revoked ==> !ok && disk.weather == Faults
    ensures revoked && Sound(disk.home) ==> (Committed(disk.home).manifest == old(Committed(disk.home)).manifest || Committed(disk.home).manifest == p.Candidate())
    ensures ok ==> !disk.halted && Committed(disk.home).manifest == p.Candidate()
    ensures !ok ==> disk.halted || disk.errors > old(disk.errors)
    ensures !ok && runtime.undoes && disk.errors <= old(disk.errors) + 1 ==> disk.halted || PutBack(disk)
    ensures disk.weather == Calm ==> !disk.halted
  {
    hide Sound, Committed, StoreSound, Intact, AcceptedSound, Cleared, Undoable;
    p.WaitingIsMine();
    Shown(disk.home);
    var journal := disk.home.journal;
    ghost var before := disk.home;
    Exposed(before);
    ok := p.Finalize();
    Exposed(disk.home);
    revoked := false;
    if ok || disk.halted {
      return;
    }
    if disk.home.journal != journal {
      revoked := true;
      StillUndoable(before, disk.home);
    }
    var _ := UndoPlan(p, runtime);
    if Sound(disk.home) {
      Exposed(disk.home);
    }
  }

  /** Commits resources without an activation: at once if nothing has to be restarted for
      them, otherwise around a restart. The active subscription stays, unless an activation
      that could not be marked accepted is still tied to one of the two commits. */
  method CommitResources(disk: Disk, p: Plan, runtime: Option<Runtime>) returns (ok: bool, ghost revoked: bool)
    requires p.registry.disk == disk && p.registry.Valid() && p.Staged() && (p.finalized ==> p.committed) && !disk.halted
    requires BothSound(disk) && Issued(disk)
    modifies p, p.registry`active, disk`home, disk`halted, disk`errors, disk`nextId
    ensures Counting(disk)
    ensures disk.weather == old(disk.weather) && OffersOnly(disk, p.resources)
    ensures revoked ==> !ok && disk.weather == Faults
    ensures revoked && Sound(disk.home) ==> (Committed(disk.home).manifest == old(Committed(disk.home)).manifest || Committed(disk.home).manifest == p.Candidate())
    ensures !revoked ==> BothSound(disk) && Issued(disk) && disk.nextId >= old(disk.nextId)
    ensures !revoked ==> Committed(disk.home) == old(Committed(disk.home)) || Committed(disk.home).manifest == p.Candidate()
    ensures ok ==> !revoked && !disk.halted && Committed(disk.home).manifest == p.Candidate() && p.commitId.Some? && p.commitId.value >= old(disk.nextId)
    ensures !revoked ==>
      (OutcomeOf(disk.home, disk.subs).active != old(OutcomeOf(disk.home, disk.subs)).active <==>
       Moves(disk.subs, old(Committed(disk.home)).manifest.commitId, Committed(disk.home).manifest.commitId))
    ensures ok && runtime.Some? ==> runtime.value.stops && runtime.value.applies
    ensures !ok && old(Certain(p)) && (runtime.Some? ==> runtime.value.stops && runtime.value.applies) ==> disk.halted || disk.errors > old(disk.errors)
    ensures (runtime.Some? && !runtime.value.applies) || !old(p.validated) ==> !revoked && Committed(disk.home) == old(Committed(disk.home))
    ensures !ok && (runtime.Some? ==> runtime.value.undoes) && old(disk.home.journal) == None && disk.errors == old(disk.errors) ==> disk.halted || PutBack(disk)
    ensures disk.weather == Calm ==> !disk.halted
  {
    hide Sound, Committed, StoreSound, Intact, AcceptedSound, Cleared, Plan.Staged, Plan.Committable, ValidManifest, Undoable;
    ghost var before := Committed(disk.home).manifest.commitId;
    revoked := false;
    if runtime.Some? {
      ok := ApplyPlan(p, runtime.value);
      if ok {
        ok, revoked := FinalizeAlone(disk, p, runtime.value);
      }
    } else {
      ok := CommitAtOnce(disk, p);
    }
    if !revoked {
      CommitMovesActive(disk.subs, before, Committed(disk.home).manifest.commitId);
    }
  }

  /** An accepted activation whose marker could not be marked (CommitBoth leaves it so), and
      then, in calm weather, a commit of resources on their own: the next start-up takes the
      activation back and leaves the earlier subscription beside the newest resources. */
  method MixedByRefresh(disk: Disk, p: Plan, runtime: Option<Runtime>, attempts: seq<Weather>) returns (subs: Service)
    requires p.registry.disk == disk && p.registry.Valid() && p.Staged() && Certain(p) && !p.finalized && disk.weather == Calm
    requires runtime.Some? ==> runtime.value.stops && runtime.value.applies
    requires BothSound(disk) && Issued(disk) && disk.subs.pending.Some? && !disk.subs.pending.value.accepted
    requires Committed(disk.home).manifest.commitId == Some(disk.subs.pending.value.commitId)
    modifies p, p.registry`active, disk
    ensures old(OutcomeOf(disk.home, disk.subs)).active == old(disk.subs.active)
    ensures Sound(disk.home) && Committed(disk.home).manifest == p.Candidate() && subs.active == old(disk.subs.pending.value.previous)
  {
    hide Sound, Committed, StoreSound, Intact, Plan.Staged, Plan.Committable, ValidManifest, RecordsOf;
    var _, _ := CommitResources(disk, p, runtime);
    var _, s := StartAfterCrashes(disk, attempts);
    subs := s;
  }

  method CommitAtOnce(disk: Disk, p: Plan) returns (ok: bool)
    requires p.registry.disk == disk && p.registry.Valid() && p.Staged() && (p.finalized ==> p.committed) && !disk.halted
    requires BothSound(disk) && Issued(disk)
    modifies p, p.registry`active, disk`home, disk`halted, disk`errors, disk`nextId
    ensures Counting(disk)
    ensures disk.weather == old(disk.weather) && OffersOnly(disk, p.resources) && disk.nextId >= old(disk.nextId)
    ensures BothSound(disk) && Issued(disk)
    ensures Committed(disk.home) == old(Committed(disk.home)) || Committed(disk.home).manifest == p.Candidate()
    ensures ok ==> !disk.halted && Committed(disk.home).manifest == p.Candidate() && p.commitId.Some? && p.commitId.value >= old(disk.nextId)
    ensures !ok && old(Certain(p)) ==> disk.halted || disk.errors > old(disk.errors)
    ensures !ok && old(disk.home.journal) == None && disk.errors == old(disk.errors) ==> disk.halted || PutBack(disk)
    ensures disk.weather == Calm ==> !disk.halted
    ensures !old(p.validated) ==> Committed(disk.home) == old(Committed(disk.home))
    ensures !ok && old(!p.committed || p.rolledBack) && disk.errors == old(disk.errors) ==> disk.halted || p.closed
  {
    hide Promoted, Resolved, Links, Plan.Whole, Sound, Committed, StoreSound, Intact, AcceptedSound, Cleared, Plan.Staged, Plan.Committable, ValidManifest, Undoable;
    ghost var before := disk.home;
    ok := CommitPlan(p);
    if ok {
      Exposed(disk.home);
      ok := p.Finalize();
      Exposed(disk.home);
    } else {
      var _ := p.Abort();
      if disk.home.journal == None {
        KeptIsPutBack(before, disk.home);
      }
    }
  }

  /** Activation with a resource plan. */
  method ActivateWith(subs: Service, p: Plan, applied: Applied, runtime: Runtime) returns (r: ActivationResult, ghost revoked: bool)
    requires p.registry.disk == subs.disk && p.registry.Valid() && p.Staged() && (p.finalized ==> p.committed)
    requires BothSound(subs.disk) && Issued(subs.disk) && subs.Valid() && !subs.disk.halted && subs.disk.subs.pending == None
    requires AppliedStored(subs.disk.subs.dirs, Some(applied))
    modifies subs`active, p, p.registry`active, subs.disk
    ensures Counting(subs.disk)
    ensures RecordsOf(subs.disk.subs) == old(RecordsOf(subs.disk.subs)) && OffersOnly(subs.disk, p.resources)
    ensures subs.Valid() && subs.disk.weather == old(subs.disk.weather)
    ensures subs.disk.weather == Calm ==> !subs.disk.halted
    ensures !revoked ==> BothSound(subs.disk) && Issued(subs.disk)
    ensures !revoked ==>
      (OutcomeOf(subs.disk.home, subs.disk.subs) == old(OutcomeOf(subs.disk.home, subs.disk.subs)) ||
       IsNew(OutcomeOf(subs.disk.home, subs.disk.subs), old(OutcomeOf(subs.disk.home, subs.disk.subs)), Some(p.Candidate()), applied))
    ensures r != Rejected ==> !revoked && IsNew(OutcomeOf(subs.disk.home, subs.disk.subs), old(OutcomeOf(subs.disk.home, subs.disk.subs)), Some(p.Candidate()), applied)
    ensures revoked ==> subs.disk.weather == Faults && Unmixed(subs.disk.home, subs.disk.subs, old(OutcomeOf(subs.disk.home, subs.disk.subs)), p.Candidate(), applied)
    ensures !subs.disk.halted && subs.disk.weather != Faults ==> subs.disk.subs.pending == None
    ensures r != Rejected ==> runtime.stops && runtime.applies && old(p.validated)
    ensures !runtime.applies || !old(p.validated) ==> !revoked && OutcomeOf(subs.disk.home, subs.disk.subs) == old(OutcomeOf(subs.disk.home, subs.disk.subs))
    ensures old(Certain(p)) && runtime.stops && runtime.applies ==> r == Activated || subs.disk.halted || subs.disk.errors > old(subs.disk.errors)
    ensures r == Rejected && runtime.undoes && old(subs.disk.home.journal) == None && subs.disk.errors == old(subs.disk.errors) ==>
      subs.disk.halted || (PutBack(subs.disk) && subs.disk.subs == old(subs.disk.subs))
    ensures old(subs.active) == Some(applied) ==> subs.disk.subs == old(subs.disk.subs)
    ensures r == Activated && old(subs.active) != Some(applied) ==> Tidied(subs)
  {
    hide Sound, Committed, StoreSound, Intact, InStep, PairStored, AcceptedSound, Cleared, Plan.Staged, RecordsOf, Undoable;
    revoked := false;
    InStepActive(subs.records, subs.active, subs.disk.subs);
    var ok := ApplyPlan(p, runtime);
    if !ok {
      r := Rejected;
      return;
    }
    Exposed(subs.disk.home);
    if subs.active == Some(applied) {
      ok, revoked := FinalizeAlone(subs.disk, p, runtime);
      r := if ok then Activated else Rejected;
      return;
    }
    ghost var accepted;
    ghost var before := subs.disk.subs;
    r, accepted, revoked := CommitBoth(subs, p, applied, runtime);
    SameDirs(before, subs.disk.subs);
    if r == Activated {
      subs.CleanupApplied();
      UnmarkedIsSound(subs.disk.subs);
    }
  }

  /** Nothing but the disk or the runtime can keep an activation from succeeding: no other one
      waits, the subscription has a pair, and a plan can be committed. */
  ghost predicate Ready(subs: Service, p: Plan?, id: SubId)
    reads subs, subs.disk, if p == null then {} else {p, p.registry, p.registry.disk}
  {
    && !subs.disk.halted && (subs.disk.subs.pending.Some? ==> subs.disk.subs.pending.value.accepted)
    && id in subs.records && subs.records[id].current.Some?
    && (p != null ==> Certain(p))
  }

  /** Activates the current pair of a subscription, with or without a resource plan. At
      every crash, and after every failure, the disk stands for the old outcome or for the
      new one; after an error past the acceptance start-up may also refuse it. */
  method Activate(subs: Service, p: Plan?, id: SubId, runtime: Runtime) returns (r: ActivationResult, ghost revoked: bool)
    requires p != null ==> p.registry.disk == subs.disk && p.registry.Valid() && p.Staged() && (p.finalized ==> p.committed)
    requires BothSound(subs.disk) && Issued(subs.disk) && subs.Valid()
    modifies subs`active, subs.disk, (if p == null then {} else {p}), (if p == null then {} else {p.registry})`active
    ensures Counting(subs.disk)
    ensures RecordsOf(subs.disk.subs) == old(RecordsOf(subs.disk.subs))
    ensures subs.Valid() && subs.disk.weather == old(subs.disk.weather)
    ensures subs.disk.weather == Calm && !old(subs.disk.halted) ==> !subs.disk.halted
    ensures p != null ==> OffersOnly(subs.disk, p.resources)
    ensures p == null ==> subs.disk.home == old(subs.disk.home)
    ensures !revoked ==> BothSound(subs.disk) && Issued(subs.disk) && Switches(subs, p, id, false)
    ensures r != Rejected ==> !revoked && Switches(subs, p, id, true)
    ensures revoked ==> p != null && subs.disk.weather == Faults && Revoked(subs, p, id)
    ensures !subs.disk.halted && subs.disk.weather != Faults ==> subs.disk.subs.pending == None || subs.disk.subs.pending == old(subs.disk.subs.pending)
    ensures r != Rejected ==> runtime.applies && !runtime.cancelled && (p != null ==> runtime.stops && old(p.validated))
    ensures !runtime.applies || runtime.cancelled || (p != null && !old(p.validated)) ==> !revoked && OutcomeOf(subs.disk.home, subs.disk.subs) == old(OutcomeOf(subs.disk.home, subs.disk.subs))
    ensures old(Ready(subs, p, id)) && runtime.applies && !runtime.cancelled && (p != null ==> runtime.stops) ==>
      r == Activated || subs.disk.halted || subs.disk.errors > old(subs.disk.errors)
    ensures old(subs.disk.halted) ==> subs.disk.halted && r == Rejected && subs.disk.home == old(subs.disk.home) && subs.disk.subs == old(subs.disk.subs)
    ensures r == Activated && id in old(subs.records) && old(subs.active) != Some(Applied(id, old(subs.records[id].current.value))) ==> Tidied(subs)
  {
    hide Sound, Committed, StoreSound, Intact, InStep, PairStored, Plan.Staged, RecordsOf, Service.Tidy, Unmixed, IsNew, Plan.Committable, ValidManifest, DistinctNames;
    r, revoked := Rejected, false;
    if subs.disk.halted {
      return;
    }
    var ok := subs.RetryCleanup();
    SameDirs(old(subs.disk.subs), subs.disk.subs);
    if !ok {
      return;
    }
    var applied := ReadSnapshots(subs, id);
    if applied == None || runtime.cancelled {
      return;
    }
    if p != null {
      r, revoked := ActivateWith(subs, p, applied.value, runtime);
    } else if runtime.applies {
      r := ActivateAlone(subs, applied.value);
    }
  }

  twostate predicate Revoked(subs: Service, p: Plan, id: SubId)
    reads subs, subs.disk, p
  {
    && old(Sound(subs.disk.home)) && id in old(subs.records) && old(subs.records[id].current).Some?
    && Unmixed(subs.disk.home, subs.disk.subs, old(OutcomeOf(subs.disk.home, subs.disk.subs)), p.Candidate(), Applied(id, old(subs.records[id].current.value)))
  }

  /** From the old outcome the disk went to the new one, or, unless it must have, nowhere. */
  twostate predicate Switches(subs: Service, p: Plan?, id: SubId, must: bool)
    reads subs, subs.disk, if p == null then {} else {p}
  {
    && old(Sound(subs.disk.home)) && Sound(subs.disk.home)
    && ((!must && OutcomeOf(subs.disk.home, subs.disk.subs) == old(OutcomeOf(subs.disk.home, subs.disk.subs))) ||
        (id in old(subs.records) && old(subs.records[id].current).Some? &&
         IsNew(OutcomeOf(subs.disk.home, subs.disk.subs), old(OutcomeOf(subs.disk.home, subs.disk.subs)),
               if p == null then None else Some(p.Candidate()), Applied(id, old(subs.records[id].current.value)))))
  }
}
