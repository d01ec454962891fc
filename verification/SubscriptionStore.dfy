/** The private subscription store: records in memory, their files on disk, and the
    snapshot generations both refer to. */
module SubscriptionStore {
  import opened Common
  import opened SubscriptionImage
  import opened Storage

  /** What every operation on the store keeps: start-up could still read it, and the
      active subscription and the activation marker are as they were. */
  twostate predicate Retains(disk: Disk)
    reads disk
  {
    && old(Intact(disk.subs)) && Intact(disk.subs)
    && disk.subs.active == old(disk.subs.active) && disk.subs.pending == old(disk.subs.pending)
    && disk.weather == old(disk.weather) && Counting(disk)
    && (old(disk.halted) ==> disk.halted && disk.subs == old(disk.subs))
    && (!old(disk.halted) && disk.weather == Calm ==> !disk.halted)
  }

  /** Only the files of one directory changed, and only by losing some outside `keep`. */
  ghost predicate Trimmed(before: Store, after: Store, id: SubId, keep: set<GenFile>) {
    && id in before.dirs && id in after.dirs
    && after == before.(dirs := before.dirs[id := before.dirs[id].(files := after.dirs[id].files)])
    && after.dirs[id].files == before.dirs[id].files - (before.dirs[id].files.Keys - after.dirs[id].files.Keys)
    && (forall f :: f in keep && f in before.dirs[id].files ==> f in after.dirs[id].files)
  }

  lemma TrimmedMore(first: Store, before: Store, id: SubId, keep: set<GenFile>, f: GenFile)
    requires Trimmed(first, before, id, keep) && f !in keep && f in before.dirs[id].files
    ensures Trimmed(first, Without(before, id, {f}), id, keep)
    ensures Without(before, id, {f}).dirs[id].files.Keys == before.dirs[id].files.Keys - {f}
  {
  }

  /** Every pair of this subscription that somebody refers to is to be kept. */
  ghost predicate Covered(st: Store, id: SubId, keep: set<GenFile>) {
    && id in st.dirs && st.dirs[id].record.Some?
    && FilesOf(st.dirs[id].record.value.current) + FilesOf(AppliedPair(st.active, id)) <= keep
  }

  lemma TrimIsSound(st: Store, id: SubId, keep: set<GenFile>, f: GenFile)
    requires Intact(st) && Covered(st, id, keep) && f !in keep
    ensures Intact(Without(st, id, {f})) && Covered(Without(st, id, {f}), id, keep)
  {
    RemovalIsIntact(st, id, {f});
  }

  /** Deletes the generations of one subscription that nobody refers to any more.
      Failures are ignored, so a crash or an error only leaves more files behind. */
  method CleanupGenerations(disk: Disk, id: SubId, keep: set<GenFile>)
    requires id in disk.subs.dirs && Intact(disk.subs) && Covered(disk.subs, id, keep)
    modifies disk`subs, disk`halted, disk`errors
    ensures Retains(disk) && Trimmed(old(disk.subs), disk.subs, id, keep)
    ensures !disk.halted && disk.errors == old(disk.errors) ==> disk.subs.dirs[id].files.Keys <= keep
  {
    hide Intact, StoreSound, Covered, Trimmed;
    TrimmedNone(disk.subs, id, keep);
    var names := Enumerate(disk.subs.dirs[id].files.Keys - keep);
    assert forall i :: 0 <= i < |names| ==> names[i] in disk.subs.dirs[id].files.Keys - keep;
    for k := 0 to |names|
      invariant Retains(disk) && Trimmed(old(disk.subs), disk.subs, id, keep) && Covered(disk.subs, id, keep) && id in disk.subs.dirs
      invariant forall i :: k <= i < |names| ==> names[i] in disk.subs.dirs[id].files && names[i] !in keep
      invariant forall f :: f in disk.subs.dirs[id].files ==> f in keep || f in names
      invariant !disk.halted && disk.errors == old(disk.errors) ==> forall i :: 0 <= i < k ==> names[i] !in disk.subs.dirs[id].files
    {
      RemoveUnneeded(disk, id, keep, names[k], old(disk.subs));
    }
  }

  lemma TrimmedNone(st: Store, id: SubId, keep: set<GenFile>)
    requires id in st.dirs
    ensures Trimmed(st, st, id, keep)
  {
  }

  /** Deletes one file that nobody refers to. */
  method RemoveUnneeded(disk: Disk, id: SubId, keep: set<GenFile>, file: GenFile, ghost first: Store)
    requires Intact(disk.subs) && Covered(disk.subs, id, keep) && Trimmed(first, disk.subs, id, keep)
    requires id in disk.subs.dirs && file in disk.subs.dirs[id].files && file !in keep
    modifies disk`subs, disk`halted, disk`errors
    ensures Retains(disk) && Covered(disk.subs, id, keep) && Trimmed(first, disk.subs, id, keep) && id in disk.subs.dirs
    ensures disk.subs.dirs[id].files.Keys == old(disk.subs).dirs[id].files.Keys || disk.subs.dirs[id].files.Keys == old(disk.subs).dirs[id].files.Keys - {file}
    ensures !disk.halted && disk.errors == old(disk.errors) ==> file !in disk.subs.dirs[id].files
  {
    hide Intact, StoreSound, Covered, Trimmed;
    TrimIsSound(disk.subs, id, keep, file);
    TrimmedMore(first, disk.subs, id, keep, file);
    var _ := disk.RemoveGenFile(id, file);
  }

  /** Memory and disk name the same subscriptions, pairs and active subscription.
      Status and validators in memory may be newer. */
  ghost predicate InStep(records: map<SubId, Record>, active: Option<Applied>, st: Store) {
    && records.Keys == st.dirs.Keys && active == st.active
    && forall id :: id in records ==> st.dirs[id].record.Some? && SamePointer(records[id], st.dirs[id].record.value)
  }

  predicate SamePointer(memory: Record, stored: Record) {
    memory.current == stored.current && memory.downloadedOnly == stored.downloadedOnly
  }

  lemma InStepOf(records: map<SubId, Record>, active: Option<Applied>, st: Store, id: SubId)
    requires InStep(records, active, st)
    ensures id in records <==> id in st.dirs
    ensures id in records ==> st.dirs[id].record.Some? && SamePointer(records[id], st.dirs[id].record.value)
  {
  }

  lemma InStepFiles(records: map<SubId, Record>, active: Option<Applied>, st: Store, id: SubId, files: map<GenFile, Text>)
    requires InStep(records, active, st) && id in st.dirs
    ensures InStep(records, active, st.(dirs := st.dirs[id := st.dirs[id].(files := files)]))
  {
  }

  lemma InStepRecord(records: map<SubId, Record>, active: Option<Applied>, st: Store, id: SubId, memory: Record, stored: Record)
    requires InStep(records, active, st) && id in st.dirs && SamePointer(memory, stored)
    ensures InStep(records[id := memory], active, WithRecord(st, id, stored))
  {
  }

  class Service {
    const disk: Disk
    var records: map<SubId, Record>
    var active: Option<Applied>

    constructor (disk: Disk, records: map<SubId, Record>, active: Option<Applied>)
      ensures this.disk == disk && this.records == records && this.active == active
    {
      this.disk, this.records, this.active := disk, records, active;
    }

    ghost predicate Synced()
      reads this, disk
    {
      InStep(records, active, disk.subs)
    }

    /** What holds between operations of a live process. */
    ghost predicate Valid()
      reads this, disk
    {
      Intact(disk.subs) && (disk.halted || Synced())
    }

    function Kept(id: SubId): set<GenFile>
      reads this
      requires id in records
    {
      FilesOf(records[id].current) + FilesOf(AppliedPair(active, id))
    }

    /** Stores a new snapshot: both files first, then the record that points to them. */
    method Promote(id: SubId, profile: Text, candidate: Text, checked: nat, etag: string, lastModified: string, downloadedOnly: bool)
      returns (previous: Option<Record>)
      requires Valid() && (downloadedOnly ==> profile == candidate)
      modifies this`records, disk`subs, disk`halted, disk`errors
      ensures old(StoreSound(disk.subs)) ==> StoreSound(disk.subs)
      ensures Valid() && Retains(disk)
      ensures previous.Some? ==> !disk.halted && id in old(records) && previous.value == old(records[id])
      ensures previous.Some? ==> records == old(records)[id := Snapshot(old(records[id]), Pair(HashOf(profile), HashOf(candidate)), checked, etag, lastModified, downloadedOnly)]
      ensures previous.Some? ==> RecordStored(previous.value, disk.subs.dirs[id].files)
      ensures RecordsOf(disk.subs) == old(RecordsOf(disk.subs)) || (previous.Some? && RecordsOf(disk.subs) == old(RecordsOf(disk.subs))[id := Some(records[id])])
      ensures previous == None ==> records == old(records)
      ensures previous == None && id in old(records) ==> disk.halted || disk.errors > old(disk.errors)
    {
      hide Intact, StoreSound, PairStored, InStep, RecordsOf;
      if disk.halted || id !in records {
        return None;
      }
      InStepOf(records, active, disk.subs, id);
      RecordOf(disk.subs, id);
      var pair := Pair(HashOf(profile), HashOf(candidate));
      var record := Snapshot(records[id], pair, checked, etag, lastModified, downloadedOnly);
      ghost var before := disk.subs;
      var ok := WritePair(disk, id, profile, candidate, records[id]);
      InStepFiles(records, active, before, id, disk.subs.dirs[id].files);
      if ok {
        InStepRecord(records, active, disk.subs, id, record, record);
        RecordIsSound(disk.subs, id, record);
        RecordsPut(disk.subs, id, record);
        ok := disk.WriteRecord(id, record);
      }
      if !ok {
        return None;
      }
      previous := Some(records[id]);
      records := records[id := record];
    }

    /** Takes back a snapshot whose source has changed meanwhile: first the record, then
        the files that only the withdrawn snapshot used. If the record cannot be written,
        memory goes back alone. */
    method RollbackPromotion(id: SubId, previous: Record, pair: Pair) returns (ok: bool)
      requires Valid()
      requires id in disk.subs.dirs ==> RecordStored(previous, disk.subs.dirs[id].files)
      modifies this`records, disk`subs, disk`halted, disk`errors
      ensures Retains(disk) && (ok || disk.halted ==> Valid())
      ensures ok ==> !disk.halted && id in old(records)
      ensures records == if !old(disk.halted) && id in old(records) then old(records)[id := previous] else old(records)
      ensures RecordsOf(disk.subs) == old(RecordsOf(disk.subs)) || RecordsOf(disk.subs) == old(RecordsOf(disk.subs))[id := Some(previous)]
      ensures ok ==> records == old(records)[id := previous] && RecordStored(previous, disk.subs.dirs[id].files)
      ensures !ok && id in old(records) ==> disk.halted || disk.errors > old(disk.errors)
      ensures ok && disk.errors == old(disk.errors) ==>
        forall f :: f in FilesOf(Some(pair)) && f in disk.subs.dirs[id].files ==> f in Kept(id)
    {
      hide Intact, StoreSound, InStep, RecordStored, PairStored, RecordsOf;
      if disk.halted || id !in records {
        return false;
      }
      InStepOf(records, active, disk.subs, id);
      RecordIsSound(disk.subs, id, previous);
      RecordsPut(disk.subs, id, previous);
      InStepRecord(records, active, disk.subs, id, previous, previous);
      ok := disk.WriteRecord(id, previous);
      records := records[id := previous];
      if !ok {
        return;
      }
      var applied := AppliedPair(active, id);
      if previous.current != Some(pair) && applied != Some(pair) {
        Discard(id, CandidateFile(pair.profile, pair.candidate), previous);
      }
      if !(previous.current.Some? && previous.current.value.profile == pair.profile) && !(applied.Some? && applied.value.profile == pair.profile) {
        Discard(id, ProfileFile(pair.profile), previous);
      }
      ok := !disk.halted;
    }

    /** Removes a file that neither the record nor the applied pair needs. */
    method Discard(id: SubId, file: GenFile, record: Record)
      requires Intact(disk.subs) && Synced() && id in records && records[id] == record
      requires file !in Kept(id)
      modifies disk`subs, disk`halted, disk`errors
      ensures Retains(disk) && Intact(disk.subs) && Synced() && RecordsOf(disk.subs) == old(RecordsOf(disk.subs))
      ensures RecordStored(record, disk.subs.dirs[id].files)
      ensures disk.subs.dirs[id].files.Keys <= old(disk.subs.dirs[id].files.Keys)
      ensures disk.halted || disk.errors > old(disk.errors) || file !in disk.subs.dirs[id].files
    {
      hide Intact, StoreSound, InStep, RecordStored, PairStored, RecordsOf;
      InStepOf(records, active, disk.subs, id);
      ghost var before := disk.subs;
      var _ := disk.RemoveGenFile(id, file);
      assert active == before.active by { InStepActive(records, active, before); }
      TrimIsSound(before, id, Kept(id), file);
      InStepFiles(records, active, before, id, disk.subs.dirs[id].files);
      RecordsStay(before, id, disk.subs.dirs[id].files);
      RecordOf(disk.subs, id);
      assert RecordStored(record, disk.subs.dirs[id].files) by {
        InStepOf(records, active, disk.subs, id);
        SameStored(record, disk.subs.dirs[id].record.value, disk.subs.dirs[id].files);
      }
    }

    /** Deletes the generations of one subscription that are no longer needed. */
    method FinalizePromotion(id: SubId)
      requires Valid()
      modifies disk`subs, disk`halted, disk`errors
      ensures Valid() && Retains(disk)
      ensures id in records ==> (id in old(disk.subs).dirs && !old(disk.halted) ==> Trimmed(old(disk.subs), disk.subs, id, Kept(id)))
      ensures id !in records || old(disk.halted) ==> disk.subs == old(disk.subs)
      ensures id in records && !disk.halted && disk.errors == old(disk.errors) ==>
        id in old(disk.subs).dirs && old(disk.subs).dirs[id].record.Some? && disk.subs == Cleaned(old(disk.subs), id)
      ensures id in records && !disk.halted && disk.errors == old(disk.errors) ==> Tidy(id)
      ensures forall other :: other in records && other != id && old(Tidy(other)) ==> Tidy(other)
      ensures RecordsOf(disk.subs) == old(RecordsOf(disk.subs))
    {
      hide Intact, StoreSound, InStep, RecordsOf;
      if disk.halted || id !in records {
        return;
      }
      InStepOf(records, active, disk.subs, id);
      InStepActive(records, active, disk.subs);
      RecordOf(disk.subs, id);
      ghost var before := disk.subs;
      CleanupGenerations(disk, id, Kept(id));
      TrimmedIsCleaned(before, disk.subs, id, Kept(id));
      InStepFiles(records, active, before, id, disk.subs.dirs[id].files);
      RecordsStay(before, id, disk.subs.dirs[id].files);
    }

    /** Deletes what is no longer needed in every directory. */
    method CleanupApplied()
      requires Valid()
      modifies disk`subs, disk`halted, disk`errors
      ensures Valid() && Retains(disk) && RecordsOf(disk.subs) == old(RecordsOf(disk.subs))
      ensures !disk.halted && disk.errors == old(disk.errors) ==> forall id :: id in records ==> Tidy(id)
    {
      hide Intact, StoreSound, InStep, RecordsOf;
      if disk.halted {
        return;
      }
      var ids := Enumerate(records.Keys);
      for k := 0 to |ids|
        invariant Valid() && Retains(disk) && RecordsOf(disk.subs) == old(RecordsOf(disk.subs))
        invariant !disk.halted && disk.errors == old(disk.errors) ==> forall i :: 0 <= i < k ==> ids[i] in records && Tidy(ids[i])
      {
        assert ids[k] in records.Keys && forall i :: 0 <= i < k ==> ids[i] != ids[k];
        FinalizePromotion(ids[k]);
      }
      assert forall id :: id in records.Keys ==> id in ids;
    }

    /** The directory holds nothing that is not needed. */
    ghost predicate Tidy(id: SubId)
      requires id in records
      reads this, disk
    {
      id in disk.subs.dirs && disk.subs.dirs[id].files.Keys <= Kept(id)
    }

    // Activation: active.json and the marker beside it.

    /** Makes a stored pair the applied one; the write of active.json is the commit. */
    method SetApplied(id: SubId, pair: Pair) returns (ok: bool)
      requires Valid()
      modifies this`active, disk`subs, disk`halted, disk`errors
      ensures Valid() && Ends(ok)
      ensures disk.subs == if ok then old(disk.subs).(active := Some(Applied(id, pair))) else old(disk.subs)
      ensures ok ==> active == Some(Applied(id, pair))
      ensures !ok ==> active == old(active)
      ensures old(StoreSound(disk.subs)) ==> StoreSound(disk.subs)
      ensures !ok && !old(disk.halted) && AppliedStored(old(disk.subs).dirs, Some(Applied(id, pair))) ==> disk.halted || disk.errors > old(disk.errors)
    {
      if disk.halted || id !in records {
        return false;
      }
      var profile := disk.ReadPair(id, pair);
      if profile == None {
        return false;
      }
      ok := disk.WriteActive(Some(Applied(id, pair)));
      if ok {
        active := Some(Applied(id, pair));
      }
    }

    /** Goes back to an earlier applied pair, or to none. */
    method RestoreApplied(previous: Option<Applied>) returns (ok: bool)
      requires Valid()
      modifies this`active, disk`subs, disk`halted, disk`errors
      ensures Valid() && Ends(ok)
      ensures disk.subs == if ok then old(disk.subs).(active := previous) else old(disk.subs)
      ensures !ok ==> active == old(active)
      ensures ok ==> AppliedStored(disk.subs.dirs, previous)
      ensures old(StoreSound(disk.subs)) ==> StoreSound(disk.subs)
      ensures !ok && !old(disk.halted) && AppliedStored(old(disk.subs).dirs, previous) ==> disk.halted || disk.errors > old(disk.errors)
    {
      if previous.Some? {
        ok := SetApplied(previous.value.id, previous.value.pair);
        return;
      }
      if disk.halted {
        return false;
      }
      ok := disk.WriteActive(None);
      if ok {
        active := None;
      }
    }

    /** Ties the coming activation to a resource commit, unless another one is tied. */
    method MarkPending(previous: Option<Applied>, commitId: nat) returns (ok: bool)
      requires Valid()
      modifies disk`subs, disk`halted, disk`errors
      ensures Valid() && Ends(ok)
      ensures old(StoreSound(disk.subs)) && AppliedStored(disk.subs.dirs, previous) ==> StoreSound(disk.subs)
      ensures ok ==> old(disk.subs.pending) == None
      ensures disk.subs == if ok then old(disk.subs).(pending := Some(Pending(previous, commitId, false))) else old(disk.subs)
      ensures !ok && !old(disk.halted) && old(disk.subs.pending) == None ==> disk.halted || disk.errors > old(disk.errors)
    {
      if disk.halted || disk.subs.pending.Some? {
        return false;
      }
      ok := disk.WritePending(Some(Pending(previous, commitId, false)));
    }

    method MarkAccepted() returns (ok: bool)
      requires Valid()
      modifies disk`subs, disk`halted, disk`errors
      ensures Valid() && Ends(ok)
      ensures old(StoreSound(disk.subs)) ==> StoreSound(disk.subs)
      ensures ok ==> old(disk.subs.pending).Some?
      ensures disk.subs == if ok then old(disk.subs).(pending := Some(old(disk.subs.pending.value).(accepted := true))) else old(disk.subs)
      ensures !ok && !old(disk.halted) && old(disk.subs.pending).Some? ==> disk.halted || disk.errors > old(disk.errors)
    {
      var fate := disk.Attempt();
      if fate != Done || disk.subs.pending == None {
        return false;
      }
      ok := disk.WritePending(Some(disk.subs.pending.value.(accepted := true)));
    }

    method ClearPending() returns (ok: bool)
      requires Valid()
      modifies disk`subs, disk`halted, disk`errors
      ensures Valid() && Ends(ok)
      ensures old(StoreSound(disk.subs)) ==> StoreSound(disk.subs)
      ensures disk.subs == if ok then old(disk.subs).(pending := None) else old(disk.subs)
      ensures !ok && !old(disk.halted) ==> disk.halted || disk.errors > old(disk.errors)
    {
      if disk.halted {
        return false;
      }
      ok := disk.WritePending(None);
    }

    /** Removes the marker of an accepted activation; an unaccepted one blocks. */
    method RetryCleanup() returns (ok: bool)
      requires Valid()
      modifies disk`subs, disk`halted, disk`errors
      ensures Valid() && Ends(ok)
      ensures old(StoreSound(disk.subs)) ==> StoreSound(disk.subs)
      ensures disk.subs == if ok then old(disk.subs).(pending := None) else old(disk.subs)
      ensures ok ==> old(disk.subs.pending) == None || old(disk.subs.pending.value.accepted)
      ensures !ok && !old(disk.halted) && (old(disk.subs.pending) == None || old(disk.subs.pending.value.accepted)) ==> disk.halted || disk.errors > old(disk.errors)
    {
      var fate := disk.Attempt();
      if fate != Done {
        return false;
      }
      if disk.subs.pending == None {
        return true;
      }
      if !disk.subs.pending.value.accepted {
        return false;
      }
      ok := disk.WritePending(None);
    }

    twostate predicate Ends(ok: bool)
      reads disk
    {
      && (ok ==> !disk.halted)
      && (old(disk.halted) ==> !ok && disk.halted)
      && (!old(disk.halted) && disk.weather == Calm ==> !disk.halted)
      && disk.weather == old(disk.weather) && Counting(disk)
    }

    /** Compares the marker with the recovered resource commit before anything becomes
        visible. Every step keeps the subscription that will be active. */
    method RecoverPending(commitId: Option<nat>) returns (ok: bool)
      requires Valid()
      modifies this`active, disk`subs, disk`halted, disk`errors
      ensures Valid() && Ends(ok)
      ensures Resolved(disk.subs, commitId) == old(Resolved(disk.subs, commitId))
      ensures ok ==> disk.subs.pending == None
      ensures RecordsOf(disk.subs) == old(RecordsOf(disk.subs))
      ensures ok ==> old(Openable(disk.subs, commitId))
      ensures ok && disk.errors == old(disk.errors) ==> forall id :: id in records ==> Tidy(id)
      ensures !ok ==> disk.halted || disk.errors > old(disk.errors) || !old(Openable(disk.subs, commitId))
      ensures old(StoreSound(disk.subs)) ==> StoreSound(disk.subs)
    {
      var fate := disk.Attempt();
      if fate != Done {
        return false;
      }
      if disk.subs.pending.Some? {
        var pending := disk.subs.pending.value;
        if !pending.accepted && Some(pending.commitId) != commitId {
          ok := RestoreApplied(pending.previous);
          if !ok {
            return;
          }
        }
        ok := ClearPending();
        if !ok {
          return;
        }
      }
      CleanupApplied();
      ok := !disk.halted;
    }

    /** Deletes a subscription that is not active, by way of a quarantine directory. */
    method Delete(id: SubId) returns (ok: bool)
      requires Valid()
      modifies this`records, disk`subs, disk`halted, disk`errors, disk`nextId
      ensures Valid() && Retains(disk)
      ensures ok ==> !disk.halted && records == old(records) - {id} && id in old(records) && disk.errors == old(disk.errors)
      ensures old(active).Some? && old(active).value.id == id ==> !ok && disk.subs == old(disk.subs) && records == old(records)
      ensures disk.subs.dirs == old(disk.subs.dirs) || disk.subs.dirs == old(disk.subs.dirs) - {id}
      ensures records == old(records) || records == old(records) - {id}
      ensures disk.nextId >= old(disk.nextId)
      ensures !ok && id in old(records) && !(old(active).Some? && old(active).value.id == id) ==> disk.halted || disk.errors > old(disk.errors)
      ensures ok || (records == old(records) && disk.errors <= old(disk.errors) + 1 && !disk.halted) ==> disk.subs.quarantine <= old(disk.subs.quarantine)
    {
      hide Intact, StoreSound, InStep;
      if disk.halted || id !in records || (active.Some? && active.value.id == id) {
        return false;
      }
      InStepActive(records, active, disk.subs);
      ghost var st := disk.subs;
      LeavingIsIntact(st, id);
      InStepLeave(records, active, st, id);
      var q := disk.NewId();
      ok := disk.SetQuarantine(disk.subs.quarantine + {q});
      AnyQuarantine(records, active, st, id);
      if !ok {
        return;
      }
      ok := disk.DropDir(id);
      if !ok {
        var _ := disk.SetQuarantine(disk.subs.quarantine - {q});
        return;
      }
      records := records - {id};
      var fate := disk.Attempt();
      if fate != Done {
        return false;
      }
      ok := disk.SetQuarantine(disk.subs.quarantine - {q});
    }

    /** The directory of a subscription was made and its record never written. */
    ghost predicate Cut(id: SubId)
      reads disk
    {
      id in disk.subs.dirs && disk.subs.dirs[id].record == None
    }

    /** What an addition that was cut between its two steps leaves: one directory without a
        record, which every later start-up refuses. */
    twostate predicate CutOff(id: SubId)
      reads this, disk
    {
      && id !in old(records) && records == old(records)
      && disk.subs == WithDir(old(disk.subs), id, None) && !Intact(disk.subs)
      && (disk.halted || disk.errors > old(disk.errors)) && disk.weather == old(disk.weather)
    }

    lemma NothingCut(id: SubId)
      requires Valid()
      ensures !Cut(id)
    {
      RecordsOnly(disk.subs);
    }

    /** Adds a subscription. The directory comes first and the record second; an error
        between them takes the directory away again, a crash does not. */
    method Add(id: SubId, record: Record) returns (ok: bool)
      requires Valid() && record.current == None && !record.downloadedOnly
      modifies this`records, disk`subs, disk`halted, disk`errors
      ensures Ends(ok)
      ensures ok ==> id !in old(records) && records == old(records)[id := record] && disk.subs == WithDir(old(disk.subs), id, Some(record))
      ensures !ok ==> records == old(records) && (disk.subs == old(disk.subs) || CutOff(id))
      ensures !Cut(id) ==> Valid() && Retains(disk)
      ensures !ok && !old(disk.halted) && id !in old(records) ==> disk.halted || disk.errors > old(disk.errors)
    {
      hide Intact, StoreSound, InStep;
      NothingCut(id);
      if disk.halted || id in records {
        return false;
      }
      InStepOf(records, active, disk.subs, id);
      NewDirIsSound(disk.subs, id, None);
      NewDirIsSound(disk.subs, id, Some(record));
      InStepNew(records, active, disk.subs, id, record);
      ghost var st := disk.subs;
      assert WithRecord(WithDir(st, id, None), id, record).dirs == WithDir(st, id, Some(record)).dirs;
      ok := disk.MakeDir(id);
      if !ok {
        return;
      }
      ok := disk.WriteRecord(id, record);
      if !ok {
        var dropped := disk.DropDir(id);
        assert dropped ==> disk.subs == st;
        return;
      }
      records := records[id := record];
    }

    /** Replaces a record without touching its snapshot. */
    method Replace(id: SubId, record: Record) returns (ok: bool)
      requires Valid() && (id in records ==> SamePointer(record, records[id]))
      modifies this`records, disk`subs, disk`halted, disk`errors
      ensures Valid() && Retains(disk) && Ends(ok)
      ensures records == if ok then old(records)[id := record] else old(records)
      ensures RecordsOf(disk.subs) == if ok then old(RecordsOf(disk.subs))[id := Some(record)] else old(RecordsOf(disk.subs))
      ensures ok ==> id in old(records)
      ensures !ok && id in old(records) ==> disk.halted || disk.errors > old(disk.errors)
    {
      hide Intact, StoreSound, InStep, RecordStored;
      if disk.halted || id !in records {
        return false;
      }
      InStepOf(records, active, disk.subs, id);
      RecordOf(disk.subs, id);
      SameStored(record, disk.subs.dirs[id].record.value, disk.subs.dirs[id].files);
      RecordIsSound(disk.subs, id, record);
      RecordsPut(disk.subs, id, record);
      InStepRecord(records, active, disk.subs, id, record, record);
      ok := disk.WriteRecord(id, record);
      if ok {
        records := records[id := record];
      }
    }

    /** Changes status or validators in memory alone. */
    method Remember(id: SubId, record: Record)
      requires Valid() && id in records && SamePointer(record, records[id]) && !disk.halted
      modifies this`records
      ensures Valid() && records == old(records)[id := record]
    {
      hide Intact, StoreSound;
      records := records[id := record];
    }

    /** A successful check. It is written to disk only when it ends a failure. */
    method TouchSuccess(id: SubId, checked: nat, etag: string, lastModified: string) returns (ok: bool)
      requires Valid()
      modifies this`records, disk`subs, disk`halted, disk`errors
      ensures Valid() && Retains(disk)
      ensures ok ==> id in old(records) && !disk.halted && records == old(records)[id := Touched(old(records[id]), checked, etag, lastModified)]
      ensures !ok ==> records == old(records)
      ensures !ok && id in old(records) ==> disk.halted || disk.errors > old(disk.errors)
      ensures ok && old(records[id].failure) == 0 ==> disk.subs == old(disk.subs)
      ensures ok && old(records[id].failure) != 0 ==> RecordsOf(disk.subs) == old(RecordsOf(disk.subs))[id := Some(records[id])]
      ensures RecordsOf(disk.subs) == old(RecordsOf(disk.subs)) || (ok && RecordsOf(disk.subs) == old(RecordsOf(disk.subs))[id := Some(records[id])])
    {
      hide Intact, StoreSound, InStep, RecordsOf;
      if disk.halted || id !in records {
        return false;
      }
      var record := Touched(records[id], checked, etag, lastModified);
      if records[id].failure == 0 {
        Remember(id, record);
        return true;
      }
      ok := Replace(id, record);
    }

    /** A failed check. Memory reports it even if it could not be written. */
    method TouchFailure(id: SubId, checked: nat, failure: nat)
      requires Valid()
      modifies this`records, disk`subs, disk`halted, disk`errors
      ensures Valid() && Retains(disk)
      ensures records == old(records) || (id in old(records) && records == old(records)[id := old(records[id]).(checked := checked, failure := failure)])
      ensures id in old(records) ==> disk.halted || records == old(records)[id := old(records[id]).(checked := checked, failure := failure)]
      ensures id in old(records) && disk.errors == old(disk.errors) ==> disk.halted || RecordsOf(disk.subs) == old(RecordsOf(disk.subs))[id := Some(records[id])]
      ensures RecordsOf(disk.subs) == old(RecordsOf(disk.subs)) || (id in records && RecordsOf(disk.subs) == old(RecordsOf(disk.subs))[id := Some(records[id])])
    {
      hide Intact, StoreSound, InStep, RecordsOf;
      if disk.halted || id !in records {
        return;
      }
      var record := records[id].(checked := checked, failure := failure);
      var ok := Replace(id, record);
      if !ok && !disk.halted {
        Remember(id, record);
      }
    }
  }


  /** What memory names is stored. */
  lemma MemoryStored(records: map<SubId, Record>, active: Option<Applied>, st: Store, id: SubId)
    requires Intact(st) && InStep(records, active, st)
    ensures id in records ==> id in st.dirs && RecordStored(records[id], st.dirs[id].files)
    ensures AppliedStored(st.dirs, active)
  {
    hide PairStored;
    if id in records {
      assert DirSound(st.dirs[id]);
    }
  }

  lemma InStepLeave(records: map<SubId, Record>, active: Option<Applied>, st: Store, id: SubId)
    requires InStep(records, active, st)
    ensures InStep(records - {id}, active, st.(dirs := st.dirs - {id}))
  {
  }

  lemma InStepNew(records: map<SubId, Record>, active: Option<Applied>, st: Store, id: SubId, record: Record)
    requires InStep(records, active, st) && id !in records
    ensures InStep(records[id := record], active, WithDir(st, id, Some(record)))
  {
  }

  lemma RecordsOnly(st: Store)
    requires Intact(st)
    ensures forall id :: id in st.dirs ==> st.dirs[id].record.Some?
  {
  }

  /** The quarantine matters to nobody. */
  lemma AnyQuarantine(records: map<SubId, Record>, active: Option<Applied>, st: Store, id: SubId)
    requires Intact(st) && InStep(records, active, st) && Intact(st.(dirs := st.dirs - {id}))
    requires InStep(records - {id}, active, st.(dirs := st.dirs - {id}))
    ensures forall q :: Intact(st.(quarantine := q)) && InStep(records, active, st.(quarantine := q))
    ensures forall q :: Intact(st.(dirs := st.dirs - {id}, quarantine := q)) && InStep(records - {id}, active, st.(dirs := st.dirs - {id}, quarantine := q))
  {
    forall q ensures Intact(st.(quarantine := q)) && InStep(records, active, st.(quarantine := q)) {
      QuarantineIsFree(st, q);
    }
    forall q ensures Intact(st.(dirs := st.dirs - {id}, quarantine := q)) && InStep(records - {id}, active, st.(dirs := st.dirs - {id}, quarantine := q)) {
      QuarantineIsFree(st.(dirs := st.dirs - {id}), q);
    }
  }

  lemma InStepActive(records: map<SubId, Record>, active: Option<Applied>, st: Store)
    requires InStep(records, active, st)
    ensures active == st.active && records.Keys == st.dirs.Keys
  {
  }

  lemma SameStored(memory: Record, stored: Record, files: map<GenFile, Text>)
    requires SamePointer(memory, stored) && RecordStored(stored, files)
    ensures RecordStored(memory, files)
  {
  }


  /** Validators that a reply does not repeat are kept. */
  function Touched(r: Record, checked: nat, etag: string, lastModified: string): Record {
    r.(checked := checked, failure := 0,
       etag := if etag != "" then etag else r.etag, lastModified := if lastModified != "" then lastModified else r.lastModified)
  }

  function Snapshot(r: Record, pair: Pair, checked: nat, etag: string, lastModified: string, downloadedOnly: bool): Record {
    r.(current := Some(pair), downloadedOnly := downloadedOnly, checked := checked, failure := 0, etag := etag, lastModified := lastModified)
  }

  /** Writes the two files of a pair; the last good pair stays as it was. */
  method WritePair(disk: Disk, id: SubId, profile: Text, candidate: Text, ghost last: Record) returns (ok: bool)
    requires Intact(disk.subs) && id in disk.subs.dirs
    modifies disk`subs, disk`halted, disk`errors
    ensures old(StoreSound(disk.subs)) ==> StoreSound(disk.subs)
    ensures Retains(disk) && (ok ==> !disk.halted) && (!ok ==> disk.halted || disk.errors > old(disk.errors))
    ensures id in disk.subs.dirs && disk.subs == old(disk.subs).(dirs := old(disk.subs).dirs[id := old(disk.subs).dirs[id].(files := disk.subs.dirs[id].files)])
    ensures RecordsOf(disk.subs) == RecordsOf(old(disk.subs))
    ensures RecordStored(last, old(disk.subs).dirs[id].files) ==> RecordStored(last, disk.subs.dirs[id].files)
    ensures ok ==> PairStored(disk.subs.dirs[id].files, Pair(HashOf(profile), HashOf(candidate)))
  {
    hide Intact, StoreSound, RecordsOf;
    ghost var before := disk.subs;
    var p, c := ProfileFile(HashOf(profile)), CandidateFile(HashOf(profile), HashOf(candidate));
    FileIsSound(disk.subs, id, p, profile);
    ok := disk.WriteGenFile(id, p, profile);
    if ok {
      FileIsSound(disk.subs, id, c, candidate);
      ok := disk.WriteGenFile(id, c, candidate);
    }
    RecordsStay(before, id, disk.subs.dirs[id].files);
  }

  /** Opens the store. Every record and the applied pair are checked against their
      files before anything becomes visible. */
  method NewStore(disk: Disk) returns (s: Service?)
    modifies disk`subs, disk`halted, disk`errors
    ensures Counting(disk)
    ensures disk.subs == old(disk.subs).(quarantine := disk.subs.quarantine) && disk.weather == old(disk.weather)
    ensures old(disk.halted) ==> disk.halted && s == null && disk.subs == old(disk.subs)
    ensures s != null ==> fresh(s) && s.disk == disk && !disk.halted && s.Synced() && disk.subs.quarantine == {}
    ensures s != null ==> forall id :: id in s.records ==> id in disk.subs.dirs && disk.subs.dirs[id].record == Some(s.records[id])
    ensures s != null ==> Intact(disk.subs)
    ensures s == null && Intact(old(disk.subs)) ==> disk.halted || disk.errors > old(disk.errors)
    ensures !old(disk.halted) && disk.weather == Calm ==> !disk.halted
  {
    hide DirSound, PairStored;
    s := null;
    var clean := disk.SetQuarantine({});
    if !clean {
      return;
    }
    var records := ReadRecords(disk);
    if records == None {
      return;
    }
    var active := disk.subs.active;
    if active.Some? {
      if active.value.id !in records.value {
        return;
      }
      var profile := disk.ReadPair(active.value.id, active.value.pair);
      if profile == None {
        return;
      }
    }
    s := new Service(disk, records.value, active);
  }

  ghost predicate Reads(dirs: map<SubId, SubDir>, id: SubId, records: map<SubId, Record>) {
    id in records && id in dirs && dirs[id].record == Some(records[id]) && DirSound(dirs[id])
  }

  /** Reads every record. */
  method ReadRecords(disk: Disk) returns (r: Option<map<SubId, Record>>)
    requires !disk.halted
    modifies disk`halted, disk`errors
    ensures Counting(disk)
    ensures r.Some? ==> !disk.halted && r.value.Keys == disk.subs.dirs.Keys && forall id :: id in r.value ==> Reads(disk.subs.dirs, id, r.value)
    ensures r == None ==> disk.halted || disk.errors > old(disk.errors) || exists id :: id in disk.subs.dirs && !DirSound(disk.subs.dirs[id])
    ensures disk.weather == Calm ==> !disk.halted
  {
    hide DirSound;
    var records: map<SubId, Record> := map[];
    var ids := Enumerate(disk.subs.dirs.Keys);
    for k := 0 to |ids|
      modifies disk`halted, disk`errors
      invariant !disk.halted && Counting(disk)
      invariant records.Keys == set i | 0 <= i < k :: ids[i]
      invariant forall id :: id in records ==> Reads(disk.subs.dirs, id, records)
    {
      assert ids[k] in disk.subs.dirs.Keys;
      var record := ReadRecord(disk, ids[k]);
      if record == None {
        return None;
      }
      records := records[ids[k] := record.value];
    }
    assert forall id :: id in disk.subs.dirs.Keys ==> id in ids;
    r := Some(records);
  }

  /** Reads one record and checks it against its files. */
  method ReadRecord(disk: Disk, id: SubId) returns (r: Option<Record>)
    requires id in disk.subs.dirs && !disk.halted
    modifies disk`halted, disk`errors
    ensures Counting(disk)
    ensures r.Some? ==> !disk.halted && disk.subs.dirs[id].record == r && DirSound(disk.subs.dirs[id])
    ensures r == None ==> disk.halted || disk.errors > old(disk.errors) || !DirSound(disk.subs.dirs[id])
    ensures disk.weather == Calm ==> !disk.halted
  {
    hide PairStored;
    var fate := disk.Attempt();
    if fate != Done || disk.subs.dirs[id].record == None {
      return None;
    }
    var record := disk.subs.dirs[id].record.value;
    if record.downloadedOnly && (record.current == None || record.current.value.candidate != record.current.value.profile) {
      return None;
    }
    if record.current.Some? {
      var profile := disk.ReadPair(id, record.current.value);
      if profile == None {
        return None;
      }
    }
    r := Some(record);
  }

  /** Start-up of the store: read it, then compare the marker with the recovered commit. In
      calm weather it succeeds exactly on the stores that are openable under that commit. */
  method OpenStore(disk: Disk, commitId: Option<nat>) returns (s: Service?)
    modifies disk`subs, disk`halted, disk`errors
    ensures Counting(disk)
    ensures s != null ==> fresh(s) && s.disk == disk && s.Valid() && !disk.halted && disk.subs.pending == None
    ensures s != null ==> s.active == old(Resolved(disk.subs, commitId))
    ensures s != null ==> old(Openable(disk.subs, commitId))
    ensures !old(disk.halted) && disk.weather == Calm ==> !disk.halted && (s != null <==> old(Openable(disk.subs, commitId)))
  {
    hide Intact, StoreSound, InStep, RecordsOf;
    ghost var st := disk.subs;
    s := NewStore(disk);
    if s != null {
      AnyQuarantineOpens(st, disk.subs.quarantine, commitId);
      var ok := s.RecoverPending(commitId);
      if !ok {
        return null;
      }
      InStepActive(s.records, s.active, disk.subs);
    }
  }

  lemma AnyQuarantineOpens(st: Store, q: set<nat>, commitId: Option<nat>)
    ensures Intact(st.(quarantine := q)) <==> Intact(st)
    ensures Openable(st.(quarantine := q), commitId) <==> Openable(st, commitId)
  {
  }

  /** The store after a complete cleanup of one directory. */
  function Cleaned(st: Store, id: SubId): Store
    requires id in st.dirs && st.dirs[id].record.Some?
  {
    Without(st, id, st.dirs[id].files.Keys - FilesOf(st.dirs[id].record.value.current) - FilesOf(AppliedPair(st.active, id)))
  }

  lemma TrimmedIsCleaned(before: Store, after: Store, id: SubId, keep: set<GenFile>)
    requires Trimmed(before, after, id, keep) && before.dirs[id].record.Some?
    requires keep == FilesOf(before.dirs[id].record.value.current) + FilesOf(AppliedPair(before.active, id))
    ensures after.dirs[id].files.Keys <= keep ==> after == Cleaned(before, id)
  {
    if after.dirs[id].files.Keys <= keep {
      var gone := before.dirs[id].files.Keys - FilesOf(before.dirs[id].record.value.current) - FilesOf(AppliedPair(before.active, id));
      assert after.dirs[id].files.Keys == before.dirs[id].files.Keys * keep;
      assert gone == before.dirs[id].files.Keys - after.dirs[id].files.Keys;
    }
  }

  /** A complete cleanup leaves a store that a start-up with a given commit opens, exactly if
      that start-up would not undo an activation, or the pair it would go back to is also the
      current or the applied one. */
  lemma CleanupIsSoundIff(st: Store, id: SubId, commitId: Option<nat>)
    requires Openable(st, commitId) && id in st.dirs
    ensures st.dirs[id].record.Some?
    ensures
      var current, applied, fallback := st.dirs[id].record.value.current, AppliedPair(st.active, id), AppliedPair(Fallback(st), id);
      Openable(Cleaned(st, id), commitId) <==>
      (!Undone(st, commitId) || fallback == None || fallback == current || fallback == applied)
  {
    assert DirSound(st.dirs[id]);
    var current, applied, back := st.dirs[id].record.value.current, AppliedPair(st.active, id), AppliedPair(Resolved(st, commitId), id);
    var gone := st.dirs[id].files.Keys - FilesOf(current) - FilesOf(applied);
    RemovalIsOpenable(st, id, gone, commitId);
    if back.Some? {
      assert PairStored(st.dirs[id].files, back.value);
      var f := CandidateFile(back.value.profile, back.value.candidate);
      assert f in FilesOf(back) && f in st.dirs[id].files.Keys;
      if gone !! FilesOf(current) + FilesOf(applied) + FilesOf(back) {
        assert f in FilesOf(current) || f in FilesOf(applied);
      }
    }
  }

  /** How to get there, in calm weather and from any store: an activation of `b` is marked and
      applied, and then neither finalized nor undone; the formerly active `a` is refreshed,
      which deletes its old pair; the next start-up recovers another resource commit, wants to
      go back to that pair and refuses to open. */
  method StrandedFallback(s: Service, a: SubId, b: Applied, commitId: nat, recovered: Option<nat>, profile: Text, candidate: Text) returns (reopened: Service?)
    requires s.Valid() && !s.disk.halted && s.disk.weather == Calm && s.disk.subs.pending == None
    requires s.active.Some? && s.active.value.id == a != b.id && AppliedStored(s.disk.subs.dirs, Some(b))
    requires s.active.value.pair != Pair(HashOf(profile), HashOf(candidate)) && recovered != Some(commitId)
    modifies s, s.disk
    ensures reopened == null && !s.disk.halted
  {
    hide Intact, StoreSound, InStep, RecordsOf, PairStored;
    UnmarkedIsSound(s.disk.subs);
    InStepActive(s.records, s.active, s.disk.subs);
    ActiveOf(s.disk.subs);
    var _ := s.MarkPending(s.active, commitId);
    var _ := s.SetApplied(b.id, b.pair);
    var _ := s.Promote(a, profile, candidate, 0, "", "", false);
    InStepOf(s.records, s.active, s.disk.subs, a);
    ghost var st := s.disk.subs;
    s.FinalizePromotion(a);
    assert !Openable(s.disk.subs, recovered) by {
      SoundIffAlwaysOpenable(st);
      CleanupIsSoundIff(st, a, recovered);
    }
    reopened := OpenStore(s.disk, recovered);
  }
}
