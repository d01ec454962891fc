/** Promotion of a resource set behind a journal, its undo, its acceptance, and
    the recovery of whatever a dead process left behind. */
module ResourceTransaction {
  import opened Common
  import opened ResourceManifest
  import opened ResourceImage
  import opened Storage

  /** What every operation on a sound disk keeps: the disk stays sound, and what a
      start-up would expose does not change. */
  twostate predicate Keeps(disk: Disk)
    reads disk
  {
    && old(Sound(disk.home)) && Sound(disk.home)
    && Committed(disk.home) == old(Committed(disk.home))
  }

  /** An operation ends without error when nothing goes wrong, reports an error
      only for a crash or a fault, and does nothing in a dead process. */
  twostate predicate Ends(disk: Disk, ok: bool)
    reads disk
  {
    && (ok ==> !disk.halted)
    && (!ok ==> disk.halted || disk.errors > old(disk.errors))
    && Counting(disk)
    && (old(disk.halted) ==> !ok && disk.halted && disk.home == old(disk.home))
    && (!old(disk.halted) && disk.weather == Calm ==> ok)
    && disk.weather == old(disk.weather)
    && disk.nextId >= old(disk.nextId)
  }

  ghost predicate Settled(files: map<Name, Body>, undo: map<Name, Option<Body>>, n: Name) {
    n in undo ==> (n in files <==> undo[n].Some?) && (n in files ==> files[n] == undo[n].value)
  }

  lemma AllSettled(files: map<Name, Body>, entries: seq<Entry>, dir: map<int, Body>)
    requires DistinctEntries(entries)
    requires forall i :: 0 <= i < |entries| ==> Settled(files, Undo(entries, dir), entries[i].name)
    ensures files == Restored(files, Undo(entries, dir))
  {
    UndoNames(entries, dir);
  }

  ghost function Put(files: map<Name, Body>, n: Name, o: Option<Body>): map<Name, Body> {
    if o.Some? then files[n := o.value] else files - {n}
  }

  /** The files after the first `at` destinations of a journal were put back. */
  ghost function Undone(files: map<Name, Body>, entries: seq<Entry>, dir: map<int, Body>, at: nat): map<Name, Body>
    requires at <= |entries|
  {
    if at == 0 then files
    else Put(Undone(files, entries, dir, at - 1), entries[at - 1].name, Undoing(entries[at - 1], dir))
  }

  lemma PutKeeps(files: map<Name, Body>, entries: seq<Entry>, dir: map<int, Body>, maxBytes: int, k: nat)
    requires DistinctEntries(entries) && k < |entries| && EntriesOk(files, entries, dir, maxBytes)
    ensures EntriesOk(Put(files, entries[k].name, Undoing(entries[k], dir)), entries, dir, maxBytes)
    ensures Restored(Put(files, entries[k].name, Undoing(entries[k], dir)), Undo(entries, dir)) == Restored(files, Undo(entries, dir))
    ensures Settled(Put(files, entries[k].name, Undoing(entries[k], dir)), Undo(entries, dir), entries[k].name)
  {
    EntryUndo(entries, dir, k);
    assert BackupOk(entries[k], dir, maxBytes);
    if entries[k].hadPrevious {
      StoreKeepsEntries(files, entries, dir, maxBytes, k, Undoing(entries[k], dir).value);
    } else {
      RemoveKeepsEntries(files, entries, dir, maxBytes, k);
    }
  }

  /** One destination: the saved copy goes back, or a new file goes away. */
  method RestoreOne(disk: Disk, j: Journal, e: Entry) returns (ok: bool)
    requires j.dir in disk.home.txns && !disk.halted
    requires BackupOk(e, disk.home.txns[j.dir], j.maxBytes) && NewFileOk(e, disk.home.files, j.maxBytes)
    modifies disk`home, disk`halted, disk`errors
    ensures Ends(disk, ok)
    ensures disk.home == old(disk.home).(files := disk.home.files)
    ensures disk.home.files == old(disk.home.files) || disk.home.files == Put(old(disk.home.files), e.name, Undoing(e, disk.home.txns[j.dir]))
    ensures ok ==> disk.home.files == Put(old(disk.home.files), e.name, Undoing(e, disk.home.txns[j.dir]))
  {
    if e.hadPrevious {
      var saved := disk.ReadBackup(j.dir, e.backup, j.maxBytes);
      if saved == None || Some(DigestOf(saved.value)) != e.previousSHA {
        return false;
      }
      ok := disk.WriteFile(e.name, saved.value);
      return;
    }
    var fate := disk.Attempt();
    if fate != Done {
      return false;
    }
    if e.name !in disk.home.files {
      assert disk.home.files - {e.name} == disk.home.files;
      return true;
    }
    var present := disk.ReadFile(e.name, j.maxBytes);
    if present == None || e.candidateSHA == None || Some(DigestOf(present.value)) != e.candidateSHA {
      return false;
    }
    ok := disk.RemoveFile(e.name);
  }

  /** Puts every destination of the journal back, one at a time. */
  method RestoreFiles(disk: Disk, j: Journal) returns (ok: bool, ghost at: nat)
    requires DistinctEntries(j.files) && j.dir in disk.home.txns
    requires EntriesOk(disk.home.files, j.files, disk.home.txns[j.dir], j.maxBytes)
    modifies disk`home, disk`halted, disk`errors
    ensures Ends(disk, ok)
    ensures disk.home == old(disk.home).(files := disk.home.files)
    ensures EntriesOk(disk.home.files, j.files, disk.home.txns[j.dir], j.maxBytes)
    ensures Restored(disk.home.files, Undo(j.files, disk.home.txns[j.dir])) == old(Restored(disk.home.files, Undo(j.files, disk.home.txns[j.dir])))
    ensures ok ==> disk.home.files == Restored(disk.home.files, Undo(j.files, disk.home.txns[j.dir]))
    ensures at <= |j.files| && disk.home.files == Undone(old(disk.home.files), j.files, disk.home.txns[j.dir], at)
    ensures ok ==> at == |j.files|
  {
    hide DistinctEntries, Restored, Undo, Settled, Undoing;
    ok, at := false, 0;
    ghost var dir := disk.home.txns[j.dir];
    ghost var undo := Undo(j.files, dir);
    ghost var target := Restored(disk.home.files, undo);
    if disk.halted {
      return;
    }
    for k := 0 to |j.files|
      invariant !disk.halted && Counting(disk) && at == k && disk.home.files == Undone(old(disk.home.files), j.files, dir, at)
      invariant disk.home == old(disk.home).(files := disk.home.files)
      invariant EntriesOk(disk.home.files, j.files, dir, j.maxBytes)
      invariant Restored(disk.home.files, undo) == target
      invariant forall i :: 0 <= i < k ==> Settled(disk.home.files, undo, j.files[i].name)
    {
      PutKeeps(disk.home.files, j.files, dir, j.maxBytes, k);
      ghost var before := disk.home.files;
      ok := RestoreOne(disk, j, j.files[k]);
      if !ok {
        at := if disk.home.files == before then k else k + 1;
        return;
      }
      at := k + 1;
      SettledStays(before, disk.home.files, undo, j.files, k);
    }
    AllSettled(disk.home.files, j.files, dir);
    ok := true;
  }

  lemma SettledStays(before: map<Name, Body>, after: map<Name, Body>, undo: map<Name, Option<Body>>, entries: seq<Entry>, k: nat)
    requires DistinctEntries(entries) && k < |entries|
    requires after - {entries[k].name} == before - {entries[k].name}
    requires forall i :: 0 <= i < k ==> Settled(before, undo, entries[i].name)
    ensures forall i :: 0 <= i < k ==> Settled(after, undo, entries[i].name)
  {
    forall i | 0 <= i < k ensures Settled(after, undo, entries[i].name) {
      var n := entries[i].name;
      assert n in after <==> n in after - {entries[k].name};
      assert n in before <==> n in before - {entries[k].name};
    }
  }

  /** The home after the first `at` steps of undoing its journal: the destinations one by
      one, then the previous manifest. The removal of the journal is the step after these. */
  ghost function UndoAt(s: Image, at: nat): Image
    requires s.journal.Some? && s.journal.value.dir in s.txns && at <= |s.journal.value.files| + 1
  {
    var j := s.journal.value;
    if at <= |j.files| then s.(files := Undone(s.files, j.files, s.txns[j.dir], at))
    else s.(files := Undone(s.files, j.files, s.txns[j.dir], |j.files|), manifest := Some(j.previous))
  }

  /** Undoes a journal completely. From an open promotion every step keeps what a
      start-up exposes, so it can be interrupted and repeated. */
  method RestoreTransaction(disk: Disk, j: Journal) returns (ok: bool, ghost at: nat)
    requires disk.home.journal == Some(j) && ValidJournal(j) && DistinctEntries(j.files) && Undoable(disk.home, j)
    requires j.phase == Promoting ==> Sound(disk.home)
    modifies disk`home, disk`halted, disk`errors
    ensures Ends(disk, ok)
    ensures j.phase == Promoting ==> Keeps(disk)
    ensures ok ==> disk.home.journal == None && j.dir !in disk.home.txns
    ensures disk.home.journal == None ==> Sound(disk.home) && disk.home.manifest == Some(j.previous)
    ensures disk.home.journal == None ==> disk.home.files == old(Restored(disk.home.files, Undo(j.files, disk.home.txns[j.dir])))
    ensures disk.home.stages == old(disk.home.stages) && disk.home.generations == old(disk.home.generations)
    ensures disk.home.journal == Some(j) || disk.home.journal == None
    ensures disk.home.txns - {j.dir} == old(disk.home).txns - {j.dir}
    ensures disk.home.journal == Some(j) ==> Undoable(disk.home, j)
    ensures disk.home.journal == Some(j) ==> at <= |j.files| + 1 && disk.home == UndoAt(old(disk.home), at)
  {
    hide ValidJournal, ValidManifest, Backed, EntriesOk, Undo, Restored, DistinctEntries, Sound, Committed;
    ghost var h0 := disk.home;
    ok, at := RestoreFiles(disk, j);
    ghost var h1 := disk.home;
    if j.phase == Promoting {
      StillPromoting(h0, j);
      FilesStep(h0, h1.files);
    }
    if ok {
      ok := FinishRestore(disk, j);
      at := if disk.home == h1 then at else |j.files| + 1;
    }
  }

  lemma StillPromoting(s: Image, j: Journal)
    requires Sound(s) && s.journal == Some(j) && j.phase == Promoting
    ensures DistinctEntries(j.files) && j.dir in s.txns && Target(s) == Restored(s.files, Undo(j.files, s.txns[j.dir]))
  {
  }

  /** With every destination back: the previous manifest, then the journal goes. */
  method FinishRestore(disk: Disk, j: Journal) returns (ok: bool)
    requires disk.home.journal == Some(j) && ValidJournal(j) && DistinctEntries(j.files) && Undoable(disk.home, j)
    requires disk.home.files == Restored(disk.home.files, Undo(j.files, disk.home.txns[j.dir]))
    requires j.phase == Promoting ==> Sound(disk.home)
    modifies disk`home, disk`halted, disk`errors
    ensures Ends(disk, ok)
    ensures j.phase == Promoting ==> Keeps(disk)
    ensures ok ==> disk.home.journal == None && j.dir !in disk.home.txns
    ensures disk.home.journal == None ==> Sound(disk.home) && disk.home.manifest == Some(j.previous)
    ensures disk.home == old(disk.home).(manifest := disk.home.manifest, journal := disk.home.journal, txns := disk.home.txns)
    ensures disk.home.journal == Some(j) ==> disk.home == old(disk.home) || disk.home == old(disk.home).(manifest := Some(j.previous))
    ensures disk.home.journal == Some(j) || disk.home.journal == None
    ensures disk.home.txns - {j.dir} == old(disk.home).txns - {j.dir}
  {
    hide ValidEntry, ValidMetadataOnly, Owners, Holds, LegacyBacked, NamesFree, EntriesOk, Undo, Restored, DistinctEntries, Fits;
    ghost var h1 := disk.home;
    ok := disk.WriteManifest(j.previous);
    if j.phase == Promoting {
      ManifestStep(h1, j.previous);
    }
    if !ok {
      return;
    }
    ok := disk.RemoveJournal(true);
    ghost var h3 := disk.home;
    if j.phase == Promoting {
      RollbackDone(h1.(manifest := Some(j.previous)));
    }
    if !ok {
      return;
    }
    ok := disk.RemoveTxn(j.dir);
    ScratchStep(h3, disk.home);
  }

  datatype ReadResult = Missing | Unreadable | Found(journal: Journal)

  /** What start-up demands of a journal before it acts on it. */
  ghost predicate Sensible(s: Image) {
    s.journal.Some? ==>
      && ValidJournal(s.journal.value) && |s.journal.value.files| <= MAX_STATE_BYTES
      && (s.journal.value.dir in s.txns || s.journal.value.phase == Accepted)
  }

  lemma SoundIsSensible(s: Image)
    requires Sound(s)
    ensures Sensible(s)
  {
  }

  /** Reads the journal back and checks it before anyone acts on it. */
  method ReadTransaction(disk: Disk) returns (r: ReadResult)
    modifies disk`halted, disk`errors
    ensures Sensible(disk.home) ==> Ends(disk, r != Unreadable)
    ensures !Sensible(disk.home) ==> r == Unreadable
    ensures disk.halted ==> r == Unreadable
    ensures r == Missing ==> disk.home.journal == None
    ensures r.Found? ==> disk.home.journal == Some(r.journal) && ValidJournal(r.journal)
  {
    var fate := disk.Attempt();
    if fate != Done {
      return Unreadable;
    }
    if disk.home.journal == None {
      return Missing;
    }
    var j := disk.home.journal.value;
    var valid := ValidateJournal(j);
    if !valid || |j.files| > MAX_STATE_BYTES {
      return Unreadable;
    }
    if j.dir !in disk.home.txns && j.phase != Accepted {
      return Unreadable;
    }
    return Found(j);
  }

  lemma DropKeys<T>(before: map<nat, T>, after: map<nat, T>, d: nat)
    requires after - {d} == before - {d} && (d in after ==> d in before)
    ensures after.Keys <= before.Keys
  {
    forall k | k in after ensures k in before {
      assert k == d || k in after - {d};
    }
  }

  /** Drops the journal and then, as far as possible, its directory. */
  method RemoveTransaction(disk: Disk, dir: nat) returns (ok: bool)
    requires Sound(disk.home) && disk.home.journal.Some? && disk.home.journal.value.phase == Accepted
    modifies disk`home, disk`halted, disk`errors
    ensures Ends(disk, ok)
    ensures Keeps(disk)
    ensures disk.home == old(disk.home).(journal := disk.home.journal, txns := disk.home.txns)
    ensures disk.home.journal == if disk.home.journal == None then None else old(disk.home.journal)
    ensures ok ==> disk.home.journal == None
    ensures disk.home.journal.Some? ==> disk.home == old(disk.home)
    ensures disk.home.txns.Keys <= old(disk.home.txns.Keys)
    ensures !ok && !disk.halted ==> disk.home.journal.Some?
    ensures ok && disk.errors == old(disk.errors) ==> dir !in disk.home.txns
  {
    ghost var h0 := disk.home;
    ok := disk.RemoveJournal(false);
    AcceptedDone(h0);
    if !ok {
      return;
    }
    ghost var h1 := disk.home;
    if dir in disk.home.txns {
      var _ := disk.RemoveTxn(dir);
      DropKeys(h1.txns, disk.home.txns, dir);
    }
    ScratchStep(h1, disk.home);
    ok := !disk.halted;
  }

  ghost function Marked(journal: Option<Journal>): Option<Journal> {
    if journal.Some? then Some(journal.value.(phase := Accepted)) else None
  }

  /** What acceptance may do: nothing, or make the complete promotion the one that
      every later start-up exposes. Files and manifest are already in place. */
  twostate predicate Accepts(disk: Disk)
    reads disk
  {
    && old(Sound(disk.home)) && Sound(disk.home)
    && disk.home == old(disk.home).(journal := disk.home.journal, txns := disk.home.txns, stages := disk.home.stages)
    && (disk.home.journal == old(disk.home.journal) || disk.home.journal == None || disk.home.journal == Marked(old(disk.home.journal)))
    && Foreign(disk.home) == old(Foreign(disk.home))
    && if disk.home.journal == old(disk.home.journal) then Committed(disk.home) == old(Committed(disk.home))
       else Committed(disk.home) == ViewOf(Loaded(disk.home), disk.home.files, disk.home)
  }

  /** Marks a complete promotion accepted, which is the commit point, and cleans
      up. An error leaves the promotion open or already accepted. */
  method FinalizeTransaction(disk: Disk, dir: nat) returns (ok: bool)
    requires Sound(disk.home) && disk.home.journal.Some? && disk.home.journal.value.dir == dir
    requires InPromotion(disk.home) ==> Promoted(disk.home)
    modifies disk`home, disk`halted, disk`errors
    ensures Ends(disk, ok) && Accepts(disk)
    ensures disk.home.stages == old(disk.home.stages)
    ensures ok ==> disk.home.journal == None
    ensures disk.home.journal.Some? ==> disk.home.txns == old(disk.home.txns)
    ensures disk.home.txns.Keys <= old(disk.home.txns.Keys)
    ensures !ok && !disk.halted ==> disk.home.journal.Some?
  {
    hide ValidManifest, ValidEntry, ValidMetadataOnly, Owners, Holds, LegacyBacked, NamesFree, EntriesOk, Undo, Restored, DistinctEntries, Fits;
    ghost var h0 := disk.home;
    var r := ReadTransaction(disk);
    if !r.Found? {
      return false;
    }
    if r.journal.phase != Accepted {
      AcceptStep(h0);
      ok := disk.WriteJournal(r.journal.(phase := Accepted));
      if !ok {
        return;
      }
    }
    ok := RemoveTransaction(disk, dir);
  }
}
