/** Undoing a resource commit that is already accepted. The program does it only after an
    input/output error in finalization, and it is not crash-safe. */
module AcceptedUndo {
  import opened Common
  import opened ResourceManifest
  import opened ResourceImage
  import opened Storage
  import opened ResourceTransaction
  import opened ResourcePromotion
  import opened ResourceRecovery

  /** An accepted journal that can still be undone. */
  ghost predicate Revocable(s: Image) {
    && Sound(s) && s.journal.Some? && s.journal.value.phase == Accepted
    && Undoable(s, s.journal.value)
  }

  /** Putting this destination back does not hurt the candidate: it has no file there, or
      the same one. */
  predicate Harmless(e: Entry) {
    e.candidateSHA == None || e.candidateSHA == e.previousSHA
  }

  /** The files in the middle of an undo, name by name. */
  lemma {:induction false} UndoneAt(files: map<Name, Body>, entries: seq<Entry>, dir: map<int, Body>, at: nat)
    requires DistinctEntries(entries) && at <= |entries|
    ensures forall i :: 0 <= i < at ==> Holding(Undone(files, entries, dir, at), entries[i].name, Undoing(entries[i], dir))
    ensures forall n :: (forall i :: 0 <= i < at ==> entries[i].name != n) ==>
      Holding(Undone(files, entries, dir, at), n, if n in files then Some(files[n]) else None)
  {
    if at > 0 {
      UndoneAt(files, entries, dir, at - 1);
    }
  }

  ghost predicate Holding(files: map<Name, Body>, n: Name, o: Option<Body>) {
    if o.Some? then n in files && files[n] == o.value else n !in files
  }

  lemma CandidateFile(j: Journal, files: map<Name, Body>, e: Entry)
    requires ValidManifest(j.previous) && ValidManifest(j.candidate) && ValidEntry(j, e) && Holds(files, j.candidate) && e.candidateSHA.Some?
    ensures e.name in Owners(j.candidate) && e.name in files && Some(DigestOf(files[e.name])) == e.candidateSHA
    ensures var id := Owners(j.candidate)[e.name]; id in j.candidate.resources && ResourceName(j.candidate, id) == e.name
  {
  }

  /** In the middle of an undo the candidate's files are all there exactly if every
      destination put back so far is harmless. */
  lemma UndoneHolds(files: map<Name, Body>, j: Journal, dir: map<int, Body>, at: nat)
    requires ValidJournal(j) && DistinctEntries(j.files) && at <= |j.files|
    requires Holds(files, j.candidate) && Fits(files, j.candidate, j.maxBytes) && EntriesOk(files, j.files, dir, j.maxBytes)
    ensures
      var now := Undone(files, j.files, dir, at);
      Holds(now, j.candidate) && Fits(now, j.candidate, j.maxBytes) <==> forall i :: 0 <= i < at ==> Harmless(j.files[i])
  {
    var now := Undone(files, j.files, dir, at);
    UndoneAt(files, j.files, dir, at);
    if !(forall i :: 0 <= i < at ==> Harmless(j.files[i])) {
      var i :| 0 <= i < at && !Harmless(j.files[i]);
      HarmBreaks(files, now, j, dir, i);
    } else {
      forall id | id in j.candidate.resources
        ensures ResourceName(j.candidate, id) in now && now[ResourceName(j.candidate, id)] == files[ResourceName(j.candidate, id)]
      {
        SameFile(files, now, j, dir, at, id);
      }
    }
  }

  lemma HarmBreaks(files: map<Name, Body>, now: map<Name, Body>, j: Journal, dir: map<int, Body>, i: nat)
    requires ValidJournal(j) && Holds(files, j.candidate) && EntriesOk(files, j.files, dir, j.maxBytes) && i < |j.files|
    requires !Harmless(j.files[i]) && Holding(now, j.files[i].name, Undoing(j.files[i], dir))
    ensures !Holds(now, j.candidate)
  {
    var e := j.files[i];
    assert ValidEntry(j, e);
    CandidateFile(j, files, e);
    assert BackupOk(e, dir, j.maxBytes);
  }

  lemma SameFile(files: map<Name, Body>, now: map<Name, Body>, j: Journal, dir: map<int, Body>, at: nat, id: Id)
    requires ValidJournal(j) && Holds(files, j.candidate) && EntriesOk(files, j.files, dir, j.maxBytes) && at <= |j.files| && id in j.candidate.resources
    requires forall i :: 0 <= i < at ==> Harmless(j.files[i]) && Holding(now, j.files[i].name, Undoing(j.files[i], dir))
    requires forall n :: (forall i :: 0 <= i < at ==> j.files[i].name != n) ==> Holding(now, n, if n in files then Some(files[n]) else None)
    ensures var n := ResourceName(j.candidate, id); n in files && n in now && now[n] == files[n]
  {
    var n := ResourceName(j.candidate, id);
    assert n in Owners(j.candidate) && Owners(j.candidate)[n] == id;
    if i :| 0 <= i < at && j.files[i].name == n {
      var e := j.files[i];
      assert ValidEntry(j, e);
      assert BackupOk(e, dir, j.maxBytes);
    }
  }

  /** Start-up accepts what an interrupted undo left exactly if every destination put back
      so far is harmless and the manifest is still, or again, the candidate. */
  lemma UndoAfterAcceptance(s: Image, at: nat)
    requires Revocable(s) && at <= |s.journal.value.files| + 1
    ensures
      var j := s.journal.value;
      Sound(UndoAt(s, at)) <==>
      && (forall i :: 0 <= i < at && i < |j.files| ==> Harmless(j.files[i]))
      && (at == |j.files| + 1 ==> j.previous == j.candidate)
  {
    hide ValidJournal, ValidManifest, Holds, Fits, Undone, Backed, EntriesOk, DistinctEntries, Undo, Restored, Harmless;
    var j := s.journal.value;
    UndoneHolds(s.files, j, s.txns[j.dir], if at <= |j.files| then at else |j.files|);
  }

  /** Over the whole undo: it is safe to interrupt anywhere exactly if there is nothing to
      undo. Metadata-only journals are no exception. */
  lemma UndoIsSafeIff(s: Image)
    requires Revocable(s)
    ensures (forall at: nat :: at <= |s.journal.value.files| + 1 ==> Sound(UndoAt(s, at))) <==> s.journal.value.previous == s.journal.value.candidate
  {
    var j := s.journal.value;
    UndoAfterAcceptance(s, |j.files| + 1);
    if j.previous == j.candidate {
      forall at: nat | at <= |j.files| + 1 ensures Sound(UndoAt(s, at)) {
        UndoAfterAcceptance(s, at);
        forall i | 0 <= i < |j.files| ensures Harmless(j.files[i]) {
          assert ValidEntry(j, j.files[i]);
        }
      }
    }
  }

  /** Undoes an accepted journal, in any weather, and starts up again. `at` counts the steps
      of the undo that happened. The start-up succeeds exactly if the journal is gone or the
      steps so far were harmless; a refused home stays as it is, so that every later start-up
      refuses it too. */
  method UndoThenStart(disk: Disk) returns (starts: bool, ghost at: nat)
    requires Revocable(disk.home) && Named(disk)
    requires disk.home.journal.value.previous.commitId == disk.home.journal.value.candidate.commitId ==> disk.home.journal.value.previous == disk.home.journal.value.candidate
    modifies disk
    ensures
      var j := old(disk.home).journal.value;
      && at <= |j.files| + 2
      && (starts <==>
            || at == |j.files| + 2
            || ((forall i :: 0 <= i < at && i < |j.files| ==> Harmless(j.files[i])) && (at == |j.files| + 1 ==> j.previous == j.candidate)))
      && (!starts ==> disk.home == UndoAt(old(disk.home), at))
      && (starts && at == |j.files| + 2 && j.previous.version == 2 ==> Loaded(disk.home) == j.previous)
  {
    var j := disk.home.journal.value;
    ghost var s := disk.home;
    AcceptedIsReadable(s);
    hide Sound, Committed, Undoable, ValidJournal, Contents, UndoAt, Foreign;
    var _, k := RestoreTransaction(disk, j);
    DropKeys(s.txns, disk.home.txns, j.dir);
    at := if disk.home.journal == Some(j) then k else |j.files| + 2;
    if disk.home.journal == Some(j) {
      UndoAfterAcceptance(s, at);
      StillAccepting(s, at);
    }
    disk.Reboot(Calm);
    if disk.home.journal == None {
      Exposed(disk.home);
    }
    var r := NewRegistry(disk);
    starts := r.Some?;
    if starts {
      Exposed(disk.home);
    }
  }

  lemma AcceptedIsReadable(s: Image)
    requires Revocable(s)
    ensures var j := s.journal.value; ValidJournal(j) && DistinctEntries(j.files) && j.dir in s.txns && Undoable(s, j)
  {
  }

  lemma StillAccepting(s: Image, at: nat)
    requires Revocable(s) && at <= |s.journal.value.files| + 1
    requires s.journal.value.previous.commitId == s.journal.value.candidate.commitId ==> s.journal.value.previous == s.journal.value.candidate
    ensures Accepting(UndoAt(s, at))
  {
    hide Undone, Holds, Fits, Backed, EntriesOk;
  }

  // Two homes that show it.

  const Old := Body(1, 0, {})
  const New := Body(1, 1, {})
  const Geo := Declaration(GeoIP, DAT, NoRules)

  function Version(commitId: nat, body: Body): Manifest {
    Manifest(2, None, Some(commitId), map["geoip" := ResourceState(DigestOf(body), "", "", "", Geo, 0)])
  }

  /** A new version of one file, accepted. */
  const Replacing := Image(
    map[GeoIPFile := New], Some(Version(1, New)),
    Some(Journal(Accepted, 0, 1, Version(0, Old), Version(1, New), false,
                 [Entry(GeoIPFile, Some(0), true, Some(DigestOf(Old)), Some(DigestOf(New)))])),
    map[0 := map[0 := Old]], map[], map[])

  /** The same files under a new commit ID, accepted. */
  const Renaming := Image(
    map[GeoIPFile := Old], Some(Version(1, Old)),
    Some(Journal(Accepted, 0, 1, Version(0, Old), Version(1, Old), true, [])),
    map[0 := map[]], map[], map[])

  /** Of the first home start-up refuses every intermediate state, of the second the one
      with the manifest back. */
  lemma UndoIsNotSafe()
    ensures Revocable(Replacing) && !Sound(UndoAt(Replacing, 1)) && !Sound(UndoAt(Replacing, 2))
    ensures Revocable(Renaming) && Sound(UndoAt(Renaming, 0)) && !Sound(UndoAt(Renaming, 1))
  {
    hide Sound, UndoAt, Revocable;
    ReplacingIsRevocable();
    RenamingIsRevocable();
    assert !Harmless(Replacing.journal.value.files[0]);
    UndoAfterAcceptance(Replacing, 1);
    UndoAfterAcceptance(Replacing, 2);
    UndoAfterAcceptance(Renaming, 0);
    UndoAfterAcceptance(Renaming, 1);
  }

  lemma ReplacingIsRevocable()
    ensures Revocable(Replacing)
  {
    var j := Replacing.journal.value;
    GeoManifest(0, Old);
    GeoManifest(1, New);
    assert ValidJournal(j) by {
      hide ValidManifest, Owners;
      assert ValidEntry(j, j.files[0]);
      assert Listed(j.files, GeoIPFile);
    }
    hide ValidManifest, Holds, ValidJournal;
    EntryUndo(j.files, Replacing.txns[0], 0);
    assert Restored(Replacing.files, Undo(j.files, Replacing.txns[0])) == map[GeoIPFile := Old];
  }

  lemma RenamingIsRevocable()
    ensures Revocable(Renaming)
  {
    hide ValidManifest, ValidJournal, Owners, DigestOf, Holds, EntriesOk, Undo, Restored, Fits, Version;
    GeoManifest(0, Old);
    GeoManifest(1, Old);
    RenamingIsValid();
    NothingToUndo(Renaming.files, [], Renaming.txns[0]);
    NothingToRestore(Renaming.files, Renaming.txns[0]);
  }

  lemma NothingToRestore(files: map<Name, Body>, dir: map<int, Body>)
    ensures EntriesOk(files, [], dir, 1) && DistinctEntries([])
  {
  }

  lemma RenamingIsValid()
    ensures ValidJournal(Renaming.journal.value)
  {
    GeoManifest(0, Old);
    GeoManifest(1, Old);
    hide ValidManifest, Owners;
  }

  lemma GeoManifest(commitId: nat, body: Body)
    requires body.size > 0
    ensures ValidManifest(Version(commitId, body)) && Owners(Version(commitId, body)) == map[GeoIPFile := "geoip"]
    ensures Holds(map[GeoIPFile := body], Version(commitId, body)) && Fits(map[GeoIPFile := body], Version(commitId, body), body.size)
    ensures Version(commitId, body).version == 2
  {
    var id := "geoip";
    assert |id| == 5 && id[0] == 'g' && id[1] == 'e' && id[2] == 'o' && id[3] == 'i' && id[4] == 'p';
    assert ResourceName(Version(commitId, body), id) == GeoIPFile;
  }
}
