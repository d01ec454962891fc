/** Moving a staged resource set under its stable names. */
module ResourcePromotion {
  import opened Common
  import opened ResourceManifest
  import opened ResourceImage
  import opened Storage
  import opened ResourceTransaction

  /** Where the staged copy of a resource lies. */
  datatype StagedFile = StagedFile(stage: nat, name: Name)

  /** Nothing happens in a dead process, and without faults an error that a live
      process sees is one the operation itself raised. */
  twostate predicate Lives(disk: Disk, ok: bool)
    reads disk
  {
    && (ok ==> !disk.halted)
    && (old(disk.halted) ==> !ok && disk.halted && disk.home == old(disk.home))
    && (!old(disk.halted) && disk.weather == Calm ==> !disk.halted)
    && disk.weather == old(disk.weather)
    && Counting(disk)
    && disk.nextId >= old(disk.nextId)
  }

  /** No directory was named by an identity that is still to be issued. */
  ghost predicate Named(disk: Disk)
    reads disk
  {
    && (forall d :: d in disk.home.txns ==> d < disk.nextId)
    && (forall d :: d in disk.home.stages ==> d < disk.nextId)
  }

  predicate StagedOk(stages: map<nat, map<Name, Body>>, file: StagedFile, state: ResourceState, maxBytes: int) {
    && file.stage in stages && file.name in stages[file.stage]
    && Readable(stages[file.stage][file.name], maxBytes)
    && Matches(stages[file.stage][file.name], state)
  }

  /** Reads back every file of a manifest and compares it with what was promised. */
  method VerifyManifestFiles(disk: Disk, m: Manifest, maxBytes: int) returns (ok: bool)
    requires ValidManifest(m)
    modifies disk`halted, disk`errors
    ensures Lives(disk, ok)
    ensures ok ==> Holds(disk.home.files, m) && Fits(disk.home.files, m, maxBytes)
    ensures !ok && Holds(disk.home.files, m) && Fits(disk.home.files, m, maxBytes) ==> disk.halted || disk.errors > old(disk.errors)
  {
    hide ValidManifest, ValidContent;
    if disk.halted {
      return false;
    }
    var ids := Enumerate(m.resources.Keys);
    for k := 0 to |ids|
      invariant !disk.halted && Counting(disk)
      invariant forall i :: 0 <= i < k ==> ids[i] in m.resources && FileHolds(disk.home.files, m, ids[i], maxBytes)
    {
      var id := ids[k];
      assert id in m.resources.Keys;
      var data := disk.ReadFile(ResourceName(m, id), maxBytes);
      if data == None || !Matches(data.value, m.resources[id]) {
        return false;
      }
    }
    assert forall id :: id in m.resources.Keys ==> id in ids;
    ok := true;
  }

  ghost predicate FileHolds(files: map<Name, Body>, m: Manifest, id: Id, maxBytes: int)
    requires id in m.resources
  {
    var n := ResourceName(m, id);
    n in files && Matches(files[n], m.resources[id]) && files[n].size <= maxBytes
  }

  /** A resource that is to take over a destination, and its staged copy. */
  datatype Arrival = Arrival(file: StagedFile, state: ResourceState)

  function ArrivalSHA(next: Option<Arrival>): Option<Digest> {
    if next.Some? then Some(next.value.state.sha256) else None
  }

  /** What one prepared entry says about its destination, and where its saved copy is. */
  ghost predicate Prepared(e: Entry, i: int, n: Name, prior: Option<Digest>, next: Option<Digest>,
                           files: map<Name, Body>, dir: map<int, Body>, maxBytes: int)
  {
    && e.name == n && e.hadPrevious == prior.Some? && e.previousSHA == prior && e.candidateSHA == next
    && (if prior.Some? then
          && e.backup == Some(i) && i in dir && n in files && dir[i] == files[n]
          && Readable(files[n], maxBytes) && DigestOf(files[n]) == prior.value
        else
          e.backup == None && n !in files)
  }

  /** What the disk has to offer for one destination to be prepared and moved. */
  ghost predicate Movable(s: Image, n: Name, prior: Option<Digest>, next: Option<Arrival>, maxBytes: int) {
    && (if prior.Some? then n in s.files && Readable(s.files[n], maxBytes) && DigestOf(s.files[n]) == prior.value
        else n !in s.files)
    && (next.Some? ==> StagedOk(s.stages, next.value.file, next.value.state, maxBytes))
  }

  /** Saves the present file of one destination and checks its staged successor. */
  method PrepareOne(disk: Disk, d: nat, index: nat, n: Name, prior: Option<Digest>, next: Option<Arrival>, maxBytes: int)
    returns (r: Option<Entry>)
    requires d in disk.home.txns && !disk.halted
    modifies disk`home, disk`halted, disk`errors
    ensures Lives(disk, r.Some?)
    ensures disk.home == old(disk.home).(txns := disk.home.txns)
    ensures d in disk.home.txns && disk.home.txns - {d} == old(disk.home).txns - {d}
    ensures disk.home.txns[d] - {index} == old(disk.home).txns[d] - {index}
    ensures r.Some? ==> Prepared(r.value, index, n, prior, ArrivalSHA(next), disk.home.files, disk.home.txns[d], maxBytes)
    ensures r.Some? && next.Some? ==> StagedOk(disk.home.stages, next.value.file, next.value.state, maxBytes)
    ensures r == None && old(Movable(disk.home, n, prior, next, maxBytes)) ==> disk.halted || disk.errors > old(disk.errors)
  {
    var e := Entry(n, None, prior.Some?, prior, ArrivalSHA(next));
    if prior.Some? {
      var body := disk.ReadFile(n, maxBytes);
      if body == None || DigestOf(body.value) != prior.value {
        return None;
      }
      e := e.(backup := Some(index));
      var saved := disk.WriteBackup(d, index, body.value);
      if !saved {
        return None;
      }
    } else {
      var fate := disk.Attempt();
      if fate != Done || n in disk.home.files {
        return None;
      }
    }
    if next.Some? {
      var body := disk.ReadStaged(next.value.file.stage, next.value.file.name, maxBytes);
      if body == None || !Matches(body.value, next.value.state) {
        return None;
      }
    }
    r := Some(e);
  }

  ghost predicate AllPrepared(entries: seq<Entry>, ordered: seq<Name>, prior: Name -> Option<Digest>, next: Name -> Option<Arrival>,
                              s: Image, d: nat, maxBytes: int)
  {
    && |entries| <= |ordered| && d in s.txns
    && (forall i :: 0 <= i < |entries| ==>
          && Prepared(entries[i], i, ordered[i], prior(ordered[i]), ArrivalSHA(next(ordered[i])), s.files, s.txns[d], maxBytes)
          && ArrivalOk(s, next(ordered[i]), maxBytes))
  }

  ghost predicate ArrivalOk(s: Image, next: Option<Arrival>, maxBytes: int) {
    next.Some? ==> StagedOk(s.stages, next.value.file, next.value.state, maxBytes)
  }

  /** Later backups do not disturb earlier entries. */
  lemma PreparedStays(entries: seq<Entry>, ordered: seq<Name>, prior: Name -> Option<Digest>, next: Name -> Option<Arrival>,
                      s: Image, s': Image, d: nat, maxBytes: int)
    requires AllPrepared(entries, ordered, prior, next, s, d, maxBytes)
    requires s' == s.(txns := s'.txns) && d in s'.txns && s'.txns[d] - {|entries|} == s.txns[d] - {|entries|}
    ensures AllPrepared(entries, ordered, prior, next, s', d, maxBytes)
  {
    forall i | 0 <= i < |entries|
      ensures Prepared(entries[i], i, ordered[i], prior(ordered[i]), ArrivalSHA(next(ordered[i])), s'.files, s'.txns[d], maxBytes)
    {
      assert Prepared(entries[i], i, ordered[i], prior(ordered[i]), ArrivalSHA(next(ordered[i])), s.files, s.txns[d], maxBytes);
      assert i in s'.txns[d] <==> i in s'.txns[d] - {|entries|};
      assert i in s.txns[d] <==> i in s.txns[d] - {|entries|};
    }
  }

  /** Prepares every destination in turn, filling the private directory. */
  method PrepareEntries(disk: Disk, d: nat, ordered: seq<Name>, prior: Name -> Option<Digest>, next: Name -> Option<Arrival>, maxBytes: int)
    returns (r: Option<seq<Entry>>)
    requires d in disk.home.txns && !disk.halted
    modifies disk`home, disk`halted, disk`errors
    ensures Lives(disk, r.Some?)
    ensures disk.home == old(disk.home).(txns := disk.home.txns)
    ensures d in disk.home.txns && disk.home.txns - {d} == old(disk.home).txns - {d}
    ensures r.Some? ==> |r.value| == |ordered| && AllPrepared(r.value, ordered, prior, next, disk.home, d, maxBytes)
    ensures r == None && (forall n :: n in ordered ==> Movable(old(disk.home), n, prior(n), next(n), maxBytes)) ==>
      disk.halted || disk.errors > old(disk.errors)
  {
    var entries: seq<Entry> := [];
    for k := 0 to |ordered|
      invariant !disk.halted && Counting(disk) && |entries| == k
      invariant disk.home == old(disk.home).(txns := disk.home.txns)
      invariant d in disk.home.txns && disk.home.txns - {d} == old(disk.home).txns - {d}
      invariant AllPrepared(entries, ordered, prior, next, disk.home, d, maxBytes)
    {
      ghost var before := disk.home;
      var e := PrepareOne(disk, d, k, ordered[k], prior(ordered[k]), next(ordered[k]), maxBytes);
      if e == None {
        return None;
      }
      PreparedStays(entries, ordered, prior, next, before, disk.home, d, maxBytes);
      entries := entries + [e.value];
    }
    r := Some(entries);
  }

  /** What moving one destination leaves there. */
  ghost function Moved(s: Image, next: Option<Arrival>, maxBytes: int): Option<Body>
    requires ArrivalOk(s, next, maxBytes)
  {
    if next.Some? then Some(s.stages[next.value.file.stage][next.value.file.name]) else None
  }

  /** Brings the staged copy in, or removes a file the candidate no longer has. */
  method MoveOne(disk: Disk, e: Entry, next: Option<Arrival>, maxBytes: int) returns (ok: bool)
    requires !disk.halted && ArrivalOk(disk.home, next, maxBytes)
    modifies disk`home, disk`halted, disk`errors
    ensures Lives(disk, ok)
    ensures !ok ==> disk.halted || disk.errors > old(disk.errors)
    ensures disk.home == old(disk.home).(files := disk.home.files)
    ensures disk.home.files == old(disk.home.files) || disk.home.files == Put(old(disk.home.files), e.name, Moved(disk.home, next, maxBytes))
    ensures ok && (e.hadPrevious || next.Some?) ==> disk.home.files == Put(old(disk.home.files), e.name, Moved(disk.home, next, maxBytes))
  {
    if next.Some? {
      var body := disk.ReadStaged(next.value.file.stage, next.value.file.name, maxBytes);
      if body == None {
        return false;
      }
      ok := disk.WriteFile(e.name, body.value);
    } else if e.hadPrevious {
      ok := disk.RemoveFile(e.name);
    } else {
      ok := true;
    }
  }

  ghost predicate Arrived(files: map<Name, Body>, n: Name, next: Option<Arrival>, maxBytes: int) {
    if next.Some? then n in files && Matches(files[n], next.value.state) && files[n].size <= maxBytes else n !in files
  }

  ghost predicate Arriving(s: Image, j: Journal, next: Name -> Option<Arrival>) {
    forall i :: 0 <= i < |j.files| ==>
      ArrivalOk(s, next(j.files[i].name), j.maxBytes) && j.files[i].candidateSHA == ArrivalSHA(next(j.files[i].name))
  }

  /** The open journal can still be undone to the same files, and the first `k`
      destinations hold what they should. */
  ghost predicate Moving(s: Image, j: Journal, next: Name -> Option<Arrival>, target: map<Name, Body>, k: nat)
    requires DistinctEntries(j.files) && j.dir in s.txns && k <= |j.files|
  {
    && EntriesOk(s.files, j.files, s.txns[j.dir], j.maxBytes)
    && Restored(s.files, Undo(j.files, s.txns[j.dir])) == target
    && (forall i :: 0 <= i < k ==> Arrived(s.files, j.files[i].name, next(j.files[i].name), j.maxBytes))
  }

  lemma MoveStep(s: Image, j: Journal, next: Name -> Option<Arrival>, target: map<Name, Body>, k: nat)
    requires DistinctEntries(j.files) && j.dir in s.txns && k < |j.files| && Moving(s, j, next, target, k) && Arriving(s, j, next)
    ensures Moving(s.(files := Put(s.files, j.files[k].name, Moved(s, next(j.files[k].name), j.maxBytes))), j, next, target, k + 1)
    ensures next(j.files[k].name) == None && !j.files[k].hadPrevious ==> Moving(s, j, next, target, k + 1)
  {
    hide EntriesOk, Restored, Undo, DistinctEntries;
    var n, dir := j.files[k].name, s.txns[j.dir];
    var files := Put(s.files, n, Moved(s, next(n), j.maxBytes));
    if next(n).Some? {
      StoreKeepsEntries(s.files, j.files, dir, j.maxBytes, k, Moved(s, next(n), j.maxBytes).value);
    } else {
      RemoveKeepsEntries(s.files, j.files, dir, j.maxBytes, k);
    }
    ArrivedStays(s.files, files, j.files, next, j.maxBytes, k);
    if next(n) == None && !j.files[k].hadPrevious {
      assert n !in s.files by {
        assert j.files[k] in j.files;
        EntryIsOk(s.files, j.files, dir, j.maxBytes, k);
      }
    }
  }

  lemma EntryIsOk(files: map<Name, Body>, entries: seq<Entry>, dir: map<int, Body>, maxBytes: int, k: nat)
    requires EntriesOk(files, entries, dir, maxBytes) && k < |entries|
    ensures BackupOk(entries[k], dir, maxBytes) && NewFileOk(entries[k], files, maxBytes)
  {
  }

  lemma ArrivedStays(before: map<Name, Body>, after: map<Name, Body>, entries: seq<Entry>, next: Name -> Option<Arrival>, maxBytes: int, k: nat)
    requires DistinctEntries(entries) && k < |entries| && after - {entries[k].name} == before - {entries[k].name}
    requires forall i :: 0 <= i < k ==> Arrived(before, entries[i].name, next(entries[i].name), maxBytes)
    ensures forall i :: 0 <= i < k ==> Arrived(after, entries[i].name, next(entries[i].name), maxBytes)
  {
    forall i | 0 <= i < k ensures Arrived(after, entries[i].name, next(entries[i].name), maxBytes) {
      var n := entries[i].name;
      assert n in after <==> n in after - {entries[k].name};
      assert n in before <==> n in before - {entries[k].name};
    }
  }

  /** Moves every destination of the journal. Whatever happens on the way, undoing
      the journal still leads back to the same files. */
  method MoveFiles(disk: Disk, j: Journal, next: Name -> Option<Arrival>, ghost target: map<Name, Body>) returns (ok: bool)
    requires !disk.halted && DistinctEntries(j.files) && j.dir in disk.home.txns
    requires Moving(disk.home, j, next, target, 0) && Arriving(disk.home, j, next)
    modifies disk`home, disk`halted, disk`errors
    ensures Lives(disk, ok)
    ensures !ok ==> disk.halted || disk.errors > old(disk.errors)
    ensures disk.home == old(disk.home).(files := disk.home.files)
    ensures Moving(disk.home, j, next, target, if ok then |j.files| else 0)
  {
    for k := 0 to |j.files|
      invariant !disk.halted && Counting(disk)
      invariant disk.home == old(disk.home).(files := disk.home.files)
      invariant Moving(disk.home, j, next, target, k)
    {
      MoveStep(disk.home, j, next, target, k);
      ok := MoveOne(disk, j.files[k], next(j.files[k].name), j.maxBytes);
      if !ok {
        return;
      }
    }
    ok := true;
  }

  function Priors(m: Manifest): Name -> Option<Digest> {
    n => if DistinctNames(m) then PriorSHA(m, n) else None
  }

  function Arrivals(candidate: Manifest, staged: map<Id, StagedFile>): Name -> Option<Arrival> {
    n => if DistinctNames(candidate) && n in Owners(candidate) && Owners(candidate)[n] in staged && Owners(candidate)[n] in candidate.resources
         then Some(Arrival(staged[Owners(candidate)[n]], candidate.resources[Owners(candidate)[n]])) else None
  }

  lemma PreparedEntries(entries: seq<Entry>, ordered: seq<Name>, prior: Name -> Option<Digest>, next: Name -> Option<Arrival>,
                        s: Image, d: nat, maxBytes: int)
    requires Distinct(ordered) && |entries| == |ordered| && AllPrepared(entries, ordered, prior, next, s, d, maxBytes)
    ensures DistinctEntries(entries) && EntriesOk(s.files, entries, s.txns[d], maxBytes)
    ensures Restored(s.files, Undo(entries, s.txns[d])) == s.files
  {
    forall i, k | 0 <= i < k < |entries|
      ensures entries[i].name != entries[k].name && (entries[i].hadPrevious && entries[k].hadPrevious ==> entries[i].backup != entries[k].backup)
    {
      assert Prepared(entries[i], i, ordered[i], prior(ordered[i]), ArrivalSHA(next(ordered[i])), s.files, s.txns[d], maxBytes);
      assert Prepared(entries[k], k, ordered[k], prior(ordered[k]), ArrivalSHA(next(ordered[k])), s.files, s.txns[d], maxBytes);
    }
    forall i | 0 <= i < |entries|
      ensures Settled(s.files, Undo(entries, s.txns[d]), entries[i].name)
    {
      EntryUndo(entries, s.txns[d], i);
      assert Prepared(entries[i], i, ordered[i], prior(ordered[i]), ArrivalSHA(next(ordered[i])), s.files, s.txns[d], maxBytes);
    }
    AllSettled(s.files, entries, s.txns[d]);
  }

  /** Every journal a promotion writes is one that recovery accepts. */
  lemma PreparedJournal(j: Journal, ordered: seq<Name>, staged: map<Id, StagedFile>, s: Image)
    requires ValidManifest(j.previous) && ValidManifest(j.candidate) && j.candidate.version == 2
    requires staged.Keys == j.candidate.resources.Keys && !j.metadataOnly && j.maxBytes > 0
    requires Distinct(ordered) && |j.files| == |ordered| <= MAX_STATE_BYTES
    requires forall n :: n in ordered <==> n in JournalNames(j)
    requires AllPrepared(j.files, ordered, Priors(j.previous), Arrivals(j.candidate, staged), s, j.dir, j.maxBytes)
    ensures ValidJournal(j) && Arriving(s, j, Arrivals(j.candidate, staged))
  {
    var prior, next := Priors(j.previous), Arrivals(j.candidate, staged);
    PreparedEntries(j.files, ordered, prior, next, s, j.dir, j.maxBytes);
    forall i | 0 <= i < |j.files| ensures ValidEntry(j, j.files[i]) && j.files[i].name == ordered[i] {
      assert Prepared(j.files[i], i, ordered[i], prior(ordered[i]), ArrivalSHA(next(ordered[i])), s.files, s.txns[j.dir], j.maxBytes);
      assert ordered[i] in JournalNames(j);
    }
    forall n | n in JournalNames(j) ensures Listed(j.files, n) {
      assert n in ordered;
    }
  }

  /** Every resource of the manifest is going to arrive. */
  ghost predicate Covers(next: Name -> Option<Arrival>, m: Manifest) {
    forall id :: id in m.resources ==>
      (next(ResourceName(m, id)).Some? && next(ResourceName(m, id)).value.state == m.resources[id])
  }

  /** An error after the journal was written: undo it at once. If that fails too the open
      journal stays, at a counted step of the undo, for the next start-up. */
  method FailPromotion(disk: Disk) returns (ok: bool, ghost at: nat)
    requires Sound(disk.home) && InPromotion(disk.home)
    modifies disk`home, disk`halted, disk`errors
    ensures Keeps(disk) && Ends(disk, ok)
    ensures ok ==> disk.home.journal == None && old(disk.home.journal.value.dir) !in disk.home.txns
    ensures disk.home.journal == None ==> disk.home.files == old(Target(disk.home)) && disk.home.manifest == Some(old(disk.home.journal.value.previous))
    ensures disk.home.journal.Some? ==> at <= |old(disk.home.journal.value.files)| + 1 && disk.home == UndoAt(old(disk.home), at)
    ensures disk.home.stages == old(disk.home.stages) && disk.home.generations == old(disk.home.generations)
    ensures disk.home.txns.Keys <= old(disk.home.txns.Keys)
    ensures disk.home.journal == None || disk.home.journal == old(disk.home.journal)
  {
    hide Sound, Committed, Undone;
    ok, at := false, 0;
    SoundIsSensible(disk.home);
    OpenFacts(disk.home, disk.home.journal.value);
    NothingUndone(disk.home);
    var r := ReadTransaction(disk);
    if r.Found? {
      ok, at := RestoreTransaction(disk, r.journal);
      DropKeys(old(disk.home.txns), disk.home.txns, r.journal.dir);
    }
  }

  lemma NothingUndone(s: Image)
    requires s.journal.Some? && s.journal.value.dir in s.txns
    ensures UndoAt(s, 0) == s
  {
  }

  /** The part of a promotion that runs with the journal open. */
  method CarryOut(disk: Disk, j: Journal, next: Name -> Option<Arrival>) returns (ok: bool)
    requires !disk.halted && Sound(disk.home) && disk.home.journal == Some(j) && j.phase == Promoting && !j.metadataOnly
    requires Moving(disk.home, j, next, Target(disk.home), 0) && Arriving(disk.home, j, next)
    requires Covers(next, j.candidate)
    modifies disk`home, disk`halted, disk`errors
    ensures Keeps(disk) && Lives(disk, ok)
    ensures !ok ==> disk.halted || disk.errors > old(disk.errors)
    ensures ok ==> Promoted(disk.home) && disk.home.journal == Some(j)
    ensures disk.home.journal == None || disk.home.journal == Some(j)
    ensures disk.home.stages == old(disk.home.stages) && disk.home.generations == old(disk.home.generations)
    ensures disk.home.txns.Keys <= old(disk.home.txns.Keys)
    ensures !ok && disk.home.journal.Some? ==> disk.halted || disk.errors >= old(disk.errors) + 2
  {
    hide Sound, Committed, Moving, Arriving, Covers, Target, Promoted, UndoAt;
    ok := MoveAll(disk, j, next);
    if !ok {
      var _, _ := FailPromotion(disk);
    }
  }

  /** Moves the files, verifies them and writes the manifest; stops at the first failure. */
  method MoveAll(disk: Disk, j: Journal, next: Name -> Option<Arrival>) returns (ok: bool)
    requires !disk.halted && Sound(disk.home) && disk.home.journal == Some(j) && j.phase == Promoting && !j.metadataOnly
    requires Moving(disk.home, j, next, Target(disk.home), 0) && Arriving(disk.home, j, next)
    requires Covers(next, j.candidate)
    modifies disk`home, disk`halted, disk`errors
    ensures Keeps(disk) && Lives(disk, ok)
    ensures !ok ==> disk.halted || disk.errors > old(disk.errors)
    ensures ok ==> Promoted(disk.home)
    ensures disk.home == old(disk.home).(files := disk.home.files, manifest := disk.home.manifest)
  {
    hide ValidJournal, ValidManifest, Backed, Sound, EntriesOk, Restored, Undo, Cleared, DistinctEntries, Holds, Fits, AcceptedSound, Promoted;
    OpenFacts(disk.home, j);
    ghost var h0 := disk.home;
    ok := MoveFiles(disk, j, next, Target(disk.home));
    FilesStep(h0, disk.home.files);
    if !ok {
      return;
    }
    ghost var h1 := disk.home;
    AllArrived(h1, j, next);
    ok := VerifyManifestFiles(disk, j.candidate, j.maxBytes);
    if ok {
      ManifestStep(h1, j.candidate);
      AllPromoted(h1, j);
      ok := disk.WriteManifest(j.candidate);
    }
  }

  lemma OpenFacts(s: Image, j: Journal)
    requires Sound(s) && s.journal == Some(j) && j.phase == Promoting
    ensures ValidJournal(j) && ValidManifest(j.candidate) && DistinctEntries(j.files) && Undoable(s, j)
  {
  }

  lemma AllPromoted(s: Image, j: Journal)
    requires s.journal == Some(j) && j.phase == Promoting && Holds(s.files, j.candidate) && Fits(s.files, j.candidate, j.maxBytes) && Cleared(s.files, j)
    ensures Promoted(s.(manifest := Some(j.candidate)))
  {
  }

  lemma AllArrived(s: Image, j: Journal, next: Name -> Option<Arrival>)
    requires ValidJournal(j) && DistinctEntries(j.files) && j.dir in s.txns && !j.metadataOnly
    requires forall i :: 0 <= i < |j.files| ==> Arrived(s.files, j.files[i].name, next(j.files[i].name), j.maxBytes)
    requires Covers(next, j.candidate) && Arriving(s, j, next)
    ensures Holds(s.files, j.candidate) && Fits(s.files, j.candidate, j.maxBytes) && Cleared(s.files, j)
  {
    forall id | id in j.candidate.resources
      ensures Arrived(s.files, ResourceName(j.candidate, id), next(ResourceName(j.candidate, id)), j.maxBytes)
    {
      var n := ResourceName(j.candidate, id);
      assert n in JournalNames(j);
      assert Listed(j.files, n);
    }
  }

  /** Validators longer than the limit were dropped when the state was made. */
  predicate Bounded(m: Manifest) {
    forall id :: id in m.resources ==> |m.resources[id].etag| <= 4096 && |m.resources[id].lastModified| <= 4096
  }

  /** The checks on the manifests and the staged set that need no disk. */
  predicate WellFormedPromotion(candidate: Manifest, staged: map<Id, StagedFile>) {
    && candidate.version == 2 && candidate.commitId.Some?
    && (forall id :: id in candidate.resources ==> ValidStableID(id) && ValidDeclaration(candidate.resources[id].decl))
    && DistinctNames(candidate)
    && staged.Keys == candidate.resources.Keys
  }

  /** What the disk has to offer for a promotion to go through. */
  ghost predicate Promotable(s: Image, candidate: Manifest, staged: map<Id, StagedFile>, maxBytes: int) {
    && WellFormedPromotion(candidate, staged) && DistinctNames(Loaded(s))
    && s.journal == None
    && |Owners(Loaded(s)).Keys + Owners(candidate).Keys| <= MAX_STATE_BYTES
    && forall n :: n in Owners(Loaded(s)).Keys + Owners(candidate).Keys ==>
         Movable(s, n, Priors(Loaded(s))(n), Arrivals(candidate, staged)(n), maxBytes)
  }

  lemma OpenJournal(s: Image, j: Journal, ordered: seq<Name>, staged: map<Id, StagedFile>)
    requires Sound(s) && s.journal == None && j.previous == Loaded(s) && j.phase == Promoting
    requires ValidManifest(j.candidate) && j.candidate.version == 2
    requires staged.Keys == j.candidate.resources.Keys && !j.metadataOnly && j.maxBytes > 0
    requires Distinct(ordered) && |j.files| == |ordered| <= MAX_STATE_BYTES
    requires forall n :: n in ordered <==> n in JournalNames(j)
    requires AllPrepared(j.files, ordered, Priors(j.previous), Arrivals(j.candidate, staged), s, j.dir, j.maxBytes)
    ensures Sound(s.(journal := Some(j))) && Committed(s.(journal := Some(j))) == Committed(s)
    ensures Target(s.(journal := Some(j))) == s.files
    ensures Moving(s.(journal := Some(j)), j, Arrivals(j.candidate, staged), s.files, 0)
    ensures Arriving(s.(journal := Some(j)), j, Arrivals(j.candidate, staged))
  {
    PreparedJournal(j, ordered, staged, s);
    PreparedEntries(j.files, ordered, Priors(j.previous), Arrivals(j.candidate, staged), s, j.dir, j.maxBytes);
  }

  lemma ArrivalsCover(candidate: Manifest, staged: map<Id, StagedFile>)
    requires DistinctNames(candidate) && staged.Keys == candidate.resources.Keys
    ensures Covers(Arrivals(candidate, staged), candidate)
  {
    forall id | id in candidate.resources
      ensures ResourceName(candidate, id) in Owners(candidate) && Owners(candidate)[ResourceName(candidate, id)] == id
    {
    }
  }

  /** Every private directory of `before` is still as it was. */
  ghost predicate Untouched<T>(before: map<nat, T>, after: map<nat, T>) {
    forall d :: d in before ==> d in after && after[d] == before[d]
  }

  /** A private directory with the saved files of `ordered`, and their entries. */
  datatype Preparation = Preparation(dir: nat, entries: seq<Entry>, ordered: seq<Name>)

  ghost predicate Complete(p: Preparation, names: set<Name>) {
    && Distinct(p.ordered) && |p.entries| == |p.ordered| == |names|
    && forall n :: n in p.ordered <==> n in names
  }

  /** Saves the previous files and checks the staged ones in a private directory. */
  method Prepare(disk: Disk, names: set<Name>, prior: Name -> Option<Digest>, next: Name -> Option<Arrival>, maxBytes: int)
    returns (r: Option<Preparation>)
    requires Named(disk) && !disk.halted
    modifies disk`home, disk`halted, disk`errors, disk`nextId
    ensures Lives(disk, r.Some?) && Named(disk)
    ensures disk.home == old(disk.home).(txns := disk.home.txns) && Untouched(old(disk.home.txns), disk.home.txns)
    ensures r.Some? ==>
      && disk.home.journal == None && r.value.dir !in old(disk.home.txns) && Complete(r.value, names)
      && AllPrepared(r.value.entries, r.value.ordered, prior, next, disk.home, r.value.dir, maxBytes)
    ensures r == None && disk.home.journal == None && (forall n :: n in names ==> Movable(old(disk.home), n, prior(n), next(n), maxBytes)) ==>
      disk.halted || disk.errors > old(disk.errors)
    ensures r == None && disk.errors == old(disk.errors) ==> disk.halted || disk.home.txns.Keys == old(disk.home.txns.Keys)
  {
    ghost var h0 := disk.home;
    var d := disk.MakeTxn();
    if d == None {
      return None;
    }
    ghost var h1 := disk.home;
    var ordered := Enumerate(names);
    var entries := PrepareEntries(disk, d.value, ordered, prior, next, maxBytes);
    OthersUntouched(h0.txns, h1.txns, disk.home.txns, d.value);
    if entries == None || disk.home.journal.Some? {
      ghost var h2 := disk.home;
      Discard(disk, d.value);
      OthersUntouched(h0.txns, h2.txns, disk.home.txns, d.value);
      return None;
    }
    r := Some(Preparation(d.value, entries.value, ordered));
  }

  lemma OthersUntouched<T>(first: map<nat, T>, before: map<nat, T>, after: map<nat, T>, d: nat)
    requires Untouched(first, before) && d !in first && after - {d} == before - {d}
    ensures Untouched(first, after)
    ensures after.Keys <= before.Keys + {d}
  {
    forall k | k in after ensures k in before || k == d {
      assert k == d || k in after - {d};
    }
    forall k | k in first ensures k in after && after[k] == first[k] {
      assert k in before - {d};
      assert k in after - {d};
    }
  }

  /** Promotes a staged resource set. On success every file and the manifest are the
      candidate's, the journal is open and a start-up would still go back; on an
      error, or in a crash, a start-up exposes what it would have exposed before. */
  method Promote(disk: Disk, maxBytes: int, previous: Manifest, candidate: Manifest, staged: map<Id, StagedFile>)
    returns (dir: Option<nat>)
    requires Sound(disk.home) && Named(disk) && maxBytes > 0
    requires previous == Loaded(disk.home) && candidate.generation == None && Bounded(candidate)
    modifies disk`home, disk`halted, disk`errors, disk`nextId
    ensures Keeps(disk) && Lives(disk, dir.Some?) && Named(disk)
    ensures dir.Some? ==> Promoted(disk.home) && Describes(disk.home.journal.value, dir.value, maxBytes, previous, candidate)
    ensures disk.home.journal.Some? && disk.home.journal != old(disk.home.journal) ==> Links(disk.home.journal.value, previous, candidate)
    ensures disk.home.stages == old(disk.home.stages) && disk.home.generations == old(disk.home.generations)
    ensures dir == None && old(Promotable(disk.home, candidate, staged, maxBytes)) ==> disk.halted || disk.errors > old(disk.errors)
    ensures dir == None && disk.home.journal.Some? ==> disk.halted || disk.errors >= old(disk.errors) + 2 || old(disk.home.journal.Some?)
  {
    if !WellFormedPromotion(candidate, staged) || disk.halted {
      return None;
    }
    ghost var h0 := disk.home;
    var p := Prepare(disk, Owners(previous).Keys + Owners(candidate).Keys, Priors(previous), Arrivals(candidate, staged), maxBytes);
    ScratchStep(h0, disk.home);
    if p == None {
      return None;
    }
    var j := Journal(Promoting, p.value.dir, maxBytes, previous, candidate, false, p.value.entries);
    dir := PromotePrepared(disk, j, p.value.ordered, staged);
  }

  /** From the prepared directory on: write the journal, then carry it out. */
  method PromotePrepared(disk: Disk, j: Journal, ordered: seq<Name>, staged: map<Id, StagedFile>) returns (dir: Option<nat>)
    requires Sound(disk.home) && Named(disk) && !disk.halted && disk.home.journal == None && j.previous == Loaded(disk.home)
    requires j.phase == Promoting && !j.metadataOnly && j.maxBytes > 0
    requires ValidManifest(j.candidate) && DistinctNames(j.candidate) && j.candidate.version == 2 && staged.Keys == j.candidate.resources.Keys
    requires Distinct(ordered) && |j.files| == |ordered| && forall n :: n in ordered <==> n in JournalNames(j)
    requires AllPrepared(j.files, ordered, Priors(j.previous), Arrivals(j.candidate, staged), disk.home, j.dir, j.maxBytes)
    modifies disk`home, disk`halted, disk`errors, disk`nextId
    ensures Keeps(disk) && Lives(disk, dir.Some?) && Named(disk)
    ensures dir.Some? ==> Promoted(disk.home) && disk.home.journal == Some(j) && dir.value == j.dir
    ensures disk.home.journal == None || disk.home.journal == Some(j)
    ensures disk.home.stages == old(disk.home.stages) && disk.home.generations == old(disk.home.generations)
    ensures dir == None && (|j.files| <= MAX_STATE_BYTES || disk.home.journal.Some?) ==> disk.halted || disk.errors > old(disk.errors)
    ensures dir == None && disk.home.journal.Some? ==> disk.halted || disk.errors >= old(disk.errors) + 2
  {
    hide Sound, Committed, ValidJournal, ValidManifest, DistinctNames, Owners, JournalNames, Priors, Arrivals;
    hide AllPrepared, Moving, Arriving, Covers, Target, AcceptedSound, Distinct;
    ghost var h0 := disk.home;
    if |ordered| <= MAX_STATE_BYTES {
      OpenJournal(h0, j, ordered, staged);
    }
    var ok := disk.WriteJournal(j);
    if ok {
      ArrivalsCover(j.candidate, staged);
      ok := CarryOut(disk, j, Arrivals(j.candidate, staged));
    } else {
      GiveUp(disk, j.dir);
    }
    dir := if ok then Some(j.dir) else None;
  }

  /** The journal was not written, or its writer only believes so. */
  method GiveUp(disk: Disk, dir: nat)
    requires Sound(disk.home) && Named(disk) && (disk.home.journal.Some? ==> InPromotion(disk.home))
    modifies disk`home, disk`halted, disk`errors
    ensures Keeps(disk) && Lives(disk, !disk.halted) && Named(disk)
    ensures disk.home.journal == None || disk.home.journal == old(disk.home.journal)
    ensures disk.home.stages == old(disk.home.stages) && disk.home.generations == old(disk.home.generations)
    ensures disk.home.journal.Some? ==> disk.halted || disk.errors > old(disk.errors)
    ensures old(disk.home.journal) == None ==> disk.halted || disk.errors > old(disk.errors) || dir !in disk.home.txns
  {
    hide Sound, Committed, UndoAt, Target;
    if disk.home.journal.Some? {
      var _, _ := FailPromotion(disk);
    } else {
      DropTxn(disk, dir);
    }
  }

  ghost predicate Links(j: Journal, previous: Manifest, candidate: Manifest) {
    j.previous == previous && j.candidate == candidate
  }

  ghost predicate Describes(j: Journal, dir: nat, maxBytes: int, previous: Manifest, candidate: Manifest) {
    j.dir == dir && j.maxBytes == maxBytes && j.previous == previous && j.candidate == candidate
  }

  /** Drops a private directory that no journal refers to; failures leave it for
      the next start-up. */
  method Discard(disk: Disk, d: nat)
    modifies disk`home, disk`halted, disk`errors
    ensures Lives(disk, !disk.halted)
    ensures disk.home == old(disk.home).(txns := disk.home.txns)
    ensures disk.home.txns - {d} == old(disk.home).txns - {d}
    ensures d in disk.home.txns ==> d in old(disk.home).txns
    ensures disk.halted || disk.errors > old(disk.errors) || d !in disk.home.txns
  {
    if d in disk.home.txns {
      var _ := disk.RemoveTxn(d);
    }
  }

  /** Commits a manifest that differs only in fetch metadata: no file moves. The
      caller has made sure that no journal is open. */
  method PromoteMetadata(disk: Disk, maxBytes: int, previous: Manifest, candidate: Manifest) returns (dir: Option<nat>)
    requires Sound(disk.home) && Named(disk) && disk.home.journal == None && previous == Loaded(disk.home)
    modifies disk`home, disk`halted, disk`errors, disk`nextId
    ensures Keeps(disk) && Lives(disk, dir.Some?) && Named(disk)
    ensures dir.Some? ==> Promoted(disk.home) && Describes(disk.home.journal.value, dir.value, maxBytes, previous, candidate)
    ensures disk.home.journal.Some? && disk.home.journal != old(disk.home.journal) ==> Links(disk.home.journal.value, previous, candidate)
    ensures disk.home.stages == old(disk.home.stages) && disk.home.generations == old(disk.home.generations)
    ensures dir == None && disk.home.journal.Some? ==> disk.halted || disk.errors > old(disk.errors)
    ensures dir == None && disk.home.journal.Some? && disk.errors == old(disk.errors) + 1 ==> disk.halted || Loaded(disk.home) == previous
    ensures dir == None && Fits(disk.home.files, previous, maxBytes) && ValidJournal(Journal(Promoting, 0, maxBytes, previous, candidate, true, [])) ==>
      disk.halted || disk.errors > old(disk.errors)
  {
    hide ValidEntry, Owners, Holds, LegacyBacked, NamesFree, EntriesOk, Undo, Restored, DistinctEntries, Fits;
    var ok := VerifyManifestFiles(disk, previous, maxBytes);
    if !ok {
      return None;
    }
    var d := NewTxn(disk);
    if d == None {
      return None;
    }
    var j := Journal(Promoting, d.value, maxBytes, previous, candidate, true, []);
    ok := WriteMetadata(disk, j);
    dir := if ok then d else None;
  }

  method NewTxn(disk: Disk) returns (d: Option<nat>)
    requires Sound(disk.home) && Named(disk) && disk.home.journal == None
    modifies disk`home, disk`halted, disk`errors, disk`nextId
    ensures Keeps(disk) && Lives(disk, d.Some?) && Named(disk)
    ensures d.Some? ==> d.value in disk.home.txns
    ensures d == None ==> disk.halted || disk.errors > old(disk.errors)
    ensures disk.home == old(disk.home).(txns := disk.home.txns)
  {
    ghost var h0 := disk.home;
    d := disk.MakeTxn();
    ScratchStep(h0, disk.home);
  }

  method DropTxn(disk: Disk, d: nat)
    requires Sound(disk.home) && Named(disk) && disk.home.journal == None
    modifies disk`home, disk`halted, disk`errors
    ensures Keeps(disk) && Lives(disk, !disk.halted) && Named(disk)
    ensures disk.home == old(disk.home).(txns := disk.home.txns)
    ensures disk.halted || disk.errors > old(disk.errors) || d !in disk.home.txns
  {
    ghost var h0 := disk.home;
    Discard(disk, d);
    DropKeys(h0.txns, disk.home.txns, d);
    ScratchStep(h0, disk.home);
  }

  lemma DirIsFree(j: Journal)
    requires j.metadataOnly
    ensures ValidJournal(j.(dir := 0)) ==> ValidJournal(j)
  {
    if ValidManifest(j.previous) && ValidManifest(j.candidate) {
      assert ValidMetadataOnly(j.(dir := 0)) == ValidMetadataOnly(j);
    }
  }

  /** Journal and manifest of a commit that moves no file. A journal whose own write reported
      an error although it took effect is not undone; after any other error a journal is left
      only if the undo failed as well. */
  method WriteMetadata(disk: Disk, j: Journal) returns (ok: bool)
    requires Sound(disk.home) && Named(disk) && disk.home.journal == None && j.previous == Loaded(disk.home) && !disk.halted
    requires j.phase == Promoting && j.metadataOnly && j.files == [] && j.dir in disk.home.txns
    requires Fits(disk.home.files, j.previous, j.maxBytes)
    modifies disk`home, disk`halted, disk`errors
    ensures Keeps(disk) && Lives(disk, ok) && Named(disk)
    ensures ok ==> Promoted(disk.home) && disk.home.journal == Some(j)
    ensures disk.home.journal == None || disk.home.journal == Some(j)
    ensures disk.home.stages == old(disk.home.stages) && disk.home.generations == old(disk.home.generations)
    ensures !ok && ValidJournal(j.(dir := 0)) ==> disk.halted || disk.errors > old(disk.errors)
    ensures !ok && disk.errors == old(disk.errors) ==> disk.halted || j.dir !in disk.home.txns
    ensures !ok && disk.home.journal.Some? ==> disk.halted || LeftByMetadata(disk, j)
  {
    hide Sound, Committed, Fits, ValidJournal, Promoted;
    var valid := ValidateJournal(j);
    if !valid {
      DirIsFree(j);
      DropTxn(disk, j.dir);
      return false;
    }
    ok := WriteValidMetadata(disk, j);
  }

  /** How a metadata commit can leave its journal in a live process. */
  twostate predicate LeftByMetadata(disk: Disk, j: Journal)
    reads disk
  {
    && disk.errors > old(disk.errors)
    && (disk.errors == old(disk.errors) + 1 ==> disk.home == old(disk.home).(journal := Some(j)))
  }

  method WriteValidMetadata(disk: Disk, j: Journal) returns (ok: bool)
    requires Sound(disk.home) && Named(disk) && disk.home.journal == None && j.previous == Loaded(disk.home) && !disk.halted
    requires j.phase == Promoting && j.metadataOnly && j.files == [] && j.dir in disk.home.txns && ValidJournal(j)
    requires Fits(disk.home.files, j.previous, j.maxBytes)
    modifies disk`home, disk`halted, disk`errors
    ensures Keeps(disk) && Ends(disk, ok) && Named(disk)
    ensures ok ==> Promoted(disk.home) && disk.home.journal == Some(j)
    ensures disk.home.journal == None || disk.home.journal == Some(j)
    ensures disk.home.stages == old(disk.home.stages) && disk.home.generations == old(disk.home.generations)
    ensures !ok && disk.home.journal.Some? ==> disk.halted || LeftByMetadata(disk, j)
    ensures !ok && disk.home.journal == None && disk.errors == old(disk.errors) + 1 ==> disk.halted || j.dir !in disk.home.txns
  {
    hide Sound, Committed, Fits, Holds, ValidJournal, Promoted, Target, UndoAt;
    ghost var h0 := disk.home;
    OpenMetadata(h0, j);
    ok := disk.WriteJournal(j);
    if !ok {
      if disk.home.journal == None {
        DropTxn(disk, j.dir);
      }
      return;
    }
    ghost var h1 := disk.home;
    ManifestStep(h1, j.candidate);
    MetadataPromoted(h1, j);
    ok := disk.WriteManifest(j.candidate);
    if !ok {
      var _, _ := FailPromotion(disk);
    }
  }

  lemma MetadataPromoted(s: Image, j: Journal)
    requires s.journal == Some(j) && j.phase == Promoting && j.files == [] && Holds(s.files, j.candidate) && Fits(s.files, j.candidate, j.maxBytes)
    ensures Promoted(s.(manifest := Some(j.candidate)))
  {
  }

  /** A metadata-only journal has nothing to undo, and both manifests fit the files. */
  lemma OpenMetadata(s: Image, j: Journal)
    requires Sound(s) && s.journal == None && j.previous == Loaded(s) && j.phase == Promoting && j.metadataOnly
    requires ValidJournal(j) && j.files == [] && j.dir in s.txns && Fits(s.files, j.previous, j.maxBytes)
    ensures Sound(s.(journal := Some(j))) && Committed(s.(journal := Some(j))) == Committed(s)
    ensures Target(s.(journal := Some(j))) == s.files
    ensures Holds(s.files, j.candidate) && Fits(s.files, j.candidate, j.maxBytes)
  {
    hide ValidManifest, ValidEntry, ValidMetadataOnly, Owners, Holds, Fits, LegacyBacked, NamesFree;
    NothingToUndo(s.files, j.files, s.txns[j.dir]);
    SameResources(j);
    SameHolds(s.files, j.previous, j.candidate, j.maxBytes);
  }

  lemma NothingToUndo(files: map<Name, Body>, entries: seq<Entry>, dir: map<int, Body>)
    requires entries == []
    ensures DistinctEntries(entries) && Restored(files, Undo(entries, dir)) == files
  {
    assert Restored(files, map[]) == files;
  }

  /** The two manifests promise the same bytes under the same names. */
  ghost predicate Alike(previous: Manifest, candidate: Manifest) {
    forall id :: id in candidate.resources ==>
      id in previous.resources && SameDeclaration(previous.resources[id], candidate.resources[id])
      && previous.resources[id].sha256 == candidate.resources[id].sha256
  }

  lemma SameHolds(files: map<Name, Body>, previous: Manifest, candidate: Manifest, maxBytes: int)
    requires Alike(previous, candidate)
    ensures Holds(files, previous) ==> Holds(files, candidate)
    ensures Fits(files, previous, maxBytes) ==> Fits(files, candidate, maxBytes)
  {
    forall id | id in candidate.resources ensures ResourceName(candidate, id) == ResourceName(previous, id) {
    }
  }

  lemma SameResources(j: Journal)
    requires ValidJournal(j) && j.metadataOnly
    ensures Alike(j.previous, j.candidate) && j.previous.version == 2
  {
    forall id | id in j.candidate.resources
      ensures id in j.previous.resources && j.previous.resources[id].decl == j.candidate.resources[id].decl
      ensures id in j.previous.resources && j.previous.resources[id].sha256 == j.candidate.resources[id].sha256
    {
      var n := ResourceName(j.candidate, id);
      assert n in Owners(j.candidate) && Owners(j.candidate)[n] == id;
      assert n in Owners(j.previous);
    }
  }
}
