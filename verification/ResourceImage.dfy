/** What the managed home looks like on disk, and which resources a start-up
    that finds it will expose. */
module ResourceImage {
  import opened Common
  import opened ResourceManifest

  /** The managed home. `files` holds everything under a stable name, managed or
      not; `txns` and `stages` are the private transaction and staging
      directories; `generations` is the version 1 layout. */
  datatype Image = Image(
    files: map<Name, Body>,
    manifest: Option<Manifest>,
    journal: Option<Journal>,
    txns: map<nat, map<int, Body>>,
    stages: map<nat, map<Name, Body>>,
    generations: map<nat, map<Name, Body>>)

  const DEFAULT_MAX_BYTES: int := 0x400_0000

  /** A missing manifest file reads as the empty version 2 manifest. */
  function Loaded(s: Image): Manifest {
    if s.manifest.Some? then s.manifest.value else EmptyManifest
  }

  predicate Matches(body: Body, state: ResourceState) {
    body.size > 0 && DigestOf(body) == state.sha256 && ValidContent(state.decl, body)
  }

  /** Every resource of the manifest has its file, with the promised bytes. */
  predicate Holds(files: map<Name, Body>, m: Manifest) {
    forall id :: id in m.resources ==>
      ResourceName(m, id) in files && Matches(files[ResourceName(m, id)], m.resources[id])
  }

  predicate Fits(files: map<Name, Body>, m: Manifest, maxBytes: int) {
    forall id :: id in m.resources && ResourceName(m, id) in files ==> files[ResourceName(m, id)].size <= maxBytes
  }

  /** No file occupies a name that a version 1 manifest will migrate to. */
  predicate NamesFree(files: map<Name, Body>, m: Manifest) {
    forall id :: id in m.resources ==> ResourceName(m, id) !in files
  }

  predicate LegacyBacked(generations: map<nat, map<Name, Body>>, m: Manifest) {
    if m.generation == None then m.resources == map[]
    else |m.resources| <= MAX_STATE_BYTES && m.generation.value in generations && Holds(generations[m.generation.value], m)
         && Fits(generations[m.generation.value], m, DEFAULT_MAX_BYTES)
  }

  predicate Backed(files: map<Name, Body>, generations: map<nat, map<Name, Body>>, m: Manifest) {
    if m.version == 2 then Holds(files, m) else LegacyBacked(generations, m) && NamesFree(files, m)
  }

  /** What undoing a journal does to each of its destinations: put back these
      bytes, or leave the name empty. */
  ghost function Undo(files: seq<Entry>, dir: map<int, Body>): map<Name, Option<Body>>
    requires DistinctEntries(files)
  {
    map i | 0 <= i < |files| :: files[i].name := Undoing(files[i], dir)
  }

  ghost function Undoing(e: Entry, dir: map<int, Body>): Option<Body> {
    if e.hadPrevious && e.backup.Some? && e.backup.value in dir then Some(dir[e.backup.value]) else None
  }

  ghost function Restored(files: map<Name, Body>, undo: map<Name, Option<Body>>): map<Name, Body> {
    map n | n in files.Keys + undo.Keys && (n in undo ==> undo[n].Some?) ::
      if n in undo then undo[n].value else files[n]
  }

  /** A stored body that is neither empty nor over the limit can be read. */
  predicate Readable(body: Body, maxBytes: int) {
    0 < body.size <= maxBytes
  }

  /** The saved copy an entry needs to be undone. */
  predicate BackupOk(e: Entry, dir: map<int, Body>, maxBytes: int) {
    e.hadPrevious ==>
      && e.backup.Some? && e.backup.value in dir
      && Readable(dir[e.backup.value], maxBytes)
      && Some(DigestOf(dir[e.backup.value])) == e.previousSHA
  }

  /** A destination that had no earlier file is empty or holds the candidate. */
  predicate NewFileOk(e: Entry, files: map<Name, Body>, maxBytes: int) {
    !e.hadPrevious && e.name in files ==>
      Readable(files[e.name], maxBytes) && Some(DigestOf(files[e.name])) == e.candidateSHA
  }

  ghost predicate EntriesOk(files: map<Name, Body>, entries: seq<Entry>, dir: map<int, Body>, maxBytes: int) {
    forall e :: e in entries ==> BackupOk(e, dir, maxBytes) && NewFileOk(e, files, maxBytes)
  }

  /** The journal can be undone, back to files that carry the previous manifest. */
  ghost predicate Undoable(s: Image, j: Journal)
    requires DistinctEntries(j.files)
  {
    && j.dir in s.txns
    && EntriesOk(s.files, j.files, s.txns[j.dir], j.maxBytes)
    && Backed(Restored(s.files, Undo(j.files, s.txns[j.dir])), s.generations, j.previous)
  }

  ghost predicate PromotingSound(s: Image, j: Journal)
    requires DistinctEntries(j.files)
  {
    Undoable(s, j) && (Loaded(s) == j.previous || Loaded(s) == j.candidate)
  }

  ghost predicate AcceptedSound(s: Image, j: Journal) {
    Loaded(s) == j.candidate && Holds(s.files, j.candidate) && Fits(s.files, j.candidate, j.maxBytes)
  }

  /** The disk states that every operation keeps: a start-up succeeds, and what it exposes is
      backed by files. (Without a journal a version 2 home that lost files opens as well.) */
  ghost predicate Sound(s: Image) {
    && ValidManifest(Loaded(s))
    && match s.journal
       case None => Backed(s.files, s.generations, Loaded(s))
       case Some(j) =>
         && ValidJournal(j) && DistinctEntries(j.files) && |j.files| <= MAX_STATE_BYTES
         && if j.phase == Promoting then PromotingSound(s, j) else AcceptedSound(s, j)
  }

  /** What a start-up exposes: a manifest, every stable file, and the old layout
      while the manifest still refers to it. */
  datatype View = View(manifest: Manifest, files: map<Name, Body>, generations: map<nat, map<Name, Body>>)

  ghost function ViewOf(m: Manifest, files: map<Name, Body>, s: Image): View {
    View(m, files, if m.version == 1 then s.generations else map[])
  }

  ghost predicate InPromotion(s: Image) {
    s.journal.Some? && s.journal.value.phase == Promoting
  }

  ghost function Target(s: Image): map<Name, Body>
    requires Sound(s) && InPromotion(s)
  {
    Restored(s.files, Undo(s.journal.value.files, s.txns[s.journal.value.dir]))
  }

  ghost function Committed(s: Image): View
    requires Sound(s)
  {
    if InPromotion(s) then ViewOf(s.journal.value.previous, Target(s), s)
    else ViewOf(Loaded(s), s.files, s)
  }

  /** Names that the candidate gives up are free. */
  ghost predicate Cleared(files: map<Name, Body>, j: Journal) {
    forall e :: e in j.files && e.candidateSHA == None ==> e.name !in files
  }

  /** All of the candidate is in place; only the accepted mark is missing. */
  ghost predicate Promoted(s: Image) {
    InPromotion(s) && AcceptedSound(s, s.journal.value) && Cleared(s.files, s.journal.value)
  }

  /** Stable files that do not belong to the manifest: the user's own. */
  ghost function Unmanaged(v: View): map<Name, Body>
    requires DistinctNames(v.manifest)
  {
    map n | n in v.files && n !in Owners(v.manifest) :: v.files[n]
  }

  /** What belongs to nobody on disk when a start-up is due. */
  ghost function Foreign(s: Image): map<Name, Body>
    requires Sound(s)
  {
    Unmanaged(Committed(s))
  }

  /** Which manifest is on disk, and which one a start-up exposes. */
  lemma Exposed(s: Image)
    requires Sound(s)
    ensures s.journal == None ==> Committed(s).manifest == Loaded(s)
    ensures s.journal.Some? ==> Loaded(s) == s.journal.value.previous || Loaded(s) == s.journal.value.candidate
    ensures InPromotion(s) ==> Committed(s).manifest == s.journal.value.previous && Undoable(s, s.journal.value)
    ensures s.journal.Some? && !InPromotion(s) ==> Committed(s).manifest == Loaded(s) == s.journal.value.candidate
    ensures Promoted(s) ==> Loaded(s) == s.journal.value.candidate
  {
  }

  /** ... and which files. */
  lemma Shown(s: Image)
    requires Sound(s)
    ensures s.journal == None ==> Committed(s).files == s.files
    ensures InPromotion(s) ==> Committed(s).files == Restored(s.files, Undo(s.journal.value.files, s.txns[s.journal.value.dir]))
  {
  }

  // ---------------------------------------------------------------------
  // One step at a time: what keeps a disk sound, and what it exposes.

  lemma WriteKeepsTarget(files: map<Name, Body>, undo: map<Name, Option<Body>>, n: Name, body: Body)
    requires n in undo
    ensures Restored(files[n := body], undo) == Restored(files, undo)
    ensures Restored(files - {n}, undo) == Restored(files, undo)
  {
  }

  lemma EntryUndo(files: seq<Entry>, dir: map<int, Body>, i: nat)
    requires DistinctEntries(files) && i < |files|
    ensures files[i].name in Undo(files, dir) && Undo(files, dir)[files[i].name] == Undoing(files[i], dir)
  {
  }

  lemma UndoNames(files: seq<Entry>, dir: map<int, Body>)
    requires DistinctEntries(files)
    ensures Undo(files, dir).Keys == (set i | 0 <= i < |files| :: files[i].name)
  {
  }

  lemma StoreKeepsEntries(files: map<Name, Body>, entries: seq<Entry>, dir: map<int, Body>, maxBytes: int, i: nat, body: Body)
    requires DistinctEntries(entries) && i < |entries| && EntriesOk(files, entries, dir, maxBytes)
    requires !entries[i].hadPrevious ==> Readable(body, maxBytes) && Some(DigestOf(body)) == entries[i].candidateSHA
    ensures EntriesOk(files[entries[i].name := body], entries, dir, maxBytes)
    ensures Restored(files[entries[i].name := body], Undo(entries, dir)) == Restored(files, Undo(entries, dir))
  {
    EntryUndo(entries, dir, i);
    WriteKeepsTarget(files, Undo(entries, dir), entries[i].name, body);
  }

  lemma RemoveKeepsEntries(files: map<Name, Body>, entries: seq<Entry>, dir: map<int, Body>, maxBytes: int, i: nat)
    requires DistinctEntries(entries) && i < |entries| && EntriesOk(files, entries, dir, maxBytes)
    ensures EntriesOk(files - {entries[i].name}, entries, dir, maxBytes)
    ensures Restored(files - {entries[i].name}, Undo(entries, dir)) == Restored(files, Undo(entries, dir))
  {
    EntryUndo(entries, dir, i);
    WriteKeepsTarget(files, Undo(entries, dir), entries[i].name, Body(0, 0, {}));
  }

  /** Changing destinations of the open journal, within what it can undo. */
  lemma FilesStep(s: Image, files: map<Name, Body>)
    requires Sound(s) && InPromotion(s)
    requires EntriesOk(files, s.journal.value.files, s.txns[s.journal.value.dir], s.journal.value.maxBytes)
    requires Restored(files, Undo(s.journal.value.files, s.txns[s.journal.value.dir])) == Target(s)
    ensures Sound(s.(files := files)) && Committed(s.(files := files)) == Committed(s)
  {
  }

  lemma ManifestStep(s: Image, m: Manifest)
    requires Sound(s) && InPromotion(s) && (m == s.journal.value.previous || m == s.journal.value.candidate)
    ensures Sound(s.(manifest := Some(m))) && Committed(s.(manifest := Some(m))) == Committed(s)
  {
  }

  /** Once every destination is back, the journal may go. */
  lemma RollbackDone(s: Image)
    requires Sound(s) && InPromotion(s) && s.files == Target(s) && Loaded(s) == s.journal.value.previous
    ensures Sound(s.(journal := None)) && Committed(s.(journal := None)) == Committed(s)
  {
  }

  lemma PhaseIsFree(j: Journal, phase: Phase)
    requires ValidJournal(j)
    ensures ValidJournal(j.(phase := phase))
  {
    var k := j.(phase := phase);
    if j.metadataOnly {
      assert ValidMetadataOnly(k);
    } else {
      forall i | 0 <= i < |k.files| ensures ValidEntry(k, k.files[i]) {
        assert ValidEntry(j, j.files[i]);
      }
      assert JournalNames(k) == JournalNames(j);
    }
  }

  /** Each destination of a valid journal is managed by one of the manifests; one
      that only the candidate manages was empty, one that it gives up is empty now. */
  lemma DestinationIsManaged(j: Journal, dir: map<int, Body>, files: map<Name, Body>, i: nat)
    requires ValidJournal(j) && DistinctEntries(j.files) && !j.metadataOnly && Cleared(files, j) && i < |j.files|
    ensures j.files[i].name in Undo(j.files, dir)
    ensures j.files[i].name !in Owners(j.previous) ==> Undo(j.files, dir)[j.files[i].name] == None && j.files[i].name in Owners(j.candidate)
    ensures j.files[i].name !in Owners(j.candidate) ==> j.files[i].name !in files
  {
    EntryUndo(j.files, dir, i);
    assert ValidEntry(j, j.files[i]);
  }

  lemma ForeignAlike(files: map<Name, Body>, undo: map<Name, Option<Body>>, before: set<Name>, after: set<Name>)
    requires forall n :: n in undo && n !in before ==> undo[n] == None && n in after
    requires forall n :: n in undo && n !in after ==> n !in files
    requires forall n :: n in before + after && n !in undo ==> n in before * after
    ensures (map n | n in files && n !in after :: files[n]) == map n | n in Restored(files, undo) && n !in before :: Restored(files, undo)[n]
  {
  }

  /** A complete promotion changed managed names only. */
  lemma PromotionKeepsForeign(s: Image)
    requires Sound(s) && Promoted(s)
    ensures Unmanaged(ViewOf(s.journal.value.candidate, s.files, s)) == Foreign(s)
  {
    var j := s.journal.value;
    PromotionIsManaged(j, s.txns[j.dir], s.files);
    ForeignAlike(s.files, Undo(j.files, s.txns[j.dir]), Owners(j.previous).Keys, Owners(j.candidate).Keys);
  }

  lemma PromotionIsManaged(j: Journal, dir: map<int, Body>, files: map<Name, Body>)
    requires ValidJournal(j) && DistinctEntries(j.files) && Cleared(files, j)
    ensures forall n :: n in Undo(j.files, dir) && n !in Owners(j.previous) ==> Undo(j.files, dir)[n] == None && n in Owners(j.candidate)
    ensures forall n :: n in Undo(j.files, dir) && n !in Owners(j.candidate) ==> n !in files
    ensures forall n :: n in JournalNames(j) && n !in Undo(j.files, dir) ==> n in Owners(j.previous) && n in Owners(j.candidate)
  {
    assert DistinctNames(j.previous) && DistinctNames(j.candidate);
    hide Undo, ValidEntry, ValidManifest, DistinctEntries, DistinctNames, Cleared, Owners;
    var undo := Undo(j.files, dir);
    UndoNames(j.files, dir);
    if j.metadataOnly {
      assert Owners(j.previous).Keys == Owners(j.candidate).Keys && j.files == [];
    } else {
      forall n | n in undo
        ensures n !in Owners(j.previous) ==> undo[n] == None && n in Owners(j.candidate)
        ensures n !in Owners(j.candidate) ==> n !in files
      {
        var i :| 0 <= i < |j.files| && j.files[i].name == n;
        DestinationIsManaged(j, dir, files, i);
      }
      forall n | n in JournalNames(j) ensures n in undo {
        assert Listed(j.files, n);
      }
    }
  }

  /** The accepted mark is the commit point: it alone changes what is exposed. */
  lemma AcceptStep(s: Image)
    requires Sound(s) && Promoted(s)
    ensures Sound(s.(journal := Some(s.journal.value.(phase := Accepted))))
    ensures Committed(s.(journal := Some(s.journal.value.(phase := Accepted)))) == ViewOf(s.journal.value.candidate, s.files, s)
    ensures Foreign(s.(journal := Some(s.journal.value.(phase := Accepted)))) == Foreign(s)
  {
    PhaseIsFree(s.journal.value, Accepted);
    PromotionKeepsForeign(s);
  }

  lemma AcceptedDone(s: Image)
    requires Sound(s) && s.journal.Some? && s.journal.value.phase == Accepted
    ensures Sound(s.(journal := None)) && Committed(s.(journal := None)) == Committed(s)
  {
  }

  /** Private directories other than the journal's own are invisible. */
  lemma ScratchStep(s: Image, s': Image)
    requires Sound(s)
    requires s' == s.(txns := s'.txns, stages := s'.stages)
    requires InPromotion(s) ==> s.journal.value.dir in s'.txns && s'.txns[s.journal.value.dir] == s.txns[s.journal.value.dir]
    ensures Sound(s') && Committed(s') == Committed(s)
  {
  }
}
