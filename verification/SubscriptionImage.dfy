/** The private subscription directory as it looks on disk, and which subscription a
    start-up that finds it will make active. */
module SubscriptionImage {
  import opened Common

  type SubId = string

  /** Profile or generated-config bytes, and their injective hash. */
  datatype Text = Text(content: nat)
  datatype Hash = Hash(of: Text)

  function HashOf(text: Text): Hash { Hash(text) }

  /** A profile and the config generated from it, named by their hashes. */
  datatype Pair = Pair(profile: Hash, candidate: Hash)

  datatype GenFile = ProfileFile(profile: Hash) | CandidateFile(profile: Hash, candidate: Hash)

  /** The durable part of a record. `settings` stands for every other field of the
      configured subscription, `checked` and `failure` for the reported status. */
  datatype Record = Record(
    url: string, settings: nat, etag: string, lastModified: string,
    current: Option<Pair>, downloadedOnly: bool, checked: nat, failure: nat)

  /** A directory whose record was never written has none. */
  datatype SubDir = SubDir(record: Option<Record>, files: map<GenFile, Text>)

  /** active.json: the applied subscription and the pair it was applied with. */
  datatype Applied = Applied(id: SubId, pair: Pair)

  /** The marker that ties an activation to a resource commit. */
  datatype Pending = Pending(previous: Option<Applied>, commitId: nat, accepted: bool)

  datatype Store = Store(
    dirs: map<SubId, SubDir>, active: Option<Applied>, pending: Option<Pending>, quarantine: set<nat>)

  /** Both files of a pair are there and their bytes have the hashes in their names. */
  predicate PairStored(files: map<GenFile, Text>, pair: Pair) {
    && ProfileFile(pair.profile) in files
    && HashOf(files[ProfileFile(pair.profile)]) == pair.profile
    && CandidateFile(pair.profile, pair.candidate) in files
    && HashOf(files[CandidateFile(pair.profile, pair.candidate)]) == pair.candidate
  }

  predicate RecordStored(r: Record, files: map<GenFile, Text>) {
    && (r.current.Some? ==> PairStored(files, r.current.value))
    && (r.downloadedOnly ==> r.current.Some? && r.current.value.candidate == r.current.value.profile)
  }

  predicate DirSound(d: SubDir) {
    d.record.Some? && RecordStored(d.record.value, d.files)
  }

  predicate AppliedStored(dirs: map<SubId, SubDir>, a: Option<Applied>) {
    a.Some? ==> a.value.id in dirs && PairStored(dirs[a.value.id].files, a.value.pair)
  }

  /** What a start-up may have to return to. */
  function Fallback(st: Store): Option<Applied> {
    if st.pending.Some? && !st.pending.value.accepted then st.pending.value.previous else None
  }

  /** What start-up checks when it reads the store: every record and the active pair. */
  predicate Intact(st: Store) {
    && (forall id :: id in st.dirs ==> DirSound(st.dirs[id]))
    && AppliedStored(st.dirs, st.active)
  }

  /** A start-up succeeds whatever resource commit it recovers (SoundIffAlwaysOpenable). */
  predicate StoreSound(st: Store) {
    Intact(st) && AppliedStored(st.dirs, Fallback(st))
  }

  /** An activation that was tied to another commit and not accepted is undone. */
  predicate Undone(st: Store, commitId: Option<nat>) {
    st.pending.Some? && !st.pending.value.accepted && Some(st.pending.value.commitId) != commitId
  }

  /** The subscription a start-up makes active, given the resource commit it recovered. */
  function Resolved(st: Store, commitId: Option<nat>): Option<Applied> {
    if Undone(st, commitId) then st.pending.value.previous else st.active
  }

  /** A start-up that recovered this resource commit succeeds. */
  predicate Openable(st: Store, commitId: Option<nat>) {
    Intact(st) && AppliedStored(st.dirs, Resolved(st, commitId))
  }

  lemma SoundIffAlwaysOpenable(st: Store)
    ensures StoreSound(st) <==> forall commitId :: Openable(st, commitId)
  {
    if forall commitId :: Openable(st, commitId) {
      assert Openable(st, None);
    }
  }

  /** A marker that names nothing, or the active subscription itself, costs nothing. */
  lemma UnmarkedIsSound(st: Store)
    requires Intact(st) && (Fallback(st) == None || Fallback(st) == st.active)
    ensures StoreSound(st)
  {
  }

  /** An unaccepted marker names exactly one of two resource commits, and would go back to
      something else than what is active. */
  predicate Moves(st: Store, c: Option<nat>, d: Option<nat>) {
    && st.pending.Some? && !st.pending.value.accepted && st.pending.value.previous != st.active
    && (Some(st.pending.value.commitId) == c) != (Some(st.pending.value.commitId) == d)
  }

  /** A change of the recovered resource commit changes the subscription that a start-up
      makes active exactly then. */
  lemma CommitMovesActive(st: Store, c: Option<nat>, d: Option<nat>)
    ensures Resolved(st, c) != Resolved(st, d) <==> Moves(st, c, d)
  {
  }

  /** The two files of a pair. */
  function FilesOf(pair: Option<Pair>): set<GenFile> {
    if pair.Some? then {ProfileFile(pair.value.profile), CandidateFile(pair.value.profile, pair.value.candidate)} else {}
  }

  function AppliedPair(a: Option<Applied>, id: SubId): Option<Pair> {
    if a.Some? && a.value.id == id then Some(a.value.pair) else None
  }

  /** Removing files of one directory. */
  function Without(st: Store, id: SubId, gone: set<GenFile>): Store
    requires id in st.dirs
  {
    st.(dirs := st.dirs[id := st.dirs[id].(files := st.dirs[id].files - gone)])
  }

  /** Files may go exactly if no pair that somebody still refers to needs them. */
  lemma RemovalIsIntact(st: Store, id: SubId, gone: set<GenFile>)
    requires Intact(st) && id in st.dirs
    ensures Intact(Without(st, id, gone)) <==> gone !! FilesOf(st.dirs[id].record.value.current) + FilesOf(AppliedPair(st.active, id))
  {
    var st' := Without(st, id, gone);
    PairNeedsItsFiles(st.dirs[id].files, st.dirs[id].record.value.current, gone);
    PairNeedsItsFiles(st.dirs[id].files, AppliedPair(st.active, id), gone);
    assert DirSound(st.dirs[id]);
    if Intact(st') {
      assert DirSound(st'.dirs[id]);
    }
  }

  /** ... and for a start-up that recovers a given commit, also the pair it goes back to. */
  lemma RemovalIsOpenable(st: Store, id: SubId, gone: set<GenFile>, commitId: Option<nat>)
    requires Openable(st, commitId) && id in st.dirs
    ensures Openable(Without(st, id, gone), commitId) <==>
      gone !! FilesOf(st.dirs[id].record.value.current) + FilesOf(AppliedPair(st.active, id)) + FilesOf(AppliedPair(Resolved(st, commitId), id))
  {
    RemovalIsIntact(st, id, gone);
    PairNeedsItsFiles(st.dirs[id].files, AppliedPair(Resolved(st, commitId), id), gone);
  }

  lemma PairNeedsItsFiles(files: map<GenFile, Text>, pair: Option<Pair>, gone: set<GenFile>)
    requires pair.Some? ==> PairStored(files, pair.value)
    ensures (pair.Some? ==> PairStored(files - gone, pair.value)) <==> gone !! FilesOf(pair)
  {
  }

  /** Adding a generation file. */
  function WithFile(st: Store, id: SubId, file: GenFile, text: Text): Store
    requires id in st.dirs
  {
    st.(dirs := st.dirs[id := st.dirs[id].(files := st.dirs[id].files[file := text])])
  }

  function WithRecord(st: Store, id: SubId, record: Record): Store
    requires id in st.dirs
  {
    st.(dirs := st.dirs[id := st.dirs[id].(record := Some(record))])
  }

  /** The bytes have the hash that is the last part of the file's name. */
  predicate NamedByHash(file: GenFile, text: Text) {
    HashOf(text) == if file.ProfileFile? then file.profile else file.candidate
  }

  /** Generation files are immutable: writing one again writes the same bytes. */
  lemma FileIsSound(st: Store, id: SubId, file: GenFile, text: Text)
    requires Intact(st) && id in st.dirs && NamedByHash(file, text)
    ensures Intact(WithFile(st, id, file, text)) && (StoreSound(st) ==> StoreSound(WithFile(st, id, file, text)))
    ensures forall pair :: PairStored(st.dirs[id].files, pair) ==> PairStored(st.dirs[id].files[file := text], pair)
  {
  }

  lemma RecordOf(st: Store, id: SubId)
    requires Intact(st) && id in st.dirs
    ensures st.dirs[id].record.Some? && RecordStored(st.dirs[id].record.value, st.dirs[id].files)
  {
    assert DirSound(st.dirs[id]);
  }

  lemma ActiveOf(st: Store)
    requires Intact(st)
    ensures AppliedStored(st.dirs, st.active)
  {
  }

  /** A record may point to any pair that is stored. */
  lemma RecordIsSound(st: Store, id: SubId, record: Record)
    requires Intact(st) && id in st.dirs && RecordStored(record, st.dirs[id].files)
    ensures Intact(WithRecord(st, id, record)) && (StoreSound(st) ==> StoreSound(WithRecord(st, id, record)))
  {
  }

  /** A subscription may leave exactly if it is not active ... */
  lemma LeavingIsIntact(st: Store, id: SubId)
    requires Intact(st)
    ensures Intact(st.(dirs := st.dirs - {id})) <==> !(st.active.Some? && st.active.value.id == id)
  {
  }

  /** ... and not what a start-up that recovers a given commit goes back to. */
  lemma LeavingIsOpenable(st: Store, id: SubId, commitId: Option<nat>)
    requires Openable(st, commitId)
    ensures Openable(st.(dirs := st.dirs - {id}), commitId) <==>
      !(st.active.Some? && st.active.value.id == id) && !(Resolved(st, commitId).Some? && Resolved(st, commitId).value.id == id)
  {
  }

  lemma QuarantineIsFree(st: Store, quarantine: set<nat>)
    requires Intact(st)
    ensures Intact(st.(quarantine := quarantine))
  {
  }

  lemma QuarantineKeepsSound(st: Store, quarantine: set<nat>)
    requires StoreSound(st)
    ensures Intact(st) && StoreSound(st.(quarantine := quarantine))
    ensures forall commitId :: Openable(st, commitId) && Openable(st.(quarantine := quarantine), commitId)
  {
  }

  function WithDir(st: Store, id: SubId, record: Option<Record>): Store {
    st.(dirs := st.dirs[id := SubDir(record, map[])])
  }

  /** A new directory is refused until it has a record. */
  lemma NewDirIsSound(st: Store, id: SubId, record: Option<Record>)
    requires Intact(st) && id !in st.dirs && (record.Some? ==> record.value.current == None && !record.value.downloadedOnly)
    ensures Intact(WithDir(st, id, record)) <==> record.Some?
    ensures WithDir(st, id, record).dirs - {id} == st.dirs
  {
    assert WithDir(st, id, record).dirs[id] == SubDir(record, map[]);
    if Intact(WithDir(st, id, record)) {
      assert DirSound(WithDir(st, id, record).dirs[id]);
    }
  }

  ghost function RecordsOf(st: Store): map<SubId, Option<Record>> {
    map id | id in st.dirs :: st.dirs[id].record
  }

  lemma SameDirs(st: Store, st': Store)
    requires st.dirs == st'.dirs
    ensures RecordsOf(st) == RecordsOf(st')
  {
  }

  lemma RecordsStay(st: Store, id: SubId, files: map<GenFile, Text>)
    requires id in st.dirs
    ensures RecordsOf(st.(dirs := st.dirs[id := st.dirs[id].(files := files)])) == RecordsOf(st)
  {
  }

  lemma RecordsPut(st: Store, id: SubId, record: Record)
    requires id in st.dirs
    ensures RecordsOf(WithRecord(st, id, record)) == RecordsOf(st)[id := Some(record)]
  {
  }

  lemma RecordsAdd(st: Store, id: SubId, record: Record)
    ensures RecordsOf(WithDir(st, id, Some(record))) == RecordsOf(st)[id := Some(record)]
  {
  }
}
