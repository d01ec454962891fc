/** The life of a staged resource plan: stage, validate, commit, and then finalize
    or roll back. */
module ResourcePlan {
  import opened Common
  import opened ResourceManifest
  import opened ResourceImage
  import opened Storage
  import opened ResourceTransaction
  import opened ResourcePromotion
  import opened ResourceRecovery

  class Registry {
    const disk: Disk
    var active: Manifest
    var maxBytes: int

    ghost predicate Valid()
      reads this, disk
    {
      Sound(disk.home) && Named(disk) && maxBytes > 0
    }

    constructor (disk: Disk, active: Manifest)
      ensures this.disk == disk && this.active == active && maxBytes == DEFAULT_MAX_BYTES
    {
      this.disk, this.active, maxBytes := disk, active, DEFAULT_MAX_BYTES;
    }
  }

  /** One resource as preparation leaves it: its new state and, unless the committed
      copy is to be used, the fetched bytes. */
  datatype Prepared = Prepared(state: ResourceState, body: Option<Body>)

  /** A resource set is unchanged when every resource keeps its bytes and declaration. */
  predicate SameGeneration(next: map<Id, ResourceState>, active: map<Id, ResourceState>) {
    && next.Keys == active.Keys
    && forall id :: id in next ==> active[id].sha256 == next[id].sha256 && SameDeclaration(active[id], next[id])
  }

  /** A metadata-only journal is acceptable to recovery exactly for the plans that are
      judged unchanged. */
  lemma UnchangedIffMetadataJournal(j: Journal)
    requires ValidManifest(j.previous) && j.previous.version == 2 && ValidManifest(j.candidate) && j.candidate.version == 2
    requires j.maxBytes > 0 && j.metadataOnly && j.files == []
    ensures ValidJournal(j) <==> SameGeneration(j.candidate.resources, j.previous.resources)
  {
    if ValidJournal(j) {
      MetadataIsUnchanged(j);
    }
    if SameGeneration(j.candidate.resources, j.previous.resources) {
      UnchangedOwners(j.previous, j.candidate);
    }
  }

  lemma MetadataIsUnchanged(j: Journal)
    requires ValidJournal(j) && j.metadataOnly
    ensures SameGeneration(j.candidate.resources, j.previous.resources)
  {
    SameResources(j);
    hide ValidState;
    forall id | id in j.previous.resources ensures id in j.candidate.resources {
      var n := ResourceName(j.previous, id);
      assert n in Owners(j.previous) && Owners(j.previous)[n] == id;
      assert n in Owners(j.candidate) && Owners(j.candidate)[n] == id;
    }
  }

  lemma UnchangedOwners(previous: Manifest, candidate: Manifest)
    requires DistinctNames(previous) && DistinctNames(candidate) && SameGeneration(candidate.resources, previous.resources)
    ensures Owners(previous) == Owners(candidate)
  {
    forall id | id in previous.resources ensures ResourceName(previous, id) == ResourceName(candidate, id) {
    }
  }

  lemma SoundHolds(s: Image)
    requires Sound(s) && s.journal == None && Loaded(s).version == 2
    ensures Holds(s.files, Loaded(s)) && DistinctNames(Loaded(s))
  {
  }

  lemma IsWellFormed(document: Manifest, staged: map<Id, StagedFile>)
    requires document.version == 2 && document.commitId.Some? && DistinctNames(document) && staged.Keys == document.resources.Keys
    requires forall id :: id in document.resources ==> ValidState(id, document.resources[id])
    ensures WellFormedPromotion(document, staged)
  {
  }

  lemma IdIsFree(s: Image, bare: Manifest, document: Manifest, staged: map<Id, StagedFile>, maxBytes: int)
    requires document.resources == bare.resources && DistinctNames(Loaded(s)) && AllStaged(s, bare, staged, maxBytes) && NewNamesFree(s, bare)
    ensures AllStaged(s, document, staged, maxBytes) && NewNamesFree(s, document)
  {
    hide StagedOk;
    forall id | id in document.resources ensures ResourceName(document, id) == ResourceName(bare, id) {
    }
  }

  /** Whether the disk has all that a promotion of this kind needs. */
  ghost predicate Promotes(s: Image, changed: bool, maxBytes: int, document: Manifest, staged: map<Id, StagedFile>) {
    if changed then Promotable(s, document, staged, maxBytes)
    else Fits(s.files, Loaded(s), maxBytes) && ValidJournal(Journal(Promoting, 0, maxBytes, Loaded(s), document, true, []))
  }

  ghost predicate AllStaged(s: Image, document: Manifest, staged: map<Id, StagedFile>, maxBytes: int) {
    forall id :: id in document.resources ==> id in staged && StagedOk(s.stages, staged[id], document.resources[id], maxBytes)
  }

  /** No file of the user's lies under a name that the candidate claims anew. */
  ghost predicate NewNamesFree(s: Image, document: Manifest)
    requires DistinctNames(Loaded(s))
  {
    forall id :: id in document.resources && ResourceName(document, id) !in Owners(Loaded(s)) ==> ResourceName(document, id) !in s.files
  }

  lemma UnionCount<T>(a: set<T>, b: set<T>)
    ensures |a + b| <= |a| + |b|
  {
  }

  lemma PlanPromotable(s: Image, document: Manifest, staged: map<Id, StagedFile>, maxBytes: int)
    requires s.journal == None && DistinctNames(Loaded(s)) && Loaded(s).version == 2 && Holds(s.files, Loaded(s)) && WellFormedPromotion(document, staged)
    requires Fits(s.files, Loaded(s), maxBytes) && |Loaded(s).resources| + |document.resources| <= MAX_STATE_BYTES
    requires AllStaged(s, document, staged, maxBytes) && NewNamesFree(s, document)
    ensures Promotable(s, document, staged, maxBytes)
  {
    hide Holds, Fits, AllStaged, NewNamesFree, WellFormedPromotion, DistinctNames, Owners, Movable, Priors, Arrivals, Promotable;
    WellFormedIsDistinct(document, staged);
    NamesFewEnough(Loaded(s), document);
    AllMovable(s, document, staged, maxBytes);
    MovableIsPromotable(s, document, staged, maxBytes);
  }

  lemma WellFormedIsDistinct(document: Manifest, staged: map<Id, StagedFile>)
    requires WellFormedPromotion(document, staged)
    ensures DistinctNames(document)
  {
  }

  /** Each resource has one name. */
  lemma NamesFewEnough(m: Manifest, document: Manifest)
    requires DistinctNames(m) && DistinctNames(document)
    ensures |Owners(m).Keys + Owners(document).Keys| <= |m.resources| + |document.resources|
  {
    hide DistinctNames, Owners;
    OwnersCount(m);
    OwnersCount(document);
    UnionCount(Owners(m).Keys, Owners(document).Keys);
  }

  lemma MovableIsPromotable(s: Image, document: Manifest, staged: map<Id, StagedFile>, maxBytes: int)
    requires s.journal == None && DistinctNames(Loaded(s)) && DistinctNames(document) && WellFormedPromotion(document, staged)
    requires |Owners(Loaded(s)).Keys + Owners(document).Keys| <= MAX_STATE_BYTES
    requires forall n :: n in Owners(Loaded(s)).Keys + Owners(document).Keys ==>
      Movable(s, n, Priors(Loaded(s))(n), Arrivals(document, staged)(n), maxBytes)
    ensures Promotable(s, document, staged, maxBytes)
  {
    hide WellFormedPromotion, DistinctNames, Owners, Movable, Priors, Arrivals;
  }

  lemma AllMovable(s: Image, document: Manifest, staged: map<Id, StagedFile>, maxBytes: int)
    requires DistinctNames(Loaded(s)) && DistinctNames(document) && Loaded(s).version == 2 && Holds(s.files, Loaded(s)) && Fits(s.files, Loaded(s), maxBytes)
    requires WellFormedPromotion(document, staged) && AllStaged(s, document, staged, maxBytes) && NewNamesFree(s, document)
    ensures forall n :: n in Owners(Loaded(s)).Keys + Owners(document).Keys ==>
      Movable(s, n, Priors(Loaded(s))(n), Arrivals(document, staged)(n), maxBytes)
  {
    hide Holds, Fits, AllStaged, NewNamesFree, WellFormedPromotion, DistinctNames, Owners, Movable, Priors, Arrivals, StagedOk, DigestOf;
    var m := Loaded(s);
    forall n | n in Owners(m).Keys + Owners(document).Keys ensures Movable(s, n, Priors(m)(n), Arrivals(document, staged)(n), maxBytes) {
      PriorMovable(s, maxBytes, n);
      ArrivalMovable(s, document, staged, maxBytes, n);
      NameMovable(s, n, Priors(m)(n), Arrivals(document, staged)(n), maxBytes);
    }
  }

  lemma NameMovable(s: Image, n: Name, prior: Option<Digest>, next: Option<Arrival>, maxBytes: int)
    requires prior.Some? ==> n in s.files && Readable(s.files[n], maxBytes) && DigestOf(s.files[n]) == prior.value
    requires prior == None ==> n !in s.files
    requires next.Some? ==> StagedOk(s.stages, next.value.file, next.value.state, maxBytes)
    ensures Movable(s, n, prior, next, maxBytes)
  {
  }

  lemma PriorMovable(s: Image, maxBytes: int, n: Name)
    requires DistinctNames(Loaded(s)) && Loaded(s).version == 2 && Holds(s.files, Loaded(s)) && Fits(s.files, Loaded(s), maxBytes)
    ensures var prior := Priors(Loaded(s))(n); (prior.Some? <==> n in Owners(Loaded(s))) && (prior.Some? ==> n in s.files && Readable(s.files[n], maxBytes) && DigestOf(s.files[n]) == prior.value)
  {
    hide ValidContent;
    if n in Owners(Loaded(s)) {
      var id := Owners(Loaded(s))[n];
      assert id in Loaded(s).resources && ResourceName(Loaded(s), id) == n;
    }
  }

  lemma ArrivalMovable(s: Image, document: Manifest, staged: map<Id, StagedFile>, maxBytes: int, n: Name)
    requires DistinctNames(Loaded(s)) && WellFormedPromotion(document, staged) && AllStaged(s, document, staged, maxBytes) && NewNamesFree(s, document)
    ensures var next := Arrivals(document, staged)(n); next.Some? ==> StagedOk(s.stages, next.value.file, next.value.state, maxBytes)
    ensures n in Owners(document) && n !in Owners(Loaded(s)) ==> n !in s.files
  {
    hide StagedOk, ValidStableID, ValidDeclaration;
    if n in Owners(document) {
      var id := Owners(document)[n];
      assert id in document.resources && ResourceName(document, id) == n;
    }
  }

  method PromotePlan(disk: Disk, changed: bool, maxBytes: int, document: Manifest, staged: map<Id, StagedFile>) returns (dir: Option<nat>)
    requires Sound(disk.home) && Named(disk) && maxBytes > 0 && disk.home.journal == None
    requires document.generation == None && Bounded(document)
    modifies disk`home, disk`halted, disk`errors, disk`nextId
    ensures Keeps(disk) && Lives(disk, dir.Some?) && Named(disk)
    ensures dir.Some? ==> Promoted(disk.home) && Describes(disk.home.journal.value, dir.value, maxBytes, old(Loaded(disk.home)), document)
    ensures disk.home.journal.Some? ==> Links(disk.home.journal.value, old(Loaded(disk.home)), document)
    ensures disk.home.stages == old(disk.home.stages)
    ensures dir == None && disk.home.journal.Some? ==> disk.halted || disk.errors > old(disk.errors)
    ensures dir == None && disk.home.journal.Some? && disk.errors == old(disk.errors) + 1 ==> disk.halted || (!changed && Loaded(disk.home) == old(Loaded(disk.home)))
    ensures dir == None && old(Promotes(disk.home, changed, maxBytes, document, staged)) ==> disk.halted || disk.errors > old(disk.errors)
  {
    hide Promotable;
    var current := Loaded(disk.home);
    if changed {
      dir := Promote(disk, maxBytes, current, document, staged);
    } else {
      dir := PromoteMetadata(disk, maxBytes, current, document);
    }
  }

  /** Removes a plan's staging directory. */
  method RemovePlanStage(disk: Disk, stage: nat) returns (ok: bool)
    requires Sound(disk.home) && Named(disk) && !disk.halted
    modifies disk`home, disk`halted, disk`errors
    ensures Ends(disk, ok) && Keeps(disk) && Named(disk)
    ensures disk.home == old(disk.home).(stages := disk.home.stages)
    ensures forall d :: d in old(disk.home.stages) && d != stage ==> d in disk.home.stages
    ensures ok ==> stage !in disk.home.stages
  {
    ghost var h0 := disk.home;
    var fate := disk.Attempt();
    if fate != Done {
      return false;
    }
    ok := true;
    if stage in disk.home.stages {
      ok := disk.RemoveStage(stage);
      DropKeys(h0.stages, disk.home.stages, stage);
      OtherKeys(h0.stages, disk.home.stages, stage);
    }
    ScratchStep(h0, disk.home);
  }

  lemma OtherKeys<T>(before: map<nat, T>, after: map<nat, T>, d: nat)
    requires after - {d} == before - {d}
    ensures forall k :: k in before && k != d ==> k in after
  {
    forall k | k in before && k != d ensures k in after {
      assert k in before - {d};
    }
  }

  /** Finalizes the open transaction if it is the one described. */
  method FinalizeJournal(disk: Disk, commitId: Option<nat>, dir: nat) returns (ok: bool)
    requires Sound(disk.home) && Named(disk)
    requires InPromotion(disk.home) ==> Promoted(disk.home)
    modifies disk`home, disk`halted, disk`errors
    ensures Lives(disk, ok) && Accepts(disk) && Named(disk)
    ensures disk.home.stages == old(disk.home.stages)
    ensures ok ==> disk.home.journal == None
    ensures disk.home.journal.Some? ==> disk.home.txns == old(disk.home.txns)
    ensures !ok && old(disk.home.journal.Some? && disk.home.journal.value.candidate.commitId == commitId && disk.home.journal.value.dir == dir) ==>
      disk.halted || disk.errors > old(disk.errors)
    ensures !ok && !disk.halted && old(disk.home.journal.Some?) ==> disk.home.journal.Some?
  {
    hide Sound, Committed;
    SoundIsSensible(disk.home);
    var r := ReadTransaction(disk);
    if !r.Found? {
      return false;
    }
    if r.journal.candidate.commitId != commitId || r.journal.dir != dir {
      return false;
    }
    ok := FinalizeTransaction(disk, dir);
  }

  /** The journal is that of this commit and directory. */
  predicate OwnJournal(s: Image, commitId: Option<nat>, dir: Option<nat>) {
    s.journal.Some? && s.journal.value.candidate.commitId == commitId && Some(s.journal.value.dir) == dir
  }

  /** Drops the staging directory, which must be there, and finalizes the transaction. */
  method FinalizeStage(disk: Disk, stage: Option<nat>, commitId: Option<nat>, dir: Option<nat>) returns (ok: bool)
    requires Sound(disk.home) && Named(disk) && !disk.halted
    requires InPromotion(disk.home) ==> Promoted(disk.home)
    modifies disk`home, disk`halted, disk`errors
    ensures Lives(disk, ok) && Accepts(disk) && Named(disk)
    ensures ok && dir.Some? ==> disk.home.journal == None
    ensures ok && stage.Some? ==> stage.value !in disk.home.stages && stage.value in old(disk.home.stages)
    ensures disk.home.journal.Some? ==> disk.home.txns == old(disk.home.txns)
    ensures !ok && (stage.Some? ==> stage.value in old(disk.home.stages)) && old(OwnJournal(disk.home, commitId, dir)) ==> disk.halted || disk.errors > old(disk.errors)
    ensures !ok && !disk.halted && old(disk.home.journal.Some?) ==> disk.home.journal.Some?
  {
    if stage.Some? {
      if stage.value !in disk.home.stages {
        return false;
      }
      ok := RemovePlanStage(disk, stage.value);
      if !ok {
        return;
      }
    }
    ok := true;
    if dir.Some? {
      ok := FinalizeJournal(disk, commitId, dir.value);
    }
  }

  /** Undoes the open transaction if it is the one described. */
  method RollbackJournal(disk: Disk, commitId: Option<nat>, dir: nat) returns (ok: bool)
    requires Sound(disk.home) && Named(disk)
    requires disk.home.journal.Some? ==> Undoable(disk.home, disk.home.journal.value)
    modifies disk`home, disk`halted, disk`errors
    ensures Lives(disk, ok) && Named(disk)
    ensures disk.home.journal == None || !old(disk.home.journal.Some? && disk.home.journal.value.phase == Accepted) ==> Sound(disk.home)
    ensures !old(disk.home.journal.Some? && disk.home.journal.value.phase == Accepted) ==> Keeps(disk)
    ensures disk.home.journal == None || disk.home.journal == old(disk.home.journal)
    ensures ok ==> old(disk.home.journal.Some?) && disk.home.journal == None && Sound(disk.home)
    ensures disk.home.journal == None && old(disk.home.journal.Some?) ==> disk.home.manifest == Some(old(disk.home.journal.value.previous))
    ensures disk.home.journal == None && old(disk.home.journal.Some?) ==>
      disk.home.files == old(Restored(disk.home.files, Undo(disk.home.journal.value.files, disk.home.txns[disk.home.journal.value.dir])))
    ensures !ok && old(disk.home.journal.Some? && disk.home.journal.value.candidate.commitId == commitId && disk.home.journal.value.dir == dir) ==>
      disk.halted || disk.errors > old(disk.errors)
  {
    hide Sound, Committed;
    SoundIsSensible(disk.home);
    var r := ReadTransaction(disk);
    if !r.Found? || r.journal.candidate.commitId != commitId || r.journal.dir != dir {
      return false;
    }
    ghost var at;
    ok, at := RestoreTransaction(disk, r.journal);
    DropKeys(old(disk.home.txns), disk.home.txns, r.journal.dir);
  }

  class Plan {
    const registry: Registry
    const stage: Option<nat>
    const base: Manifest
    const changed: bool
    const resources: map<Id, ResourceState>
    const staged: map<Id, StagedFile>
    const maxBytes: int
    var validated: bool
    var committed: bool
    var rolledBack: bool
    var finalized: bool
    var closed: bool
    var commitId: Option<nat>
    var dir: Option<nat>

    constructor (registry: Registry, stage: Option<nat>, base: Manifest, changed: bool,
                 resources: map<Id, ResourceState>, staged: map<Id, StagedFile>, maxBytes: int)
      ensures this.registry == registry && this.stage == stage && this.base == base && this.changed == changed
      ensures this.resources == resources && this.staged == staged && this.maxBytes == maxBytes
      ensures !validated && !committed && !rolledBack && !finalized && !closed && commitId == None && dir == None
    {
      this.registry, this.stage, this.base, this.changed := registry, stage, base, changed;
      this.resources, this.staged, this.maxBytes := resources, staged, maxBytes;
      validated, committed, rolledBack, finalized, closed := false, false, false, false, false;
      commitId, dir := None, None;
    }

    /** What staging guarantees about the plan it hands out. */
    ghost predicate Staged() {
      && maxBytes > 0
      && (forall id :: id in resources ==> ValidState(id, resources[id]))
      && ValidManifest(base) && base.version == 2
      && DistinctNames(Manifest(2, None, None, resources))
      && changed == !SameGeneration(resources, base.resources)
      && (if changed then stage.Some? && staged.Keys == resources.Keys else stage == None)
    }

    /** Committed, and neither accepted nor undone. */
    predicate Unfinished()
      reads this
    {
      committed && !finalized && !rolledBack
    }

    function Candidate(): Manifest
      reads this
    {
      Manifest(2, None, commitId, resources)
    }

    /** Every file the plan refers to, staged or stable, is readable and has its hash. */
    ghost predicate Whole(s: Image) {
      && (stage.Some? ==> stage.value in s.stages)
      && (changed ==> staged.Keys == resources.Keys)
      && forall id :: id in resources ==> FileWhole(s, id)
    }

    ghost predicate FileWhole(s: Image, id: Id)
      requires id in resources
    {
      if changed then id in staged && StagedBytes(s, staged[id], resources[id]) && Readable(s.stages[staged[id].stage][staged[id].name], maxBytes)
      else
        var n := NameOf(id, resources[id].decl);
        n in s.files && Readable(s.files[n], maxBytes) && DigestOf(s.files[n]) == resources[id].sha256
    }

    /** Compares every staged file, or every stable one if nothing changed, with
        what was staged. */
    method VerifyStagedFiles() returns (ok: bool)
      modifies registry.disk`halted, registry.disk`errors
      ensures Lives(registry.disk, ok)
      ensures ok ==> Whole(registry.disk.home)
      ensures !ok && Whole(registry.disk.home) ==> registry.disk.halted || registry.disk.errors > old(registry.disk.errors)
    {
      var disk := registry.disk;
      if disk.halted || (changed && staged.Keys != resources.Keys) || (stage.Some? && stage.value !in disk.home.stages) {
        return false;
      }
      var ids := Enumerate(resources.Keys);
      for k := 0 to |ids|
        invariant !disk.halted && Counting(disk)
        invariant forall i :: 0 <= i < k ==> ids[i] in resources && FileWhole(disk.home, ids[i])
      {
        var id := ids[k];
        assert id in resources.Keys;
        ok := VerifyFile(id);
        if !ok {
          return;
        }
      }
      assert forall id :: id in resources.Keys ==> id in ids;
      ok := true;
    }

    method VerifyFile(id: Id) returns (ok: bool)
      requires id in resources && !registry.disk.halted && (changed ==> id in staged)
      modifies registry.disk`halted, registry.disk`errors
      ensures Lives(registry.disk, ok)
      ensures ok ==> FileWhole(registry.disk.home, id)
      ensures !ok && FileWhole(registry.disk.home, id) ==> registry.disk.halted || registry.disk.errors > old(registry.disk.errors)
    {
      var disk := registry.disk;
      var data;
      if changed {
        data := disk.ReadStaged(staged[id].stage, staged[id].name, maxBytes);
      } else {
        data := disk.ReadFile(NameOf(id, resources[id].decl), maxBytes);
      }
      ok := data.Some? && DigestOf(data.value) == resources[id].sha256;
    }

    ghost predicate StagedBytes(s: Image, file: StagedFile, state: ResourceState) {
      file.stage in s.stages && file.name in s.stages[file.stage] && DigestOf(s.stages[file.stage][file.name]) == state.sha256
    }

    /** What a commit needs: the plan's own base on disk, no open journal, files that fit,
        content that is valid for its declaration, and no file of the user's under a name
        that the plan claims anew. */
    ghost predicate Committable(s: Image)
      requires ValidManifest(base)
    {
      && s.journal == None && Loaded(s) == base && Whole(s) && Fits(s.files, base, maxBytes)
      && (changed ==>
            && |base.resources| + |resources| <= MAX_STATE_BYTES
            && AllStaged(s, Manifest(2, None, None, resources), staged, maxBytes)
            && NewNamesFree(s, Manifest(2, None, None, resources)))
    }

    /** Lets the caller check the complete generated configuration. Only a plan that
        passed may be committed. */
    method Validate(accepted: bool) returns (ok: bool)
      modifies this`validated, registry.disk`halted, registry.disk`errors
      ensures Lives(registry.disk, ok)
      ensures ok ==> validated && accepted && !closed && !committed && !rolledBack
      ensures ok ==> Whole(registry.disk.home)
      ensures !ok && accepted && !old(registry.disk.halted) && !closed && !committed && !rolledBack && Whole(registry.disk.home) ==>
        registry.disk.halted || registry.disk.errors > old(registry.disk.errors)
      ensures !ok ==> !validated || validated == old(validated)
      ensures !ok && validated ==> closed || committed || rolledBack
    {
      if registry.disk.halted {
        validated := false;
        return false;
      }
      if closed || committed || rolledBack {
        return false;
      }
      ok := VerifyStagedFiles();
      if ok && accepted {
        ok := VerifyStagedFiles();
      } else {
        ok := false;
      }
      validated := ok;
    }

    /** The plan's promotion is complete and waits behind the open journal. */
    ghost predicate Waiting()
      reads this, registry, registry.disk
    {
      && Promoted(registry.disk.home) && commitId.Some? && dir.Some?
      && registry.disk.home.journal.value.candidate == Candidate()
      && registry.disk.home.journal.value.dir == dir.value
      && (stage.Some? ==> stage.value in registry.disk.home.stages)
    }

    /** The journal on disk, open or accepted, and the manifest are this plan's. */
    ghost predicate Mine()
      reads this, registry, registry.disk
    {
      && registry.disk.home.journal.Some? && registry.disk.home.journal.value.candidate.commitId == commitId
      && dir == Some(registry.disk.home.journal.value.dir)
      && Loaded(registry.disk.home).version == 2 && Loaded(registry.disk.home).commitId == commitId
    }

    lemma WaitingIsMine()
      requires Waiting()
      ensures Mine()
    {
    }

    /** A journal that this plan opened, under an identity issued just now. */
    ghost predicate Opened(j: Journal, previous: Manifest, low: nat, high: nat) {
      && j.previous == previous && j.candidate.commitId.Some? && low <= j.candidate.commitId.value < high
      && j.candidate == Manifest(2, None, j.candidate.commitId, resources)
    }

    lemma CommitReady(s: Image, document: Manifest)
      requires Sound(s) && Staged() && Committable(s) && document.commitId.Some? && document == Manifest(2, None, document.commitId, resources)
      ensures Promotes(s, changed, maxBytes, document, staged)
    {
      hide Sound, Whole, AllStaged, NewNamesFree, Promotable, ValidManifest, ValidJournal, SameGeneration, Owners;
      if changed {
        CommitChanged(s, document);
      } else {
        CommitUnchanged(document);
      }
    }

    lemma CommitUnchanged(document: Manifest)
      requires Staged() && !changed && document.commitId.Some? && document == Manifest(2, None, document.commitId, resources)
      ensures ValidJournal(Journal(Promoting, 0, maxBytes, base, document, true, []))
    {
      SameOwners(Manifest(2, None, None, resources), document);
      assert ValidManifest(document) by {
        hide ValidState;
      }
      UnchangedIffMetadataJournal(Journal(Promoting, 0, maxBytes, base, document, true, []));
    }

    lemma CommitChanged(s: Image, document: Manifest)
      requires Sound(s) && Staged() && changed && Committable(s) && document.commitId.Some? && document == Manifest(2, None, document.commitId, resources)
      ensures Promotable(s, document, staged, maxBytes)
    {
      hide Sound, Holds, Fits, Whole, AllStaged, NewNamesFree, Promotable, ValidManifest, ValidState, WellFormedPromotion, SameGeneration, Owners, DistinctNames;
      var bare := Manifest(2, None, None, resources);
      SoundHolds(s);
      SameOwners(bare, document);
      IsWellFormed(document, staged);
      IdIsFree(s, bare, document, staged, maxBytes);
      PlanPromotable(s, document, staged, maxBytes);
    }

    /** Promotes the plan's resources and leaves the way back open. Nothing that a
        start-up would expose changes yet. */
    method Commit() returns (ok: bool)
      requires registry.Valid() && Staged()
      modifies this`committed, this`commitId, this`dir, registry`active
      modifies registry.disk`home, registry.disk`halted, registry.disk`errors, registry.disk`nextId
      ensures registry.Valid() && Keeps(registry.disk) && Lives(registry.disk, ok)
      ensures ok ==> Waiting() && committed && registry.active == Candidate()
      ensures ok ==> old(validated && !closed && !committed && !rolledBack) && old(registry.disk.home.journal) == None
      ensures ok ==> old(Loaded(registry.disk.home).commitId) == base.commitId
      ensures ok ==> registry.disk.home.journal.value.previous == old(Loaded(registry.disk.home))
      ensures ok ==> commitId.value >= old(registry.disk.nextId) && commitId.value < registry.disk.nextId
      ensures !ok && old(validated && !closed && !committed && !rolledBack && !registry.disk.halted && Committable(registry.disk.home)) ==>
        registry.disk.halted || registry.disk.errors > old(registry.disk.errors)
      ensures !ok ==> committed == old(committed) && commitId == old(commitId) && dir == old(dir) && registry.active == old(registry.active)
      ensures registry.disk.home.journal.Some? && registry.disk.home.journal != old(registry.disk.home.journal) ==>
        Opened(registry.disk.home.journal.value, old(Loaded(registry.disk.home)), old(registry.disk.nextId), registry.disk.nextId)
      ensures registry.disk.home.journal == None ==> old(registry.disk.home.journal) == None
      ensures old(registry.disk.home.journal).Some? ==> registry.disk.home == old(registry.disk.home)
      ensures !ok && registry.disk.home.journal.Some? ==> registry.disk.halted || old(registry.disk.home.journal).Some? || registry.disk.errors > old(registry.disk.errors)
      ensures !ok && registry.disk.home.journal.Some? && registry.disk.errors == old(registry.disk.errors) + 1 ==>
        registry.disk.halted || old(registry.disk.home.journal).Some? || (!changed && Loaded(registry.disk.home) == old(Loaded(registry.disk.home)))
    {
      hide Sound, Committed, Whole, Fits, ValidManifest, Promoted, Staged, Committable;
      var disk := registry.disk;
      if disk.halted || closed || committed || rolledBack || !validated {
        return false;
      }
      CommittableMeans(disk.home);
      ok := VerifyStagedFiles();
      if !ok || disk.home.journal.Some? {
        return false;
      }
      var current := Loaded(disk.home);
      if current.version != base.version || current.commitId != base.commitId {
        return false;
      }
      var document, d := PromoteOwn();
      if d == None {
        return false;
      }
      registry.active, commitId, dir, committed := document, document.commitId, d, true;
      ok := true;
    }

    lemma CommittableMeans(s: Image)
      requires Staged()
      ensures ValidManifest(base)
      ensures Committable(s) ==> s.journal == None && Loaded(s) == base && Whole(s)
      ensures stage.Some? && Whole(s) ==> stage.value in s.stages
    {
      hide AllStaged, NewNamesFree, Fits;
    }

    /** The promotion under an identity issued just now. */
    method PromoteOwn() returns (document: Manifest, d: Option<nat>)
      requires registry.Valid() && Staged() && registry.disk.home.journal == None && !registry.disk.halted
      modifies registry.disk`home, registry.disk`halted, registry.disk`errors, registry.disk`nextId
      ensures registry.Valid() && Keeps(registry.disk) && Lives(registry.disk, d.Some?)
      ensures document == Manifest(2, None, document.commitId, resources) && document.commitId.Some?
      ensures old(registry.disk.nextId) <= document.commitId.value < registry.disk.nextId
      ensures d.Some? ==> Promoted(registry.disk.home) && Describes(registry.disk.home.journal.value, d.value, maxBytes, old(Loaded(registry.disk.home)), document)
      ensures registry.disk.home.journal.Some? ==> Links(registry.disk.home.journal.value, old(Loaded(registry.disk.home)), document)
      ensures registry.disk.home.stages == old(registry.disk.home.stages)
      ensures d == None && registry.disk.home.journal.Some? ==> registry.disk.halted || registry.disk.errors > old(registry.disk.errors)
      ensures d == None && registry.disk.home.journal.Some? && registry.disk.errors == old(registry.disk.errors) + 1 ==>
        registry.disk.halted || (!changed && Loaded(registry.disk.home) == old(Loaded(registry.disk.home)))
      ensures d == None && old(Committable(registry.disk.home)) ==> registry.disk.halted || registry.disk.errors > old(registry.disk.errors)
    {
      hide Whole, AllStaged, NewNamesFree, Promotes, Fits, ValidManifest, SameGeneration, DistinctNames, Promoted, Sound, Committed;
      var disk := registry.disk;
      var id := disk.NewId();
      document := Manifest(2, None, Some(id), resources);
      if Committable(disk.home) {
        CommitReady(disk.home, document);
      }
      d := PromotePlan(disk, changed, maxBytes, document, staged);
    }

    /** Accepts the promotion: the one step that changes what a start-up exposes. */
    method Finalize() returns (ok: bool)
      requires registry.Valid()
      requires InPromotion(registry.disk.home) ==> Promoted(registry.disk.home)
      modifies this`finalized, this`closed, registry.disk`home, registry.disk`halted, registry.disk`errors
      ensures registry.Valid() && Lives(registry.disk, ok) && Accepts(registry.disk)
      ensures ok ==> finalized
      ensures !old(Unfinished()) ==> registry.disk.home == old(registry.disk.home) && finalized == old(finalized)
      ensures ok && !old(finalized) ==> closed && old(committed && !rolledBack)
      ensures ok && !old(finalized) && dir.Some? ==> registry.disk.home.journal == None
      ensures ok && !old(finalized) && stage.Some? ==> stage.value !in registry.disk.home.stages && stage.value in old(registry.disk.home.stages)
      ensures ok && !old(finalized) ==> old(Loaded(registry.disk.home).version == 2 && Loaded(registry.disk.home).commitId == commitId)
      ensures !ok ==> finalized == old(finalized) && closed == old(closed)
      ensures registry.disk.home.journal.Some? ==> registry.disk.home.txns == old(registry.disk.home.txns)
      ensures !ok && old(Waiting() && Unfinished() && !registry.disk.halted) ==> registry.disk.halted || registry.disk.errors > old(registry.disk.errors)
      ensures !ok && !registry.disk.halted && old(registry.disk.home.journal.Some?) ==> registry.disk.home.journal.Some?
    {
      hide Sound, Committed, Foreign, Promoted;
      if Waiting() {
        WaitingIsMine();
      }
      var disk := registry.disk;
      if disk.halted {
        return false;
      }
      if finalized {
        return true;
      }
      if !committed || rolledBack {
        return false;
      }
      var current := Loaded(disk.home);
      if current.version != 2 || current.commitId != commitId {
        return false;
      }
      ok := FinalizeStage(disk, stage, commitId, dir);
      if ok {
        finalized, closed := true, true;
      }
    }

    /** Undoes the promotion after the runtime refused it. As long as the journal is
        still open, a crash at any point of this is harmless. */
    method Rollback() returns (ok: bool)
      requires registry.Valid()
      requires registry.disk.home.journal.Some? ==> Undoable(registry.disk.home, registry.disk.home.journal.value)
      modifies this`rolledBack, registry`active, registry.disk`home, registry.disk`halted, registry.disk`errors
      ensures Lives(registry.disk, ok)
      ensures !old(registry.disk.home.journal.Some? && registry.disk.home.journal.value.phase == Accepted) ==> registry.Valid() && Keeps(registry.disk)
      ensures registry.disk.home.journal == None || registry.disk.home.journal == old(registry.disk.home.journal)
      ensures Named(registry.disk) && (registry.disk.home.journal == None ==> Sound(registry.disk.home))
      ensures ok ==> registry.Valid() && old(Unfinished()) && rolledBack && registry.active == base
      ensures !old(Unfinished()) ==> registry.disk.home == old(registry.disk.home)
      ensures ok && dir.Some? ==> old(registry.disk.home.journal.Some?) && registry.disk.home.journal == None
      ensures ok ==> old(Loaded(registry.disk.home).version == 2 && Loaded(registry.disk.home).commitId == commitId)
      ensures registry.disk.home.journal == None && old(registry.disk.home.journal.Some?) ==>
        && registry.disk.home.manifest == Some(old(registry.disk.home.journal.value.previous))
        && registry.disk.home.files ==
           old(Restored(registry.disk.home.files, Undo(registry.disk.home.journal.value.files, registry.disk.home.txns[registry.disk.home.journal.value.dir])))
      ensures !ok ==> rolledBack == old(rolledBack) && registry.active == old(registry.active)
      ensures !ok && old(Mine() && Unfinished() && !registry.disk.halted) ==> registry.disk.halted || registry.disk.errors > old(registry.disk.errors)
    {
      var disk := registry.disk;
      if disk.halted || !committed || rolledBack || finalized {
        return false;
      }
      var current := Loaded(disk.home);
      if current.version != 2 || current.commitId != commitId {
        return false;
      }
      if dir.Some? {
        ok := RollbackJournal(disk, commitId, dir.value);
        if !ok {
          return;
        }
      }
      registry.active, rolledBack := base, true;
      ok := true;
    }

    /** Drops the staging directory of a plan that is not committed, or was undone. */
    method Abort() returns (ok: bool)
      requires registry.Valid()
      modifies this`closed, registry.disk`home, registry.disk`halted, registry.disk`errors
      ensures registry.Valid() && Keeps(registry.disk) && Lives(registry.disk, ok)
      ensures registry.disk.home == old(registry.disk.home).(stages := registry.disk.home.stages)
      ensures ok ==> closed && !(committed && !rolledBack && !old(closed))
      ensures old(Unfinished()) ==> registry.disk.home == old(registry.disk.home)
      ensures forall d :: d in old(registry.disk.home.stages) && stage != Some(d) ==> d in registry.disk.home.stages
      ensures !ok ==> closed == old(closed)
      ensures ok && !old(closed) && stage.Some? ==> stage.value !in registry.disk.home.stages
      ensures !ok && !old(registry.disk.halted) && (old(closed) || !committed || rolledBack) ==>
        registry.disk.halted || registry.disk.errors > old(registry.disk.errors)
    {
      if registry.disk.halted {
        return false;
      }
      if closed {
        return true;
      }
      if committed && !rolledBack {
        return false;
      }
      if stage.Some? {
        ok := RemovePlanStage(registry.disk, stage.value);
        if !ok {
          return;
        }
      }
      closed := true;
      ok := true;
    }
  }

  /** Committing this plan cannot fail but for the disk. */
  ghost predicate Certain(p: Plan)
    reads p, p.registry, p.registry.disk
  {
    && ValidManifest(p.base) && p.validated && !p.closed && !p.committed && !p.rolledBack
    && !p.registry.disk.halted && p.Committable(p.registry.disk.home)
  }

  /** What preparation guarantees about each resource it hands to staging. */
  predicate PreparedOk(prepared: map<Id, Prepared>) {
    && (forall id :: id in prepared ==> ValidState(id, prepared[id].state))
    && (forall id :: id in prepared && prepared[id].body.Some? ==> DigestOf(prepared[id].body.value) == prepared[id].state.sha256)
    && DistinctNames(Manifest(2, None, None, States(prepared)))
  }

  function States(prepared: map<Id, Prepared>): map<Id, ResourceState> {
    map id | id in prepared :: prepared[id].state
  }

  /** The bytes of a prepared resource, its own or those of the committed file, are at hand,
      fit, and are the promised ones. */
  ghost predicate Copyable(files: map<Name, Body>, id: Id, item: Prepared, maxBytes: int) {
    if item.body.Some? then Readable(item.body.value, maxBytes) && DigestOf(item.body.value) == item.state.sha256
    else
      var n := NameOf(id, item.state.decl);
      n in files && Readable(files[n], maxBytes) && DigestOf(files[n]) == item.state.sha256
  }

  ghost predicate AllCopyable(files: map<Name, Body>, prepared: map<Id, Prepared>, maxBytes: int) {
    forall id :: id in prepared ==> Copyable(files, id, prepared[id], maxBytes)
  }

  /** Memory and disk name the same commit of the present layout. */
  ghost predicate InTouch(active: Manifest, s: Image) {
    active.version == Loaded(s).version == 2 && active.commitId == Loaded(s).commitId
  }

  /** Stages a complete candidate set over the manifest on disk. An unchanged set is
      not copied: its plan refers to the stable files. */
  method StagePlan(registry: Registry, prepared: map<Id, Prepared>) returns (p: Plan?)
    requires registry.Valid() && PreparedOk(prepared)
    modifies registry.disk`home, registry.disk`halted, registry.disk`errors, registry.disk`nextId
    ensures registry.Valid() && Keeps(registry.disk) && Lives(registry.disk, p != null)
    ensures registry.disk.home == old(registry.disk.home).(stages := registry.disk.home.stages)
    ensures p != null ==> fresh(p) && p.registry == registry && p.Staged() && p.base == Loaded(registry.disk.home)
    ensures p != null && p.stage.Some? ==> old(registry.disk.nextId) <= p.stage.value < registry.disk.nextId
    ensures forall d :: d in old(registry.disk.home.stages) && d < old(registry.disk.nextId) ==> d in registry.disk.home.stages
    ensures p != null ==> !p.validated && !p.closed && !p.rolledBack
    ensures p != null ==> p.commitId == None && !p.committed && !p.finalized && p.resources == States(prepared)
    ensures p != null ==> registry.active.commitId == p.base.commitId && registry.active.version == 2
    ensures p != null && p.changed ==> forall id :: id in p.resources ==> id in p.staged && p.StagedBytes(registry.disk.home, p.staged[id], p.resources[id])
    ensures p != null ==> InTouch(registry.active, registry.disk.home) && p.maxBytes == registry.maxBytes
    ensures p != null && old(AllCopyable(registry.disk.home.files, prepared, registry.maxBytes)) && registry.disk.home.journal == None ==> p.Whole(registry.disk.home)
    ensures p == null && old(!registry.disk.halted && InTouch(registry.active, registry.disk.home) && AllCopyable(registry.disk.home.files, prepared, registry.maxBytes)) ==>
      registry.disk.halted || registry.disk.errors > old(registry.disk.errors)
    ensures p == null && !registry.disk.halted && registry.disk.errors == old(registry.disk.errors) ==> registry.disk.home == old(registry.disk.home)
  {
    hide AllCopyable, AllReadable, Copied, Sound, Committed, Plan.Whole, Plan.StagedBytes, SameGeneration, ValidManifest, ValidState, InPlace, DistinctNames;
    PreparedMeans(prepared);
    SoundIsLoadable(registry.disk.home);
    var disk := registry.disk;
    if disk.halted {
      return null;
    }
    var base := Loaded(disk.home);
    if base.version != registry.active.version || base.commitId != registry.active.commitId || base.version != 2 {
      return null;
    }
    if SameGeneration(States(prepared), base.resources) {
      p := new Plan(registry, None, base, false, States(prepared), map[], registry.maxBytes);
      if AllCopyable(disk.home.files, prepared, registry.maxBytes) && disk.home.journal == None {
        UnchangedIsWhole(disk.home, prepared, registry.maxBytes);
        PlaceIsWhole(p, disk.home);
      }
      return;
    }
    var stage, staged := FillStage(disk, prepared, registry.maxBytes);
    if staged == None {
      return null;
    }
    p := new Plan(registry, stage, base, true, States(prepared), staged.value, registry.maxBytes);
    CopiedIsWhole(p, disk.home, prepared);
  }

  lemma PreparedMeans(prepared: map<Id, Prepared>)
    requires PreparedOk(prepared)
    ensures forall id :: id in States(prepared) ==> ValidState(id, States(prepared)[id])
    ensures DistinctNames(Manifest(2, None, None, States(prepared)))
  {
  }

  lemma SoundIsLoadable(s: Image)
    requires Sound(s)
    ensures ValidManifest(Loaded(s))
  {
  }

  lemma PlaceIsWhole(p: Plan, s: Image)
    requires !p.changed && p.stage == None && forall id :: id in p.resources ==> InPlace(s.files, id, p.resources[id], p.maxBytes)
    ensures p.Whole(s)
  {
  }

  lemma CopiedIsWhole(p: Plan, s: Image, prepared: map<Id, Prepared>)
    requires p.changed && p.resources == States(prepared) && p.stage.Some? && p.stage.value in s.stages
    requires p.staged.Keys == prepared.Keys && Copied(s.stages, p.stage.value, prepared, p.staged)
    ensures forall id :: id in p.resources ==> id in p.staged && p.StagedBytes(s, p.staged[id], p.resources[id])
    ensures AllReadable(s.stages, p.staged, p.maxBytes) ==> p.Whole(s)
  {
  }

  /** The files of an unchanged set are the committed ones. */
  lemma UnchangedIsWhole(s: Image, prepared: map<Id, Prepared>, maxBytes: int)
    requires Sound(s) && s.journal == None && Loaded(s).version == 2
    requires SameGeneration(States(prepared), Loaded(s).resources) && AllCopyable(s.files, prepared, maxBytes)
    ensures forall id :: id in prepared ==> InPlace(s.files, id, prepared[id].state, maxBytes)
  {
    SoundHolds(s);
    forall id | id in prepared ensures InPlace(s.files, id, prepared[id].state, maxBytes) {
      assert id in States(prepared) && id in Loaded(s).resources;
      assert ResourceName(Loaded(s), id) == NameOf(id, prepared[id].state.decl);
      assert Copyable(s.files, id, prepared[id], maxBytes);
    }
  }

  predicate InPlace(files: map<Name, Body>, id: Id, state: ResourceState, maxBytes: int) {
    var n := NameOf(id, state.decl);
    n in files && Readable(files[n], maxBytes) && DigestOf(files[n]) == state.sha256
  }

  method FillStage(disk: Disk, prepared: map<Id, Prepared>, maxBytes: int) returns (stage: Option<nat>, staged: Option<map<Id, StagedFile>>)
    requires Sound(disk.home) && Named(disk) && !disk.halted && PreparedOk(prepared)
    modifies disk`home, disk`halted, disk`errors, disk`nextId
    ensures Keeps(disk) && Named(disk) && Lives(disk, staged.Some?)
    ensures disk.home == old(disk.home).(stages := disk.home.stages)
    ensures staged.Some? ==> stage.Some? && stage.value in disk.home.stages && staged.value.Keys == prepared.Keys && Copied(disk.home.stages, stage.value, prepared, staged.value)
    ensures stage.Some? ==> old(disk.nextId) <= stage.value < disk.nextId
    ensures forall d :: d in old(disk.home.stages) && d < old(disk.nextId) ==> d in disk.home.stages
    ensures staged.Some? && old(AllCopyable(disk.home.files, prepared, maxBytes)) ==> AllReadable(disk.home.stages, staged.value, maxBytes)
    ensures staged == None && old(AllCopyable(disk.home.files, prepared, maxBytes)) ==> disk.halted || disk.errors > old(disk.errors)
    ensures staged == None && !disk.halted && disk.errors == old(disk.errors) ==> disk.home == old(disk.home)
  {
    hide PreparedOk, Copied, AllCopyable, AllReadable;
    ghost var h0 := disk.home;
    stage, staged := FillOwnStage(disk, prepared, maxBytes);
    ScratchStep(h0, disk.home);
  }

  /** Makes a staging directory and fills it; if that fails it is dropped again. */
  method FillOwnStage(disk: Disk, prepared: map<Id, Prepared>, maxBytes: int) returns (stage: Option<nat>, staged: Option<map<Id, StagedFile>>)
    requires Named(disk) && !disk.halted && PreparedOk(prepared)
    modifies disk`home, disk`halted, disk`errors, disk`nextId
    ensures Named(disk) && Lives(disk, staged.Some?)
    ensures disk.home == old(disk.home).(stages := disk.home.stages)
    ensures staged.Some? ==> stage.Some? && stage.value in disk.home.stages && staged.value.Keys == prepared.Keys && Copied(disk.home.stages, stage.value, prepared, staged.value)
    ensures stage.Some? ==> old(disk.nextId) <= stage.value < disk.nextId
    ensures forall d :: d in old(disk.home.stages) && d < old(disk.nextId) ==> d in disk.home.stages
    ensures staged.Some? && old(AllCopyable(disk.home.files, prepared, maxBytes)) ==> AllReadable(disk.home.stages, staged.value, maxBytes)
    ensures staged == None && old(AllCopyable(disk.home.files, prepared, maxBytes)) ==> disk.halted || disk.errors > old(disk.errors)
    ensures staged == None && !disk.halted && disk.errors == old(disk.errors) ==> disk.home == old(disk.home)
  {
    hide PreparedOk, Copied, AllCopyable, AllReadable;
    staged := None;
    stage := disk.MakeStage();
    if stage.Some? {
      staged := CopyIn(disk, stage.value, prepared, maxBytes);
      if staged == None && stage.value in disk.home.stages {
        ghost var h1 := disk.home;
        var _ := disk.RemoveStage(stage.value);
        DropKeys(h1.stages, disk.home.stages, stage.value);
        OtherKeys(h1.stages, disk.home.stages, stage.value);
        SameKeys(old(disk.home.stages), h1.stages, disk.home.stages, stage.value);
      }
    }
  }

  /** A directory that came and went leaves nothing behind. */
  lemma SameKeys<T>(first: map<nat, T>, second: map<nat, T>, third: map<nat, T>, d: nat)
    requires second - {d} == first - {d} && third - {d} == second - {d} && d !in first
    ensures d !in third ==> third == first
  {
    if d !in third {
      assert third == third - {d} && first == first - {d};
    }
  }

  ghost predicate AllReadable(stages: map<nat, map<Name, Body>>, staged: map<Id, StagedFile>, maxBytes: int) {
    forall id :: id in staged ==>
      staged[id].stage in stages && staged[id].name in stages[staged[id].stage] && Readable(stages[staged[id].stage][staged[id].name], maxBytes)
  }

  /** Each staged resource lies under its name with the bytes its state promises. */
  ghost predicate Copied(stages: map<nat, map<Name, Body>>, stage: nat, prepared: map<Id, Prepared>, staged: map<Id, StagedFile>) {
    && staged.Keys <= prepared.Keys
    && forall id :: id in staged ==> (staged[id] == StagedFile(stage, NameOf(id, prepared[id].state.decl)) && CopyOk(stages, staged[id], prepared[id].state))
  }

  predicate CopyOk(stages: map<nat, map<Name, Body>>, file: StagedFile, state: ResourceState) {
    file.stage in stages && file.name in stages[file.stage] && DigestOf(stages[file.stage][file.name]) == state.sha256
  }

  /** Another copy does not disturb the earlier ones: their names differ. */
  lemma CopyMore(stages: map<nat, map<Name, Body>>, stage: nat, prepared: map<Id, Prepared>, staged: map<Id, StagedFile>, id: Id, body: Body)
    requires Copied(stages, stage, prepared, staged) && PreparedOk(prepared) && id in prepared && id !in staged && stage in stages
    requires DigestOf(body) == prepared[id].state.sha256
    ensures
      var n := NameOf(id, prepared[id].state.decl);
      var next := stages[stage := stages[stage][n := body]];
      && Copied(next, stage, prepared, staged[id := StagedFile(stage, n)])
      && forall maxBytes :: AllReadable(stages, staged, maxBytes) && Readable(body, maxBytes) ==> AllReadable(next, staged[id := StagedFile(stage, n)], maxBytes)
  {
    var m := Manifest(2, None, None, States(prepared));
    forall other | other in staged ensures NameOf(other, prepared[other].state.decl) != NameOf(id, prepared[id].state.decl) {
      assert ResourceName(m, other) == NameOf(other, prepared[other].state.decl) && ResourceName(m, id) == NameOf(id, prepared[id].state.decl);
    }
  }

  lemma PreparedBody(prepared: map<Id, Prepared>, id: Id)
    requires PreparedOk(prepared) && id in prepared && prepared[id].body.Some?
    ensures DigestOf(prepared[id].body.value) == prepared[id].state.sha256
  {
  }

  lemma CopyableMeans(files: map<Name, Body>, prepared: map<Id, Prepared>, id: Id, maxBytes: int)
    requires id in prepared
    ensures AllCopyable(files, prepared, maxBytes) ==> Copyable(files, id, prepared[id], maxBytes)
  {
  }

  lemma NothingCopied(stages: map<nat, map<Name, Body>>, stage: nat, prepared: map<Id, Prepared>)
    ensures Copied(stages, stage, prepared, map[]) && forall maxBytes :: AllReadable(stages, map[], maxBytes)
  {
  }

  /** The fetched bytes of a resource, or the committed file where the bytes did not change. */
  method BodyOf(disk: Disk, prepared: map<Id, Prepared>, id: Id, maxBytes: int) returns (body: Option<Body>)
    requires id in prepared && PreparedOk(prepared)
    modifies disk`halted, disk`errors
    ensures Lives(disk, !disk.halted)
    ensures body.Some? ==> DigestOf(body.value) == prepared[id].state.sha256 && disk.halted == old(disk.halted)
    ensures body.Some? && AllCopyable(disk.home.files, prepared, maxBytes) ==> Readable(body.value, maxBytes)
    ensures body == None && AllCopyable(disk.home.files, prepared, maxBytes) ==> disk.halted || disk.errors > old(disk.errors)
  {
    hide PreparedOk, AllCopyable;
    CopyableMeans(disk.home.files, prepared, id, maxBytes);
    body := prepared[id].body;
    if body.Some? {
      PreparedBody(prepared, id);
      return;
    }
    body := disk.ReadFile(NameOf(id, prepared[id].state.decl), maxBytes);
    if body.Some? && DigestOf(body.value) != prepared[id].state.sha256 {
      body := None;
    }
  }

  /** Copies the bytes of every prepared resource into the stage. */
  method CopyIn(disk: Disk, stage: nat, prepared: map<Id, Prepared>, maxBytes: int) returns (r: Option<map<Id, StagedFile>>)
    requires stage in disk.home.stages && !disk.halted && PreparedOk(prepared)
    modifies disk`home, disk`halted, disk`errors
    ensures Lives(disk, r.Some?)
    ensures disk.home == old(disk.home).(stages := disk.home.stages) && disk.home.stages.Keys == old(disk.home.stages.Keys)
    ensures r.Some? ==> r.value.Keys == prepared.Keys && Copied(disk.home.stages, stage, prepared, r.value)
    ensures r.Some? && old(AllCopyable(disk.home.files, prepared, maxBytes)) ==> AllReadable(disk.home.stages, r.value, maxBytes)
    ensures r == None && old(AllCopyable(disk.home.files, prepared, maxBytes)) ==> disk.halted || disk.errors > old(disk.errors)
    ensures disk.home.stages - {stage} == old(disk.home.stages) - {stage}
  {
    hide PreparedOk, Copied, AllReadable, AllCopyable, NameOf, Readable, ValidState;
    var staged: map<Id, StagedFile> := map[];
    var left := prepared.Keys;
    NothingCopied(disk.home.stages, stage, prepared);
    while left != {}
      invariant !disk.halted && Counting(disk) && left <= prepared.Keys && staged.Keys == prepared.Keys - left
      invariant disk.home == old(disk.home).(stages := disk.home.stages) && disk.home.stages.Keys == old(disk.home.stages.Keys)
      invariant Copied(disk.home.stages, stage, prepared, staged)
      invariant AllCopyable(disk.home.files, prepared, maxBytes) ==> AllReadable(disk.home.stages, staged, maxBytes)
      invariant disk.home.stages - {stage} == old(disk.home.stages) - {stage}
      decreases left
    {
      var id :| id in left;
      var n := NameOf(id, prepared[id].state.decl);
      var body := BodyOf(disk, prepared, id, maxBytes);
      if body == None {
        return None;
      }
      CopyMore(disk.home.stages, stage, prepared, staged, id, body.value);
      var ok := disk.WriteStaged(stage, n, body.value);
      if !ok {
        return None;
      }
      staged, left := staged[id := StagedFile(stage, n)], left - {id};
    }
    r := Some(staged);
  }
}
