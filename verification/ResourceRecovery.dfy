/** Opening the managed home: recovery of an interrupted promotion, removal of
    orphans, and migration of the version 1 layout. */
module ResourceRecovery {
  import opened Common
  import opened ResourceManifest
  import opened ResourceImage
  import opened Storage
  import opened ResourceTransaction
  import opened ResourcePromotion

  /** The resources a view exposes: for each ID its state and its bytes, wherever
      the layout keeps them. */
  ghost function Contents(v: View): map<Id, (ResourceState, Option<Body>)> {
    map id | id in v.manifest.resources :: (v.manifest.resources[id], StoredBody(v, id))
  }

  ghost function StoredBody(v: View, id: Id): Option<Body>
    requires id in v.manifest.resources
  {
    var n := ResourceName(v.manifest, id);
    var g := v.manifest.generation;
    if v.manifest.version == 2 then (if n in v.files then Some(v.files[n]) else None)
    else if g.Some? && g.value in v.generations && n in v.generations[g.value] then Some(v.generations[g.value][n])
    else None
  }

  /** A home whose accepted journal is readable, on manifests that their commit IDs tell
      apart. Start-up may still refuse it. */
  ghost predicate Accepting(s: Image) {
    && s.journal.Some? && s.journal.value.phase == Accepted && Sensible(s)
    && ValidManifest(Loaded(s))
    && (Loaded(s).commitId == s.journal.value.candidate.commitId ==> Loaded(s) == s.journal.value.candidate)
  }

  lemma AcceptingIsSoundIff(s: Image)
    requires Accepting(s)
    ensures Sound(s) <==>
      var j := s.journal.value;
      Loaded(s).version == 2 && Loaded(s).commitId == j.candidate.commitId && Holds(s.files, j.candidate) && ResourceImage.Fits(s.files, j.candidate, j.maxBytes)
  {
    ValidIsDistinct(s.journal.value);
  }

  lemma ValidIsDistinct(j: Journal)
    requires ValidJournal(j)
    ensures DistinctEntries(j.files)
  {
  }

  /** Acts on whatever journal a dead process left: an accepted one is only cleaned
      up, an open one is undone. An accepted one over other files or another manifest is
      refused, for good. */
  method RecoverTransaction(disk: Disk) returns (ok: bool)
    requires Named(disk) && (Sound(disk.home) || Accepting(disk.home))
    modifies disk`home, disk`halted, disk`errors
    ensures old(Sound(disk.home)) ==> Ends(disk, ok) && Keeps(disk) && Named(disk)
    ensures old(Sound(disk.home)) && ok ==> disk.home.journal == None
    ensures !old(Sound(disk.home)) ==> !ok && disk.home == old(disk.home) && Lives(disk, ok)
  {
    if Sound(disk.home) {
      SoundIsSensible(disk.home);
    }
    hide Sound, Committed, ValidManifest, ValidJournal, Holds;
    var r := ReadTransaction(disk);
    if r == Missing {
      return true;
    }
    if r == Unreadable {
      return false;
    }
    var j := r.journal;
    ghost var txns := disk.home.txns;
    if j.phase == Accepted {
      ok := RecoverAccepted(disk, j);
      return;
    }
    Exposed(disk.home);
    ValidIsDistinct(j);
    ghost var at;
    ok, at := RestoreTransaction(disk, j);
    DropKeys(txns, disk.home.txns, j.dir);
  }

  method RecoverAccepted(disk: Disk, j: Journal) returns (ok: bool)
    requires Named(disk) && !disk.halted && (Sound(disk.home) || Accepting(disk.home))
    requires disk.home.journal == Some(j) && j.phase == Accepted && ValidJournal(j)
    modifies disk`home, disk`halted, disk`errors
    ensures old(Sound(disk.home)) ==> Ends(disk, ok) && Keeps(disk) && Named(disk)
    ensures old(Sound(disk.home)) && ok ==> disk.home.journal == None
    ensures !old(Sound(disk.home)) ==> !ok && disk.home == old(disk.home) && Lives(disk, ok)
  {
    if !Sound(disk.home) {
      AcceptingIsSoundIff(disk.home);
    } else {
      Exposed(disk.home);
      AcceptedHolds(disk.home);
    }
    hide Sound, Committed, Holds, ResourceImage.Fits;
    var current := Loaded(disk.home);
    if current.version != 2 || current.commitId != j.candidate.commitId {
      return false;
    }
    ok := VerifyManifestFiles(disk, j.candidate, j.maxBytes);
    if ok {
      ok := RemoveTransaction(disk, j.dir);
    }
  }

  lemma AcceptedHolds(s: Image)
    requires Sound(s) && s.journal.Some? && s.journal.value.phase == Accepted
    ensures s.journal.value.candidate.version == 2
    ensures Holds(s.files, s.journal.value.candidate) && ResourceImage.Fits(s.files, s.journal.value.candidate, s.journal.value.maxBytes)
  {
  }

  /** Private directories that no journal needs any more. */
  method RemoveOrphans(disk: Disk) returns (ok: bool)
    requires Sound(disk.home) && Named(disk) && disk.home.journal == None
    modifies disk`home, disk`halted, disk`errors
    ensures Ends(disk, ok)
    ensures Keeps(disk) && Named(disk)
    ensures disk.home == old(disk.home).(txns := disk.home.txns, stages := disk.home.stages)
    ensures ok ==> disk.home.txns == map[] && disk.home.stages == map[]
  {
    ghost var h0 := disk.home;
    ok := RemoveAllTxns(disk);
    if ok {
      ok := RemoveAllStages(disk);
    }
    ScratchStep(h0, disk.home);
  }

  method RemoveAllTxns(disk: Disk) returns (ok: bool)
    modifies disk`home, disk`halted, disk`errors
    ensures Ends(disk, ok)
    ensures disk.home == old(disk.home).(txns := disk.home.txns)
    ensures disk.home.txns.Keys <= old(disk.home.txns.Keys)
    ensures ok ==> disk.home.txns == map[]
  {
    if disk.halted {
      return false;
    }
    var left := disk.home.txns.Keys;
    while left != {}
      invariant !disk.halted && Counting(disk)
      invariant disk.home == old(disk.home).(txns := disk.home.txns)
      invariant disk.home.txns.Keys == left <= old(disk.home.txns.Keys)
      decreases left
    {
      var d :| d in left;
      ghost var before := disk.home.txns;
      ok := disk.RemoveTxn(d);
      DropKeys(before, disk.home.txns, d);
      if !ok {
        return;
      }
      left := left - {d};
      assert disk.home.txns - {d} == disk.home.txns;
      assert (before - {d}).Keys == left;
    }
    ok := true;
  }

  method RemoveAllStages(disk: Disk) returns (ok: bool)
    modifies disk`home, disk`halted, disk`errors
    ensures Ends(disk, ok)
    ensures disk.home == old(disk.home).(stages := disk.home.stages)
    ensures disk.home.stages.Keys <= old(disk.home.stages.Keys)
    ensures ok ==> disk.home.stages == map[]
  {
    if disk.halted {
      return false;
    }
    var left := disk.home.stages.Keys;
    while left != {}
      invariant !disk.halted && Counting(disk)
      invariant disk.home == old(disk.home).(stages := disk.home.stages)
      invariant disk.home.stages.Keys == left <= old(disk.home.stages.Keys)
      decreases left
    {
      var d :| d in left;
      ghost var before := disk.home.stages;
      ok := disk.RemoveStage(d);
      DropKeys(before, disk.home.stages, d);
      if !ok {
        return;
      }
      left := left - {d};
      assert disk.home.stages - {d} == disk.home.stages;
      assert (before - {d}).Keys == left;
    }
    ok := true;
  }

  /** Deletes the old layout. Only called once the manifest no longer needs it. */
  method RemoveLegacyGenerations(disk: Disk) returns (ok: bool)
    requires Sound(disk.home) && disk.home.journal == None && Loaded(disk.home).version == 2
    modifies disk`home, disk`halted, disk`errors
    ensures Ends(disk, ok)
    ensures Keeps(disk)
    ensures disk.home == old(disk.home).(generations := disk.home.generations)
    ensures ok ==> disk.home.generations == map[]
  {
    if disk.halted {
      return false;
    }
    ghost var h0 := disk.home;
    var left := disk.home.generations.Keys;
    while left != {}
      invariant !disk.halted && Counting(disk)
      invariant disk.home == h0.(generations := disk.home.generations)
      invariant disk.home.generations.Keys == left
      decreases left
    {
      var g :| g in left;
      ok := disk.RemoveGeneration(g);
      if !ok {
        LegacyStep(h0, disk.home);
        return;
      }
      left := left - {g};
    }
    LegacyStep(h0, disk.home);
    ok := true;
  }

  lemma LegacyStep(s: Image, s': Image)
    requires Sound(s) && s.journal == None && Loaded(s).version == 2
    requires s' == s.(generations := s'.generations)
    ensures Sound(s') && Committed(s') == Committed(s)
  {
  }

  /** Copies one file of the old generation into a staging directory. */
  method StageOne(disk: Disk, generation: nat, n: Name, state: ResourceState, stage: nat) returns (ok: bool)
    requires stage in disk.home.stages && !disk.halted
    requires generation in disk.home.generations && n in disk.home.generations[generation]
    requires Matches(disk.home.generations[generation][n], state) && disk.home.generations[generation][n].size <= DEFAULT_MAX_BYTES
    modifies disk`home, disk`halted, disk`errors
    ensures Ends(disk, ok)
    ensures disk.home == old(disk.home).(stages := disk.home.stages) && stage in disk.home.stages
    ensures disk.home.stages.Keys == old(disk.home.stages.Keys)
    ensures forall k :: k in old(disk.home.stages[stage]) && k != n ==>
      k in disk.home.stages[stage] && disk.home.stages[stage][k] == old(disk.home.stages[stage][k])
    ensures ok ==> StagedOk(disk.home.stages, StagedFile(stage, n), state, DEFAULT_MAX_BYTES)
  {
    var body := disk.ReadGeneration(generation, n, DEFAULT_MAX_BYTES);
    if body == None || !Matches(body.value, state) {
      return false;
    }
    ok := disk.WriteStaged(stage, n, body.value);
  }

  ghost predicate StagedSome(stages: map<nat, map<Name, Body>>, staged: map<Id, StagedFile>, m: Manifest, stage: nat) {
    && staged.Keys <= m.resources.Keys
    && forall id :: id in staged ==>
      (staged[id] == StagedFile(stage, ResourceName(m, id)) && StagedOk(stages, staged[id], m.resources[id], DEFAULT_MAX_BYTES))
  }

  lemma StagedMore(before: map<nat, map<Name, Body>>, after: map<nat, map<Name, Body>>, staged: map<Id, StagedFile>, m: Manifest, stage: nat, id: Id)
    requires DistinctNames(m) && id in m.resources && id !in staged && StagedSome(before, staged, m, stage)
    requires stage in before && stage in after
    requires forall k :: k in before[stage] && k != ResourceName(m, id) ==> k in after[stage] && after[stage][k] == before[stage][k]
    requires StagedOk(after, StagedFile(stage, ResourceName(m, id)), m.resources[id], DEFAULT_MAX_BYTES)
    ensures StagedSome(after, staged[id := StagedFile(stage, ResourceName(m, id))], m, stage)
  {
  }

  /** Copies the files of the old generation into a staging directory. */
  method StageLegacy(disk: Disk, previous: Manifest, stage: nat) returns (r: Option<map<Id, StagedFile>>)
    requires DistinctNames(previous) && previous.generation.Some? && stage in disk.home.stages && !disk.halted
    requires LegacyBacked(disk.home.generations, previous)
    modifies disk`home, disk`halted, disk`errors
    ensures Ends(disk, r.Some?)
    ensures disk.home == old(disk.home).(stages := disk.home.stages) && disk.home.stages.Keys == old(disk.home.stages.Keys)
    ensures r.Some? ==> StagedAll(disk.home.stages, r.value, previous)
  {
    hide LegacyBacked, StagedSome, StagedOk, DistinctNames;
    var staged: map<Id, StagedFile> := map[];
    var left := previous.resources.Keys;
    StagedNone(disk.home.stages, previous, stage);
    while left != {}
      invariant !disk.halted && Counting(disk) && stage in disk.home.stages
      invariant disk.home == old(disk.home).(stages := disk.home.stages) && disk.home.stages.Keys == old(disk.home.stages.Keys)
      invariant left <= previous.resources.Keys && staged.Keys == previous.resources.Keys - left
      invariant StagedSome(disk.home.stages, staged, previous, stage)
      decreases left
    {
      var id :| id in left;
      var n := ResourceName(previous, id);
      ghost var before := disk.home.stages;
      LegacyFile(disk.home.generations, previous, id);
      var ok := StageOne(disk, previous.generation.value, n, previous.resources[id], stage);
      if !ok {
        return None;
      }
      StagedMore(before, disk.home.stages, staged, previous, stage, id);
      staged := staged[id := StagedFile(stage, n)];
      left := left - {id};
    }
    StagedComplete(disk.home.stages, staged, previous, stage);
    r := Some(staged);
  }

  lemma StagedNone(stages: map<nat, map<Name, Body>>, m: Manifest, stage: nat)
    ensures StagedSome(stages, map[], m, stage)
  {
  }

  lemma StagedComplete(stages: map<nat, map<Name, Body>>, staged: map<Id, StagedFile>, m: Manifest, stage: nat)
    requires StagedSome(stages, staged, m, stage) && staged.Keys == m.resources.Keys
    ensures StagedAll(stages, staged, m)
  {
  }

  lemma LegacyFile(generations: map<nat, map<Name, Body>>, m: Manifest, id: Id)
    requires LegacyBacked(generations, m) && id in m.resources && m.generation.Some?
    ensures m.generation.value in generations && ResourceName(m, id) in generations[m.generation.value]
    ensures Matches(generations[m.generation.value][ResourceName(m, id)], m.resources[id])
    ensures generations[m.generation.value][ResourceName(m, id)].size <= DEFAULT_MAX_BYTES
  {
  }

  ghost predicate StagedAll(stages: map<nat, map<Name, Body>>, staged: map<Id, StagedFile>, m: Manifest) {
    && staged.Keys == m.resources.Keys
    && forall id :: id in staged ==> StagedOk(stages, staged[id], m.resources[id], DEFAULT_MAX_BYTES)
  }

  /** Bytes behind a digest are unique, so a backed view shows exactly what its
      manifest promises, whichever layout it uses. */
  lemma BackedContents(v: View)
    requires Backed(v.files, v.generations, v.manifest) && (v.manifest.version == 1 || v.manifest.version == 2)
    ensures Contents(v) == map id | id in v.manifest.resources :: (v.manifest.resources[id], Some(v.manifest.resources[id].sha256.content))
  {
  }

  lemma CommittedBacked(s: Image)
    requires Sound(s)
    ensures ValidManifest(Committed(s).manifest)
    ensures Backed(Committed(s).files, Committed(s).generations, Committed(s).manifest)
  {
  }

  lemma SameContents(s: Image, t: Image)
    requires Sound(s) && Sound(t) && Committed(s).manifest.resources == Committed(t).manifest.resources
    ensures Contents(Committed(s)) == Contents(Committed(t))
  {
    CommittedBacked(s);
    CommittedBacked(t);
    BackedContents(Committed(s));
    BackedContents(Committed(t));
  }

  lemma OwnersCount(m: Manifest)
    requires DistinctNames(m)
    ensures |Owners(m).Keys| <= |m.resources|
  {
    NamesCount(m, m.resources.Keys);
    assert Owners(m).Keys == set id | id in m.resources.Keys :: ResourceName(m, id);
    assert |m.resources.Keys| == |m.resources|;
  }

  lemma NamesCount(m: Manifest, ids: set<Id>)
    requires ids <= m.resources.Keys
    ensures |set id | id in ids :: ResourceName(m, id)| <= |ids|
  {
    if ids != {} {
      var id :| id in ids;
      NamesCount(m, ids - {id});
      assert (set x | x in ids :: ResourceName(m, x)) == (set x | x in ids - {id} :: ResourceName(m, x)) + {ResourceName(m, id)};
    }
  }

  lemma SameOwners(m: Manifest, candidate: Manifest)
    requires DistinctNames(m) && candidate.resources == m.resources
    ensures DistinctNames(candidate) && Owners(candidate) == Owners(m)
  {
    forall i, j | i in candidate.resources && j in candidate.resources && ResourceName(candidate, i) == ResourceName(candidate, j)
      ensures i == j
    {
      assert ResourceName(m, i) == ResourceName(m, j);
    }
    forall id | id in m.resources ensures ResourceName(m, id) == ResourceName(candidate, id) {
    }
  }

  lemma MigrationMovable(s: Image, m: Manifest, candidate: Manifest, staged: map<Id, StagedFile>, n: Name)
    requires DistinctNames(m) && DistinctNames(candidate) && candidate.resources == m.resources && m.version == 1
    requires StagedAll(s.stages, staged, m) && NamesFree(s.files, m) && n in Owners(candidate)
    ensures Movable(s, n, Priors(m)(n), Arrivals(candidate, staged)(n), DEFAULT_MAX_BYTES)
  {
    var id := Owners(candidate)[n];
    assert id in m.resources && ResourceName(m, id) == n;
  }

  /** Everything a migration needs is there once the old files are staged. */
  lemma MigrationPromotable(s: Image, candidate: Manifest, staged: map<Id, StagedFile>)
    requires Sound(s) && s.journal == None && Loaded(s).version == 1 && Loaded(s).generation.Some?
    requires candidate.version == 2 && candidate.commitId.Some? && candidate.resources == Loaded(s).resources
    requires StagedAll(s.stages, staged, Loaded(s))
    ensures Promotable(s, candidate, staged, DEFAULT_MAX_BYTES)
  {
    hide Holds, Fits, StagedOk, Owners, Priors, Arrivals, Movable;
    var m := Loaded(s);
    SameOwners(m, candidate);
    OwnersCount(m);
    assert Owners(m).Keys + Owners(candidate).Keys == Owners(m).Keys;
    forall n | n in Owners(m).Keys + Owners(candidate).Keys
      ensures Movable(s, n, Priors(m)(n), Arrivals(candidate, staged)(n), DEFAULT_MAX_BYTES)
    {
      MigrationMovable(s, m, candidate, staged, n);
    }
  }

  /** A migration keeps the resources and their bytes at every moment, and exposes
      the old layout untouched until the new one is accepted. */
  twostate predicate Migrates(disk: Disk)
    reads disk
  {
    && old(Sound(disk.home)) && Sound(disk.home) && Named(disk)
    && Contents(Committed(disk.home)) == old(Contents(Committed(disk.home)))
    && Foreign(disk.home) == old(Foreign(disk.home))
    && (Committed(disk.home) == old(Committed(disk.home)) || Committed(disk.home).manifest.version == 2)
  }

  lemma AcceptedManifest(s: Image, t: Image)
    requires Sound(s) && Sound(t)
    requires Committed(t) == Committed(s) || Committed(t).manifest.resources == Committed(s).manifest.resources
    ensures Contents(Committed(t)) == Contents(Committed(s))
  {
    SameContents(s, t);
  }

  method AcceptMigration(disk: Disk, d: nat, candidate: Manifest) returns (ok: bool)
    requires Sound(disk.home) && Named(disk) && Promoted(disk.home)
    requires disk.home.journal.value.dir == d && disk.home.journal.value.candidate == candidate
    requires candidate.version == 2 && candidate.resources == disk.home.journal.value.previous.resources
    modifies disk`home, disk`halted, disk`errors
    ensures Ends(disk, ok) && Migrates(disk)
    ensures ok ==> disk.home.journal == None && Loaded(disk.home) == candidate
  {
    assert Loaded(disk.home) == candidate && Committed(disk.home).manifest.resources == candidate.resources;
    hide Sound, Contents, Foreign, Target, AcceptedSound, Cleared;
    ghost var h0 := disk.home;
    ok := FinalizeTransaction(disk, d);
    AcceptedManifest(h0, disk.home);
  }

  /** Finalizes a migration's promotion and drops the old layout. */
  method FinishMigration(disk: Disk, d: nat, candidate: Manifest) returns (ok: bool)
    requires Sound(disk.home) && Named(disk) && Promoted(disk.home)
    requires disk.home.journal.value.dir == d && disk.home.journal.value.candidate == candidate
    requires candidate.version == 2 && candidate.resources == disk.home.journal.value.previous.resources
    modifies disk`home, disk`halted, disk`errors
    ensures Ends(disk, ok) && Migrates(disk)
    ensures ok ==> disk.home.journal == None && Loaded(disk.home) == candidate && disk.home.generations == map[]
  {
    hide Sound, Contents, Unmanaged, Promoted;
    ok := AcceptMigration(disk, d, candidate);
    if ok {
      ok := RemoveLegacyGenerations(disk);
    }
  }

  method MigrateV1(disk: Disk) returns (r: Option<Manifest>)
    requires Sound(disk.home) && Named(disk) && disk.home.journal == None && Loaded(disk.home).version == 1
    modifies disk`home, disk`halted, disk`errors, disk`nextId
    ensures Ends(disk, r.Some?) && Migrates(disk)
    ensures r.Some? ==> disk.home.journal == None && Loaded(disk.home) == r.value && r.value.version == 2
  {
    var previous := Loaded(disk.home);
    var commitId := disk.NewId();
    var candidate := Manifest(2, None, Some(commitId), previous.resources);
    if disk.halted {
      return None;
    }
    if previous.generation == None {
      if previous.resources != map[] {
        return None;
      }
      var ok := WriteFirstManifest(disk, candidate);
      return if ok then Some(candidate) else None;
    }
    var fate := disk.Attempt();
    if fate != Done || previous.generation.value !in disk.home.generations {
      return None;
    }
    r := MigrateGeneration(disk, previous, candidate);
  }

  /** A version 1 manifest without resources has nothing to move. */
  method WriteFirstManifest(disk: Disk, candidate: Manifest) returns (ok: bool)
    requires Sound(disk.home) && Named(disk) && disk.home.journal == None && Loaded(disk.home).version == 1
    requires Loaded(disk.home).resources == map[] == candidate.resources
    requires candidate.version == 2 && candidate.generation == None
    modifies disk`home, disk`halted, disk`errors
    ensures Ends(disk, ok) && Migrates(disk)
    ensures ok ==> disk.home.journal == None && Loaded(disk.home) == candidate
  {
    hide Sound, Committed, Contents, Foreign;
    ghost var h0 := disk.home;
    FirstManifest(h0, candidate);
    ok := disk.WriteManifest(candidate);
    AcceptedManifest(h0, disk.home);
  }

  lemma FirstManifest(s: Image, candidate: Manifest)
    requires Sound(s) && s.journal == None && Loaded(s).version == 1
    requires Loaded(s).resources == map[] == candidate.resources && candidate.version == 2 && candidate.generation == None
    ensures Sound(s.(manifest := Some(candidate))) && Committed(s.(manifest := Some(candidate))).manifest == candidate
    ensures Committed(s).manifest.resources == candidate.resources && Foreign(s.(manifest := Some(candidate))) == Foreign(s)
  {
  }

  method MigrateGeneration(disk: Disk, previous: Manifest, candidate: Manifest) returns (r: Option<Manifest>)
    requires Sound(disk.home) && Named(disk) && disk.home.journal == None && !disk.halted
    requires previous == Loaded(disk.home) && previous.version == 1 && previous.generation.Some?
    requires candidate.version == 2 && candidate.generation == None && candidate.commitId.Some? && candidate.resources == previous.resources
    modifies disk`home, disk`halted, disk`errors, disk`nextId
    ensures Ends(disk, r.Some?) && Migrates(disk)
    ensures r.Some? ==> disk.home.journal == None && Loaded(disk.home) == candidate == r.value
  {
    var stage, staged := StageGeneration(disk, previous);
    if stage == None {
      return None;
    }
    r := None;
    if staged.Some? {
      r := PromoteLegacy(disk, previous, candidate, staged.value);
    }
    DropStage(disk, stage.value);
    r := if disk.halted then None else r;
  }

  method StageGeneration(disk: Disk, previous: Manifest) returns (stage: Option<nat>, staged: Option<map<Id, StagedFile>>)
    requires Sound(disk.home) && Named(disk) && disk.home.journal == None && !disk.halted
    requires previous == Loaded(disk.home) && previous.version == 1 && previous.generation.Some?
    modifies disk`home, disk`halted, disk`errors, disk`nextId
    ensures Ends(disk, staged.Some?) && Keeps(disk) && Named(disk)
    ensures disk.home == old(disk.home).(stages := disk.home.stages)
    ensures staged.Some? ==> stage.Some? && StagedAll(disk.home.stages, staged.value, previous)
  {
    ghost var h0 := disk.home;
    staged := None;
    stage := disk.MakeStage();
    if stage.Some? {
      staged := StageLegacy(disk, previous, stage.value);
    }
    ScratchStep(h0, disk.home);
  }

  method PromoteLegacy(disk: Disk, previous: Manifest, candidate: Manifest, staged: map<Id, StagedFile>) returns (r: Option<Manifest>)
    requires Sound(disk.home) && Named(disk) && disk.home.journal == None
    requires previous == Loaded(disk.home) && previous.version == 1 && previous.generation.Some?
    requires candidate.version == 2 && candidate.generation == None && candidate.commitId.Some? && candidate.resources == previous.resources
    requires StagedAll(disk.home.stages, staged, previous)
    modifies disk`home, disk`halted, disk`errors, disk`nextId
    ensures Ends(disk, r.Some?) && Migrates(disk)
    ensures r.Some? ==> disk.home.journal == None && Loaded(disk.home) == candidate == r.value
  {
    ghost var h0 := disk.home;
    MigrationPromotable(disk.home, candidate, staged);
    var d := Promote(disk, DEFAULT_MAX_BYTES, previous, candidate, staged);
    if d == None {
      return None;
    }
    var ok := FinishMigration(disk, d.value, candidate);
    r := if ok then Some(candidate) else None;
  }

  method DropStage(disk: Disk, stage: nat)
    requires Sound(disk.home) && Named(disk)
    modifies disk`home, disk`halted, disk`errors
    ensures Keeps(disk) && Lives(disk, !disk.halted) && Named(disk)
    ensures disk.home == old(disk.home).(stages := disk.home.stages)
    ensures disk.halted || disk.errors > old(disk.errors) || stage !in disk.home.stages
  {
    ghost var h0 := disk.home;
    if stage in disk.home.stages {
      var _ := disk.RemoveStage(stage);
      DropKeys(h0.stages, disk.home.stages, stage);
    }
    ScratchStep(h0, disk.home);
  }

  /** Opens the managed home: recover, clean up, migrate. The result is the
      manifest that becomes active. */
  method NewRegistry(disk: Disk) returns (r: Option<Manifest>)
    requires Named(disk) && (Sound(disk.home) || Accepting(disk.home))
    modifies disk`home, disk`halted, disk`errors, disk`nextId
    ensures old(Sound(disk.home)) ==> Ends(disk, r.Some?) && Migrates(disk)
    ensures r.Some? ==> old(Sound(disk.home)) && disk.home.journal == None && Loaded(disk.home) == r.value && r.value.version == 2
    ensures old(Sound(disk.home)) && old(Committed(disk.home).manifest.version) == 2 ==> Keeps(disk)
    ensures r.Some? && old(Committed(disk.home).manifest.version) == 2 ==> disk.home.txns == map[] && disk.home.stages == map[]
    ensures r.Some? && r.value.commitId.Some? && Fits(disk.home.files, r.value, DEFAULT_MAX_BYTES) && disk.errors == old(disk.errors) ==> disk.home.generations == map[]
    ensures !old(Sound(disk.home)) ==> disk.home == old(disk.home) && disk.weather == old(disk.weather) && disk.nextId == old(disk.nextId)
  {
    var ok := RecoverTransaction(disk);
    if ok {
      ok := RemoveOrphans(disk);
    }
    if !ok {
      return None;
    }
    r := OpenManifest(disk);
  }

  method OpenManifest(disk: Disk) returns (r: Option<Manifest>)
    requires Sound(disk.home) && Named(disk) && disk.home.journal == None && !disk.halted
    modifies disk`home, disk`halted, disk`errors, disk`nextId
    ensures Ends(disk, r.Some?) && Migrates(disk)
    ensures r.Some? ==> disk.home.journal == None && Loaded(disk.home) == r.value && r.value.version == 2
    ensures old(Committed(disk.home).manifest.version) == 2 ==> Keeps(disk)
    // The old layout goes once the stable files are known to be whole.
    ensures old(Loaded(disk.home).version) == 2 ==> disk.home == old(disk.home).(generations := disk.home.generations)
    ensures r.Some? && r.value.commitId.Some? && Fits(disk.home.files, r.value, DEFAULT_MAX_BYTES) && disk.errors == old(disk.errors) ==> disk.home.generations == map[]
    ensures r.Some? && old(Loaded(disk.home).version) == 2 && (r.value.commitId == None || !Fits(disk.home.files, r.value, DEFAULT_MAX_BYTES)) ==>
      disk.home == old(disk.home)
  {
    var active := Loaded(disk.home);
    if active.version == 1 {
      var migrated := MigrateV1(disk);
      if migrated == None {
        return None;
      }
      active := migrated.value;
    }
    if active.commitId.Some? {
      var held := VerifyManifestFiles(disk, active, DEFAULT_MAX_BYTES);
      if held {
        var ok := RemoveLegacyGenerations(disk);
        if !ok {
          return None;
        }
      } else if disk.halted {
        return None;
      }
    }
    r := Some(active);
  }

  /** Any number of start-ups that crash or fail anywhere, followed by one that
      runs through: it succeeds, and it exposes the resources and bytes that the
      first start-up would have exposed. With a version 2 manifest the whole view,
      unmanaged files included, is exactly the same. */
  method OpenAfterCrashes(disk: Disk, weather: seq<Weather>) returns (active: Manifest)
    requires Sound(disk.home) && Named(disk)
    modifies disk
    ensures Migrates(disk) && disk.home.journal == None && Loaded(disk.home) == active && active.version == 2
    ensures old(Committed(disk.home).manifest.version) == 2 ==> Keeps(disk)
    ensures disk.nextId >= old(disk.nextId) && !disk.halted
  {
    for i := 0 to |weather|
      invariant Migrates(disk) && disk.nextId >= old(disk.nextId)
      invariant old(Committed(disk.home).manifest.version) == 2 ==> Keeps(disk)
    {
      disk.Reboot(weather[i]);
      var _ := NewRegistry(disk);
    }
    disk.Reboot(Calm);
    var r := NewRegistry(disk);
    active := r.value;
  }

  /** A promotion that is cut short anywhere, or runs through but is never accepted, leaves
      no trace after a restart: the previous manifest and exactly the files there were. */
  method PromotionLeavesNoTrace(disk: Disk, maxBytes: int, candidate: Manifest, staged: map<Id, StagedFile>, attempts: seq<Weather>)
    requires Sound(disk.home) && Named(disk) && disk.home.journal == None && Loaded(disk.home).version == 2
    requires maxBytes > 0 && candidate.generation == None && Bounded(candidate)
    modifies disk
    ensures disk.home.journal == None && Loaded(disk.home) == old(Loaded(disk.home)) && disk.home.files == old(disk.home.files)
  {
    hide Sound, Contents, Unmanaged;
    var _ := Promote(disk, maxBytes, Loaded(disk.home), candidate, staged);
    var _ := OpenAfterCrashes(disk, attempts);
  }

  /** An acceptance that is cut short anywhere ends, after a restart, with all of the
      previous set or all of the candidate; with the candidate if the accepted mark, or the
      removal of the journal after it, had happened. */
  method AcceptanceIsAtomic(disk: Disk, attempts: seq<Weather>) returns (accepted: bool)
    requires Sound(disk.home) && Named(disk) && Promoted(disk.home) && disk.home.journal.value.previous.version == 2
    modifies disk
    ensures disk.home.journal == None
    ensures accepted ==> Loaded(disk.home) == old(disk.home.journal.value.candidate) && disk.home.files == old(disk.home.files)
    ensures !accepted ==> Loaded(disk.home) == old(disk.home.journal.value.previous) && disk.home.files == old(Target(disk.home))
  {
    assert disk.home.journal.value.candidate.version == 2;
    hide Sound, Contents, Foreign, AcceptedSound, Cleared, Promoted, Target, ValidManifest, DistinctEntries, Undoable;
    var journal := disk.home.journal;
    Exposed(disk.home);
    var _ := FinalizeTransaction(disk, journal.value.dir);
    accepted := disk.home.journal != journal;
    assert Named(disk);
    var _ := OpenAfterCrashes(disk, attempts);
  }
}
