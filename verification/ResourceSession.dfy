/** Whole runs: many plans on one registry, in any order, with crashes anywhere. */
module ResourceSession {
  import opened Common
  import opened ResourceManifest
  import opened ResourceImage
  import opened Storage
  import opened ResourceTransaction
  import opened ResourcePromotion
  import opened ResourceRecovery
  import opened ResourcePlan
  import Fetch = ResourceFetch

  /** Every manifest that was ever committed, by its commit ID. */
  type Ledger = map<nat, Manifest>

  /** A commit ID stands for one manifest, for ever; without one the manifest is empty. */
  ghost predicate Known(ledger: Ledger, m: Manifest) {
    && m.version == 2
    && (if m.commitId.Some? then m.commitId.value in ledger && ledger[m.commitId.value] == m else m == EmptyManifest)
  }

  ghost predicate KnownHome(ledger: Ledger, home: Image) {
    && Known(ledger, Loaded(home))
    && (home.journal.Some? ==> Known(ledger, home.journal.value.previous) && Known(ledger, home.journal.value.candidate))
  }

  /** What holds of the disk whether or not a process is alive. */
  ghost predicate Durable(disk: Disk, ledger: Ledger)
    reads disk
  {
    && Sound(disk.home) && Named(disk)
    && KnownHome(ledger, disk.home)
    && (forall id :: id in ledger ==> id < disk.nextId)
  }

  /** The validators of every manifest that was ever committed belong to its hashes. */
  ghost predicate LedgerTruthful(w: Fetch.World, ledger: Ledger) {
    forall id :: id in ledger ==> Fetch.Truthful(w, ledger[id].resources)
  }

  ghost predicate PlansTruthful(w: Fetch.World, plans: seq<Plan>) {
    forall i :: 0 <= i < |plans| ==> Fetch.Truthful(w, plans[i].resources)
  }

  /** ... so those on disk are truthful as well. */
  lemma KnownIsTruthful(w: Fetch.World, ledger: Ledger, m: Manifest)
    requires LedgerTruthful(w, ledger) && Known(ledger, m)
    ensures Fetch.Truthful(w, m.resources)
  {
  }

  /** The ledger gained at most manifests with these resources. */
  ghost predicate Gained(ledger: Ledger, ledger': Ledger, resources: map<Id, ResourceState>) {
    forall id :: id in ledger' ==> (id in ledger && ledger'[id] == ledger[id]) || ledger'[id].resources == resources
  }

  lemma GainIsTruthful(w: Fetch.World, ledger: Ledger, ledger': Ledger, resources: map<Id, ResourceState>)
    requires LedgerTruthful(w, ledger) && Gained(ledger, ledger', resources) && Fetch.Truthful(w, resources)
    ensures LedgerTruthful(w, ledger')
  {
    hide Fetch.Truthful;
  }

  ghost predicate Extends(ledger: Ledger, ledger': Ledger) {
    forall id :: id in ledger ==> id in ledger' && ledger'[id] == ledger[id]
  }

  /** What no event does: the user's own files stay as they are, and unless a plan is
      accepted nothing changes that a start-up would expose. */
  twostate predicate Undisturbed(disk: Disk, accepted: Option<Manifest>)
    reads disk
  {
    && old(Sound(disk.home)) && Sound(disk.home)
    && Foreign(disk.home) == old(Foreign(disk.home))
    && (Committed(disk.home) == old(Committed(disk.home)) || accepted == Some(Committed(disk.home).manifest))
  }

  /** What holds of one plan object of the live process. */
  ghost predicate PlanOk(p: Plan, registry: Registry, ledger: Ledger)
    reads p
  {
    && p.registry == registry && p.Staged() && Known(ledger, p.base)
    && (p.committed ==> p.commitId.Some? && p.dir.Some?) && (p.finalized ==> p.committed)
  }

  ghost predicate RegistryOk(registry: Registry)
    reads registry, registry.disk
  {
    registry.maxBytes > 0 && registry.active == Loaded(registry.disk.home)
  }

  ghost predicate RegistryKnown(registry: Registry, ledger: Ledger)
    reads registry
  {
    registry.maxBytes > 0 && Known(ledger, registry.active)
  }

  /** The plan is committed and waits behind the journal, over the base it was staged on. */
  ghost predicate Holding(p: Plan)
    reads p, p.registry, p.registry.disk
  {
    p.Unfinished() && Held(p.registry.disk.home, p.Candidate(), p.dir, p.stage, p.base)
  }

  /** The journal on disk is the complete promotion of this candidate. */
  ghost predicate Held(home: Image, candidate: Manifest, dir: Option<nat>, stage: Option<nat>, base: Manifest) {
    && Promoted(home) && candidate.commitId.Some? && dir.Some?
    && home.journal.value.candidate == candidate && home.journal.value.dir == dir.value && home.journal.value.previous == base
    && (stage.Some? ==> stage.value in home.stages)
  }

  /** A plan is committed only onto the manifest it was staged over, and never while a
      journal is open. Only an input/output error can leave a journal behind. */
  method CommitOne(p: Plan, ghost ledger: Ledger) returns (ok: bool, ghost ledger': Ledger)
    requires !p.registry.disk.halted && Durable(p.registry.disk, ledger) && PlanOk(p, p.registry, ledger) && RegistryKnown(p.registry, ledger)
    requires p.registry.disk.home.journal.Some? ==> InPromotion(p.registry.disk.home)
    modifies p, p.registry, p.registry.disk
    ensures p.registry.disk.nextId >= old(p.registry.disk.nextId)
    ensures Durable(p.registry.disk, ledger') && Extends(ledger, ledger') && PlanOk(p, p.registry, ledger') && Gained(ledger, ledger', p.resources)
    ensures Undisturbed(p.registry.disk, None) && RegistryKnown(p.registry, ledger')
    ensures p.registry.disk.home.journal.Some? ==> InPromotion(p.registry.disk.home)
    ensures ok ==> Holding(p) && old(p.registry.disk.home.journal) == None && old(Loaded(p.registry.disk.home)) == p.base && !old(p.Unfinished()) && RegistryOk(p.registry)
    ensures !ok ==> p.Unfinished() == old(p.Unfinished())
    ensures !ok && !p.registry.disk.halted && p.registry.disk.weather != Faults ==> p.registry.disk.home.journal == old(p.registry.disk.home.journal)
    ensures !ok && old(p.registry.disk.home.journal).Some? ==> p.registry.disk.home == old(p.registry.disk.home) && unchanged(p)
    ensures !ok && p.registry.disk.home.journal == old(p.registry.disk.home.journal) && old(RegistryOk(p.registry)) ==> RegistryOk(p.registry)
    ensures !ok && old(Certain(p)) ==> p.registry.disk.halted || p.registry.disk.errors > old(p.registry.disk.errors)
  {
    hide ValidManifest, ValidJournal, Holds, Fits, Undoable, Undo, Restored, Backed, LegacyBacked, NamesFree, EntriesOk, DistinctEntries, Unmanaged, Cleared, SameGeneration, DistinctNames, Sound, Committed, AcceptedSound;
    hide Plan.Staged, Plan.Committable, Promoted, Loaded, Known;
    var disk := p.registry.disk;
    ghost var before, next := disk.home, disk.nextId;
    ok := p.Commit();
    SameForeign(before, disk.home);
    ledger' := CommitRecorded(before, disk.home, ledger, p.base, next);
    KnownStays(ledger, ledger', p.base);
    if ok {
      Exposed(disk.home);
    } else {
      KnownStays(ledger, ledger', p.registry.active);
    }
  }

  /** The ledger after a commit: a journal that was opened is recorded. */
  lemma CommitRecorded(before: Image, after: Image, ledger: Ledger, base: Manifest, next: nat) returns (ledger': Ledger)
    requires Sound(before) && Sound(after) && Committed(after) == Committed(before) && KnownHome(ledger, before) && Known(ledger, base)
    requires forall id :: id in ledger ==> id < next
    requires before.journal.Some? ==> InPromotion(before) && after == before
    requires var j := after.journal; j.Some? && j != before.journal ==>
      j.value.previous == Loaded(before) && j.value.candidate.version == 2 && j.value.candidate.commitId.Some? && j.value.candidate.commitId.value >= next
    ensures KnownHome(ledger', after) && Extends(ledger, ledger')
    ensures ledger' == if after.journal.Some? && after.journal != before.journal then ledger[after.journal.value.candidate.commitId.value := after.journal.value.candidate] else ledger
    ensures after.journal.Some? ==> InPromotion(after)
    ensures after.journal == before.journal ==> Loaded(after) == Loaded(before)
    ensures Loaded(before).commitId == base.commitId ==> Loaded(before) == base
  {
    hide Sound, Committed, Loaded, Known;
    ledger' := ledger;
    if before.journal == None && after.journal.Some? {
      var candidate := after.journal.value.candidate;
      NewJournal(before, after, ledger, next);
      ledger' := ledger[candidate.commitId.value := candidate];
      KnownStays(ledger, ledger', Loaded(before));
      KnownNow(ledger, candidate);
    } else if before.journal == None {
      NoJournal(before, after);
    }
    if Loaded(before).commitId == base.commitId {
      SameKnown(ledger, Loaded(before), base);
    }
  }

  lemma NoJournal(before: Image, after: Image)
    requires Sound(before) && Sound(after) && Committed(after) == Committed(before) && before.journal == after.journal == None
    ensures Loaded(after) == Loaded(before)
  {
    hide Sound, Committed;
    Exposed(before);
    Exposed(after);
  }

  /** A journal under a new identity is still open: nothing new is exposed. */
  lemma NewJournal(before: Image, after: Image, ledger: Ledger, next: nat)
    requires Sound(before) && Sound(after) && Committed(after) == Committed(before) && before.journal == None && after.journal.Some?
    requires Known(ledger, Loaded(before)) && forall id :: id in ledger ==> id < next
    requires after.journal.value.candidate.commitId.Some? && after.journal.value.candidate.commitId.value >= next
    ensures InPromotion(after) && (Loaded(after) == after.journal.value.previous || Loaded(after) == after.journal.value.candidate)
  {
    hide Sound, Committed;
    Exposed(before);
    Exposed(after);
  }

  lemma KnownNow(ledger: Ledger, m: Manifest)
    requires m.version == 2 && m.commitId.Some?
    ensures Known(ledger[m.commitId.value := m], m)
  {
  }

  lemma SameKnown(ledger: Ledger, m: Manifest, n: Manifest)
    requires Known(ledger, m) && Known(ledger, n) && m.commitId == n.commitId
    ensures m == n
  {
  }

  lemma KnownStays(ledger: Ledger, ledger': Ledger, m: Manifest)
    requires Extends(ledger, ledger') && Known(ledger, m)
    ensures Known(ledger', m)
  {
  }

  lemma SameForeign(s: Image, t: Image)
    requires Sound(s) && Sound(t) && Committed(s) == Committed(t)
    ensures Foreign(s) == Foreign(t)
  {
  }

  /** Accepting a plan is the only event that changes what a start-up exposes, and it
      exposes exactly that plan's resources. */
  method FinalizeOne(p: Plan, ghost ledger: Ledger) returns (ok: bool)
    requires p.registry.disk.weather != Faults
    requires !p.registry.disk.halted && Durable(p.registry.disk, ledger) && PlanOk(p, p.registry, ledger) && RegistryOk(p.registry)
    requires p.Unfinished() ==> Holding(p)
    requires InPromotion(p.registry.disk.home) ==> Promoted(p.registry.disk.home)
    modifies p, p.registry.disk
    ensures p.registry.disk.nextId >= old(p.registry.disk.nextId)
    ensures Durable(p.registry.disk, ledger) && PlanOk(p, p.registry, ledger)
    ensures Undisturbed(p.registry.disk, if old(p.Unfinished()) then Some(old(p.Candidate())) else None)
    ensures !old(p.Unfinished()) ==> p.registry.disk.home == old(p.registry.disk.home) && !p.Unfinished()
    ensures ok ==> !p.Unfinished() && (old(p.Unfinished()) ==> p.registry.disk.home.journal == None)
    ensures old(p.Unfinished()) ==> ok || p.registry.disk.halted
    ensures old(p.Unfinished()) && ok ==> Committed(p.registry.disk.home).manifest == old(p.Candidate())
    ensures !p.registry.disk.halted ==> RegistryOk(p.registry)
  {
    hide ValidManifest, ValidJournal, Holds, Fits, Undoable, Undo, Restored, Backed, LegacyBacked, NamesFree, EntriesOk, DistinctEntries, Unmanaged, Cleared, SameGeneration, DistinctNames;
    ok := p.Finalize();
  }

  /** Undoing a plan changes nothing that a start-up would expose, complete or not. */
  method RollbackOne(p: Plan, ghost ledger: Ledger) returns (ok: bool)
    requires !p.registry.disk.halted && Durable(p.registry.disk, ledger) && PlanOk(p, p.registry, ledger) && RegistryKnown(p.registry, ledger)
    requires p.registry.disk.home.journal.Some? ==> InPromotion(p.registry.disk.home)
    modifies p, p.registry, p.registry.disk
    ensures Counting(p.registry.disk)
    ensures p.registry.disk.nextId >= old(p.registry.disk.nextId)
    ensures Durable(p.registry.disk, ledger) && PlanOk(p, p.registry, ledger) && RegistryKnown(p.registry, ledger)
    ensures Undisturbed(p.registry.disk, None)
    ensures p.registry.disk.home.journal.Some? ==> InPromotion(p.registry.disk.home)
    ensures !old(p.Unfinished()) ==> p.registry.disk.home == old(p.registry.disk.home) && !p.Unfinished() && !ok && p.registry.active == old(p.registry.active)
    ensures old(Holding(p)) ==> ok || p.registry.disk.halted || p.registry.disk.errors > old(p.registry.disk.errors)
    ensures ok ==> !p.Unfinished() && p.registry.disk.home.journal == None && old(p.registry.disk.home.journal).Some?
    ensures p.registry.disk.home.journal == None || p.registry.disk.home.journal == old(p.registry.disk.home.journal)
    ensures ok && old(Holding(p)) ==> RegistryOk(p.registry)
    ensures !old(p.Unfinished()) && old(RegistryOk(p.registry)) ==> RegistryOk(p.registry)
  {
    hide ValidManifest, ValidJournal, Holds, Fits, Undo, Restored, Backed, LegacyBacked, NamesFree, EntriesOk, DistinctEntries, Unmanaged, Cleared, SameGeneration, DistinctNames, Sound, Committed, AcceptedSound;
    var disk := p.registry.disk;
    ghost var before := disk.home;
    Exposed(before);
    ok := p.Rollback();
    Exposed(disk.home);
    SameForeign(before, disk.home);
  }

  method AbortOne(p: Plan, ghost ledger: Ledger)
    requires !p.registry.disk.halted && Durable(p.registry.disk, ledger) && PlanOk(p, p.registry, ledger) && p.registry.maxBytes > 0
    modifies p`closed, p.registry.disk
    ensures p.registry.disk.nextId >= old(p.registry.disk.nextId)
    ensures Durable(p.registry.disk, ledger) && PlanOk(p, p.registry, ledger) && Undisturbed(p.registry.disk, None)
    ensures old(RegistryOk(p.registry)) ==> RegistryOk(p.registry)
    ensures p.registry.disk.home.journal == old(p.registry.disk.home.journal)
    ensures p.registry.disk.halted || p.registry.disk.errors > old(p.registry.disk.errors) || (p.closed <==> old(p.closed) || !p.committed || p.rolledBack)
    ensures Counting(p.registry.disk)
    ensures Aside(old(p.registry.disk.home), p.registry.disk.home, p.stage) && (p.Unfinished() ==> p.registry.disk.home == old(p.registry.disk.home))
  {
    hide ValidManifest, ValidJournal, Holds, Fits, Undo, Restored, Backed, LegacyBacked, NamesFree, EntriesOk, DistinctEntries, Unmanaged, SameGeneration, DistinctNames;
    var _ := p.Abort();
  }

  method ValidateOne(p: Plan, ghost ledger: Ledger, accepted: bool)
    requires !p.registry.disk.halted && Durable(p.registry.disk, ledger) && PlanOk(p, p.registry, ledger)
    modifies p`validated, p.registry.disk`halted, p.registry.disk`errors
    ensures Durable(p.registry.disk, ledger) && PlanOk(p, p.registry, ledger)
    ensures old(RegistryOk(p.registry)) ==> RegistryOk(p.registry)
    ensures p.validated && !old(p.validated) ==> accepted && p.Whole(p.registry.disk.home)
    ensures !p.closed && !p.committed && !p.rolledBack ==>
      p.registry.disk.halted || p.registry.disk.errors > old(p.registry.disk.errors) || (p.validated <==> accepted && p.Whole(p.registry.disk.home))
  {
    hide Sound, Plan.Staged, Plan.Whole, KnownHome, Known;
    var _ := p.Validate(accepted);
  }

  /** Only staging directories differ, and of those that were there only one may be gone. */
  ghost predicate Aside(before: Image, after: Image, stage: Option<nat>) {
    && after.journal == before.journal && Loaded(after) == Loaded(before) && (Promoted(before) ==> Promoted(after))
    && forall d :: d in before.stages && Some(d) != stage ==> d in after.stages
  }

  /** Memory knows the manifest, and every requested resource can be had. */
  ghost predicate Stageable(registry: Registry, request: Fetch.Request)
    reads registry, registry.disk
  {
    && InTouch(registry.active, registry.disk.home)
    && Fetch.Preparable(registry.disk.home.files, Loaded(registry.disk.home), registry.maxBytes, request)
  }

  /** Prepares and stages one request. */
  method StageAnew(registry: Registry, ghost w: Fetch.World, request: Fetch.Request, ghost ledger: Ledger) returns (p: Plan?)
    requires !registry.disk.halted && Durable(registry.disk, ledger) && RegistryKnown(registry, ledger)
    requires LedgerTruthful(w, ledger) && Fetch.Honest(w, request.now, request.reply)
    modifies registry.disk
    ensures Durable(registry.disk, ledger) && Undisturbed(registry.disk, None)
    ensures old(RegistryOk(registry)) ==> RegistryOk(registry)
    ensures registry.disk.home.journal == old(registry.disk.home.journal)
    ensures Aside(old(registry.disk.home), registry.disk.home, None) && registry.disk.nextId >= old(registry.disk.nextId)
    ensures p != null && p.stage.Some? ==> old(registry.disk.nextId) <= p.stage.value < registry.disk.nextId
    ensures p != null ==> fresh(p) && !registry.disk.halted && PlanOk(p, registry, ledger) && !p.Unfinished() && p.base == old(Loaded(registry.disk.home))
    ensures p != null ==> Fetch.Truthful(w, p.resources) && Fetch.Answers(request, p.base.resources, p.resources)
    ensures Counting(registry.disk)
    ensures registry.disk.halted || registry.disk.errors > old(registry.disk.errors) || (p != null <==> old(Stageable(registry, request)))
  {
    hide ValidManifest, ValidJournal, Holds, Fits, Undo, Restored, Backed, LegacyBacked, NamesFree, EntriesOk, DistinctEntries, Unmanaged, SameGeneration, DistinctNames, PreparedOk;
    hide Fetch.Truthful, Fetch.Honest, LedgerTruthful, Fetch.Answers, Fetch.Preparable, Plan.Whole;
    KnownIsTruthful(w, ledger, Loaded(registry.disk.home));
    p := Fetch.StageDue(registry, w, request);
  }

  method OpenAnew(disk: Disk, attempts: seq<Weather>, ghost ledger: Ledger) returns (registry: Registry)
    requires Durable(disk, ledger)
    modifies disk
    ensures Durable(disk, ledger) && Undisturbed(disk, None) && !disk.halted
    ensures fresh(registry) && registry.disk == disk && RegistryOk(registry) && disk.home.journal == None
  {
    hide ValidManifest, ValidJournal, Holds, Fits, Undo, Restored, Backed, LegacyBacked, NamesFree, EntriesOk, DistinctEntries, Unmanaged, SameGeneration, DistinctNames, Contents;
    var active := OpenAfterCrashes(disk, attempts);
    disk.Reboot(Crashes);
    registry := new Registry(disk, active);
  }

  lemma PlansStay(plans: seq<Plan>, i: nat, registry: Registry, ledger: Ledger, ledger': Ledger)
    requires i < |plans| && PlanOk(plans[i], registry, ledger') && Extends(ledger, ledger')
    requires forall k :: 0 <= k < |plans| && k != i ==> PlanOk(plans[k], registry, ledger)
    ensures forall k :: 0 <= k < |plans| ==> PlanOk(plans[k], registry, ledger')
  {
    hide Plan.Staged;
  }

  lemma PlanMeans(p: Plan, registry: Registry, ledger: Ledger)
    requires PlanOk(p, registry, ledger)
    ensures p.registry == registry
  {
  }

  lemma RegistryMeans(registry: Registry, ledger: Ledger)
    requires RegistryKnown(registry, ledger)
    ensures registry.maxBytes > 0
  {
  }

  lemma HeldMeans(home: Image, candidate: Manifest, dir: Option<nat>, stage: Option<nat>, base: Manifest)
    requires Held(home, candidate, dir, stage, base)
    ensures Promoted(home) && home.journal.Some? && InPromotion(home)
  {
  }

  /** A plan keeps waiting while only staging directories of others change. */
  lemma HeldAside(before: Image, after: Image, gone: Option<nat>, candidate: Manifest, dir: Option<nat>, stage: Option<nat>, base: Manifest)
    requires Held(before, candidate, dir, stage, base) && Aside(before, after, gone) && (gone.Some? ==> gone != stage)
    ensures Held(after, candidate, dir, stage, base)
  {
    hide Promoted;
  }

  /** Every plan has a staging directory of its own. */
  ghost predicate StagesApart(plans: seq<Plan>, next: nat) {
    && (forall i :: 0 <= i < |plans| && plans[i].stage.Some? ==> plans[i].stage.value < next)
    && (forall i, k :: 0 <= i < k < |plans| && plans[i].stage.Some? ==> plans[i].stage != plans[k].stage)
  }

  lemma StagesStayApart(plans: seq<Plan>, next: nat, later: nat)
    requires StagesApart(plans, next) && next <= later
    ensures StagesApart(plans, later)
  {
  }

  lemma StageJoins(plans: seq<Plan>, next: nat, p: Plan, later: nat)
    requires StagesApart(plans, next) && next <= later && (p.stage.Some? ==> next <= p.stage.value < later)
    ensures StagesApart(plans + [p], later)
  {
  }

  lemma OtherStage(plans: seq<Plan>, next: nat, i: nat, k: nat)
    requires StagesApart(plans, next) && i < |plans| && k < |plans| && i != k && plans[i].stage.Some?
    ensures plans[i].stage != plans[k].stage
  {
  }

  /** What can happen next. A restart may be preceded by start-ups that die or fail. */
  datatype Event =
    | Stage(request: Fetch.Request)
    | Validate(plan: nat, accepted: bool)
    | Commit(plan: nat)
    | Finalize(plan: nat)
    | Rollback(plan: nat)
    | Abort(plan: nat)
    | Restart(attempts: seq<Weather>)

  class Session {
    const disk: Disk
    ghost const w: Fetch.World
    var registry: Registry
    var plans: seq<Plan>
    ghost var ledger: Ledger
    /** The plan that is committed and unfinished. */
    ghost var open: Option<nat>
    /** An input/output error left a promotion that only a start-up puts in order. */
    var lost: bool
    /** Unfinished plans whose journal went in a rollback that failed afterwards. */
    ghost var orphans: set<nat>

    /** At most one plan is committed and unfinished; it waits behind the journal, and
        without such a plan there is no journal. */
    ghost predicate OpenOk()
      reads this, disk, registry, plans
      requires registry.disk == disk && forall i :: 0 <= i < |plans| ==> PlanOk(plans[i], registry, ledger)
    {
      && (forall i :: 0 <= i < |plans| && plans[i].Unfinished() ==> open == Some(i))
      && match open
         case None => disk.home.journal == None
         case Some(i) => i < |plans| && PlanOk(plans[i], registry, ledger) && Holding(plans[i])
    }

    /** After such an error: apart from orphans at most one plan is committed and unfinished,
        and a journal is open for it. */
    ghost predicate LostOk()
      reads this, disk, plans
    {
      && (forall i :: 0 <= i < |plans| && plans[i].Unfinished() ==> open == Some(i) || i in orphans)
      && (open.Some? && open.value !in orphans ==> disk.home.journal.Some?)
    }

    /** What holds of the registry and of every plan object. */
    ghost predicate Team()
      reads this`registry, this`plans, this`ledger, disk, registry, plans
    {
      && registry.disk == disk && RegistryKnown(registry, ledger)
      && (forall i, k :: 0 <= i < k < |plans| ==> plans[i] != plans[k])
      && (forall i :: 0 <= i < |plans| ==> PlanOk(plans[i], registry, ledger))
      && StagesApart(plans, disk.nextId)
      && (disk.home.journal.Some? ==> InPromotion(disk.home))
    }

    /** What holds of a live process. */
    ghost predicate Live()
      reads this, disk, registry, plans
    {
      Team() && (if lost then LostOk() else RegistryOk(registry) && OpenOk() && orphans == {})
    }

    lemma TeamMeans(i: nat)
      requires Team() && i < |plans|
      ensures registry.disk == disk && PlanOk(plans[i], registry, ledger) && plans[i].registry == registry
    {
      hide StagesApart, Plan.Staged;
    }

    ghost predicate Valid()
      reads this, disk, registry, plans
    {
      Durable(disk, ledger) && (disk.halted || Live()) && LedgerTruthful(w, ledger) && PlansTruthful(w, plans)
    }

    /** A live process on a home that has been opened. */
    constructor (disk: Disk, ghost w: Fetch.World)
      requires Fetch.Truthful(w, Loaded(disk.home).resources)
      requires Sound(disk.home) && Named(disk) && disk.home.journal == None && Loaded(disk.home).version == 2
      requires Loaded(disk.home).commitId.Some? ==> Loaded(disk.home).commitId.value < disk.nextId
      ensures this.disk == disk && this.w == w && Valid() && !lost && fresh(registry) && plans == []
    {
      this.disk, this.w := disk, w;
      registry := new Registry(disk, Loaded(disk.home));
      plans, open, lost, orphans := [], None, false, {};
      var m := Loaded(disk.home);
      ledger := if m.commitId.Some? then map[m.commitId.value := m] else map[];
    }

    /** A dead process does nothing until it is restarted. */
    predicate Ready(plan: nat)
      reads this`plans, disk
    {
      !disk.halted && plan < |plans|
    }

    /** Prepares and stages a plan. Its validators are truthful if the server is honest. */
    method Stage(request: Fetch.Request)
      requires Valid() && Fetch.Honest(w, request.now, request.reply)
      modifies this`plans, disk
      ensures Valid() && Undisturbed(disk, None)
      ensures forall i :: 0 <= i < |plans| ==> plans[i] in old(plans) || fresh(plans[i])
      ensures old(plans) <= plans && |plans| <= |old(plans)| + 1
      ensures |plans| > |old(plans)| ==>
        var p := plans[|old(plans)|]; p.base == old(Loaded(disk.home)) && Fetch.Answers(request, p.base.resources, p.resources)
      ensures registry.disk == disk && !old(disk.halted) ==>
        disk.halted || disk.errors > old(disk.errors) || (|plans| > |old(plans)| <==> old(Stageable(registry, request)))
    {
      hide Stageable, Live, Sound, Committed, Foreign, Known, Loaded, Named, LedgerTruthful, PlansTruthful, Fetch.Honest, Fetch.Answers;
      if !disk.halted {
        StageLive(request);
      }
    }

    method StageLive(request: Fetch.Request)
      requires Valid() && !disk.halted && Fetch.Honest(w, request.now, request.reply)
      modifies this`plans, disk
      ensures Valid() && Undisturbed(disk, None)
      ensures forall i :: 0 <= i < |plans| ==> plans[i] in old(plans) || fresh(plans[i])
      ensures old(plans) <= plans && |plans| <= |old(plans)| + 1
      ensures |plans| > |old(plans)| ==>
        var p := plans[|old(plans)|]; p.base == old(Loaded(disk.home)) && Fetch.Answers(request, p.base.resources, p.resources)
      ensures registry.disk == disk && !old(disk.halted) ==>
        disk.halted || disk.errors > old(disk.errors) || (|plans| > |old(plans)| <==> old(Stageable(registry, request)))
    {
      hide Stageable, Durable, Undisturbed, Fetch.Answers, Fetch.Truthful, Fetch.Honest, LedgerTruthful, Sound, Committed, Foreign, AcceptedSound, Cleared, Plan.Staged, Loaded, StagesApart, Held, Promoted, Aside, PlanOk, RegistryOk, RegistryKnown, Named, KnownHome, Known;
      if !lost && open.Some? {
        PlanMeans(plans[open.value], registry, ledger);
      }
      ghost var before := disk.home;
      var p := StageAnew(registry, w, request, ledger);
      if !lost && open.Some? {
        HeldAside(before, disk.home, None, plans[open.value].Candidate(), plans[open.value].dir, plans[open.value].stage, plans[open.value].base);
      }
      StagesStayApart(plans, old(disk.nextId), disk.nextId);
      if p != null {
        StageJoins(plans, old(disk.nextId), p, disk.nextId);
        Join(p);
      }
    }

    method Join(p: Plan)
      requires Valid() && !disk.halted && p !in plans && PlanOk(p, registry, ledger) && !p.Unfinished() && Fetch.Truthful(w, p.resources) && StagesApart(plans + [p], disk.nextId)
      modifies this`plans
      ensures Valid() && plans == old(plans) + [p]
    {
      hide Durable, StagesApart, Held, PlanOk, RegistryOk, RegistryKnown, LedgerTruthful, Fetch.Truthful;
      if !lost && open.Some? {
        PlanMeans(plans[open.value], registry, ledger);
      }
      plans := plans + [p];
    }

    lemma OpenMeans()
      requires Valid() && !disk.halted
      ensures !lost ==> (open.Some? <==> disk.home.journal.Some?) && orphans == {}
      ensures disk.home.journal == None ==> forall k :: 0 <= k < |plans| && plans[k].Unfinished() ==> k in orphans
    {
      hide Durable, PlanOk, Held;
      if !lost && open.Some? {
        PlanMeans(plans[open.value], registry, ledger);
        HeldMeans(disk.home, plans[open.value].Candidate(), plans[open.value].dir, plans[open.value].stage, plans[open.value].base);
      }
    }

    /** Two plans are committed and unfinished only if one of them is an orphan. */
    lemma AtMostOneUnfinished(i: nat, k: nat)
      requires Valid() && !disk.halted && i < |plans| && k < |plans| && i != k && plans[i].Unfinished() && plans[k].Unfinished()
      ensures lost && (i in orphans || k in orphans)
    {
      hide Durable, PlanOk, Held, StagesApart;
    }

    /** A commit succeeds only while no journal is open, so only orphans are unfinished then. */
    method Commit(i: nat) returns (ok: bool)
      requires Valid()
      modifies this`ledger, this`open, this`lost, plans, registry, disk
      ensures Valid() && Undisturbed(disk, None) && Extends(old(ledger), ledger)
      ensures ok ==> i < |plans| && old(Loaded(disk.home)) == plans[i].base && old(disk.home.journal) == None
      ensures ok ==> forall k :: 0 <= k < |plans| && old(plans[k].Unfinished()) ==> k in orphans
      ensures disk.weather != Faults ==> lost == old(lost)
      ensures !ok && i < |plans| && old(plans[i].registry == registry && registry.disk == disk && Certain(plans[i])) ==> disk.halted || disk.errors > old(disk.errors)
    {
      hide Sound, Foreign, Committed, Live, Certain;
      ok := false;
      if i < |plans| {
        CertainMeans(plans[i]);
      }
      if !disk.halted {
        OpenMeans();
      }
      if Ready(i) {
        if lost {
          ok := CommitLost(i);
        } else if disk.home.journal.Some? {
          CommitBusy(i);
        } else {
          ok := CommitReady(i);
        }
      }
    }

    lemma CertainMeans(p: Plan)
      ensures Certain(p) ==> !p.registry.disk.halted && p.registry.disk.home.journal == None
    {
      hide Plan.Whole, AllStaged, NewNamesFree, Fits;
    }

    /** The commit itself. Other plans are not touched. */
    method CommitPart(i: nat) returns (ok: bool)
      requires Durable(disk, ledger) && Team() && Ready(i) && LedgerTruthful(w, ledger) && PlansTruthful(w, plans)
      modifies this`ledger, plans, registry, disk
      ensures Durable(disk, ledger) && Team() && LedgerTruthful(w, ledger) && Undisturbed(disk, None) && Extends(old(ledger), ledger)
      ensures forall k :: 0 <= k < |plans| && k != i ==> unchanged(plans[k])
      ensures ok ==> plans[i].registry == registry && registry.disk == disk && Holding(plans[i]) && disk.home.journal.Some? && RegistryOk(registry)
      ensures ok ==> old(disk.home.journal) == None && old(Loaded(disk.home)) == plans[i].base
      ensures !ok ==> plans[i].Unfinished() == old(plans[i].Unfinished())
      ensures !ok && !disk.halted && disk.weather != Faults ==> disk.home.journal == old(disk.home.journal)
      ensures !ok && old(disk.home.journal).Some? ==> disk.home == old(disk.home) && unchanged(plans[i])
      ensures !ok && disk.home.journal == old(disk.home.journal) && old(RegistryOk(registry)) ==> RegistryOk(registry)
      ensures !ok && old(plans[i].registry == registry && registry.disk == disk && Certain(plans[i])) ==> disk.halted || disk.errors > old(disk.errors)
    {
      hide Certain, Fetch.Truthful, Fetch.Honest, LedgerTruthful, Sound, Committed, Foreign, AcceptedSound, Cleared, Plan.Staged, Loaded, StagesApart, Held, Promoted, Aside, PlanOk, RegistryOk, RegistryKnown, Durable, Undisturbed, Extends, Gained;
      assert forall k :: 0 <= k < |plans| && k != i ==> plans[k] != plans[i];
      PlanMeans(plans[i], registry, ledger);
      ghost var ledger': Ledger;
      ok, ledger' := CommitOne(plans[i], ledger);
      if ok {
        HeldMeans(disk.home, plans[i].Candidate(), plans[i].dir, plans[i].stage, plans[i].base);
      }
      StagesStayApart(plans, old(disk.nextId), disk.nextId);
      PlansStay(plans, i, registry, ledger, ledger');
      GainIsTruthful(w, ledger, ledger', plans[i].resources);
      ledger := ledger';
    }

    method CommitReady(i: nat) returns (ok: bool)
      requires Valid() && Ready(i) && !lost && open == None
      modifies this`ledger, this`open, this`lost, plans, registry, disk
      ensures Valid() && Undisturbed(disk, None) && Extends(old(ledger), ledger)
      ensures ok ==> old(Loaded(disk.home)) == plans[i].base && old(disk.home.journal) == None
      ensures lost ==> disk.weather == Faults && !ok
      ensures !ok && old(plans[i].registry == registry && registry.disk == disk && Certain(plans[i])) ==> disk.halted || disk.errors > old(disk.errors)
    {
      hide Certain, Team, LedgerTruthful, PlansTruthful, Sound, Committed, Foreign, Loaded, Held, Promoted, PlanOk, RegistryOk, Durable, Undisturbed, Extends;
      ok := CommitPart(i);
      open, lost := if ok then Some(i) else None, !ok && !disk.halted && disk.home.journal.Some?;
      if !disk.halted {
        TeamMeans(i);
      }
    }

    /** While a plan waits, no other is committed. */
    method CommitBusy(i: nat)
      requires Valid() && Ready(i) && !lost && open.Some?
      modifies this`ledger, plans, registry, disk
      ensures Valid() && Undisturbed(disk, None) && Extends(old(ledger), ledger)
    {
      hide Team, LedgerTruthful, PlansTruthful, Sound, Committed, Foreign, Loaded, Held, Promoted, PlanOk, RegistryOk, Durable, Undisturbed, Extends;
      TeamMeans(open.value);
      HeldMeans(disk.home, plans[open.value].Candidate(), plans[open.value].dir, plans[open.value].stage, plans[open.value].base);
      var _ := CommitPart(i);
      TeamMeans(open.value);
    }

    method CommitLost(i: nat) returns (ok: bool)
      requires Valid() && Ready(i) && lost
      modifies this`ledger, this`open, plans, registry, disk
      ensures Valid() && Undisturbed(disk, None) && Extends(old(ledger), ledger)
      ensures ok ==> old(Loaded(disk.home)) == plans[i].base && old(disk.home.journal) == None
      ensures !ok && old(plans[i].registry == registry && registry.disk == disk && Certain(plans[i])) ==> disk.halted || disk.errors > old(disk.errors)
    {
      hide Certain, Team, LedgerTruthful, PlansTruthful, Sound, Committed, Foreign, Loaded, Held, Promoted, PlanOk, RegistryOk, Durable, Undisturbed, Extends;
      ok := CommitPart(i);
      open := if ok then Some(i) else open;
    }

    /** Accepts a plan. Not while a promotion is lost, and not on a disk that fails after the
        accepted mark: what the program does then is the subject of AcceptedUndo. */
    method Finalize(i: nat)
      requires Valid() && disk.weather != Faults
      modifies this`open, plans, disk
      ensures Valid()
      ensures Undisturbed(disk, if i < |plans| && old(plans[i].Unfinished()) then Some(old(plans[i].Candidate())) else None)
      ensures i < |plans| && old(plans[i].Unfinished() && !lost && !disk.halted) ==>
        disk.halted || (Committed(disk.home).manifest == old(plans[i].Candidate()) && !plans[i].Unfinished())
    {
      hide Fetch.Truthful, Fetch.Honest, LedgerTruthful, Sound, Committed, Foreign, AcceptedSound, Cleared, Plan.Staged, Loaded, StagesApart, Held, Promoted, Aside, PlanOk, RegistryOk, RegistryKnown, Named, KnownHome, Known;
      if Ready(i) && !lost {
        PlanMeans(plans[i], registry, ledger);
        if open.Some? {
          PlanMeans(plans[open.value], registry, ledger);
          HeldMeans(disk.home, plans[open.value].Candidate(), plans[open.value].dir, plans[open.value].stage, plans[open.value].base);
        }
        var ok := FinalizeOne(plans[i], ledger);
        StagesStayApart(plans, old(disk.nextId), disk.nextId);
        open := if ok && open == Some(i) then None else open;
      }
    }

    /** Undoes a plan. A plan becomes an orphan only when a rollback takes a journal away. */
    method Rollback(i: nat)
      requires Valid()
      modifies this`open, this`lost, this`orphans, plans, registry, disk
      ensures Valid() && Undisturbed(disk, None)
      ensures disk.weather != Faults ==> lost == old(lost)
      ensures orphans != old(orphans) ==> lost && old(disk.home.journal).Some? && disk.home.journal == None
      ensures i < |plans| && old(plans[i].Unfinished() && !lost && !disk.halted) ==>
        disk.halted || disk.errors > old(disk.errors) || (disk.home.journal == None && !plans[i].Unfinished())
    {
      hide Sound, Foreign, Committed, Live;
      if Ready(i) {
        if lost {
          RollbackLost(i);
        } else if plans[i].Unfinished() {
          RollbackWaiting(i);
        } else {
          RollbackIdle(i);
        }
      }
    }

    /** The undo itself. Other plans are not touched. */
    method RollbackPart(i: nat) returns (ok: bool)
      requires Durable(disk, ledger) && Team() && Ready(i)
      modifies plans, registry, disk
      ensures Counting(disk)
      ensures Durable(disk, ledger) && Team() && Undisturbed(disk, None)
      ensures forall k :: 0 <= k < |plans| && k != i ==> unchanged(plans[k])
      ensures disk.home.journal == None || disk.home.journal == old(disk.home.journal)
      ensures ok ==> !plans[i].Unfinished() && disk.home.journal == None && old(disk.home.journal).Some?
      ensures !old(plans[i].Unfinished()) ==> disk.home == old(disk.home) && !plans[i].Unfinished() && !ok && (old(RegistryOk(registry)) ==> RegistryOk(registry))
      ensures old(plans[i].registry == registry && registry.disk == disk && Holding(plans[i])) ==>
        (ok || disk.halted || disk.errors > old(disk.errors)) && (ok ==> RegistryOk(registry))
    {
      hide Fetch.Truthful, Fetch.Honest, LedgerTruthful, Sound, Committed, Foreign, AcceptedSound, Cleared, Plan.Staged, Loaded, StagesApart, Held, Promoted, Aside, PlanOk, RegistryOk, RegistryKnown, Durable, Undisturbed, Extends, Gained;
      assert forall k :: 0 <= k < |plans| && k != i ==> plans[k] != plans[i];
      PlanMeans(plans[i], registry, ledger);
      ok := RollbackOne(plans[i], ledger);
      assert forall k :: 0 <= k < |plans| ==> PlanOk(plans[k], registry, ledger);
      StagesStayApart(plans, old(disk.nextId), disk.nextId);
    }

    method RollbackWaiting(i: nat)
      requires Valid() && Ready(i) && !lost && plans[i].Unfinished()
      modifies this`open, this`lost, this`orphans, plans, registry, disk
      ensures Valid() && Undisturbed(disk, None)
      ensures lost ==> disk.weather == Faults
      ensures disk.halted || disk.errors > old(disk.errors) || (disk.home.journal == None && !plans[i].Unfinished())
      ensures orphans != old(orphans) ==> lost && old(disk.home.journal).Some? && disk.home.journal == None
    {
      hide Team, LedgerTruthful, PlansTruthful, Sound, Committed, Foreign, Loaded, Held, Promoted, PlanOk, RegistryOk, Durable, Undisturbed, Extends;
      TeamMeans(i);
      HeldMeans(disk.home, plans[i].Candidate(), plans[i].dir, plans[i].stage, plans[i].base);
      var ok := RollbackPart(i);
      open, lost := if ok then None else open, !ok && !disk.halted;
      orphans := if lost && disk.home.journal == None then {i} else orphans;
    }

    /** Nothing to undo, nothing done. */
    method RollbackIdle(i: nat)
      requires Valid() && Ready(i) && !lost && !plans[i].Unfinished()
      modifies plans, registry, disk
      ensures Valid() && Undisturbed(disk, None)
    {
      hide Team, LedgerTruthful, PlansTruthful, Sound, Committed, Foreign, Loaded, Held, Promoted, PlanOk, RegistryOk, Durable, Undisturbed, Extends;
      if open.Some? {
        TeamMeans(open.value);
      }
      var _ := RollbackPart(i);
      if open.Some? {
        TeamMeans(open.value);
      }
    }

    method RollbackLost(i: nat)
      requires Valid() && Ready(i) && lost
      modifies this`open, this`orphans, plans, registry, disk
      ensures Valid() && Undisturbed(disk, None)
      ensures orphans != old(orphans) ==> old(disk.home.journal).Some? && disk.home.journal == None
    {
      hide Team, LedgerTruthful, PlansTruthful, Sound, Committed, Foreign, Loaded, Held, Promoted, PlanOk, RegistryOk, Durable, Undisturbed, Extends;
      var journal := disk.home.journal;
      var ok := RollbackPart(i);
      open := if ok && open == Some(i) then None else open;
      orphans := if disk.home.journal != journal && open.Some? then orphans + {open.value} else orphans;
    }

    method Validate(i: nat, accepted: bool)
      requires Valid()
      modifies plans, disk
      ensures Valid() && Undisturbed(disk, None)
      ensures i < |plans| && plans[i].validated && !old(plans[i].validated) ==> accepted && plans[i].Whole(disk.home)
      ensures i < |plans| && old(!plans[i].closed && !plans[i].committed && !plans[i].rolledBack && !disk.halted) ==>
        disk.halted || disk.errors > old(disk.errors) || (plans[i].validated <==> accepted && plans[i].Whole(disk.home))
    {
      hide Plan.Whole, Fetch.Truthful, Fetch.Honest, LedgerTruthful, Sound, Committed, Foreign, AcceptedSound, Cleared, Plan.Staged, Loaded, StagesApart, Held, Promoted, Aside, PlanOk, RegistryOk, RegistryKnown, Named, KnownHome, Known;
      if Ready(i) {
        PlanMeans(plans[i], registry, ledger);
        if !lost && open.Some? {
          PlanMeans(plans[open.value], registry, ledger);
        }
        ValidateOne(plans[i], ledger, accepted);
      }
    }

    method Abort(i: nat)
      requires Valid()
      modifies plans, disk
      ensures Valid() && Undisturbed(disk, None)
      ensures i < |plans| && !old(disk.halted) ==>
        disk.halted || disk.errors > old(disk.errors) || (plans[i].closed <==> old(plans[i].closed) || !plans[i].committed || plans[i].rolledBack)
    {
      hide Live, Sound, Committed, Foreign, Known, Loaded, Named, LedgerTruthful, PlansTruthful;
      if Ready(i) {
        AbortLive(i);
      }
    }

    /** The abort itself. Other plans are not touched. */
    method AbortPart(i: nat)
      requires Durable(disk, ledger) && Team() && Ready(i)
      modifies plans, disk
      ensures Durable(disk, ledger) && Team() && Undisturbed(disk, None)
      ensures forall k :: 0 <= k < |plans| && k != i ==> unchanged(plans[k])
      ensures plans[i].Unfinished() == old(plans[i].Unfinished()) && plans[i].Candidate() == old(plans[i].Candidate()) && plans[i].dir == old(plans[i].dir)
      ensures old(RegistryOk(registry)) ==> RegistryOk(registry)
      ensures Aside(old(disk.home), disk.home, plans[i].stage) && (plans[i].Unfinished() ==> disk.home == old(disk.home)) && disk.home.journal == old(disk.home.journal)
      ensures disk.halted || disk.errors > old(disk.errors) || (plans[i].closed <==> old(plans[i].closed) || !plans[i].committed || plans[i].rolledBack)
    {
      hide Durable, Undisturbed, Sound, Loaded, StagesApart, Held, Promoted, Aside, PlanOk, RegistryOk, RegistryKnown;
      assert forall k :: 0 <= k < |plans| && k != i ==> plans[k] != plans[i];
      PlanMeans(plans[i], registry, ledger);
      RegistryMeans(registry, ledger);
      AbortOne(plans[i], ledger);
      assert forall k :: 0 <= k < |plans| ==> PlanOk(plans[k], registry, ledger);
      StagesStayApart(plans, old(disk.nextId), disk.nextId);
    }

    lemma TeamStages(i: nat, k: nat)
      requires Team() && i < |plans| && k < |plans| && i != k && plans[i].stage.Some?
      ensures plans[i].stage != plans[k].stage
    {
      hide PlanOk, RegistryKnown;
      OtherStage(plans, disk.nextId, i, k);
    }

    method AbortLive(i: nat)
      requires Valid() && Ready(i)
      modifies plans, disk
      ensures Valid() && Undisturbed(disk, None)
      ensures disk.halted || disk.errors > old(disk.errors) || (plans[i].closed <==> old(plans[i].closed) || !plans[i].committed || plans[i].rolledBack)
    {
      hide Team, LedgerTruthful, PlansTruthful, Sound, Committed, Foreign, Loaded, Held, Promoted, PlanOk, RegistryOk, Durable, Undisturbed, Aside;
      ghost var before := disk.home;
      ghost var waits := !lost && open.Some?;
      if waits {
        TeamMeans(open.value);
        if open.value != i && plans[open.value].stage.Some? {
          TeamStages(open.value, i);
        }
      }
      AbortPart(i);
      if waits && !disk.halted {
        TeamMeans(open.value);
        if open.value != i {
          HeldAside(before, disk.home, plans[i].stage, plans[open.value].Candidate(), plans[open.value].dir, plans[open.value].stage, plans[open.value].base);
        }
      }
    }

    /** The process dies, if it has not yet; after any number of failed start-ups one
        runs through. */
    method Restart(attempts: seq<Weather>)
      requires Valid()
      modifies this`registry, this`plans, this`open, this`lost, this`orphans, disk
      ensures Valid() && Undisturbed(disk, None)
      ensures !disk.halted && !lost && plans == [] && fresh(registry)
    {
      registry := OpenAnew(disk, attempts, ledger);
      plans, open, lost, orphans := [], None, false, {};
    }

    method Turn(weather: Weather)
      requires Valid()
      modifies disk`weather
      ensures Valid() && disk.weather == weather
    {
      hide Sound, LedgerTruthful, PlansTruthful, StagesApart, Held, PlanOk;
      disk.Turn(weather);
    }

    /** One event. Commit IDs keep their manifests, the user's own files stay, and only
        the acceptance of an unfinished plan changes what a start-up exposes. */
    method Step(e: Event)
      requires Valid() && (e.Finalize? ==> disk.weather != Faults) && (e.Stage? ==> Fetch.Honest(w, e.request.now, e.request.reply))
      modifies this, plans, registry, disk
      ensures Valid() && Extends(old(ledger), ledger)
      ensures Undisturbed(disk, if e.Finalize? && e.plan < |old(plans)| && old(plans[e.plan].Unfinished()) then Some(old(plans[e.plan].Candidate())) else None)
      ensures registry == old(registry) || fresh(registry)
      ensures forall i :: 0 <= i < |plans| ==> plans[i] in old(plans) || fresh(plans[i])
    {
      hide Durable, Live, Undisturbed, PlanOk, LedgerTruthful, PlansTruthful, Fetch.Honest;
      match e
      case Stage(request) => Stage(request);
      case Validate(i, accepted) => Validate(i, accepted);
      case Commit(i) => var _ := Commit(i);
      case Finalize(i) => Finalize(i);
      case Rollback(i) => Rollback(i);
      case Abort(i) => Abort(i);
      case Restart(attempts) => Restart(attempts);
    }

    /** Every run of any number of plans, with a crash or an error possible inside every step
        of every event: the disk can always be opened, commit IDs keep their manifests, the
        stored validators belong to the stored hashes, and the user's own files are never
        touched. */
    method Run(events: seq<(Event, Weather)>)
      requires Valid() && forall e :: e in events && e.0.Stage? ==> Fetch.Honest(w, e.0.request.now, e.0.request.reply)
      modifies this, plans, registry, disk
      ensures Valid() && Extends(old(ledger), ledger) && old(Sound(disk.home)) && Foreign(disk.home) == old(Foreign(disk.home))
    {
      hide Live, Sound, Foreign, Committed, LedgerTruthful, PlansTruthful, Fetch.Honest;
      for k := 0 to |events|
        invariant Valid() && Extends(old(ledger), ledger) && Foreign(disk.home) == old(Foreign(disk.home))
        invariant registry == old(registry) || fresh(registry)
        invariant forall i :: 0 <= i < |plans| ==> plans[i] in old(plans) || fresh(plans[i])
      {
        assert events[k] in events;
        Turn(if events[k].0.Finalize? && events[k].1 == Faults then Crashes else events[k].1);
        Step(events[k].0);
      }
    }
  }

  /** Whenever no journal is open, the files under stable names are the manifest's, with
      the promised bytes, and the user's own; nothing else, and no name is both. */
  lemma StableFilesAreTheManifests(s: Image, n: Name)
    requires Sound(s) && s.journal == None && Loaded(s).version == 2
    ensures n in s.files <==> n in Owners(Loaded(s)) || n in Foreign(s)
    ensures !(n in Owners(Loaded(s)) && n in Foreign(s))
    ensures n in Owners(Loaded(s)) ==> n in s.files && Some(DigestOf(s.files[n])) == PromisedSHA(Loaded(s), n)
    ensures n in Foreign(s) ==> n in s.files && s.files[n] == Foreign(s)[n]
  {
    if n in Owners(Loaded(s)) {
      var id := Owners(Loaded(s))[n];
      assert id in Loaded(s).resources && ResourceName(Loaded(s), id) == n;
    }
  }

  /** Over a whole run, equal commit IDs mean equal manifests and equal bytes: two
      moments without a journal that show the same commit ID hold the same files. */
  lemma SameCommitSameBytes(earlier: Ledger, later: Ledger, s: Image, t: Image)
    requires Extends(earlier, later) && Known(earlier, Loaded(s)) && Known(later, Loaded(t))
    requires Sound(s) && Sound(t) && s.journal == None && t.journal == None
    requires Loaded(s).commitId == Loaded(t).commitId
    ensures Loaded(s) == Loaded(t) && Contents(Committed(s)) == Contents(Committed(t))
    ensures forall n :: n in Owners(Loaded(s)) ==> n in s.files && n in t.files && s.files[n] == t.files[n]
  {
    SameContents(s, t);
    forall n | n in Owners(Loaded(s)) ensures n in s.files && n in t.files && s.files[n] == t.files[n] {
      StableFilesAreTheManifests(s, n);
      StableFilesAreTheManifests(t, n);
    }
  }
}
