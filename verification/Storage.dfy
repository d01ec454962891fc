/** The disk seen by one process. Every method is one file-system step that may
    succeed, fail without effect, take effect and still report an error (a
    rename whose directory sync fails), or be the point where the process dies.
    After a crash no later step of that process has any effect. */
module Storage {
  import opened Common
  import opened ResourceManifest
  import opened ResourceImage
  import opened SubscriptionImage

  /** What the environment may do: nothing, kill the process, or also fail steps. */
  datatype Weather = Calm | Crashes | Faults

  datatype Outcome = Done | Refused | Late | Crash

  /** Errors add up, and without faults there are none. */
  twostate predicate Counting(disk: Disk)
    reads disk
  {
    disk.errors >= old(disk.errors) && (disk.weather != Faults ==> disk.errors == old(disk.errors))
  }

  class Disk {
    var home: Image
    var subs: Store
    var halted: bool
    var weather: Weather
    /** How many steps have failed without killing the process. */
    var errors: nat
    /** Every commit ID and directory name issued so far is below this. */
    var nextId: nat

    constructor (home: Image, subs: Store, nextId: nat)
      ensures this.home == home && this.subs == subs && this.nextId == nextId
      ensures !halted && weather == Calm && errors == 0
    {
      this.home, this.subs, this.nextId := home, subs, nextId;
      halted, weather, errors := false, Calm, 0;
    }

    /** Decides the fate of the next step. */
    method Attempt() returns (fate: Outcome)
      modifies this`halted, this`errors
      ensures old(halted) ==> fate == Crash
      ensures halted <==> fate == Crash
      ensures !old(halted) && weather == Calm ==> fate == Done
      ensures weather != Faults ==> fate == Done || fate == Crash
      ensures errors == old(errors) + if fate == Refused || fate == Late then 1 else 0
    {
      fate := *;
      if halted {
        fate := Crash;
      } else if weather == Calm {
        fate := Done;
      } else if weather == Crashes && fate != Done {
        fate := Crash;
      }
      halted := fate == Crash;
      errors := errors + if fate == Refused || fate == Late then 1 else 0;
    }

    /** The process is gone; the next one finds the same files. */
    method Reboot(next: Weather)
      modifies this`halted, this`weather
      ensures !halted && weather == next
    {
      halted, weather := false, next;
    }

    /** The environment changes under a running process. */
    method Turn(next: Weather)
      modifies this`weather
      ensures weather == next
    {
      weather := next;
    }

    /** A random identity that was never used before. */
    method NewId() returns (id: nat)
      modifies this`nextId
      ensures id == old(nextId) && nextId == old(nextId) + 1
    {
      id := nextId;
      nextId := nextId + 1;
    }

    /** A failed step that did not kill the process is an error; without faults there is none. */
    ghost predicate Tallied(failed: bool, errorsBefore: nat)
      reads this
    {
      errors == errorsBefore + (if failed && !halted then 1 else 0) && (weather != Faults ==> errors == errorsBefore)
    }

    /** The same where a missing file is no error. */
    ghost predicate ReadTallied(failed: bool, errorsBefore: nat)
      reads this
    {
      && errorsBefore <= errors <= errorsBefore + 1 && (errors > errorsBefore ==> !halted && weather == Faults)
      && (failed ==> halted || errors > errorsBefore)
    }

    /** How a step that was meant to lead from `before` to `after` may end. */
    ghost predicate Stepped(ok: bool, wasHalted: bool, errorsBefore: nat, before: Image, after: Image)
      reads this
    {
      && Tallied(!ok, errorsBefore)
      && (ok ==> home == after && !halted)
      && (!ok ==> home == before || home == after)
      && (wasHalted ==> !ok && home == before && halted)
      && (!wasHalted && weather == Calm ==> ok)
    }

    /** Reads a stable file; fails when it is missing, empty or over the limit. */
    method ReadFile(name: Name, maxBytes: int) returns (r: Option<Body>)
      modifies this`halted, this`errors
      ensures old(halted) ==> halted
      ensures r.Some? ==> !halted && name in home.files && r.value == home.files[name] && Readable(r.value, maxBytes)
      ensures !old(halted) && weather == Calm ==> !halted
      ensures ReadTallied(r == None && name in home.files && Readable(home.files[name], maxBytes), old(errors))
    {
      var fate := Attempt();
      if fate == Done && name in home.files && Readable(home.files[name], maxBytes) {
        return Some(home.files[name]);
      }
      return None;
    }

    method WriteFile(name: Name, body: Body) returns (ok: bool)
      modifies this`home, this`halted, this`errors
      ensures Stepped(ok, old(halted), old(errors), old(home), old(home).(files := old(home).files[name := body]))
    {
      var fate := Attempt();
      if fate == Done || fate == Late {
        home := home.(files := home.files[name := body]);
      }
      ok := fate == Done;
    }

    method RemoveFile(name: Name) returns (ok: bool)
      modifies this`home, this`halted, this`errors
      ensures Stepped(ok, old(halted), old(errors), old(home), old(home).(files := old(home).files - {name}))
    {
      var fate := Attempt();
      if fate == Done || fate == Late {
        home := home.(files := home.files - {name});
      }
      ok := fate == Done;
    }

    method WriteManifest(m: Manifest) returns (ok: bool)
      modifies this`home, this`halted, this`errors
      ensures Stepped(ok, old(halted), old(errors), old(home), old(home).(manifest := Some(m)))
    {
      var fate := Attempt();
      if fate == Done {
        home := home.(manifest := Some(m));
      }
      ok := fate == Done;
    }

    /** A journal over the size limit is refused before anything is written. */
    method WriteJournal(j: Journal) returns (ok: bool)
      modifies this`home, this`halted, this`errors
      ensures |j.files| <= MAX_STATE_BYTES ==> Stepped(ok, old(halted), old(errors), old(home), old(home).(journal := Some(j)))
      ensures |j.files| > MAX_STATE_BYTES ==> !ok && home == old(home) && halted == old(halted) && errors == old(errors)
    {
      if |j.files| > MAX_STATE_BYTES {
        return false;
      }
      var fate := Attempt();
      if fate == Done || fate == Late {
        home := home.(journal := Some(j));
      }
      ok := fate == Done;
    }

    /** Removes the journal. Only some callers insist that the removal is synced,
        and only they see an error when that last part fails. */
    method RemoveJournal(synced: bool) returns (ok: bool)
      modifies this`home, this`halted, this`errors
      ensures Stepped(ok, old(halted), old(errors), old(home), old(home).(journal := None))
      ensures !ok && !synced ==> home == old(home)
    {
      var fate := Attempt();
      if fate == Done || (fate == Late && synced) {
        home := home.(journal := None);
      }
      ok := fate == Done;
    }

    // Private directories. They are named after fresh identities, so making one
    // never meets an existing directory.

    method MakeTxn() returns (dir: Option<nat>)
      modifies this`home, this`halted, this`errors, this`nextId
      ensures nextId >= old(nextId)
      ensures old(halted) ==> halted
      ensures dir.Some? ==> !halted && dir.value == old(nextId) < nextId
      ensures home == old(home).(txns := if dir.Some? then old(home).txns[dir.value := map[]] else old(home).txns)
      ensures Tallied(dir == None, old(errors))
      ensures !old(halted) && weather == Calm ==> dir.Some?
    {
      var id := NewId();
      var fate := Attempt();
      if fate == Done {
        home := home.(txns := home.txns[id := map[]]);
        return Some(id);
      }
      return None;
    }

    method WriteBackup(dir: nat, slot: int, body: Body) returns (ok: bool)
      requires dir in home.txns
      modifies this`home, this`halted, this`errors
      ensures old(halted) ==> halted && !ok
      ensures ok ==> !halted
      ensures Tallied(!ok, old(errors))
      ensures !old(halted) && weather == Calm ==> ok
      ensures home == old(home).(txns := if ok then old(home).txns[dir := old(home).txns[dir][slot := body]] else old(home).txns)
    {
      var fate := Attempt();
      ok := fate == Done;
      if ok {
        home := home.(txns := home.txns[dir := home.txns[dir][slot := body]]);
      }
    }

    method ReadBackup(dir: nat, slot: Option<int>, maxBytes: int) returns (r: Option<Body>)
      modifies this`halted, this`errors
      ensures old(halted) ==> halted
      ensures r.Some? ==> !halted && dir in home.txns && slot.Some? && slot.value in home.txns[dir] && r.value == home.txns[dir][slot.value] && Readable(r.value, maxBytes)
      ensures !old(halted) && weather == Calm ==> !halted
      ensures ReadTallied(r == None && dir in home.txns && slot.Some? && slot.value in home.txns[dir] && Readable(home.txns[dir][slot.value], maxBytes), old(errors))
    {
      var fate := Attempt();
      if fate == Done && dir in home.txns && slot.Some? && slot.value in home.txns[dir] && Readable(home.txns[dir][slot.value], maxBytes) {
        return Some(home.txns[dir][slot.value]);
      }
      return None;
    }

    /** Removing a directory empties it first, so a failure may leave any part. */
    method RemoveTxn(dir: nat) returns (ok: bool)
      modifies this`home, this`halted, this`errors
      ensures old(halted) ==> halted && !ok && home == old(home)
      ensures ok ==> !halted && dir !in home.txns
      ensures Tallied(!ok, old(errors))
      ensures !old(halted) && weather == Calm ==> ok
      ensures home == old(home).(txns := home.txns)
      ensures home.txns - {dir} == old(home).txns - {dir}
      ensures dir in home.txns ==> dir in old(home).txns
    {
      var wasHalted := halted;
      var fate := Attempt();
      ok := fate == Done;
      if ok {
        home := home.(txns := home.txns - {dir});
      } else if !wasHalted && dir in home.txns {
        var kept: set<int> := *;
        var left := map slot | slot in home.txns[dir] && slot in kept :: home.txns[dir][slot];
        home := home.(txns := home.txns[dir := left]);
      }
    }

    method MakeStage() returns (dir: Option<nat>)
      modifies this`home, this`halted, this`errors, this`nextId
      ensures nextId >= old(nextId)
      ensures old(halted) ==> halted
      ensures dir.Some? ==> !halted && dir.value == old(nextId) < nextId
      ensures home == old(home).(stages := if dir.Some? then old(home).stages[dir.value := map[]] else old(home).stages)
      ensures Tallied(dir == None, old(errors))
      ensures !old(halted) && weather == Calm ==> dir.Some?
    {
      var id := NewId();
      var fate := Attempt();
      if fate == Done {
        home := home.(stages := home.stages[id := map[]]);
        return Some(id);
      }
      return None;
    }

    method WriteStaged(dir: nat, name: Name, body: Body) returns (ok: bool)
      requires dir in home.stages
      modifies this`home, this`halted, this`errors
      ensures old(halted) ==> halted && !ok
      ensures ok ==> !halted
      ensures Tallied(!ok, old(errors))
      ensures !old(halted) && weather == Calm ==> ok
      ensures home == old(home).(stages := if ok then old(home).stages[dir := old(home).stages[dir][name := body]] else old(home).stages)
    {
      var fate := Attempt();
      ok := fate == Done;
      if ok {
        home := home.(stages := home.stages[dir := home.stages[dir][name := body]]);
      }
    }

    method ReadStaged(dir: nat, name: Name, maxBytes: int) returns (r: Option<Body>)
      modifies this`halted, this`errors
      ensures old(halted) ==> halted
      ensures r.Some? ==> !halted && dir in home.stages && name in home.stages[dir] && r.value == home.stages[dir][name] && Readable(r.value, maxBytes)
      ensures !old(halted) && weather == Calm ==> !halted
      ensures ReadTallied(r == None && dir in home.stages && name in home.stages[dir] && Readable(home.stages[dir][name], maxBytes), old(errors))
    {
      var fate := Attempt();
      if fate == Done && dir in home.stages && name in home.stages[dir] && Readable(home.stages[dir][name], maxBytes) {
        return Some(home.stages[dir][name]);
      }
      return None;
    }

    method RemoveStage(dir: nat) returns (ok: bool)
      modifies this`home, this`halted, this`errors
      ensures old(halted) ==> halted && !ok && home == old(home)
      ensures ok ==> !halted && dir !in home.stages
      ensures Tallied(!ok, old(errors))
      ensures !old(halted) && weather == Calm ==> ok
      ensures home == old(home).(stages := home.stages)
      ensures home.stages - {dir} == old(home).stages - {dir}
      ensures dir in home.stages ==> dir in old(home).stages
    {
      var wasHalted := halted;
      var fate := Attempt();
      ok := fate == Done;
      if ok {
        home := home.(stages := home.stages - {dir});
      } else if !wasHalted && dir in home.stages {
        var kept: set<Name> := *;
        var left := map name | name in home.stages[dir] && name in kept :: home.stages[dir][name];
        home := home.(stages := home.stages[dir := left]);
      }
    }

    method RemoveGeneration(generation: nat) returns (ok: bool)
      modifies this`home, this`halted, this`errors
      ensures old(halted) ==> halted && !ok && home == old(home)
      ensures ok ==> !halted
      ensures Tallied(!ok, old(errors))
      ensures !old(halted) && weather == Calm ==> ok
      ensures home == old(home).(generations := home.generations)
      ensures ok ==> home.generations == old(home).generations - {generation}
    {
      var wasHalted := halted;
      var fate := Attempt();
      ok := fate == Done;
      if ok {
        home := home.(generations := home.generations - {generation});
      } else if !wasHalted && generation in home.generations {
        var kept: set<Name> := *;
        var left := map name | name in home.generations[generation] && name in kept :: home.generations[generation][name];
        home := home.(generations := home.generations[generation := left]);
      }
    }

    method ReadGeneration(generation: nat, name: Name, maxBytes: int) returns (r: Option<Body>)
      modifies this`halted, this`errors
      ensures old(halted) ==> halted
      ensures r.Some? ==> !halted && generation in home.generations && name in home.generations[generation] && r.value == home.generations[generation][name] && Readable(r.value, maxBytes)
      ensures !old(halted) && weather == Calm ==> !halted
      ensures ReadTallied(r == None && generation in home.generations && name in home.generations[generation] && Readable(home.generations[generation][name], maxBytes), old(errors))
    {
      var fate := Attempt();
      if fate == Done && generation in home.generations && name in home.generations[generation] && Readable(home.generations[generation][name], maxBytes) {
        return Some(home.generations[generation][name]);
      }
      return None;
    }

    // The subscription directory. Its files are written through a temporary file and a
    // rename, so that a write either happened or did not.

    ghost predicate SubStepped(ok: bool, wasHalted: bool, errorsBefore: nat, before: Store, after: Store)
      reads this
    {
      && Tallied(!ok, errorsBefore)
      && subs == (if ok then after else before)
      && (ok ==> !halted && !wasHalted)
      && (wasHalted ==> halted)
      && (!wasHalted && weather == Calm ==> ok)
    }

    method WriteRecord(id: SubId, record: Record) returns (ok: bool)
      requires id in subs.dirs
      modifies this`subs, this`halted, this`errors
      ensures SubStepped(ok, old(halted), old(errors), old(subs), WithRecord(old(subs), id, record))
    {
      var fate := Attempt();
      ok := fate == Done;
      if ok {
        subs := WithRecord(subs, id, record);
      }
    }

    method WriteGenFile(id: SubId, file: GenFile, text: Text) returns (ok: bool)
      requires id in subs.dirs
      modifies this`subs, this`halted, this`errors
      ensures SubStepped(ok, old(halted), old(errors), old(subs), WithFile(old(subs), id, file, text))
    {
      var fate := Attempt();
      ok := fate == Done;
      if ok {
        subs := WithFile(subs, id, file, text);
      }
    }

    method RemoveGenFile(id: SubId, file: GenFile) returns (ok: bool)
      requires id in subs.dirs
      modifies this`subs, this`halted, this`errors
      ensures SubStepped(ok, old(halted), old(errors), old(subs), Without(old(subs), id, {file}))
    {
      var fate := Attempt();
      ok := fate == Done;
      if ok {
        subs := Without(subs, id, {file});
      }
    }

    /** Reads a pair and checks both files against their hashes; gives the profile. */
    method ReadPair(id: SubId, pair: Pair) returns (r: Option<Text>)
      modifies this`halted, this`errors
      ensures old(halted) ==> halted && r == None
      ensures r.Some? ==> !halted && id in subs.dirs && PairStored(subs.dirs[id].files, pair) && HashOf(r.value) == pair.profile
      ensures !old(halted) && weather == Calm ==> !halted
      ensures ReadTallied(r == None && id in subs.dirs && PairStored(subs.dirs[id].files, pair), old(errors))
    {
      var fate := Attempt();
      if fate == Done && id in subs.dirs && PairStored(subs.dirs[id].files, pair) {
        return Some(subs.dirs[id].files[ProfileFile(pair.profile)]);
      }
      return None;
    }

    method WriteActive(active: Option<Applied>) returns (ok: bool)
      modifies this`subs, this`halted, this`errors
      ensures SubStepped(ok, old(halted), old(errors), old(subs), old(subs).(active := active))
    {
      var fate := Attempt();
      ok := fate == Done;
      if ok {
        subs := subs.(active := active);
      }
    }

    method WritePending(pending: Option<Pending>) returns (ok: bool)
      modifies this`subs, this`halted, this`errors
      ensures SubStepped(ok, old(halted), old(errors), old(subs), old(subs).(pending := pending))
    {
      var fate := Attempt();
      ok := fate == Done;
      if ok {
        subs := subs.(pending := pending);
      }
    }

    /** Makes the directory of a new subscription, still without a record. */
    method MakeDir(id: SubId) returns (ok: bool)
      requires id !in subs.dirs
      modifies this`subs, this`halted, this`errors
      ensures SubStepped(ok, old(halted), old(errors), old(subs), WithDir(old(subs), id, None))
    {
      var fate := Attempt();
      ok := fate == Done;
      if ok {
        subs := WithDir(subs, id, None);
      }
    }

    /** Takes a directory away, by a rename into a quarantine that no start-up looks into. */
    method DropDir(id: SubId) returns (ok: bool)
      modifies this`subs, this`halted, this`errors
      ensures SubStepped(ok, old(halted), old(errors), old(subs), old(subs).(dirs := old(subs).dirs - {id}))
    {
      var fate := Attempt();
      ok := fate == Done;
      if ok {
        subs := subs.(dirs := subs.dirs - {id});
      }
    }

    method SetQuarantine(quarantine: set<nat>) returns (ok: bool)
      modifies this`subs, this`halted, this`errors
      ensures SubStepped(ok, old(halted), old(errors), old(subs), old(subs).(quarantine := quarantine))
    {
      var fate := Attempt();
      ok := fate == Done;
      if ok {
        subs := subs.(quarantine := quarantine);
      }
    }
  }
}
