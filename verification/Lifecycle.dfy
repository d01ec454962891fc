/** Replacing the running Mihomo. Everything outside the service (Mihomo, its controller,
    the desktop's proxy settings, the file system) answers calls that work or fail, as an
    input of the run says. */
module Lifecycle {
  import opened Common

  type Selection = map<string, string>

  /** A generated configuration: its mode, everything else, what each selector group offers,
      and what a fresh start selects. */
  datatype Config = Config(mode: nat, content: nat, offers: map<string, set<string>>, initial: Selection)

  predicate ValidConfig(c: Config) {
    c.offers.Keys == c.initial.Keys && forall g :: g in c.offers ==> c.initial[g] in c.offers[g]
  }

  /** A selection that the groups of a configuration allow. */
  predicate Fits(c: Config, s: Selection) {
    s.Keys == c.offers.Keys && forall g :: g in s && g in c.offers ==> s[g] in c.offers[g]
  }

  /** What is running: the configuration it was started with or switched to, the binary and
      the data home. */
  datatype Instance = Instance(config: Config, cap: nat, home: nat)

  /** Re-selecting what was selected before, where the group still offers it. */
  function Reselected(now: Selection, wanted: Selection, offers: map<string, set<string>>): Selection {
    map g | g in now :: if g in wanted && g in offers && wanted[g] in offers[g] then wanted[g] else now[g]
  }

  /** On the configuration it was made for, a selection comes back whole. */
  lemma ReselectionIsExact(c: Config, wanted: Selection)
    requires ValidConfig(c) && Fits(c, wanted)
    ensures Reselected(c.initial, wanted, c.offers) == wanted
  {
  }

  lemma InitialFits(c: Config)
    requires ValidConfig(c)
    ensures Fits(c, c.initial)
  {
  }

  lemma SameOffers(c: Config, mode: nat, s: Selection)
    requires ValidConfig(c) && Fits(c, s)
    ensures ValidConfig(c.(mode := mode)) && Fits(c.(mode := mode), s)
  {
  }

  lemma NothingReselected(now: Selection, wanted: Selection, offers: map<string, set<string>>)
    ensures Reselected(now, wanted - wanted.Keys, offers) == now
    ensures wanted - (wanted.Keys - {}) == wanted - wanted.Keys
  {
  }

  lemma ReselectOne(c: Config, before: Selection, wanted: Selection, now: Selection, done: set<string>, g: string)
    requires g in wanted && done <= wanted.Keys && g !in done && Fits(c, now)
    requires now == Reselected(before, wanted - (wanted.Keys - done), c.offers)
    ensures
      var next := if g in now && g in c.offers && wanted[g] in c.offers[g] then now[g := wanted[g]] else now;
      && Fits(c, next) && next == Reselected(before, wanted - (wanted.Keys - (done + {g})), c.offers)
      && (g in now && now[g] == wanted[g] ==> next == now)
  {
  }

  /** A change of mode alone keeps every selection. */
  lemma ModeReselects(c: Config, candidate: Config, s: Selection)
    requires candidate == c.(mode := candidate.mode) && ValidConfig(c) && Fits(c, s)
    ensures Reselected(candidate.initial, s, candidate.offers) == s
  {
  }

  /** The candidate differs from the generated configuration in its mode at most. */
  predicate ModeOnly(generated: Option<Config>, candidate: Config) {
    generated.Some? && candidate == generated.value.(mode := candidate.mode)
  }

  /** What the service asks of the world around it. */
  datatype Call =
    | Validate | SetMode | ResetMode | RestoreProxy | ApplyProxy | WriteFile | Halt
    | ReadFile | Launch | Answer | HaltLaunched | TunCheck | Select

  /** Which calls of one operation work, by their kind and their place in it. */
  type Luck = (Call, nat) -> bool

  class Runtime {
    const managedHome: nat
    /** The generated configuration file. */
    var file: Option<Config>
    var generated: Option<Config>
    var cap: nat
    var home: nat
    var controller: bool
    /** What was started and not stopped since. */
    var process: Option<Instance>
    var selected: Selection
    var proxyActive: bool
    var forceRestart: bool
    var tunActive: bool
    var reportPending: bool
    /** The world of the present operation, and how many calls it has answered. */
    var luck: Luck
    var asked: nat
    // How often the world failed in a way that the service cannot repair.
    /** The desktop's proxy settings could not be put back. */
    ghost var proxyFaults: nat
    /** What ran could not be stopped to make room for a candidate. */
    ghost var stopFaults: nat
    /** What ran before could not be brought back. */
    ghost var putBackFaults: nat
    /** A mode that was switched live could not be switched back. */
    ghost var modeFaults: nat

    constructor (managedHome: nat)
      ensures Valid() && Agree() && !controller && !proxyActive && !forceRestart && process == None && generated == None && this.managedHome == managedHome
    {
      this.managedHome := managedHome;
      file, generated, cap, home, controller, process := None, None, 0, managedHome, false, None;
      selected, proxyActive, forceRestart, tunActive, reportPending := map[], false, false, false, false;
      luck, asked := (call, n) => true, 0;
      proxyFaults, stopFaults, putBackFaults, modeFaults := 0, 0, 0, 0;
    }

    /** While a controller exists, file, memory and process agree, except for a mode that
        could not be switched back. */
    ghost predicate Valid()
      reads this
    {
      controller ==>
        && process.Some? && generated.Some? && file == generated && home == managedHome
        && process.value == Instance(generated.value.(mode := process.value.config.mode), cap, home)
        && ValidConfig(generated.value) && Fits(generated.value, selected)
    }

    ghost predicate Agree()
      reads this
    {
      controller ==> process.Some? && generated == Some(process.value.config)
    }

    /** The proxy is on only while a controller exists. */
    predicate ProxyOk()
      reads this
    {
      proxyActive ==> controller
    }

    ghost predicate Always(call: Call)
      reads this`luck
    {
      forall n: nat :: luck(call, n)
    }

    ghost predicate Never(call: Call)
      reads this`luck
    {
      forall n: nat :: !luck(call, n)
    }

    ghost predicate Lucky()
      reads this`luck
    {
      forall call, n: nat :: luck(call, n)
    }

    /** Every call works but for the question whether the TUN device is up. */
    ghost predicate Helpful()
      reads this`luck
    {
      forall call, n: nat :: call != TunCheck ==> luck(call, n)
    }

    /** A call that a new instance depends on never works. */
    ghost predicate Barred(wantProxy: bool, wantTun: bool)
      reads this`luck
    {
      Never(WriteFile) || Never(ReadFile) || Never(Launch) || Never(Answer) || (wantProxy && Never(ApplyProxy)) || (wantTun && Never(TunCheck))
    }

    lemma LuckyMeans()
      ensures Lucky() ==> Helpful() && Always(TunCheck)
      ensures Helpful() ==> forall call :: call != TunCheck ==> Always(call)
    {
    }

    /** The next operation meets this world. */
    method Face(luck: Luck)
      modifies this`luck, this`asked
      ensures this.luck == luck && asked == 0
    {
      this.luck, asked := luck, 0;
    }

    /** Calls of these kinds fail, all others work. */
    method FaceWithout(broken: set<Call>)
      modifies this`luck, this`asked
      ensures forall call :: (call in broken ==> Never(call)) && (call !in broken ==> Always(call))
      ensures broken == {} ==> Lucky()
    {
      Face((call, n) => call !in broken);
    }

    method Ask(call: Call) returns (works: bool)
      modifies this`asked
      ensures works == luck(call, old(asked)) && asked == old(asked) + 1
      ensures (Always(call) ==> works) && (Never(call) ==> !works)
    {
      works := luck(call, asked);
      asked := asked + 1;
    }

    method RestoreProxy() returns (ok: bool)
      modifies this`proxyFaults, this`asked
      ensures ok == luck(Call.RestoreProxy, old(asked)) && asked == old(asked) + 1
      ensures proxyFaults == old(proxyFaults) + if ok then 0 else 1
    {
      ok := Ask(Call.RestoreProxy);
      if !ok {
        proxyFaults := proxyFaults + 1;
      }
    }

    method TurnOn() returns (ok: bool)
      modifies this`asked
      ensures (Always(ApplyProxy) ==> ok) && (Never(ApplyProxy) ==> !ok) && asked == old(asked) + 1
    {
      ok := Ask(ApplyProxy);
    }

    /** Files are replaced whole or not at all. */
    method WriteConfig(c: Config) returns (ok: bool)
      modifies this`file, this`asked
      ensures file == if ok then Some(c) else old(file)
      ensures (Always(WriteFile) ==> ok) && (Never(WriteFile) ==> !ok)
    {
      ok := Ask(WriteFile);
      if ok {
        file := Some(c);
      }
    }

    /** Gives up monitor and controller and stops the process. */
    method StopProcess() returns (ok: bool)
      modifies this`controller, this`process, this`selected, this`tunActive, this`asked
      ensures !controller
      ensures ok ==> process == None && selected == map[]
      ensures !ok ==> process == old(process) && selected == old(selected)
      ensures (Always(Halt) ==> ok) && (Never(Halt) ==> !ok)
    {
      controller, tunActive := false, false;
      ok := Ask(Halt);
      if ok {
        process, selected := None, map[];
      }
    }

    /** Starts Mihomo with the configuration in a file and waits until it answers. If it does
        not, it is stopped again. */
    method StartProcess(withCap: nat, withHome: nat) returns (ok: bool)
      requires !controller
      modifies this`controller, this`process, this`selected, this`tunActive, this`asked
      ensures controller == ok
      ensures ok ==> withHome == managedHome && old(process) == None && file.Some? && process == Some(Instance(file.value, withCap, withHome)) && selected == file.value.initial
      ensures !ok ==> selected == old(selected)
      ensures Helpful() && withHome == managedHome && file.Some? && old(process) == None ==> ok
      ensures ok ==> (Always(TunCheck) ==> tunActive) && (Never(TunCheck) ==> !tunActive)
      ensures Never(Launch) ==> !ok && process == old(process)
      ensures Never(ReadFile) || Never(Launch) || Never(Answer) ==> !ok
      // What was launched and did not answer is stopped again, if that works.
      ensures !ok && Always(HaltLaunched) ==> process == old(process)
      ensures Always(ReadFile) && Always(Launch) && Never(Answer) && Never(HaltLaunched) && withHome == managedHome && file.Some? && old(process) == None ==>
        process == Some(Instance(file.value, withCap, withHome))
    {
      hide Always, Never, Helpful, Lucky;
      LuckyMeans();
      var readable := Ask(ReadFile);
      if withHome != managedHome || file == None || !readable || process.Some? {
        return false;
      }
      var started := Ask(Launch);
      if !started {
        return false;
      }
      process := Some(Instance(file.value, withCap, withHome));
      var ready := Ask(Answer);
      if !ready {
        var stopped := Ask(HaltLaunched);
        if stopped {
          process := None;
        }
        return false;
      }
      controller, selected := true, file.value.initial;
      tunActive := Ask(TunCheck);
      ok := true;
    }

    method SelectOne(group: string, node: string) returns (ok: bool)
      modifies this`selected, this`asked
      ensures selected == if ok then old(selected)[group := node] else old(selected)
      ensures Always(Select) ==> ok
    {
      ok := Ask(Select);
      if ok {
        selected := selected[group := node];
      }
    }

    /** Selects again what was selected; may fail half-way. */
    method RestoreSelections(wanted: Selection) returns (ok: bool)
      requires controller && process.Some? && ValidConfig(process.value.config) && Fits(process.value.config, selected)
      modifies this`selected, this`asked
      ensures Fits(process.value.config, selected)
      ensures ok ==> selected == Reselected(old(selected), wanted, process.value.config.offers)
      ensures Always(Select) ==> ok
    {
      hide ValidConfig, Fits, Reselected, Always;
      var c := process.value.config;
      var names := Enumerate(wanted.Keys);
      ghost var before, done: set<string> := selected, {};
      NothingReselected(before, wanted, c.offers);
      for k := 0 to |names|
        invariant Fits(c, selected) && done == set i | 0 <= i < k :: names[i]
        invariant selected == Reselected(before, wanted - (wanted.Keys - done), c.offers)
      {
        var g := names[k];
        assert g in wanted.Keys;
        ReselectOne(c, before, wanted, selected, done, g);
        done := done + {g};
        if g in selected && g in c.offers && wanted[g] in c.offers[g] && selected[g] != wanted[g] {
          ok := SelectOne(g, wanted[g]);
          if !ok {
            return;
          }
        }
      }
      assert wanted - (wanted.Keys - done) == wanted;
      ok := true;
    }

    /** Goes back to what ran before. Reports whether everything came back; if not, some of
        it may be running all the same. */
    method RestorePrevious(config: Option<Config>, lastCap: nat, lastHome: nat, enableProxy: bool, wanted: Selection) returns (restored: bool)
      requires !controller
      requires config.Some? ==> ValidConfig(config.value) && Fits(config.value, wanted)
      modifies this`file, this`generated, this`cap, this`home, this`controller, this`process, this`selected, this`tunActive, this`proxyActive, this`asked, this`putBackFaults
      ensures Valid() && Agree() && (proxyActive ==> old(proxyActive) || controller)
      ensures controller ==> generated == config
      ensures !controller ==> generated == old(generated)
      ensures restored ==> config.Some? && Back(Instance(config.value, lastCap, lastHome), enableProxy || old(proxyActive), wanted)
      ensures putBackFaults == old(putBackFaults) + if restored then 0 else 1
      ensures Helpful() && config.Some? && lastHome == managedHome && old(process) == None ==> restored
      ensures Never(Launch) ==> !controller && process == old(process)
      ensures Barred(enableProxy, false) ==> !restored
    {
      hide ValidConfig, Fits, Reselected, Always, Never, Lucky, Helpful;
      LuckyMeans();
      restored := false;
      if config.Some? {
        restored := StartPrevious(config.value, lastCap, lastHome);
        if restored {
          ReselectionIsExact(config.value, wanted);
          restored := RestoreSelections(wanted);
          if enableProxy {
            var applied := TurnOn();
            restored, proxyActive := restored && applied, proxyActive || applied;
          }
        }
      }
      putBackFaults := putBackFaults + if restored then 0 else 1;
    }

    method StartPrevious(config: Config, lastCap: nat, lastHome: nat) returns (ok: bool)
      requires !controller && ValidConfig(config)
      modifies this`file, this`generated, this`cap, this`home, this`controller, this`process, this`selected, this`tunActive, this`asked
      ensures controller == ok
      ensures ok ==> Replaced(config, lastCap, lastHome) && lastHome == managedHome && selected == config.initial && Fits(config, selected)
      ensures !ok ==> generated == old(generated)
      ensures Helpful() && lastHome == managedHome && old(process) == None ==> ok
      ensures Never(Launch) ==> !ok && process == old(process)
      ensures Barred(false, false) ==> !ok
    {
      hide ValidConfig, Fits, Always, Never, Lucky, Helpful;
      LuckyMeans();
      InitialFits(config);
      ok := WriteConfig(config);
      if ok {
        ok := StartProcess(lastCap, lastHome);
        if ok {
          generated, cap, home := Some(config), lastCap, lastHome;
        }
      }
    }

    /** This instance runs, and file, memory, selections and proxy fit it. */
    ghost predicate Back(last: Instance, proxy: bool, wanted: Selection)
      reads this
    {
      && controller && process == Some(last) && generated == Some(last.config) && cap == last.cap && home == last.home
      && file == Some(last.config) && selected == wanted && proxyActive == proxy
    }

    /** The candidate is in file, memory and process. */
    ghost predicate Replaced(candidate: Config, withCap: nat, withHome: nat)
      reads this
    {
      && controller && process == Some(Instance(candidate, withCap, withHome)) && generated == Some(candidate) && cap == withCap && home == withHome
      && file == Some(candidate)
    }

    /** Nothing that the service answers for differs from before. */
    twostate predicate Unchanged()
      reads this
    {
      && controller == old(controller) && process == old(process) && generated == old(generated) && cap == old(cap) && home == old(home)
      && file == old(file) && selected == old(selected) && proxyActive == old(proxyActive) && reportPending == old(reportPending)
    }

    /** Where a failed take-down ends: the controller is given up and the proxy off, while the
        old process goes on with the old file. Nothing is put back. */
    twostate predicate HalfDown()
      reads this
    {
      && old(controller) && !controller && !proxyActive
      && process == old(process) && generated == old(generated) && cap == old(cap) && home == old(home)
      && file == old(file) && selected == old(selected)
    }

    /** A change of mode alone is switched live, and taken back if it cannot be recorded. */
    method SwitchMode(candidate: Config) returns (switched: bool, ok: bool)
      requires Valid() && controller && ModeOnly(generated, candidate)
      modifies this`process, this`file, this`generated, this`asked, this`modeFaults
      ensures Valid() && controller && modeFaults >= old(modeFaults)
      ensures !switched ==> Unchanged() && modeFaults == old(modeFaults)
      ensures switched && ok ==> Replaced(candidate, cap, home) && modeFaults == old(modeFaults)
      ensures switched && !ok ==> generated == old(generated) && !Always(WriteFile)
      ensures switched && !ok && modeFaults == old(modeFaults) ==> Agree() && (old(Agree()) ==> Unchanged())
      ensures modeFaults > old(modeFaults) ==> process == Some(old(process).value.(config := generated.value.(mode := candidate.mode)))
      ensures Always(ResetMode) ==> modeFaults == old(modeFaults)
      ensures Always(SetMode) && Never(WriteFile) && Never(ResetMode) ==> switched && !ok && modeFaults > old(modeFaults)
    {
      ok := false;
      switched := Ask(SetMode);
      if !switched {
        return;
      }
      var before := process.value;
      process := Some(before.(config := before.config.(mode := candidate.mode)));
      ok := WriteConfig(candidate);
      if ok {
        generated := Some(candidate);
        return;
      }
      var back := Ask(ResetMode);
      if back {
        process := Some(before.(config := generated.value));
      } else {
        modeFaults := modeFaults + 1;
      }
    }

    /** Takes the running Mihomo down, proxy first. */
    method TakeDown() returns (ok: bool)
      requires Valid() && controller
      modifies this`controller, this`process, this`selected, this`tunActive, this`proxyActive, this`asked, this`proxyFaults, this`stopFaults
      ensures Valid() && ProxyOk() && proxyFaults >= old(proxyFaults)
      ensures ok ==> !controller && process == None && !proxyActive && stopFaults == old(stopFaults)
      ensures !ok ==> (if stopFaults == old(stopFaults) then Unchanged() else HalfDown())
      ensures Always(Call.RestoreProxy) && Always(Halt) ==> ok
      ensures Always(Call.RestoreProxy) && Never(Halt) ==> stopFaults > old(stopFaults)
      ensures Never(Call.RestoreProxy) ==> !ok && stopFaults == old(stopFaults)
    {
      ok := RestoreProxy();
      if !ok {
        return;
      }
      proxyActive := false;
      ok := StopProcess();
      if !ok {
        stopFaults := stopFaults + 1;
      }
    }

    /** After a failure: what ran before comes back, or, if nothing ran, its file does if it
        was written over. */
    method GoBack(running: bool, written: bool, earlier: Option<Config>, lastCap: nat, lastHome: nat, proxy: bool, wanted: Selection, pendingBefore: bool)
      requires !controller && (running ==> !proxyActive)
      requires running ==> earlier.Some? && ValidConfig(earlier.value) && Fits(earlier.value, wanted)
      modifies this`file, this`generated, this`cap, this`home, this`controller, this`process, this`selected, this`tunActive, this`proxyActive, this`asked, this`putBackFaults, this`reportPending
      ensures Valid() && Agree() && putBackFaults >= old(putBackFaults) && (proxyActive ==> old(proxyActive) || controller)
      ensures running && putBackFaults == old(putBackFaults) ==> Back(Instance(earlier.value, lastCap, lastHome), proxy, wanted) && reportPending == pendingBefore
      ensures !running || putBackFaults > old(putBackFaults) ==> reportPending == old(reportPending)
      ensures !running && (!written || earlier == None) ==> file == old(file)
      ensures !running && written && earlier.Some? && Always(WriteFile) ==> file == earlier
      ensures controller ==> running && generated == earlier
      ensures !controller ==> generated == old(generated)
      ensures Helpful() && running && lastHome == managedHome && old(process) == None ==> putBackFaults == old(putBackFaults)
      ensures Never(Launch) ==> !controller && process == old(process)
    {
      if running {
        var restored := RestorePrevious(earlier, lastCap, lastHome, proxy, wanted);
        if restored {
          reportPending := pendingBefore;
        }
      } else if written && earlier.Some? {
        var _ := WriteConfig(earlier.value);
      }
    }

    /** Writes and starts the candidate. */
    method BringUp(candidate: Config, withCap: nat, withHome: nat, wanted: Option<Selection>) returns (ok: bool, written: bool)
      requires !controller && ValidConfig(candidate)
      modifies this`file, this`generated, this`cap, this`home, this`controller, this`process, this`selected, this`tunActive, this`asked
      ensures Valid() && controller == ok
      ensures ok ==> Replaced(candidate, withCap, withHome)
      ensures ok ==> selected == if wanted.Some? then Reselected(candidate.initial, wanted.value, candidate.offers) else candidate.initial
      ensures !ok ==> generated == old(generated)
      ensures Helpful() && withHome == managedHome && old(process) == None ==> ok
      ensures ok ==> (Always(TunCheck) ==> tunActive) && (Never(TunCheck) ==> !tunActive)
      ensures Never(Launch) ==> !ok && process == old(process)
      ensures Barred(false, false) ==> !ok
      ensures file == (if written then Some(candidate) else old(file)) && (Always(WriteFile) ==> written) && (Never(WriteFile) ==> !written)
    {
      hide ValidConfig, Fits, Reselected, Always, Never, Lucky, Helpful;
      LuckyMeans();
      InitialFits(candidate);
      ok := WriteConfig(candidate);
      written := ok;
      if !ok {
        return;
      }
      ok := StartProcess(withCap, withHome);
      if !ok {
        return;
      }
      if wanted.Some? {
        ok := RestoreSelections(wanted.value);
        if !ok {
          var _ := StopProcess();
          return;
        }
      }
      generated, cap, home := Some(candidate), withCap, withHome;
    }

    /** Turns the desktop proxy on where it is wanted and checks the TUN device. If either
        fails the candidate has to go, unless the proxy is stuck on it. */
    method Expose(wantProxy: bool, wantTun: bool) returns (ok: bool, abandon: bool)
      requires controller
      modifies this`proxyActive, this`asked, this`proxyFaults
      ensures proxyFaults >= old(proxyFaults)
      ensures ok ==> !abandon && (wantProxy ==> proxyActive) && (wantTun ==> tunActive)
      ensures abandon ==> !ok && (proxyActive ==> old(proxyActive))
      ensures !ok && !abandon ==> proxyFaults > old(proxyFaults) && proxyActive
      ensures Always(ApplyProxy) && tunActive ==> ok
      ensures Always(Call.RestoreProxy) && wantTun && !tunActive ==> abandon
      ensures ok ==> proxyActive == (wantProxy || old(proxyActive))
      ensures wantProxy && Never(ApplyProxy) ==> !ok
      ensures proxyFaults > old(proxyFaults) ==> !ok && !abandon
    {
      ok, abandon := true, false;
      if wantProxy {
        var applied := Ask(ApplyProxy);
        if !applied {
          var undone := RestoreProxy();
          if !undone {
            proxyActive := true;
          }
          return false, undone;
        }
        proxyActive := true;
      }
      if wantTun && !tunActive {
        if proxyActive {
          var undone := RestoreProxy();
          if !undone {
            return false, false;
          }
          proxyActive := false;
        }
        return false, true;
      }
    }

    /** Nothing got worse beyond repair since. */
    twostate predicate NoFault()
      reads this
    {
      stopFaults == old(stopFaults) && putBackFaults == old(putBackFaults) && modeFaults == old(modeFaults)
    }

    /** Nothing but a restart leads to the candidate. */
    predicate Restarts(candidate: Config, withCap: nat, withHome: nat)
      reads this
    {
      !(SameInstance(withCap, withHome) && ModeOnly(generated, candidate))
    }

    predicate SameInstance(withCap: nat, withHome: nat)
      reads this
    {
      !forceRestart && controller && withCap == cap && withHome == home
    }

    method Check() returns (valid: bool)
      modifies this`asked
      ensures (Always(Validate) ==> valid) && (Never(Validate) ==> !valid)
    {
      valid := Ask(Validate);
    }

    /** Replaces the running Mihomo by a candidate. All or nothing: the candidate is in file,
        memory and process, or everything is as before. The exceptions are what cannot be
        repaired: a live mode or the former instance did not come back, or the former process
        did not stop, which ends half down. An error with a new candidate in place means that
        the proxy is stuck on it. Success leaves another mode than the candidate's in the
        process exactly if the configuration in memory is already the candidate while a mode
        could not be switched back before: the comparison with memory does not see it. */
    method ApplyCandidate(candidate: Config, withCap: nat, withHome: nat, wantProxy: bool, wantTun: bool) returns (ok: bool)
      requires Valid() && ValidConfig(candidate)
      modifies this`file, this`generated, this`cap, this`home, this`controller, this`process, this`selected, this`tunActive, this`proxyActive, this`reportPending
      modifies this`asked, this`proxyFaults, this`stopFaults, this`putBackFaults, this`modeFaults
      ensures Valid() && (old(ProxyOk()) ==> ProxyOk())
      ensures ok ==> (!Replaced(candidate, withCap, withHome) <==> old(SameInstance(withCap, withHome) && generated == Some(candidate) && !Agree()))
      ensures ok ==> Replaced(candidate, withCap, withHome) || Unchanged()
      ensures old(controller && Agree()) && NoFault() ==> Replaced(candidate, withCap, withHome) || Unchanged()
      ensures stopFaults != old(stopFaults) ==> !ok && HalfDown()
      ensures !ok && Replaced(candidate, withCap, withHome) ==> old(generated) == Some(candidate) || (proxyFaults > old(proxyFaults) && proxyActive)
      ensures !ok && !old(controller) ==> !controller || (Replaced(candidate, withCap, withHome) && proxyFaults > old(proxyFaults))
      ensures old(Agree()) && modeFaults == old(modeFaults) ==> Agree()
      ensures Always(ResetMode) ==> modeFaults == old(modeFaults)
      ensures ok && old(Restarts(candidate, withCap, withHome)) ==> (wantProxy ==> proxyActive) && (wantTun ==> tunActive)
      ensures ok && old(Restarts(candidate, withCap, withHome) && controller) ==> selected == Reselected(candidate.initial, old(selected), candidate.offers)
      ensures ok && !old(Restarts(candidate, withCap, withHome)) ==> selected == old(selected)
      ensures ok && old(Restarts(candidate, withCap, withHome)) ==> reportPending && proxyActive == (wantProxy || old(proxyActive && !controller))
      // What the calls' answers decide.
      ensures Never(Validate) ==> !ok && Unchanged()
      ensures Barred(wantProxy, wantTun) && old(Restarts(candidate, withCap, withHome)) ==> !ok
      ensures Never(Call.RestoreProxy) && old(controller && Restarts(candidate, withCap, withHome)) ==> !ok && Unchanged()
      ensures Always(Validate) && Always(WriteFile) && !ok && old(!controller && generated.Some?) && !controller ==> file == old(generated)
      ensures Helpful() && Never(TunCheck) && wantTun && withHome == managedHome && old(controller && Agree() && Restarts(candidate, withCap, withHome)) ==> !ok && Unchanged()
      ensures Lucky() && withHome == managedHome && (old(controller) || old(process) == None) ==> ok
      ensures Lucky() && ok && !old(controller) && wantProxy ==> proxyActive
      ensures Always(Validate) && Never(Launch) && Always(Call.RestoreProxy) && Always(Halt) && old(Restarts(candidate, withCap, withHome) && ProxyOk()) ==>
        !ok && !controller && !proxyActive && generated == old(generated)
      ensures Always(Validate) && Always(Call.RestoreProxy) && Never(Halt) && old(controller && Restarts(candidate, withCap, withHome)) ==>
        !ok && stopFaults != old(stopFaults)
      ensures Always(Validate) && Always(SetMode) && Never(WriteFile) && Never(ResetMode) && old(!Restarts(candidate, withCap, withHome) && generated != Some(candidate)) ==>
        (!ok && controller && generated == old(generated) && cap == old(cap) && home == old(home)
         && process == Some(old(process).value.(config := generated.value.(mode := candidate.mode))))
    {
      hide ValidConfig, Fits, Reselected, Always, Never, Lucky, Helpful;
      LuckyMeans();
      if !Restarts(candidate, withCap, withHome) {
        ModeReselects(generated.value, candidate, selected);
      }
      var valid := Check();
      if !valid {
        return false;
      }
      if SameInstance(withCap, withHome) && generated == Some(candidate) {
        return true;
      }
      if SameInstance(withCap, withHome) && ModeOnly(generated, candidate) {
        var switched;
        switched, ok := SwitchMode(candidate);
        if switched {
          return;
        }
      }
      ok := Restart(candidate, withCap, withHome, wantProxy, wantTun);
    }

    /** Takes down what runs, brings the candidate up with the selections it still offers,
        and exposes it. */
    method Restart(candidate: Config, withCap: nat, withHome: nat, wantProxy: bool, wantTun: bool) returns (ok: bool)
      requires Valid() && ValidConfig(candidate)
      modifies this`file, this`generated, this`cap, this`home, this`controller, this`process, this`selected, this`tunActive, this`proxyActive, this`reportPending
      modifies this`asked, this`proxyFaults, this`stopFaults, this`putBackFaults
      ensures Valid() && (old(ProxyOk()) ==> ProxyOk()) && (old(Agree()) ==> Agree())
      ensures ok ==> Replaced(candidate, withCap, withHome) && (wantTun ==> tunActive) && proxyActive == (wantProxy || old(proxyActive && !controller)) && reportPending
      ensures Barred(wantProxy, wantTun) ==> !ok
      ensures Never(Call.RestoreProxy) && old(controller) ==> !ok && Unchanged()
      ensures Always(WriteFile) && !ok && old(!controller && generated.Some?) && !controller ==> file == old(generated)
      ensures ok && old(controller) ==> selected == Reselected(candidate.initial, old(selected), candidate.offers)
      ensures old(controller && Agree()) && NoFault() ==> Replaced(candidate, withCap, withHome) || Unchanged()
      ensures stopFaults != old(stopFaults) ==> !ok && HalfDown()
      ensures !ok && Replaced(candidate, withCap, withHome) ==> old(generated) == Some(candidate) || (proxyFaults > old(proxyFaults) && proxyActive)
      ensures !ok && !old(controller) ==> !controller || (Replaced(candidate, withCap, withHome) && proxyFaults > old(proxyFaults))
      ensures Lucky() && withHome == managedHome && (old(controller) || old(process) == None) ==> ok
      ensures Never(Launch) && Always(Call.RestoreProxy) && Always(Halt) && old(ProxyOk()) ==> !ok && !controller && !proxyActive && generated == old(generated)
      ensures Always(Call.RestoreProxy) && Never(Halt) && old(controller) ==> stopFaults != old(stopFaults)
      ensures Helpful() && Never(TunCheck) && wantTun && withHome == managedHome && old(controller && Agree()) ==> !ok && Unchanged()
    {
      hide ValidConfig, Fits, Reselected, Always, Never, Lucky, Helpful;
      LuckyMeans();
      var pendingBefore, running, wasProxy, wanted := reportPending, controller, proxyActive, selected;
      reportPending := true;
      if running {
        ok := TakeDown();
        if !ok {
          reportPending := if controller then pendingBefore else reportPending;
          return;
        }
      }
      ok := Install(candidate, withCap, withHome, wantProxy, wantTun, running, wasProxy, wanted, pendingBefore);
    }

    /** From the stopped state on: the candidate, or what was there before. */
    method Install(candidate: Config, withCap: nat, withHome: nat, wantProxy: bool, wantTun: bool,
                   running: bool, wasProxy: bool, wanted: Selection, pendingBefore: bool) returns (ok: bool)
      requires !controller && ValidConfig(candidate) && (running ==> !proxyActive)
      requires running ==> generated.Some? && ValidConfig(generated.value) && Fits(generated.value, wanted)
      modifies this`file, this`generated, this`cap, this`home, this`controller, this`process, this`selected, this`tunActive, this`proxyActive, this`reportPending
      modifies this`asked, this`proxyFaults, this`putBackFaults
      ensures Valid() && Agree() && proxyFaults >= old(proxyFaults) && putBackFaults >= old(putBackFaults) && (proxyActive ==> old(proxyActive) || controller)
      ensures ok ==> Replaced(candidate, withCap, withHome) && (wantTun ==> tunActive) && proxyActive == (wantProxy || old(proxyActive)) && reportPending == old(reportPending)
      ensures Barred(wantProxy, wantTun) ==> !ok
      ensures Always(WriteFile) && !ok && !running && old(generated.Some?) && !controller ==> file == old(generated)
      ensures ok && running ==> selected == Reselected(candidate.initial, wanted, candidate.offers)
      ensures !ok && controller ==> (Replaced(candidate, withCap, withHome) && proxyFaults > old(proxyFaults) && proxyActive) || (running && generated == old(generated))
      ensures !ok && running && putBackFaults == old(putBackFaults) ==>
        || (Replaced(candidate, withCap, withHome) && proxyFaults > old(proxyFaults) && proxyActive)
        || (Back(Instance(old(generated).value, old(cap), old(home)), wasProxy, wanted) && reportPending == pendingBefore)
      ensures Lucky() && withHome == managedHome && old(process) == None ==> ok
      ensures Helpful() && Never(TunCheck) && wantTun && withHome == managedHome == old(home) && old(process) == None && running ==>
        (!ok && Back(Instance(old(generated).value, old(cap), old(home)), wasProxy, wanted) && reportPending == pendingBefore)
      ensures Never(Launch) ==> !ok && !controller && generated == old(generated)
    {
      hide ValidConfig, Fits, Reselected, Always, Never, Lucky, Helpful;
      LuckyMeans();
      var earlier, lastCap, lastHome := generated, cap, home;
      var written;
      ok, written := BringUp(candidate, withCap, withHome, if running then Some(wanted) else None);
      if !ok {
        GoBack(running, written, earlier, lastCap, lastHome, wasProxy, wanted, pendingBefore);
        return;
      }
      var abandon;
      ok, abandon := Expose(wantProxy, wantTun);
      if abandon {
        var _ := StopProcess();
        GoBack(running, written, earlier, lastCap, lastHome, wasProxy, wanted, pendingBefore);
      }
    }

    /** Stops Mihomo, proxy first. */
    method Stop() returns (ok: bool)
      requires Valid()
      modifies this`controller, this`process, this`selected, this`tunActive, this`proxyActive, this`asked, this`proxyFaults
      ensures Valid() && proxyFaults >= old(proxyFaults) && (old(ProxyOk()) ==> ProxyOk()) && (old(Agree()) ==> Agree())
      ensures ok ==> !controller && !proxyActive && process == None
      ensures !ok && proxyFaults > old(proxyFaults) ==> controller == old(controller) && process == old(process) && proxyActive == old(proxyActive)
      ensures !ok && proxyFaults == old(proxyFaults) ==> !controller && !proxyActive && process == old(process)
      ensures Always(Call.RestoreProxy) && Always(Halt) ==> ok
    {
      ok := RestoreProxy();
      if !ok {
        return;
      }
      proxyActive := false;
      ok := StopProcess();
    }

    /** Mihomo ended on its own. The controller goes even if the proxy cannot be put back,
        which is exactly when the proxy stays on without one. */
    method ChildExited()
      requires Valid()
      modifies this`controller, this`process, this`selected, this`tunActive, this`proxyActive, this`asked, this`proxyFaults
      ensures Valid() && Agree() && !controller && proxyFaults >= old(proxyFaults)
      ensures proxyActive <==> old(proxyActive) && !luck(Call.RestoreProxy, old(asked))
      ensures (Always(Call.RestoreProxy) ==> !proxyActive) && (Always(Halt) ==> process == None)
    {
      var restored := RestoreProxy();
      if restored {
        proxyActive := false;
      }
      var _ := StopProcess();
    }

    /** The user's switch of the desktop proxy. A failure is taken back. */
    method SwitchProxy(enable: bool) returns (ok: bool)
      requires Valid()
      modifies this`proxyActive, this`asked, this`proxyFaults
      ensures Valid() && proxyFaults >= old(proxyFaults) && (old(ProxyOk()) ==> ProxyOk()) && (old(Agree()) ==> Agree())
      ensures ok && controller ==> proxyActive == enable
      ensures !ok || !controller ==> proxyActive == old(proxyActive)
      // Nothing is asked if nothing runs or is to change, and a failure is answered by the
      // opposite call.
      ensures !controller || old(proxyActive) == enable ==> ok && asked == old(asked)
      ensures controller && old(proxyActive) != enable ==>
        ok == luck(if enable then ApplyProxy else Call.RestoreProxy, old(asked)) && asked == old(asked) + if ok then 1 else 2
      ensures Always(ApplyProxy) && Always(Call.RestoreProxy) ==> ok
    {
      if !controller || proxyActive == enable {
        return true;
      }
      if enable {
        ok := Ask(ApplyProxy);
      } else {
        ok := RestoreProxy();
      }
      if ok {
        proxyActive := enable;
      } else {
        var _ := RevertProxy(!enable);
      }
    }

    /** Puts the desktop proxy as it was before a change that is withdrawn. Whether anything
        runs is not asked. */
    method RevertProxy(before: bool) returns (works: bool)
      modifies this`proxyActive, this`asked, this`proxyFaults
      ensures proxyFaults >= old(proxyFaults) && works == luck(if before then ApplyProxy else Call.RestoreProxy, old(asked))
      ensures proxyActive == (if works then before else old(proxyActive)) && asked == old(asked) + 1
      ensures Always(if before then ApplyProxy else Call.RestoreProxy) ==> works
    {
      if before {
        works := Ask(ApplyProxy);
      } else {
        works := RestoreProxy();
      }
      if works {
        proxyActive := before;
      }
    }

    /** Withdraws a change of the settings after it failed: the earlier configuration is
        applied once more, then selections and proxy. The proxy ends up on without a
        controller exactly if it was on before the change, turning it on works, and the
        earlier configuration did not come up either: the one question that is not asked. */
    method RevertChange(config: Option<Config>, withCap: nat, withHome: nat, proxy: bool, wanted: Selection, wantProxy: bool, wantTun: bool) returns (works: bool)
      requires Valid() && (config.Some? ==> ValidConfig(config.value))
      modifies this`file, this`generated, this`cap, this`home, this`controller, this`process, this`selected, this`tunActive, this`proxyActive, this`reportPending
      modifies this`asked, this`proxyFaults, this`stopFaults, this`putBackFaults, this`modeFaults
      ensures Valid()
      ensures old(ProxyOk()) ==> (proxyActive && !controller <==> proxy && works && !controller)
      ensures Always(ResetMode) && old(Agree()) ==> Agree()
      ensures Always(if proxy then ApplyProxy else Call.RestoreProxy) ==> works
      ensures controller && Always(Select) ==> forall g :: g in wanted ==> Chosen(process.value.config.offers, wanted, g)
      ensures proxyActive == proxy || !works
      ensures config == None ==> controller == old(controller) && process == old(process) && file == old(file)
      ensures Always(Validate) && Never(Launch) && Always(Call.RestoreProxy) && Always(Halt) && config.Some? && old(ProxyOk() && Restarts(config.value, withCap, withHome)) ==>
        !controller
    {
      hide ValidConfig, Fits, Always, Never, Lucky, Helpful;
      if config.Some? {
        var _ := ApplyCandidate(config.value, withCap, withHome, wantProxy, wantTun);
      }
      if controller {
        SameOffers(generated.value, process.value.config.mode, selected);
        var _ := RestoreSelections(wanted);
        SameOffers(process.value.config, generated.value.mode, selected);
      }
      works := RevertProxy(proxy);
    }

    /** What was wanted in this group is selected if it is still on offer. */
    ghost predicate Chosen(offers: map<string, set<string>>, wanted: Selection, g: string)
      requires g in wanted
      reads this`selected
    {
      g in selected && g in offers && wanted[g] in offers[g] ==> selected[g] == wanted[g]
    }

    method SetForce(restart: bool)
      requires Valid()
      modifies this`forceRestart
      ensures Valid() && forceRestart == restart && (old(ProxyOk()) ==> ProxyOk()) && (old(Agree()) ==> Agree())
    {
      forceRestart := restart;
    }

    /** One operation of the service loop. From a state in which the proxy is on only with a
        controller, exactly two lead out: a child's exit with the proxy on whose restore fails,
        and a withdrawn change that had the proxy on, turned it on again (`works`) and brought
        no controller back. */
    method Do(s: Step) returns (ghost works: bool)
      requires Valid() && SensibleStep(s) && asked == 0
      modifies this
      ensures Valid() && luck == old(luck)
      ensures old(ProxyOk()) ==>
        (!ProxyOk() <==> (s.ChildExited? && old(proxyActive) && !luck(Call.RestoreProxy, 0)) || (s.Revert? && s.proxy && works && !controller))
      ensures Always(ResetMode) && old(Agree()) ==> Agree()
      ensures Done(s)
    {
      hide ValidConfig, Fits, Always, Never, Lucky, Helpful;
      LuckyMeans();
      works := false;
      match s
      case Apply(candidate, withCap, withHome, wantProxy, wantTun) => var _ := ApplyCandidate(candidate, withCap, withHome, wantProxy, wantTun);
      case Stop => var _ := Stop();
      case ChildExited => ChildExited();
      case SwitchProxy(enable) => var _ := SwitchProxy(enable);
      case Force(restart) => SetForce(restart);
      case Revert(config, withCap, withHome, proxy, wanted, wantProxy, wantTun) =>
        var turned := RevertChange(config, withCap, withHome, proxy, wanted, wantProxy, wantTun);
        works := turned;
    }

    /** Every run keeps this, whatever fails on the way: while a controller exists, file,
        memory and process agree but for a mode; with every mode switched back when asked, in
        the mode too; and the proxy is on only with a controller unless a child exited whose
        proxy restore failed or a change was withdrawn that had the proxy on. */
    method Run(steps: seq<(Step, Luck)>)
      requires Valid() && forall s :: s in steps ==> SensibleStep(s.0)
      modifies this
      ensures Valid()
      ensures old(ProxyOk()) && (forall s :: s in steps ==> !MayStray(s.0, s.1)) ==> ProxyOk()
      ensures old(Agree()) && (forall s, n: nat :: s in steps ==> s.1(ResetMode, n)) ==> Agree()
    {
      hide Valid, Agree, ProxyOk, MayStray;
      for k := 0 to |steps|
        invariant Valid()
        invariant old(ProxyOk()) && (forall s :: s in steps ==> !MayStray(s.0, s.1)) ==> ProxyOk()
        invariant old(Agree()) && (forall s, n: nat :: s in steps ==> s.1(ResetMode, n)) ==> Agree()
      {
        assert steps[k] in steps;
        Turn(steps[k].0, steps[k].1);
      }
    }

    /** What each operation comes to where nothing stands in its way. */
    twostate predicate Done(s: Step)
      reads this
    {
      match s
      case Apply(candidate, withCap, withHome, _, _) =>
        Lucky() && withHome == managedHome && old(Agree()) && (old(controller) || old(process) == None) ==> Replaced(candidate, withCap, withHome)
      case Stop => Lucky() ==> !controller && process == None && !proxyActive
      case ChildExited => !controller && (Lucky() ==> process == None && !proxyActive)
      case SwitchProxy(enable) => Lucky() && old(controller) ==> proxyActive == enable
      case Force(restart) => forceRestart == restart
      case Revert(_, _, _, proxy, wanted, _, _) =>
        Lucky() ==> proxyActive == proxy && (controller && process.Some? ==> forall g :: g in wanted ==> Chosen(process.value.config.offers, wanted, g))
    }

    method Turn(s: Step, world: Luck)
      requires Valid() && SensibleStep(s)
      modifies this
      ensures Valid() && luck == world && Done(s)
      ensures old(ProxyOk()) && !MayStray(s, world) ==> ProxyOk()
      ensures old(Agree()) && (forall n: nat :: world(ResetMode, n)) ==> Agree()
    {
      Face(world);
      var _ := Do(s);
    }
  }

  /** What the service loop does with the running Mihomo. */
  datatype Step =
    | Apply(candidate: Config, cap: nat, home: nat, wantProxy: bool, wantTun: bool)
    | Stop
    | ChildExited
    | SwitchProxy(enable: bool)
    | Force(restart: bool)
    | Revert(config: Option<Config>, cap: nat, home: nat, proxy: bool, wanted: Selection, wantProxy: bool, wantTun: bool)

  predicate SensibleStep(s: Step) {
    && (s.Apply? ==> ValidConfig(s.candidate))
    && (s.Revert? && s.config.Some? ==> ValidConfig(s.config.value))
  }

  /** The two operations after which the proxy can be on with nothing to control. */
  predicate MayStray(s: Step, luck: Luck) {
    (s.ChildExited? && !luck(RestoreProxy, 0)) || (s.Revert? && s.proxy)
  }

  // Three runs that end where they should not.

  const First := Config(0, 0, map[], map[])
  const Second := Config(0, 1, map[], map[])

  /** Starts Mihomo from nothing, with the proxy on. */
  method Begin() returns (r: Runtime)
    ensures fresh(r) && r.Valid() && r.Agree() && r.ProxyOk() && r.proxyActive && r.Replaced(First, 0, 0) && r.managedHome == 0 && !r.forceRestart
  {
    r := new Runtime(0);
    r.FaceWithout({});
    var ok := r.ApplyCandidate(First, 0, 0, true, false);
  }

  /** Mihomo cannot be launched any more: a change of the configuration fails, and withdrawing
      it leaves the proxy on and nothing running. */
  method StrayProxy() returns (r: Runtime)
    ensures r.proxyActive && !r.controller
  {
    hide Runtime.Unchanged, Runtime.HalfDown, Runtime.NoFault, Runtime.Always, Runtime.Never, Runtime.Lucky, Fits;
    r := Begin();
    r.FaceWithout({Launch});
    var _ := r.ApplyCandidate(Second, 0, 0, true, false);
    var works := r.RevertChange(Some(First), 0, 0, true, map[], true, false);
  }

  /** Mihomo does not stop: the service gives up its controller and keeps the process. */
  method LeftRunning() returns (r: Runtime)
    ensures !r.controller && !r.proxyActive && r.process == Some(Instance(First, 0, 0)) && r.generated == Some(First)
  {
    r := Begin();
    r.FaceWithout({Halt});
    var _ := r.ApplyCandidate(Second, 0, 0, true, false);
  }

  /** A live mode is neither recorded nor switched back. */
  method OtherMode() returns (r: Runtime)
    ensures fresh(r) && r.Valid() && r.controller && !r.Agree() && r.generated == Some(First) && r.cap == r.home == r.managedHome == 0 && !r.forceRestart
    ensures r.process == Some(Instance(First.(mode := 1), 0, 0))
  {
    hide Runtime.Unchanged, Runtime.HalfDown, Runtime.NoFault, Runtime.Always, Runtime.Never, Runtime.Lucky, Fits;
    r := Begin();
    r.FaceWithout({WriteFile, ResetMode});
    var _ := r.ApplyCandidate(First.(mode := 1), 0, 0, true, false);
  }

  /** Applying the recorded configuration again then succeeds and leaves the other mode. */
  method UnnoticedMode() returns (r: Runtime, ok: bool)
    ensures ok && r.controller && r.generated == Some(First) && r.process == Some(Instance(First.(mode := 1), 0, 0))
  {
    r := OtherMode();
    r.FaceWithout({});
    ok := r.ApplyCandidate(First, 0, 0, true, false);
  }
}
