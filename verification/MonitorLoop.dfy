/** The probe loop: rounds of tasks handed to workers, and what is emitted at the end of
    each round. Time is reduced to which groups are due. */
module MonitorLoop {
  import opened Common
  import opened MonitorStats
  import opened MonitorPolicy
  import opened MonitorHistory

  datatype Task = Task(group: string, proxy: string)

  /** A group as the loop knows it, with the newest samples of each proxy. */
  datatype Runtime = Runtime(state: GroupState, history: map<string, seq<Sample>>)

  datatype Batch = Batch(samples: seq<Sample>, decisions: seq<Decision>)

  predicate ValidGroup(g: GroupState) {
    !IsBlank(g.group) && g.selected in g.proxies && (forall i :: 0 <= i < |g.proxies| ==> !IsBlank(g.proxies[i]))
    && (forall i, k :: 0 <= i < k < |g.proxies| ==> g.proxies[i] != g.proxies[k])
    && (g.automationEnabled ==> g.probeEnabled)
  }

  predicate ValidGroups(groups: seq<GroupState>) {
    && (forall i :: 0 <= i < |groups| ==> ValidGroup(groups[i]))
    && (forall i, k :: 0 <= i < k < |groups| ==> groups[i].group != groups[k].group)
  }

  /** The one-pass check of one group. */
  method CheckGroup(g: GroupState) returns (ok: bool)
    ensures ok <==> ValidGroup(g)
  {
    hide IsBlank;
    if IsBlank(g.group) {
      return false;
    }
    var seen: set<string>, found := {}, false;
    for k := 0 to |g.proxies|
      invariant seen == set i | 0 <= i < k :: g.proxies[i]
      invariant forall i :: 0 <= i < k ==> !IsBlank(g.proxies[i])
      invariant forall i, j :: 0 <= i < j < k ==> g.proxies[i] != g.proxies[j]
      invariant found <==> g.selected in g.proxies[..k]
    {
      var proxy := g.proxies[k];
      assert g.proxies[..k + 1] == g.proxies[..k] + [proxy];
      if IsBlank(proxy) || proxy in seen {
        return false;
      }
      seen, found := seen + {proxy}, found || proxy == g.selected;
    }
    assert g.proxies[..|g.proxies|] == g.proxies;
    ok := found && (g.automationEnabled ==> g.probeEnabled);
  }

  method CheckGroups(groups: seq<GroupState>) returns (ok: bool)
    ensures ok <==> ValidGroups(groups)
  {
    hide ValidGroup;
    var seen: set<string> := {};
    for k := 0 to |groups|
      invariant seen == set i | 0 <= i < k :: groups[i].group
      invariant forall i :: 0 <= i < k ==> ValidGroup(groups[i])
      invariant forall i, j :: 0 <= i < j < k ==> groups[i].group != groups[j].group
    {
      ok := CheckGroup(groups[k]);
      if !ok || groups[k].group in seen {
        return false;
      }
      seen := seen + {groups[k].group};
    }
    ok := true;
  }

  function TasksOf(name: string, proxies: seq<string>): seq<Task> {
    if proxies == [] then [] else TasksOf(name, proxies[..|proxies| - 1]) + [Task(name, proxies[|proxies| - 1])]
  }

  /** How many tasks of a group are in a list. */
  function CountGroup(tasks: seq<Task>, name: string): nat {
    if tasks == [] then 0 else CountGroup(tasks[..|tasks| - 1], name) + if tasks[|tasks| - 1].group == name then 1 else 0
  }

  lemma {:induction false} CountConcat(a: seq<Task>, b: seq<Task>, name: string)
    ensures CountGroup(a + b, name) == CountGroup(a, name) + CountGroup(b, name)
  {
    if b == [] {
      assert a + b == a;
    } else {
      CountConcat(a, b[..|b| - 1], name);
      assert (a + b)[..|a + b| - 1] == a + b[..|b| - 1];
    }
  }

  lemma {:induction false} CountTasks(group: string, proxies: seq<string>, name: string)
    ensures CountGroup(TasksOf(group, proxies), name) == if group == name then |proxies| else 0
    ensures |TasksOf(group, proxies)| == |proxies|
    ensures forall i :: 0 <= i < |proxies| ==> TasksOf(group, proxies)[i] == Task(group, proxies[i])
  {
    if proxies != [] {
      CountTasks(group, proxies[..|proxies| - 1], name);
    }
  }

  /** Taking out one element. */
  function Without(tasks: seq<Task>, i: nat): seq<Task>
    requires i < |tasks|
  {
    tasks[..i] + tasks[i + 1..]
  }

  lemma CountWithout(tasks: seq<Task>, i: nat, name: string)
    requires i < |tasks|
    ensures CountGroup(tasks, name) == CountGroup(Without(tasks, i), name) + if tasks[i].group == name then 1 else 0
    ensures multiset(tasks) == multiset(Without(tasks, i)) + multiset{tasks[i]}
  {
    assert tasks == tasks[..i] + [tasks[i]] + tasks[i + 1..];
    CountConcat(tasks[..i], [tasks[i]], name);
    CountConcat(tasks[..i] + [tasks[i]], tasks[i + 1..], name);
    CountConcat(tasks[..i], tasks[i + 1..], name);
    assert CountGroup([tasks[i]], name) == if tasks[i].group == name then 1 else 0 by {
      assert [tasks[i]][..0] == [];
    }
  }

  lemma {:induction false} CountPositive(tasks: seq<Task>, i: nat)
    requires i < |tasks|
    ensures CountGroup(tasks, tasks[i].group) > 0
  {
    if i < |tasks| - 1 {
      CountPositive(tasks[..|tasks| - 1], i);
    }
  }

  /** The remaining count of each group of the round is what is unsent or in flight. */
  ghost predicate Balanced(remaining: map<string, int>, pending: seq<Task>, inFlight: seq<Task>) {
    && (forall g :: g in remaining ==> remaining[g] == CountGroup(pending, g) + CountGroup(inFlight, g))
    && (forall t :: t in pending || t in inFlight ==> t.group in remaining)
  }

  /** Sending a task keeps the balance. */
  lemma SendKeepsBalance(remaining: map<string, int>, pending: seq<Task>, inFlight: seq<Task>)
    requires Balanced(remaining, pending, inFlight) && pending != []
    ensures Balanced(remaining, pending[1..], inFlight + [pending[0]])
    ensures multiset(pending) + multiset(inFlight) == multiset(pending[1..]) + multiset(inFlight + [pending[0]])
  {
    forall g | g in remaining ensures remaining[g] == CountGroup(pending[1..], g) + CountGroup(inFlight + [pending[0]], g) {
      CountWithout(pending, 0, g);
      assert Without(pending, 0) == pending[1..];
      assert (inFlight + [pending[0]])[..|inFlight|] == inFlight;
    }
    assert pending == [pending[0]] + pending[1..];
  }

  /** So does an answer that is counted. */
  lemma AnswerKeepsBalance(remaining: map<string, int>, pending: seq<Task>, inFlight: seq<Task>, i: nat)
    requires Balanced(remaining, pending, inFlight) && i < |inFlight|
    ensures inFlight[i].group in remaining
    ensures Balanced(remaining[inFlight[i].group := remaining[inFlight[i].group] - 1], pending, Without(inFlight, i))
  {
    var t := inFlight[i];
    forall g | g in remaining
      ensures CountGroup(inFlight, g) == CountGroup(Without(inFlight, i), g) + if t.group == g then 1 else 0
    {
      CountWithout(inFlight, i, g);
    }
    CountWithout(inFlight, i, t.group);
  }

  /** When every count is zero nothing is left anywhere. */
  lemma BalancedAndDone(remaining: map<string, int>, pending: seq<Task>, inFlight: seq<Task>)
    requires Balanced(remaining, pending, inFlight) && forall g :: g in remaining ==> remaining[g] <= 0
    ensures pending == [] && inFlight == []
  {
    if pending != [] {
      assert pending[0] in pending;
      CountPositive(pending, 0);
    }
    if inFlight != [] {
      assert inFlight[0] in inFlight;
      CountPositive(inFlight, 0);
    }
  }

  /** A sample answers a task. */
  predicate Answers(s: Sample, t: Task) {
    s.group == t.group && s.proxy == t.proxy
  }

  /** A round: its tasks, the order in which they were answered, the generations of the
      groups at its two ends, and what the loop knew when it ended. */
  datatype Round = Round(tasks: seq<Task>, order: seq<Task>, started: nat, ended: nat, groups: seq<string>, known: map<string, Runtime>, now: int)

  ghost predicate SamplesAnswer(samples: seq<Sample>, order: seq<Task>) {
    |samples| == |order| && forall i :: 0 <= i < |order| ==> Answers(samples[i], order[i])
  }

  /** These are the groups that the tasks belong to, each once. */
  ghost predicate GroupsOf(groups: seq<string>, tasks: seq<Task>) {
    Distinct(groups) && forall g :: g in groups <==> exists i :: 0 <= i < |tasks| && tasks[i].group == g
  }

  /** The batch has exactly one sample for each task of its round; if the groups did not change
      meanwhile it has one right decision for each of the round's groups that is still known,
      and otherwise none. */
  ghost predicate Faithful(policy: Policy, b: Batch, r: Round) {
    && Distinct(r.tasks) && multiset(r.order) == multiset(r.tasks) && SamplesAnswer(b.samples, r.order)
    && GroupsOf(r.groups, r.tasks)
    && (if r.started == r.ended then DecidedAll(policy, r.known, StillKnown(r.known, r.groups), r.now, b.decisions) else b.decisions == [])
  }

  ghost predicate AllFaithful(policy: Policy, batches: seq<Batch>, rounds: seq<Round>) {
    |rounds| == |batches| && forall k :: 0 <= k < |batches| ==> Faithful(policy, batches[k], rounds[k])
  }

  lemma FaithfulMore(policy: Policy, batches: seq<Batch>, rounds: seq<Round>, b: Batch, r: Round)
    requires AllFaithful(policy, batches, rounds) && Faithful(policy, b, r)
    ensures AllFaithful(policy, batches + [b], rounds + [r]) && |batches| == |rounds|
  {
    hide Faithful;
  }

  lemma AllAnswered(tasks: seq<Task>, order: seq<Task>)
    requires Accounted(tasks, [], [], order)
    ensures Distinct(tasks) && multiset(order) == multiset(tasks)
  {
  }

  /** Every task of the round is unsent, in flight or answered, and none is twice. */
  ghost predicate Accounted(tasks: seq<Task>, pending: seq<Task>, inFlight: seq<Task>, order: seq<Task>) {
    Distinct(tasks) && multiset(tasks) == multiset(pending) + multiset(inFlight) + multiset(order)
  }

  type Logs = map<string, map<string, seq<Sample>>>

  /** Every history is the last samples of everything since its last reset. */
  ghost predicate Windowed(runtimes: map<string, Runtime>, logs: Logs, size: int) {
    && runtimes.Keys == logs.Keys
    && (forall g :: g in runtimes ==> Refines(runtimes[g].history, logs[g], size))
  }

  ghost predicate Refines(history: map<string, seq<Sample>>, log: map<string, seq<Sample>>, size: int) {
    history.Keys == log.Keys && forall p :: p in history ==> history[p] == LastOf(log[p], size)
  }

  function Appended(log: map<string, seq<Sample>>, p: string, s: Sample): map<string, seq<Sample>> {
    log[p := (if p in log then log[p] else []) + [s]]
  }

  lemma AppendRefines(history: map<string, seq<Sample>>, log: map<string, seq<Sample>>, size: int, p: string, s: Sample)
    requires size > 0 && Refines(history, log, size)
    ensures Refines(history[p := LastOf((if p in history then history[p] else []) + [s], size)], Appended(log, p, s), size)
  {
    if p in history {
      WindowOfWindow(log[p], s, size);
    }
  }

  /** The groups the loop knows are valid ones under their own names, with their own samples. */
  ghost predicate Known(runtimes: map<string, Runtime>) {
    forall g :: g in runtimes ==> runtimes[g].state.group == g && ValidGroup(runtimes[g].state) && OwnSamples(runtimes[g].history)
  }

  /** A proxy's history holds only its own samples. */
  ghost predicate OwnSamples(history: map<string, seq<Sample>>) {
    forall p, i :: p in history && 0 <= i < |history[p]| ==> history[p][i].proxy == p
  }

  class ProbeLoop {
    const policy: Policy
    /** Shared with callers. */
    var groups: seq<GroupState>
    var generation: nat
    /** The loop's own. */
    var runtimes: map<string, Runtime>
    var forced: set<string>
    var pending: seq<Task>
    var active: bool
    var remaining: map<string, int>
    var activeGroups: seq<string>
    var batchSamples: seq<Sample>
    var batchGeneration: nat
    var batches: seq<Batch>
    /** Handed to the workers and not yet read back. */
    var inFlight: seq<Task>
    ghost var tasks: seq<Task>
    ghost var order: seq<Task>
    ghost var rounds: seq<Round>
    ghost var logs: Logs

    ghost predicate Valid()
      reads this
    {
      && ValidPolicy(policy) && ValidGroups(groups) && Known(runtimes)
      && Windowed(runtimes, logs, policy.windowSize)
      && Balanced(remaining, pending, inFlight)
      && Accounted(tasks, pending, inFlight, order)
      && SamplesAnswer(batchSamples, order) && (active ==> GroupsOf(activeGroups, tasks))
      && batchGeneration <= generation
      && (active <==> pending != [] || inFlight != [])
      && AllFaithful(policy, batches, rounds)
    }

    constructor (policy: Policy)
      requires ValidPolicy(policy)
      ensures Valid() && !active && batches == [] && this.policy == policy
    {
      this.policy := policy;
      groups, generation, runtimes, forced := [], 0, map[], {};
      pending, active, remaining, activeGroups := [], false, map[], [];
      batchSamples, batchGeneration, batches, inFlight := [], 0, [], [];
      tasks, order, rounds, logs := [], [], [], map[];
    }

    /** What has been emitted stays. */
    twostate predicate Emitted()
      reads this
    {
      old(batches) <= batches && old(rounds) <= rounds
    }

    /** A caller replaces the monitored groups. */
    method SetGroups(next: seq<GroupState>) returns (ok: bool)
      requires Valid()
      modifies this`groups, this`generation
      ensures Valid() && (ok <==> ValidGroups(next))
      ensures ok ==> groups == next && generation == old(generation) + if next == old(groups) then 0 else 1
      ensures !ok ==> groups == old(groups) && generation == old(generation)
    {
      hide ValidGroup;
      ok := CheckGroups(next);
      if !ok {
        return;
      }
      if groups != next {
        groups, generation := next, generation + 1;
      }
    }

    /** Sends the next task to the workers. */
    method Send()
      requires Valid() && pending != []
      modifies this`pending, this`inFlight
      ensures Valid() && inFlight == old(inFlight) + [old(pending)[0]] && pending == old(pending)[1..]
    {
      hide Windowed, Known, ValidGroups, Balanced, SamplesAnswer, AllFaithful;
      SendKeepsBalance(remaining, pending, inFlight);
      pending, inFlight := pending[1..], inFlight + [pending[0]];
    }

    /** Takes over the callers' groups and requests. */
    method Refresh(requests: set<string>)
      requires Valid()
      modifies this`runtimes, this`forced, this`logs
      ensures Valid()
      ensures runtimes.Keys == set i | 0 <= i < |groups| :: groups[i].group
      ensures forall i :: 0 <= i < |groups| ==> TakenOver(groups[i], old(runtimes), runtimes)
      ensures forall i :: 0 <= i < |groups| ==> (groups[i].group in forced <==> Urgent(groups[i], old(runtimes), old(forced) + requests))
    {
      hide Balanced, SamplesAnswer, AllFaithful, Windowed, Known, TakenOver, Urgent;
      runtimes, forced, logs := TakeOver(groups, runtimes, forced, requests, logs, policy.windowSize);
    }

    /** Starts a round with the groups that are due or forced. Only an idle loop does so,
        and an idle loop has nothing unsent and nothing in flight. */
    method StartRound(due: set<string>)
      requires Valid() && !active
      modifies this`forced, this`pending, this`active, this`remaining, this`activeGroups, this`batchSamples, this`batchGeneration, this`tasks, this`order
      ensures Valid() && old(pending) == [] && old(inFlight) == []
      ensures active ==> batchGeneration == generation && order == [] && tasks == pending
      ensures Planned(runtimes, old(forced), due, tasks)
      ensures forall g :: g in forced <==> g in old(forced) && g !in runtimes
    {
      hide Planned, ValidGroup, Windowed, AllFaithful, Balanced, Known, ValidGroups, Distinct, ValidPolicy, Accounted, SamplesAnswer, GroupsOf, Wanted;
      assert inFlight == [];
      var next, names, counts, left := BuildRound(runtimes, forced, due);
      NothingAnswered(next);
      pending, activeGroups, remaining, forced, batchSamples, batchGeneration, active, tasks, order :=
        next, names, counts, left, [], generation, |names| > 0, next, [];
    }

    /** Reads back the answer to a task. The last answer of the round ends it. */
    method Answer(i: nat, sample: Sample, requests: set<string>)
      requires Valid() && i < |inFlight| && Answers(sample, inFlight[i])
      modifies this`runtimes, this`forced, this`active, this`remaining, this`batchSamples, this`batches, this`inFlight, this`order, this`rounds, this`logs
      ensures Valid() && Emitted()
      ensures |batches| <= |old(batches)| + 1 && (|batches| == |old(batches)| + 1 <==> !active)
      ensures |batches| == |old(batches)| + 1 ==>
        batches[|old(batches)|].samples == old(batchSamples) + [sample] && rounds[|old(batches)|].tasks == tasks
        && rounds[|old(batches)|].started == batchGeneration && rounds[|old(batches)|].ended == generation
      ensures inFlight == Without(old(inFlight), i)
      ensures !active ==> runtimes.Keys == set k | 0 <= k < |groups| :: groups[k].group
      ensures !active ==> forall k :: 0 <= k < |groups| ==> TakenOver(groups[k], rounds[|old(batches)|].known, runtimes)
      ensures !active ==> forall k :: 0 <= k < |groups| && groups[k].group in old(forced) + requests ==> groups[k].group in forced
      ensures active ==> forced == old(forced) && runtimes.Keys == old(runtimes).Keys
    {
      hide TakenOver, Without, Windowed, AllFaithful, Balanced, Known, ValidGroups, Accounted, SamplesAnswer, ValidPolicy, GroupsOf, DecidedAll, StillKnown;
      var done := TakeAnswer(i, sample);
      if done {
        EmitBatch(sample.finishedAt);
        Refresh(requests);
      }
    }

    /** Everything that holds but for whether the round is over. */
    ghost predicate InRound()
      reads this
    {
      && ValidPolicy(policy) && ValidGroups(groups) && Known(runtimes) && Windowed(runtimes, logs, policy.windowSize)
      && Balanced(remaining, pending, inFlight) && Accounted(tasks, pending, inFlight, order) && SamplesAnswer(batchSamples, order) && GroupsOf(activeGroups, tasks)
      && batchGeneration <= generation && AllFaithful(policy, batches, rounds)
    }

    /** Counts an answer and says whether it was the last. */
    method TakeAnswer(i: nat, sample: Sample) returns (done: bool)
      requires Valid() && i < |inFlight| && Answers(sample, inFlight[i])
      modifies this`runtimes, this`remaining, this`batchSamples, this`inFlight, this`order, this`logs
      ensures InRound() && batchSamples == old(batchSamples) + [sample] && inFlight == Without(old(inFlight), i)
      ensures runtimes.Keys == old(runtimes).Keys
      ensures done <==> pending == [] && inFlight == []
    {
      hide Windowed, AllFaithful, Balanced, Known, ValidGroups, Accounted, SamplesAnswer, ValidPolicy, RecordLog, CountGroup, Without, GroupsOf;
      var t := inFlight[i];
      AnswerKeepsBalance(remaining, pending, inFlight, i);
      AnswerIsAccounted(tasks, pending, inFlight, order, i, batchSamples, sample);
      assert policy.windowSize > 0 by { PolicyWindow(policy); }
      var updated := RecordSample(runtimes, logs, policy.windowSize, t, sample);
      var counts := remaining[t.group := remaining[t.group] - 1];
      var flying := Without(inFlight, i);
      logs, order, runtimes, remaining, inFlight, batchSamples :=
        RecordLog(runtimes, logs, t, sample), order + [t], updated, counts, flying, batchSamples + [sample];
      done := counts[t.group] == 0 && forall g :: g in counts ==> counts[g] <= 0;
      if done {
        BalancedAndDone(counts, pending, flying);
      } else {
        StillBusy(counts, pending, flying, t.group);
      }
    }

    /** Ends a round: if the groups changed meanwhile, its histories are dropped and
        nothing is decided. */
    method EmitBatch(now: int)
      requires InRound() && pending == [] && inFlight == []
      modifies this`runtimes, this`active, this`batches, this`rounds, this`logs
      ensures Valid() && !active
      ensures |batches| == |old(batches)| + 1 && old(batches) <= batches && old(rounds) <= rounds && |rounds| == |batches|
      ensures batches[|old(batches)|].samples == batchSamples
      ensures batchGeneration == generation ==>
        runtimes == old(runtimes) && DecidedAll(policy, runtimes, StillKnown(runtimes, activeGroups), now, batches[|old(batches)|].decisions)
      ensures batchGeneration != generation ==> batches[|old(batches)|].decisions == []
      ensures batchGeneration != generation ==> Dropped(old(runtimes), runtimes, activeGroups)
      ensures rounds[|old(batches)|] == Round(tasks, order, batchGeneration, generation, activeGroups, runtimes, now)
    {
      hide Windowed, Balanced, Known, ValidGroups, SamplesAnswer, ValidPolicy, GroupsOf, AllFaithful, DecidedAll, StillKnown, Accounted, Dropped;
      var decisions: seq<Decision> := [];
      if batchGeneration == generation {
        decisions := DecideAll(policy, runtimes, activeGroups, now);
      } else {
        runtimes, logs := DropHistories(runtimes, logs, activeGroups, policy.windowSize);
      }
      AllAnswered(tasks, order);
      FaithfulMore(policy, batches, rounds, Batch(batchSamples, decisions), Round(tasks, order, batchGeneration, generation, activeGroups, runtimes, now));
      batches, rounds, active := batches + [Batch(batchSamples, decisions)], rounds + [Round(tasks, order, batchGeneration, generation, activeGroups, runtimes, now)], false;
    }

    /** One turn of the loop: an idle loop first starts a round, then one thing happens. */
    method Turn(due: set<string>, e: Event)
      requires Valid()
      modifies this
      ensures Valid() && Emitted()
      ensures old(!active) && (e.Tick? || e.Replace?) ==>
        Planned(runtimes, old(forced), due, tasks)
      ensures e.Replace? ==> groups == if ValidGroups(e.groups) then e.groups else old(groups)
      ensures e.Wake? ==> runtimes.Keys == set i | 0 <= i < |groups| :: groups[i].group
      ensures e.Wake? ==> forall i :: 0 <= i < |groups| ==> TakenOver(groups[i], old(runtimes), runtimes)
      ensures e.Deliver? && old(pending) != [] ==> pending == old(pending)[1..] && inFlight == old(inFlight) + [old(pending)[0]]
      ensures e.Reply? && e.i < |old(inFlight)| ==> inFlight == Without(old(inFlight), e.i)
      ensures e.Reply? && e.i < |old(inFlight)| && !active ==>
        |batches| == |old(batches)| + 1 && batches[|old(batches)|].samples ==
          old(batchSamples) + [Measured(old(inFlight)[e.i], policy.testURL, e.latency, e.timedOut, e.finishedAt)]
    {
      hide Planned, TakenOver, Wanted, Without, ValidGroups, Balanced, Known, Windowed, Accounted, SamplesAnswer, GroupsOf, AllFaithful, ValidPolicy, Measured;
      if !active {
        StartRound(due);
      }
      match e
      case Replace(next) => var _ := SetGroups(next);
      case Wake(requests) => Refresh(requests);
      case Deliver =>
        if pending != [] {
          Send();
        }
      case Reply(i, latency, timedOut, finishedAt, requests) =>
        if i < |inFlight| {
          Answer(i, Measured(inFlight[i], policy.testURL, latency, timedOut, finishedAt), requests);
        }
      case Tick =>
    }

    /** Every run: each emitted batch has exactly one sample per task of its round, rounds
        never overlap, remaining counts are exact, and decisions are emitted only if the
        groups did not change between the start and the end of the round. */
    method Run(turns: seq<(set<string>, Event)>)
      requires Valid()
      modifies this
      ensures Valid() && AllFaithful(policy, batches, rounds) && Emitted()
    {
      for k := 0 to |turns|
        invariant Valid() && Emitted()
      {
        Turn(turns[k].0, turns[k].1);
      }
    }
  }

  datatype Event =
    | Replace(groups: seq<GroupState>)
    | Wake(requests: set<string>)
    | Deliver
    | Reply(i: nat, latency: Option<int>, timedOut: bool, finishedAt: int, requests: set<string>)
    | Tick

  /** What a worker makes of a probe: no latency, or none above zero, is a failure. */
  function Measured(t: Task, url: string, latency: Option<int>, timedOut: bool, finishedAt: int): (s: Sample)
    ensures Answers(s, t)
    ensures Failed(s) <==> latency == None || latency.value <= 0
  {
    if latency.Some? && latency.value > 0 then Sample(t.group, t.proxy, url, finishedAt, latency.value, Success)
    else Sample(t.group, t.proxy, url, finishedAt, 0, if timedOut then Timeout else Error)
  }

  lemma AnswerIsAccounted(tasks: seq<Task>, pending: seq<Task>, inFlight: seq<Task>, order: seq<Task>, i: nat, samples: seq<Sample>, sample: Sample)
    requires Accounted(tasks, pending, inFlight, order) && i < |inFlight| && SamplesAnswer(samples, order) && Answers(sample, inFlight[i])
    ensures Accounted(tasks, pending, Without(inFlight, i), order + [inFlight[i]])
    ensures SamplesAnswer(samples + [sample], order + [inFlight[i]])
  {
    CountWithout(inFlight, i, "");
  }

  lemma StillBusy(remaining: map<string, int>, pending: seq<Task>, inFlight: seq<Task>, name: string)
    requires Balanced(remaining, pending, inFlight) && name in remaining && !(remaining[name] == 0 && forall g :: g in remaining ==> remaining[g] <= 0)
    ensures pending != [] || inFlight != []
  {
  }

  lemma PolicyWindow(policy: Policy)
    requires ValidPolicy(policy)
    ensures policy.windowSize > 0
  {
  }

  /** Adds a sample to its proxy's window, if the group is still known. */
  method RecordSample(runtimes: map<string, Runtime>, ghost logs: Logs, size: int, t: Task, sample: Sample) returns (r: map<string, Runtime>)
    requires size > 0 && Known(runtimes) && Windowed(runtimes, logs, size) && Answers(sample, t)
    ensures Known(r) && Windowed(r, RecordLog(runtimes, logs, t, sample), size) && r.Keys == runtimes.Keys
  {
    hide Known, Windowed, Refines, ValidGroup;
    RuntimeOf(runtimes, logs, size, t.group);
    if t.group !in runtimes {
      return runtimes;
    }
    var known := runtimes[t.group];
    var items := (if t.proxy in known.history then known.history[t.proxy] else []) + [sample];
    if |items| > size {
      items := items[|items| - size..];
    }
    var next := Runtime(known.state, known.history[t.proxy := items]);
    AppendRefines(known.history, logs[t.group], size, t.proxy, sample);
    PutRuntime(runtimes, logs, size, t.group, next, Appended(logs[t.group], t.proxy, sample));
    r := runtimes[t.group := next];
  }

  /** The groups of a round that was overtaken lose their histories, and no others do. */
  ghost predicate Dropped(before: map<string, Runtime>, after: map<string, Runtime>, names: seq<string>) {
    && after.Keys == before.Keys
    && forall g :: g in after ==> after[g] == if g in names then Runtime(before[g].state, map[]) else before[g]
  }

  ghost function RecordLog(runtimes: map<string, Runtime>, logs: Logs, t: Task, sample: Sample): Logs {
    if t.group in runtimes && t.group in logs then logs[t.group := Appended(logs[t.group], t.proxy, sample)] else logs
  }

  /** The groups of a round that are still known, in order. */
  function StillKnown(runtimes: map<string, Runtime>, names: seq<string>): (r: seq<string>)
    ensures forall i :: 0 <= i < |r| ==> r[i] in runtimes
  {
    if names == [] then []
    else StillKnown(runtimes, names[..|names| - 1]) + if names[|names| - 1] in runtimes then [names[|names| - 1]] else []
  }

  /** What a group's history shows of each proxy. */
  ghost function HistoryWindows(policy: Policy, r: Runtime): Windows {
    p => Recent(SamplesOf(policy, r.state.group, if p in r.history then r.history[p] else [], p), policy.windowSize)
  }

  /** One right decision for each of these groups. */
  ghost predicate DecidedAll(policy: Policy, runtimes: map<string, Runtime>, names: seq<string>, now: int, decisions: seq<Decision>) {
    && |decisions| == |names|
    && forall i :: 0 <= i < |names| ==> names[i] in runtimes && Decides(policy, runtimes[names[i]].state, HistoryWindows(policy, runtimes[names[i]]), now, decisions[i])
  }

  /** One decision for every group of the round that is still known. */
  method DecideAll(policy: Policy, runtimes: map<string, Runtime>, names: seq<string>, now: int) returns (decisions: seq<Decision>)
    requires ValidPolicy(policy) && Known(runtimes)
    ensures DecidedAll(policy, runtimes, StillKnown(runtimes, names), now, decisions)
  {
    hide Decides, Recent, SamplesOf, ValidGroup, OwnSamples, ValidPolicy;
    decisions := [];
    for k := 0 to |names|
      invariant DecidedAll(policy, runtimes, StillKnown(runtimes, names[..k]), now, decisions)
    {
      assert names[..k + 1][..k] == names[..k];
      if names[k] in runtimes {
        var r := runtimes[names[k]];
        var samples := Flatten(policy, r.state.group, r.history);
        var d := Decide(policy, r.state, samples, now);
        SameWindows(policy, r.state, WindowsOf(policy, r.state.group, samples), HistoryWindows(policy, r), r.state, now);
        decisions := decisions + [d];
      }
    }
    assert names[..|names|] == names;
  }

  lemma {:induction false} SamplesConcat(policy: Policy, group: string, a: seq<Sample>, b: seq<Sample>, p: string)
    ensures SamplesOf(policy, group, a + b, p) == SamplesOf(policy, group, a, p) + SamplesOf(policy, group, b, p)
  {
    if b == [] {
      assert a + b == a;
    } else {
      SamplesConcat(policy, group, a, b[..|b| - 1], p);
      assert (a + b)[..|a + b| - 1] == a + b[..|b| - 1];
    }
  }

  lemma {:induction false} SamplesForeign(policy: Policy, group: string, samples: seq<Sample>, p: string)
    requires forall i :: 0 <= i < |samples| ==> samples[i].proxy != p
    ensures SamplesOf(policy, group, samples, p) == []
  {
    if samples != [] {
      SamplesForeign(policy, group, samples[..|samples| - 1], p);
    }
  }

  /** All samples of a history, proxy by proxy in no particular order. */
  method Flatten(policy: Policy, group: string, history: map<string, seq<Sample>>) returns (samples: seq<Sample>)
    requires OwnSamples(history)
    ensures forall p :: SamplesOf(policy, group, samples, p) == SamplesOf(policy, group, if p in history then history[p] else [], p)
  {
    hide SamplesOf;
    samples := [];
    var proxies := Enumerate(history.Keys);
    for k := 0 to |proxies|
      invariant forall p :: SamplesOf(policy, group, samples, p) == SamplesOf(policy, group, if p in proxies[..k] && p in history then history[p] else [], p)
    {
      var q := proxies[k];
      assert q in history.Keys;
      ghost var before := samples;
      samples := samples + history[q];
      assert proxies[..k + 1] == proxies[..k] + [q];
      forall p ensures SamplesOf(policy, group, samples, p) == SamplesOf(policy, group, if p in proxies[..k + 1] && p in history then history[p] else [], p) {
        SamplesConcat(policy, group, before, history[q], p);
        SamplesForeign(policy, group, [], p);
        if p != q {
          SamplesForeign(policy, group, history[q], p);
        }
      }
    }
    assert proxies[..|proxies|] == proxies;
    forall p ensures p in proxies <==> p in history {
    }
  }

  method DropHistories(runtimes: map<string, Runtime>, ghost logs: Logs, names: seq<string>, size: int) returns (r: map<string, Runtime>, ghost l: Logs)
    requires Known(runtimes) && Windowed(runtimes, logs, size)
    ensures Known(r) && Windowed(r, l, size)
    ensures forall k :: 0 <= k < |names| && names[k] in runtimes ==> names[k] in r && r[names[k]].history == map[]
    ensures Dropped(runtimes, r, names)
  {
    hide Known, Windowed, Refines, ValidGroup;
    r, l := runtimes, logs;
    EmptyRefines(size);
    for k := 0 to |names|
      invariant Known(r) && Windowed(r, l, size) && r.Keys == runtimes.Keys
      invariant forall i :: 0 <= i < k && names[i] in runtimes ==> r[names[i]].history == map[]
      invariant forall g :: g in r ==> (g in names || r[g] == runtimes[g]) && r[g].state == runtimes[g].state
    {
      RuntimeOf(r, l, size, names[k]);
      if names[k] in r {
        PutRuntime(r, l, size, names[k], Runtime(r[names[k]].state, map[]), map[]);
        r, l := r[names[k] := Runtime(r[names[k]].state, map[])], l[names[k] := map[]];
      }
    }
  }

  /** Groups that are not probed lose their history, groups that are gone lose everything;
      a probed group that changed is probed again at once. */
  method TakeOver(groups: seq<GroupState>, runtimes: map<string, Runtime>, forced: set<string>, requests: set<string>, ghost logs: Logs, size: int)
    returns (runtimes': map<string, Runtime>, forced': set<string>, ghost logs': Logs)
    requires ValidGroups(groups) && Known(runtimes) && Windowed(runtimes, logs, size)
    ensures Known(runtimes') && Windowed(runtimes', logs', size)
    ensures runtimes'.Keys == set i | 0 <= i < |groups| :: groups[i].group
    ensures forall i :: 0 <= i < |groups| ==> TakenOver(groups[i], runtimes, runtimes')
    ensures forall i :: 0 <= i < |groups| ==> (groups[i].group in forced' <==> Urgent(groups[i], runtimes, forced + requests))
    ensures forced' <= runtimes'.Keys
  {
    hide Known, Windowed, Refines, ValidGroup;
    var taken, changed;
    ghost var kept;
    taken, changed, kept := TakeAll(groups, runtimes, logs, size);
    var present := set i | 0 <= i < |groups| :: groups[i].group;
    KeepRuntimes(taken, kept, size, present);
    runtimes' := map g | g in taken && g in present :: taken[g];
    logs' := map g | g in kept && g in present :: kept[g];
    forced' := (forced + changed + requests) * present;
  }

  /** Takes over every group, and says which probed ones changed. */
  method TakeAll(groups: seq<GroupState>, runtimes: map<string, Runtime>, ghost logs: Logs, size: int)
    returns (taken: map<string, Runtime>, changed: set<string>, ghost kept: Logs)
    requires ValidGroups(groups) && Known(runtimes) && Windowed(runtimes, logs, size)
    ensures Known(taken) && Windowed(taken, kept, size)
    ensures forall i :: 0 <= i < |groups| ==> TakenOver(groups[i], runtimes, taken)
    ensures forall i :: 0 <= i < |groups| ==> (groups[i].group in changed <==> Urgent(groups[i], runtimes, {}))
  {
    hide Known, Windowed, Refines, ValidGroup;
    taken, changed, kept := runtimes, {}, logs;
    for k := 0 to |groups|
      invariant Known(taken) && Windowed(taken, kept, size)
      invariant forall i :: 0 <= i < k ==> TakenOver(groups[i], runtimes, taken)
      invariant forall i :: 0 <= i < k ==> (groups[i].group in changed <==> Urgent(groups[i], runtimes, {}))
      invariant forall i :: k <= i < |groups| ==> (groups[i].group in taken <==> groups[i].group in runtimes) && groups[i].group !in changed
      invariant forall i :: k <= i < |groups| && groups[i].group in runtimes ==> taken[groups[i].group] == runtimes[groups[i].group]
    {
      var next, differs;
      next, differs, kept := TakeOne(groups[k], taken, kept, size);
      taken, changed := next, if differs then changed + {groups[k].group} else changed;
    }
  }

  /** Takes over one group. */
  method TakeOne(state: GroupState, runtimes: map<string, Runtime>, ghost logs: Logs, size: int)
    returns (runtimes': map<string, Runtime>, changed: bool, ghost logs': Logs)
    requires ValidGroup(state) && Known(runtimes) && Windowed(runtimes, logs, size)
    ensures Known(runtimes') && Windowed(runtimes', logs', size)
    ensures runtimes' == runtimes[state.group := Runtime(state, if state.group in runtimes && state.probeEnabled then runtimes[state.group].history else map[])]
    ensures changed <==> state.group in runtimes && state.probeEnabled && runtimes[state.group].state != state
  {
    hide Known, Windowed, Refines, ValidGroup;
    var g := state.group;
    EmptyRefines(size);
    RuntimeOf(runtimes, logs, size, g);
    changed := false;
    var next := Runtime(state, map[]);
    ghost var log: map<string, seq<Sample>> := map[];
    if g in runtimes && state.probeEnabled {
      changed := runtimes[g].state != state;
      next, log := Runtime(state, runtimes[g].history), logs[g];
    }
    PutRuntime(runtimes, logs, size, g, next, log);
    runtimes', logs' := runtimes[g := next], logs[g := log];
  }

  /** The loop's view of a group is the callers', with its history kept only while probed. */
  ghost predicate TakenOver(state: GroupState, before: map<string, Runtime>, after: map<string, Runtime>) {
    && state.group in after
    && after[state.group] == Runtime(state, if state.group in before && state.probeEnabled then before[state.group].history else map[])
  }

  /** Asked for, or probed and changed. */
  ghost predicate Urgent(state: GroupState, before: map<string, Runtime>, asked: set<string>) {
    state.group in asked || (state.group in before && state.probeEnabled && before[state.group].state != state)
  }

  lemma RuntimeOf(runtimes: map<string, Runtime>, logs: Logs, size: int, g: string)
    requires Known(runtimes) && Windowed(runtimes, logs, size)
    ensures g in runtimes <==> g in logs
    ensures g in runtimes ==> Refines(runtimes[g].history, logs[g], size) && ValidGroup(runtimes[g].state) && runtimes[g].state.group == g && OwnSamples(runtimes[g].history)
  {
  }

  lemma PutRuntime(runtimes: map<string, Runtime>, logs: Logs, size: int, g: string, r: Runtime, log: map<string, seq<Sample>>)
    requires Known(runtimes) && Windowed(runtimes, logs, size) && Refines(r.history, log, size) && r.state.group == g && ValidGroup(r.state) && OwnSamples(r.history)
    ensures Known(runtimes[g := r]) && Windowed(runtimes[g := r], logs[g := log], size)
  {
    hide Refines, ValidGroup;
  }

  lemma KeepRuntimes(runtimes: map<string, Runtime>, logs: Logs, size: int, names: set<string>)
    requires Known(runtimes) && Windowed(runtimes, logs, size)
    ensures Known(map g | g in runtimes && g in names :: runtimes[g])
    ensures Windowed(map g | g in runtimes && g in names :: runtimes[g], map g | g in logs && g in names :: logs[g], size)
  {
    hide Refines, ValidGroup;
  }

  /** Collects one probe task per proxy of every group that is due or forced. */
  /** The tasks are those of the wanted groups, one for each of their proxies. */
  ghost predicate Planned(runtimes: map<string, Runtime>, forced: set<string>, due: set<string>, tasks: seq<Task>) {
    forall t :: t in tasks <==> Wanted(runtimes, forced, due, t.group) && t.proxy in runtimes[t.group].state.proxies
  }

  method BuildRound(runtimes: map<string, Runtime>, forced: set<string>, due: set<string>)
    returns (pending: seq<Task>, activeGroups: seq<string>, remaining: map<string, int>, forced': set<string>)
    requires Known(runtimes)
    ensures Balanced(remaining, pending, []) && Distinct(pending)
    ensures |activeGroups| > 0 <==> pending != []
    ensures Distinct(activeGroups) && forall g :: g in activeGroups <==> Wanted(runtimes, forced, due, g)
    ensures GroupsOf(activeGroups, pending)
    ensures Planned(runtimes, forced, due, pending)
    ensures forall g :: g in forced' <==> g in forced && g !in runtimes
  {
    hide Balanced, TasksOf, Known;
    pending, activeGroups, remaining, forced' := [], [], map[], forced;
    NothingIsBalanced();
    var names := Enumerate(runtimes.Keys);
    for k := 0 to |names|
      invariant Balanced(remaining, pending, []) && Distinct(pending)
      invariant forall g :: g in remaining ==> g in names[..k]
      invariant |activeGroups| > 0 <==> pending != []
      invariant Distinct(activeGroups) && forall g :: g in activeGroups <==> g in names[..k] && Wanted(runtimes, forced, due, g)
      invariant forall t :: t in pending <==> t.group in names[..k] && Wanted(runtimes, forced, due, t.group) && t.proxy in runtimes[t.group].state.proxies
      invariant forall g :: g in forced' <==> g in forced && g !in names[..k]
    {
      var name := names[k];
      assert name in runtimes.Keys && names[..k + 1] == names[..k] + [name];
      var state := runtimes[name].state;
      if !(state.probeEnabled && name in due) && name !in forced' {
        continue;
      }
      forced' := forced' - {name};
      activeGroups := activeGroups + [name];
      ProxiesOf(runtimes, name);
      assert name !in names[..k];
      AddGroup(remaining, pending, name, state.proxies);
      TasksAre(name, state.proxies);
      remaining := remaining[name := |state.proxies|];
      pending := pending + TasksOf(name, state.proxies);
    }
    assert names[..|names|] == names;
    RoundGroups(runtimes, forced, due, activeGroups, pending);
  }

  lemma RoundGroups(runtimes: map<string, Runtime>, forced: set<string>, due: set<string>, groups: seq<string>, tasks: seq<Task>)
    requires Known(runtimes) && Distinct(groups) && forall g :: g in groups <==> Wanted(runtimes, forced, due, g)
    requires forall t :: t in tasks <==> Wanted(runtimes, forced, due, t.group) && t.proxy in runtimes[t.group].state.proxies
    ensures GroupsOf(groups, tasks)
  {
    forall g ensures g in groups <==> exists i :: 0 <= i < |tasks| && tasks[i].group == g {
      if g in groups {
        var t := Task(g, runtimes[g].state.selected);
        assert ValidGroup(runtimes[g].state);
        assert t in tasks;
      }
      if i :| 0 <= i < |tasks| && tasks[i].group == g {
        assert tasks[i] in tasks;
      }
    }
  }

  /** The known groups of a list are those that are listed and known. */
  lemma {:induction false} StillKnownIs(runtimes: map<string, Runtime>, names: seq<string>)
    ensures forall g :: g in StillKnown(runtimes, names) <==> g in names && g in runtimes
    ensures Distinct(names) ==> Distinct(StillKnown(runtimes, names))
  {
    if names != [] {
      var n := |names| - 1;
      StillKnownIs(runtimes, names[..n]);
      assert names == names[..n] + [names[n]];
    }
  }

  /** A group takes part in a round when it is probed and due, or forced. */
  predicate Wanted(runtimes: map<string, Runtime>, forced: set<string>, due: set<string>, name: string) {
    name in runtimes && ((runtimes[name].state.probeEnabled && name in due) || name in forced)
  }

  lemma TasksAre(name: string, proxies: seq<string>)
    ensures forall t :: t in TasksOf(name, proxies) <==> t.group == name && t.proxy in proxies
  {
    CountTasks(name, proxies, name);
    forall p | p in proxies ensures Task(name, p) in TasksOf(name, proxies) {
      var i :| 0 <= i < |proxies| && proxies[i] == p;
      assert TasksOf(name, proxies)[i] == Task(name, p);
    }
  }

  lemma NothingAnswered(tasks: seq<Task>)
    requires Distinct(tasks)
    ensures Accounted(tasks, tasks, [], []) && SamplesAnswer([], [])
  {
  }

  lemma NothingIsBalanced()
    ensures Balanced(map[], [], [])
  {
  }

  lemma ProxiesOf(runtimes: map<string, Runtime>, name: string)
    requires Known(runtimes) && name in runtimes
    ensures runtimes[name].state.proxies != []
    ensures forall i, k :: 0 <= i < k < |runtimes[name].state.proxies| ==> runtimes[name].state.proxies[i] != runtimes[name].state.proxies[k]
  {
  }

  lemma EmptyRefines(size: int)
    ensures Refines(map[], map[], size)
  {
  }

  /** A group that is new to the round adds one task per proxy. */
  lemma AddGroup(remaining: map<string, int>, pending: seq<Task>, name: string, proxies: seq<string>)
    requires Balanced(remaining, pending, []) && Distinct(pending) && name !in remaining
    requires forall i, k :: 0 <= i < k < |proxies| ==> proxies[i] != proxies[k]
    ensures Balanced(remaining[name := |proxies|], pending + TasksOf(name, proxies), []) && Distinct(pending + TasksOf(name, proxies))
    ensures |TasksOf(name, proxies)| == |proxies| && forall t :: t in TasksOf(name, proxies) ==> t.group == name
  {
    hide CountGroup, TasksOf;
    var more := TasksOf(name, proxies);
    CountTasks(name, proxies, name);
    NoneMeansZero(pending, name);
    forall g | g in remaining[name := |proxies|] ensures remaining[name := |proxies|][g] == CountGroup(pending + more, g) + CountGroup([], g) {
      CountConcat(pending, more, g);
      CountTasks(name, proxies, g);
      EmptyCount(g);
    }
    DistinctJoin(pending, more);
  }

  lemma EmptyCount(name: string)
    ensures CountGroup([], name) == 0
  {
  }

  lemma DistinctJoin(a: seq<Task>, b: seq<Task>)
    requires Distinct(a) && Distinct(b) && forall x, y :: x in a && y in b ==> x != y
    ensures Distinct(a + b)
  {
    forall i, j | 0 <= i < j < |a + b| ensures (a + b)[i] != (a + b)[j] {
      if i < |a| <= j {
        assert a[i] in a && b[j - |a|] in b;
      }
    }
  }

  lemma {:induction false} NoneMeansZero(tasks: seq<Task>, name: string)
    requires forall t :: t in tasks ==> t.group != name
    ensures CountGroup(tasks, name) == 0
  {
    if tasks != [] {
      assert tasks[|tasks| - 1] in tasks;
      NoneMeansZero(tasks[..|tasks| - 1], name);
    }
  }
}
