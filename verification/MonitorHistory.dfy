/** Bounded histories, and which nodes a stream round pulls. */
module MonitorHistory {
  import opened Common
  import opened MonitorStats
  import opened MonitorPolicy
  import opened MonitorSteady

  // ---------------------------------------------------------------------
  // Latency windows.

  /** Keeping the last samples after every addition is the same as keeping the last
      samples of everything. */
  lemma WindowOfWindow<T>(log: seq<T>, x: T, size: int)
    requires size > 0
    ensures LastOf(LastOf(log, size) + [x], size) == LastOf(log + [x], size)
  {
  }

  // ---------------------------------------------------------------------
  // Stream histories.

  /** How many of the oldest pulls finished before the cutoff. */
  function Expired(samples: seq<Pull>, cutoff: int): (n: nat)
    ensures n <= |samples|
    ensures forall i :: 0 <= i < n ==> samples[i].finishedAt < cutoff
    ensures n < |samples| ==> samples[n].finishedAt >= cutoff
  {
    if samples == [] || samples[0].finishedAt >= cutoff then 0 else 1 + Expired(samples[1..], cutoff)
  }

  /** The last pulls that finished at or after the cutoff. */
  function Pruned(samples: seq<Pull>, cutoff: int, size: int): seq<Pull>
    requires size > 0
  {
    samples[Start(samples, cutoff, size)..]
  }

  function Start(samples: seq<Pull>, cutoff: int, size: int): (start: nat)
    requires size > 0
    ensures start <= |samples|
  {
    var e := Expired(samples, cutoff);
    if |samples| - size > e then |samples| - size else e
  }

  method PruneStreams(samples: seq<Pull>, cutoff: int, size: int) returns (r: seq<Pull>)
    requires size > 0
    ensures r == Pruned(samples, cutoff, size)
  {
    var start := 0;
    while start < |samples| && samples[start].finishedAt < cutoff
      invariant 0 <= start <= |samples|
      invariant forall i :: 0 <= i < start ==> samples[i].finishedAt < cutoff
    {
      start := start + 1;
    }
    ExpiredIsFirst(samples, cutoff, start);
    start := if |samples| - size > start then |samples| - size else start;
    if start == 0 {
      return samples;
    }
    r := samples[start..];
  }

  lemma ExpiredIsFirst(samples: seq<Pull>, cutoff: int, n: nat)
    requires n <= |samples| && (forall i :: 0 <= i < n ==> samples[i].finishedAt < cutoff)
    requires n < |samples| ==> samples[n].finishedAt >= cutoff
    ensures Expired(samples, cutoff) == n
  {
  }

  /** Pulls arrive in the order they complete. */
  ghost predicate InOrder(log: seq<Pull>) {
    forall i, k :: 0 <= i < k < |log| ==> log[i].finishedAt <= log[k].finishedAt
  }

  /** Every pull kept is recent enough, there are at most `size`, and every pull that is
      recent enough and among the last `size` is kept. */
  lemma PrunedKeeps(log: seq<Pull>, cutoff: int, size: int, i: nat)
    requires size > 0 && InOrder(log) && i < |log|
    ensures |Pruned(log, cutoff, size)| <= size
    ensures Pruned(log, cutoff, size) == log[|log| - |Pruned(log, cutoff, size)|..]
    ensures i >= |log| - |Pruned(log, cutoff, size)| <==> log[i].finishedAt >= cutoff && i >= |log| - size
  {
    var e := Expired(log, cutoff);
    if e <= i {
      assert log[e].finishedAt <= log[i].finishedAt || e == i;
    }
  }

  /** Pruning before more pulls arrive makes no difference, as long as cutoffs only grow. */
  lemma PruneOfPrune(log: seq<Pull>, more: seq<Pull>, earlier: int, later: int, size: int)
    requires size > 0 && InOrder(log + more) && earlier <= later
    ensures Pruned(Pruned(log, earlier, size) + more, later, size) == Pruned(log + more, later, size)
  {
    hide Expired, InOrder;
    var k, all := Start(log, earlier, size), log + more;
    assert Pruned(log, earlier, size) + more == all[k..];
    ExpiredShift(all, later, k);
    ExpiredGrows(log, more, earlier, later);
    var e := Expired(log, earlier);
    assert Start(all, later, size) == k + Start(all[k..], later, size);
    assert all[k..][Start(all[k..], later, size)..] == all[Start(all, later, size)..];
  }

  lemma ExpiredGrows(log: seq<Pull>, more: seq<Pull>, earlier: int, later: int)
    requires earlier <= later
    ensures Expired(log + more, later) >= Expired(log, earlier)
  {
    forall i | 0 <= i < Expired(log, earlier) ensures (log + more)[i].finishedAt < later {
      assert (log + more)[i] == log[i];
    }
  }

  lemma ExpiredShift(all: seq<Pull>, cutoff: int, k: nat)
    requires InOrder(all) && k <= |all|
    ensures Expired(all[k..], cutoff) == if Expired(all, cutoff) >= k then Expired(all, cutoff) - k else 0
  {
    var e := Expired(all, cutoff);
    if e >= k {
      forall i | 0 <= i < e - k ensures all[k..][i].finishedAt < cutoff {
        assert all[k..][i] == all[k + i];
      }
      ExpiredIsFirst(all[k..], cutoff, e - k);
    } else if k < |all| {
      assert all[e].finishedAt <= all[k].finishedAt;
      ExpiredIsFirst(all[k..], cutoff, 0);
    }
  }

  /** One event of a node's stream history: a pull arrived, or a round ended. */
  datatype StreamEvent = Arrived(pull: Pull, cutoff: int) | RoundEnded(cutoff: int)

  function Log(events: seq<StreamEvent>): seq<Pull> {
    if events == [] then []
    else Log(events[..|events| - 1]) + match events[|events| - 1] { case Arrived(pull, _) => [pull] case RoundEnded(_) => [] }
  }

  /** What the scheduler holds after the events. */
  function Held(events: seq<StreamEvent>, size: int): seq<Pull>
    requires size > 0
  {
    if events == [] then []
    else match events[|events| - 1]
      case Arrived(pull, cutoff) => Pruned(Held(events[..|events| - 1], size) + [pull], cutoff, size)
      case RoundEnded(cutoff) => Pruned(Held(events[..|events| - 1], size), cutoff, size)
  }

  ghost predicate CutoffsGrow(events: seq<StreamEvent>) {
    forall i, k :: 0 <= i < k < |events| ==> events[i].cutoff <= events[k].cutoff
  }

  /** Pruning all along gives what pruning the complete log once would give. */
  lemma {:induction false} HistoryIsPrunedLog(events: seq<StreamEvent>, size: int)
    requires size > 0 && events != [] && CutoffsGrow(events) && InOrder(Log(events))
    ensures Held(events, size) == Pruned(Log(events), events[|events| - 1].cutoff, size)
  {
    hide Pruned, InOrder;
    var n := |events|;
    var before, last := events[..n - 1], events[n - 1];
    LogStep(events);
    HeldStep(events, size);
    if n > 1 {
      PrefixInOrder(Log(before), Addition(last));
      HistoryIsPrunedLog(before, size);
      PruneOfPrune(Log(before), Addition(last), before[n - 2].cutoff, last.cutoff, size);
    }
  }

  function Addition(e: StreamEvent): seq<Pull> {
    if e.Arrived? then [e.pull] else []
  }

  lemma LogStep(events: seq<StreamEvent>)
    requires events != []
    ensures Log(events) == Log(events[..|events| - 1]) + Addition(events[|events| - 1])
    ensures |events| == 1 ==> Log(events[..0]) == []
  {
  }

  lemma HeldStep(events: seq<StreamEvent>, size: int)
    requires size > 0 && events != []
    ensures Held(events, size) == Pruned(Held(events[..|events| - 1], size) + Addition(events[|events| - 1]), events[|events| - 1].cutoff, size)
    ensures |events| == 1 ==> Held(events[..0], size) == []
  {
    hide Pruned;
    assert Held(events[..|events| - 1], size) + [] == Held(events[..|events| - 1], size);
  }

  lemma PrefixInOrder(log: seq<Pull>, more: seq<Pull>)
    requires InOrder(log + more)
    ensures InOrder(log)
  {
    forall i, k | 0 <= i < k < |log| ensures log[i].finishedAt <= log[k].finishedAt {
      assert (log + more)[i] == log[i] && (log + more)[k] == log[k];
    }
  }

  // ---------------------------------------------------------------------
  // Stream targets.

  const STREAM_PULL_CAP: nat := 8
  const STREAM_CANDIDATES: nat := 3

  /** One round's list so far: no node twice, only members, never over the cap. */
  ghost predicate Targets(out: seq<string>, members: set<string>) {
    Distinct(out) && |out| <= STREAM_PULL_CAP && forall p :: p in out ==> p in members
  }

  method AddTarget(out: seq<string>, members: set<string>, proxy: string) returns (r: seq<string>)
    requires Targets(out, members)
    ensures Targets(r, members) && out <= r
    ensures proxy in members && |out| < STREAM_PULL_CAP ==> proxy in r
    ensures forall p :: p in r ==> p in out || p == proxy
  {
    r := if proxy in members && proxy !in out && |out| < STREAM_PULL_CAP then out + [proxy] else out;
  }

  /** The selected nodes of the automated groups that can be pulled. */
  ghost function SelectedNodes(groups: seq<GroupState>, members: set<string>): set<string> {
    set i | 0 <= i < |groups| && groups[i].automationEnabled && groups[i].selected in members :: groups[i].selected
  }

  method AddSelected(groups: seq<GroupState>, members: set<string>) returns (out: seq<string>)
    ensures Targets(out, members) && (forall p :: p in out ==> p in SelectedNodes(groups, members))
    ensures |out| < STREAM_PULL_CAP ==> forall p :: p in SelectedNodes(groups, members) ==> p in out
    ensures |SelectedNodes(groups, members)| < STREAM_PULL_CAP ==> |out| < STREAM_PULL_CAP
  {
    out := [];
    for k := 0 to |groups|
      invariant Targets(out, members)
      invariant forall p :: p in out ==> p in SelectedNodes(groups, members)
      invariant |out| < STREAM_PULL_CAP ==> forall i :: 0 <= i < k && groups[i].automationEnabled && groups[i].selected in members ==> groups[i].selected in out
    {
      if groups[k].automationEnabled {
        out := AddTarget(out, members, groups[k].selected);
      }
    }
    DistinctFit(out, SelectedNodes(groups, members));
  }

  lemma DistinctFit<T(!new)>(list: seq<T>, all: set<T>)
    requires Distinct(list) && forall x :: x in list ==> x in all
    ensures |list| <= |all|
  {
    if list != [] {
      var n := |list|;
      DistinctFit(list[..n - 1], all - {list[n - 1]});
    }
  }

  type Histories = (string, string) -> seq<Sample>

  /** A group's candidates that answer, fastest first. */
  datatype Ranked = Ranked(proxy: string, median: int)

  function RankMedian(): Ranked -> int { (r: Ranked) => r.median }

  predicate Live(group: GroupState, history: Histories, members: set<string>, windowSize: int, proxy: string) {
    proxy != group.selected && proxy in members && NewestSucceeded(Recent(history(group.group, proxy), windowSize))
  }

  function Collected(group: GroupState, history: Histories, members: set<string>, windowSize: int, proxies: seq<string>): seq<Ranked> {
    if proxies == [] then []
    else
      var p := proxies[|proxies| - 1];
      Collected(group, history, members, windowSize, proxies[..|proxies| - 1]) +
      if Live(group, history, members, windowSize, p) then [Ranked(p, Stats(Recent(history(group.group, p), windowSize)).median)] else []
  }

  function RankedOf(group: GroupState, history: Histories, members: set<string>, windowSize: int): seq<Ranked> {
    SortBy(Collected(group, history, members, windowSize, group.proxies), RankMedian())
  }

  lemma {:induction false} CollectedAreLive(group: GroupState, history: Histories, members: set<string>, windowSize: int, proxies: seq<string>)
    ensures forall r :: r in Collected(group, history, members, windowSize, proxies) <==>
      (r.proxy in proxies && Live(group, history, members, windowSize, r.proxy) && r.median == Stats(Recent(history(group.group, r.proxy), windowSize)).median)
  {
    hide Live, Stats, Recent;
    if proxies != [] {
      CollectedAreLive(group, history, members, windowSize, proxies[..|proxies| - 1]);
      assert proxies == proxies[..|proxies| - 1] + [proxies[|proxies| - 1]];
    }
  }

  /** The first of the ranking is a live member of the group with the least median; there
      is none only if the group has no live candidate. */
  lemma FastestIsLive(group: GroupState, history: Histories, members: set<string>, windowSize: int)
    ensures var ranked := RankedOf(group, history, members, windowSize);
      && (ranked == [] <==> forall p :: p in group.proxies ==> !Live(group, history, members, windowSize, p))
      && (ranked != [] ==>
            && ranked[0].proxy in group.proxies && Live(group, history, members, windowSize, ranked[0].proxy)
            && forall p :: p in group.proxies && Live(group, history, members, windowSize, p) ==>
                 ranked[0].median <= Stats(Recent(history(group.group, p), windowSize)).median)
  {
    hide Live, Stats, Recent;
    var collected := Collected(group, history, members, windowSize, group.proxies);
    var ranked := RankedOf(group, history, members, windowSize);
    CollectedAreLive(group, history, members, windowSize, group.proxies);
    SortIsSorted(collected, RankMedian());
    assert |ranked| == |collected|;
    forall p | p in group.proxies && Live(group, history, members, windowSize, p)
      ensures ranked != [] && ranked[0].median <= Stats(Recent(history(group.group, p), windowSize)).median
    {
      var r := Ranked(p, Stats(Recent(history(group.group, p), windowSize)).median);
      assert r in collected;
      assert r in multiset(collected);
      assert r in multiset(ranked);
      assert r in ranked;
      var i :| 0 <= i < |ranked| && ranked[i] == r;
      assert i == 0 || RankMedian()(ranked[0]) <= RankMedian()(ranked[i]);
    }
    if ranked != [] {
      SortHasElements(collected, RankMedian(), 0);
    }
  }

  /** The automated groups in order. */
  function Automated(groups: seq<GroupState>): seq<GroupState> {
    if groups == [] then []
    else Automated(groups[..|groups| - 1]) + if groups[|groups| - 1].automationEnabled then [groups[|groups| - 1]] else []
  }

  method RankCandidates(groups: seq<GroupState>, history: Histories, members: set<string>, windowSize: int) returns (candidates: seq<seq<Ranked>>)
    ensures |candidates| == |Automated(groups)|
    ensures forall g :: 0 <= g < |candidates| ==> candidates[g] == RankedOf(Automated(groups)[g], history, members, windowSize)
  {
    hide RankedOf;
    candidates := [];
    for k := 0 to |groups|
      invariant |candidates| == |Automated(groups[..k])|
      invariant forall g :: 0 <= g < |candidates| ==> candidates[g] == RankedOf(Automated(groups[..k])[g], history, members, windowSize)
    {
      assert groups[..k + 1][..k] == groups[..k];
      if groups[k].automationEnabled {
        candidates := candidates + [RankedOf(groups[k], history, members, windowSize)];
      }
    }
    assert groups[..|groups|] == groups;
  }

  /** The nodes one stream round pulls: selected nodes first, then candidates one per
      group in turn, starting at a group that rotates with the round. If the selected
      nodes leave room, the group whose turn it is gets its fastest candidate in. */
  method StreamTargets(groups: seq<GroupState>, history: Histories, members: set<string>, windowSize: int, round: nat)
    returns (out: seq<string>, ghost first: nat)
    ensures Targets(out, members) && first <= |out|
    ensures forall i :: 0 <= i < first ==> out[i] in SelectedNodes(groups, members)
    ensures first < STREAM_PULL_CAP ==> forall p :: p in SelectedNodes(groups, members) ==> p in out[..first]
    ensures |SelectedNodes(groups, members)| < STREAM_PULL_CAP && Automated(groups) != [] ==>
      FastestIn(RankedOf(Automated(groups)[round % |Automated(groups)|], history, members, windowSize), out)
  {
    hide RankedOf, SelectedNodes;
    out := AddSelected(groups, members);
    first := |out|;
    var candidates := RankCandidates(groups, history, members, windowSize);
    ghost var chosen := out;
    if |candidates| == 0 {
      return;
    }
    FastestIsMember(Automated(groups)[round % |candidates|], history, members, windowSize);
    for rank := 0 to STREAM_CANDIDATES
      invariant Targets(out, members) && chosen <= out && (rank == 0 ==> out == chosen)
      invariant rank > 0 && |chosen| < STREAM_PULL_CAP ==> FastestIn(candidates[round % |candidates|], out)
    {
      for i := 0 to |candidates|
        invariant Targets(out, members) && chosen <= out
        invariant rank == 0 && i == 0 ==> out == chosen
        invariant (rank > 0 || i > 0) && |chosen| < STREAM_PULL_CAP ==> FastestIn(candidates[round % |candidates|], out)
      {
        var group := candidates[(round + i) % |candidates|];
        if rank < |group| {
          out := AddTarget(out, members, group[rank].proxy);
        }
      }
    }
  }

  ghost predicate FastestIn(ranked: seq<Ranked>, out: seq<string>) {
    ranked != [] ==> ranked[0].proxy in out
  }

  ghost predicate PulledIn(rounds: seq<seq<string>>, ranked: seq<Ranked>) {
    exists k :: 0 <= k < |rounds| && FastestIn(ranked, rounds[k])
  }

  lemma FastestIsMember(group: GroupState, history: Histories, members: set<string>, windowSize: int)
    ensures var ranked := RankedOf(group, history, members, windowSize);
      ranked != [] ==> ranked[0].proxy in members
  {
    FastestIsLive(group, history, members, windowSize);
  }

  /** Every group's turn comes within as many rounds as there are groups. */
  lemma TurnComes(start: nat, n: nat, g: nat) returns (k: nat)
    requires g < n
    ensures k < n && (start + k) % n == g
  {
    var r := start % n;
    k := if g >= r then g - r else g + n - r;
    assert start == n * (start / n) + r;
    if g >= r {
      ModPlus(n, start / n, g);
    } else {
      assert start + k == n * (start / n) + n + g;
      assert n * (start / n) + n == n * (start / n + 1);
      ModPlus(n, start / n + 1, g);
    }
  }

  lemma ModPlus(n: nat, q: nat, g: nat)
    requires g < n
    ensures (n * q + g) % n == g
  {
    var x := n * q + g;
    var d := q - x / n;
    assert n * d == n * q - n * (x / n);
    assert n * d == x % n - g;
    AtLeastOnce(n, d);
  }

  lemma AtLeastOnce(n: nat, d: int)
    ensures d >= 1 ==> n * d >= n
    ensures d <= -1 ==> n * d + n <= 0
  {
  }

  /** No group is starved: over as many consecutive rounds as there are automated groups,
      each group's fastest live candidate is pulled at least once. */
  method PullRounds(groups: seq<GroupState>, history: Histories, members: set<string>, windowSize: int, start: nat) returns (rounds: seq<seq<string>>)
    requires |SelectedNodes(groups, members)| < STREAM_PULL_CAP
    ensures |rounds| == |Automated(groups)|
    ensures forall g :: 0 <= g < |rounds| ==> PulledIn(rounds, RankedOf(Automated(groups)[g], history, members, windowSize))
  {
    hide RankedOf, FastestIn, SelectedNodes, Automated;
    rounds := [];
    var n := CountAutomated(groups);
    for k := 0 to n
      invariant |rounds| == k
      invariant forall i :: 0 <= i < k ==> FastestIn(RankedOf(Automated(groups)[(start + i) % n], history, members, windowSize), rounds[i])
    {
      var out, _ := StreamTargets(groups, history, members, windowSize, start + k);
      rounds := rounds + [out];
    }
    forall g | 0 <= g < |rounds|
      ensures PulledIn(rounds, RankedOf(Automated(groups)[g], history, members, windowSize))
    {
      var k := TurnComes(start, n, g);
      assert FastestIn(RankedOf(Automated(groups)[(start + k) % n], history, members, windowSize), rounds[k]);
    }
  }

  method CountAutomated(groups: seq<GroupState>) returns (n: nat)
    ensures n == |Automated(groups)|
  {
    n := 0;
    for k := 0 to |groups|
      invariant n == |Automated(groups[..k])|
    {
      assert groups[..k + 1][..k] == groups[..k];
      if groups[k].automationEnabled {
        n := n + 1;
      }
    }
    assert groups[..|groups|] == groups;
  }
}
