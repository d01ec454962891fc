/** Switch decisions of the steady-stream policy, which judges whole downloads. */
module MonitorSteady {
  import opened Common
  import opened MonitorStats
  import opened MonitorPolicy

  /** One pull: its node, when it finished, whether it completed, and its throughput. */
  datatype Pull = Pull(proxy: string, finishedAt: int, completed: bool, throughput: int)

  function PullTime(): Pull -> int { (s: Pull) => s.finishedAt }

  function RecentPulls(samples: seq<Pull>, limit: int): seq<Pull> {
    LastOf(SortBy(samples, PullTime()), limit)
  }

  function Rates(window: seq<Pull>): seq<int> {
    if window == [] then []
    else Rates(window[..|window| - 1]) + if window[|window| - 1].completed then [window[|window| - 1].throughput] else []
  }

  lemma {:induction false} RatesCount(window: seq<Pull>)
    ensures |Rates(window)| <= |window|
  {
    if window != [] {
      RatesCount(window[..|window| - 1]);
    }
  }

  function Broken(window: seq<Pull>): nat {
    RatesCount(window);
    |window| - |Rates(window)|
  }

  datatype PullStats = PullStats(samples: nat, completed: nat, medianThroughput: int)

  /** The upper middle of the completed pulls' rates. */
  function Middle(rates: seq<int>): int {
    MiddleExists(rates);
    if rates == [] then 0 else SortBy(rates, Identity())[|rates| / 2]
  }

  method MeasurePulls(samples: seq<Pull>, windowSize: int) returns (stats: PullStats)
    ensures
      var window := RecentPulls(samples, windowSize);
      stats.samples == |window| && stats.samples - stats.completed == Broken(window) && stats.medianThroughput == Middle(Rates(window))
  {
    var window := RecentPulls(samples, windowSize);
    var rates: seq<int> := [];
    for k := 0 to |window|
      invariant rates == Rates(window[..k])
    {
      assert window[..k + 1][..k] == window[..k];
      if window[k].completed {
        rates := rates + [window[k].throughput];
      }
    }
    assert window[..|window|] == window;
    RatesCount(window);
    stats := PullStats(|window|, |rates|, Middle(rates));
  }

  type PullWindows = string -> seq<Pull>

  predicate NewestCompleted(window: seq<Pull>) {
    window != [] && window[|window| - 1].completed
  }

  /** A node with proven downloads and fewer broken ones than the selected node. */
  predicate SteadyEligible(policy: Policy, state: GroupState, windows: PullWindows, proxy: string) {
    && proxy in state.proxies && proxy != state.selected
    && NewestCompleted(windows(proxy))
    && |windows(proxy)| - Broken(windows(proxy)) >= policy.minCandidateSamples
    && Broken(windows(proxy)) < Broken(windows(state.selected))
  }

  ghost predicate NonePasses(state: GroupState, windows: PullWindows) {
    && (forall p :: p in state.proxies ==> !NewestCompleted(windows(p)))
    && (exists i, k :: 0 <= i < k < |state.proxies| && windows(state.proxies[i]) != [] && windows(state.proxies[k]) != [])
  }

  /** How candidates are compared. Latency only counts where both were measured. */
  predicate Before(windows: PullWindows, latency: string -> int, a: string, b: string) {
    var wa, wb := windows(a), windows(b);
    if Broken(wa) != Broken(wb) then Broken(wa) < Broken(wb)
    else if Middle(Rates(wa)) != Middle(Rates(wb)) then Middle(Rates(wa)) > Middle(Rates(wb))
    else if latency(a) != latency(b) && latency(a) > 0 && latency(b) > 0 then latency(a) < latency(b)
    else Less(a, b)
  }

  /** Fewer broken downloads, or as many and a higher throughput. */
  predicate Clearly(windows: PullWindows, a: string, b: string) {
    Broken(windows(a)) < Broken(windows(b)) || (Broken(windows(a)) == Broken(windows(b)) && Middle(Rates(windows(a))) > Middle(Rates(windows(b))))
  }

  ghost predicate SteadyDecides(policy: Policy, state: GroupState, windows: PullWindows, latency: string -> int, now: int, d: Decision) {
    if Guard(policy, state, now).Some? then d == Stay(Guard(policy, state, now).value)
    else if state.selected == "" || state.proxies == [] then d == Stay(InsufficientSamples)
    else if NonePasses(state, windows) then d == Stay(AllCandidatesFailed)
    else if Broken(windows(state.selected)) < policy.maxFailures then
      d == Stay(if windows(state.selected) != [] then SelectedStreamsHealthy else InsufficientSamples)
    else match d
      case Stay(reason) => reason == NoBetterCandidate && forall p :: !SteadyEligible(policy, state, windows, p)
      case Switch(to, lower, reason) =>
        && SteadyEligible(policy, state, windows, to) && !lower && reason == SteadierStream
        && (forall p :: SteadyEligible(policy, state, windows, p) ==> !Clearly(windows, p, to))
        && (NoCircle(policy, state, windows, latency) ==> forall p :: SteadyEligible(policy, state, windows, p) && p != to ==> Before(windows, latency, to, p))
  }

  predicate Tied(windows: PullWindows, a: string, b: string) {
    Broken(windows(a)) == Broken(windows(b)) && Middle(Rates(windows(a))) == Middle(Rates(windows(b)))
  }

  /** Three nodes with equal downloads: `b` has no latency and stands between the others by
      name, while `c` comes last by name and is faster than `a`. */
  predicate Trap(windows: PullWindows, latency: string -> int, a: string, b: string, c: string) {
    && Tied(windows, a, b) && Tied(windows, b, c)
    && latency(b) <= 0 && 0 < latency(c) < latency(a) && Less(a, b) && Less(b, c)
  }

  /** The comparison goes round in a circle exactly if the three nodes are such a trap. */
  lemma CircleIff(windows: PullWindows, latency: string -> int, a: string, b: string, c: string)
    ensures Before(windows, latency, a, b) && Before(windows, latency, b, c) && Before(windows, latency, c, a) <==>
      Trap(windows, latency, a, b, c) || Trap(windows, latency, b, c, a) || Trap(windows, latency, c, a, b)
  {
    hide Broken, Middle, Rates, Less;
    Names(a, b, c);
    Names(b, c, a);
    Names(c, a, b);
  }

  lemma Names(a: string, b: string, c: string)
    ensures !(Less(a, b) && Less(b, a)) && (Less(a, b) || Less(b, a) || a == b) && !Less(a, a)
    ensures Less(a, b) && Less(b, c) ==> Less(a, c)
  {
    LessIsTotal(a, b);
    LessIsTotal(a, a);
    if Less(a, b) && Less(b, c) {
      LessIsTransitive(a, b, c);
    }
  }

  /** On a set of nodes the comparison is transitive exactly if no three of them are a trap. */
  lemma TransitiveIff(windows: PullWindows, latency: string -> int, nodes: set<string>)
    ensures (forall a, b, c :: a in nodes && b in nodes && c in nodes && Before(windows, latency, a, b) && Before(windows, latency, b, c) ==> Before(windows, latency, a, c)) <==>
      (forall a, b, c :: a in nodes && b in nodes && c in nodes ==> !Trap(windows, latency, a, b, c))
  {
    hide Before, Trap;
    if forall a, b, c :: a in nodes && b in nodes && c in nodes ==> !Trap(windows, latency, a, b, c) {
      forall a, b, c | a in nodes && b in nodes && c in nodes && Before(windows, latency, a, b) && Before(windows, latency, b, c)
        ensures Before(windows, latency, a, c)
      {
        Leads(windows, latency, a, b, c);
      }
    } else {
      var a, b, c :| a in nodes && b in nodes && c in nodes && Trap(windows, latency, a, b, c);
      CircleIff(windows, latency, a, b, c);
      BeforeIsTotal(windows, latency, a, c);
    }
  }

  lemma BeforeIsTotal(windows: PullWindows, latency: string -> int, a: string, b: string)
    ensures !(Before(windows, latency, a, b) && Before(windows, latency, b, a))
    ensures a != b ==> Before(windows, latency, a, b) || Before(windows, latency, b, a)
    ensures Clearly(windows, a, b) ==> Before(windows, latency, a, b)
  {
    hide Broken, Middle, Rates, Less;
    Names(a, b, a);
  }

  lemma Leads(windows: PullWindows, latency: string -> int, a: string, b: string, c: string)
    requires !Trap(windows, latency, a, b, c) && !Trap(windows, latency, b, c, a) && !Trap(windows, latency, c, a, b)
    requires Before(windows, latency, a, b) && Before(windows, latency, b, c)
    ensures Before(windows, latency, a, c)
  {
    hide Before, Trap;
    CircleIff(windows, latency, a, b, c);
    BeforeIsTotal(windows, latency, a, c);
    BeforeIsTotal(windows, latency, a, b);
  }

  /** The eligible candidates compare without a circle; measured latencies are enough. */
  ghost predicate NoCircle(policy: Policy, state: GroupState, windows: PullWindows, latency: string -> int) {
    forall a, b, c :: SteadyEligible(policy, state, windows, a) && SteadyEligible(policy, state, windows, b) && SteadyEligible(policy, state, windows, c) ==>
      !Trap(windows, latency, a, b, c)
  }

  ghost predicate Trapless(windows: PullWindows, latency: string -> int, list: seq<string>) {
    forall a, b, c :: a in list && b in list && c in list ==> !Trap(windows, latency, a, b, c)
  }

  /** A list in which nothing stands behind something that is clearly worse; without a
      circle, sorted. */
  ghost predicate Arranged(windows: PullWindows, latency: string -> int, list: seq<string>) {
    && (forall i, k :: 0 <= i < k < |list| ==> !Clearly(windows, list[k], list[i]))
    && (Trapless(windows, latency, list) ==>
          forall i, k :: 0 <= i < k < |list| ==> list[i] == list[k] || Before(windows, latency, list[i], list[k]))
  }

  lemma NotClearly(windows: PullWindows, a: string, b: string, c: string)
    requires !Clearly(windows, a, b) && !Clearly(windows, b, c)
    ensures !Clearly(windows, a, c)
  {
    hide Broken, Middle, Rates;
  }

  /** One insertion of the library's insertion sort: the new element moves to the front as
      long as it compares before its neighbour. */
  function Inserted(windows: PullWindows, latency: string -> int, list: seq<string>, x: string): seq<string> {
    if list != [] && Before(windows, latency, x, list[|list| - 1])
    then Inserted(windows, latency, list[..|list| - 1], x) + [list[|list| - 1]]
    else list + [x]
  }

  method Insert(windows: PullWindows, latency: string -> int, list: seq<string>, x: string) returns (r: seq<string>)
    requires Arranged(windows, latency, list)
    ensures r == Inserted(windows, latency, list, x)
    ensures Arranged(windows, latency, r)
    ensures forall p :: p in r <==> p in list || p == x
  {
    hide Before, Clearly, Trap, Arranged;
    var k := |list|;
    assert list[..k] == list;
    while k > 0 && Before(windows, latency, x, list[k - 1])
      invariant 0 <= k <= |list|
      invariant forall i :: k <= i < |list| ==> Before(windows, latency, x, list[i])
      invariant Inserted(windows, latency, list, x) == Inserted(windows, latency, list[..k], x) + list[k..]
    {
      assert list[..k][..k - 1] == list[..k - 1] && [list[k - 1]] + list[k..] == list[k - 1..];
      k := k - 1;
    }
    r := list[..k] + [x] + list[k..];
    InsertionArranges(windows, latency, list, x, k);
  }

  lemma InsertionArranges(windows: PullWindows, latency: string -> int, list: seq<string>, x: string, k: nat)
    requires Arranged(windows, latency, list) && k <= |list|
    requires forall i :: k <= i < |list| ==> Before(windows, latency, x, list[i])
    requires k > 0 ==> !Before(windows, latency, x, list[k - 1])
    ensures Arranged(windows, latency, list[..k] + [x] + list[k..])
  {
    hide Before, Clearly, Trap;
    var r := list[..k] + [x] + list[k..];
    forall i | 0 <= i < k ensures !Clearly(windows, x, list[i]) {
      BeforeIsTotal(windows, latency, x, list[k - 1]);
      if i < k - 1 {
        NotClearly(windows, x, list[k - 1], list[i]);
      }
    }
    forall i | k <= i < |list| ensures !Clearly(windows, list[i], x) {
      BeforeIsTotal(windows, latency, list[i], x);
    }
    if Trapless(windows, latency, r) {
      forall p | p in list + [x] ensures p in r {
      }
      forall i | 0 <= i < k ensures list[i] == x || Before(windows, latency, list[i], x) {
        BeforeIsTotal(windows, latency, x, list[k - 1]);
        if list[i] != list[k - 1] && list[k - 1] != x {
          Leads(windows, latency, list[i], list[k - 1], x);
        }
      }
    }
  }

  /** In a circle the roster decides: whichever of the three it names first comes out first. */
  lemma CircleFollowsRoster(windows: PullWindows, latency: string -> int, a: string, b: string, c: string)
    requires Before(windows, latency, a, b) && Before(windows, latency, b, c) && Before(windows, latency, c, a)
    ensures Inserted(windows, latency, Inserted(windows, latency, [a], b), c) == [a, b, c]
    ensures Inserted(windows, latency, Inserted(windows, latency, [b], c), a) == [b, c, a]
    ensures Inserted(windows, latency, Inserted(windows, latency, [c], a), b) == [c, a, b]
  {
    hide Before;
    BeforeIsTotal(windows, latency, a, b);
    BeforeIsTotal(windows, latency, b, c);
    BeforeIsTotal(windows, latency, c, a);
  }

  /** The whole insertion sort. */
  function Sorted(windows: PullWindows, latency: string -> int, list: seq<string>): seq<string> {
    if list == [] then []
    else Inserted(windows, latency, Sorted(windows, latency, list[..|list| - 1]), list[|list| - 1])
  }

  /** An insertion puts the new element before everything behind it and not before its
      neighbour in front; the others keep their order. */
  lemma {:induction false} InsertionPoint(windows: PullWindows, latency: string -> int, list: seq<string>, x: string) returns (k: nat)
    ensures k <= |list| && Inserted(windows, latency, list, x) == list[..k] + [x] + list[k..]
    ensures k > 0 ==> !Before(windows, latency, x, list[k - 1])
    ensures forall i :: k <= i < |list| ==> Before(windows, latency, x, list[i])
  {
    hide Before;
    var n := |list|;
    if n > 0 && Before(windows, latency, x, list[n - 1]) {
      k := InsertionPoint(windows, latency, list[..n - 1], x);
      assert list[..n - 1][..k] == list[..k] && list[..n - 1][k..] + [list[n - 1]] == list[k..];
    } else {
      k := n;
      assert list[..n] == list && list[n..] == [];
    }
  }

  lemma {:induction false} SortedMembers(windows: PullWindows, latency: string -> int, list: seq<string>)
    ensures |Sorted(windows, latency, list)| == |list|
    ensures forall p :: p in Sorted(windows, latency, list) <==> p in list
  {
    hide Inserted, Before;
    if list != [] {
      var n := |list| - 1;
      SortedMembers(windows, latency, list[..n]);
      var k := InsertionPoint(windows, latency, Sorted(windows, latency, list[..n]), list[n]);
      var before := Sorted(windows, latency, list[..n]);
      assert before == before[..k] + before[k..];
      assert list == list[..n] + [list[n]];
    }
  }

  /** A node that compares before all others comes out first, wherever it stands. */
  lemma {:induction false} LeastComesFirst(windows: PullWindows, latency: string -> int, list: seq<string>, x: string)
    requires Distinct(list) && x in list && forall p :: p in list && p != x ==> Before(windows, latency, x, p)
    ensures Sorted(windows, latency, list) != [] && Sorted(windows, latency, list)[0] == x
  {
    hide Before, Inserted;
    var n := |list| - 1;
    var before, z := Sorted(windows, latency, list[..n]), list[n];
    SortedMembers(windows, latency, list[..n]);
    assert list == list[..n] + [z];
    var k := InsertionPoint(windows, latency, before, z);
    assert forall i :: 0 <= i < |before| ==> before[i] in before && before[i] in list[..n];
    if z != x {
      LeastComesFirst(windows, latency, list[..n], x);
      BeforeIsTotal(windows, latency, x, z);
    }
  }

  /** A node that does not come out first of some does not come out first of more. */
  lemma {:induction false} StaysBehind(windows: PullWindows, latency: string -> int, some: seq<string>, more: seq<string>, h: string)
    requires some != [] && h !in more && |Sorted(windows, latency, some)| > 0 && Sorted(windows, latency, some)[0] != h
    ensures |Sorted(windows, latency, some + more)| > 0 && Sorted(windows, latency, some + more)[0] != h
  {
    hide Before, Inserted;
    if more == [] {
      assert some + more == some;
    } else {
      var n := |more| - 1;
      StaysBehind(windows, latency, some, more[..n], h);
      assert (some + more)[..|some + more| - 1] == some + more[..n] && (some + more)[|some + more| - 1] == more[n];
      var before := Sorted(windows, latency, some + more[..n]);
      var k := InsertionPoint(windows, latency, before, more[n]);
    }
  }

  /** The eligible nodes in the order of a roster. */
  function EligibleOf(policy: Policy, state: GroupState, windows: PullWindows, roster: seq<string>): seq<string> {
    if roster == [] then []
    else
      var n := |roster| - 1;
      EligibleOf(policy, state, windows, roster[..n]) + if SteadyEligible(policy, state, windows, roster[n]) then [roster[n]] else []
  }

  lemma {:induction false} EligibleMembers(policy: Policy, state: GroupState, windows: PullWindows, roster: seq<string>)
    ensures forall p :: p in EligibleOf(policy, state, windows, roster) <==> p in roster && SteadyEligible(policy, state, windows, p)
    ensures Distinct(roster) ==> Distinct(EligibleOf(policy, state, windows, roster))
  {
    hide SteadyEligible;
    if roster != [] {
      var n := |roster| - 1;
      EligibleMembers(policy, state, windows, roster[..n]);
      assert roster == roster[..n] + [roster[n]];
    }
  }

  lemma {:induction false} EligibleConcat(policy: Policy, state: GroupState, windows: PullWindows, a: seq<string>, b: seq<string>)
    ensures EligibleOf(policy, state, windows, a + b) == EligibleOf(policy, state, windows, a) + EligibleOf(policy, state, windows, b)
  {
    hide SteadyEligible;
    if b == [] {
      assert a + b == a;
    } else {
      var n := |b| - 1;
      EligibleConcat(policy, state, windows, a, b[..n]);
      assert (a + b)[..|a + b| - 1] == a + b[..n] && (a + b)[|a + b| - 1] == b[n];
    }
  }

  /** The node that the policy switches to when the group lists its nodes in this order. */
  function FirstChoice(policy: Policy, state: GroupState, windows: PullWindows, latency: string -> int, roster: seq<string>): Option<string> {
    var list := Sorted(windows, latency, EligibleOf(policy, state, windows, roster));
    if list == [] then None else Some(list[0])
  }

  ghost predicate Least(policy: Policy, state: GroupState, windows: PullWindows, latency: string -> int, x: string) {
    && SteadyEligible(policy, state, windows, x)
    && forall p :: SteadyEligible(policy, state, windows, p) && p != x ==> Before(windows, latency, x, p)
  }

  lemma LeastIsChosen(policy: Policy, state: GroupState, windows: PullWindows, latency: string -> int, roster: seq<string>, x: string)
    requires Distinct(roster) && multiset(roster) == multiset(state.proxies) && Least(policy, state, windows, latency, x)
    ensures FirstChoice(policy, state, windows, latency, roster) == Some(x)
  {
    hide SteadyEligible, Before;
    EligibleMembers(policy, state, windows, roster);
    EligibleIsMember(policy, state, windows, x);
    assert x in multiset(state.proxies);
    LeastComesFirst(windows, latency, EligibleOf(policy, state, windows, roster), x);
  }

  /** Taking out the first of equal elements. */
  function Minus(s: seq<string>, x: string): seq<string> {
    if s == [] then [] else if s[|s| - 1] == x then s[..|s| - 1] else Minus(s[..|s| - 1], x) + [s[|s| - 1]]
  }

  lemma {:induction false} MinusCounts(s: seq<string>, x: string)
    requires x in s
    ensures multiset([x] + Minus(s, x)) == multiset(s)
  {
    var n := |s| - 1;
    assert s == s[..n] + [s[n]];
    if s[n] != x {
      MinusCounts(s[..n], x);
      assert [x] + Minus(s, x) == ([x] + Minus(s[..n], x)) + [s[n]];
    }
  }

  /** A roster in front of which two given nodes stand. */
  lemma InFront(s: seq<string>, h: string, y: string) returns (roster: seq<string>, rest: seq<string>)
    requires h in s && y in s && h != y
    ensures roster == [h, y] + rest && multiset(roster) == multiset(s)
  {
    MinusCounts(s, h);
    assert y in multiset(s) && y in multiset([h] + Minus(s, h));
    assert y in [h] + Minus(s, h);
    MinusCounts(Minus(s, h), y);
    rest := Minus(Minus(s, h), y);
    roster := [h, y] + rest;
    assert roster == [h] + ([y] + rest);
  }

  /** Exactly when the order of the roster does not matter: one eligible node compares before
      all others. Otherwise another order of the same roster leads to another choice. */
  lemma RosterIsFreeIff(policy: Policy, state: GroupState, windows: PullWindows, latency: string -> int)
    requires Distinct(state.proxies) && FirstChoice(policy, state, windows, latency, state.proxies).Some?
    ensures (forall roster :: multiset(roster) == multiset(state.proxies) ==>
               FirstChoice(policy, state, windows, latency, roster) == FirstChoice(policy, state, windows, latency, state.proxies)) <==>
            exists x :: Least(policy, state, windows, latency, x)
  {
    hide SteadyEligible, Before, FirstChoice, Least;
    if x :| Least(policy, state, windows, latency, x) {
      LeastIsChosen(policy, state, windows, latency, state.proxies, x);
      forall roster | multiset(roster) == multiset(state.proxies)
        ensures FirstChoice(policy, state, windows, latency, roster) == FirstChoice(policy, state, windows, latency, state.proxies)
      {
        SameDistinct(state.proxies, roster);
        LeastIsChosen(policy, state, windows, latency, roster, x);
      }
    } else {
      var roster := OtherRoster(policy, state, windows, latency);
    }
  }

  lemma OtherRoster(policy: Policy, state: GroupState, windows: PullWindows, latency: string -> int) returns (roster: seq<string>)
    requires Distinct(state.proxies) && FirstChoice(policy, state, windows, latency, state.proxies).Some?
    requires !exists x :: Least(policy, state, windows, latency, x)
    ensures multiset(roster) == multiset(state.proxies)
    ensures FirstChoice(policy, state, windows, latency, roster) != FirstChoice(policy, state, windows, latency, state.proxies)
  {
    hide SteadyEligible, Before;
    var h := FirstChoice(policy, state, windows, latency, state.proxies).value;
    EligibleMembers(policy, state, windows, state.proxies);
    SortedMembers(windows, latency, EligibleOf(policy, state, windows, state.proxies));
    assert h in Sorted(windows, latency, EligibleOf(policy, state, windows, state.proxies));
    assert !Least(policy, state, windows, latency, h);
    var y :| SteadyEligible(policy, state, windows, y) && y != h && !Before(windows, latency, h, y);
    EligibleIsMember(policy, state, windows, y);
    var rest;
    roster, rest := InFront(state.proxies, h, y);
    SameDistinct(state.proxies, roster);
    YieldsTo(policy, state, windows, latency, h, y, rest);
  }

  lemma YieldsTo(policy: Policy, state: GroupState, windows: PullWindows, latency: string -> int, h: string, y: string, rest: seq<string>)
    requires SteadyEligible(policy, state, windows, h) && SteadyEligible(policy, state, windows, y) && h != y && !Before(windows, latency, h, y)
    requires Distinct([h, y] + rest)
    ensures FirstChoice(policy, state, windows, latency, [h, y] + rest) != Some(h)
  {
    hide SteadyEligible, Before, Sorted, EligibleOf;
    EligibleConcat(policy, state, windows, [h, y], rest);
    EligiblePair(policy, state, windows, h, y);
    EligibleMembers(policy, state, windows, rest);
    NotAgain(h, y, rest);
    SortPair(windows, latency, h, y);
    StaysBehind(windows, latency, [h, y], EligibleOf(policy, state, windows, rest), h);
  }

  lemma NotAgain(h: string, y: string, rest: seq<string>)
    requires Distinct([h, y] + rest)
    ensures h !in rest
  {
    forall i | 0 <= i < |rest| ensures rest[i] != h {
      assert ([h, y] + rest)[0] == h && ([h, y] + rest)[i + 2] == rest[i];
    }
  }

  lemma EligiblePair(policy: Policy, state: GroupState, windows: PullWindows, h: string, y: string)
    requires SteadyEligible(policy, state, windows, h) && SteadyEligible(policy, state, windows, y)
    ensures EligibleOf(policy, state, windows, [h, y]) == [h, y]
  {
    hide SteadyEligible;
    assert [h, y][..1] == [h] && [h][..0] == [];
    assert EligibleOf(policy, state, windows, [h]) == [h];
  }

  lemma SortPair(windows: PullWindows, latency: string -> int, h: string, y: string)
    requires h != y && !Before(windows, latency, h, y)
    ensures Sorted(windows, latency, [h, y]) == [y, h]
  {
    hide Before;
    BeforeIsTotal(windows, latency, h, y);
    assert [h, y][..1] == [h] && [h][..0] == [];
    assert Sorted(windows, latency, [h]) == [h];
    assert Inserted(windows, latency, [], y) == [y];
  }

  /** Whether more than one node was pulled and every newest pull broke. */
  method CheckNonePasses(state: GroupState, windows: PullWindows) returns (none: bool)
    ensures none <==> NonePasses(state, windows)
  {
    var allFailed, measured := true, 0;
    ghost var first := -1;
    for k := 0 to |state.proxies|
      invariant allFailed <==> forall i :: 0 <= i < k ==> !NewestCompleted(windows(state.proxies[i]))
      invariant measured == 0 ==> forall i :: 0 <= i < k ==> windows(state.proxies[i]) == []
      invariant measured > 0 ==> 0 <= first < k && windows(state.proxies[first]) != []
      invariant measured == 1 ==> forall i :: 0 <= i < k && i != first ==> windows(state.proxies[i]) == []
      invariant measured > 1 ==> exists i, j :: 0 <= i < j < k && windows(state.proxies[i]) != [] && windows(state.proxies[j]) != []
    {
      var window := windows(state.proxies[k]);
      if |window| == 0 {
        continue;
      }
      measured := measured + 1;
      if measured == 1 {
        first := k;
      }
      if window[|window| - 1].completed {
        allFailed := false;
      }
    }
    none := measured > 1 && allFailed;
  }

  /** The eligible candidates in the order of the sort. */
  method SortEligible(policy: Policy, state: GroupState, windows: PullWindows, latency: string -> int) returns (list: seq<string>)
    ensures Arranged(windows, latency, list)
    ensures forall p :: p in list <==> SteadyEligible(policy, state, windows, p)
    ensures list == Sorted(windows, latency, EligibleOf(policy, state, windows, state.proxies))
  {
    hide SteadyEligible, Arranged, Inserted, Sorted;
    list := [];
    SortedNone(windows, latency);
    EmptyIsArranged(windows, latency);
    for k := 0 to |state.proxies|
      invariant Arranged(windows, latency, list)
      invariant forall p :: p in list <==> SteadyEligible(policy, state, windows, p) && p in state.proxies[..k]
      invariant list == Sorted(windows, latency, EligibleOf(policy, state, windows, state.proxies[..k]))
    {
      assert state.proxies[..k + 1][..k] == state.proxies[..k];
      ghost var seen := EligibleOf(policy, state, windows, state.proxies[..k]);
      assert EligibleOf(policy, state, windows, state.proxies[..k + 1]) ==
             if SteadyEligible(policy, state, windows, state.proxies[k]) then seen + [state.proxies[k]] else seen;
      assert state.proxies[..k + 1] == state.proxies[..k] + [state.proxies[k]];
      if SteadyEligible(policy, state, windows, state.proxies[k]) {
        SortedStep(windows, latency, seen, state.proxies[k]);
        list := Insert(windows, latency, list, state.proxies[k]);
      }
    }
    assert state.proxies[..|state.proxies|] == state.proxies;
    forall p ensures p in list <==> SteadyEligible(policy, state, windows, p) {
      EligibleIsMember(policy, state, windows, p);
    }
  }

  lemma SortedNone(windows: PullWindows, latency: string -> int)
    ensures Sorted(windows, latency, []) == []
  {
  }

  lemma SortedStep(windows: PullWindows, latency: string -> int, list: seq<string>, x: string)
    ensures Sorted(windows, latency, list + [x]) == Inserted(windows, latency, Sorted(windows, latency, list), x)
  {
    assert (list + [x])[..|list|] == list;
  }

  lemma EmptyIsArranged(windows: PullWindows, latency: string -> int)
    ensures Arranged(windows, latency, [])
  {
  }

  lemma EligibleIsMember(policy: Policy, state: GroupState, windows: PullWindows, p: string)
    ensures SteadyEligible(policy, state, windows, p) ==> p in state.proxies
  {
  }

  method DecideSteady(policy: Policy, state: GroupState, streams: map<string, seq<Pull>>, latency: string -> int, now: int) returns (d: Decision)
    requires ValidPolicy(policy)
    ensures SteadyDecides(policy, state, PullWindowsOf(policy, state, streams), latency, now, d)
    ensures d.Switch? ==> FirstChoice(policy, state, PullWindowsOf(policy, state, streams), latency, state.proxies) == Some(d.to)
  {
    hide Broken, Middle, Rates, Less, RecentPulls, Sorted, EligibleOf, Before, Clearly, Trap, SteadyEligible, Arranged, NoCircle;
    var guard := Guard(policy, state, now);
    if guard.Some? {
      return Stay(guard.value);
    }
    if state.selected == "" || |state.proxies| == 0 {
      return Stay(InsufficientSamples);
    }
    var windows := PullWindowsOf(policy, state, streams);
    var none := CheckNonePasses(state, windows);
    if none {
      return Stay(AllCandidatesFailed);
    }
    var window := windows(state.selected);
    if Broken(window) < policy.maxFailures {
      return Stay(if |window| > 0 then SelectedStreamsHealthy else InsufficientSamples);
    }
    var eligible := SortEligible(policy, state, windows, latency);
    if |eligible| == 0 {
      return Stay(NoBetterCandidate);
    }
    d := Switch(eligible[0], false, SteadierStream);
    LeastIsFirst(policy, state, windows, latency, eligible);
  }

  /** Nodes outside the roster are not looked at. */
  function PullWindowsOf(policy: Policy, state: GroupState, streams: map<string, seq<Pull>>): PullWindows {
    proxy => RecentPulls(if proxy in state.proxies && proxy in streams then streams[proxy] else [], policy.windowSize)
  }

  lemma LeastIsFirst(policy: Policy, state: GroupState, windows: PullWindows, latency: string -> int, list: seq<string>)
    requires list != [] && Arranged(windows, latency, list)
    requires forall p :: p in list <==> SteadyEligible(policy, state, windows, p)
    ensures SteadyEligible(policy, state, windows, list[0])
    ensures forall p :: SteadyEligible(policy, state, windows, p) ==> !Clearly(windows, p, list[0])
    ensures NoCircle(policy, state, windows, latency) ==> forall p :: SteadyEligible(policy, state, windows, p) && p != list[0] ==> Before(windows, latency, list[0], p)
  {
    hide SteadyEligible, Clearly, Before, Trap;
    assert list[0] in list;
    forall p | SteadyEligible(policy, state, windows, p)
      ensures !Clearly(windows, p, list[0])
      ensures NoCircle(policy, state, windows, latency) && p != list[0] ==> Before(windows, latency, list[0], p)
    {
      var i :| 0 <= i < |list| && list[i] == p;
      NotClearerThanItself(windows, p);
      assert NoCircle(policy, state, windows, latency) ==> Trapless(windows, latency, list);
    }
  }

  lemma NotClearerThanItself(windows: PullWindows, p: string)
    ensures !Clearly(windows, p, p)
  {
  }

  /** Without a circle among the eligible candidates the choice does not depend on any order. */
  lemma SteadyIsUnique(policy: Policy, state: GroupState, windows: PullWindows, latency: string -> int, now: int, d: Decision, d': Decision)
    requires SteadyDecides(policy, state, windows, latency, now, d) && SteadyDecides(policy, state, windows, latency, now, d')
    requires NoCircle(policy, state, windows, latency)
    ensures d == d'
  {
    hide Broken, Middle, Rates;
    if d.Switch? && d'.Switch? && d.to != d'.to {
      LessIsTotal(d.to, d'.to);
    }
  }

  ghost predicate SteadyLeads(policy: Policy, state: GroupState, windows: PullWindows, latency: string -> int, from: string, to: string) {
    exists now, d :: SteadyDecides(policy, state.(selected := from), windows, latency, now, d) && d.Switch? && d.to == to
  }

  /** On frozen measurements each switch strictly lowers the number of broken downloads,
      so a chain is no longer than that number at its start. */
  lemma {:induction false} SteadyChainDescends(policy: Policy, state: GroupState, windows: PullWindows, latency: string -> int, nodes: seq<string>)
    requires nodes != [] && forall i :: 0 <= i < |nodes| - 1 ==> SteadyLeads(policy, state, windows, latency, nodes[i], nodes[i + 1])
    ensures Broken(windows(nodes[|nodes| - 1])) + (|nodes| - 1) <= Broken(windows(nodes[0]))
  {
    hide Broken, Middle, Rates;
    if |nodes| > 1 {
      var n := |nodes|;
      SteadyChainDescends(policy, state, windows, latency, nodes[..n - 1]);
      assert SteadyLeads(policy, state, windows, latency, nodes[n - 2], nodes[n - 1]);
      var now, d :| SteadyDecides(policy, state.(selected := nodes[n - 2]), windows, latency, now, d) && d.Switch? && d.to == nodes[n - 1];
      assert SteadyEligible(policy, state.(selected := nodes[n - 2]), windows, nodes[n - 1]);
    }
  }

  /** A circle: three nodes with equal downloads, of which the middle one has no latency. */
  lemma UnmeasuredMakesACircle(windows: PullWindows)
    requires windows("a") == windows("b") == windows("c")
    ensures Trap(windows, p => if p == "a" then 2 else if p == "c" then 1 else 0, "a", "b", "c")
  {
  }
}
