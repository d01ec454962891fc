/** Switch decisions for the failover and lowest-latency policies. */
module MonitorPolicy {
  import opened Common
  import opened MonitorStats

  datatype SwitchPolicy = Failover | LowestLatency | SteadyStream

  datatype Policy = Policy(
    testURL: string, switchPolicy: SwitchPolicy, threshold: int, windowSize: int, minCandidateSamples: int,
    consecutiveBad: int, maxFailures: int, minImprovement: int, cooldown: int)

  const WINDOW_MIN := 2

  predicate ValidPolicy(p: Policy) {
    && p.threshold > 0 && p.windowSize >= WINDOW_MIN
    && 1 <= p.consecutiveBad <= p.windowSize
    && WINDOW_MIN <= p.minCandidateSamples <= p.windowSize
    && 1 <= p.maxFailures <= p.windowSize
    && p.minImprovement > 0 && p.cooldown >= 0
  }

  datatype GroupState = GroupState(
    group: string, selected: string, proxies: seq<string>, probeEnabled: bool,
    automationEnabled: bool, manualOverride: bool, switchInFlight: bool, lastSwitchAt: Option<int>)

  datatype Reason =
    | ManualOverride | AutomationDisabled | SwitchInFlight | CooldownActive | AllCandidatesFailed
    | InsufficientSamples | SelectedHealthy | NoBetterCandidate | SwitchCandidate
    | SteadierStream | SelectedStreamsHealthy

  datatype Decision = Stay(reason: Reason) | Switch(to: string, lowerLatency: bool, reason: Reason)

  /** Why no switch may happen now, if so. */
  function Guard(policy: Policy, state: GroupState, now: int): Option<Reason> {
    if state.manualOverride then Some(ManualOverride)
    else if !state.automationEnabled then Some(AutomationDisabled)
    else if state.switchInFlight then Some(SwitchInFlight)
    else if state.lastSwitchAt.Some? && (state.lastSwitchAt.value > now || now - state.lastSwitchAt.value < policy.cooldown) then Some(CooldownActive)
    else None
  }

  // Names are compared byte by byte.

  predicate Less(a: string, b: string) {
    b != [] && (a == [] || a[0] < b[0] || (a[0] == b[0] && Less(a[1..], b[1..])))
  }

  lemma {:induction false} LessIsTotal(a: string, b: string)
    ensures !(Less(a, b) && Less(b, a))
    ensures Less(a, b) || Less(b, a) || a == b
    ensures a == b ==> !Less(a, b)
    decreases a
  {
    if a != [] && b != [] && a[0] == b[0] {
      LessIsTotal(a[1..], b[1..]);
      assert a == [a[0]] + a[1..] && b == [b[0]] + b[1..];
    }
  }

  lemma {:induction false} LessIsTransitive(a: string, b: string, c: string)
    requires Less(a, b) && Less(b, c)
    ensures Less(a, c)
    decreases a
  {
    if a != [] && a[0] == b[0] == c[0] {
      LessIsTransitive(a[1..], b[1..], c[1..]);
    }
  }

  ghost predicate DiffersAt(a: string, b: string, k: nat) {
    k < |a| && k < |b| && a[..k] == b[..k] && a[k] < b[k]
  }

  lemma DiffersLater(a: string, b: string, k: nat)
    requires a != [] && b != [] && a[0] == b[0]
    ensures DiffersAt(a, b, k + 1) <==> DiffersAt(a[1..], b[1..], k)
    ensures !DiffersAt(a, b, 0)
  {
    if k + 1 < |a| && k + 1 < |b| {
      assert a[..k + 1] == [a[0]] + a[1..][..k] && b[..k + 1] == [b[0]] + b[1..][..k];
      assert a[1..][..k] == a[..k + 1][1..] && b[1..][..k] == b[..k + 1][1..];
    }
  }

  /** The first difference decides, and a proper prefix comes first. */
  lemma {:induction false} LessIsLexical(a: string, b: string)
    ensures Less(a, b) <==> a < b || exists k: nat :: DiffersAt(a, b, k)
    decreases a
  {
    if a != [] && b != [] && a[0] == b[0] {
      hide DiffersAt;
      LessIsLexical(a[1..], b[1..]);
      assert a == [a[0]] + a[1..] && b == [b[0]] + b[1..];
      assert a < b <==> a[1..] < b[1..];
      if k: nat :| DiffersAt(a, b, k) {
        DiffersLater(a, b, if k == 0 then 0 else k - 1);
        assert DiffersAt(a[1..], b[1..], k - 1);
      }
      if k: nat :| DiffersAt(a[1..], b[1..], k) {
        DiffersLater(a, b, k);
      }
    } else if a != [] && b != [] {
      assert DiffersAt(a, b, 0) <==> a[0] < b[0];
      if k: nat :| DiffersAt(a, b, k) {
        assert k > 0 ==> a[..k][0] == b[..k][0];
      }
    }
  }

  /** Candidates rank by failed probes, then median, then jitter, then name. */
  predicate Steadier(a: Stability, aName: string, b: Stability, bName: string) {
    if a.failures != b.failures then a.failures < b.failures
    else if a.median != b.median then a.median < b.median
    else if a.jitter != b.jitter then a.jitter < b.jitter
    else Less(aName, bName)
  }

  /** The ranking is a strict total order on differently named candidates. */
  lemma SteadierIsTotal(a: Stability, aName: string, b: Stability, bName: string)
    ensures !(Steadier(a, aName, b, bName) && Steadier(b, bName, a, aName))
    ensures aName != bName ==> Steadier(a, aName, b, bName) || Steadier(b, bName, a, aName)
  {
    LessIsTotal(aName, bName);
  }

  lemma SteadierIsTransitive(a: Stability, aName: string, b: Stability, bName: string, c: Stability, cName: string)
    requires Steadier(a, aName, b, bName) && Steadier(b, bName, c, cName)
    ensures Steadier(a, aName, c, cName)
  {
    if Less(aName, bName) && Less(bName, cName) {
      LessIsTransitive(aName, bName, cName);
    }
  }

  /** The samples that count for one proxy of a group. */
  predicate Counts(policy: Policy, group: string, s: Sample) {
    s.group == group && s.proxy != "" && (policy.testURL == "" || s.url == policy.testURL)
  }

  function SamplesOf(policy: Policy, group: string, samples: seq<Sample>, proxy: string): seq<Sample> {
    if samples == [] then []
    else
      var last := samples[|samples| - 1];
      SamplesOf(policy, group, samples[..|samples| - 1], proxy) + if Counts(policy, group, last) && last.proxy == proxy then [last] else []
  }

  lemma OneMore(samples: seq<Sample>, last: Sample, s: Sample)
    ensures multiset(samples + [last])[s] == multiset(samples)[s] + if last == s then 1 else 0
    ensures samples + [] == samples
  {
  }

  lemma {:induction false} CountsAreExact(policy: Policy, group: string, samples: seq<Sample>, proxy: string, s: Sample)
    ensures multiset(SamplesOf(policy, group, samples, proxy))[s] == if Counts(policy, group, s) && s.proxy == proxy then multiset(samples)[s] else 0
  {
    hide Counts;
    if samples != [] {
      var n := |samples| - 1;
      CountsAreExact(policy, group, samples[..n], proxy, s);
      assert samples == samples[..n] + [samples[n]];
      OneMore(samples[..n], samples[n], s);
      OneMore(SamplesOf(policy, group, samples[..n], proxy), samples[n], s);
    }
  }

  /** Exactly the samples of this proxy in this group, for the configured URL if there is one. */
  lemma SamplesAreExact(policy: Policy, group: string, samples: seq<Sample>, proxy: string, s: Sample)
    ensures multiset(SamplesOf(policy, group, samples, proxy))[s] ==
      if s.group == group && s.proxy == proxy != "" && (policy.testURL == "" || s.url == policy.testURL) then multiset(samples)[s] else 0
  {
    CountsAreExact(policy, group, samples, proxy, s);
  }

  type Windows = string -> seq<Sample>

  /** Each proxy's newest samples. */
  function WindowsOf(policy: Policy, group: string, samples: seq<Sample>): Windows {
    proxy => Recent(SamplesOf(policy, group, samples, proxy), policy.windowSize)
  }

  predicate NewestFailed(window: seq<Sample>) {
    window != [] && Failed(window[|window| - 1])
  }

  predicate NewestSucceeded(window: seq<Sample>) {
    window != [] && !Failed(window[|window| - 1])
  }

  /** What the selected node is measured by, if the policy may compare at all. */
  datatype Baseline = Wait(reason: Reason) | Compare(window: seq<Sample>, unstable: bool)

  ghost predicate BadTail(policy: Policy, window: seq<Sample>) {
    |window| >= policy.consecutiveBad && policy.consecutiveBad >= 0
    && forall i :: |window| - policy.consecutiveBad <= i < |window| ==> Unhealthy(window[i], policy.threshold)
  }

  ghost function Assess(policy: Policy, window: seq<Sample>): Baseline {
    var failures := Stats(window).failures;
    if policy.switchPolicy == LowestLatency then
      if |window| < policy.minCandidateSamples then Wait(InsufficientSamples) else Compare(window, false)
    else if |window| < policy.consecutiveBad && failures < policy.maxFailures then Wait(InsufficientSamples)
    else if BadTail(policy, window) then Compare(window[|window| - policy.consecutiveBad..], false)
    else if failures >= policy.maxFailures then Compare(window, true)
    else Wait(SelectedHealthy)
  }

  predicate Offline(window: seq<Sample>) {
    Stats(window).failures == Stats(window).samples
  }

  /** Whether a candidate may replace a node measured by `baseline`. */
  predicate Acceptable(policy: Policy, selected: seq<Sample>, baseline: seq<Sample>, unstable: bool, candidate: seq<Sample>) {
    && NewestSucceeded(candidate)
    && Stats(candidate).samples - Stats(candidate).failures >= policy.minCandidateSamples
    && (if Offline(baseline) then true
        else if unstable then Stats(candidate).failures < Stats(selected).failures && Stats(candidate).median <= policy.threshold
        else Stats(candidate).failures < policy.maxFailures && Stats(baseline).median - Stats(candidate).median >= policy.minImprovement)
  }

  predicate Eligible(policy: Policy, state: GroupState, windows: Windows, baseline: seq<Sample>, unstable: bool, proxy: string) {
    proxy in state.proxies && proxy != state.selected && Acceptable(policy, windows(state.selected), baseline, unstable, windows(proxy))
  }

  /** The least eligible candidate in the ranking. */
  ghost predicate Winner(policy: Policy, state: GroupState, windows: Windows, baseline: seq<Sample>, unstable: bool, proxy: string) {
    && Eligible(policy, state, windows, baseline, unstable, proxy)
    && forall other :: Eligible(policy, state, windows, baseline, unstable, other) && other != proxy ==>
         Steadier(Stats(windows(proxy)), proxy, Stats(windows(other)), other)
  }

  /** No eligible candidate has fewer failures than the winner; among equals none has a smaller
      median, then a smaller jitter, then an earlier name. */
  lemma WinnerIsBest(policy: Policy, state: GroupState, windows: Windows, baseline: seq<Sample>, unstable: bool, proxy: string, other: string)
    requires Winner(policy, state, windows, baseline, unstable, proxy) && Eligible(policy, state, windows, baseline, unstable, other)
    ensures
      var a, b := Stats(windows(proxy)), Stats(windows(other));
      && a.failures <= b.failures
      && (a.failures == b.failures ==> a.median <= b.median)
      && (a.failures == b.failures && a.median == b.median ==> a.jitter <= b.jitter)
      && (a.failures == b.failures && a.median == b.median && a.jitter == b.jitter ==> proxy == other || Less(proxy, other))
  {
    hide Stats;
  }

  /** Who may replace the selected node, from the samples: another member whose newest probe
      succeeded, with enough successes; and unless every probe of the baseline failed, one with
      fewer failures and a good median, or a steady one that is faster by the minimum. */
  lemma EligibleIff(policy: Policy, state: GroupState, windows: Windows, baseline: seq<Sample>, unstable: bool, proxy: string)
    ensures Eligible(policy, state, windows, baseline, unstable, proxy) <==>
      var mine := windows(proxy);
      && proxy in state.proxies && proxy != state.selected
      && mine != [] && !Failed(mine[|mine| - 1]) && |mine| - Failures(mine) >= policy.minCandidateSamples
      && (|| Failures(baseline) == |baseline|
          || (unstable && Failures(mine) < Failures(windows(state.selected)) && Stats(mine).median <= policy.threshold)
          || (!unstable && Failures(mine) < policy.maxFailures && Stats(baseline).median - Stats(mine).median >= policy.minImprovement))
  {
    StatsCountFailures(windows(proxy));
    StatsCountFailures(baseline);
    StatsCountFailures(windows(state.selected));
    hide Stats;
  }

  ghost function Failures(window: seq<Sample>): nat {
    |set i | 0 <= i < |window| && Failed(window[i])|
  }

  ghost predicate AllFailed(state: GroupState, windows: Windows) {
    state.proxies != [] && forall p :: p in state.proxies ==> NewestFailed(windows(p))
  }

  /** What a decision has to be, whatever order anything comes in. */
  ghost predicate Decides(policy: Policy, state: GroupState, windows: Windows, now: int, d: Decision) {
    if Guard(policy, state, now).Some? then d == Stay(Guard(policy, state, now).value)
    else if state.selected == "" || state.proxies == [] then d == Stay(InsufficientSamples)
    else if AllFailed(state, windows) then d == Stay(AllCandidatesFailed)
    else match Assess(policy, windows(state.selected))
      case Wait(reason) => d == Stay(reason)
      case Compare(baseline, unstable) =>
        match d
        case Stay(reason) => reason == NoBetterCandidate && forall p :: !Eligible(policy, state, windows, baseline, unstable, p)
        case Switch(to, lower, reason) =>
          && Winner(policy, state, windows, baseline, unstable, to) && reason == SwitchCandidate
          && (lower <==> !Offline(baseline) && !unstable && NewestSucceeded(baseline)
                         && Stats(baseline).samples - Stats(baseline).failures >= policy.minCandidateSamples)
  }

  // ---------------------------------------------------------------------
  // The decision procedure.

  /** Sorts the samples of a group into one list per proxy. */
  method GroupByProxy(policy: Policy, group: string, samples: seq<Sample>) returns (byProxy: map<string, seq<Sample>>)
    ensures forall p :: (if p in byProxy then byProxy[p] else []) == SamplesOf(policy, group, samples, p)
  {
    byProxy := map[];
    for k := 0 to |samples|
      invariant forall p :: (if p in byProxy then byProxy[p] else []) == SamplesOf(policy, group, samples[..k], p)
    {
      assert samples[..k + 1][..k] == samples[..k];
      var s := samples[k];
      if !Counts(policy, group, s) {
        continue;
      }
      byProxy := byProxy[s.proxy := (if s.proxy in byProxy then byProxy[s.proxy] else []) + [s]];
    }
    assert samples[..|samples|] == samples;
  }

  /** Whether every candidate's newest probe failed. */
  method CheckAllFailed(state: GroupState, windows: Windows) returns (all: bool)
    ensures all <==> AllFailed(state, windows)
  {
    if |state.proxies| == 0 {
      return false;
    }
    for k := 0 to |state.proxies|
      invariant forall i :: 0 <= i < k ==> NewestFailed(windows(state.proxies[i]))
    {
      if !NewestFailed(windows(state.proxies[k])) {
        return false;
      }
    }
    all := true;
  }

  /** Counts unhealthy samples from the newest back, up to the number that matters. */
  method AssessSelected(policy: Policy, window: seq<Sample>) returns (b: Baseline)
    requires ValidPolicy(policy)
    ensures b == Assess(policy, window)
  {
    hide Stats;
    var failures := Stats(window).failures;
    if policy.switchPolicy == LowestLatency {
      return if |window| < policy.minCandidateSamples then Wait(InsufficientSamples) else Compare(window, false);
    }
    if |window| < policy.consecutiveBad && failures < policy.maxFailures {
      return Wait(InsufficientSamples);
    }
    var bad := 0;
    while bad < policy.consecutiveBad && bad < |window| && Unhealthy(window[|window| - 1 - bad], policy.threshold)
      invariant 0 <= bad <= policy.consecutiveBad && bad <= |window|
      invariant forall i :: |window| - bad <= i < |window| ==> Unhealthy(window[i], policy.threshold)
    {
      bad := bad + 1;
    }
    if bad >= policy.consecutiveBad {
      return Compare(window[|window| - bad..], false);
    }
    assert !BadTail(policy, window);
    return if failures >= policy.maxFailures then Compare(window, true) else Wait(SelectedHealthy);
  }

  /** The candidates seen so far have been compared: `best` is the least of them. */
  ghost predicate BestSoFar(policy: Policy, state: GroupState, windows: Windows, baseline: seq<Sample>, unstable: bool, k: nat, best: Option<string>)
    requires k <= |state.proxies|
  {
    match best
    case None => forall i :: 0 <= i < k ==> !Eligible(policy, state, windows, baseline, unstable, state.proxies[i])
    case Some(b) =>
      && Eligible(policy, state, windows, baseline, unstable, b)
      && forall i :: 0 <= i < k && Eligible(policy, state, windows, baseline, unstable, state.proxies[i]) && state.proxies[i] != b ==>
           Steadier(Stats(windows(b)), b, Stats(windows(state.proxies[i])), state.proxies[i])
  }

  lemma BetterOne(policy: Policy, state: GroupState, windows: Windows, baseline: seq<Sample>, unstable: bool, k: nat, best: Option<string>)
    requires k < |state.proxies| && BestSoFar(policy, state, windows, baseline, unstable, k, best)
    requires Eligible(policy, state, windows, baseline, unstable, state.proxies[k])
    ensures
      var p := state.proxies[k];
      BestSoFar(policy, state, windows, baseline, unstable, k + 1,
                if best == None || Steadier(Stats(windows(p)), p, Stats(windows(best.value)), best.value) then Some(p) else best)
  {
    hide Stats, Acceptable;
    var p := state.proxies[k];
    if best.Some? {
      var b := best.value;
      SteadierIsTotal(Stats(windows(p)), p, Stats(windows(b)), b);
      if Steadier(Stats(windows(p)), p, Stats(windows(b)), b) {
        forall i | 0 <= i < k && Eligible(policy, state, windows, baseline, unstable, state.proxies[i]) && state.proxies[i] != p
          ensures Steadier(Stats(windows(p)), p, Stats(windows(state.proxies[i])), state.proxies[i])
        {
          if state.proxies[i] != b {
            SteadierIsTransitive(Stats(windows(p)), p, Stats(windows(b)), b, Stats(windows(state.proxies[i])), state.proxies[i]);
          }
        }
      }
    }
  }

  /** Goes through the candidates once, keeping the best. */
  method PickBest(policy: Policy, state: GroupState, windows: Windows, baseline: seq<Sample>, unstable: bool) returns (best: Option<string>)
    ensures best == None ==> forall p :: !Eligible(policy, state, windows, baseline, unstable, p)
    ensures best.Some? ==> Winner(policy, state, windows, baseline, unstable, best.value)
  {
    hide Stats, Acceptable;
    best := None;
    for k := 0 to |state.proxies|
      invariant BestSoFar(policy, state, windows, baseline, unstable, k, best)
    {
      var p := state.proxies[k];
      if !Eligible(policy, state, windows, baseline, unstable, p) {
        continue;
      }
      BetterOne(policy, state, windows, baseline, unstable, k, best);
      if best == None || Steadier(Stats(windows(p)), p, Stats(windows(best.value)), best.value) {
        best := Some(p);
      }
    }
  }

  function Lookup(policy: Policy, byProxy: map<string, seq<Sample>>): Windows {
    proxy => Recent(if proxy in byProxy then byProxy[proxy] else [], policy.windowSize)
  }

  /** The same roster in any order, and the same windows however they were found. */
  ghost predicate SameView(s: GroupState, windows: Windows, t: GroupState, windows': Windows) {
    && t == s.(proxies := t.proxies)
    && (forall p :: p in s.proxies <==> p in t.proxies)
    && (forall p :: windows(p) == windows'(p))
  }

  lemma SameEligible(policy: Policy, s: GroupState, windows: Windows, t: GroupState, windows': Windows, baseline: seq<Sample>, unstable: bool)
    requires SameView(s, windows, t, windows')
    ensures forall p :: Eligible(policy, s, windows, baseline, unstable, p) <==> Eligible(policy, t, windows', baseline, unstable, p)
    ensures forall p :: Winner(policy, s, windows, baseline, unstable, p) <==> Winner(policy, t, windows', baseline, unstable, p)
  {
    hide Stats, Acceptable;
  }

  /** Decisions depend on the roster as a set and on the windows alone. */
  lemma SameWindows(policy: Policy, s: GroupState, windows: Windows, windows': Windows, t: GroupState, now: int)
    requires SameView(s, windows, t, windows')
    ensures forall d :: Decides(policy, s, windows, now, d) <==> Decides(policy, t, windows', now, d)
  {
    hide Stats, Acceptable, Winner, Eligible, Assess;
    assert (s.proxies == []) == (t.proxies == []) by {
      assert s.proxies != [] ==> s.proxies[0] in t.proxies;
      assert t.proxies != [] ==> t.proxies[0] in s.proxies;
    }
    assert AllFailed(s, windows) == AllFailed(t, windows');
    var a := Assess(policy, windows(s.selected));
    if a.Compare? {
      SameEligible(policy, s, windows, t, windows', a.window, a.unstable);
    }
  }

  /** There is exactly one right decision. */
  lemma DecisionIsUnique(policy: Policy, state: GroupState, windows: Windows, now: int, d: Decision, d': Decision)
    requires Decides(policy, state, windows, now, d) && Decides(policy, state, windows, now, d')
    ensures d == d'
  {
    hide Stats, Acceptable, Assess;
    if d.Switch? && d'.Switch? && d.to != d'.to {
      SteadierIsTotal(Stats(windows(d.to)), d.to, Stats(windows(d'.to)), d'.to);
    }
  }

  predicate SameMoment(policy: Policy, group: string, s: Sample, t: Sample) {
    Counts(policy, group, s) && Counts(policy, group, t) && s.proxy == t.proxy && s.finishedAt == t.finishedAt
  }

  ghost predicate DistinctTimes(policy: Policy, group: string, samples: seq<Sample>) {
    forall s, t :: s in samples && t in samples && SameMoment(policy, group, s, t) ==> s == t
  }

  lemma {:induction false} SamplesAreCounted(policy: Policy, group: string, samples: seq<Sample>, proxy: string)
    ensures forall s :: multiset(SamplesOf(policy, group, samples, proxy))[s] == (if Counts(policy, group, s) && s.proxy == proxy then multiset(samples)[s] else 0)
  {
    if samples != [] {
      SamplesAreCounted(policy, group, samples[..|samples| - 1], proxy);
      assert samples == samples[..|samples| - 1] + [samples[|samples| - 1]];
    }
  }

  lemma WindowsIgnoreOrder(policy: Policy, group: string, samples: seq<Sample>, other: seq<Sample>, proxy: string)
    requires multiset(samples) == multiset(other) && DistinctTimes(policy, group, samples)
    ensures WindowsOf(policy, group, samples)(proxy) == WindowsOf(policy, group, other)(proxy)
  {
    hide SamplesOf, SortBy;
    var a, b := SamplesOf(policy, group, samples, proxy), SamplesOf(policy, group, other, proxy);
    assert multiset(a) == multiset(b) by {
      SamplesAreCounted(policy, group, samples, proxy);
      SamplesAreCounted(policy, group, other, proxy);
    }
    DistinctMoments(policy, group, samples, proxy);
    SortIgnoresOrder(a, b, FinishTime());
  }

  lemma DistinctMoments(policy: Policy, group: string, samples: seq<Sample>, proxy: string)
    requires DistinctTimes(policy, group, samples)
    ensures DistinctKeys(SamplesOf(policy, group, samples, proxy), FinishTime())
  {
    hide SamplesOf;
    var a := SamplesOf(policy, group, samples, proxy);
    SamplesAreCounted(policy, group, samples, proxy);
    forall x, y | x in a && y in a && x.finishedAt == y.finishedAt ensures x == y {
      assert x in multiset(a) && y in multiset(a);
      assert x in multiset(samples) && y in multiset(samples);
      assert SameMoment(policy, group, x, y);
    }
  }

  /** The outcome depends neither on the order of the roster nor, with distinct finish
      times per proxy, on the order of the samples. */
  lemma DecideIgnoresOrder(policy: Policy, state: GroupState, proxies: seq<string>, samples: seq<Sample>, other: seq<Sample>, now: int, d: Decision, d': Decision)
    requires forall p :: p in proxies <==> p in state.proxies
    requires multiset(samples) == multiset(other) && DistinctTimes(policy, state.group, samples)
    requires Decides(policy, state, WindowsOf(policy, state.group, samples), now, d)
    requires Decides(policy, state.(proxies := proxies), WindowsOf(policy, state.group, other), now, d')
    ensures d == d'
  {
    hide Decides, SamplesOf, Recent;
    var w, w' := WindowsOf(policy, state.group, samples), WindowsOf(policy, state.group, other);
    forall p ensures w(p) == w'(p) {
      WindowsIgnoreOrder(policy, state.group, samples, other, p);
    }
    SameWindows(policy, state, w, w', state.(proxies := proxies), now);
    DecisionIsUnique(policy, state, w, now, d, d');
  }

  /** Every switch goes to another member whose newest probe succeeded and that has
      enough successes; `lowerLatency` means a real gain in the median. */
  lemma SwitchTarget(policy: Policy, state: GroupState, windows: Windows, now: int, d: Decision)
    requires Decides(policy, state, windows, now, d) && d.Switch?
    ensures d.to in state.proxies && d.to != state.selected && NewestSucceeded(windows(d.to))
    ensures Stats(windows(d.to)).samples - Stats(windows(d.to)).failures >= policy.minCandidateSamples
    ensures d.lowerLatency ==> Assess(policy, windows(state.selected)).Compare?
    ensures d.lowerLatency ==>
      var baseline := Assess(policy, windows(state.selected)).window;
      Stats(baseline).median - Stats(windows(d.to)).median >= policy.minImprovement && Stats(baseline).failures < Stats(baseline).samples
  {
    hide Stats;
    assert Winner(policy, state, windows, Assess(policy, windows(state.selected)).window, Assess(policy, windows(state.selected)).unstable, d.to);
  }

  // ---------------------------------------------------------------------
  // Chains of lowest-latency decisions on frozen measurements.

  /** A chain of switches: each node is what the decision at its predecessor chose. */
  ghost predicate Chain(policy: Policy, state: GroupState, windows: Windows, nodes: seq<string>) {
    forall i :: 0 <= i < |nodes| - 1 ==> Leads(policy, state, windows, nodes[i], nodes[i + 1])
  }

  ghost predicate Leads(policy: Policy, state: GroupState, windows: Windows, from: string, to: string) {
    exists now, d :: Decides(policy, state.(selected := from), windows, now, d) && d.Switch? && d.to == to
  }

  /** Under lowest latency one step gains at least the minimum, unless it leaves a node
      whose probes all failed; and it never enters such a node. */
  lemma StepGains(policy: Policy, state: GroupState, windows: Windows, from: string, to: string)
    requires ValidPolicy(policy) && policy.switchPolicy == LowestLatency && Leads(policy, state, windows, from, to)
    ensures !Offline(windows(to)) && Stats(windows(to)).median > 0
    ensures !Offline(windows(from)) ==> Stats(windows(from)).median - Stats(windows(to)).median >= policy.minImprovement
  {
    var now, d :| Decides(policy, state.(selected := from), windows, now, d) && d.Switch? && d.to == to;
    SwitchTarget(policy, state.(selected := from), windows, now, d);
    assert Winner(policy, state.(selected := from), windows, windows(from), false, to);
  }

  /** From any node on that is not fully failed, `k` switches gain `k` improvements. */
  lemma {:induction false} ChainGains(policy: Policy, state: GroupState, windows: Windows, nodes: seq<string>, i: nat, k: nat)
    requires ValidPolicy(policy) && policy.switchPolicy == LowestLatency && Chain(policy, state, windows, nodes)
    requires i + k < |nodes| && !Offline(windows(nodes[i]))
    ensures !Offline(windows(nodes[i + k]))
    ensures Stats(windows(nodes[i])).median - Stats(windows(nodes[i + k])).median >= k * policy.minImprovement
    decreases k
  {
    hide Stats, Leads, Offline, ValidPolicy;
    if k > 0 {
      ChainGains(policy, state, windows, nodes, i, k - 1);
      assert Leads(policy, state, windows, nodes[i + k - 1], nodes[i + k]);
      StepGains(policy, state, windows, nodes[i + k - 1], nodes[i + k]);
      assert k * policy.minImprovement == (k - 1) * policy.minImprovement + policy.minImprovement;
    }
  }

  /** No node is ever selected twice. */
  lemma ChainNeverReturns(policy: Policy, state: GroupState, windows: Windows, nodes: seq<string>, i: nat, j: nat)
    requires ValidPolicy(policy) && policy.switchPolicy == LowestLatency && Chain(policy, state, windows, nodes)
    requires i < j < |nodes|
    ensures nodes[i] != nodes[j]
  {
    hide Stats, Leads, Offline;
    assert Leads(policy, state, windows, nodes[j - 1], nodes[j]);
    StepGains(policy, state, windows, nodes[j - 1], nodes[j]);
    if !Offline(windows(nodes[i])) {
      ChainGains(policy, state, windows, nodes, i, j - i);
      assert (j - i) * policy.minImprovement >= policy.minImprovement by { AtLeastOne(j - i, policy.minImprovement); }
    }
  }

  lemma AtLeastOne(k: nat, unit: int)
    requires k > 0 && unit > 0
    ensures k * unit >= unit
  {
  }

  /** The chain is bounded: after at most one switch away from a fully failed node, the
      further switches are fewer than the median there divided by the improvement. */
  lemma ChainIsBounded(policy: Policy, state: GroupState, windows: Windows, nodes: seq<string>)
    requires ValidPolicy(policy) && policy.switchPolicy == LowestLatency && Chain(policy, state, windows, nodes) && |nodes| >= 2
    ensures (|nodes| - 2) * policy.minImprovement < Stats(windows(nodes[1])).median
    ensures !Offline(windows(nodes[0])) ==> (|nodes| - 1) * policy.minImprovement < Stats(windows(nodes[0])).median
  {
    hide Stats, Leads, Offline;
    var n := |nodes|;
    assert Leads(policy, state, windows, nodes[0], nodes[1]);
    StepGains(policy, state, windows, nodes[0], nodes[1]);
    assert Leads(policy, state, windows, nodes[n - 2], nodes[n - 1]);
    StepGains(policy, state, windows, nodes[n - 2], nodes[n - 1]);
    ChainGains(policy, state, windows, nodes, 1, n - 2);
    if !Offline(windows(nodes[0])) {
      ChainGains(policy, state, windows, nodes, 0, n - 1);
    }
  }

  method Decide(policy: Policy, state: GroupState, samples: seq<Sample>, now: int) returns (d: Decision)
    requires ValidPolicy(policy)
    ensures Decides(policy, state, WindowsOf(policy, state.group, samples), now, d)
  {
    hide Stats, Acceptable, SamplesOf, Recent;
    var byProxy := GroupByProxy(policy, state.group, samples);
    var windows := Lookup(policy, byProxy);
    SameWindows(policy, state, windows, WindowsOf(policy, state.group, samples), state, now);
    var guard := Guard(policy, state, now);
    if guard.Some? {
      return Stay(guard.value);
    }
    if state.selected == "" || |state.proxies| == 0 {
      return Stay(InsufficientSamples);
    }
    var failed := CheckAllFailed(state, windows);
    if failed {
      return Stay(AllCandidatesFailed);
    }
    var base := AssessSelected(policy, windows(state.selected));
    if base.Wait? {
      return Stay(base.reason);
    }
    var best := PickBest(policy, state, windows, base.window, base.unstable);
    if best == None {
      return Stay(NoBetterCandidate);
    }
    var stats := Stats(base.window);
    d := Switch(best.value,
                !Offline(base.window) && !base.unstable && stats.samples - stats.failures >= policy.minCandidateSamples && NewestSucceeded(base.window),
                SwitchCandidate);
  }
}
