/** Probe samples, the windows taken from them, and how a window is measured. */
module MonitorStats {
  import opened Common

  datatype ProbeOutcome = Success | Error | Timeout

  datatype Sample = Sample(group: string, proxy: string, url: string, finishedAt: int, latency: int, outcome: ProbeOutcome)

  predicate Failed(s: Sample) {
    s.outcome != Success || s.latency <= 0
  }

  predicate Unhealthy(s: Sample, threshold: int) {
    Failed(s) || s.latency > threshold
  }

  // Sorting, as the library's stable sort does it.

  ghost predicate SortedBy<T>(s: seq<T>, key: T -> int) {
    forall i, k :: 0 <= i < k < |s| ==> key(s[i]) <= key(s[k])
  }

  /** Puts an element behind every element that is not greater. */
  function InsertBy<T>(s: seq<T>, x: T, key: T -> int): seq<T> {
    if s == [] || key(s[|s| - 1]) <= key(x) then s + [x] else InsertBy(s[..|s| - 1], x, key) + [s[|s| - 1]]
  }

  function SortBy<T>(s: seq<T>, key: T -> int): seq<T> {
    if s == [] then [] else InsertBy(SortBy(s[..|s| - 1], key), s[|s| - 1], key)
  }

  lemma {:induction false} InsertHas<T>(s: seq<T>, x: T, key: T -> int)
    ensures multiset(InsertBy(s, x, key)) == multiset(s) + multiset{x} && |InsertBy(s, x, key)| == |s| + 1
  {
    if s != [] && key(s[|s| - 1]) > key(x) {
      InsertHas(s[..|s| - 1], x, key);
      assert s == s[..|s| - 1] + [s[|s| - 1]];
    }
  }

  lemma InsertElement<T>(s: seq<T>, x: T, key: T -> int, i: nat)
    requires i < |InsertBy(s, x, key)|
    ensures InsertBy(s, x, key)[i] in s || InsertBy(s, x, key)[i] == x
  {
    InsertHas(s, x, key);
    var y := InsertBy(s, x, key)[i];
    assert y in multiset(InsertBy(s, x, key));
    assert y in multiset(s) || y == x;
  }

  lemma {:induction false} InsertSorted<T>(s: seq<T>, x: T, key: T -> int)
    requires SortedBy(s, key)
    ensures SortedBy(InsertBy(s, x, key), key)
  {
    if s != [] && key(s[|s| - 1]) > key(x) {
      var front, last := s[..|s| - 1], s[|s| - 1];
      InsertSorted(front, x, key);
      var t := InsertBy(front, x, key);
      forall i | 0 <= i < |t| ensures key(t[i]) <= key(last) {
        InsertElement(front, x, key, i);
        if t[i] in front {
          var k :| 0 <= k < |front| && front[k] == t[i];
          assert s[k] == t[i];
        }
      }
      AppendSorted(t, last, key);
    } else {
      forall i | 0 <= i < |s| ensures key(s[i]) <= key(x) {
        assert i == |s| - 1 || key(s[i]) <= key(s[|s| - 1]);
      }
      AppendSorted(s, x, key);
    }
  }

  lemma AppendSorted<T>(s: seq<T>, x: T, key: T -> int)
    requires SortedBy(s, key) && forall i :: 0 <= i < |s| ==> key(s[i]) <= key(x)
    ensures SortedBy(s + [x], key)
  {
  }

  /** Sorting gives a sorted permutation. */
  lemma {:induction false} SortIsSorted<T>(s: seq<T>, key: T -> int)
    ensures SortedBy(SortBy(s, key), key)
    ensures multiset(SortBy(s, key)) == multiset(s) && |SortBy(s, key)| == |s|
  {
    if s != [] {
      SortIsSorted(s[..|s| - 1], key);
      InsertSorted(SortBy(s[..|s| - 1], key), s[|s| - 1], key);
      InsertHas(SortBy(s[..|s| - 1], key), s[|s| - 1], key);
      assert s == s[..|s| - 1] + [s[|s| - 1]];
    }
  }

  lemma SortHasElements<T>(s: seq<T>, key: T -> int, i: nat)
    requires i < |SortBy(s, key)|
    ensures SortBy(s, key)[i] in s
  {
    SortIsSorted(s, key);
    assert SortBy(s, key)[i] in multiset(SortBy(s, key));
    assert SortBy(s, key)[i] in multiset(s);
  }

  /** Sorting a sorted sequence changes nothing. */
  lemma {:induction false} SortedStays<T>(s: seq<T>, key: T -> int)
    requires SortedBy(s, key)
    ensures SortBy(s, key) == s
  {
    if s != [] {
      SortedStays(s[..|s| - 1], key);
      assert s == s[..|s| - 1] + [s[|s| - 1]];
    }
  }

  ghost predicate DistinctKeys<T>(s: seq<T>, key: T -> int) {
    forall x, y :: x in s && y in s && key(x) == key(y) ==> x == y
  }

  /** A sorted permutation is unique if equal keys mean equal elements. */
  lemma {:induction false} SortedIsUnique<T>(s: seq<T>, t: seq<T>, key: T -> int)
    requires multiset(s) == multiset(t) && SortedBy(s, key) && SortedBy(t, key) && DistinctKeys(s, key)
    ensures s == t
    decreases |s|
  {
    assert |s| == |multiset(s)| == |multiset(t)| == |t|;
    if s != [] {
      SameHead(s, t, key);
      SameTail(s, t);
      SortedIsUnique(s[1..], t[1..], key);
      assert s == [s[0]] + s[1..] && t == [t[0]] + t[1..];
    }
  }

  lemma SameHead<T>(s: seq<T>, t: seq<T>, key: T -> int)
    requires s != [] && t != [] && multiset(s) == multiset(t) && SortedBy(s, key) && SortedBy(t, key) && DistinctKeys(s, key)
    ensures s[0] == t[0]
  {
    assert s[0] in multiset(t) by { assert s[0] in multiset(s); }
    assert t[0] in multiset(s) by { assert t[0] in multiset(t); }
    var i :| 0 <= i < |t| && t[i] == s[0];
    var k :| 0 <= k < |s| && s[k] == t[0];
    assert key(t[0]) <= key(t[i]) && key(s[0]) <= key(s[k]);
  }

  lemma SameTail<T>(s: seq<T>, t: seq<T>)
    requires s != [] && t != [] && multiset(s) == multiset(t) && s[0] == t[0]
    ensures multiset(s[1..]) == multiset(t[1..])
  {
    assert s == [s[0]] + s[1..] && t == [t[0]] + t[1..];
    assert multiset(s[1..]) == multiset(s) - multiset{s[0]};
    assert multiset(t[1..]) == multiset(t) - multiset{t[0]};
  }

  /** The order in which samples come does not matter once equal keys mean equality. */
  lemma SortIgnoresOrder<T>(s: seq<T>, t: seq<T>, key: T -> int)
    requires multiset(s) == multiset(t) && DistinctKeys(s, key)
    ensures SortBy(s, key) == SortBy(t, key)
  {
    SortIsSorted(s, key);
    SortIsSorted(t, key);
    forall x, y | x in SortBy(s, key) && y in SortBy(s, key) && key(x) == key(y) ensures x == y {
      assert x in multiset(SortBy(s, key)) && y in multiset(SortBy(s, key));
      assert x in multiset(s) && y in multiset(s);
    }
    SortedIsUnique(SortBy(s, key), SortBy(t, key), key);
  }

  function FinishTime(): Sample -> int { (s: Sample) => s.finishedAt }

  function Identity(): int -> int { (x: int) => x }

  function LastOf<T>(s: seq<T>, limit: int): seq<T> {
    if limit > 0 && |s| > limit then s[|s| - limit..] else s
  }

  /** The newest samples in the order they finished. */
  function Recent(samples: seq<Sample>, limit: int): seq<Sample> {
    LastOf(SortBy(samples, FinishTime()), limit)
  }

  lemma RecentIsSorted(samples: seq<Sample>, limit: int)
    ensures SortedBy(Recent(samples, limit), FinishTime())
    ensures Recent(Recent(samples, limit), 0) == Recent(samples, limit)
    ensures forall s :: s in Recent(samples, limit) ==> s in samples
    ensures |Recent(samples, limit)| == if 0 < limit < |samples| then limit else |samples|
  {
    SortIsSorted(samples, FinishTime());
    SortedStays(Recent(samples, limit), FinishTime());
    forall s | s in Recent(samples, limit) ensures s in samples {
      assert s in SortBy(samples, FinishTime());
      assert s in multiset(SortBy(samples, FinishTime()));
      assert s in multiset(samples);
    }
  }

  /** What a window leaves out is not newer than anything in it. */
  lemma RecentIsNewest(samples: seq<Sample>, limit: int) returns (older: seq<Sample>)
    ensures multiset(older + Recent(samples, limit)) == multiset(samples)
    ensures forall o, s :: o in older && s in Recent(samples, limit) ==> o.finishedAt <= s.finishedAt
  {
    hide SortBy;
    var sorted := SortBy(samples, FinishTime());
    SortIsSorted(samples, FinishTime());
    older := sorted[..|sorted| - |Recent(samples, limit)|];
    assert older + Recent(samples, limit) == sorted;
    forall o, s | o in older && s in Recent(samples, limit) ensures o.finishedAt <= s.finishedAt {
      var i :| 0 <= i < |older| && older[i] == o;
      var k :| 0 <= k < |Recent(samples, limit)| && Recent(samples, limit)[k] == s;
      assert FinishTime()(sorted[i]) <= FinishTime()(sorted[|older| + k]);
    }
  }

  // Median and jitter.

  function Median(values: seq<int>): int
    requires values != []
  {
    var sorted := SortBy(values, Identity());
    var middle := |values| / 2;
    MiddleExists(values);
    if |values| % 2 == 1 then sorted[middle] else sorted[middle - 1] + (sorted[middle] - sorted[middle - 1]) / 2
  }

  lemma MiddleExists(values: seq<int>)
    ensures |SortBy(values, Identity())| == |values|
  {
    SortIsSorted(values, Identity());
  }

  /** The median depends on the values only as a bag. */
  lemma MedianIgnoresOrder(values: seq<int>, other: seq<int>)
    requires multiset(values) == multiset(other) && values != []
    ensures other != [] && Median(values) == Median(other)
  {
    assert |multiset(values)| == |multiset(other)|;
    SortIgnoresOrder(values, other, Identity());
  }

  function CountAtMost(values: seq<int>, bound: int): nat {
    if values == [] then 0 else CountAtMost(values[..|values| - 1], bound) + if values[|values| - 1] <= bound then 1 else 0
  }

  function CountAtLeast(values: seq<int>, bound: int): nat {
    if values == [] then 0 else CountAtLeast(values[..|values| - 1], bound) + if values[|values| - 1] >= bound then 1 else 0
  }

  lemma CountSnoc(s: seq<int>, v: int, bound: int)
    ensures CountAtMost(s + [v], bound) == CountAtMost(s, bound) + if v <= bound then 1 else 0
    ensures CountAtLeast(s + [v], bound) == CountAtLeast(s, bound) + if v >= bound then 1 else 0
  {
    assert (s + [v])[..|s + [v]| - 1] == s;
  }

  lemma {:induction false} CountInsert(s: seq<int>, x: int, bound: int)
    ensures CountAtMost(InsertBy(s, x, Identity()), bound) == CountAtMost(s, bound) + if x <= bound then 1 else 0
    ensures CountAtLeast(InsertBy(s, x, Identity()), bound) == CountAtLeast(s, bound) + if x >= bound then 1 else 0
  {
    hide CountAtMost, CountAtLeast;
    if s == [] || s[|s| - 1] <= x {
      CountSnoc(s, x, bound);
    } else {
      var front, last := s[..|s| - 1], s[|s| - 1];
      CountInsert(front, x, bound);
      CountSnoc(front, last, bound);
      CountSnoc(InsertBy(front, x, Identity()), last, bound);
      assert s == front + [last];
    }
  }

  lemma {:induction false} CountSort(values: seq<int>, bound: int)
    ensures CountAtMost(SortBy(values, Identity()), bound) == CountAtMost(values, bound)
    ensures CountAtLeast(SortBy(values, Identity()), bound) == CountAtLeast(values, bound)
  {
    if values != [] {
      CountSort(values[..|values| - 1], bound);
      CountInsert(SortBy(values[..|values| - 1], Identity()), values[|values| - 1], bound);
    }
  }

  lemma {:induction false} CountPrefix(s: seq<int>, n: nat, bound: int)
    requires n <= |s|
    ensures (forall i :: 0 <= i < n ==> s[i] <= bound) ==> CountAtMost(s, bound) >= n
    ensures (forall i :: |s| - n <= i < |s| ==> s[i] >= bound) ==> CountAtLeast(s, bound) >= n
  {
    if s != [] {
      CountPrefix(s[..|s| - 1], if n < |s| then n else n - 1, bound);
      if n > 0 {
        CountPrefix(s[..|s| - 1], n - 1, bound);
      }
    }
  }

  /** What a median is: half of the values are not above it and half are not below. */
  lemma MedianSplits(values: seq<int>)
    requires values != []
    ensures 2 * CountAtMost(values, Median(values)) >= |values|
    ensures 2 * CountAtLeast(values, Median(values)) >= |values|
  {
    hide Median, SortBy, CountAtMost, CountAtLeast;
    var sorted, m := SortBy(values, Identity()), Median(values);
    SortIsSorted(values, Identity());
    CountSort(values, m);
    MiddleBounds(values);
    SortedSplits(sorted, m);
  }

  lemma MiddleBounds(values: seq<int>)
    requires values != [] && |SortBy(values, Identity())| == |values| && SortedBy(SortBy(values, Identity()), Identity())
    ensures SortBy(values, Identity())[(|values| + 1) / 2 - 1] <= Median(values) <= SortBy(values, Identity())[|values| / 2]
  {
    hide SortBy;
    var sorted := SortBy(values, Identity());
    if |values| % 2 == 0 {
      assert Identity()(sorted[|values| / 2 - 1]) <= Identity()(sorted[|values| / 2]);
    }
  }

  lemma SortedSplits(sorted: seq<int>, m: int)
    requires sorted != [] && SortedBy(sorted, Identity()) && sorted[(|sorted| + 1) / 2 - 1] <= m <= sorted[|sorted| / 2]
    ensures 2 * CountAtMost(sorted, m) >= |sorted| && 2 * CountAtLeast(sorted, m) >= |sorted|
  {
    hide CountAtMost, CountAtLeast;
    var half := (|sorted| + 1) / 2;
    CountPrefix(sorted, half, m);
    forall i | 0 <= i < half ensures sorted[i] <= m {
      assert i == half - 1 || Identity()(sorted[i]) <= Identity()(sorted[half - 1]);
    }
    forall i | |sorted| - half <= i < |sorted| ensures sorted[i] >= m {
      assert i == |sorted| / 2 || Identity()(sorted[|sorted| / 2]) <= Identity()(sorted[i]);
    }
  }

  function Latencies(window: seq<Sample>): seq<int> {
    if window == [] then []
    else Latencies(window[..|window| - 1]) + if Failed(window[|window| - 1]) then [] else [window[|window| - 1].latency]
  }

  lemma {:induction false} LatencyCount(window: seq<Sample>)
    ensures |Latencies(window)| <= |window|
    ensures forall v :: v in Latencies(window) ==> v > 0
    ensures Latencies(window) == [] <==> forall i :: 0 <= i < |window| ==> Failed(window[i])
  {
    if window != [] {
      LatencyCount(window[..|window| - 1]);
      assert window == window[..|window| - 1] + [window[|window| - 1]];
    }
  }

  /** These are the latencies of the samples that did not fail, each as often as it was met. */
  ghost predicate LatenciesOf(values: seq<int>, window: seq<Sample>) {
    forall v :: multiset(values)[v] == |Met(window, v)|
  }

  ghost function Met(window: seq<Sample>, v: int): set<int> {
    set i | 0 <= i < |window| && !Failed(window[i]) && window[i].latency == v
  }

  lemma {:induction false} LatenciesAreExact(window: seq<Sample>)
    ensures LatenciesOf(Latencies(window), window)
  {
    if window != [] {
      var n := |window| - 1;
      LatenciesAreExact(window[..n]);
      forall v ensures multiset(Latencies(window))[v] == |Met(window, v)| {
        assert multiset(Latencies(window[..n]))[v] == |Met(window[..n], v)|;
        MetMore(window, v);
        CountMore(Latencies(window[..n]), window[n].latency, v);
      }
    }
  }

  lemma MetMore(window: seq<Sample>, v: int)
    requires window != []
    ensures var n := |window| - 1; |Met(window, v)| == |Met(window[..n], v)| + if !Failed(window[n]) && window[n].latency == v then 1 else 0
  {
    hide Failed;
    var n := |window| - 1;
    assert forall i :: 0 <= i < n ==> window[..n][i] == window[i];
    assert Met(window, v) == Met(window[..n], v) + if !Failed(window[n]) && window[n].latency == v then {n} else {};
  }

  lemma CountMore(s: seq<int>, x: int, v: int)
    ensures multiset(s + [x])[v] == multiset(s)[v] + if x == v then 1 else 0
  {
  }

  /** The middle of the values in order; of an even number, half-way between the two middles. */
  ghost predicate MedianOf(m: int, values: seq<int>) {
    forall sorted: seq<int> :: multiset(sorted) == multiset(values) && SortedBy(sorted, Identity()) ==> |sorted| == |values| && m == MiddleOf(sorted)
  }

  function MiddleOf(sorted: seq<int>): int {
    var k := |sorted| / 2;
    if sorted == [] then 0
    else if |sorted| % 2 == 1 then sorted[k]
    else sorted[k - 1] + (sorted[k] - sorted[k - 1]) / 2
  }

  lemma MedianIsExact(values: seq<int>)
    requires values != []
    ensures MedianOf(Median(values), values)
  {
    forall sorted: seq<int> | multiset(sorted) == multiset(values) && SortedBy(sorted, Identity())
      ensures |sorted| == |values| && Median(values) == MiddleOf(sorted)
    {
      assert |multiset(sorted)| == |multiset(values)|;
      SortIsSorted(values, Identity());
      SortedIsUnique(sorted, SortBy(values, Identity()), Identity());
    }
  }

  /** How far each value is from a centre. */
  ghost predicate DeviationsOf(deviations: seq<int>, values: seq<int>, from: int) {
    && |deviations| == |values|
    && forall i :: 0 <= i < |values| ==> deviations[i] >= 0 && (values[i] == from + deviations[i] || values[i] == from - deviations[i])
  }

  ghost function Times(s: seq<int>, v: int): nat {
    multiset(s)[v]
  }

  lemma TimesMore(s: seq<int>, v: int)
    requires s != []
    ensures var n := |s| - 1; Times(s, v) == Times(s[..n], v) + if s[n] == v then 1 else 0
  {
    var n := |s| - 1;
    assert s == s[..n] + [s[n]];
    CountMore(s[..n], s[n], v);
  }

  /** How often a deviation occurs: as often as the values on either side. */
  lemma {:induction false} DeviationCounts(deviations: seq<int>, values: seq<int>, from: int, d: int)
    requires DeviationsOf(deviations, values, from)
    ensures Times(deviations, d) == if d < 0 then 0 else if d == 0 then Times(values, from) else Times(values, from + d) + Times(values, from - d)
  {
    if values == [] {
      assert Times([], d) == Times([], from) == Times([], from + d) == Times([], from - d) == 0;
    } else {
      hide Times;
      var n := |values| - 1;
      DeviationCounts(deviations[..n], values[..n], from, d);
      TimesMore(deviations, d);
      TimesMore(values, from);
      TimesMore(values, from + d);
      TimesMore(values, from - d);
    }
  }

  /** What a measure of a window has to be: the failures counted, the median of the other
      latencies, and the median of their deviations from it. */
  ghost predicate Measures(r: Stability, window: seq<Sample>) {
    && r.samples == |window| && r.failures == |set i | 0 <= i < |window| && Failed(window[i])|
    && (forall values, deviations :: LatenciesOf(values, window) && values != [] && DeviationsOf(deviations, values, r.median) ==>
          MedianOf(r.median, values) && MedianOf(r.jitter, deviations))
    && ((forall i :: 0 <= i < |window| ==> Failed(window[i])) ==> r.median == r.jitter == 0)
  }

  lemma StatsMeasures(window: seq<Sample>)
    ensures Measures(Stats(window), window)
  {
    hide MedianOf, Median, SortBy;
    LatencyCount(window);
    var r, known := Stats(window), Latencies(window);
    StatsCountFailures(window);
    LatenciesAreExact(window);
    forall values, deviations | LatenciesOf(values, window) && values != [] && DeviationsOf(deviations, values, r.median)
      ensures MedianOf(r.median, values) && MedianOf(r.jitter, deviations)
    {
      SameBag(values, known, window);
      MedianIgnoresOrder(values, known);
      MedianIsExact(values);
      SameDeviations(deviations, values, Deviations(known, r.median), known, r.median);
      MedianIgnoresOrder(deviations, Deviations(known, r.median));
      MedianIsExact(deviations);
    }
  }

  lemma SameBag(values: seq<int>, known: seq<int>, window: seq<Sample>)
    requires LatenciesOf(values, window) && LatenciesOf(known, window)
    ensures multiset(values) == multiset(known) && |values| == |known|
  {
    forall v ensures multiset(values)[v] == multiset(known)[v] {
      assert multiset(values)[v] == |Met(window, v)|;
    }
    assert multiset(values) == multiset(known);
    assert |multiset(values)| == |multiset(known)|;
  }

  lemma SameDeviations(a: seq<int>, values: seq<int>, b: seq<int>, known: seq<int>, from: int)
    requires DeviationsOf(a, values, from) && DeviationsOf(b, known, from) && multiset(values) == multiset(known)
    ensures multiset(a) == multiset(b)
  {
    forall d ensures multiset(a)[d] == multiset(b)[d] {
      DeviationCounts(a, values, from, d);
      DeviationCounts(b, known, from, d);
      assert Times(a, d) == Times(b, d);
    }
  }

  datatype Stability = Stability(samples: nat, failures: nat, median: int, jitter: int)

  function Deviations(values: seq<int>, from: int): seq<int> {
    seq(|values|, i requires 0 <= i < |values| => if values[i] >= from then values[i] - from else from - values[i])
  }

  /** The measure of a window: failures, and median and median absolute deviation of the
      successful latencies. */
  function Stats(window: seq<Sample>): (r: Stability)
    ensures r.samples == |window| && r.failures <= |window|
    ensures r.failures < r.samples ==> r.median > 0
    ensures r.failures == r.samples <==> forall i :: 0 <= i < |window| ==> Failed(window[i])
  {
    LatencyCount(window);
    var values := Latencies(window);
    if values == [] then Stability(|window|, |window|, 0, 0)
    else
      var m := Median(values);
      MedianIsPositive(values);
      Stability(|window|, |window| - |values|, m, Median(Deviations(values, m)))
  }

  /** Failures are counted exactly, and what is left has its own median and deviation. */
  lemma StatsCountFailures(window: seq<Sample>)
    ensures Stats(window).failures == |set i | 0 <= i < |window| && Failed(window[i])|
    ensures Latencies(window) != [] ==>
      Stats(window).median == Median(Latencies(window)) && Stats(window).jitter == Median(Deviations(Latencies(window), Stats(window).median))
  {
    FailureCount(window);
  }

  lemma {:induction false} FailureCount(window: seq<Sample>)
    ensures |window| == |Latencies(window)| + |set i | 0 <= i < |window| && Failed(window[i])|
  {
    if window != [] {
      var n := |window| - 1;
      FailureCount(window[..n]);
      var now, before := set i | 0 <= i < |window| && Failed(window[i]), set i | 0 <= i < n && Failed(window[..n][i]);
      assert now == before + if Failed(window[n]) then {n} else {};
    }
  }

  lemma MedianIsPositive(values: seq<int>)
    requires values != [] && forall v :: v in values ==> v > 0
    ensures Median(values) > 0
  {
    SortIsSorted(values, Identity());
    var sorted := SortBy(values, Identity());
    forall i | 0 <= i < |sorted| ensures sorted[i] > 0 {
      SortHasElements(values, Identity(), i);
    }
  }

  /** Measures the newest samples, or all of them when the size is zero. */
  method MeasureStability(samples: seq<Sample>, windowSize: int) returns (stats: Stability)
    ensures stats == Stats(Recent(samples, windowSize)) && Measures(stats, Recent(samples, windowSize))
  {
    hide Measures, SortBy, Median;
    var window := Recent(samples, windowSize);
    StatsMeasures(window);
    var failures, latencies := 0, [];
    for k := 0 to |window|
      invariant latencies == Latencies(window[..k]) && failures == k - |latencies|
    {
      assert window[..k + 1][..k] == window[..k];
      if Failed(window[k]) {
        failures := failures + 1;
        continue;
      }
      latencies := latencies + [window[k].latency];
    }
    assert window[..|window|] == window;
    LatencyCount(window);
    if |latencies| == 0 {
      return Stability(|window|, failures, 0, 0);
    }
    var m := Median(latencies);
    var deviations: seq<int> := [];
    for i := 0 to |latencies|
      invariant |deviations| == i
      invariant forall k :: 0 <= k < i ==> deviations[k] == Deviations(latencies, m)[k]
    {
      deviations := deviations + [if latencies[i] >= m then latencies[i] - m else m - latencies[i]];
    }
    assert deviations == Deviations(latencies, m);
    stats := Stability(|window|, failures, m, Median(deviations));
  }
}
