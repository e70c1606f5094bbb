/**
 The round-trip-time tracker: a ring buffer of samples with a sorted copy that is rebuilt only when a dirty flag says
 so, and the hedging delay computed from it. Durations are integers (nanoseconds); percentiles and multipliers are
 reals.
 */
module RttTracker {
  import opened Prelude

  const MILLISECOND: int := 1_000_000

  // ---- Nearest rank, by counting ----

  function CountLess(s: seq<int>, v: int): nat {
    if s == [] then 0 else (if s[0] < v then 1 else 0) + CountLess(s[1..], v)
  }

  function CountUpTo(s: seq<int>, v: int): nat {
    if s == [] then 0 else (if s[0] <= v then 1 else 0) + CountUpTo(s[1..], v)
  }

  /** `v` is the `rank`-th smallest sample of `s`, counting from 1. */
  predicate IsRank(s: seq<int>, rank: int, v: int) { v in s && CountLess(s, v) < rank <= CountUpTo(s, v) }

  /** Same samples, whatever their order. */
  ghost predicate SameCounts(s: seq<int>, t: seq<int>) {
    forall v :: CountLess(s, v) == CountLess(t, v) && CountUpTo(s, v) == CountUpTo(t, v)
  }

  lemma {:induction false} CountsOfSum(s: seq<int>, t: seq<int>, v: int)
    ensures CountLess(s + t, v) == CountLess(s, v) + CountLess(t, v)
    ensures CountUpTo(s + t, v) == CountUpTo(s, v) + CountUpTo(t, v)
  {
    if s == [] {
      assert s + t == t;
    } else {
      assert (s + t)[1..] == s[1..] + t;
      CountsOfSum(s[1..], t, v);
    }
  }

  lemma RotationKeepsCounts(s: seq<int>, t: seq<int>)
    ensures SameCounts(s + t, t + s)
  {
    forall v ensures CountLess(s + t, v) == CountLess(t + s, v) && CountUpTo(s + t, v) == CountUpTo(t + s, v) {
      CountsOfSum(s, t, v);
      CountsOfSum(t, s, v);
    }
  }

  lemma {:induction false} CountsOrdered(s: seq<int>, u: int, v: int)
    requires u < v
    ensures CountUpTo(s, u) <= CountLess(s, v) <= |s|
  {
    if s != [] {
      CountsOrdered(s[1..], u, v);
    }
  }

  lemma {:induction false} Occurs(s: seq<int>, v: int)
    ensures CountLess(s, v) <= CountUpTo(s, v) <= |s|
    ensures CountLess(s, v) < CountUpTo(s, v) <==> v in s
  {
    if s != [] {
      Occurs(s[1..], v);
      assert v in s <==> v == s[0] || v in s[1..];
    }
  }

  lemma SameCountsSameMembers(s: seq<int>, t: seq<int>, v: int)
    requires SameCounts(s, t)
    ensures v in s <==> v in t
  {
    Occurs(s, v);
    Occurs(t, v);
  }

  /** Higher ranks have no smaller samples; in particular a rank has one sample. */
  lemma RanksAreMonotone(s: seq<int>, rank: int, v: int, rank': int, v': int)
    requires IsRank(s, rank, v) && IsRank(s, rank', v') && rank <= rank'
    ensures v <= v' && (rank == rank' ==> v == v')
  {
    if v' < v {
      CountsOrdered(s, v', v);
    } else if v < v' {
      CountsOrdered(s, v, v');
    }
  }

  // ---- Sorting ----

  predicate Sorted(s: seq<int>) { forall i, j | 0 <= i < j < |s| :: s[i] <= s[j] }

  function Place(x: int, s: seq<int>): (r: seq<int>)
    requires Sorted(s)
    ensures Sorted(r) && |r| == |s| + 1 && forall k | 0 <= k < |r| :: r[k] == x || r[k] in s
  {
    if s == [] || x <= s[0] then [x] + s else [s[0]] + Place(x, s[1..])
  }

  /** `slices.Sort`. */
  function Sort(s: seq<int>): (r: seq<int>)
    ensures Sorted(r) && |r| == |s|
  {
    if s == [] then [] else Place(s[0], Sort(s[1..]))
  }

  lemma {:induction false} PlaceCounts(x: int, s: seq<int>, v: int)
    requires Sorted(s)
    ensures CountLess(Place(x, s), v) == CountLess([x] + s, v) && CountUpTo(Place(x, s), v) == CountUpTo([x] + s, v)
  {
    if s != [] && s[0] < x {
      PlaceCounts(x, s[1..], v);
      assert ([x] + s)[1..] == s && ([x] + s[1..])[1..] == s[1..];
      assert ([s[0]] + Place(x, s[1..]))[1..] == Place(x, s[1..]);
    }
  }

  lemma {:induction false} SortCounts(s: seq<int>, v: int)
    ensures CountLess(Sort(s), v) == CountLess(s, v) && CountUpTo(Sort(s), v) == CountUpTo(s, v)
  {
    if s != [] {
      SortCounts(s[1..], v);
      PlaceCounts(s[0], Sort(s[1..]), v);
      assert ([s[0]] + Sort(s[1..]))[1..] == Sort(s[1..]);
    }
  }

  lemma {:induction false} CountsAtIndex(s: seq<int>, k: nat)
    requires Sorted(s) && k < |s|
    ensures CountLess(s, s[k]) <= k < CountUpTo(s, s[k])
  {
    if k > 0 {
      CountsAtIndex(s[1..], k - 1);
    } else {
      NoneLess(s, s[0]);
    }
  }

  lemma {:induction false} NoneLess(s: seq<int>, v: int)
    requires forall i | 0 <= i < |s| :: v <= s[i]
    ensures CountLess(s, v) == 0
  {
    if s != [] {
      NoneLess(s[1..], v);
    }
  }

  /** Entry `k` of the sorted copy is the sample of rank `k + 1`. */
  lemma SortedEntryIsRank(s: seq<int>, t: seq<int>, k: nat)
    requires SameCounts(s, t) && k < |s|
    ensures IsRank(t, k + 1, Sort(s)[k])
  {
    var v := Sort(s)[k];
    CountsAtIndex(Sort(s), k);
    SortCounts(s, v);
    Occurs(t, v);
  }

  // ---- Percentiles of a window ----

  function Ceil(x: real): int { -(-x).Floor }

  /** The nearest rank of percentile `p` among `n` samples, kept within 1..n. */
  function RankOf(p: real, n: nat): int
    requires n > 0
  {
    Max(1, Min(n, Ceil(p / 100.0 * n as real)))
  }

  lemma RankIsMonotone(p: real, p': real, n: nat)
    requires p <= p' && n > 0
    ensures RankOf(p, n) <= RankOf(p', n)
  {
    Scale(p / 100.0, p' / 100.0, n as real);
  }

  lemma Scale(x: real, y: real, n: real)
    requires x <= y && n >= 0.0
    ensures x * n <= y * n
  {
  }

  /** The index computed into a sorted copy of `n` samples: one less than the nearest rank. */
  method IndexFor(p: real, n: nat) returns (idx: nat)
    requires n > 0
    ensures idx + 1 == RankOf(p, n) && idx < n
  {
    idx := Max(Ceil(p / 100.0 * n as real) - 1, 0);
    if idx >= n {
      idx := n - 1;
    }
  }

  /** `v` is the nearest-rank percentile `p` of the samples in `w`; no samples give 0. */
  predicate IsPercentile(w: seq<int>, p: real, v: int) {
    if w == [] then v == 0 else IsRank(w, RankOf(p, |w|), v)
  }

  /** At least `p` percent of the samples are at or below it, and fewer than `p` percent are below it. */
  lemma PercentileMeaning(w: seq<int>, p: real, v: int)
    requires IsPercentile(w, p, v) && w != [] && 0.0 < p <= 100.0
    ensures CountUpTo(w, v) as real >= p / 100.0 * |w| as real > CountLess(w, v) as real
  {
    var share := p / 100.0 * |w| as real;
    assert p / 100.0 <= 1.0;
    assert 0.0 < share <= |w| as real;
    assert RankOf(p, |w|) == Ceil(share);
  }

  /** Percentiles up to 0 give the least sample and from 100 on the greatest. */
  lemma ExtremePercentiles(w: seq<int>, p: real, v: int)
    requires IsPercentile(w, p, v) && w != []
    ensures p <= 0.0 ==> forall i | 0 <= i < |w| :: v <= w[i]
    ensures p >= 100.0 ==> forall i | 0 <= i < |w| :: w[i] <= v
  {
    ExtremeRanks(p, |w|);
    forall i | 0 <= i < |w| && p <= 0.0 ensures v <= w[i] {
      Occurs(w, w[i]);
      if w[i] < v {
        CountsOrdered(w, w[i], v);
      }
    }
    forall i | 0 <= i < |w| && p >= 100.0 ensures w[i] <= v {
      Occurs(w, w[i]);
      if v < w[i] {
        CountsOrdered(w, v, w[i]);
      }
    }
  }

  lemma NonPositive(x: real, n: real)
    requires x <= 0.0 <= n
    ensures x * n <= 0.0
  {
  }

  lemma AtLeastWhole(x: real, n: real)
    requires x >= 1.0 && n >= 0.0
    ensures x * n >= n
  {
  }

  lemma ExtremeRanks(p: real, n: nat)
    requires n > 0
    ensures p <= 0.0 ==> RankOf(p, n) == 1
    ensures p >= 100.0 ==> RankOf(p, n) == n
  {
    var x := p / 100.0 * n as real;
    if p <= 0.0 {
      NonPositive(p / 100.0, n as real);
      assert (-x).Floor >= 0;
    } else if p >= 100.0 {
      AtLeastWhole(p / 100.0, n as real);
      assert (-x).Floor <= -(n as int);
    }
  }

  /** Percentiles are monotone in `p`, and each is a single value. */
  lemma PercentileIsMonotone(w: seq<int>, p: real, v: int, p': real, v': int)
    requires IsPercentile(w, p, v) && IsPercentile(w, p', v') && p <= p'
    ensures v <= v' && (p == p' ==> v == v')
  {
    if w != [] {
      RankIsMonotone(p, p', |w|);
      RanksAreMonotone(w, RankOf(p, |w|), v, RankOf(p', |w|), v');
    }
  }

  // ---- The tracker ----

  /** The samples a tracker of capacity `cap` still holds after recording `h`. */
  function Window(h: seq<int>, cap: nat): seq<int> {
    if |h| <= cap then h else h[|h| - cap..]
  }

  predicate AllPositive(h: seq<int>) { forall i | 0 <= i < |h| :: h[i] > 0 }

  /** The ring read from its oldest sample to its newest. */
  function Unrolled(samples: seq<int>, writeIdx: nat, count: nat): seq<int>
    requires writeIdx < |samples| && count <= |samples|
  {
    if count < |samples| then samples[..count] else samples[writeIdx..] + samples[..writeIdx]
  }

  /** The ring holds the window of the last samples of `h`. */
  predicate RingHolds(samples: seq<int>, writeIdx: nat, count: nat, h: seq<int>) {
    && writeIdx < |samples| && count == Min(|h|, |samples|)
    && (|h| < |samples| ==> writeIdx == |h|)
    && Unrolled(samples, writeIdx, count) == Window(h, |samples|)
  }

  /** Writing at the write index and moving it on, around the end, appends to the window of the last samples. */
  lemma RecordKeepsRing(samples: seq<int>, writeIdx: nat, count: nat, h: seq<int>, rtt: int)
    requires RingHolds(samples, writeIdx, count, h)
    ensures RingHolds(samples[writeIdx := rtt], (writeIdx + 1) % |samples|, Min(count + 1, |samples|), h + [rtt])
  {
    NextIndex(writeIdx, |samples|);
    if |h| < |samples| {
      RecordWhenFilling(samples, writeIdx, h, rtt);
    } else {
      RecordWhenFull(samples, writeIdx, h, rtt, (writeIdx + 1) % |samples|);
    }
  }

  lemma RecordWhenFilling(samples: seq<int>, writeIdx: nat, h: seq<int>, rtt: int)
    requires writeIdx == |h| < |samples| && samples[..writeIdx] == h
    ensures var after := samples[writeIdx := rtt];
            if |h| + 1 < |samples| then after[..|h| + 1] == h + [rtt] else after[0..] + after[..0] == h + [rtt]
  {
    var after := samples[writeIdx := rtt];
    assert after[..writeIdx + 1] == samples[..writeIdx] + [rtt];
    if |h| + 1 == |samples| {
      assert after[0..] + after[..0] == after[..writeIdx + 1];
    }
  }

  lemma RecordWhenFull(samples: seq<int>, writeIdx: nat, h: seq<int>, rtt: int, next: nat)
    requires |samples| <= |h| && writeIdx < |samples| && next == (if writeIdx + 1 == |samples| then 0 else writeIdx + 1)
    requires samples[writeIdx..] + samples[..writeIdx] == Window(h, |samples|)
    ensures var after := samples[writeIdx := rtt]; after[next..] + after[..next] == Window(h + [rtt], |samples|)
  {
    var after := samples[writeIdx := rtt];
    assert Window(h + [rtt], |samples|) == Window(h, |samples|)[1..] + [rtt];
    var rest := samples[writeIdx + 1..] + samples[..writeIdx];
    assert (samples[writeIdx..] + samples[..writeIdx])[1..] == rest;
    if next == 0 {
      assert after == samples[..writeIdx] + [rtt];
      assert rest == samples[..writeIdx];
    } else {
      assert after[next..] == samples[next..] && after[..next] == samples[..writeIdx] + [rtt];
    }
  }

  lemma RingHasWindowCounts(samples: seq<int>, writeIdx: nat, count: nat)
    requires writeIdx < |samples| && count <= |samples|
    ensures SameCounts(samples[..count], Unrolled(samples, writeIdx, count))
  {
    if count == |samples| {
      assert samples[..count] == samples[..writeIdx] + samples[writeIdx..];
      RotationKeepsCounts(samples[..writeIdx], samples[writeIdx..]);
    }
  }

  /** The entry that `IndexFor` picks from the ring's sorted copy is the percentile of the window. */
  lemma EntryIsPercentile(samples: seq<int>, writeIdx: nat, count: nat, h: seq<int>, p: real, idx: nat)
    requires RingHolds(samples, writeIdx, count, h) && 0 < count && idx < count && idx + 1 == RankOf(p, count)
    ensures IsPercentile(Window(h, |samples|), p, Sort(samples[..count])[idx])
  {
    RingHasWindowCounts(samples, writeIdx, count);
    SortedEntryIsRank(samples[..count], Window(h, |samples|), idx);
  }

  lemma NextIndex(i: nat, n: nat)
    requires i < n
    ensures (i + 1) % n == if i + 1 == n then 0 else i + 1
  {
  }

  /** The sample a window's bounds come from. */
  predicate IsLeast(h: seq<int>, v: int) { if h == [] then v == 0 else v in h && forall i | 0 <= i < |h| :: v <= h[i] }

  predicate IsGreatest(h: seq<int>, v: int) {
    if h == [] then v == 0 else v in h && forall i | 0 <= i < |h| :: h[i] <= v
  }

  /** A value between the least and the greatest of the samples (0 without samples). */
  predicate Between(h: seq<int>, v: int) {
    if h == [] then v == 0
    else (exists i :: 0 <= i < |h| && h[i] <= v) && (exists i :: 0 <= i < |h| && v <= h[i])
  }

  /** The moving average of the samples, started with the first one. */
  function SmoothedOf(h: seq<int>): int {
    if h == [] then 0
    else if |h| == 1 then h[0]
    else Smooth(SmoothedOf(h[..|h| - 1]), h[|h| - 1])
  }

  /** It lies between two of the samples. */
  lemma {:induction false} SmoothedIsBetween(h: seq<int>)
    ensures Between(h, SmoothedOf(h))
  {
    if |h| == 1 {
      assert h[0] <= SmoothedOf(h) <= h[0];
    } else if |h| > 1 {
      var n := |h| - 1;
      var s := SmoothedOf(h[..n]);
      SmoothedIsBetween(h[..n]);
      SmoothIsBetween(s, h[n]);
      var i :| 0 <= i < n && h[..n][i] <= s;
      var j :| 0 <= j < n && s <= h[..n][j];
      assert h[if s <= h[n] then i else n] <= SmoothedOf(h) <= h[if s <= h[n] then n else j];
    }
  }

  /** All samples are positive, `least` is the least of them, and the smoothed value is their moving average. */
  predicate StatsHold(h: seq<int>, least: int, smoothed: int) {
    AllPositive(h) && IsLeast(h, least) && smoothed == SmoothedOf(h)
  }

  /** The exponentially weighted average of one more sample, truncated to an integer. */
  function Smooth(current: int, rtt: int): int { (0.9 * current as real + 0.1 * rtt as real).Floor }

  /** Nine parts of the old value and one of the sample, rounded down. */
  lemma SmoothMeaning(s: int, rtt: int)
    ensures 10 * Smooth(s, rtt) <= 9 * s + rtt < 10 * Smooth(s, rtt) + 10
  {
    var x := 0.9 * s as real + 0.1 * rtt as real;
    assert 10.0 * x == (9 * s + rtt) as real;
  }

  lemma SmoothIsBetween(s: int, rtt: int)
    ensures Min(s, rtt) <= Smooth(s, rtt) <= Max(s, rtt)
  {
    var x := 0.9 * s as real + 0.1 * rtt as real;
    assert Min(s, rtt) as real <= x <= Max(s, rtt) as real;
  }

  class RTTTracker {
    const samples: array<int>
    var writeIdx: nat
    var count: nat
    var minRTT: int
    var smoothedRTT: int
    var dirty: bool
    var cachedSorted: seq<int>
    /** The positive samples recorded since the last reset. */
    ghost var history: seq<int>

    ghost predicate Valid()
      reads this, samples
    {
      && RingHolds(samples[..], writeIdx, count, history)
      && StatsHold(history, minRTT, smoothedRTT)
      && (!dirty ==> cachedSorted == Sort(samples[..count]))
    }

    constructor (capacity: int)
      ensures Valid() && fresh(samples) && history == []
      ensures samples.Length == if capacity <= 0 then 100 else capacity
    {
      samples := new int[if capacity <= 0 then 100 else capacity](_ => 0);
      writeIdx, count, minRTT, smoothedRTT := 0, 0, 0, 0;
      dirty, cachedSorted, history := false, [], [];
    }

    /** The ring's share of `Record`. */
    method Write(rtt: int)
      requires RingHolds(samples[..], writeIdx, count, history)
      modifies this`writeIdx, this`count, samples
      ensures RingHolds(samples[..], writeIdx, count, history + [rtt])
    {
      RecordKeepsRing(samples[..], writeIdx, count, history, rtt);
      ghost var after := samples[..][writeIdx := rtt];
      samples[writeIdx] := rtt;
      assert samples[..] == after;
      writeIdx := (writeIdx + 1) % samples.Length;
      if count < samples.Length {
        count := count + 1;
      }
    }

    /** The share of the minimum and the moving average. */
    method Summarise(rtt: int)
      requires rtt > 0 && StatsHold(history, minRTT, smoothedRTT)
      modifies this`minRTT, this`smoothedRTT
      ensures StatsHold(history + [rtt], minRTT, smoothedRTT)
    {
      StatsOfOneMore(history, minRTT, smoothedRTT, rtt);
      if minRTT == 0 || rtt < minRTT {
        minRTT := rtt;
      }
      smoothedRTT := if smoothedRTT == 0 then rtt else Smooth(smoothedRTT, rtt);
    }

    /** A sample that is not positive is ignored. */
    method Record(rtt: int)
      requires Valid()
      modifies this, samples
      ensures Valid() && history == if rtt <= 0 then old(history) else old(history) + [rtt]
    {
      if rtt <= 0 {
        return;
      }
      Write(rtt);
      Summarise(rtt);
      dirty := true;
      history := history + [rtt];
    }

    /** The nearest-rank percentile of the samples still in the window: the sorted copy is never stale. */
    method Percentile(p: real) returns (v: int)
      requires Valid()
      modifies this`dirty, this`cachedSorted
      ensures Valid() && IsPercentile(Window(history, samples.Length), p, v)
    {
      if count == 0 {
        return 0;
      }
      if dirty || |cachedSorted| != count {
        cachedSorted := Sort(samples[..count]);
        dirty := false;
      }
      var idx := IndexFor(p, |cachedSorted|);
      EntryIsPercentile(samples[..], writeIdx, count, history, p, idx);
      assert samples[..][..count] == samples[..count];
      return cachedSorted[idx];
    }

    /** The greatest sample still in the window. */
    method MaxRTT() returns (v: int)
      requires Valid()
      ensures IsGreatest(Window(history, samples.Length), v)
    {
      if count == 0 {
        return 0;
      }
      v := samples[0];
      for i := 1 to count
        invariant v in samples[..i] && forall k | 0 <= k < i :: samples[k] <= v
      {
        if samples[i] > v {
          v := samples[i];
        }
      }
      assert samples[..][..count] == samples[..count];
      RingHasWindowCounts(samples[..], writeIdx, count);
      GreatestIsShared(samples[..count], Window(history, samples.Length), v);
    }

    method Reset()
      requires Valid()
      modifies this, samples
      ensures Valid() && history == []
    {
      writeIdx, count, minRTT, smoothedRTT := 0, 0, 0, 0;
      dirty, cachedSorted := true, [];
      history := [];
      forall i | 0 <= i < samples.Length { samples[i] := 0; }
    }
  }

  lemma StatsOfOneMore(h: seq<int>, least: int, smoothed: int, rtt: int)
    requires rtt > 0 && StatsHold(h, least, smoothed)
    ensures StatsHold(h + [rtt], if least == 0 || rtt < least then rtt else least,
                      if smoothed == 0 then rtt else Smooth(smoothed, rtt))
  {
    var h' := h + [rtt];
    assert h'[|h|] == rtt && forall i | 0 <= i < |h| :: h'[i] == h[i];
    assert h'[..|h|] == h;
    SmoothedIsBetween(h);
  }

  lemma GreatestIsShared(s: seq<int>, t: seq<int>, v: int)
    requires SameCounts(s, t) && s != [] && IsGreatest(s, v)
    ensures IsGreatest(t, v)
  {
    SameCountsSameMembers(s, t, v);
    forall i | 0 <= i < |t| ensures t[i] <= v { SameCountsSameMembers(s, t, t[i]); }
  }

  // ---- The hedging delay ----

  datatype DynamicHedgingConfig = DynamicHedgingConfig(
    tracker: Option<RTTTracker>, percentile: real, minDelay: int, maxDelay: int, multiplier: real)

  /**
   The delay within its bounds. The lower bound wins when the bounds cross, unlike in the documented formula
   `min(MaxDelay, max(MinDelay, delay))`: the two agree exactly when the bounds do not cross.
   */
  function Bounded(lo: int, delay: int, hi: int): (r: int)
    ensures lo <= r <= Max(lo, hi)
    ensures r == Min(hi, Max(lo, delay)) <==> lo <= hi
  {
    Max(lo, Min(delay, hi))
  }

  /** The percentile of the window times the multiplier, within the bounds. */
  ghost predicate IsScaled(w: seq<int>, percentile: real, multiplier: real, lo: int, hi: int, delay: int) {
    exists rtt :: IsPercentile(w, percentile, rtt) && delay == Bounded(lo, (rtt as real * multiplier).Floor, hi)
  }

  method ScaledDelay(tracker: RTTTracker, percentile: real, multiplier: real, lo: int, hi: int) returns (delay: int)
    requires tracker.Valid()
    modifies tracker
    ensures tracker.Valid() && tracker.history == old(tracker.history)
    ensures IsScaled(Window(tracker.history, tracker.samples.Length), percentile, multiplier, lo, hi, delay)
    ensures lo <= delay <= Max(lo, hi)
  {
    var rtt := tracker.Percentile(percentile);
    return Bounded(lo, (rtt as real * multiplier).Floor, hi);
  }

  /** Settings that are not positive stand for 50ms, 2s, the 95th percentile and a factor of 1.5. */
  method ComputeDelay(c: DynamicHedgingConfig) returns (delay: int)
    requires c.tracker.Some? ==> c.tracker.value.Valid()
    modifies if c.tracker.Some? then {c.tracker.value} else {}
    ensures c.tracker.Some? ==> c.tracker.value.Valid() && c.tracker.value.history == old(c.tracker.value.history)
    ensures var lo := if c.minDelay > 0 then c.minDelay else 50_000_000;
            var hi := if c.maxDelay > 0 then c.maxDelay else 2_000_000_000;
            var percentile := if c.percentile > 0.0 then c.percentile else 95.0;
            var multiplier := if c.multiplier > 0.0 then c.multiplier else 1.5;
            && lo <= delay <= Max(lo, hi)
            && (c.tracker.None? ==> delay == lo)
            && (c.tracker.Some? ==>
                  var w := Window(c.tracker.value.history, c.tracker.value.samples.Length);
                  if |w| < 10 then delay == lo else IsScaled(w, percentile, multiplier, lo, hi, delay))
  {
    var lo := if c.minDelay <= 0 then 50 * MILLISECOND else c.minDelay;
    if c.tracker.None? || c.tracker.value.count < 10 {
      return lo;
    }
    var hi := if c.maxDelay <= 0 then 2000 * MILLISECOND else c.maxDelay;
    var percentile := if c.percentile <= 0.0 then 95.0 else c.percentile;
    var multiplier := if c.multiplier <= 0.0 then 1.5 else c.multiplier;
    delay := ScaledDelay(c.tracker.value, percentile, multiplier, lo, hi);
  }
}
