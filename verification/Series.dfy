/** The bounded time series behind the charts (crates/core/src/series.rs). Values are
    real numbers; a value that is not finite is its own case. */
module Series {
  import opened Wrappers

  datatype Point = Point(t: int, v: real)

  datatype Sample = Finite(v: real) | NotFinite

  datatype Ohlc = Ohlc(start: int, open: real, high: real, low: real, close: real, samples: nat)

  ghost predicate Sorted(s: seq<Point>) {
    forall i, j | 0 <= i < j < |s| :: s[i].t <= s[j].t
  }

  /** How many points from the front are before `t` (or at it, if `inclusive`). */
  function CountUpTo(s: seq<Point>, t: int, inclusive: bool): (n: nat)
    ensures n <= |s|
  {
    if s == [] then 0
    else CountUpTo(s[..|s| - 1], t, inclusive) + if Before(s[|s| - 1], t, inclusive) then 1 else 0
  }

  predicate Before(p: Point, t: int, inclusive: bool) {
    p.t < t || (inclusive && p.t == t)
  }

  lemma {:induction false} CountSplits(s: seq<Point>, t: int, inclusive: bool)
    requires Sorted(s)
    ensures var n := CountUpTo(s, t, inclusive);
      (forall i | 0 <= i < n :: Before(s[i], t, inclusive)) && forall i | n <= i < |s| :: !Before(s[i], t, inclusive)
  {
    if s == [] {
    } else {
      var k := |s| - 1;
      CountSplits(s[..k], t, inclusive);
      if Before(s[k], t, inclusive) {
        CountIs(s[..k], t, inclusive, k);
      }
    }
  }

  lemma {:induction false} CountIs(s: seq<Point>, t: int, inclusive: bool, n: nat)
    requires n <= |s|
    requires forall i | 0 <= i < n :: Before(s[i], t, inclusive)
    requires forall i | n <= i < |s| :: !Before(s[i], t, inclusive)
    ensures CountUpTo(s, t, inclusive) == n
  {
    if s == [] {
    } else {
      CountIs(s[..|s| - 1], t, inclusive, if n == |s| then n - 1 else n);
    }
  }

  /** `partition_point`: binary search for the end of the points before `t`. */
  method PartitionPoint(s: seq<Point>, t: int, inclusive: bool) returns (n: nat)
    requires Sorted(s)
    ensures n <= |s| && n == CountUpTo(s, t, inclusive)
    ensures forall i | 0 <= i < n :: Before(s[i], t, inclusive)
    ensures forall i | n <= i < |s| :: !Before(s[i], t, inclusive)
  {
    var lo, hi := 0, |s|;
    while lo < hi
      invariant 0 <= lo <= hi <= |s|
      invariant forall i | 0 <= i < lo :: Before(s[i], t, inclusive)
      invariant forall i | hi <= i < |s| :: !Before(s[i], t, inclusive)
    {
      var mid := (lo + hi) / 2;
      if Before(s[mid], t, inclusive) {
        lo := mid + 1;
      } else {
        hi := mid;
      }
    }
    n := lo;
    CountIs(s, t, inclusive, n);
  }

  // ------------------------------------------------------------------
  // Pushing.
  // ------------------------------------------------------------------

  /** A point goes after all points at or before its time. */
  function Inserted(s: seq<Point>, p: Point): seq<Point> {
    var n := CountUpTo(s, p.t, true);
    s[..n] + [p] + s[n..]
  }

  function Pushed(s: seq<Point>, cap: nat, p: Point): seq<Point>
    requires cap >= 1
  {
    Inserted(if |s| == cap then s[1..] else s, p)
  }

  lemma InsertedIsSorted(s: seq<Point>, p: Point)
    requires Sorted(s)
    ensures Sorted(Inserted(s, p))
  {
    CountSplits(s, p.t, true);
  }

  lemma InsertedAtTheEnd(s: seq<Point>, p: Point)
    requires Sorted(s) && (s == [] || s[|s| - 1].t <= p.t)
    ensures Inserted(s, p) == s + [p]
  {
    CountIs(s, p.t, true, |s|);
  }

  class TimeSeries {
    var points: seq<Point>
    const cap: nat

    ghost predicate Valid()
      reads this
    {
      1 <= cap && |points| <= cap && Sorted(points)
    }

    constructor (capacity: nat)
      ensures Valid() && points == [] && cap == if capacity < 1 then 1 else capacity
    {
      points := [];
      cap := if capacity < 1 then 1 else capacity;
    }

    method Push(t: int, sample: Sample)
      requires Valid()
      modifies this
      ensures Valid()
      ensures points == if sample.NotFinite? then old(points) else Pushed(old(points), cap, Point(t, sample.v))
    {
      if sample.NotFinite? {
        return;
      }
      if |points| == cap {
        points := points[1..];
      }
      var p := Point(t, sample.v);
      InsertedIsSorted(points, p);
      if points != [] && points[|points| - 1].t > t {
        var n := PartitionPoint(points, t, true);
        points := points[..n] + [p] + points[n..];
      } else {
        InsertedAtTheEnd(points, p);
        points := points + [p];
      }
    }

    /** Exactly the points with a time in the range, in order. The slice of the deque
        panics (None) when its start is past its end. */
    method Range(t0: int, t1: int) returns (r: Option<seq<Point>>)
      requires Valid()
      ensures r == None <==> exists p :: p in points && t1 < p.t < t0
      ensures r.Some? ==> r.value == Between(points, t0, t1) && Sorted(r.value)
      ensures t0 <= t1 ==> r.Some?
    {
      var a := PartitionPoint(points, t0, false);
      var b := PartitionPoint(points, t1, true);
      if a > b {
        assert points[b] in points;
        return None;
      }
      r := Some(points[a..b]);
      SliceIsBetween(points, t0, t1);
    }

    /** The last point at or before a time, as a scan from the back finds it. */
    method ValueAt(t: int) returns (r: Option<Point>)
      requires Valid()
      ensures r == LastUpTo(points, t)
    {
      var n := PartitionPoint(points, t, true);
      LastUpToIsTheOneBefore(points, t, n);
      r := if n == 0 then None else Some(points[n - 1]);
    }

    method Nearest(t: int) returns (r: Option<Point>)
      requires Valid()
      ensures r == None <==> points == []
      ensures r.Some? ==> exists k | 0 <= k < |points| :: points[k] == r.value && IsNearest(points, t, k)
    {
      var n := PartitionPoint(points, t, false);
      if points == [] {
        return None;
      }
      var k := if n == 0 then 0
               else if n == |points| || t - points[n - 1].t <= points[n].t - t then n - 1
               else n;
      r := Some(points[k]);
      assert IsNearest(points, t, k);
    }

    /** The least and greatest value in a range; None as for Range. */
    method MinMax(t0: int, t1: int) returns (r: Option<Option<(real, real)>>)
      requires Valid()
      ensures r == None <==> exists p :: p in points && t1 < p.t < t0
      ensures r.Some? ==> (r.value == None <==> Between(points, t0, t1) == [])
      ensures r.Some? && r.value.Some? ==> IsLow(Between(points, t0, t1), r.value.value.0)
      ensures r.Some? && r.value.Some? ==> IsHigh(Between(points, t0, t1), r.value.value.1)
    {
      var range := Range(t0, t1);
      if range == None {
        return None;
      }
      var s := range.value;
      var acc: Option<(real, real)> := None;
      for i := 0 to |s|
        invariant acc == None <==> i == 0
        invariant acc.Some? ==> IsLow(s[..i], acc.value.0) && IsHigh(s[..i], acc.value.1)
      {
        var v := s[i].v;
        assert s[..i + 1] == s[..i] + [s[i]];
        if acc == None {
          OneIsBoth(s[i]);
          assert s[..i + 1] == [s[i]];
          acc := Some((v, v));
        } else {
          LowWithOneMore(s[..i], acc.value.0, s[i]);
          HighWithOneMore(s[..i], acc.value.1, s[i]);
          acc := Some((Min(acc.value.0, v), Max(acc.value.1, v)));
        }
      }
      assert s[..|s|] == s;
      r := Some(acc);
    }

    /** The candles of a range: strictly increasing starts, and each candle sums up
        exactly the points of its bucket; None as for Range, but only for a positive
        bucket width. */
    method Candles(t0: int, t1: int, width: int) returns (r: Option<seq<Ohlc>>)
      requires Valid()
      ensures width <= 0 ==> r == Some([])
      ensures width > 0 ==> (r == None <==> exists p :: p in points && t1 < p.t < t0)
      ensures width > 0 && r.Some? ==>
        && AreCandles(Between(points, t0, t1), width, r.value)
        && Joined(Between(points, t0, t1), width, r.value) == Between(points, t0, t1)
    {
      var out: seq<Ohlc> := [];
      if width <= 0 {
        return Some(out);
      }
      var range := Range(t0, t1);
      if range == None {
        return None;
      }
      var s := range.value;
      for i := 0 to |s|
        invariant AreCandles(s[..i], width, out)
      {
        CandlesStep(s, i, width, out);
        out := WithPoint(out, BucketOf(s[i].t, width), s[i].v);
      }
      assert s[..|s|] == s;
      CandlesPartition(s, width, out);
      r := Some(out);
    }
  }

  // ------------------------------------------------------------------
  // The same questions answered by looking at every point.
  // ------------------------------------------------------------------

  /** The points with a time in [t0, t1], by looking at each. */
  function Between(s: seq<Point>, t0: int, t1: int): seq<Point> {
    if s == [] then []
    else Between(s[..|s| - 1], t0, t1) + if t0 <= s[|s| - 1].t <= t1 then [s[|s| - 1]] else []
  }

  function LastUpTo(s: seq<Point>, t: int): Option<Point> {
    if s == [] then None
    else if s[|s| - 1].t <= t then Some(s[|s| - 1])
    else LastUpTo(s[..|s| - 1], t)
  }

  function Distance(p: Point, t: int): int {
    if p.t < t then t - p.t else p.t - t
  }

  /** No point is nearer than the one at `k`. Among equally near ones the earlier time
      wins; among those of one time, the last one before `t` and the first one from `t` on. */
  ghost predicate IsNearest(s: seq<Point>, t: int, k: nat)
    requires k < |s|
  {
    && (forall j | 0 <= j < |s| :: Distance(s[k], t) <= Distance(s[j], t))
    && (forall j | 0 <= j < |s| && Distance(s[j], t) == Distance(s[k], t) ::
          && s[k].t <= s[j].t
          && (s[j].t == s[k].t ==> if s[k].t < t then j <= k else k <= j))
  }

  /** The description of the nearest point fits one position only. */
  lemma NearestIsUnique(s: seq<Point>, t: int, k: nat, l: nat)
    requires k < |s| && l < |s| && IsNearest(s, t, k) && IsNearest(s, t, l)
    ensures k == l
  {
    assert Distance(s[k], t) == Distance(s[l], t);
  }

  lemma {:induction false} BetweenAppend(a: seq<Point>, b: seq<Point>, t0: int, t1: int)
    ensures Between(a + b, t0, t1) == Between(a, t0, t1) + Between(b, t0, t1)
  {
    if b == [] {
      assert a + b == a;
    } else {
      var k := |b| - 1;
      assert (a + b)[..|a + b| - 1] == a + b[..k];
      BetweenAppend(a, b[..k], t0, t1);
    }
  }

  lemma {:induction false} AllBetween(s: seq<Point>, t0: int, t1: int)
    requires forall i | 0 <= i < |s| :: t0 <= s[i].t <= t1
    ensures Between(s, t0, t1) == s
  {
    if s == [] {
    } else {
      AllBetween(s[..|s| - 1], t0, t1);
      assert s == s[..|s| - 1] + [s[|s| - 1]];
    }
  }

  lemma {:induction false} NoneBetween(s: seq<Point>, t0: int, t1: int)
    requires forall i | 0 <= i < |s| :: !(t0 <= s[i].t <= t1)
    ensures Between(s, t0, t1) == []
  {
    if s == [] {
    } else {
      NoneBetween(s[..|s| - 1], t0, t1);
    }
  }

  /** What the two binary searches cut out is what the scan selects. */
  lemma {:induction false} SliceIsBetween(s: seq<Point>, t0: int, t1: int)
    requires Sorted(s) && CountUpTo(s, t0, false) <= CountUpTo(s, t1, true)
    ensures Between(s, t0, t1) == s[CountUpTo(s, t0, false)..CountUpTo(s, t1, true)]
  {
    CountSplits(s, t0, false);
    CountSplits(s, t1, true);
    PartsBetween(s, CountUpTo(s, t0, false), CountUpTo(s, t1, true), t0, t1);
  }

  lemma {:induction false} PartsBetween(s: seq<Point>, a: nat, b: nat, t0: int, t1: int)
    requires a <= b <= |s|
    requires forall i | 0 <= i < |s| :: Before(s[i], t0, false) <==> i < a
    requires forall i | 0 <= i < |s| :: Before(s[i], t1, true) <==> i < b
    ensures Between(s, t0, t1) == s[a..b]
  {
    BetweenOfThree(s[..a], s[a..b], s[b..], t0, t1);
    assert s == s[..a] + s[a..b] + s[b..];
  }

  lemma {:induction false} BetweenOfThree(a: seq<Point>, b: seq<Point>, c: seq<Point>, t0: int, t1: int)
    requires forall i | 0 <= i < |a| :: Before(a[i], t0, false)
    requires forall i | 0 <= i < |b| :: !Before(b[i], t0, false) && Before(b[i], t1, true)
    requires forall i | 0 <= i < |c| :: !Before(c[i], t1, true)
    ensures Between(a + b + c, t0, t1) == b
  {
    BetweenAppend(a + b, c, t0, t1);
    BetweenAppend(a, b, t0, t1);
    NoneBetween(a, t0, t1);
    AllBetween(b, t0, t1);
    NoneBetween(c, t0, t1);
  }

  lemma {:induction false} LastUpToIsTheOneBefore(s: seq<Point>, t: int, n: nat)
    requires n <= |s|
    requires forall i | 0 <= i < n :: Before(s[i], t, true)
    requires forall i | n <= i < |s| :: !Before(s[i], t, true)
    ensures LastUpTo(s, t) == if n == 0 then None else Some(s[n - 1])
  {
    if n < |s| {
      LastUpToIsTheOneBefore(s[..|s| - 1], t, n);
    }
  }

  // ------------------------------------------------------------------
  // Lowest and highest values, and candles.
  // ------------------------------------------------------------------

  function Min(a: real, b: real): real { if b < a then b else a }

  function Max(a: real, b: real): real { if b > a then b else a }

  ghost predicate IsLow(s: seq<Point>, v: real) {
    (exists i | 0 <= i < |s| :: s[i].v == v) && forall i | 0 <= i < |s| :: v <= s[i].v
  }

  ghost predicate IsHigh(s: seq<Point>, v: real) {
    (exists i | 0 <= i < |s| :: s[i].v == v) && forall i | 0 <= i < |s| :: s[i].v <= v
  }

  lemma OneIsBoth(p: Point)
    ensures IsLow([p], p.v) && IsHigh([p], p.v)
  {
    assert [p][0].v == p.v;
  }

  lemma LowWithOneMore(s: seq<Point>, low: real, p: Point)
    requires IsLow(s, low)
    ensures IsLow(s + [p], Min(low, p.v))
  {
    var i :| 0 <= i < |s| && s[i].v == low;
    assert (s + [p])[i].v == low && (s + [p])[|s|] == p;
  }

  lemma HighWithOneMore(s: seq<Point>, high: real, p: Point)
    requires IsHigh(s, high)
    ensures IsHigh(s + [p], Max(high, p.v))
  {
    var i :| 0 <= i < |s| && s[i].v == high;
    assert (s + [p])[i].v == high && (s + [p])[|s|] == p;
  }

  /** The start of the bucket a time lies in: the multiple of the width at or below it. */
  function BucketOf(t: int, width: int): (start: int)
    requires width > 0
    ensures start <= t < start + width && start % width == 0
  {
    MultipleHasNoRemainder(t / width, width);
    t / width * width
  }

  lemma MultipleHasNoRemainder(k: int, width: int)
    requires width > 0
    ensures k * width % width == 0
  {
    QuotientIsUnique(k * width, width, k);
  }

  lemma TimesIsMonotone(a: int, b: int, width: int)
    requires width > 0
    ensures a <= b ==> a * width <= b * width
  {
  }

  lemma QuotientIsUnique(t: int, width: int, k: int)
    requires width > 0 && k * width <= t < k * width + width
    ensures k == t / width
  {
    var q := t / width;
    assert q * width <= t < q * width + width;
    TimesIsMonotone(k + 1, q, width);
    TimesIsMonotone(q + 1, k, width);
  }

  lemma SameBucket(t: int, start: int, width: int)
    requires width > 0 && start % width == 0 && start <= t < start + width
    ensures BucketOf(t, width) == start
  {
    QuotientIsUnique(t, width, start / width);
  }

  lemma BucketsAreMonotone(t: int, u: int, width: int)
    requires width > 0 && t <= u
    ensures BucketOf(t, width) <= BucketOf(u, width)
  {
    var a, b := BucketOf(t, width), BucketOf(u, width);
    if b < a {
      SameBucket(u, a, width);
    }
  }

  /** The points of a sequence that lie in the bucket starting at `start`. */
  function InBucket(s: seq<Point>, start: int, width: int): seq<Point> {
    Between(s, start, start + width - 1)
  }

  /** A candle with the exact open, high, low, close and count of some points. */
  ghost predicate SumsUp(c: Ohlc, s: seq<Point>) {
    && s != []
    && c.open == s[0].v
    && c.close == s[|s| - 1].v
    && IsHigh(s, c.high)
    && IsLow(s, c.low)
    && c.samples == |s|
  }

  ghost predicate StartsIncrease(out: seq<Ohlc>) {
    forall i, j | 0 <= i < j < |out| :: out[i].start < out[j].start
  }

  ghost predicate EachSumsUp(s: seq<Point>, width: int, out: seq<Ohlc>)
    requires width > 0
  {
    forall i | 0 <= i < |out| ::
      out[i].start % width == 0 && SumsUp(out[i], InBucket(s, out[i].start, width))
  }

  ghost predicate Covered(s: seq<Point>, width: int, out: seq<Ohlc>)
    requires width > 0
  {
    forall k | 0 <= k < |s| :: exists i | 0 <= i < |out| :: out[i].start == BucketOf(s[k].t, width)
  }

  ghost predicate AreCandles(s: seq<Point>, width: int, out: seq<Ohlc>)
    requires width > 0
  {
    StartsIncrease(out) && EachSumsUp(s, width, out) && Covered(s, width, out)
  }

  /** One round of the loop over the points. */
  function WithPoint(out: seq<Ohlc>, start: int, v: real): seq<Ohlc> {
    if out != [] && out[|out| - 1].start == start then
      var c := out[|out| - 1];
      out[|out| - 1 := Ohlc(start, c.open, Max(c.high, v), Min(c.low, v), v, c.samples + 1)]
    else
      out + [Ohlc(start, v, v, v, v, 1)]
  }

  lemma {:induction false} BetweenMembers(s: seq<Point>, t0: int, t1: int)
    ensures forall q <- Between(s, t0, t1) :: q in s && t0 <= q.t <= t1
  {
    if s == [] {
    } else {
      BetweenMembers(s[..|s| - 1], t0, t1);
    }
  }

  lemma SumsUpOneMore(c: Ohlc, s: seq<Point>, p: Point)
    requires SumsUp(c, s)
    ensures SumsUp(Ohlc(c.start, c.open, Max(c.high, p.v), Min(c.low, p.v), p.v, c.samples + 1), s + [p])
  {
    LowWithOneMore(s, c.low, p);
    HighWithOneMore(s, c.high, p);
  }

  /** Candles are only made at or before the bucket of the newest point. */
  lemma StartsUpToTheLast(s: seq<Point>, p: Point, width: int, out: seq<Ohlc>, i: nat)
    requires width > 0 && Sorted(s + [p]) && EachSumsUp(s, width, out) && i < |out|
    ensures out[i].start <= BucketOf(p.t, width)
  {
    var start := out[i].start;
    BetweenMembers(s, start, start + width - 1);
    var q := InBucket(s, start, width)[0];
    var k :| 0 <= k < |s| && s[k] == q;
    assert (s + [p])[k] == q && (s + [p])[|s|] == p;
    SameBucket(start, start, width);
    BucketsAreMonotone(start, p.t, width);
  }

  lemma NewBucketIsEmpty(s: seq<Point>, width: int, out: seq<Ohlc>, start: int)
    requires width > 0 && start % width == 0 && Covered(s, width, out)
    requires forall i | 0 <= i < |out| :: out[i].start != start
    ensures InBucket(s, start, width) == []
  {
    forall k | 0 <= k < |s|
      ensures !(start <= s[k].t <= start + width - 1)
    {
      if start <= s[k].t <= start + width - 1 {
        SameBucket(s[k].t, start, width);
      }
    }
    NoneBetween(s, start, start + width - 1);
  }

  lemma InBucketOneMore(s: seq<Point>, p: Point, start: int, width: int)
    requires width > 0 && start % width == 0
    ensures InBucket(s + [p], start, width) ==
            InBucket(s, start, width) + if BucketOf(p.t, width) == start then [p] else []
  {
    assert (s + [p])[..|s|] == s;
    if start <= p.t <= start + width - 1 {
      SameBucket(p.t, start, width);
    }
  }

  lemma CoveredWithOneMore(s: seq<Point>, p: Point, width: int, out: seq<Ohlc>, more: seq<Ohlc>)
    requires width > 0 && Covered(s, width, out) && |out| <= |more|
    requires forall i | 0 <= i < |out| :: more[i].start == out[i].start
    requires more != [] && more[|more| - 1].start == BucketOf(p.t, width)
    ensures Covered(s + [p], width, more)
  {
    forall k | 0 <= k < |s + [p]|
      ensures exists i | 0 <= i < |more| :: more[i].start == BucketOf((s + [p])[k].t, width)
    {
      if k < |s| {
        var i :| 0 <= i < |out| && out[i].start == BucketOf(s[k].t, width);
        assert more[i].start == BucketOf(s[k].t, width);
      }
    }
  }

  lemma KeptCandle(s: seq<Point>, p: Point, width: int, c: Ohlc)
    requires width > 0 && c.start % width == 0 && c.start != BucketOf(p.t, width)
    requires SumsUp(c, InBucket(s, c.start, width))
    ensures SumsUp(c, InBucket(s + [p], c.start, width))
  {
    InBucketOneMore(s, p, c.start, width);
    assert InBucket(s + [p], c.start, width) == InBucket(s, c.start, width);
  }

  lemma GrownCandle(s: seq<Point>, p: Point, width: int, c: Ohlc)
    requires width > 0 && c.start == BucketOf(p.t, width) && SumsUp(c, InBucket(s, c.start, width))
    ensures SumsUp(Ohlc(c.start, c.open, Max(c.high, p.v), Min(c.low, p.v), p.v, c.samples + 1),
                   InBucket(s + [p], c.start, width))
  {
    InBucketOneMore(s, p, c.start, width);
    SumsUpOneMore(c, InBucket(s, c.start, width), p);
  }

  lemma NewCandle(s: seq<Point>, p: Point, width: int, out: seq<Ohlc>)
    requires width > 0 && Covered(s, width, out)
    requires forall i | 0 <= i < |out| :: out[i].start != BucketOf(p.t, width)
    ensures SumsUp(Ohlc(BucketOf(p.t, width), p.v, p.v, p.v, p.v, 1),
                   InBucket(s + [p], BucketOf(p.t, width), width))
  {
    InBucketOneMore(s, p, BucketOf(p.t, width), width);
    NewBucketIsEmpty(s, width, out, BucketOf(p.t, width));
    assert InBucket(s + [p], BucketOf(p.t, width), width) == [p];
    OneIsBoth(p);
  }

  lemma OneMoreCandle(s: seq<Point>, p: Point, width: int, out: seq<Ohlc>)
    requires width > 0 && Sorted(s + [p]) && AreCandles(s, width, out)
    ensures AreCandles(s + [p], width, WithPoint(out, BucketOf(p.t, width), p.v))
  {
    var start := BucketOf(p.t, width);
    var more := WithPoint(out, start, p.v);
    forall i | 0 <= i < |out|
      ensures out[i].start <= start
    {
      StartsUpToTheLast(s, p, width, out, i);
    }
    CoveredWithOneMore(s, p, width, out, more);
    EachOneMore(s, p, width, out);
    StartsGrow(out, start, p.v);
  }

  lemma CandlesStep(s: seq<Point>, i: nat, width: int, out: seq<Ohlc>)
    requires width > 0 && Sorted(s) && i < |s| && AreCandles(s[..i], width, out)
    ensures AreCandles(s[..i + 1], width, WithPoint(out, BucketOf(s[i].t, width), s[i].v))
  {
    assert s[..i + 1] == s[..i] + [s[i]];
    OneMoreCandle(s[..i], s[i], width, out);
  }

  lemma EachOneMore(s: seq<Point>, p: Point, width: int, out: seq<Ohlc>)
    requires width > 0 && AreCandles(s, width, out)
    requires forall i | 0 <= i < |out| :: out[i].start <= BucketOf(p.t, width)
    ensures EachSumsUp(s + [p], width, WithPoint(out, BucketOf(p.t, width), p.v))
  {
    var more := WithPoint(out, BucketOf(p.t, width), p.v);
    forall i | 0 <= i < |more|
      ensures more[i].start % width == 0 && SumsUp(more[i], InBucket(s + [p], more[i].start, width))
    {
      CandleOneMore(s, p, width, out, i);
    }
  }

  lemma CandleOneMore(s: seq<Point>, p: Point, width: int, out: seq<Ohlc>, i: nat)
    requires width > 0 && AreCandles(s, width, out)
    requires forall i | 0 <= i < |out| :: out[i].start <= BucketOf(p.t, width)
    requires i < |WithPoint(out, BucketOf(p.t, width), p.v)|
    ensures
      && var c := WithPoint(out, BucketOf(p.t, width), p.v)[i];
      && c.start % width == 0
      && SumsUp(c, InBucket(s + [p], c.start, width))
  {
    var more := WithPoint(out, BucketOf(p.t, width), p.v);
    if i < |more| - 1 {
      assert more[i] == out[i] && out[i].start < more[|more| - 1].start;
      KeptCandle(s, p, width, out[i]);
    } else if |more| == |out| {
      GrownCandle(s, p, width, out[i]);
    } else {
      NewCandle(s, p, width, out);
    }
  }

  lemma StartsGrow(out: seq<Ohlc>, start: int, v: real)
    requires StartsIncrease(out) && forall i | 0 <= i < |out| :: out[i].start <= start
    ensures StartsIncrease(WithPoint(out, start, v))
  {
  }

  /** The buckets' points, one bucket after the other. */
  function Joined(s: seq<Point>, width: int, out: seq<Ohlc>): seq<Point> {
    if out == [] then []
    else Joined(s, width, out[..|out| - 1]) + InBucket(s, out[|out| - 1].start, width)
  }

  /** Candles partition the points they were made from: one bucket after the other they
      give back every point, in order. */
  lemma {:induction false} CandlesPartition(s: seq<Point>, width: int, out: seq<Ohlc>)
    requires width > 0 && Sorted(s) && AreCandles(s, width, out)
    ensures Joined(s, width, out) == s
  {
    if out == [] {
      if |s| > 0 {
        CoveredHasCandles(s, width, out);
      }
    } else {
      JoinedIsAPrefix(s, width, out, |out|);
      assert out[..|out|] == out;
      NothingAfterTheLast(s, width, out);
    }
  }

  lemma {:induction false} NothingAfterTheLast(s: seq<Point>, width: int, out: seq<Ohlc>)
    requires width > 0 && AreCandles(s, width, out) && out != []
    ensures CountUpTo(s, out[|out| - 1].start + width - 1, true) == |s|
  {
    var last := out[|out| - 1].start + width - 1;
    forall k | 0 <= k < |s|
      ensures Before(s[k], last, true)
    {
      var i :| 0 <= i < |out| && out[i].start == BucketOf(s[k].t, width);
      assert out[i].start <= out[|out| - 1].start;
    }
    CountIs(s, last, true, |s|);
  }

  lemma CoveredHasCandles(s: seq<Point>, width: int, out: seq<Ohlc>)
    requires width > 0 && Covered(s, width, out) && |s| > 0
    ensures out != []
  {
    var p := s[0];
    var i :| 0 <= i < |out| && out[i].start == BucketOf(p.t, width);
  }

  lemma {:induction false} JoinedIsAPrefix(s: seq<Point>, width: int, out: seq<Ohlc>, k: nat)
    requires width > 0 && Sorted(s) && AreCandles(s, width, out) && 1 <= k <= |out|
    ensures Joined(s, width, out[..k]) == s[..CountUpTo(s, out[k - 1].start + width - 1, true)]
  {
    assert out[..k][..k - 1] == out[..k - 1] && out[..k][k - 1] == out[k - 1];
    BucketFollows(s, width, out, k - 1);
    if k > 1 {
      JoinedIsAPrefix(s, width, out, k - 1);
    }
  }

  lemma {:induction false} BucketFollows(s: seq<Point>, width: int, out: seq<Ohlc>, k: nat)
    requires width > 0 && Sorted(s) && AreCandles(s, width, out) && k < |out|
    ensures
      && var a := if k == 0 then 0 else CountUpTo(s, out[k - 1].start + width - 1, true);
      && s[..a] + InBucket(s, out[k].start, width) == s[..CountUpTo(s, out[k].start + width - 1, true)]
  {
    BucketStartsThere(s, width, out, k);
    BetweenFollows(s, out[k].start, out[k].start + width - 1);
  }

  lemma {:induction false} BetweenFollows(s: seq<Point>, t0: int, t1: int)
    requires Sorted(s) && t0 <= t1
    ensures s[..CountUpTo(s, t0, false)] + Between(s, t0, t1) == s[..CountUpTo(s, t1, true)]
  {
    CountsAreOrdered(s, t0, t1);
    SliceIsBetween(s, t0, t1);
  }

  lemma {:induction false} BucketStartsThere(s: seq<Point>, width: int, out: seq<Ohlc>, k: nat)
    requires width > 0 && AreCandles(s, width, out) && k < |out|
    ensures CountUpTo(s, out[k].start, false) ==
            if k == 0 then 0 else CountUpTo(s, out[k - 1].start + width - 1, true)
  {
    if k == 0 {
      NothingBeforeTheFirst(s, width, out);
    } else {
      forall j | 0 <= j < |s|
        ensures Before(s[j], out[k].start, false) <==> Before(s[j], out[k - 1].start + width - 1, true)
      {
        GapIsEmpty(s, width, out, k, j);
      }
      SameCount(s, out[k].start, out[k - 1].start + width - 1);
    }
  }

  lemma {:induction false} CountsAreOrdered(s: seq<Point>, t0: int, t1: int)
    requires t0 <= t1
    ensures CountUpTo(s, t0, false) <= CountUpTo(s, t1, true)
  {
    if s == [] {
    } else {
      CountsAreOrdered(s[..|s| - 1], t0, t1);
    }
  }

  /** No point lies between one candle's bucket and the next. */
  lemma GapIsEmpty(s: seq<Point>, width: int, out: seq<Ohlc>, k: nat, j: nat)
    requires width > 0 && AreCandles(s, width, out) && 1 <= k < |out| && j < |s|
    ensures Before(s[j], out[k].start, false) <==> Before(s[j], out[k - 1].start + width - 1, true)
  {
    var i :| 0 <= i < |out| && out[i].start == BucketOf(s[j].t, width);
    NeighboursAreApart(out[k - 1].start, out[k].start, width);
    assert i < k ==> out[i].start <= out[k - 1].start;
    assert i >= k ==> out[k].start <= out[i].start;
  }

  lemma {:induction false} NothingBeforeTheFirst(s: seq<Point>, width: int, out: seq<Ohlc>)
    requires width > 0 && AreCandles(s, width, out) && out != []
    ensures CountUpTo(s, out[0].start, false) == 0
  {
    forall j | 0 <= j < |s|
      ensures !Before(s[j], out[0].start, false)
    {
      var i :| 0 <= i < |out| && out[i].start == BucketOf(s[j].t, width);
      assert out[0].start <= out[i].start;
    }
    CountIs(s, out[0].start, false, 0);
  }

  lemma {:induction false} SameCount(s: seq<Point>, t: int, u: int)
    requires forall j | 0 <= j < |s| :: Before(s[j], t, false) <==> Before(s[j], u, true)
    ensures CountUpTo(s, t, false) == CountUpTo(s, u, true)
  {
    if s == [] {
    } else {
      SameCount(s[..|s| - 1], t, u);
    }
  }

  lemma NeighboursAreApart(a: int, b: int, width: int)
    requires width > 0 && a % width == 0 && b % width == 0 && a < b
    ensures a + width <= b
  {
    if b < a + width {
      SameBucket(b, a, width);
    }
  }

  // ------------------------------------------------------------------
  // The series after a whole history of pushes.
  // ------------------------------------------------------------------

  /** What a series of some capacity holds after pushing the points in turn. */
  function After(history: seq<Point>, cap: nat): seq<Point>
    requires cap >= 1
  {
    if history == [] then []
    else Pushed(After(history[..|history| - 1], cap), cap, history[|history| - 1])
  }

  function At(s: seq<Point>, t: int): seq<Point> { Between(s, t, t) }

  ghost predicate IsSuffix(a: seq<Point>, b: seq<Point>) {
    |a| <= |b| && a == b[|b| - |a|..]
  }

  /** Inserting appends to the points of its own time and touches no others. */
  lemma AtInserted(s: seq<Point>, p: Point, t: int)
    requires Sorted(s)
    ensures At(Inserted(s, p), t) == At(s, t) + if p.t == t then [p] else []
  {
    CountSplits(s, p.t, true);
    var n := CountUpTo(s, p.t, true);
    assert s == s[..n] + s[n..];
    AtBetween(s[..n], p, s[n..], t);
  }

  lemma AtBetween(a: seq<Point>, p: Point, b: seq<Point>, t: int)
    requires forall i | 0 <= i < |b| :: !Before(b[i], p.t, true)
    ensures At(a + [p] + b, t) == At(a + b, t) + if p.t == t then [p] else []
  {
    BetweenAppend(a + [p], b, t, t);
    BetweenAppend(a, [p], t, t);
    BetweenAppend(a, b, t, t);
    assert [p][..0] == [];
    if p.t == t {
      NoneBetween(b, t, t);
    }
  }

  lemma PushedKeepsShape(s: seq<Point>, cap: nat, p: Point)
    requires cap >= 1 && Sorted(s) && |s| <= cap
    ensures Sorted(Pushed(s, cap, p))
    ensures |Pushed(s, cap, p)| == if |s| == cap then cap else |s| + 1
  {
    InsertedIsSorted(if |s| == cap then s[1..] else s, p);
  }

  lemma PushedAt(s: seq<Point>, cap: nat, p: Point, t: int)
    requires cap >= 1 && Sorted(s)
    ensures
      && var more := if p.t == t then [p] else [];
      && IsSuffix(At(Pushed(s, cap, p), t), At(s, t) + more)
      && (|s| != cap ==> At(Pushed(s, cap, p), t) == At(s, t) + more)
  {
    if |s| == cap {
      AtInserted(s[1..], p, t);
      WithoutTheFirst(s, t);
      SuffixWith(At(s[1..], t), At(s, t), if p.t == t then [p] else []);
    } else {
      AtInserted(s, p, t);
    }
  }

  lemma WithoutTheFirst(s: seq<Point>, t: int)
    requires s != []
    ensures IsSuffix(At(s[1..], t), At(s, t))
  {
    assert s == s[..1] + s[1..];
    BetweenAppend(s[..1], s[1..], t, t);
  }

  lemma SuffixWith(a: seq<Point>, b: seq<Point>, more: seq<Point>)
    requires IsSuffix(a, b)
    ensures IsSuffix(a + more, b + more)
  {
  }

  lemma SuffixOfSuffix(a: seq<Point>, b: seq<Point>, c: seq<Point>, more: seq<Point>)
    requires IsSuffix(a, b + more) && IsSuffix(b, c)
    ensures IsSuffix(a, c + more)
  {
    assert c == c[..|c| - |b|] + b;
    assert c + more == c[..|c| - |b|] + (b + more);
  }

  /** After every history the series is sorted and holds as many points as fit. */
  lemma {:induction false} SeriesIsSorted(history: seq<Point>, cap: nat)
    requires cap >= 1
    ensures Sorted(After(history, cap))
    ensures |After(history, cap)| == if |history| < cap then |history| else cap
  {
    if history == [] {
    } else {
      var k := |history| - 1;
      SeriesIsSorted(history[..k], cap);
      PushedKeepsShape(After(history[..k], cap), cap, history[k]);
    }
  }

  /** After every history the series holds, for each time, the latest pushes of that time
      in the order they came: all of them as long as nothing was dropped. */
  lemma {:induction false} SeriesIsStable(history: seq<Point>, cap: nat, t: int)
    requires cap >= 1
    ensures IsSuffix(At(After(history, cap), t), At(history, t))
    ensures |history| <= cap ==> At(After(history, cap), t) == At(history, t)
  {
    if history == [] {
    } else {
      var k := |history| - 1;
      SeriesIsStable(history[..k], cap, t);
      SeriesIsSorted(history[..k], cap);
      AtLast(history, t);
      PushedAfter(After(history[..k], cap), cap, history[k], At(history[..k], t), t);
    }
  }

  lemma AtLast(s: seq<Point>, t: int)
    requires s != []
    ensures At(s, t) == At(s[..|s| - 1], t) + if s[|s| - 1].t == t then [s[|s| - 1]] else []
  {
  }

  lemma PushedAfter(s: seq<Point>, cap: nat, p: Point, past: seq<Point>, t: int)
    requires cap >= 1 && Sorted(s) && IsSuffix(At(s, t), past)
    ensures
      && var more := if p.t == t then [p] else [];
      && IsSuffix(At(Pushed(s, cap, p), t), past + more)
      && (|s| != cap && At(s, t) == past ==> At(Pushed(s, cap, p), t) == past + more)
  {
    PushedAt(s, cap, p, t);
    SuffixOfSuffix(At(Pushed(s, cap, p), t), At(s, t), past, if p.t == t then [p] else []);
  }

  /** Points that arrive in order: the series holds the newest ones, as they came. */
  lemma {:induction false} InOrderKeepsTheNewest(history: seq<Point>, cap: nat)
    requires cap >= 1 && Sorted(history)
    ensures After(history, cap) == Newest(history, cap)
  {
    if history == [] {
    } else {
      var k := |history| - 1;
      InOrderKeepsTheNewest(history[..k], cap);
      PushedNewest(history, cap);
    }
  }

  function Newest(s: seq<Point>, n: nat): seq<Point> {
    if |s| <= n then s else s[|s| - n..]
  }

  lemma PushedNewest(s: seq<Point>, cap: nat)
    requires cap >= 1 && Sorted(s) && s != []
    ensures Pushed(Newest(s[..|s| - 1], cap), cap, s[|s| - 1]) == Newest(s, cap)
  {
    var k := |s| - 1;
    var from := if |s| <= cap then 0 else |s| - cap;
    SliceIsSorted(s, from, k);
    InsertedAtTheEnd(s[from..k], s[k]);
    NewestSplits(s, cap);
    NewestDropped(s[..k], cap);
    SliceOfPrefix(s, from, k);
    PushedOnto(Newest(s[..k], cap), cap, s[k], s[from..k]);
  }

  lemma SliceOfPrefix<T>(s: seq<T>, from: nat, k: nat)
    requires from <= k <= |s|
    ensures s[..k][from..] == s[from..k]
  {
  }

  lemma PushedOnto(held: seq<Point>, cap: nat, p: Point, rest: seq<Point>)
    requires cap >= 1 && rest == (if |held| == cap then held[1..] else held) && Inserted(rest, p) == rest + [p]
    ensures Pushed(held, cap, p) == rest + [p]
  {
  }

  lemma NewestSplits(s: seq<Point>, cap: nat)
    requires cap >= 1 && s != []
    ensures Newest(s, cap) == s[if |s| <= cap then 0 else |s| - cap..|s| - 1] + [s[|s| - 1]]
  {
  }

  lemma SliceIsSorted(s: seq<Point>, from: nat, k: nat)
    requires Sorted(s) && from <= k < |s|
    ensures Sorted(s[from..k]) && (from < k ==> s[from..k][k - from - 1].t <= s[k].t)
  {
  }

  lemma NewestDropped(s: seq<Point>, cap: nat)
    requires cap >= 1
    ensures
      && var held := Newest(s, cap);
      && (if |held| == cap then held[1..] else held) == s[if |s| < cap then 0 else |s| + 1 - cap..]
  {
  }
}
