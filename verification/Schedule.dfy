/** When a token's milestone and periodic snapshots are due, and how long a token stays in memory. */
module Schedule {
  import Amounts

  const I64_MAX: int := 0x7FFF_FFFF_FFFF_FFFF
  const I64_MIN: int := -0x8000_0000_0000_0000

  type I64 = x: int | I64_MIN <= x <= I64_MAX

  function Saturate(x: int): I64 {
    if x > I64_MAX then I64_MAX else if x < I64_MIN then I64_MIN else x
  }

  datatype PeriodicBand = PeriodicBand(fromAge: I64, toAge: I64, every: I64)

  datatype SnapshotSchedule = SnapshotSchedule(milestones: seq<I64>, bands: seq<PeriodicBand>)

  datatype MemoryPolicy = MemoryPolicy(hot: I64, warm: I64, cold: I64)

  function DefaultSchedule(): SnapshotSchedule {
    SnapshotSchedule(
      [5_000, 15_000, 30_000, 60_000, 120_000, 300_000, 900_000, 1_800_000, 3_600_000],
      [PeriodicBand(0, 300_000, 5_000),
       PeriodicBand(300_000, 1_800_000, 15_000),
       PeriodicBand(1_800_000, 7_200_000, 60_000)])
  }

  function DefaultMemory(): MemoryPolicy {
    MemoryPolicy(30 * 60 * 1000, 2 * 60 * 60 * 1000, 2 * 60 * 60 * 1000)
  }

  // ---------------------------------------------------------------- what is due

  /** The grid point `k` steps after `start`. */
  function Step(start: int, k: nat, every: int): int {
    if k == 0 then start else Step(start, k - 1, every) + every
  }

  ghost predicate IsStep(start: int, every: int, t: int) {
    exists k: nat :: t == Step(start, k, every)
  }

  ghost predicate OnGrid(b: PeriodicBand, discovered: I64, t: int) {
    t <= Saturate(discovered + b.toAge) && IsStep(Saturate(discovered + b.fromAge), b.every, t)
  }

  predicate PositiveSteps(s: SnapshotSchedule) {
    forall b :: b in s.bands ==> b.every > 0
  }

  predicate IsMilestone(s: SnapshotSchedule, discovered: I64, t: int) {
    exists i :: 0 <= i < |s.milestones| && t == Saturate(discovered + s.milestones[i])
  }

  ghost predicate InBands(bands: seq<PeriodicBand>, discovered: I64, t: int) {
    exists i :: 0 <= i < |bands| && OnGrid(bands[i], discovered, t)
  }

  ghost predicate IsDue(s: SnapshotSchedule, discovered: I64, t: int) {
    IsMilestone(s, discovered, t) || InBands(s.bands, discovered, t)
  }

  /** The skip-ahead neither overflows its subtraction nor loses its place by saturating below `I64_MAX`. */
  predicate SkipFits(start: I64, from: I64, every: I64)
    requires every > 0
  {
    from - start <= I64_MAX && (start >= 0 || ((from - start) / every + 1) * every <= I64_MAX)
  }

  /** What the 64-bit arithmetic asks of its arguments: a positive step to divide by, a skip-ahead
      that fits, and a loop bound the saturating step can pass. */
  predicate BandSafe(b: PeriodicBand, discovered: I64, from: I64, until: I64) {
    var start := Saturate(discovered + b.fromAge);
    b.every > 0
    && (start <= from ==> SkipFits(start, from, b.every))
    && (until < I64_MAX || Saturate(discovered + b.toAge) < I64_MAX)
  }

  predicate Safe(s: SnapshotSchedule, discovered: I64, from: I64, until: I64) {
    forall b :: b in s.bands ==> BandSafe(b, discovered, from, until)
  }

  // ---------------------------------------------------------------- strictly increasing lists

  predicate Increasing(s: seq<int>) {
    forall i, j :: 0 <= i < j < |s| ==> s[i] < s[j]
  }

  /** The library's `dedup`: drops every element equal to its predecessor. */
  function Dedup(s: seq<int>): (r: seq<int>)
    requires Amounts.Sorted(s)
    ensures Increasing(r) && (forall x :: x in r <==> x in s)
    ensures s != [] ==> r != [] && r[0] == s[0]
  {
    if |s| <= 1 then s
    else
      var rest := Dedup(s[1..]);
      assert s == [s[0]] + s[1..];
      if s[0] == s[1] then rest
      else
        assert forall x :: x in rest ==> x in s[1..];
        assert s[1] <= rest[0];
        [s[0]] + rest
  }

  lemma HeadIn(s: seq<int>)
    ensures s != [] ==> s[0] in s
  {
  }

  /** Two strictly increasing lists with the same elements are the same list. */
  lemma {:induction false} IncreasingUnique(a: seq<int>, b: seq<int>)
    requires Increasing(a) && Increasing(b)
    requires forall x :: x in a <==> x in b
    ensures a == b
  {
    HeadIn(a);
    HeadIn(b);
    if a != [] && b != [] {
      assert a[0] in b && b[0] in a;
      assert a[0] == b[0];
      assert a == [a[0]] + a[1..] && b == [b[0]] + b[1..];
      forall x ensures x in a[1..] <==> x in b[1..] {
        if x in a[1..] { assert x in b && x != b[0]; }
        if x in b[1..] { assert x in a && x != a[0]; }
      }
      IncreasingUnique(a[1..], b[1..]);
    }
  }

  /** The due times in the half-open interval `(from, until]`, in order. */
  ghost function DueSeq(s: SnapshotSchedule, discovered: I64, from: int, until: int): seq<int>
    decreases until - from
  {
    if until <= from then []
    else DueSeq(s, discovered, from, until - 1) + if IsDue(s, discovered, until) then [until] else []
  }

  lemma {:induction false} DueSeqMembers(s: SnapshotSchedule, discovered: I64, from: int, until: int)
    ensures Increasing(DueSeq(s, discovered, from, until))
    ensures forall t :: t in DueSeq(s, discovered, from, until) <==> from < t <= until && IsDue(s, discovered, t)
    decreases until - from
  {
    if until > from {
      DueSeqMembers(s, discovered, from, until - 1);
      var before := DueSeq(s, discovered, from, until - 1);
      forall i | 0 <= i < |before| ensures before[i] < until {
        assert before[i] in before;
      }
    }
  }

  /** Emitting in two steps gives the same stamps, in the same order, as emitting in one. */
  lemma {:induction false} DueSplits(s: SnapshotSchedule, discovered: I64, a: int, b: int, c: int)
    requires a <= b <= c
    ensures DueSeq(s, discovered, a, c) == DueSeq(s, discovered, a, b) + DueSeq(s, discovered, b, c)
    decreases c - b
  {
    if b < c {
      DueSplits(s, discovered, a, b, c - 1);
    }
  }

  lemma {:induction false} NothingDue(s: SnapshotSchedule, discovered: I64, from: int, until: int)
    requires forall t :: from < t <= until ==> !IsDue(s, discovered, t)
    ensures DueSeq(s, discovered, from, until) == []
    decreases until - from
  {
    if from < until {
      NothingDue(s, discovered, from, until - 1);
    }
  }

  // ---------------------------------------------------------------- the code

  lemma {:induction false} StepIsProduct(start: int, k: nat, every: int)
    ensures Step(start, k, every) == start + k * every
  {
    if k > 0 {
      StepIsProduct(start, k - 1, every);
    }
  }

  /** Grid points are spaced by `every`: nothing lies strictly between two neighbours. */
  lemma {:induction false} GridSpacing(start: int, j: nat, k: nat, every: int)
    requires every > 0
    ensures j <= k ==> Step(start, j, every) <= Step(start, k, every)
    ensures j > k ==> Step(start, j, every) >= Step(start, k, every) + every
    decreases j + k
  {
    if j > k + 1 {
      GridSpacing(start, j - 1, k, every);
    } else if j < k {
      GridSpacing(start, j, k - 1, every);
    }
  }

  /** The skip-ahead: the step count past `from`, multiplied out in 64-bit arithmetic. */
  function SkipTo(start: I64, from: I64, every: I64): I64
    requires every > 0
  {
    var skipped := (from - start) / every + 1;
    Saturate(start + Saturate(skipped * every))
  }

  /** It lands on the first grid point after `from` exactly when it fits. */
  lemma SkipAhead(start: I64, from: I64, every: I64) returns (k: nat)
    requires every > 0 && start <= from && from - start <= I64_MAX
    ensures SkipTo(start, from, every) == Saturate(Step(start, k, every)) <==> SkipFits(start, from, every)
    ensures from < Step(start, k, every) <= from + every
  {
    k := (from - start) / every + 1;
    DivisionBounds(from - start, every);
    StepIsProduct(start, k, every);
  }

  /** A negative start far below `from`: the saturated product lands between two grid points. */
  lemma SkipAheadOffGrid()
    ensures SkipTo(-10, I64_MAX - 15, 100) == I64_MAX - 10 && !IsStep(-10, 100, I64_MAX - 10)
  {
    forall k: nat ensures Step(-10, k, 100) != I64_MAX - 10 {
      StepIsProduct(-10, k, 100);
    }
  }

  lemma DivisionBounds(x: nat, e: int)
    requires e > 0
    ensures x < (x / e + 1) * e <= x + e
  {
    assert x == x / e * e + x % e;
    assert (x / e + 1) * e == x / e * e + e;
  }

  /** Everything on the grid below step `k` is at most `from`, when step `k` is the first one after it. */
  lemma BelowSkip(start: int, k: nat, every: int, from: int)
    requires every > 0 && Step(start, k, every) <= from + every
    ensures forall j: nat :: j < k ==> Step(start, j, every) <= from
  {
    forall j: nat | j < k ensures Step(start, j, every) <= from {
      GridSpacing(start, k, j, every);
    }
  }

  /** A loop that has passed `until` or `end` has seen every grid point up to both. */
  lemma NoneAbove(start: I64, k: nat, every: int, u: int)
    requires every > 0 && u < Saturate(Step(start, k, every)) && IsStep(start, every, u)
    ensures exists j: nat :: j < k && u == Step(start, j, every)
  {
    var j: nat :| u == Step(start, j, every);
    GridSpacing(start, j, k, every);
    GridSpacing(start, 0, k, every);
  }

  /** One band: every grid point in `(from, until]`, found by skipping ahead and stepping. */
  method BandTimes(start: I64, end: I64, every: I64, from: I64, until: I64) returns (times: seq<int>)
    requires every > 0 && (start <= from ==> SkipFits(start, from, every)) && (until < I64_MAX || end < I64_MAX)
    ensures forall t :: t in times <==> from < t <= until && t <= end && IsStep(start, every, t)
  {
    times := [];
    var t: I64 := start;
    ghost var k: nat := 0;
    if t <= from {
      t := SkipTo(start, from, every);
      k := SkipAhead(start, from, every);
      BelowSkip(start, k, every, from);
    }
    while t <= until && t <= end
      invariant t == Saturate(Step(start, k, every)) && t >= start
      invariant forall u :: u in times ==> from < u <= until && u <= end && IsStep(start, every, u)
      invariant forall j: nat :: (j < k && from < Step(start, j, every) <= until && Step(start, j, every) <= end)
                             ==> Step(start, j, every) in times
      decreases I64_MAX - t
    {
      if t > from {
        times := times + [t];
      }
      GridSpacing(start, k, k, every);
      t := Saturate(t + every);
      k := k + 1;
    }
    forall u | from < u <= until && u <= end && IsStep(start, every, u) ensures u in times {
      NoneAbove(start, k, every, u);
    }
  }

  method MilestoneTimes(milestones: seq<I64>, discovered: I64, from: I64, until: I64) returns (times: seq<int>)
    ensures forall t :: t in times <==>
      from < t <= until && exists k :: 0 <= k < |milestones| && t == Saturate(discovered + milestones[k])
  {
    times := [];
    var i := 0;
    while i < |milestones|
      invariant 0 <= i <= |milestones|
      invariant forall t :: t in times <==>
        from < t <= until && exists k :: 0 <= k < i && t == Saturate(discovered + milestones[k])
    {
      var t := Saturate(discovered + milestones[i]);
      if t > from && t <= until {
        times := times + [t];
      }
      i := i + 1;
    }
  }

  lemma OneMoreBand(bands: seq<PeriodicBand>, i: nat, discovered: I64)
    requires i < |bands|
    ensures forall t :: InBands(bands[..i + 1], discovered, t)
                   <==> InBands(bands[..i], discovered, t) || OnGrid(bands[i], discovered, t)
  {
    var shorter, longer := bands[..i], bands[..i + 1];
    forall t ensures InBands(longer, discovered, t)
      <==> InBands(shorter, discovered, t) || OnGrid(bands[i], discovered, t)
    {
      if InBands(shorter, discovered, t) {
        var k :| 0 <= k < i && OnGrid(shorter[k], discovered, t);
        assert OnGrid(longer[k], discovered, t);
      }
      if OnGrid(bands[i], discovered, t) { assert OnGrid(longer[i], discovered, t); }
    }
  }

  method AllBandTimes(bands: seq<PeriodicBand>, discovered: I64, from: I64, until: I64) returns (times: seq<int>)
    requires forall b :: b in bands ==> BandSafe(b, discovered, from, until)
    ensures forall t :: t in times <==> from < t <= until && InBands(bands, discovered, t)
  {
    times := [];
    var i := 0;
    while i < |bands|
      invariant 0 <= i <= |bands|
      invariant forall t :: t in times <==> from < t <= until && InBands(bands[..i], discovered, t)
    {
      var b := bands[i];
      assert BandSafe(b, discovered, from, until);
      var more := BandTimes(Saturate(discovered + b.fromAge), Saturate(discovered + b.toAge), b.every, from, until);
      OneMoreBand(bands, i, discovered);
      times := times + more;
      i := i + 1;
    }
    assert bands[..i] == bands;
  }

  /** Exactly the due times of `(from, until]`, strictly increasing. */
  method DueTimes(s: SnapshotSchedule, discovered: I64, from: I64, until: I64) returns (times: seq<int>)
    requires Safe(s, discovered, from, until)
    ensures times == DueSeq(s, discovered, from, until)
  {
    var milestones := MilestoneTimes(s.milestones, discovered, from, until);
    var periodic := AllBandTimes(s.bands, discovered, from, until);
    times := milestones + periodic;
    assert forall t :: t in times <==> from < t <= until && IsDue(s, discovered, t);
    Amounts.SortFacts(times);
    Amounts.SameMembers(Amounts.Sort(times), times);
    times := Dedup(Amounts.Sort(times));
    DueSeqMembers(s, discovered, from, until);
    IncreasingUnique(times, DueSeq(s, discovered, from, until));
  }

  // ---------------------------------------------------------------- eviction against the schedule

  /** Nothing is scheduled beyond age `age`. */
  predicate CoversSchedule(s: SnapshotSchedule, age: int) {
    && (forall i :: 0 <= i < |s.milestones| ==> s.milestones[i] <= age)
    && forall b :: b in s.bands ==> b.toAge <= age
  }

  /** Once the covering age is reached, the emitted stamps are the token's whole schedule. */
  lemma WholeSchedule(s: SnapshotSchedule, discovered: I64, age: int, until: int, later: int)
    requires CoversSchedule(s, age) && discovered <= until && Saturate(discovered + age) <= until <= later
    ensures DueSeq(s, discovered, discovered, later) == DueSeq(s, discovered, discovered, until)
  {
    forall t | until < t <= later ensures !IsDue(s, discovered, t) {
      assert forall i :: 0 <= i < |s.bands| ==> !OnGrid(s.bands[i], discovered, t);
    }
    DueSplits(s, discovered, discovered, until, later);
    NothingDue(s, discovered, until, later);
  }

  lemma DefaultsCover()
    ensures PositiveSteps(DefaultSchedule()) && CoversSchedule(DefaultSchedule(), DefaultMemory().cold)
  {
  }
}
