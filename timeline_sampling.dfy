/** The shared month checkpoints of the three plans and the resampling of each raw monthly
    timeline onto them. */
module TimelineSampling {
  import opened DebtSimulation

  predicate Increasing(s: seq<int>)
  {
    forall i, j :: 0 <= i < j < |s| ==> s[i] < s[j]
  }

  /** The longest of the three plans, `Math.max(...)` of their month counts. */
  function Longest(a: int, b: int, c: int): (m: int)
    ensures m >= a && m >= b && m >= c
    ensures m == a || m == b || m == c
  {
    if a >= b && a >= c then a else if b >= c then b else c
  }

  /** A checkpoint: a positive multiple of 12 up to the longest plan, or a plan's own length. */
  predicate IsCheckpoint(m: int, a: int, b: int, c: int)
  {
    (12 <= m <= Longest(a, b, c) && m % 12 == 0) || m == a || m == b || m == c
  }

  /** Adds m to an increasing list unless it is there already (a Set's `add`, kept in order). */
  function AddMonth(s: seq<int>, m: int): (r: seq<int>)
    requires Increasing(s)
    ensures Increasing(r)
    ensures forall x :: x in r <==> x in s || x == m
  {
    if s == [] then [m]
    else if m < s[0] then
      ConsIncreasing(m, s);
      [m] + s
    else if m == s[0] then s
    else
      var rest := AddMonth(s[1..], m);
      assert forall i :: 0 <= i < |s[1..]| ==> s[0] < s[1..][i];
      assert forall x :: x in rest ==> s[0] < x;
      ConsIncreasing(s[0], rest);
      assert s == [s[0]] + s[1..];
      [s[0]] + rest
  }

  /** A month below every month of an increasing list can go in front of it. */
  lemma ConsIncreasing(x: int, r: seq<int>)
    requires Increasing(r)
    requires forall y :: y in r ==> x < y
    ensures Increasing([x] + r)
    ensures forall y :: y in [x] + r <==> y == x || y in r
  {
    forall i, j | 0 <= i < j < |[x] + r|
      ensures ([x] + r)[i] < ([x] + r)[j]
    {
      assert ([x] + r)[j] == r[j - 1];
      assert r[j - 1] in r;
    }
  }

  /** The months m, m + 12, m + 24, ... up to hi. */
  function YearMarks(m: int, hi: int): (r: seq<int>)
    decreases hi - m
    ensures Increasing(r)
    ensures forall i :: 0 <= i < |r| ==> m <= r[i]
  {
    if m > hi then [] else [m] + YearMarks(m + 12, hi)
  }

  /** A multiple of 12 below another is at least 12 below it. */
  lemma MultipleBelow(x: int, m: int)
    requires x % 12 == 0 && m % 12 == 0 && x < m
    ensures x <= m - 12
  {
    assert x == 12 * (x / 12) && m == 12 * (m / 12);
  }

  /** Starting from a multiple of 12, the marks are exactly the multiples of 12 in [m, hi]. */
  lemma {:induction false} YearMarksMembers(m: int, hi: int)
    requires m % 12 == 0
    decreases hi - m
    ensures forall x :: x in YearMarks(m, hi) <==> m <= x <= hi && x % 12 == 0
  {
    if m <= hi {
      YearMarksMembers(m + 12, hi);
      forall x | m < x && x % 12 == 0
        ensures m + 12 <= x
      {
        MultipleBelow(m, x);
      }
    }
  }

  /** The checkpoint list `[...checkpointSet].sort((a, b) => a - b)` as a value. */
  function CheckpointList(a: int, b: int, c: int): seq<int>
  {
    AddMonth(AddMonth(AddMonth(YearMarks(12, Longest(a, b, c)), a), b), c)
  }

  /** The checkpoint list is increasing and holds exactly the checkpoints. */
  lemma CheckpointListMembers(a: int, b: int, c: int)
    ensures Increasing(CheckpointList(a, b, c))
    ensures forall m :: m in CheckpointList(a, b, c) <==> IsCheckpoint(m, a, b, c)
  {
    YearMarksMembers(12, Longest(a, b, c));
  }

  /** The checkpoints: every multiple of 12 up to the longest plan, then the three plans'
      lengths, de-duplicated as a Set and sorted numerically. */
  method Checkpoints(a: int, b: int, c: int) returns (checkpoints: seq<int>)
    ensures checkpoints == CheckpointList(a, b, c)
    ensures Increasing(checkpoints)
    ensures forall m :: m in checkpoints <==> IsCheckpoint(m, a, b, c)
  {
    var maxMonth := Longest(a, b, c);
    checkpoints := [];
    var m := 12;
    while m <= maxMonth
      invariant checkpoints + YearMarks(m, maxMonth) == YearMarks(12, maxMonth)
    {
      assert YearMarks(m, maxMonth) == [m] + YearMarks(m + 12, maxMonth);
      checkpoints := checkpoints + [m];
      m := m + 12;
    }
    assert checkpoints == YearMarks(12, maxMonth) by {
      assert YearMarks(m, maxMonth) == [];
      assert checkpoints + [] == checkpoints;
    }
    checkpoints := AddMonth(checkpoints, a);
    checkpoints := AddMonth(checkpoints, b);
    checkpoints := AddMonth(checkpoints, c);
    CheckpointListMembers(a, b, c);
  }

  /** Two increasing lists with the same members are the same list, so the checkpoints are
      determined by the three plan lengths. */
  lemma {:induction false} IncreasingUnique(s: seq<int>, t: seq<int>)
    requires Increasing(s) && Increasing(t)
    requires forall x :: x in s <==> x in t
    ensures s == t
  {
    assert s != [] ==> s[0] in s && s[0] in t;
    assert t != [] ==> t[0] in t && t[0] in s;
    if s != [] && t != [] {
      assert s[0] == t[0] by {
        assert s[0] in t && t[0] in s;
      }
      forall x
        ensures x in s[1..] <==> x in t[1..]
      {
        if x in s[1..] {
          assert x in t && x != t[0];
        }
        if x in t[1..] {
          assert x in s && x != s[0];
        }
      }
      IncreasingUnique(s[1..], t[1..]);
      assert s == [s[0]] + s[1..] && t == [t[0]] + t[1..];
    }
  }

  /** Any increasing list of exactly the checkpoints is the checkpoint list: the Set followed
      by a numeric sort leaves no choice. */
  lemma CheckpointsDetermined(cs: seq<int>, a: int, b: int, c: int)
    requires Increasing(cs)
    requires forall m :: m in cs <==> IsCheckpoint(m, a, b, c)
    ensures cs == CheckpointList(a, b, c)
  {
    CheckpointListMembers(a, b, c);
    IncreasingUnique(cs, CheckpointList(a, b, c));
  }

  /** The index the backward search finds: the last entry whose month is at most the target,
      or -1 when there is none. */
  function LastAtOrBefore(raw: seq<TimelineEntry>, target: int): (i: int)
    ensures -1 <= i < |raw|
    ensures i >= 0 ==> raw[i].month <= target
    ensures forall j :: i < j < |raw| ==> raw[j].month > target
  {
    if raw == [] then -1
    else if raw[|raw| - 1].month <= target then |raw| - 1
    else LastAtOrBefore(raw[..|raw| - 1], target)
  }

  /** `for (let i = rawTimeline.length - 1; i >= 0; i--) if (rawTimeline[i].month <= targetMonth) ...`. */
  method FindAtOrBefore(raw: seq<TimelineEntry>, target: int) returns (index: int)
    ensures index == LastAtOrBefore(raw, target)
  {
    var i := |raw| - 1;
    while i >= 0
      invariant -1 <= i < |raw|
      invariant LastAtOrBefore(raw, target) == LastAtOrBefore(raw[..i + 1], target)
    {
      if raw[i].month <= target {
        return i;
      }
      assert raw[..i + 1][..i] == raw[..i];
      i := i - 1;
    }
    return -1;
  }

  /** The resampled entry for one checkpoint: a zero balance with the last interest total once
      the plan has been paid off before it (or when nothing precedes it), otherwise the last
      entry at or before it, relabelled with the checkpoint month. */
  function SampleAt(raw: seq<TimelineEntry>, target: int): TimelineEntry
  {
    var i := LastAtOrBefore(raw, target);
    if i < 0 || (raw != [] && target > raw[|raw| - 1].month && raw[|raw| - 1].totalBalance == 0.0) then
      TimelineEntry(target, 0.0, if raw != [] then raw[|raw| - 1].totalInterest else 0.0, 0)
    else
      raw[i].(month := target)
  }

  /** One resampled entry per checkpoint, in checkpoint order. */
  function Resampled(raw: seq<TimelineEntry>, checkpoints: seq<int>): seq<TimelineEntry>
  {
    seq(|checkpoints|, k requires 0 <= k < |checkpoints| => SampleAt(raw, checkpoints[k]))
  }

  /** `sampleTimeline(rawTimeline, checkpoints)`. */
  method SampleTimeline(raw: seq<TimelineEntry>, checkpoints: seq<int>) returns (timeline: seq<TimelineEntry>)
    ensures timeline == Resampled(raw, checkpoints)
  {
    timeline := [];
    var k := 0;
    while k < |checkpoints|
      invariant 0 <= k <= |checkpoints|
      invariant |timeline| == k
      invariant forall j :: 0 <= j < k ==> timeline[j] == SampleAt(raw, checkpoints[j])
    {
      var targetMonth := checkpoints[k];
      var i := FindAtOrBefore(raw, targetMonth);
      var entry;
      if i < 0 || (|raw| > 0 && targetMonth > raw[|raw| - 1].month && raw[|raw| - 1].totalBalance == 0.0) {
        entry := TimelineEntry(targetMonth, 0.0, if |raw| > 0 then raw[|raw| - 1].totalInterest else 0.0, 0);
      } else {
        entry := raw[i].(month := targetMonth);
      }
      timeline := timeline + [entry];
      k := k + 1;
    }
  }

  /** Every resampled entry carries its checkpoint's month. On a timeline numbered 1..n, a
      checkpoint within 1..n takes month's own figures; one past a paid-off end shows a zero
      balance and no open debt; one before month 1 shows nothing yet. */
  lemma SampleAtFacts(raw: seq<TimelineEntry>, target: int)
    requires forall i :: 0 <= i < |raw| ==> raw[i].month == i + 1
    ensures SampleAt(raw, target).month == target
    ensures 1 <= target <= |raw| ==>
              SampleAt(raw, target) == raw[target - 1].(month := target)
    ensures raw != [] && target > |raw| && raw[|raw| - 1].totalBalance == 0.0 ==>
              SampleAt(raw, target) == TimelineEntry(target, 0.0, raw[|raw| - 1].totalInterest, 0)
    ensures raw != [] && target > |raw| && raw[|raw| - 1].totalBalance != 0.0 ==>
              SampleAt(raw, target) == raw[|raw| - 1].(month := target)
    ensures target < 1 ==> SampleAt(raw, target) == TimelineEntry(target, 0.0, if raw != [] then raw[|raw| - 1].totalInterest else 0.0, 0)
  {
    var i := LastAtOrBefore(raw, target);
    if 1 <= target <= |raw| {
      assert raw[target - 1].month <= target;
    }
    if raw != [] && target > |raw| {
      assert i == |raw| - 1;
    }
  }

  /** Resampling invents no figures: a sampled balance is a recorded one or zero, and a sampled
      open-debt count is a recorded one or zero. */
  lemma SampleAtBounds(raw: seq<TimelineEntry>, target: int, n: nat)
    requires forall i :: 0 <= i < |raw| ==> raw[i].totalBalance >= 0.0
    requires forall i :: 0 <= i < |raw| ==> 0 <= raw[i].debtsRemaining <= n
    ensures SampleAt(raw, target).totalBalance >= 0.0
    ensures 0 <= SampleAt(raw, target).debtsRemaining <= n
  {
  }

  /** Once a timeline numbered 1..n ends at a zero balance with no open debt, every checkpoint
      from its last month on shows a zero balance and no open debt. */
  lemma SampledAfterPayoff(raw: seq<TimelineEntry>, target: int)
    requires forall i :: 0 <= i < |raw| ==> raw[i].month == i + 1
    requires raw != [] && raw[|raw| - 1].totalBalance == 0.0 && raw[|raw| - 1].debtsRemaining == 0
    requires target >= |raw|
    ensures SampleAt(raw, target).totalBalance == 0.0 && SampleAt(raw, target).debtsRemaining == 0
  {
    SampleAtFacts(raw, target);
  }
}
