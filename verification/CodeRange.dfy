/** Sets of code points held as sorted intervals: what an insertion into the interval array does to
    the array (Dependencies/oniguruma5/regparse.c, add_code_range_to_buf) and to the set. */
module CodeRange {
  import opened Regint

  /** OnigCodePoint: a 32-bit unsigned number. */
  type Code = x: int | 0 <= x < 0x1_0000_0000

  const LAST_CODE: Code := 0xffff_ffff
  const ONIG_MAX_MULTI_BYTE_RANGES_NUM := 10000
  const ONIGERR_TOO_MANY_MULTI_BYTE_RANGES := -205

  datatype Interval = Interval(from: Code, to: Code)

  type Ranges = seq<Interval>

  predicate Inside(r: Interval, c: int) { r.from <= c <= r.to }

  /** Code c is in one of the intervals. */
  predicate In(rs: Ranges, c: int) { exists i :: 0 <= i < |rs| && Inside(rs[i], c) }

  /** Intervals in order, none empty, no two meeting. */
  predicate Sorted(rs: Ranges) {
    && (forall i :: 0 <= i < |rs| ==> rs[i].from <= rs[i].to)
    && (forall i, j :: 0 <= i < j < |rs| ==> rs[i].to < rs[j].from)
  }

  /** What the class buffers keep: sorted, and no interval starts at code 0. */
  predicate Normal(rs: Ranges) { Sorted(rs) && (rs != [] ==> rs[0].from >= 1) }

  // ----- what one insertion does -----

  /** Intervals that end before the new one starts. */
  function Low(rs: Ranges, from: Code): (k: nat)
    ensures k <= |rs|
  {
    if rs == [] || from <= rs[0].to then 0 else 1 + Low(rs[1..], from)
  }

  /** data[x*2] - 1 in unsigned arithmetic. */
  function Before(from: Code): Code { if from == 0 then LAST_CODE else from - 1 }

  predicate Touches(r: Interval, to: Code) { to >= Before(r.from) }

  /** One past the last interval, from low on, that the new one reaches or is next to. */
  function High(rs: Ranges, low: nat, to: Code): (k: nat)
    requires low <= |rs|
    ensures low <= k <= |rs|
    decreases |rs|
  {
    if |rs| == low then low
    else if Touches(rs[|rs| - 1], to) then |rs|
    else High(rs[..|rs| - 1], low, to)
  }

  /** The new interval grown over the ones it replaces. */
  function Merged(rs: Ranges, from: Code, to: Code, low: nat, high: nat): Interval
    requires low <= high <= |rs|
  {
    if low == high then Interval(from, to)
    else Interval(if from > rs[low].from then rs[low].from else from, if to < rs[high - 1].to then rs[high - 1].to
      else to)
  }

  function Inserted(rs: Ranges, from: Code, to: Code): Ranges {
    if from > to then Inserted(rs, to, from)
    else
      var low := Low(rs, from);
      var high := High(rs, low, to);
      rs[..low] + [Merged(rs, from, to, low, high)] + rs[high..]
  }

  /** The insertion, or ONIGERR_TOO_MANY_MULTI_BYTE_RANGES. */
  function Insert(rs: Ranges, from: Code, to: Code): Option<Ranges> {
    if |Inserted(rs, from, to)| > ONIG_MAX_MULTI_BYTE_RANGES_NUM then None else Some(Inserted(rs, from, to))
  }

  lemma {:induction false} LowSplits(rs: Ranges, from: Code)
    requires Sorted(rs)
    ensures forall i :: 0 <= i < Low(rs, from) ==> rs[i].to < from
    ensures forall i :: Low(rs, from) <= i < |rs| ==> from <= rs[i].to
  {
    if rs != [] && rs[0].to < from {
      LowSplits(rs[1..], from);
      forall i | 0 <= i < |rs| ensures if i < Low(rs, from) then rs[i].to < from else from <= rs[i].to {
        if i > 0 { assert rs[i] == rs[1..][i - 1]; }
      }
    }
  }

  lemma {:induction false} LowIs(rs: Ranges, from: Code, k: nat)
    requires k <= |rs| && (forall i :: 0 <= i < k ==> rs[i].to < from) && (k < |rs| ==> from <= rs[k].to)
    ensures Low(rs, from) == k
  {
    if k > 0 { LowIs(rs[1..], from, k - 1); }
  }

  lemma {:induction false} HighSplits(rs: Ranges, low: nat, to: Code)
    requires low <= |rs|
    ensures forall i :: High(rs, low, to) <= i < |rs| ==> !Touches(rs[i], to)
    ensures High(rs, low, to) > low ==> Touches(rs[High(rs, low, to) - 1], to)
    decreases |rs|
  {
    if |rs| > low && !Touches(rs[|rs| - 1], to) { HighSplits(rs[..|rs| - 1], low, to); }
  }

  lemma {:induction false} HighIs(rs: Ranges, low: nat, to: Code, k: nat)
    requires low <= k <= |rs| && (forall i :: k <= i < |rs| ==> !Touches(rs[i], to))
             && (k > low ==> Touches(rs[k - 1], to))
    ensures High(rs, low, to) == k
    decreases |rs|
  {
    if |rs| > k { HighIs(rs[..|rs| - 1], low, to, k); }
  }

  // ----- the set -----

  lemma InAt(rs: Ranges, i: nat, c: int)
    requires i < |rs| && Inside(rs[i], c)
    ensures In(rs, c)
  {
  }

  lemma InPlace(rs: Ranges, c: int) returns (i: nat)
    requires In(rs, c)
    ensures i < |rs| && Inside(rs[i], c)
  {
    i :| 0 <= i < |rs| && Inside(rs[i], c);
  }

  lemma InConcat(a: Ranges, b: Ranges, c: int)
    ensures In(a + b, c) <==> In(a, c) || In(b, c)
  {
    if In(a, c) { var i := InPlace(a, c); InAt(a + b, i, c); }
    if In(b, c) { var i := InPlace(b, c); InAt(a + b, |a| + i, c); }
  }

  lemma InOne(m: Interval, c: int)
    ensures In([m], c) <==> Inside(m, c)
  {
    if Inside(m, c) { InAt([m], 0, c); }
  }

  /** The merged interval covers the new codes and the replaced intervals, and nothing else. */
  lemma MergedUnion(rs: Ranges, from: Code, to: Code, c: int)
    requires Sorted(rs) && from <= to
    ensures var low := Low(rs, from);
            var high := High(rs, low, to);
            Inside(Merged(rs, from, to, low, high), c) <==> from <= c <= to || In(rs[low..high], c)
  {
    hide Low, High;
    var low := Low(rs, from);
    var high := High(rs, low, to);
    var mid := rs[low..high];
    LowSplits(rs, from);
    HighSplits(rs, low, to);
    if low < high {
      assert mid[0] == rs[low] && mid[|mid| - 1] == rs[high - 1];
      if In(mid, c) { var i := InPlace(mid, c); assert mid[i] == rs[low + i]; }
      if Inside(Merged(rs, from, to, low, high), c) && !(from <= c <= to) {
        if c < from { InAt(mid, 0, c); } else { InAt(mid, |mid| - 1, c); }
      }
    }
  }

  /** Whatever the bounds, the array stands for the old set and the new interval together. */
  lemma InsertedUnion(rs: Ranges, from: Code, to: Code, c: int)
    requires Sorted(rs)
    ensures In(Inserted(rs, from, to), c) <==> In(rs, c) || from <= c <= to || to <= c <= from
  {
    hide In, Sorted, Low, High, Merged, Inside;
    if from > to {
      InsertedUnion(rs, to, from, c);
    } else {
      var low := Low(rs, from);
      var high := High(rs, low, to);
      var m := Merged(rs, from, to, low, high);
      MergedUnion(rs, from, to, c);
      InConcat(rs[..low] + [m], rs[high..], c);
      InConcat(rs[..low], [m], c);
      InConcat(rs[..low] + rs[low..high], rs[high..], c);
      InConcat(rs[..low], rs[low..high], c);
      assert rs == rs[..low] + rs[low..high] + rs[high..];
      InOne(m, c);
    }
  }

  // ----- the order -----

  /** The first interval starts at code 0, so its start less one wraps round, the new interval meets
      it, and neither the second interval nor the end of the code space makes up for it. */
  predicate ZeroMissed(rs: Ranges, from: Code, to: Code) {
    var (lo, hi) := if from > to then (to, from) else (from, to);
    rs != [] && rs[0].from == 0 && lo <= rs[0].to && hi < LAST_CODE && (|rs| > 1 ==> hi < rs[1].from - 1)
  }

  lemma SortedConcat(a: Ranges, b: Ranges)
    requires Sorted(a) && Sorted(b) && (a != [] && b != [] ==> a[|a| - 1].to < b[0].from)
    ensures Sorted(a + b)
  {
    var out := a + b;
    forall i, j | 0 <= i < j < |out| ensures out[i].to < out[j].from {
      if i < |a| <= j {
        assert a[i].to <= a[|a| - 1].to && b[0].from <= b[j - |a|].from;
      }
    }
  }

  lemma SplicedSorted(rs: Ranges, low: nat, high: nat, m: Interval)
    requires Sorted(rs) && low <= high <= |rs| && m.from <= m.to
    requires (low > 0 ==> rs[low - 1].to < m.from) && (high < |rs| ==> m.to < rs[high].from)
    ensures Sorted(rs[..low] + [m] + rs[high..])
  {
    SortedConcat(rs[..low], [m]);
    SortedConcat(rs[..low] + [m], rs[high..]);
  }

  lemma MergedFits(rs: Ranges, from: Code, to: Code)
    requires Sorted(rs) && from <= to && !ZeroMissed(rs, from, to)
    ensures var low := Low(rs, from);
            var high := High(rs, low, to);
            var m := Merged(rs, from, to, low, high);
            m.from <= m.to && (low > 0 ==> rs[low - 1].to < m.from) && (high < |rs| ==> m.to < rs[high].from)
  {
    hide Low, High;
    var low := Low(rs, from);
    var high := High(rs, low, to);
    LowSplits(rs, from);
    HighSplits(rs, low, to);
    if high < |rs| {
      assert !Touches(rs[high], to);
    }
  }

  lemma MissedUnsorted(rs: Ranges, from: Code, to: Code)
    requires Sorted(rs) && from <= to && ZeroMissed(rs, from, to)
    ensures !Sorted(Inserted(rs, from, to))
  {
    var low := Low(rs, from);
    var high := High(rs, low, to);
    HighSplits(rs, low, to);
    var out := Inserted(rs, from, to);
    assert out[0] == Interval(from, to) && out[1] == rs[0];
  }

  /** The array stays sorted exactly when no interval at code 0 is missed. */
  lemma InsertedSorted(rs: Ranges, from: Code, to: Code)
    requires Sorted(rs)
    ensures Sorted(Inserted(rs, from, to)) <==> !ZeroMissed(rs, from, to)
  {
    if from > to {
      InsertedSorted(rs, to, from);
    } else if ZeroMissed(rs, from, to) {
      MissedUnsorted(rs, from, to);
    } else {
      var low := Low(rs, from);
      var high := High(rs, low, to);
      MergedFits(rs, from, to);
      SplicedSorted(rs, low, high, Merged(rs, from, to, low, high));
    }
  }

  /** 3-8 into 0-5: the interval at code 0 is missed. */
  lemma InsertedUnsorted()
    ensures var rs := [Interval(0, 5)];
            && Sorted(rs) && Inserted(rs, 3, 8) == [Interval(3, 8), Interval(0, 5)] && !Sorted(Inserted(rs, 3, 8))
  {
    var rs := [Interval(0, 5)];
    assert rs[..0] == [] && High([], 0, 8) == 0 && High(rs, 0, 8) == 0;
    assert Inserted(rs, 3, 8) == [] + [Interval(3, 8)] + rs == [Interval(3, 8), Interval(0, 5)];
    assert [Interval(3, 8), Interval(0, 5)][0].to >= [Interval(3, 8), Interval(0, 5)][1].from;
  }

  /** On a buffer without code 0 an insertion keeps the buffer normal. */
  lemma InsertedNormal(rs: Ranges, from: Code, to: Code)
    requires Normal(rs) && from >= 1 && to >= 1
    ensures Normal(Inserted(rs, from, to))
    ensures |Inserted(rs, from, to)| <= |rs| + 1
  {
    InsertedSorted(rs, from, to);
    if from > to {
      InsertedNormal(rs, to, from);
    } else {
      var out := Inserted(rs, from, to);
      var low := Low(rs, from);
      LowSplits(rs, from);
      if low > 0 { assert out[0] == rs[0]; } else { assert out[0] == Merged(rs, from, to, low, High(rs, low, to)); }
    }
  }
}
