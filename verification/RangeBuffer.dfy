/** The growing buffer that holds an interval array, and the operations that change it in place
    (BBUF_* in Dependencies/oniguruma5/regint.h; new_code_range, add_code_range_to_buf in regparse.c;
    onig_is_in_code_range in regexec.c). Sizes count code points. */
module RangeBuffer {
  import opened CodeRange
  import opened Regint

  const INIT_MULTI_BYTE_RANGE_SIZE := 5

  /** [n][from-1][to-1] ... [from-n][to-n], and perhaps old cells behind them. */
  predicate Whole(cells: seq<Code>) { |cells| >= 1 && 1 + 2 * cells[0] <= |cells| }

  function RangesOf(cells: seq<Code>): Ranges
    requires Whole(cells)
  {
    seq(cells[0], i requires 0 <= i < cells[0] => Interval(cells[1 + 2 * i], cells[2 + 2 * i]))
  }

  /** BBuf: alloc is the length of the array. */
  class BBuf {
    var p: array<Code>
    var used: nat

    ghost predicate Room()
      reads this, p
    {
      0 < p.Length && used <= p.Length
    }

    ghost predicate Valid()
      reads this, p
    {
      Room() && Whole(p[..used])
    }

    ghost function Intervals(): Ranges
      requires Valid()
      reads this, p
    {
      RangesOf(p[..used])
    }

    /** new_code_range */
    constructor ()
      ensures Valid() && fresh(p) && Intervals() == []
    {
      p := new Code[INIT_MULTI_BYTE_RANGE_SIZE];
      used := 0;
      new;
      Write(0, 0);
    }

    /** bbuf_clone */
    constructor Clone(from: BBuf)
      requires from.Valid()
      ensures Valid() && fresh(p) && Intervals() == from.Intervals()
    {
      p := new Code[from.p.Length];
      used := from.used;
      new;
      forall i | 0 <= i < used { p[i] := from.p[i]; }
      assert p[..used] == from.p[..from.used];
    }

    /** xrealloc */
    method Realloc(alloc: nat)
      requires Room() && alloc >= used && alloc > 0
      modifies this`p
      ensures Room() && fresh(p) && p.Length == alloc
      ensures p[..used] == old(p[..used])
    {
      var q := new Code[alloc];
      forall i | 0 <= i < used { q[i] := p[i]; }
      assert q[..used] == p[..used];
      p := q;
    }

    /** BBUF_EXPAND */
    method Expand(low: nat)
      requires Room()
      modifies this`p
      ensures Room() && fresh(p) && p.Length >= low
      ensures p[..used] == old(p[..used])
    {
      var alloc := p.Length * 2;
      while alloc < low
        invariant alloc >= p.Length
        decreases low - alloc
      {
        alloc := alloc * 2;
      }
      Realloc(alloc);
    }

    /** BBUF_ENSURE_SIZE */
    method EnsureSize(size: nat)
      requires Room()
      modifies this`p
      ensures Room() && (p == old(p) || fresh(p)) && p.Length >= size
      ensures p[..used] == old(p[..used])
    {
      var alloc := p.Length;
      while alloc < size
        invariant alloc >= p.Length
        decreases size - alloc
      {
        alloc := alloc * 2;
      }
      if p.Length != alloc { Realloc(alloc); }
    }

    /** BBUF_WRITE_CODE_POINT */
    method Write(pos: nat, code: Code)
      requires Room() && pos <= used
      modifies this, p
      ensures Room() && (p == old(p) || fresh(p))
      ensures p[..used] == if pos < old(used) then old(p[..used])[pos := code] else old(p[..used]) + [code]
    {
      ghost var cells := p[..used];
      var end := pos + 1;
      if p.Length < end { Expand(end); }
      assert p[..used] == cells;
      p[pos] := code;
      if used < end { used := end; }
      assert p[..used] == if pos < |cells| then cells[pos := code] else cells + [code];
    }

    /** BBUF_MOVE_RIGHT */
    method MoveRight(from: nat, to: nat, n: nat)
      requires Room() && from + n <= used && from < to <= used
      modifies this, p
      ensures Room() && (p == old(p) || fresh(p))
      ensures p[..used] == MovedRight(old(p[..used]), from, to, n)
    {
      ghost var cells := p[..used];
      if to + n > p.Length { Expand(to + n); }
      assert p[..used] == cells;
      forall k | 0 <= k < n { p[to + k] := p[from + k]; }
      if to + n > used { used := to + n; }
      forall k | to <= k < to + n ensures p[k] == cells[k - to + from] {
        assert p[to + (k - to)] == cells[from + (k - to)];
      }
      assert p[..used] == MovedRight(cells, from, to, n);
    }

    /** BBUF_MOVE_LEFT_REDUCE */
    method MoveLeftReduce(from: nat, to: nat)
      requires Room() && to < from <= used
      modifies this, p
      ensures Room() && p == old(p)
      ensures p[..used] == old(p[..used])[..to] + old(p[..used])[from..]
    {
      ghost var cells := p[..used];
      forall k | 0 <= k < used - from { p[to + k] := p[from + k]; }
      used := used - (from - to);
      forall k | to <= k < used ensures p[k] == cells[k - to + from] {
        assert p[to + (k - to)] == cells[from + (k - to)];
      }
      assert p[..used] == cells[..to] + cells[from..];
    }

    /** Makes room for one interval in place of those from low to high. */
    method Shift(n: Code, low: nat, high: nat)
      requires Valid() && n == p[0] && low <= high <= n
      modifies this, p
      ensures Room() && (p == old(p) || fresh(p))
      ensures Moved(old(p[..used]), p[..used], n, low, high)
    {
      var incN := low as int + 1 - high as int;
      if incN != 0 && high < n {
        var fromPos := 1 + high * 2;
        var toPos := 1 + (low + 1) * 2;
        if incN > 0 { MoveRight(fromPos, toPos, (n - high) * 2); } else { MoveLeftReduce(fromPos, toPos); }
      }
    }

    /** The tail of add_code_range_to_buf: intervals low to high give way to one. */
    method Splice(n: Code, low: nat, high: nat, from: Code, to: Code)
      requires Valid() && n == p[0] && low <= high <= n && n + low + 1 - high < 0x1_0000_0000
      modifies this, p
      ensures Valid() && (p == old(p) || fresh(p))
      ensures Intervals() == old(Intervals()[..low] + [Interval(from, to)] + Intervals()[high..])
    {
      hide Moved;
      ghost var cells := p[..used];
      Shift(n, low, high);
      ghost var moved := p[..used];
      MovedRoom(cells, moved, n, low, high);
      var pos := 1 + low * 2;
      EnsureSize(pos + 2);
      Write(pos, from);
      ghost var one := p[..used];
      Write(pos + 1, to);
      ghost var two := p[..used];
      Write(0, n + low + 1 - high);
      Written(cells, moved, one, two, p[..used], n, low, high, Interval(from, to));
    }
  }

  /** A block copied further up over what is there. */
  ghost function MovedRight(cells: seq<Code>, from: nat, to: nat, n: nat): seq<Code>
    requires from + n <= |cells| && from < to <= |cells|
  {
    cells[..to] + cells[from..from + n] + (if to + n < |cells| then cells[to + n..] else [])
  }

  /** The cells that stay have reached their new places. */
  ghost predicate Moved(was: seq<Code>, now: seq<Code>, n: nat, low: nat, high: nat)
    requires low <= high <= n && |was| >= 1 + 2 * n
  {
    && |now| >= 1 + 2 * low
    && (forall k :: 0 <= k < 1 + 2 * low ==> now[k] == was[k])
    && (high < n ==>
          && |now| >= 3 + 2 * low + 2 * (n - high)
          && forall k :: 1 + 2 * high <= k < 1 + 2 * n ==> now[k - 2 * high + 2 * low + 2] == was[k])
    && (high > low ==> |now| >= 3 + 2 * low)
  }

  lemma MovedRoom(was: seq<Code>, now: seq<Code>, n: nat, low: nat, high: nat)
    requires low <= high <= n && |was| >= 1 + 2 * n && Moved(was, now, n, low, high)
    ensures |now| >= 1 + 2 * low
  {
  }

  ghost function Put(cells: seq<Code>, pos: nat, code: Code): (r: seq<Code>)
    requires pos <= |cells|
    ensures |r| == if pos < |cells| then |cells| else pos + 1
    ensures forall k :: 0 <= k < |r| ==> r[k] == if k == pos then code else cells[k]
  {
    if pos < |cells| then cells[pos := code] else cells + [code]
  }

  lemma Written(was: seq<Code>, moved: seq<Code>, one: seq<Code>, two: seq<Code>, now: seq<Code>,
                n: nat, low: nat, high: nat, m: Interval)
    requires Whole(was) && was[0] == n && low <= high <= n && n + low + 1 - high < 0x1_0000_0000
    requires Moved(was, moved, n, low, high)
    requires one == Put(moved, 1 + 2 * low, m.from) && two == Put(one, 2 + 2 * low, m.to)
    requires now == Put(two, 0, n + low + 1 - high)
    ensures Whole(now) && RangesOf(now) == RangesOf(was)[..low] + [m] + RangesOf(was)[high..]
  {
    hide RangesOf;
    forall k | 1 <= k < 1 + 2 * low ensures now[k] == was[k] { assert moved[k] == was[k]; }
    forall k | 1 + 2 * high <= k < 1 + 2 * n ensures now[k - 2 * high + 2 * low + 2] == was[k] {
      assert moved[k - 2 * high + 2 * low + 2] == was[k];
    }
    Read(was, now, n, low, high, m);
  }

  lemma Read(was: seq<Code>, now: seq<Code>, n: nat, low: nat, high: nat, m: Interval)
    requires Whole(was) && was[0] == n && low <= high <= n && n + low + 1 - high < 0x1_0000_0000
    requires Whole(now) && now[0] == n + low + 1 - high
    requires forall k :: 1 <= k < 1 + 2 * low ==> now[k] == was[k]
    requires now[1 + 2 * low] == m.from && now[2 + 2 * low] == m.to
    requires forall k :: 1 + 2 * high <= k < 1 + 2 * n ==> now[k - 2 * high + 2 * low + 2] == was[k]
    ensures RangesOf(now) == RangesOf(was)[..low] + [m] + RangesOf(was)[high..]
  {
    var rs := RangesOf(was)[..low] + [m] + RangesOf(was)[high..];
    forall i | 0 <= i < |rs| ensures RangesOf(now)[i] == rs[i] {
      if i > low {
        var k := i - low - 1 + high;
        assert now[1 + 2 * i] == was[1 + 2 * k] && now[2 + 2 * i] == was[2 + 2 * k];
      }
    }
  }

  /** A null pointer is the empty set. */
  ghost function Contents(b: BBuf?): Ranges
    requires b != null ==> b.Valid()
    reads if b == null then {} else {b, b.p}
  {
    if b == null then [] else b.Intervals()
  }

  /** The binary search for the first interval that ends at from or later. */
  method FindLow(b: BBuf, n: nat, from: Code) returns (low: nat)
    requires b.Valid() && n == b.p[0] && Sorted(b.Intervals())
    ensures low == Low(b.Intervals(), from)
  {
    ghost var rs := b.Intervals();
    low := 0;
    var bound := n;
    while low < bound
      invariant 0 <= low <= bound <= n == |rs|
      invariant forall i :: 0 <= i < low ==> rs[i].to < from
      invariant forall i :: bound <= i < n ==> from <= rs[i].to
    {
      var x := (low + bound) / 2;
      assert b.p[1 + x * 2 + 1] == rs[x].to;
      if from > b.p[1 + x * 2 + 1] { low := x + 1; } else { bound := x; }
    }
    LowIs(rs, from, low);
  }

  /** Probing x where nothing is touched settles the places up to the bound: only code 0 could spoil
      that, and then x is the place before the bound. */
  lemma UntouchedFrom(rs: Ranges, x: nat, bound: nat, to: Code)
    requires Sorted(rs) && x < bound <= |rs| && (x == 0 ==> bound == 1 || rs[0].from > 0) && !Touches(rs[x], to)
    ensures forall i :: x <= i < bound ==> !Touches(rs[i], to)
  {
    assert x > 0 ==> rs[0].to < rs[x].from;
    forall i | x < i < bound ensures !Touches(rs[i], to) { assert rs[x].to < rs[i].from; }
  }

  /** The binary search for the end of the intervals the new one reaches. */
  method FindHigh(b: BBuf, n: nat, low: nat, to: Code) returns (high: nat)
    requires b.Valid() && n == b.p[0] && Sorted(b.Intervals()) && low <= n
    ensures high == High(b.Intervals(), low, to)
  {
    ghost var rs := b.Intervals();
    high := low;
    var bound := n;
    while high < bound
      invariant low <= high <= bound <= n == |rs|
      invariant high > low ==> Touches(rs[high - 1], to)
      invariant forall i :: bound <= i < n ==> !Touches(rs[i], to)
    {
      var x := (high + bound) / 2;
      assert b.p[1 + x * 2] == rs[x].from;
      if to >= Before(b.p[1 + x * 2]) {
        high := x + 1;
      } else {
        UntouchedFrom(rs, x, bound, to);
        bound := x;
      }
    }
    HighIs(rs, low, to, high);
  }

  /** The body of add_code_range_to_buf, once there is a buffer and the bounds are in order. */
  method AddRange(buf: BBuf, from0: Code, to0: Code) returns (r: int)
    requires buf.Valid() && Sorted(buf.Intervals()) && from0 <= to0
    modifies buf, buf.p
    ensures buf.Valid() && (buf.p == old(buf.p) || fresh(buf.p))
    ensures match Insert(old(buf.Intervals()), from0, to0)
            case Some(rs) => r == 0 && buf.Intervals() == rs
            case None => r == ONIGERR_TOO_MANY_MULTI_BYTE_RANGES && buf.Intervals() == old(buf.Intervals())
  {
    hide Sorted, Low, High;
    var from, to := from0, to0;
    var n := buf.p[0];
    ghost var rs := buf.Intervals();
    var low := FindLow(buf, n, from);
    var high := FindHigh(buf, n, low, to);
    var incN := low as int + 1 - high as int;
    if n + incN > ONIG_MAX_MULTI_BYTE_RANGES_NUM { return ONIGERR_TOO_MANY_MULTI_BYTE_RANGES; }
    if incN != 1 {
      assert buf.p[1 + low * 2] == rs[low].from && buf.p[1 + (high - 1) * 2 + 1] == rs[high - 1].to;
      if from > buf.p[1 + low * 2] { from := buf.p[1 + low * 2]; }
      if to < buf.p[1 + (high - 1) * 2 + 1] { to := buf.p[1 + (high - 1) * 2 + 1]; }
    }
    assert Interval(from, to) == Merged(rs, from0, to0, low, high);
    buf.Splice(n, low, high, from, to);
    r := 0;
  }

  /** add_code_range_to_buf */
  method AddCodeRangeToBuf(pbuf: BBuf?, from: Code, to: Code) returns (r: int, buf: BBuf)
    requires pbuf != null ==> pbuf.Valid()
    requires Sorted(Contents(pbuf))
    modifies if pbuf == null then {} else {pbuf, pbuf.p}
    ensures if pbuf == null then fresh(buf) && fresh(buf.p) else buf == pbuf && (buf.p == old(pbuf.p) || fresh(buf.p))
    ensures buf.Valid()
    ensures match Insert(old(Contents(pbuf)), from, to)
            case Some(rs) => r == 0 && buf.Intervals() == rs
            case None => r == ONIGERR_TOO_MANY_MULTI_BYTE_RANGES && buf.Intervals() == old(Contents(pbuf))
  {
    hide Sorted, Low, High, RangesOf;
    if pbuf == null { buf := new BBuf(); } else { buf := pbuf; }
    if from > to { r := AddRange(buf, to, from); } else { r := AddRange(buf, from, to); }
  }

  /** onig_is_in_code_range */
  method IsInCodeRange(b: BBuf, code: Code) returns (found: bool)
    requires b.Valid() && Sorted(b.Intervals())
    ensures found <==> In(b.Intervals(), code)
  {
    ghost var rs := b.Intervals();
    var n := b.p[0];
    var low := FindLow(b, n, code);
    LowSplits(rs, code);
    found := low < n && code >= b.p[1 + low * 2];
    if found { InAt(rs, low, code); }
    OnlyAtLow(rs, code);
  }

  lemma Ordered(rs: Ranges, i: nat, j: nat)
    requires Sorted(rs)
    ensures i < j < |rs| ==> rs[i].to < rs[j].from
  {
  }

  lemma OnlyAtLow(rs: Ranges, code: Code)
    requires Sorted(rs)
    ensures In(rs, code) ==> Low(rs, code) < |rs| && rs[Low(rs, code)].from <= code
  {
    LowSplits(rs, code);
    if In(rs, code) {
      var i := InPlace(rs, code);
      Ordered(rs, Low(rs, code), i);
    }
  }
}
