/** The loops over interval buffers: complement, union, intersection (Dependencies/oniguruma5/regparse.c,
    not_code_range_buf, or_code_range_buf, and_code_range1, and_code_range_buf). Results are fresh
    buffers; the inputs are left alone. */
module RangeAlgebra {
  import opened CodeRange
  import opened RangeBuffer
  import opened RangeSets
  import opened Regint

  ghost predicate Usable(b: BBuf?)
    reads if b == null then {} else {b, b.p}
  {
    b != null ==> b.Valid() && Normal(b.Intervals())
  }

  ghost function BufOf(b: BBuf?): Buf
    requires b != null ==> b.Valid()
    reads if b == null then {} else {b, b.p}
  {
    if b == null then None else Some(b.Intervals())
  }

  lemma AddOne(b: Buf, r: Interval, rest: Ranges)
    ensures AddAll(b, [r] + rest) ==
            match Insert(Codes(b), r.from, r.to) { case None => None case Some(more) => AddAll(Some(more), rest) }
  {
    assert ([r] + rest)[1..] == rest;
  }

  /** One addition in a loop; rest is what the loop still has to add. */
  method Add(pbuf: BBuf?, from: Code, to: Code, ghost rest: Ranges) returns (r: int, buf: BBuf)
    requires Usable(pbuf) && 1 <= from <= to
    modifies if pbuf == null then {} else {pbuf, pbuf.p}
    ensures if pbuf == null then fresh(buf) && fresh(buf.p) else buf == pbuf && (buf.p == old(pbuf.p) || fresh(buf.p))
    ensures Usable(buf) && r in {0, ONIGERR_TOO_MANY_MULTI_BYTE_RANGES}
    ensures AddAll(old(BufOf(pbuf)), [Interval(from, to)] + rest) == if r == 0 then AddAll(BufOf(buf), rest) else None
  {
    hide Normal, Inserted, RangesOf;
    ghost var was := Contents(pbuf);
    NormalEmpty();
    NormalSorted(was);
    AddOne(BufOf(pbuf), Interval(from, to), rest);
    InsertedNormal(was, from, to);
    r, buf := AddCodeRangeToBuf(pbuf, from, to);
  }

  /** What a method that builds a buffer promises: the result or the error, in a fresh buffer. */
  ghost predicate Built(r: int, pbuf: BBuf?, out: Option<Buf>)
    reads if pbuf == null then {} else {pbuf, pbuf.p}
  {
    && Usable(pbuf)
    && if r == 0 then out == Some(BufOf(pbuf)) else r == ONIGERR_TOO_MANY_MULTI_BYTE_RANGES && out == None
  }

  /** SET_ALL_MULTI_BYTE_RANGE */
  method SetAllMultiByteRange() returns (r: int, pbuf: BBuf?)
    ensures pbuf != null ==> fresh(pbuf) && fresh(pbuf.p)
    ensures Built(r, pbuf, AddAll(None, ALL_CODES))
  {
    r, pbuf := Add(null, MBCODE_START_POS, LAST_CODE, []);
    assert ALL_CODES == [Interval(MBCODE_START_POS, LAST_CODE)] + [];
  }

  /** GET_CODE_POINT(n, data) */
  method Count(b: BBuf) returns (n: nat)
    requires b.Valid()
    ensures n == |b.Intervals()|
  {
    n := b.p[0];
  }

  /** from = data[i*2]; to = data[i*2+1] */
  method Read(b: BBuf, i: nat) returns (from: Code, to: Code)
    requires b.Valid() && i < |b.Intervals()|
    ensures Interval(from, to) == b.Intervals()[i]
  {
    from, to := b.p[1 + i * 2], b.p[1 + i * 2 + 1];
  }

  /** not_code_range_buf */
  method NotCodeRangeBuf(bbuf: BBuf?) returns (r: int, pbuf: BBuf?)
    requires Usable(bbuf)
    ensures pbuf != null ==> fresh(pbuf) && fresh(pbuf.p)
    ensures Built(r, pbuf, NotBuf(BufOf(bbuf)))
  {
    hide Normal, RangesOf, AddAll, Gaps;
    if bbuf == null {
      r, pbuf := SetAllMultiByteRange();
    } else {
      var n := Count(bbuf);
      if n == 0 { r, pbuf := SetAllMultiByteRange(); } else { r, pbuf := AddGaps(bbuf, n); }
    }
  }

  /** The loop of not_code_range_buf, over a buffer with some interval in it. */
  method AddGaps(bbuf: BBuf, n: nat) returns (r: int, pbuf: BBuf?)
    requires Usable(bbuf) && n == |bbuf.Intervals()| > 0
    ensures pbuf != null ==> fresh(pbuf) && fresh(pbuf.p)
    ensures Built(r, pbuf, AddAll(None, Gaps(bbuf.Intervals(), MBCODE_START_POS)))
  {
    hide Normal, RangesOf, AddAll, Gaps;
    ghost var rs := bbuf.Intervals();
    ghost var out := AddAll(None, Gaps(rs, MBCODE_START_POS));
    pbuf := null;
    NormalEmpty();
    var pre: Code := MBCODE_START_POS;
    var to: Code := 0;
    var i: nat := 0;
    assert rs[0..] == rs;
    while i < n
      invariant 0 <= i <= n && rs == bbuf.Intervals()
      invariant pbuf != null ==> fresh(pbuf) && fresh(pbuf.p)
      invariant Usable(pbuf) && pre >= 1
      invariant i < n ==> AddAll(BufOf(pbuf), Gaps(rs[i..], pre)) == out
      invariant i == n ==> AddAll(BufOf(pbuf), EndGap(to)) == out
    {
      GapsStep(rs, i, pre);
      var from;
      from, to := Read(bbuf, i);
      if pre <= Before(from) {
        r, pbuf := Add(pbuf, pre, Before(from), LaterGaps(rs, i));
        if r != 0 { return; }
      }
      if to == LAST_CODE {
        LastGap(rs, i);
        break;
      }
      pre := to + 1;
      i := i + 1;
    }
    r := 0;
    AddNothing(BufOf(pbuf));
    if to < LAST_CODE {
      r, pbuf := Add(pbuf, to + 1, LAST_CODE, []);
      AddNothing(BufOf(pbuf));
    }
  }

  lemma LastGap(rs: Ranges, i: nat)
    requires i < |rs| && rs[i].to == LAST_CODE
    ensures LaterGaps(rs, i) == []
  {
  }

  lemma AddNothing(b: Buf)
    ensures AddAll(b, []) == Some(b)
  {
  }

  lemma NormalProper(rs: Ranges)
    requires Normal(rs)
    ensures Proper(rs)
  {
    NormalSorted(rs);
  }

  ghost function EndGap(to: Code): Ranges { if to < LAST_CODE then [Interval(to + 1, LAST_CODE)] + [] else [] }

  /** What is still to be added once interval i is passed. */
  ghost function LaterGaps(rs: Ranges, i: nat): Ranges
    requires i < |rs|
  {
    if i + 1 == |rs| || rs[i].to == LAST_CODE then EndGap(rs[i].to) else Gaps(rs[i + 1..], rs[i].to + 1)
  }

  lemma GapsStep(rs: Ranges, i: nat, pre: Code)
    requires i < |rs|
    ensures Gaps(rs[i..], pre) ==
            if pre <= Before(rs[i].from) then [Interval(pre, Before(rs[i].from))] + LaterGaps(rs, i)
              else LaterGaps(rs, i)
  {
    assert rs[i..][0] == rs[i] && rs[i..][1..] == rs[i + 1..];
  }

  // ----- union -----

  /** The loop that adds the intervals of the first buffer. */
  method AddRanges(pbuf0: BBuf?, bbuf: BBuf) returns (r: int, pbuf: BBuf?)
    requires Usable(pbuf0) && Usable(bbuf) && (pbuf0 != null ==> pbuf0 != bbuf && pbuf0.p != bbuf.p)
    modifies if pbuf0 == null then {} else {pbuf0, pbuf0.p}
    ensures pbuf != null ==> pbuf == pbuf0 || fresh(pbuf)
    ensures pbuf != null ==> (pbuf0 != null && pbuf.p == old(pbuf0.p)) || fresh(pbuf.p)
    ensures Built(r, pbuf, AddAll(old(BufOf(pbuf0)), old(bbuf.Intervals())))
  {
    hide Normal, RangesOf, AddAll;
    ghost var rs := bbuf.Intervals();
    ghost var out := AddAll(BufOf(pbuf0), rs);
    NormalProper(rs);
    pbuf := pbuf0;
    var n := Count(bbuf);
    var i: nat := 0;
    assert rs[0..] == rs;
    while i < n
      invariant 0 <= i <= n && rs == bbuf.Intervals()
      invariant pbuf != null ==> pbuf == pbuf0 || fresh(pbuf)
      invariant pbuf != null ==> (pbuf0 != null && pbuf.p == old(pbuf0.p)) || fresh(pbuf.p)
      invariant pbuf != null ==> pbuf != bbuf && pbuf.p != bbuf.p
      invariant Usable(pbuf) && AddAll(BufOf(pbuf), rs[i..]) == out
    {
      assert rs[i..] == [rs[i]] + rs[i + 1..];
      var from, to := Read(bbuf, i);
      r, pbuf := Add(pbuf, from, to, rs[i + 1..]);
      if r != 0 { return; }
      i := i + 1;
    }
    assert rs[n..] == [];
    AddNothing(BufOf(pbuf));
    r := 0;
  }

  /** or_code_range_buf */
  method OrCodeRangeBuf(bbuf1: BBuf?, not1: bool, bbuf2: BBuf?, not2: bool) returns (r: int, pbuf: BBuf?)
    requires Usable(bbuf1) && Usable(bbuf2) && !(not1 && not2)
    ensures pbuf != null ==> fresh(pbuf) && fresh(pbuf.p)
    ensures Built(r, pbuf, OrBuf(BufOf(bbuf1), not1, BufOf(bbuf2), not2))
  {
    hide Normal, RangesOf, AddAll;
    r, pbuf := 0, null;
    NormalEmpty();
    if bbuf1 == null && bbuf2 == null {
      if not1 || not2 { r, pbuf := SetAllMultiByteRange(); }
      return;
    }
    var b1, n1, b2, n2 := bbuf1, not1, bbuf2, not2;
    if b2 == null { b1, n1, b2, n2 := b2, n2, b1, n1; }
    if b1 == null {
      if n1 {
        r, pbuf := SetAllMultiByteRange();
      } else if !n2 {
        pbuf := new BBuf.Clone(b2);
      } else {
        r, pbuf := NotCodeRangeBuf(b2);
      }
      return;
    }
    if n1 { b1, n1, b2, n2 := b2, n2, b1, n1; }
    if !n2 {
      pbuf := new BBuf.Clone(b2);
    } else {
      r, pbuf := NotCodeRangeBuf(b2);
    }
    if r != 0 { return; }
    r, pbuf := AddRanges(pbuf, b1);
  }

  // ----- intersection -----

  lemma CutStep(from: Code, to: Code, rs: Ranges, i: nat)
    requires from <= to && i <= |rs|
    ensures Cut(from, to, rs[i..]) ==
            if i == |rs| then [Interval(from, to)]
            else if rs[i].from < from then
              if rs[i].to < from then Cut(from, to, rs[i + 1..])
              else if After(rs[i].to) > to then []
              else Cut(After(rs[i].to), to, rs[i + 1..])
            else if rs[i].from <= to then
              if rs[i].to < to then
                (if from <= Before(rs[i].from) then [Interval(from, Before(rs[i].from))] else []) +
                Cut(After(rs[i].to), to, rs[i + 1..])
              else if from > Before(rs[i].from) then []
              else Cut(from, Before(rs[i].from), rs[i + 1..])
            else []
  {
    if i < |rs| { assert rs[i..][0] == rs[i] && rs[i..][1..] == rs[i + 1..]; }
  }

  lemma WrapsStep(from: Code, rs: Ranges, i: nat)
    requires Normal(rs) && i < |rs| && !Wraps(from, rs[i..])
    ensures !Wraps(from, rs[i + 1..])
    ensures rs[i].to < LAST_CODE && from <= After(rs[i].to) ==> !Wraps(After(rs[i].to), rs[i + 1..])
    ensures rs[i].from < from ==> rs[i].to < LAST_CODE
    ensures 1 <= rs[i].from <= rs[i].to
  {
    assert i + 1 < |rs| ==> rs[i].to < rs[|rs| - 1].from;
    assert i > 0 ==> rs[0].to < rs[i].from;
  }

  /** and_code_range1 */
  method AndCodeRange1(pbuf0: BBuf?, from0: Code, to0: Code, data: BBuf, ghost rest: Ranges)
    returns (r: int, pbuf: BBuf?)
    requires Usable(pbuf0) && Usable(data) && (pbuf0 != null ==> pbuf0 != data && pbuf0.p != data.p)
    requires 1 <= from0 <= to0 && !Wraps(from0, data.Intervals())
    modifies if pbuf0 == null then {} else {pbuf0, pbuf0.p}
    ensures pbuf != null ==> pbuf == pbuf0 || fresh(pbuf)
    ensures pbuf != null ==> (pbuf0 != null && pbuf.p == old(pbuf0.p)) || fresh(pbuf.p)
    ensures Usable(pbuf) && r in {0, ONIGERR_TOO_MANY_MULTI_BYTE_RANGES}
    ensures AddAll(old(BufOf(pbuf0)), Cut(from0, to0, old(data.Intervals())) + rest) ==
            if r == 0 then AddAll(BufOf(pbuf), rest) else None
  {
    hide Normal, RangesOf, AddAll, Cut, Wraps;
    ghost var rs := data.Intervals();
    ghost var out := AddAll(BufOf(pbuf0), Cut(from0, to0, rs) + rest);
    var from1: Code, to1: Code := from0, to0;
    var n := Count(data);
    var i: nat := 0;
    pbuf := pbuf0;
    assert rs[0..] == rs;
    while i < n
      invariant 0 <= i <= n && rs == data.Intervals()
      invariant pbuf != null ==> pbuf == pbuf0 || fresh(pbuf)
      invariant pbuf != null ==> (pbuf0 != null && pbuf.p == old(pbuf0.p)) || fresh(pbuf.p)
      invariant pbuf != null ==> pbuf != data && pbuf.p != data.p
      invariant Usable(pbuf) && 1 <= from1 <= to1 && !Wraps(from1, rs[i..])
      invariant AddAll(BufOf(pbuf), Cut(from1, to1, rs[i..]) + rest) == out
    {
      CutStep(from1, to1, rs, i);
      WrapsStep(from1, rs, i);
      var from2, to2 := Read(data, i);
      if from2 < from1 {
        if to2 < from1 {
          i := i + 1;
          continue;
        } else {
          from1 := After(to2);
        }
      } else if from2 <= to1 {
        if to2 < to1 {
          ghost var later := Cut(After(to2), to1, rs[i + 1..]) + rest;
          if from1 <= Before(from2) {
            Joined(Interval(from1, Before(from2)), Cut(After(to2), to1, rs[i + 1..]), rest);
            r, pbuf := Add(pbuf, from1, Before(from2), later);
            if r != 0 { return; }
          } else {
            assert [] + Cut(After(to2), to1, rs[i + 1..]) == Cut(After(to2), to1, rs[i + 1..]);
          }
          from1 := After(to2);
        } else {
          to1 := Before(from2);
        }
      } else {
        from1 := from2;
      }
      if from1 > to1 {
        assert [] + rest == rest;
        break;
      }
      i := i + 1;
    }
    r := 0;
    if from1 <= to1 {
      CutStep(from1, to1, rs, n);
      r, pbuf := Add(pbuf, from1, to1, rest);
    }
  }

  lemma Joined(a: Interval, b: Ranges, rest: Ranges)
    ensures ([a] + b) + rest == [a] + (b + rest)
  {
  }

  /** 1 AND 2: the overlaps of one interval, the inner loop. */
  method AddMeets(pbuf0: BBuf?, from1: Code, to1: Code, bbuf2: BBuf, ghost rest: Ranges) returns (r: int, pbuf: BBuf?)
    requires Usable(pbuf0) && Usable(bbuf2) && (pbuf0 != null ==> pbuf0 != bbuf2 && pbuf0.p != bbuf2.p)
    requires 1 <= from1 <= to1
    modifies if pbuf0 == null then {} else {pbuf0, pbuf0.p}
    ensures pbuf != null ==> pbuf == pbuf0 || fresh(pbuf)
    ensures pbuf != null ==> (pbuf0 != null && pbuf.p == old(pbuf0.p)) || fresh(pbuf.p)
    ensures Usable(pbuf) && r in {0, ONIGERR_TOO_MANY_MULTI_BYTE_RANGES}
    ensures AddAll(old(BufOf(pbuf0)), Meets(Interval(from1, to1), old(bbuf2.Intervals())) + rest) ==
            if r == 0 then AddAll(BufOf(pbuf), rest) else None
  {
    hide Normal, RangesOf, AddAll, Meets;
    ghost var rs := bbuf2.Intervals();
    ghost var me := Interval(from1, to1);
    ghost var out := AddAll(BufOf(pbuf0), Meets(me, rs) + rest);
    NormalProper(rs);
    pbuf := pbuf0;
    var n2 := Count(bbuf2);
    var j: nat := 0;
    assert rs[0..] == rs;
    while j < n2
      invariant 0 <= j <= n2 && rs == bbuf2.Intervals()
      invariant pbuf != null ==> pbuf == pbuf0 || fresh(pbuf)
      invariant pbuf != null ==> (pbuf0 != null && pbuf.p == old(pbuf0.p)) || fresh(pbuf.p)
      invariant pbuf != null ==> pbuf != bbuf2 && pbuf.p != bbuf2.p
      invariant Usable(pbuf) && AddAll(BufOf(pbuf), Meets(me, rs[j..]) + rest) == out
    {
      MeetsStep(me, rs, j, rest);
      var from2, to2 := Read(bbuf2, j);
      if from2 > to1 { break; }
      if to2 < from1 {
        j := j + 1;
        continue;
      }
      var from := if from1 > from2 then from1 else from2;
      var to := if to1 < to2 then to1 else to2;
      r, pbuf := Add(pbuf, from, to, Meets(me, rs[j + 1..]) + rest);
      if r != 0 { return; }
      j := j + 1;
    }
    MeetsStep(me, rs, j, rest);
    r := 0;
  }

  lemma MeetsStep(r: Interval, rs: Ranges, j: nat, rest: Ranges)
    requires j <= |rs|
    ensures Meets(r, rs[j..]) + rest ==
            if j == |rs| || rs[j].from > r.to then rest
            else if rs[j].to < r.from then Meets(r, rs[j + 1..]) + rest
            else [Interval(if r.from > rs[j].from then r.from else rs[j].from, if r.to < rs[j].to then r.to
              else rs[j].to)] +
                 (Meets(r, rs[j + 1..]) + rest)
  {
    if j < |rs| { assert rs[j..][0] == rs[j] && rs[j..][1..] == rs[j + 1..]; }
  }

  /** 1 AND 2: the outer loop. */
  method AndPlain(bbuf1: BBuf, bbuf2: BBuf) returns (r: int, pbuf: BBuf?)
    requires Usable(bbuf1) && Usable(bbuf2)
    ensures pbuf != null ==> fresh(pbuf) && fresh(pbuf.p)
    ensures Built(r, pbuf, AddAll(None, AllMeets(bbuf1.Intervals(), bbuf2.Intervals())))
  {
    hide Normal, RangesOf, AddAll, Meets, AllMeets;
    ghost var rs1, rs2 := bbuf1.Intervals(), bbuf2.Intervals();
    ghost var out := AddAll(None, AllMeets(rs1, rs2));
    NormalProper(rs1);
    NormalEmpty();
    pbuf := null;
    var n1 := Count(bbuf1);
    var i: nat := 0;
    assert rs1[0..] == rs1;
    while i < n1
      invariant 0 <= i <= n1 && rs1 == bbuf1.Intervals() && rs2 == bbuf2.Intervals()
      invariant pbuf != null ==> fresh(pbuf) && fresh(pbuf.p)
      invariant Usable(pbuf) && AddAll(BufOf(pbuf), AllMeets(rs1[i..], rs2)) == out
    {
      AllMeetsStep(rs1, rs2, i);
      var from1, to1 := Read(bbuf1, i);
      r, pbuf := AddMeets(pbuf, from1, to1, bbuf2, AllMeets(rs1[i + 1..], rs2));
      if r != 0 { return; }
      i := i + 1;
    }
    AllMeetsStep(rs1, rs2, n1);
    AddNothing(BufOf(pbuf));
    r := 0;
  }

  lemma AllMeetsStep(rs1: Ranges, rs2: Ranges, i: nat)
    requires i <= |rs1|
    ensures AllMeets(rs1[i..], rs2) == if i == |rs1| then [] else Meets(rs1[i], rs2) + AllMeets(rs1[i + 1..], rs2)
  {
    if i < |rs1| { assert rs1[i..][0] == rs1[i] && rs1[i..][1..] == rs1[i + 1..]; }
  }

  /** 1 AND (not 2) */
  method AndNegated(bbuf1: BBuf, bbuf2: BBuf) returns (r: int, pbuf: BBuf?)
    requires Usable(bbuf1) && Usable(bbuf2) && NoWraps(bbuf1.Intervals(), bbuf2.Intervals())
    ensures pbuf != null ==> fresh(pbuf) && fresh(pbuf.p)
    ensures Proper(bbuf1.Intervals()) && Built(r, pbuf, AddAll(None, AllCuts(bbuf1.Intervals(), bbuf2.Intervals())))
  {
    hide Normal, RangesOf, AddAll, Cut, AllCuts, Wraps;
    ghost var rs1, rs2 := bbuf1.Intervals(), bbuf2.Intervals();
    NormalProper(rs1);
    ghost var out := AddAll(None, AllCuts(rs1, rs2));
    NormalEmpty();
    pbuf := null;
    var n1 := Count(bbuf1);
    var i: nat := 0;
    assert rs1[0..] == rs1;
    while i < n1
      invariant 0 <= i <= n1 && rs1 == bbuf1.Intervals() && rs2 == bbuf2.Intervals()
      invariant pbuf != null ==> fresh(pbuf) && fresh(pbuf.p)
      invariant Usable(pbuf) && Proper(rs1[i..]) && AddAll(BufOf(pbuf), AllCuts(rs1[i..], rs2)) == out
    {
      AllCutsStep(rs1, rs2, i);
      var from1, to1 := Read(bbuf1, i);
      r, pbuf := AndCodeRange1(pbuf, from1, to1, bbuf2, AllCuts(rs1[i + 1..], rs2));
      if r != 0 { return; }
      i := i + 1;
    }
    AllCutsStep(rs1, rs2, n1);
    AddNothing(BufOf(pbuf));
    r := 0;
  }

  lemma AllCutsStep(rs1: Ranges, rs2: Ranges, i: nat)
    requires i <= |rs1| && Proper(rs1)
    ensures AllCuts(rs1[i..], rs2) ==
            if i == |rs1| then [] else Cut(rs1[i].from, rs1[i].to, rs2) + AllCuts(rs1[i + 1..], rs2)
  {
    if i < |rs1| { assert rs1[i..][0] == rs1[i] && rs1[i..][1..] == rs1[i + 1..]; }
  }

  /** and_code_range_buf; with one negation, on buffers whose difference does not wrap. */
  method AndCodeRangeBuf(bbuf1: BBuf?, not1: bool, bbuf2: BBuf?, not2: bool) returns (r: int, pbuf: BBuf?)
    requires Usable(bbuf1) && Usable(bbuf2) && !(not1 && not2)
    requires not1 ==> NoWraps(Contents(bbuf2), Contents(bbuf1))
    requires not2 ==> NoWraps(Contents(bbuf1), Contents(bbuf2))
    ensures pbuf != null ==> fresh(pbuf) && fresh(pbuf.p)
    ensures Proper(Contents(bbuf1)) && Proper(Contents(bbuf2))
    ensures Built(r, pbuf, AndBuf(BufOf(bbuf1), not1, BufOf(bbuf2), not2))
  {
    hide Normal, RangesOf, AddAll, AllMeets, AllCuts, NoWraps;
    NormalEmpty();
    NormalProper(Contents(bbuf1));
    NormalProper(Contents(bbuf2));
    r, pbuf := 0, null;
    if bbuf1 == null {
      if not1 && bbuf2 != null { pbuf := new BBuf.Clone(bbuf2); }
      return;
    }
    if bbuf2 == null {
      if not2 { pbuf := new BBuf.Clone(bbuf1); }
      return;
    }
    var b1, n1, b2, n2 := bbuf1, not1, bbuf2, not2;
    if n1 { b1, n1, b2, n2 := b2, n2, b1, n1; }
    if n2 { r, pbuf := AndNegated(b1, b2); } else { r, pbuf := AndPlain(b1, b2); }
  }
}
