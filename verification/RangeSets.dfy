/** Complement, union and intersection of interval sets: which intervals the code adds one after the
    other, and the sets that come out (Dependencies/oniguruma5/regparse.c, not_code_range_buf,
    or_code_range_buf, and_code_range1, and_code_range_buf). */
module RangeSets {
  import opened CodeRange
  import opened Regint

  const MBCODE_START_POS: Code := 0x80      // encodings whose shortest character is one byte

  /** What a BBuf pointer holds; None is the null pointer. */
  type Buf = Option<Ranges>

  function Codes(b: Buf): Ranges { if b.None? then [] else b.value }

  predicate NormalBuf(b: Buf) { Normal(Codes(b)) }

  predicate Proper(rs: Ranges) { forall i :: 0 <= i < |rs| ==> 1 <= rs[i].from <= rs[i].to }

  /** The intervals added in turn, or None for too many of them. */
  function AddAll(b: Buf, rs: Ranges): Option<Buf>
    decreases |rs|
  {
    if rs == [] then Some(b)
    else
      match Insert(Codes(b), rs[0].from, rs[0].to)
      case None => None
      case Some(more) => AddAll(Some(more), rs[1..])
  }

  lemma {:induction false} AddAllMeans(b: Buf, rs: Ranges, out: Buf)
    requires NormalBuf(b) && Proper(rs) && AddAll(b, rs) == Some(out)
    ensures NormalBuf(out)
    ensures forall c :: In(Codes(out), c) <==> In(Codes(b), c) || In(rs, c)
    decreases |rs|
  {
    hide Normal, Inserted;
    if rs != [] {
      var more := Insert(Codes(b), rs[0].from, rs[0].to).value;
      InsertedNormal(Codes(b), rs[0].from, rs[0].to);
      assert forall i :: 0 <= i < |rs[1..]| ==> rs[1..][i] == rs[i + 1];
      AddAllMeans(Some(more), rs[1..], out);
      forall c ensures In(Codes(out), c) <==> In(Codes(b), c) || In(rs, c) {
        NormalSorted(Codes(b));
        InsertedUnion(Codes(b), rs[0].from, rs[0].to, c);
        InConcat([rs[0]], rs[1..], c);
        InOne(rs[0], c);
        assert rs == [rs[0]] + rs[1..];
      }
    }
  }

  lemma NormalSorted(rs: Ranges)
    requires Normal(rs)
    ensures Sorted(rs) && Proper(rs)
  {
    forall i | 0 <= i < |rs| ensures 1 <= rs[i].from { assert i > 0 ==> rs[0].to < rs[i].from; }
  }

  /** Too many intervals is an error only past the limit. */
  lemma {:induction false} AddAllFits(b: Buf, rs: Ranges)
    requires NormalBuf(b) && Proper(rs) && |Codes(b)| + |rs| <= ONIG_MAX_MULTI_BYTE_RANGES_NUM
    ensures AddAll(b, rs).Some?
    decreases |rs|
  {
    hide Normal, Inserted;
    if rs != [] {
      InsertedNormal(Codes(b), rs[0].from, rs[0].to);
      assert forall i :: 0 <= i < |rs[1..]| ==> rs[1..][i] == rs[i + 1];
      AddAllFits(Insert(Codes(b), rs[0].from, rs[0].to), rs[1..]);
    }
  }

  // ----- complement -----

  /** The intervals between those of rs, from pre on, as the loop of not_code_range_buf adds them. */
  function Gaps(rs: Ranges, pre: Code): Ranges
    requires rs != []
    decreases |rs|
  {
    (if pre <= Before(rs[0].from) then [Interval(pre, Before(rs[0].from))] else []) +
    (if rs[0].to == LAST_CODE then []
     else if |rs| == 1 then [Interval(rs[0].to + 1, LAST_CODE)]
     else Gaps(rs[1..], rs[0].to + 1))
  }

  const ALL_CODES: Ranges := [Interval(MBCODE_START_POS, LAST_CODE)]

  function NotAdds(b: Buf): Ranges { if Codes(b) == [] then ALL_CODES else Gaps(Codes(b), MBCODE_START_POS) }

  function NotBuf(b: Buf): Option<Buf> { AddAll(None, NotAdds(b)) }

  lemma NormalTail(rs: Ranges)
    requires Normal(rs) && rs != []
    ensures Normal(rs[1..]) && rs[0].from >= 1
    ensures forall c :: In(rs[1..], c) ==> c > rs[0].to
    ensures forall c :: In(rs, c) <==> Inside(rs[0], c) || In(rs[1..], c)
  {
    assert |rs| > 1 ==> rs[0].to < rs[1].from;
    forall c | In(rs[1..], c) ensures c > rs[0].to {
      var i := InPlace(rs[1..], c);
      assert rs[0].to < rs[i + 1].from;
    }
    forall c ensures In(rs, c) <==> Inside(rs[0], c) || In(rs[1..], c) {
      InConcat([rs[0]], rs[1..], c);
      InOne(rs[0], c);
      assert rs == [rs[0]] + rs[1..];
    }
  }

  lemma InEmpty(c: int)
    ensures !In([], c)
  {
  }

  lemma {:induction false} GapsMean(rs: Ranges, pre: Code)
    requires Normal(rs) && rs != [] && pre >= 1
    ensures Proper(Gaps(rs, pre)) && |Gaps(rs, pre)| <= |rs| + 1
    ensures forall c :: In(Gaps(rs, pre), c) ==> c >= pre || c > rs[0].to
    ensures forall c :: pre <= c <= LAST_CODE ==> (In(Gaps(rs, pre), c) <==> !In(rs, c))
    decreases |rs|
  {
    hide In, Normal;
    NormalFirst(rs);
    NormalTail(rs);
    var first := if pre <= Before(rs[0].from) then [Interval(pre, Before(rs[0].from))] else [];
    var rest := if rs[0].to == LAST_CODE then []
                else if |rs| == 1 then [Interval(rs[0].to + 1, LAST_CODE)]
                else Gaps(rs[1..], rs[0].to + 1);
    if rs[0].to < LAST_CODE && |rs| > 1 {
      GapsMean(rs[1..], rs[0].to + 1);
      NormalTail(rs[1..]);
      NormalFirst(rs[1..]);
      OverTail(rs);
    }
    forall c: int
      ensures In(Gaps(rs, pre), c) ==> c >= pre || c > rs[0].to
      ensures pre <= c <= LAST_CODE ==> (In(Gaps(rs, pre), c) <==> !In(rs, c))
    {
      InConcat(first, rest, c);
      InEmpty(c);
      if first != [] { InOne(first[0], c); }
      if |rest| == 1 { InOne(rest[0], c); }
      if rs[0].to == LAST_CODE || |rs| == 1 { BeyondLast(rs, c); }
    }
  }

  lemma OverTail(rs: Ranges)
    requires Normal(rs) && |rs| > 1
    ensures rs[1..][0].to > rs[0].to
  {
    assert rs[0].to < rs[1].from <= rs[1].to;
  }

  lemma NormalFirst(rs: Ranges)
    requires Normal(rs) && rs != []
    ensures 1 <= rs[0].from <= rs[0].to
  {
  }

  lemma BeyondLast(rs: Ranges, c: int)
    requires Normal(rs) && rs != [] && (rs[0].to == LAST_CODE || |rs| == 1)
    ensures In(rs, c) <==> Inside(rs[0], c)
  {
    NextStart(rs);
    assert rs == [rs[0]];
    InOne(rs[0], c);
  }

  lemma NextStart(rs: Ranges)
    requires Normal(rs)
    ensures |rs| > 1 ==> rs[0].to < rs[1].from
  {
  }

  /** not_code_range_buf is complement on the codes of multi-byte characters, and its result is again
      a normal buffer; it can fail only at the limit. */
  lemma NotMeans(b: Buf)
    requires NormalBuf(b)
    ensures |Codes(b)| < ONIG_MAX_MULTI_BYTE_RANGES_NUM ==> NotBuf(b).Some?
    ensures NotBuf(b).Some? ==> NormalBuf(NotBuf(b).value)
    ensures NotBuf(b).Some? ==>
              forall c :: MBCODE_START_POS <= c <= LAST_CODE ==> (In(Codes(NotBuf(b).value), c) <==> !In(Codes(b), c))
  {
    hide In, Normal;
    NotAddsMean(b);
    NormalEmpty();
    if NotBuf(b).Some? { AddAllMeans(None, NotAdds(b), NotBuf(b).value); }
    if |Codes(b)| < ONIG_MAX_MULTI_BYTE_RANGES_NUM { AddAllFits(None, NotAdds(b)); }
    forall c ensures !In([], c) { InEmpty(c); }
  }

  lemma NormalEmpty()
    ensures Normal([])
  {
  }

  lemma NotAddsMean(b: Buf)
    requires NormalBuf(b)
    ensures Proper(NotAdds(b)) && |NotAdds(b)| <= |Codes(b)| + 1
    ensures forall c :: MBCODE_START_POS <= c <= LAST_CODE ==> (In(NotAdds(b), c) <==> !In(Codes(b), c))
  {
    if Codes(b) == [] {
      forall c ensures In(ALL_CODES, c) <==> MBCODE_START_POS <= c <= LAST_CODE { InOne(ALL_CODES[0], c); }
    } else {
      GapsMean(Codes(b), MBCODE_START_POS);
    }
  }

  // ----- union -----

  /** or_code_range_buf; its callers never pass two negations. */
  function OrBuf(b1: Buf, not1: bool, b2: Buf, not2: bool): Option<Buf>
    requires !(not1 && not2)
  {
    if b1.None? && b2.None? then (if not1 || not2 then AddAll(None, ALL_CODES) else Some(None))
    else if b2.None? then OrOne(b2, not2, b1, not1)
    else if b1.None? then OrOne(b1, not1, b2, not2)
    else if not1 then OrTwo(b2, b1, true)
    else OrTwo(b1, b2, not2)
  }

  /** The first buffer is null. */
  function OrOne(b1: Buf, not1: bool, b2: Buf, not2: bool): Option<Buf> {
    if not1 then AddAll(None, ALL_CODES) else if !not2 then Some(b2) else NotBuf(b2)
  }

  /** The first buffer is plain, and is added to the second or to its complement. */
  function OrTwo(b1: Buf, b2: Buf, not2: bool): Option<Buf> {
    match if !not2 then Some(b2) else NotBuf(b2)
    case None => None
    case Some(base) => AddAll(base, Codes(b1))
  }

  /** Code c is in the buffer, or is not when the class is negated. */
  predicate Holds(b: Buf, neg: bool, c: int) { In(Codes(b), c) != neg }

  lemma AllMean(c: Code)
    ensures AddAll(None, ALL_CODES).Some? && NormalBuf(AddAll(None, ALL_CODES).value)
    ensures c >= MBCODE_START_POS ==> In(Codes(AddAll(None, ALL_CODES).value), c)
  {
    NotMeans(None);
    InEmpty(c);
  }

  lemma OrOneMeans(b1: Buf, not1: bool, b2: Buf, not2: bool, c: Code)
    requires Codes(b1) == [] && NormalBuf(b2) && OrOne(b1, not1, b2, not2).Some?
    ensures NormalBuf(OrOne(b1, not1, b2, not2).value)
    ensures c >= MBCODE_START_POS ==>
              (In(Codes(OrOne(b1, not1, b2, not2).value), c) <==> Holds(b1, not1, c) || Holds(b2, not2, c))
  {
    hide In, Normal;
    AllMean(c);
    NotMeans(b2);
    InEmpty(c);
  }

  lemma OrTwoMeans(b1: Buf, b2: Buf, not2: bool, c: Code)
    requires NormalBuf(b1) && NormalBuf(b2) && OrTwo(b1, b2, not2).Some?
    ensures NormalBuf(OrTwo(b1, b2, not2).value)
    ensures c >= MBCODE_START_POS ==>
              (In(Codes(OrTwo(b1, b2, not2).value), c) <==> In(Codes(b1), c) || Holds(b2, not2, c))
  {
    hide In, Normal, AddAll;
    NotMeans(b2);
    NormalSorted(Codes(b1));
    AddAllMeans((if !not2 then Some(b2) else NotBuf(b2)).value, Codes(b1), OrTwo(b1, b2, not2).value);
  }

  /** or_code_range_buf is union on the codes of multi-byte characters. */
  lemma OrMeans(b1: Buf, not1: bool, b2: Buf, not2: bool, c: Code)
    requires !(not1 && not2) && NormalBuf(b1) && NormalBuf(b2) && OrBuf(b1, not1, b2, not2).Some?
    ensures NormalBuf(OrBuf(b1, not1, b2, not2).value)
    ensures c >= MBCODE_START_POS ==>
              (In(Codes(OrBuf(b1, not1, b2, not2).value), c) <==> Holds(b1, not1, c) || Holds(b2, not2, c))
  {
    hide In, Normal, AddAll, OrOne, OrTwo;
    if b1.None? && b2.None? {
      AllMean(c);
      InEmpty(c);
      NormalEmpty();
    } else if b2.None? {
      OrOneMeans(b2, not2, b1, not1, c);
    } else if b1.None? {
      OrOneMeans(b1, not1, b2, not2, c);
    } else if not1 {
      OrTwoMeans(b2, b1, true, c);
    } else {
      OrTwoMeans(b1, b2, not2, c);
    }
  }

  /** The union can fail only when the intervals might be too many together. */
  lemma OrFits(b1: Buf, not1: bool, b2: Buf, not2: bool)
    requires !(not1 && not2) && NormalBuf(b1) && NormalBuf(b2)
    requires |Codes(b1)| + |Codes(b2)| < ONIG_MAX_MULTI_BYTE_RANGES_NUM
    ensures OrBuf(b1, not1, b2, not2).Some?
  {
    hide In, Normal, AddAll;
    AllMean(0);
    NotMeans(b1);
    NotMeans(b2);
    NormalSorted(Codes(b1));
    NormalSorted(Codes(b2));
    if b1.Some? && b2.Some? {
      var (x, y, n) := if not1 then (b2, b1, true) else (b1, b2, not2);
      if !n { AddAllFits(y, Codes(x)); } else { NotSize(y); AddAllFits(NotBuf(y).value, Codes(x)); }
    }
  }

  lemma {:induction false} AddAllSize(b: Buf, rs: Ranges)
    requires NormalBuf(b) && Proper(rs) && AddAll(b, rs).Some?
    ensures |Codes(AddAll(b, rs).value)| <= |Codes(b)| + |rs|
    decreases |rs|
  {
    hide Normal, Inserted;
    if rs != [] {
      InsertedNormal(Codes(b), rs[0].from, rs[0].to);
      assert forall i :: 0 <= i < |rs[1..]| ==> rs[1..][i] == rs[i + 1];
      AddAllSize(Insert(Codes(b), rs[0].from, rs[0].to), rs[1..]);
    }
  }

  lemma NotSize(b: Buf)
    requires NormalBuf(b) && NotBuf(b).Some?
    ensures |Codes(NotBuf(b).value)| <= |Codes(b)| + 1
  {
    NotAddsMean(b);
    AddAllSize(None, NotAdds(b));
  }

  // ----- intersection -----

  /** The overlaps of one interval with the second buffer. */
  function Meets(r: Interval, rs: Ranges): Ranges {
    if rs == [] || rs[0].from > r.to then []
    else if rs[0].to < r.from then Meets(r, rs[1..])
    else [Interval(if r.from > rs[0].from then r.from else rs[0].from, if r.to < rs[0].to then r.to
      else rs[0].to)] + Meets(r, rs[1..])
  }

  function AllMeets(rs1: Ranges, rs2: Ranges): Ranges {
    if rs1 == [] then [] else Meets(rs1[0], rs2) + AllMeets(rs1[1..], rs2)
  }

  lemma {:induction false} MeetsMean(r: Interval, rs: Ranges, c: int)
    requires Normal(rs) && 1 <= r.from <= r.to
    ensures Proper(Meets(r, rs))
    ensures In(Meets(r, rs), c) <==> Inside(r, c) && In(rs, c)
  {
    hide In, Normal;
    if rs == [] {
      InEmpty(c);
    } else {
      NormalFirst(rs);
      NormalTail(rs);
      InEmpty(c);
      if rs[0].from > r.to {
        AfterFirst(rs, c);
      } else {
        MeetsMean(r, rs[1..], c);
        if rs[0].to >= r.from {
          var m := Interval(if r.from > rs[0].from then r.from else rs[0].from, if r.to < rs[0].to then r.to
            else rs[0].to);
          InConcat([m], Meets(r, rs[1..]), c);
          InOne(m, c);
        }
      }
    }
  }

  lemma AfterFirst(rs: Ranges, c: int)
    requires Normal(rs) && rs != []
    ensures In(rs, c) ==> c >= rs[0].from
  {
    NormalTail(rs);
  }

  /** 1 AND 2 is intersection. */
  lemma {:induction false} AllMeetsMean(rs1: Ranges, rs2: Ranges, c: int)
    requires Normal(rs1) && Normal(rs2)
    ensures Proper(AllMeets(rs1, rs2))
    ensures In(AllMeets(rs1, rs2), c) <==> In(rs1, c) && In(rs2, c)
  {
    hide In, Normal;
    if rs1 == [] {
      InEmpty(c);
    } else {
      NormalFirst(rs1);
      NormalTail(rs1);
      MeetsMean(rs1[0], rs2, c);
      AllMeetsMean(rs1[1..], rs2, c);
      InConcat(Meets(rs1[0], rs2), AllMeets(rs1[1..], rs2), c);
    }
  }

  // ----- one interval less the second buffer -----

  /** to2 + 1 in unsigned arithmetic. */
  function After(to: Code): Code { if to == LAST_CODE then 0 else to + 1 }

  /** What and_code_range1 adds. */
  function Cut(from: Code, to: Code, rs: Ranges): Ranges
    requires from <= to
    decreases |rs|
  {
    if rs == [] then [Interval(from, to)]
    else if rs[0].from < from then
      if rs[0].to < from then Cut(from, to, rs[1..])
      else if After(rs[0].to) > to then []
      else Cut(After(rs[0].to), to, rs[1..])
    else if rs[0].from <= to then
      if rs[0].to < to then
        (if from <= Before(rs[0].from) then [Interval(from, Before(rs[0].from))] else []) +
        Cut(After(rs[0].to), to, rs[1..])
      else if from > Before(rs[0].from) then []
      else Cut(from, Before(rs[0].from), rs[1..])
    else []
  }

  /** The second buffer reaches the end of the code space from before the interval: to2 + 1 wraps. */
  predicate Wraps(from: Code, rs: Ranges) { rs != [] && rs[|rs| - 1].to == LAST_CODE && rs[|rs| - 1].from < from }

  /** The interval that holds the last code leaves nothing pending in front of it. */
  predicate Closed(from: Code, to: Code, rs: Ranges) {
    exists j :: 0 <= j < |rs| && Inside(rs[j], to) && (rs[j].from <= from || In(rs, rs[j].from - 1))
  }

  /** No later interval follows, or nothing is pending when one does. */
  predicate KeepsLast(from: Code, to: Code, rs: Ranges) {
    rs == [] || rs[|rs| - 1].from <= to || Closed(from, to, rs)
  }

  lemma ClosedAt(from: Code, to: Code, rs: Ranges, j: nat)
    requires j < |rs| && Inside(rs[j], to) && (rs[j].from <= from || In(rs, rs[j].from - 1))
    ensures Closed(from, to, rs)
  {
  }

  lemma ClosedPlace(from: Code, to: Code, rs: Ranges) returns (j: nat)
    requires Closed(from, to, rs)
    ensures j < |rs| && Inside(rs[j], to) && (rs[j].from <= from || In(rs, rs[j].from - 1))
  {
    j :| 0 <= j < |rs| && Inside(rs[j], to) && (rs[j].from <= from || In(rs, rs[j].from - 1));
  }

  lemma After0(rs: Ranges, j: nat)
    requires Normal(rs) && 0 < j < |rs|
    ensures rs[0].to < rs[j].from
  {
  }

  /** An interval of the second buffer that ends inside can be passed over. */
  lemma ClosedTail(from: Code, to: Code, rs: Ranges)
    requires Normal(rs) && rs != [] && rs[0].to < to
    ensures var f: Code := if from > rs[0].to then from else rs[0].to + 1;
            Closed(from, to, rs) <==> Closed(f, to, rs[1..])
  {
    hide In, Normal, Closed;
    var f: Code := if from > rs[0].to then from else rs[0].to + 1;
    NormalTail(rs);
    NormalFirst(rs);
    if Closed(from, to, rs) {
      var j := ClosedPlace(from, to, rs);
      After0(rs, j);
      ClosedAt(f, to, rs[1..], j - 1);
    }
    if Closed(f, to, rs[1..]) {
      var j := ClosedPlace(f, to, rs[1..]);
      After0(rs, j + 1);
      ClosedAt(from, to, rs, j + 1);
    }
  }

  lemma LastTail(rs: Ranges)
    requires rs != []
    ensures |rs| > 1 ==> rs[1..][|rs[1..]| - 1] == rs[|rs| - 1]
  {
  }

  lemma LastAfter(rs: Ranges)
    requires Normal(rs) && rs != []
    ensures |rs| > 1 ==> rs[|rs| - 1].from > rs[0].to
    ensures rs[|rs| - 1].from >= rs[0].from
  {
    if |rs| > 1 { After0(rs, |rs| - 1); }
  }

  /** Everything and_code_range1 adds lies in the interval and outside the second buffer. */
  lemma {:induction false} CutSound(from: Code, to: Code, rs: Ranges, c: int)
    requires Normal(rs) && 1 <= from <= to && !Wraps(from, rs)
    ensures Proper(Cut(from, to, rs))
    ensures In(Cut(from, to, rs), c) ==> from <= c <= to && !In(rs, c)
    decreases |rs|
  {
    hide In, Normal;
    InEmpty(c);
    if rs == [] {
      InOne(Interval(from, to), c);
    } else {
      NormalFirst(rs);
      NormalTail(rs);
      LastTail(rs);
      LastAfter(rs);
      if rs[0].from < from {
        if rs[0].to < from { CutSound(from, to, rs[1..], c); }
        else if After(rs[0].to) <= to { CutSound(After(rs[0].to), to, rs[1..], c); }
      } else if rs[0].from <= to {
        if rs[0].to < to {
          var piece := if from <= Before(rs[0].from) then [Interval(from, Before(rs[0].from))] else [];
          CutSound(After(rs[0].to), to, rs[1..], c);
          InConcat(piece, Cut(After(rs[0].to), to, rs[1..]), c);
          if piece != [] { InOne(piece[0], c); }
        } else if from <= Before(rs[0].from) {
          CutSound(from, Before(rs[0].from), rs[1..], c);
        }
      }
    }
  }

  /** Nothing outside the second buffer is lost, so long as the last piece is kept. */
  lemma {:induction false} CutWhole(from: Code, to: Code, rs: Ranges, c: int)
    requires Normal(rs) && 1 <= from <= to && !Wraps(from, rs) && KeepsLast(from, to, rs)
    ensures from <= c <= to && !In(rs, c) ==> In(Cut(from, to, rs), c)
    decreases |rs|
  {
    hide In, Normal, Closed;
    InEmpty(c);
    if rs == [] {
      InOne(Interval(from, to), c);
    } else {
      NormalFirst(rs);
      NormalTail(rs);
      LastTail(rs);
      LastAfter(rs);
      if rs[0].to < to { ClosedTail(from, to, rs); }
      if rs[0].from < from {
        if rs[0].to < from { CutWhole(from, to, rs[1..], c); }
        else if After(rs[0].to) <= to { CutWhole(After(rs[0].to), to, rs[1..], c); }
      } else if rs[0].from <= to {
        if rs[0].to < to {
          var piece := if from <= Before(rs[0].from) then [Interval(from, Before(rs[0].from))] else [];
          CutWhole(After(rs[0].to), to, rs[1..], c);
          InConcat(piece, Cut(After(rs[0].to), to, rs[1..]), c);
          if piece != [] { InOne(piece[0], c); }
        } else if from <= Before(rs[0].from) {
          ClosedFirst(from, to, rs);
          CutWhole(from, Before(rs[0].from), rs[1..], c);
        }
      } else {
        ClosedNone(from, to, rs);
      }
    }
  }

  /** The first interval holds the last code and something is pending in front of it. */
  lemma ClosedFirst(from: Code, to: Code, rs: Ranges)
    requires Normal(rs) && rs != [] && from < rs[0].from <= to <= rs[0].to
    ensures !Closed(from, to, rs)
  {
    if Closed(from, to, rs) {
      var j := ClosedPlace(from, to, rs);
      OnlyFirst(rs, j, to);
      AfterFirst(rs, rs[0].from - 1);
    }
  }

  lemma OnlyFirst(rs: Ranges, j: nat, to: int)
    requires Normal(rs) && j < |rs| && to <= rs[0].to && Inside(rs[j], to)
    ensures j == 0
  {
  }

  lemma ClosedNone(from: Code, to: Code, rs: Ranges)
    requires Normal(rs) && rs != [] && to < rs[0].from
    ensures !Closed(from, to, rs)
  {
    if Closed(from, to, rs) {
      var j := ClosedPlace(from, to, rs);
      InAt(rs, j, to);
      AfterFirst(rs, to);
    }
  }

  /** When the last piece is not kept, some code outside the second buffer is lost. */
  lemma {:induction false} CutDrops(from: Code, to: Code, rs: Ranges) returns (c: Code)
    requires Normal(rs) && 1 <= from <= to && !Wraps(from, rs) && !KeepsLast(from, to, rs)
    ensures from <= c <= to && !In(rs, c) && !In(Cut(from, to, rs), c)
    decreases |rs|
  {
    hide In, Normal, Closed;
    NormalFirst(rs);
    NormalTail(rs);
    LastTail(rs);
    LastAfter(rs);
    c := from;
    InEmpty(c);
    if rs[0].to < to { ClosedTail(from, to, rs); }
    if rs[0].from < from {
      if rs[0].to < from {
        c := CutDrops(from, to, rs[1..]);
      } else if After(rs[0].to) <= to {
        c := CutDrops(After(rs[0].to), to, rs[1..]);
      } else {
        ClosedAt(from, to, rs, 0);
      }
    } else if rs[0].from <= to {
      if rs[0].to < to {
        var piece := if from <= Before(rs[0].from) then [Interval(from, Before(rs[0].from))] else [];
        c := CutDrops(After(rs[0].to), to, rs[1..]);
        InConcat(piece, Cut(After(rs[0].to), to, rs[1..]), c);
        InEmpty(c);
        if piece != [] { InOne(piece[0], c); }
      } else if from <= Before(rs[0].from) {
        NextStart(rs);
        AfterFirst(rs, c);
      } else {
        ClosedAt(from, to, rs, 0);
      }
    } else {
      AfterFirst(rs, c);
    }
  }

  /** When the addition wraps, the whole interval from code 0 is added, though none of it is left. */
  lemma {:induction false} CutWraps(from: Code, to: Code, rs: Ranges)
    requires Normal(rs) && 1 <= from <= to && Wraps(from, rs)
    ensures Cut(from, to, rs) == [Interval(0, to)] && In(rs, from)
    decreases |rs|
  {
    LastTail(rs);
    LastAfter(rs);
    NormalTail(rs);
    InAt(rs, |rs| - 1, from);
    if |rs| > 1 { CutWraps(from, to, rs[1..]); }
  }

  /** 10-20 less everything from 5 on is nothing, but becomes 0-20. */
  lemma CutWrapped()
    ensures Cut(10, 20, [Interval(5, LAST_CODE)]) == [Interval(0, 20)]
  {
    assert After(LAST_CODE) == 0 && [Interval(5, LAST_CODE)][1..] == [];
  }

  // ----- all intervals of one buffer less the other -----

  function AllCuts(rs1: Ranges, rs2: Ranges): Ranges
    requires Proper(rs1)
  {
    if rs1 == [] then [] else Cut(rs1[0].from, rs1[0].to, rs2) + AllCuts(rs1[1..], rs2)
  }

  predicate NoWraps(rs1: Ranges, rs2: Ranges) { forall i :: 0 <= i < |rs1| ==> !Wraps(rs1[i].from, rs2) }

  predicate AllKept(rs1: Ranges, rs2: Ranges) { forall i :: 0 <= i < |rs1| ==> KeepsLast(rs1[i].from, rs1[i].to, rs2) }

  lemma {:induction false} InCuts(rs1: Ranges, rs2: Ranges, i: nat, c: int)
    requires Proper(rs1) && i < |rs1| && In(Cut(rs1[i].from, rs1[i].to, rs2), c)
    ensures In(AllCuts(rs1, rs2), c)
  {
    hide In;
    InConcat(Cut(rs1[0].from, rs1[0].to, rs2), AllCuts(rs1[1..], rs2), c);
    if i > 0 { InCuts(rs1[1..], rs2, i - 1, c); }
  }

  lemma {:induction false} CutsPlace(rs1: Ranges, rs2: Ranges, c: int) returns (i: nat)
    requires Proper(rs1) && In(AllCuts(rs1, rs2), c)
    ensures i < |rs1| && In(Cut(rs1[i].from, rs1[i].to, rs2), c)
  {
    hide In;
    InEmpty(c);
    InConcat(Cut(rs1[0].from, rs1[0].to, rs2), AllCuts(rs1[1..], rs2), c);
    if In(Cut(rs1[0].from, rs1[0].to, rs2), c) {
      i := 0;
    } else {
      i := CutsPlace(rs1[1..], rs2, c);
      i := i + 1;
    }
  }

  lemma {:induction false} AllCutsProper(rs1: Ranges, rs2: Ranges)
    requires Proper(rs1) && Normal(rs2) && NoWraps(rs1, rs2)
    ensures Proper(AllCuts(rs1, rs2))
  {
    hide Normal, Wraps;
    if rs1 != [] {
      CutSound(rs1[0].from, rs1[0].to, rs2, 0);
      assert forall i :: 0 <= i < |rs1[1..]| ==> rs1[1..][i] == rs1[i + 1];
      AllCutsProper(rs1[1..], rs2);
    }
  }

  lemma KeptAt(rs1: Ranges, rs2: Ranges, i: nat)
    requires i < |rs1|
    ensures NoWraps(rs1, rs2) ==> !Wraps(rs1[i].from, rs2)
    ensures AllKept(rs1, rs2) ==> KeepsLast(rs1[i].from, rs1[i].to, rs2)
  {
  }

  /** 1 AND (not 2) is set difference when no addition wraps and every last piece is kept. */
  lemma DifferenceHolds(rs1: Ranges, rs2: Ranges, c: int)
    requires Normal(rs1) && Normal(rs2) && Proper(rs1) && NoWraps(rs1, rs2) && AllKept(rs1, rs2)
    ensures In(AllCuts(rs1, rs2), c) <==> In(rs1, c) && !In(rs2, c)
  {
    hide Normal, Wraps, KeepsLast, Cut, AllCuts, NoWraps, AllKept;
    if In(AllCuts(rs1, rs2), c) {
      var i := CutsPlace(rs1, rs2, c);
      KeptAt(rs1, rs2, i);
      CutSound(rs1[i].from, rs1[i].to, rs2, c);
      InAt(rs1, i, c);
    }
    if In(rs1, c) && !In(rs2, c) {
      var i := InPlace(rs1, c);
      KeptAt(rs1, rs2, i);
      CutWhole(rs1[i].from, rs1[i].to, rs2, c);
      InCuts(rs1, rs2, i, c);
    }
  }

  ghost predicate IsDifference(rs1: Ranges, rs2: Ranges)
    requires Proper(rs1)
  {
    forall c: Code :: In(AllCuts(rs1, rs2), c) <==> In(rs1, c) && !In(rs2, c)
  }

  lemma DifferenceAt(rs1: Ranges, rs2: Ranges, c: Code)
    requires Proper(rs1) && IsDifference(rs1, rs2)
    ensures In(AllCuts(rs1, rs2), c) <==> In(rs1, c) && !In(rs2, c)
  {
  }

  lemma WrapBreaks(rs1: Ranges, rs2: Ranges, i: nat)
    requires Normal(rs1) && Normal(rs2) && Proper(rs1) && i < |rs1| && Wraps(rs1[i].from, rs2)
    ensures !IsDifference(rs1, rs2)
  {
    hide Normal, Wraps, Cut, AllCuts, IsDifference;
    var c := rs1[i].from;
    CutWraps(rs1[i].from, rs1[i].to, rs2);
    InOne(Interval(0, rs1[i].to), c);
    InCuts(rs1, rs2, i, c);
    if IsDifference(rs1, rs2) { DifferenceAt(rs1, rs2, c); }
  }

  lemma DropBreaks(rs1: Ranges, rs2: Ranges, i: nat)
    requires Normal(rs1) && Normal(rs2) && Proper(rs1) && NoWraps(rs1, rs2)
    requires i < |rs1| && !KeepsLast(rs1[i].from, rs1[i].to, rs2)
    ensures !IsDifference(rs1, rs2)
  {
    hide In, Normal, Wraps, Cut, AllCuts, IsDifference, KeepsLast, NoWraps;
    KeptAt(rs1, rs2, i);
    var c := CutDrops(rs1[i].from, rs1[i].to, rs2);
    InAt(rs1, i, c);
    if IsDifference(rs1, rs2) {
      DifferenceAt(rs1, rs2, c);
      var k := CutsPlace(rs1, rs2, c);
      KeptAt(rs1, rs2, k);
      CutSound(rs1[k].from, rs1[k].to, rs2, c);
      OnePlace(rs1, i, k, c);
    }
  }

  lemma OnePlace(rs: Ranges, i: nat, k: nat, c: int)
    requires Normal(rs) && i < |rs| && k < |rs| && Inside(rs[i], c) && Inside(rs[k], c)
    ensures i == k
  {
  }

  /** 1 AND (not 2) is set difference exactly when no addition wraps and every last piece is kept. */
  lemma DifferenceExactly(rs1: Ranges, rs2: Ranges)
    requires Normal(rs1) && Normal(rs2)
    ensures Proper(rs1)
    ensures IsDifference(rs1, rs2) <==> NoWraps(rs1, rs2) && AllKept(rs1, rs2)
  {
    hide Normal, Wraps, KeepsLast, AllCuts;
    NormalSorted(rs1);
    if NoWraps(rs1, rs2) && AllKept(rs1, rs2) {
      forall c: Code ensures In(AllCuts(rs1, rs2), c) <==> In(rs1, c) && !In(rs2, c) { DifferenceHolds(rs1, rs2, c); }
    } else if !NoWraps(rs1, rs2) {
      var i :| 0 <= i < |rs1| && Wraps(rs1[i].from, rs2);
      WrapBreaks(rs1, rs2, i);
    } else {
      var i :| 0 <= i < |rs1| && !KeepsLast(rs1[i].from, rs1[i].to, rs2);
      DropBreaks(rs1, rs2, i);
    }
  }

  /** and_code_range_buf; its callers never pass two negations. */
  function AndBuf(b1: Buf, not1: bool, b2: Buf, not2: bool): Option<Buf>
    requires !(not1 && not2) && Proper(Codes(b1)) && Proper(Codes(b2))
  {
    if b1.None? then Some(if not1 then b2 else None)
    else if b2.None? then Some(if not2 then b1 else None)
    else if not1 then AddAll(None, AllCuts(b2.value, b1.value))
    else if not2 then AddAll(None, AllCuts(b1.value, b2.value))
    else AddAll(None, AllMeets(b1.value, b2.value))
  }

  /** What one negation needs: see DifferenceExactly. */
  predicate Cuttable(b1: Buf, not1: bool, b2: Buf, not2: bool) {
    && (not1 ==> NoWraps(Codes(b2), Codes(b1)) && AllKept(Codes(b2), Codes(b1)))
    && (not2 ==> NoWraps(Codes(b1), Codes(b2)) && AllKept(Codes(b1), Codes(b2)))
  }

  /** and_code_range_buf is intersection, of plain buffers always, of one plain and one negated buffer
      when the difference comes out right. */
  lemma AndMeans(b1: Buf, not1: bool, b2: Buf, not2: bool, c: Code)
    requires !(not1 && not2) && NormalBuf(b1) && NormalBuf(b2) && Proper(Codes(b1)) && Proper(Codes(b2))
    requires Cuttable(b1, not1, b2, not2) && AndBuf(b1, not1, b2, not2).Some?
    ensures NormalBuf(AndBuf(b1, not1, b2, not2).value)
    ensures In(Codes(AndBuf(b1, not1, b2, not2).value), c) <==> Holds(b1, not1, c) && Holds(b2, not2, c)
  {
    hide In, Normal, AddAll, Cut, AllCuts, AllMeets, NoWraps, AllKept;
    InEmpty(c);
    NormalEmpty();
    if b1.Some? && b2.Some? {
      var out := AndBuf(b1, not1, b2, not2).value;
      if not1 {
        DifferenceHolds(b2.value, b1.value, c);
        AllCutsProper(b2.value, b1.value);
        AddAllMeans(None, AllCuts(b2.value, b1.value), out);
      } else if not2 {
        DifferenceHolds(b1.value, b2.value, c);
        AllCutsProper(b1.value, b2.value);
        AddAllMeans(None, AllCuts(b1.value, b2.value), out);
      } else {
        AllMeetsMean(b1.value, b2.value, c);
        AddAllMeans(None, AllMeets(b1.value, b2.value), out);
      }
    }
  }
}
