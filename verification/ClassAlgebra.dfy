/** Character classes: a bit set for one-byte codes, intervals for the others, and a negation flag;
    union, intersection and removing the flag (Dependencies/oniguruma5/regparse.c, or_cclass, and_cclass,
    clear_not_flag_cclass; regexec.c, is_code_in_cc). Encodings are single-byte, or have a shortest
    character of one byte. */
module ClassAlgebra {
  import opened CodeRange
  import opened RangeAlgebra
  import opened RangeBuffer
  import opened RangeSets
  import opened Regint

  const SINGLE_BYTE_SIZE := 256
  const NEWLINE_CODE := 0x0a

  type Bits = s: seq<bool> | |s| == SINGLE_BYTE_SIZE witness seq(SINGLE_BYTE_SIZE, i => false)

  /** The value of a CClassNode. */
  datatype Class = Class(neg: bool, bits: Bits, buf: Buf)

  /** is_code_in_cc */
  predicate InClass(cc: Class, encLen: nat, code: Code) {
    (if encLen > 1 || code >= SINGLE_BYTE_SIZE then In(Codes(cc.buf), code) else cc.bits[code]) != cc.neg
  }

  /** The characters there are: in a single-byte encoding one byte, otherwise from MBCODE_START_POS on
      where the intervals are asked. */
  predicate Char(single: bool, encLen: nat, code: Code) {
    if single then encLen <= 1 && code < SINGLE_BYTE_SIZE
    else encLen > 1 || code >= SINGLE_BYTE_SIZE ==> code >= MBCODE_START_POS
  }

  predicate NormalClass(cc: Class) { NormalBuf(cc.buf) }

  // ----- what the operations compute -----

  function OrBits(d: Class, cc: Class): Bits {
    seq(SINGLE_BYTE_SIZE, i requires 0 <= i < SINGLE_BYTE_SIZE => ((d.bits[i] != d.neg)
      || (cc.bits[i] != cc.neg)) != d.neg)
  }

  function AndBits(d: Class, cc: Class): Bits {
    seq(SINGLE_BYTE_SIZE, i requires 0 <= i < SINGLE_BYTE_SIZE => ((d.bits[i] != d.neg)
      && (cc.bits[i] != cc.neg)) != d.neg)
  }

  function Inverted(bits: Bits): Bits { seq(SINGLE_BYTE_SIZE, i requires 0 <= i < SINGLE_BYTE_SIZE => !bits[i]) }

  /** The complement where the class keeps its flag. */
  function UnderFlag(b: Option<Buf>, neg: bool): Option<Buf> { if b.Some? && neg then NotBuf(b.value) else b }

  function OrBufs(b1: Buf, not1: bool, b2: Buf, not2: bool): Option<Buf>
    requires Proper(Codes(b1)) && Proper(Codes(b2))
  {
    if not1 && not2 then AndBuf(b1, false, b2, false) else UnderFlag(OrBuf(b1, not1, b2, not2), not1)
  }

  function AndBufs(b1: Buf, not1: bool, b2: Buf, not2: bool): Option<Buf>
    requires Proper(Codes(b1)) && Proper(Codes(b2))
  {
    if not1 && not2 then OrBuf(b1, false, b2, false) else UnderFlag(AndBuf(b1, not1, b2, not2), not1)
  }

  lemma UnderFlagMeans(b: Buf, neg: bool, c: Code)
    requires NormalBuf(b) && UnderFlag(Some(b), neg).Some?
    ensures NormalBuf(UnderFlag(Some(b), neg).value)
    ensures c >= MBCODE_START_POS ==> (In(Codes(UnderFlag(Some(b), neg).value), c) != neg <==> In(Codes(b), c))
  {
    NotMeans(b);
  }

  /** Membership after or_cclass is disjunction, whichever of the two classes is negated. */
  lemma OrClassMeans(d: Class, cc: Class, single: bool, out: Class, encLen: nat, code: Code)
    requires NormalClass(d) && NormalClass(cc) && Proper(Codes(d.buf)) && Proper(Codes(cc.buf))
    requires out.neg == d.neg && out.bits == OrBits(d, cc)
    requires if single then out.buf == d.buf else OrBufs(d.buf, d.neg, cc.buf, cc.neg) == Some(out.buf)
    requires Char(single, encLen, code)
    ensures NormalClass(out)
    ensures InClass(out, encLen, code) <==> InClass(d, encLen, code) || InClass(cc, encLen, code)
  {
    hide In, Normal, AndBuf, OrBuf, NotBuf;
    if !single {
      if d.neg && cc.neg {
        AndMeans(d.buf, false, cc.buf, false, code);
      } else {
        OrMeans(d.buf, d.neg, cc.buf, cc.neg, code);
        UnderFlagMeans(OrBuf(d.buf, d.neg, cc.buf, cc.neg).value, d.neg, code);
      }
    }
  }

  /** Membership after and_cclass is conjunction when both classes are negated or neither is; with one
      negated, when the difference of the intervals comes out right. */
  lemma AndClassMeans(d: Class, cc: Class, single: bool, out: Class, encLen: nat, code: Code)
    requires NormalClass(d) && NormalClass(cc) && Proper(Codes(d.buf)) && Proper(Codes(cc.buf))
    requires out.neg == d.neg && out.bits == AndBits(d, cc)
    requires if single then out.buf == d.buf else AndBufs(d.buf, d.neg, cc.buf, cc.neg) == Some(out.buf)
    requires !single && d.neg != cc.neg ==> Cuttable(d.buf, d.neg, cc.buf, cc.neg)
    requires Char(single, encLen, code)
    ensures NormalClass(out)
    ensures InClass(out, encLen, code) <==> InClass(d, encLen, code) && InClass(cc, encLen, code)
  {
    hide In, Normal, AndBuf, OrBuf, NotBuf, NoWraps, AllKept;
    if !single {
      if d.neg && cc.neg {
        OrMeans(d.buf, false, cc.buf, false, code);
      } else {
        AndMeans(d.buf, d.neg, cc.buf, cc.neg, code);
        UnderFlagMeans(AndBuf(d.buf, d.neg, cc.buf, cc.neg).value, d.neg, code);
      }
    }
  }

  /** clear_not_flag_cclass leaves membership as it is. */
  lemma ClearNotMeans(cc: Class, single: bool, out: Class, encLen: nat, code: Code)
    requires NormalClass(cc) && Char(single, encLen, code)
    requires if cc.neg then
               !out.neg && out.bits == Inverted(cc.bits) &&
               (if single then out.buf == cc.buf else NotBuf(cc.buf) == Some(out.buf))
             else out == cc
    ensures NormalClass(out)
    ensures InClass(out, encLen, code) <==> InClass(cc, encLen, code)
  {
    hide In, Normal, NotBuf;
    if !single { NotMeans(cc.buf); }
  }

  /** [0x100-0x200] AND NOT [0x300-0x400] comes out empty: the first interval lies before the second, and
      its piece is dropped. */
  lemma AndNotLoses()
    ensures var d := [Interval(0x100, 0x200)];
            var cc := [Interval(0x300, 0x400)];
            && Normal(d) && Normal(cc) && NoWraps(d, cc) && !AllKept(d, cc)
            && Proper(d) && AndBuf(Some(d), false, Some(cc), true) == Some(None)
            && In(d, 0x180) && !In(cc, 0x180)
  {
    var d := [Interval(0x100, 0x200)];
    var cc := [Interval(0x300, 0x400)];
    InOne(d[0], 0x180);
    InOne(cc[0], 0x180);
    assert Cut(0x100, 0x200, cc) == [];
    assert d[1..] == [];
    assert AllCuts(d, cc) == [];
    if Closed(0x100, 0x200, cc) { var j := ClosedPlace(0x100, 0x200, cc); }
    assert !KeepsLast(d[0].from, d[0].to, cc);
  }

  // ----- a bracket expression -----

  /** or_cclass on values; None is the error for too many ranges. */
  function OrStep(d: Class, cc: Class, single: bool): (r: Option<Class>)
    requires NormalClass(d) && NormalClass(cc)
    ensures r.Some? ==> NormalClass(r.value) && r.value.neg == d.neg
  {
    NormalProper(Codes(d.buf));
    NormalProper(Codes(cc.buf));
    var b := if single then Some(d.buf) else OrBufs(d.buf, d.neg, cc.buf, cc.neg);
    if b.None? then None
    else
      var out := Class(d.neg, OrBits(d, cc), b.value);
      OrClassMeans(d, cc, single, out, 1, 0);
      Some(out)
  }

  /** and_cclass as parse_char_class calls it: on two plain classes. */
  function AndStep(d: Class, cc: Class, single: bool): (r: Option<Class>)
    requires NormalClass(d) && NormalClass(cc) && !d.neg && !cc.neg
    ensures r.Some? ==> NormalClass(r.value) && !r.value.neg
  {
    NormalProper(Codes(d.buf));
    NormalProper(Codes(cc.buf));
    var b := if single then Some(d.buf) else AndBufs(d.buf, d.neg, cc.buf, cc.neg);
    if b.None? then None
    else
      var out := Class(d.neg, AndBits(d, cc), b.value);
      AndClassMeans(d, cc, single, out, 1, 0);
      Some(out)
  }

  function NoBits(): Bits { seq(SINGLE_BYTE_SIZE, i requires 0 <= i < SINGLE_BYTE_SIZE => false) }

  /** initialize_cclass */
  function EmptyClass(): Class { Class(false, NoBits(), None) }

  predicate AllNormal(items: seq<Class>) { forall i :: 0 <= i < |items| ==> NormalClass(items[i]) }

  predicate AllSections(sections: seq<seq<Class>>) { forall i :: 0 <= i < |sections| ==> AllNormal(sections[i]) }

  /** What stands between two &&: ranges, and nested classes, which may be negated, one after the other. */
  function Section(d: Class, items: seq<Class>, single: bool): (r: Option<Class>)
    requires NormalClass(d) && AllNormal(items)
    ensures r.Some? ==> NormalClass(r.value) && r.value.neg == d.neg
    decreases |items|
  {
    if items == [] then Some(d)
    else
      var o := OrStep(d, items[0], single);
      if o.None? then None else Section(o.value, items[1..], single)
  }

  /** The sections so far, cut down by those that follow. */
  function Sections(d: Class, rest: seq<seq<Class>>, single: bool): (r: Option<Class>)
    requires NormalClass(d) && !d.neg && AllSections(rest)
    ensures r.Some? ==> NormalClass(r.value) && !r.value.neg
    decreases |rest|
  {
    if rest == [] then Some(d)
    else
      EmptyNormal();
      var cc := Section(EmptyClass(), rest[0], single);
      var o := if cc.None? then None else AndStep(d, cc.value, single);
      if o.None? then None else Sections(o.value, rest[1..], single)
  }

  /** ONIG_SYN_NOT_NEWLINE_IN_NEGATIVE_CC: the newline joins what is to be negated, unless that is empty. */
  function WithNewline(cc: Class): (r: Class)
    ensures r.buf == cc.buf && r.neg == cc.neg
  {
    if cc == EmptyClass() then cc else cc.(bits := cc.bits[NEWLINE_CODE := true])
  }

  /** parse_char_class: the negation is set at the end only. */
  function Bracket(neg: bool, first: seq<Class>, rest: seq<seq<Class>>, single: bool, notNewline: bool)
    : (r: Option<Class>)
    requires AllNormal(first) && AllSections(rest)
    ensures r.Some? ==> NormalClass(r.value) && r.value.neg == neg
  {
    EmptyNormal();
    var d := Section(EmptyClass(), first, single);
    var out := if d.None? then None else Sections(d.value, rest, single);
    if out.None? then None
    else if neg && notNewline then Some(WithNewline(out.value).(neg := true))
    else Some(out.value.(neg := neg))
  }

  lemma EmptyNormal()
    ensures NormalClass(EmptyClass()) && !EmptyClass().neg
  {
  }

  /** Some item of the section holds the code. */
  predicate InSection(items: seq<Class>, encLen: nat, code: Code) {
    exists i :: 0 <= i < |items| && InClass(items[i], encLen, code)
  }

  lemma {:induction false} SectionMeans(d: Class, items: seq<Class>, single: bool, encLen: nat, code: Code)
    requires NormalClass(d) && AllNormal(items) && Char(single, encLen, code) && Section(d, items, single).Some?
    ensures InClass(Section(d, items, single).value, encLen, code) <==>
            InClass(d, encLen, code) || InSection(items, encLen, code)
    decreases |items|
  {
    hide InClass, NormalClass, Char, OrBits, OrBufs;
    if items != [] {
      var o := OrStep(d, items[0], single).value;
      OrStepMeans(d, items[0], single, encLen, code);
      SectionMeans(o, items[1..], single, encLen, code);
      InRest(items, encLen, code);
    }
  }

  lemma InRest(items: seq<Class>, encLen: nat, code: Code)
    requires items != []
    ensures InSection(items, encLen, code) <==> InClass(items[0], encLen, code) || InSection(items[1..], encLen, code)
  {
    hide InClass;
    if InSection(items[1..], encLen, code) {
      var i :| 0 <= i < |items| - 1 && InClass(items[1..][i], encLen, code);
      assert InClass(items[i + 1], encLen, code);
    }
    if InSection(items, encLen, code) {
      var i :| 0 <= i < |items| && InClass(items[i], encLen, code);
      if i > 0 { assert InClass(items[1..][i - 1], encLen, code); }
    }
  }

  lemma OrStepMeans(d: Class, cc: Class, single: bool, encLen: nat, code: Code)
    requires NormalClass(d) && NormalClass(cc) && Char(single, encLen, code) && OrStep(d, cc, single).Some?
    ensures InClass(OrStep(d, cc, single).value, encLen, code) <==>
            InClass(d, encLen, code) || InClass(cc, encLen, code)
  {
    NormalProper(Codes(d.buf));
    NormalProper(Codes(cc.buf));
    OrClassMeans(d, cc, single, OrStep(d, cc, single).value, encLen, code);
  }

  lemma AndStepMeans(d: Class, cc: Class, single: bool, encLen: nat, code: Code)
    requires NormalClass(d) && NormalClass(cc) && !d.neg && !cc.neg
    requires Char(single, encLen, code) && AndStep(d, cc, single).Some?
    ensures InClass(AndStep(d, cc, single).value, encLen, code) <==>
            InClass(d, encLen, code) && InClass(cc, encLen, code)
  {
    NormalProper(Codes(d.buf));
    NormalProper(Codes(cc.buf));
    AndClassMeans(d, cc, single, AndStep(d, cc, single).value, encLen, code);
  }

  predicate InAll(rest: seq<seq<Class>>, encLen: nat, code: Code) {
    forall i :: 0 <= i < |rest| ==> InSection(rest[i], encLen, code)
  }

  lemma {:induction false} SectionsMean(d: Class, rest: seq<seq<Class>>, single: bool, encLen: nat, code: Code)
    requires NormalClass(d) && !d.neg && AllSections(rest) && Char(single, encLen, code)
    requires Sections(d, rest, single).Some?
    ensures InClass(Sections(d, rest, single).value, encLen, code) <==>
            InClass(d, encLen, code) && InAll(rest, encLen, code)
    decreases |rest|
  {
    hide InClass, NormalClass, Char, Section, AndStep;
    if rest != [] {
      EmptyNormal();
      NothingIn(encLen, code);
      var cc := Section(EmptyClass(), rest[0], single).value;
      var o := AndStep(d, cc, single).value;
      SectionMeans(EmptyClass(), rest[0], single, encLen, code);
      AndStepMeans(d, cc, single, encLen, code);
      SectionsMean(o, rest[1..], single, encLen, code);
      assert InAll(rest, encLen, code) <==> InSection(rest[0], encLen, code) && InAll(rest[1..], encLen, code) by {
        AllRest(rest, encLen, code);
      }
    }
  }

  lemma AllRest(rest: seq<seq<Class>>, encLen: nat, code: Code)
    requires rest != []
    ensures InAll(rest, encLen, code) <==> InSection(rest[0], encLen, code) && InAll(rest[1..], encLen, code)
  {
    hide InSection;
    if InSection(rest[0], encLen, code) && InAll(rest[1..], encLen, code) {
      forall i | 0 <= i < |rest| ensures InSection(rest[i], encLen, code) {
        if i > 0 { assert rest[i] == rest[1..][i - 1]; }
      }
    }
  }

  lemma NothingIn(encLen: nat, code: Code)
    ensures !InClass(EmptyClass(), encLen, code)
  {
  }

  /** A bracket expression holds a character exactly if every section has a range or class that holds it, or
      not exactly then if it is negated; where the syntax asks for it, no negated one holds the newline
      except the negation of nothing. Since only plain classes are met, no difference is ever taken. */
  lemma BracketMeans(neg: bool, first: seq<Class>, rest: seq<seq<Class>>, single: bool, notNewline: bool,
                     encLen: nat, code: Code)
    requires AllNormal(first) && AllSections(rest) && Char(single, encLen, code)
    requires Bracket(neg, first, rest, single, notNewline).Some?
    ensures var added := neg && notNewline && encLen <= 1 && code == NEWLINE_CODE &&
                         Bracket(false, first, rest, single, false) != Some(EmptyClass());
            InClass(Bracket(neg, first, rest, single, notNewline).value, encLen, code) <==>
            (added || (InSection(first, encLen, code) && InAll(rest, encLen, code))) != neg
  {
    EmptyNormal();
    NothingIn(encLen, code);
    var d := Section(EmptyClass(), first, single).value;
    SectionMeans(EmptyClass(), first, single, encLen, code);
    SectionsMean(d, rest, single, encLen, code);
    hide Section, Sections, NormalClass, InSection, InAll, In;
  }

  // ----- the bit sets -----

  predicate Sized(bs: array<bool>) { bs.Length == SINGLE_BYTE_SIZE }

  /** bitset_invert_to; bitset_invert when both are the same. */
  method InvertTo(from: array<bool>, to: array<bool>)
    requires Sized(from) && Sized(to)
    modifies to
    ensures to[..] == Inverted(old(from[..]))
  {
    var i := 0;
    while i < SINGLE_BYTE_SIZE
      invariant 0 <= i <= SINGLE_BYTE_SIZE
      invariant forall k :: 0 <= k < i ==> to[k] == !old(from[k])
      invariant forall k :: i <= k < SINGLE_BYTE_SIZE ==> from[k] == old(from[k])
    {
      to[i] := !from[i];
      i := i + 1;
    }
  }

  /** bitset_and */
  method BitsetAnd(dest: array<bool>, bs: array<bool>)
    requires Sized(dest) && Sized(bs) && dest != bs
    modifies dest
    ensures forall k :: 0 <= k < SINGLE_BYTE_SIZE ==> dest[k] == (old(dest[k]) && bs[k])
  {
    var i := 0;
    while i < SINGLE_BYTE_SIZE
      invariant 0 <= i <= SINGLE_BYTE_SIZE
      invariant forall k :: 0 <= k < SINGLE_BYTE_SIZE ==> dest[k] == (old(dest[k]) && (k < i ==> bs[k]))
    {
      dest[i] := dest[i] && bs[i];
      i := i + 1;
    }
  }

  /** bitset_or */
  method BitsetOr(dest: array<bool>, bs: array<bool>)
    requires Sized(dest) && Sized(bs) && dest != bs
    modifies dest
    ensures forall k :: 0 <= k < SINGLE_BYTE_SIZE ==> dest[k] == (old(dest[k]) || bs[k])
  {
    var i := 0;
    while i < SINGLE_BYTE_SIZE
      invariant 0 <= i <= SINGLE_BYTE_SIZE
      invariant forall k :: 0 <= k < SINGLE_BYTE_SIZE ==> dest[k] == (old(dest[k]) || (k < i && bs[k]))
    {
      dest[i] := dest[i] || bs[i];
      i := i + 1;
    }
  }

  /** bitset_copy */
  method BitsetCopy(dest: array<bool>, bs: array<bool>)
    requires Sized(dest) && Sized(bs) && dest != bs
    modifies dest
    ensures dest[..] == bs[..]
  {
    var i := 0;
    while i < SINGLE_BYTE_SIZE
      invariant 0 <= i <= SINGLE_BYTE_SIZE
      invariant forall k :: 0 <= k < i ==> dest[k] == bs[k]
    {
      dest[i] := bs[i];
      i := i + 1;
    }
  }

  // ----- the node -----

  class CClassNode {
    const bs: array<bool>
    var neg: bool
    var mbuf: BBuf?

    constructor ()
      ensures Valid() && fresh(bs) && !neg && mbuf == null && forall i :: 0 <= i < SINGLE_BYTE_SIZE ==> !bs[i]
    {
      bs := new bool[SINGLE_BYTE_SIZE](i => false);
      neg, mbuf := false, null;
    }

    ghost predicate Valid()
      reads this, bs, if mbuf == null then {} else {mbuf, mbuf.p}
    {
      Sized(bs) && Usable(mbuf)
    }

    ghost function Value(): Class
      requires Valid()
      reads this, bs, if mbuf == null then {} else {mbuf, mbuf.p}
    {
      Class(neg, bs[..], BufOf(mbuf))
    }
  }

  /** is_code_in_cc */
  method IsCodeInCc(encLen: nat, code: Code, cc: CClassNode) returns (found: bool)
    requires cc.Valid()
    ensures found <==> InClass(cc.Value(), encLen, code)
  {
    hide In;
    if encLen > 1 || code >= SINGLE_BYTE_SIZE {
      InEmpty(code);
      if cc.mbuf == null {
        found := false;
      } else {
        NormalIsSorted(cc.mbuf.Intervals());
        found := IsInCodeRange(cc.mbuf, code);
      }
    } else {
      found := cc.bs[code];
    }
    if cc.neg { found := !found; }
  }

  lemma NormalIsSorted(rs: Ranges)
    requires Normal(rs)
    ensures Sorted(rs)
  {
  }

  /** clear_not_flag_cclass; the bits are inverted even when the intervals then fail. */
  method ClearNotFlag(cc: CClassNode, single: bool) returns (r: int)
    requires cc.Valid()
    modifies cc, cc.bs
    ensures cc.Valid()
    ensures cc.bs[..] == if old(cc.neg) then Inverted(old(cc.bs[..])) else old(cc.bs[..])
    ensures if !old(cc.neg) || single then r == 0 && !cc.neg && cc.mbuf == old(cc.mbuf)
            else match NotBuf(old(BufOf(cc.mbuf)))
                 case Some(b) => r == 0 && !cc.neg && BufOf(cc.mbuf) == b
                 case None => r == ONIGERR_TOO_MANY_MULTI_BYTE_RANGES && cc.neg && cc.mbuf == old(cc.mbuf)
  {
    hide NotBuf, Normal, RangesOf, Inverted;
    r := 0;
    if cc.neg {
      InvertTo(cc.bs, cc.bs);
      if !single {
        var tbuf;
        r, tbuf := NotCodeRangeBuf(cc.mbuf);
        if r != 0 { return; }
        cc.mbuf := tbuf;
      }
      cc.neg := false;
    }
  }

  /** The bit sets of or_cclass: inverted where a class is negated, and inverted back. */
  method OrBitsets(dest: CClassNode, cc: CClassNode)
    requires dest.Valid() && cc.Valid() && dest.bs != cc.bs
    modifies dest.bs
    ensures dest.bs[..] == OrBits(old(dest.Value()), old(cc.Value()))
  {
    ghost var d, c := dest.Value(), cc.Value();
    hide Usable, BufOf;
    var bsr1, bsr2 := dest.bs, cc.bs;
    if dest.neg {
      var bs1 := new bool[SINGLE_BYTE_SIZE];
      InvertTo(bsr1, bs1);
      bsr1 := bs1;
    }
    if cc.neg {
      var bs2 := new bool[SINGLE_BYTE_SIZE];
      InvertTo(bsr2, bs2);
      bsr2 := bs2;
    }
    assert forall k :: 0 <= k < SINGLE_BYTE_SIZE ==>
           bsr1[..][k] == (d.bits[k] != d.neg) && bsr2[..][k] == (c.bits[k] != c.neg);
    BitsetOr(bsr1, bsr2);
    if bsr1 != dest.bs { BitsetCopy(dest.bs, bsr1); }
    if dest.neg { InvertTo(dest.bs, dest.bs); }
  }

  /** The interval part of or_cclass. */
  method OrBuffers(buf1: BBuf?, not1: bool, buf2: BBuf?, not2: bool) returns (r: int, pbuf: BBuf?)
    requires Usable(buf1) && Usable(buf2)
    ensures pbuf != null ==> fresh(pbuf) && fresh(pbuf.p)
    ensures Proper(Contents(buf1)) && Proper(Contents(buf2))
    ensures Built(r, pbuf, OrBufs(BufOf(buf1), not1, BufOf(buf2), not2))
  {
    hide AndBuf, OrBuf, NotBuf, Normal, RangesOf;
    NormalProper(Contents(buf1));
    NormalProper(Contents(buf2));
    if not1 && not2 {
      r, pbuf := AndCodeRangeBuf(buf1, false, buf2, false);
    } else {
      r, pbuf := OrCodeRangeBuf(buf1, not1, buf2, not2);
      if r == 0 && not1 { r, pbuf := NotCodeRangeBuf(pbuf); }
    }
  }

  /** or_cclass */
  method OrCClass(dest: CClassNode, cc: CClassNode, single: bool) returns (r: int)
    requires dest.Valid() && cc.Valid() && dest != cc && dest.bs != cc.bs
    modifies dest, dest.bs
    ensures dest.Valid() && dest.neg == old(dest.neg) && cc.Value() == old(cc.Value())
    ensures dest.bs[..] == OrBits(old(dest.Value()), old(cc.Value()))
    ensures Proper(Codes(old(BufOf(dest.mbuf)))) && Proper(Codes(old(BufOf(cc.mbuf))))
    ensures if single then r == 0 && dest.mbuf == old(dest.mbuf)
            else match OrBufs(old(BufOf(dest.mbuf)), dest.neg, old(BufOf(cc.mbuf)), cc.neg)
                 case Some(b) => r == 0 && BufOf(dest.mbuf) == b
                 case None => r == ONIGERR_TOO_MANY_MULTI_BYTE_RANGES && dest.mbuf == old(dest.mbuf)
  {
    hide OrBufs, Normal, RangesOf, OrBits;
    NormalProper(Contents(dest.mbuf));
    NormalProper(Contents(cc.mbuf));
    var not1, not2 := dest.neg, cc.neg;
    OrBitsets(dest, cc);
    r := 0;
    if !single {
      var pbuf;
      r, pbuf := OrBuffers(dest.mbuf, not1, cc.mbuf, not2);
      if r != 0 { return; }
      dest.mbuf := pbuf;
    }
  }

  /** The bit sets of and_cclass: inverted where a class is negated, and inverted back. */
  method AndBitsets(dest: CClassNode, cc: CClassNode)
    requires dest.Valid() && cc.Valid() && dest.bs != cc.bs
    modifies dest.bs
    ensures dest.bs[..] == AndBits(old(dest.Value()), old(cc.Value()))
  {
    ghost var d, c := dest.Value(), cc.Value();
    hide Usable, BufOf;
    var bsr1, bsr2 := dest.bs, cc.bs;
    if dest.neg {
      var bs1 := new bool[SINGLE_BYTE_SIZE];
      InvertTo(bsr1, bs1);
      bsr1 := bs1;
    }
    if cc.neg {
      var bs2 := new bool[SINGLE_BYTE_SIZE];
      InvertTo(bsr2, bs2);
      bsr2 := bs2;
    }
    assert forall k :: 0 <= k < SINGLE_BYTE_SIZE ==>
           bsr1[..][k] == (d.bits[k] != d.neg) && bsr2[..][k] == (c.bits[k] != c.neg);
    BitsetAnd(bsr1, bsr2);
    if bsr1 != dest.bs { BitsetCopy(dest.bs, bsr1); }
    if dest.neg { InvertTo(dest.bs, dest.bs); }
  }

  /** The interval part of and_cclass. */
  method AndBuffers(buf1: BBuf?, not1: bool, buf2: BBuf?, not2: bool) returns (r: int, pbuf: BBuf?)
    requires Usable(buf1) && Usable(buf2)
    requires not1 && !not2 ==> NoWraps(Contents(buf2), Contents(buf1))
    requires !not1 && not2 ==> NoWraps(Contents(buf1), Contents(buf2))
    ensures pbuf != null ==> fresh(pbuf) && fresh(pbuf.p)
    ensures Proper(Contents(buf1)) && Proper(Contents(buf2))
    ensures Built(r, pbuf, AndBufs(BufOf(buf1), not1, BufOf(buf2), not2))
  {
    hide AndBuf, OrBuf, NotBuf, Normal, RangesOf;
    NormalProper(Contents(buf1));
    NormalProper(Contents(buf2));
    if not1 && not2 {
      r, pbuf := OrCodeRangeBuf(buf1, false, buf2, false);
    } else {
      r, pbuf := AndCodeRangeBuf(buf1, not1, buf2, not2);
      if r == 0 && not1 { r, pbuf := NotCodeRangeBuf(pbuf); }
    }
  }

  /** and_cclass */
  method AndCClass(dest: CClassNode, cc: CClassNode, single: bool) returns (r: int)
    requires dest.Valid() && cc.Valid() && dest != cc && dest.bs != cc.bs
    requires !single && dest.neg && !cc.neg ==> NoWraps(Contents(cc.mbuf), Contents(dest.mbuf))
    requires !single && !dest.neg && cc.neg ==> NoWraps(Contents(dest.mbuf), Contents(cc.mbuf))
    modifies dest, dest.bs
    ensures dest.Valid() && dest.neg == old(dest.neg) && cc.Value() == old(cc.Value())
    ensures dest.bs[..] == AndBits(old(dest.Value()), old(cc.Value()))
    ensures Proper(Codes(old(BufOf(dest.mbuf)))) && Proper(Codes(old(BufOf(cc.mbuf))))
    ensures if single then r == 0 && dest.mbuf == old(dest.mbuf)
            else match AndBufs(old(BufOf(dest.mbuf)), dest.neg, old(BufOf(cc.mbuf)), cc.neg)
                 case Some(b) => r == 0 && BufOf(dest.mbuf) == b
                 case None => r == ONIGERR_TOO_MANY_MULTI_BYTE_RANGES && dest.mbuf == old(dest.mbuf)
  {
    hide AndBufs, Normal, RangesOf, AndBits;
    NormalProper(Contents(dest.mbuf));
    NormalProper(Contents(cc.mbuf));
    var not1, not2 := dest.neg, cc.neg;
    AndBitsets(dest, cc);
    r := 0;
    if !single {
      var pbuf;
      r, pbuf := AndBuffers(dest.mbuf, not1, cc.mbuf, not2);
      if r != 0 { return; }
      dest.mbuf := pbuf;
    }
  }
}
