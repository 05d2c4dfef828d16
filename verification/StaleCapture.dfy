/** A match with a capture of a round that was taken back: (?:(?=())a?){3}a on a. The second round stands behind the
    a, captures there and leaves the repeat as an empty round; when the a behind the repeat fails, the first round
    gives its a back and is the last, but the cell keeps the place of the second. */
module StaleCapture {
  import opened Regint
  import opened Regparse
  import opened Regcomp
  import opened Machine
  import opened Setup
  import opened Meaning
  import opened Lengths
  import opened CompilerCorrect
  import opened ProgramCorrect
  import opened Layout
  import opened Levels
  import opened Captures
  import opened CaptureCells
  import opened Spans
  import opened PathLevels
  import opened Noting
  import opened Enumeration
  import opened Alongside
  import opened MemoryBits
  import opened Regions
  import opened MatchAt
  import opened ReductionMeaning
  import Regex

  const A: byte := 0x61

  /** One group, and no undo bits: set-up asks for none. */
  function Bare(unaligned: bool): Cfg { Cfg({}, {}, unaligned, 1) }

  function JustA(): Subject { Subject([A], 0, 0, false) }

  function Ahead(): Node { Look(PrecRead, 0, Group(1, Str([]))) }

  function Maybe(q: Rep): Node { Quant(Str([A]), q) }

  /** (?=())a? */
  function Body(q: Rep): Node { List(Cons(Ahead(), Last(Maybe(q)))) }

  function Whole(inner: Rep, outer: Rep): Node { List(Cons(Quant(Body(inner), outer), Last(Str([A])))) }

  function RawInner(): Rep { RepOf(0, 1, true) }

  function RawOuter(): Rep { RepOf(3, 3, true) }

  function Source(): Node { Whole(RawInner(), RawOuter()) }

  // ----- what set-up and compilation make of it -----

  function Inner(): Rep { RawInner().(inRepeat := true, raw := false) }

  function Outer(): Rep { RawOuter().(emptyInfo := IsEmpty, raw := false) }

  function Done(): Node { Whole(Inner(), Outer()) }

  lemma AheadIs(u: bool)
    ensures Ahead().Look? && Parsed(Ahead()) && Formed(Ahead()) && SetupTree(Ahead(), true) == Ahead()
    ensures MinLen(Ahead()) == 0 && !HasMemory(Ahead()) && Head(Ahead(), true).None?
    ensures GroupsOf(Ahead()) == {1} && Numbered(Ahead()) && StartBits(Ahead(), false) == {}
    ensures CompileLength(Ahead(), Bare(u)) == 8
  {
  }

  lemma MaybeIs(u: bool)
    ensures var r, d := Maybe(RawInner()), Maybe(Inner());
            && Parsed(r) && Formed(r) && Formed(d) && SetupTree(r, true) == d && d.Quant?
            && MinLen(r) == 0 == MinLen(d) && !HasMemory(r) && !HasMemory(d)
            && GroupsOf(r) == {} == GroupsOf(d) && Numbered(r) && CompileLength(d, Bare(u)) == 7
    ensures forall i: bool :: StartBits(Maybe(RawInner()), i) == {}
  {
    assert SetupTree(Str([A]), true) == Str([A]);
    assert FormOf(Str([A]), Inner(), 2).Copies?;
  }

  // Two items in a row.

  function Pair(a: Node, b: Node): Node { List(Cons(a, Last(b))) }

  lemma PairParsed(a: Node, b: Node)
    ensures Parsed(Pair(a, b)) == (Parsed(a) && Parsed(b)) && Formed(Pair(a, b)) == (Formed(a) && Formed(b))
  {
    assert AllParsed(Last(b)) == Parsed(b) && AllFormed(Last(b)) == Formed(b);
  }

  lemma PairSetup(a: Node, b: Node, inside: bool)
    ensures SetupTree(Pair(a, b), inside) ==
            Pair(NextSetup(SetupTree(a, inside), SetupTree(b, inside)), SetupTree(b, inside))
  {
    hide NextSetup;
    var ns := Last(b);
    assert SetupList(ns, inside) == Last(SetupTree(b, inside)) && ns.left == b;
  }

  lemma PairEmpty(a: Node, b: Node)
    requires MinLen(a) == 0 == MinLen(b) && !HasMemory(a) && !HasMemory(b)
    ensures MinLen(Pair(a, b)) == 0 && !HasMemory(Pair(a, b)) && !InvalidTarget(Pair(a, b))
    ensures Head(Pair(a, b), true) == Head(a, true)
  {
    assert MinLenList(Last(b)) == 0 && !AnyMemory(Last(b));
  }

  lemma PairGroups(a: Node, b: Node)
    ensures GroupsOf(Pair(a, b)) == GroupsOf(a) + GroupsOf(b)
    ensures Numbered(Pair(a, b)) == (Numbered(a) && Numbered(b) && GroupsOf(a) !! GroupsOf(b))
    ensures StartBits(Pair(a, b), false) == StartBits(a, false) + StartBits(b, false)
  {
    var ns := Last(b);
    assert AllGroups(ns) == GroupsOf(b) && AllNumbered(ns) == Numbered(b) && AllBits(ns, false) == StartBits(b, false);
  }

  lemma PairLength(a: Node, b: Node, u: bool)
    requires Formed(a) && Formed(b)
    ensures Formed(Pair(a, b))
    ensures CompileLength(Pair(a, b), Bare(u)) == CompileLength(a, Bare(u)) + CompileLength(b, Bare(u))
  {
    assert AllFormed(Last(b)) && ListLength(Last(b), Bare(u)) == CompileLength(b, Bare(u));
  }

  lemma BodyIs(u: bool)
    ensures var r, d := Body(RawInner()), Body(Inner());
            && Parsed(r) && Formed(r) && Formed(d) && SetupTree(r, true) == d && !InvalidTarget(r)
            && MinLen(r) == 0 == MinLen(d) && !HasMemory(r) && !HasMemory(d) && Head(d, true).None?
            && GroupsOf(r) == {1} == GroupsOf(d) && Numbered(r) && StartBits(r, false) == {}
            && CompileLength(d, Bare(u)) == 15 && d.List?
  {
    hide *;
    var a, r, d := Ahead(), Maybe(RawInner()), Maybe(Inner());
    AheadIs(u);
    MaybeIs(u);
    BodyPairs();
    PairParsed(a, r); PairParsed(a, d);
    PairSetup(a, r, true);
    LookNext(a, d);
    PairEmpty(a, r); PairEmpty(a, d);
    PairGroups(a, r); PairGroups(a, d);
    PairLength(a, d, u);
    PairList(a, d);
  }

  lemma PairList(a: Node, b: Node)
    ensures Pair(a, b).List?
  {
  }

  lemma BodyPairs()
    ensures Body(RawInner()) == Pair(Ahead(), Maybe(RawInner())) && Body(Inner()) == Pair(Ahead(), Maybe(Inner()))
    ensures Source() == Pair(Quant(Body(RawInner()), RawOuter()), Str([A]))
    ensures Done() == Pair(Quant(Body(Inner()), Outer()), Str([A]))
  {
  }

  lemma LookNext(n: Node, next: Node)
    requires n.Look? || (n.Quant? && !Infinite(n.q.upper))
    ensures NextSetup(n, next) == n
  {
  }

  lemma LoopIs(t: Node, t': Node)
    requires Parsed(t) && Formed(t) && Formed(t') && SetupTree(t, true) == t' && !InvalidTarget(t)
    requires MinLen(t) == 0 && !HasMemory(t) && Head(t', true).None? && t'.List?
    requires Numbered(t) && StartBits(t, false) == {}
    ensures var r, d := Quant(t, RawOuter()), Quant(t', Outer());
            && Parsed(r) && Formed(r) && Formed(d) && SetupTree(r, false) == d
            && Numbered(r) && StartBits(r, false) == {} && GroupsOf(r) == GroupsOf(t)
  {
    hide MinLen, HasMemory, Head;
    assert SetRep(t, RawOuter(), false) == Outer() && HeadString(t').None?;
    assert QuantSetup(t', Outer()) == Quant(t', Outer());
  }

  lemma LetterIs()
    ensures var a := Str([A]);
            Parsed(a) && Formed(a) && SetupTree(a, false) == a && GroupsOf(a) == {} && Numbered(a)
            && StartBits(a, false) == {}
  {
  }

  lemma SourceIs()
    ensures Parsed(Source()) && SetupTree(Source(), false) == Done() && Formed(Source()) && Formed(Done())
    ensures Numbered(Source()) && StartBits(Source(), false) == {}
  {
    var r, d := Quant(Body(RawInner()), RawOuter()), Quant(Body(Inner()), Outer());
    assert Body(Inner()).List? && !Infinite(Outer().upper);
    hide *;
    BodyIs(false);
    LoopIs(Body(RawInner()), Body(Inner()));
    LetterIs();
    BodyPairs();
    PairParsed(r, Str([A])); PairParsed(d, Str([A]));
    PairSetup(r, Str([A]), false);
    LookNext(d, Str([A]));
    PairGroups(r, Str([A]));
  }

  /** The repeat counts, and may leave early. */
  lemma MayLeave(u: bool)
    ensures Formed(Done()) && Formed(Body(Inner())) && FormOf(Body(Inner()), Outer(), 15).Counter?
    ensures !NoneQuits(Done(), Bare(u))
  {
    hide *;
    SourceIs();
    BodyIs(u);
    BodyPairs();
    LeavesEarly(Body(Inner()), u);
    if NoneQuits(Done(), Bare(u)) { PairQuits(Body(Inner()), Outer(), Str([A]), Bare(u)); }
  }

  lemma LeavesEarly(t: Node, u: bool)
    requires Formed(t) && t.List? && CompileLength(t, Bare(u)) == 15 && GroupsOf(t) == {1}
    ensures FormOf(t, Outer(), 15).Counter? && MayQuit(t, Outer(), Bare(u))
  {
    hide Formed, CompileLength, GroupsOf;
  }

  lemma PairQuits(t: Node, q: Rep, b: Node, cfg: Cfg)
    requires Formed(t) && Formed(Pair(Quant(t, q), b)) && NoneQuits(Pair(Quant(t, q), b), cfg)
    ensures !MayQuit(t, q, cfg)
  {
    hide MayQuit, Formed;
    QuantFormed(t, q, b);
    FirstStays(Quant(t, q), b, cfg);
  }

  lemma FirstStays(a: Node, b: Node, cfg: Cfg)
    requires Formed(a) && Formed(Pair(a, b)) && NoneQuits(Pair(a, b), cfg)
    ensures NoneQuits(a, cfg)
  {
    hide MayQuit;
    StaysList(Cons(a, Last(b)), cfg);
  }

  lemma StaysList(ns: Nodes, cfg: Cfg)
    requires AllFormed(ns) && NoneQuits(List(ns), cfg)
    ensures NoneQuits(ns.left, cfg)
  {
    hide MayQuit;
  }

  // ----- its results -----

  lemma TextSize()
    ensures |JustA().text| == 1
  {
  }

  lemma LetterEnds(ml: bool, cfg: Cfg)
    ensures var a, x := Str([A]), JustA(); Ends(a, ml, x, cfg, 0) == [1] && Ends(a, ml, x, cfg, 1) == []
  {
    assert JustA().text[0..1] == [A];
  }

  lemma AheadEnds(ml: bool, cfg: Cfg, s: nat)
    requires s <= 1 && Formed(Ahead())
    ensures Ends(Ahead(), ml, JustA(), cfg, s) == [s]
  {
    assert HasAt(JustA(), s, []);
    assert Ends(Group(1, Str([])), ml, JustA(), cfg, s) == [s];
  }

  lemma MaybeEnds(ml: bool, cfg: Cfg)
    requires Formed(Maybe(Inner()))
    ensures var n, x := Maybe(Inner()), JustA(); Ends(n, ml, x, cfg, 0) == [1, 0] && Ends(n, ml, x, cfg, 1) == [1]
  {
    var a, q, x := Str([A]), Inner(), JustA();
    LetterEnds(ml, cfg);
    hide CompileLength, FormOf;
    EachOne(a, q, ml, x, cfg, 1, 1, 0);
    EachSplit(a, q, ml, x, cfg, 1, [], 1);
    OnwardMoved(a, q, ml, x, cfg, 1, 1, 0);
    RepCases(a, q, ml, x, cfg, 1, 1);
    RepCases(a, q, ml, x, cfg, 0, 0);
    RepCases(a, q, ml, x, cfg, 0, 1);
    assert [1] + [0] == [1, 0];
  }

  lemma {:induction false} PairEnds(a: Node, b: Node, ml: bool, x: Subject, cfg: Cfg, s: nat)
    requires Formed(a) && Formed(b) && Formed(Pair(a, b)) && s <= |x.text|
    ensures AllFormed(Last(b))
    ensures Ends(Pair(a, b), ml, x, cfg, s) == EndsListAll(Last(b), ml, x, cfg, Ends(a, ml, x, cfg, s))
    ensures forall e: nat :: e <= |x.text| ==> EndsList(Last(b), ml, x, cfg, e) == Ends(b, ml, x, cfg, e)
  {
    hide Ends;
    assert AllFormed(Last(b));
    PairList(a, b);
    ListEnds(Cons(a, Last(b)), ml, x, cfg, s);
  }

  lemma ListEnds(ns: Nodes, ml: bool, x: Subject, cfg: Cfg, s: nat)
    requires AllFormed(ns) && s <= |x.text|
    ensures Ends(List(ns), ml, x, cfg, s) == EndsList(ns, ml, x, cfg, s)
  {
  }

  lemma AllEnds(b: Node, ml: bool, x: Subject, cfg: Cfg, from: seq<nat>)
    requires AllFormed(Last(b)) && Formed(b) && Bounded(from, x)
    requires forall e: nat :: e <= |x.text| ==> EndsList(Last(b), ml, x, cfg, e) == Ends(b, ml, x, cfg, e)
    ensures EndsListAll(Last(b), ml, x, cfg, from) ==
            if from == [] then [] else Ends(b, ml, x, cfg, from[0]) + EndsListAll(Last(b), ml, x, cfg, from[1..])
    ensures from != [] ==> Bounded(from[1..], x)
    ensures Bounded([], x)
  {
    hide Ends, EndsList;
  }

  lemma BodyEnds(ml: bool, u: bool)
    ensures Formed(Body(Inner()))
    ensures var t, x := Body(Inner()), JustA();
            Ends(t, ml, x, Bare(u), 0) == [1, 0] && Ends(t, ml, x, Bare(u), 1) == [1]
  {
    var a, d, x, cfg := Ahead(), Maybe(Inner()), JustA(), Bare(u);
    hide *;
    TextSize();
    BodyIs(u);
    AheadIs(u);
    MaybeIs(u);
    BodyPairs();
    MaybeEnds(ml, cfg);
    forall s: nat | s <= 1
      ensures Ends(Pair(a, d), ml, x, cfg, s) == Ends(d, ml, x, cfg, s)
    {
      AheadEnds(ml, cfg, s);
      PairEnds(a, d, ml, x, cfg, s);
      AllEnds(d, ml, x, cfg, [s]);
      assert [s][1..] == [];
      AllEnds(d, ml, x, cfg, []);
    }
  }

  lemma LoopEnds(t: Node, ml: bool, u: bool)
    requires Formed(t) && t.List? && CompileLength(t, Bare(u)) == 15
    requires Ends(t, ml, JustA(), Bare(u), 0) == [1, 0] && Ends(t, ml, JustA(), Bare(u), 1) == [1]
    ensures Ends(Quant(t, Outer()), ml, JustA(), Bare(u), 0) == [1, 0]
  {
    var q, x, cfg := Outer(), JustA(), Bare(u);
    assert forall k: nat :: Checked(t, q, cfg, k);
    hide Checked, CompileLength, FormOf;
    EachOne(t, q, ml, x, cfg, 2, 1, 1);
    RepCases(t, q, ml, x, cfg, 1, 1);
    EachSplit(t, q, ml, x, cfg, 1, [1, 0], 0);
    EachOne(t, q, ml, x, cfg, 1, 0, 0);
    OnwardMoved(t, q, ml, x, cfg, 1, 1, 0);
    assert [1, 0][1..] == [0] && [1] + [0] == [1, 0];
    RepCases(t, q, ml, x, cfg, 0, 0);
  }

  lemma DoneEnds(ml: bool, u: bool)
    ensures Formed(Done()) && Ends(Done(), ml, JustA(), Bare(u), 0) == [1]
  {
    var t, q, b, x, cfg := Body(Inner()), Outer(), Str([A]), JustA(), Bare(u);
    hide *;
    TextSize();
    SourceIs();
    BodyIs(u);
    BodyEnds(ml, u);
    BodyPairs();
    LetterIs();
    LetterEnds(ml, cfg);
    LoopEnds(t, ml, u);
    QuantFormed(t, q, b);
    PairEnds(Quant(t, q), b, ml, x, cfg, 0);
    assert [1, 0][1..] == [0] && [0][1..] == [];
    AllEnds(b, ml, x, cfg, [1, 0]);
    AllEnds(b, ml, x, cfg, [0]);
    AllEnds(b, ml, x, cfg, []);
  }

  lemma QuantFormed(t: Node, q: Rep, b: Node)
    requires Formed(Pair(Quant(t, q), b))
    ensures Formed(Quant(t, q)) && Formed(b)
  {
    assert AllFormed(Last(b)) == Formed(b);
  }

  // ----- its code -----

  /** Where the instructions stand. */
  function Code(p: int): Option<Instr> {
    match p
    case 0 => Some(OpRepeat(0, 24))
    case 7 => Some(OpNullCheckStart(0))
    case 10 => Some(OpPushPos)
    case 11 => Some(OpMemoryStart(1))
    case 14 => Some(OpMemoryEnd(1))
    case 17 => Some(OpPopPos)
    case 18 => Some(OpPush(2))
    case 23 => Some(OpExact1(A))
    case 25 => Some(OpNullCheckEnd(0))
    case 28 => Some(OpRepeatInc(0))
    case 31 => Some(OpExact1(A))
    case 33 => Some(OpEnd)
    case _ => None
  }

  ghost predicate Coded(prog: Prog) {
    prog.ranges == [Range(3, 3)] && forall p: nat :: Code(p).Some? ==> Fetch(prog, p) == Code(p)
  }

  /** A node compiled behind r. */
  function AfterAhead(r: Reg): Reg {
    Add(Add(Add(Add(r, OpPushPos, 1), OpMemoryStart(1), 3), OpMemoryEnd(1), 3), OpPopPos, 1)
  }

  function AfterMaybe(r: Reg): Reg { Add(Add(r, OpPush(2), 5), OpExact1(A), 2) }

  function BeforeBody(): Reg {
    Add(Add(NOTHING, OpRepeat(0, 24), 7).(ranges := [Range(3, 3)]), OpNullCheckStart(0), 3).(numNull := 1)
  }

  function AfterBody(r: Reg): Reg { Add(Add(r, OpNullCheckEnd(0), 3), OpRepeatInc(0), 3) }

  lemma AheadCode(r: Reg, ml: bool, u: bool)
    requires Formed(Ahead())
    ensures CompileTree(Ahead(), ml, Bare(u), r) == AfterAhead(r)
  {
    hide Add;
    var g := Group(1, Str([]));
    var r1 := Add(r, OpPushPos, 1);
    assert CompileTree(g, ml, Bare(u), r1) == Add(Add(r1, OpMemoryStart(1), 3), OpMemoryEnd(1), 3);
  }

  lemma MaybeCode(r: Reg, ml: bool, u: bool)
    requires Formed(Maybe(Inner()))
    ensures CompileTree(Maybe(Inner()), ml, Bare(u), r) == AfterMaybe(r)
  {
    hide Add;
    var a, r1 := Str([A]), Add(r, OpPush(2), 5);
    assert FormOf(a, Inner(), 2).Copies?;
    assert CompileTree(a, ml, Bare(u), r1) == Add(r1, OpExact1(A), 2);
    assert CompileTimes(a, 0, ml, Bare(u), r) == r;
    assert CompileOptional(a, 1, ml, Bare(u), r) == Add(r1, OpExact1(A), 2);
  }

  lemma PairCode(a: Node, b: Node, ml: bool, cfg: Cfg, r: Reg)
    requires Formed(Pair(a, b)) && Formed(a) && Formed(b)
    ensures CompileTree(Pair(a, b), ml, cfg, r) == CompileTree(b, ml, cfg, CompileTree(a, ml, cfg, r))
  {
    hide Add;
    var ns := Last(b);
    assert AllFormed(ns);
    var r1 := CompileTree(a, ml, cfg, r);
    assert CompileList(ns, ml, cfg, r1) == CompileTree(b, ml, cfg, r1);
    assert CompileList(Cons(a, ns), ml, cfg, r) == CompileList(ns, ml, cfg, r1);
  }

  lemma LoopCode(t: Node, ml: bool, u: bool)
    requires Formed(t) && t.List? && CompileLength(t, Bare(u)) == 15 && Formed(Quant(t, Outer()))
    ensures CompileTree(Quant(t, Outer()), ml, Bare(u), NOTHING) == AfterBody(CompileTree(t, ml, Bare(u), BeforeBody()))
  {
    hide CompileLength, Add;
    var q, cfg := Outer(), Bare(u);
    CompileQuantIs(t, q, ml, cfg, NOTHING);
    CounterIs(t, q, ml, cfg, NOTHING);
    var r1 := CounterHead(q, 24, NOTHING);
    hide CompileTree;
    assert r1 == Add(NOTHING, OpRepeat(0, 24), 7).(ranges := [Range(3, 3)]);
  }

  function Buffer(): Reg { Add(Add(AfterBody(AfterMaybe(AfterAhead(BeforeBody()))), OpExact1(A), 2), OpEnd, 1) }

  lemma TwoCells(r: Reg, i: Instr, n: nat, i': Instr, n': nat, code: Program)
    requires n >= 1 && n' >= 1 && Add(Add(r, i, n), i', n').code <= code
    ensures r.code <= code && |r.code| + n < |code| && code[|r.code|] == Op(i) && code[|r.code| + n] == Op(i')
    ensures |Add(Add(r, i, n), i', n').code| == |r.code| + n + n' && Add(Add(r, i, n), i', n').ranges == r.ranges
  {
    assert Add(r, i, n).code <= code;
  }

  lemma BufferCode()
    ensures Coded(Prog(Buffer().code, Buffer().ranges)) && |Buffer().code| == 34
  {
    var n := BeforeBody();
    var a1 := Add(Add(n, OpPushPos, 1), OpMemoryStart(1), 3);
    var a2, code := AfterAhead(n), Buffer().code;
    var m := AfterMaybe(a2);
    var c := AfterBody(m);
    hide Add;
    TwoCells(c, OpExact1(A), 2, OpEnd, 1, code);
    TwoCells(m, OpNullCheckEnd(0), 3, OpRepeatInc(0), 3, code);
    TwoCells(a2, OpPush(2), 5, OpExact1(A), 2, code);
    TwoCells(a1, OpMemoryEnd(1), 3, OpPopPos, 1, code);
    TwoCells(n, OpPushPos, 1, OpMemoryStart(1), 3, code);
    FirstCells(code);
    hide *;
    Fetched(Prog(code, Buffer().ranges));
  }

  lemma FirstCells(code: Program)
    requires BeforeBody().code <= code
    ensures |code| > 7 && code[0] == Op(OpRepeat(0, 24)) && code[7] == Op(OpNullCheckStart(0))
    ensures |BeforeBody().code| == 10 && BeforeBody().ranges == [Range(3, 3)]
  {
    var r := Add(NOTHING, OpRepeat(0, 24), 7).(ranges := [Range(3, 3)]);
    assert r.code <= BeforeBody().code;
  }

  lemma Fetched(prog: Prog)
    requires |prog.code| == 34 && prog.ranges == [Range(3, 3)]
    requires prog.code[0] == Op(OpRepeat(0, 24)) && prog.code[7] == Op(OpNullCheckStart(0))
             && prog.code[10] == Op(OpPushPos)
    requires prog.code[11] == Op(OpMemoryStart(1)) && prog.code[14] == Op(OpMemoryEnd(1))
             && prog.code[17] == Op(OpPopPos)
    requires prog.code[18] == Op(OpPush(2)) && prog.code[23] == Op(OpExact1(A))
             && prog.code[25] == Op(OpNullCheckEnd(0))
    requires prog.code[28] == Op(OpRepeatInc(0)) && prog.code[31] == Op(OpExact1(A)) && prog.code[33] == Op(OpEnd)
    ensures Coded(prog)
  {
  }

  lemma DoneCode(ml: bool, u: bool)
    ensures Formed(Done()) && CompileLength(Done(), Bare(u)) == 33
    ensures ProgramOf(Done(), ml, Bare(u)) == Prog(Buffer().code, Buffer().ranges)
  {
    hide *;
    var t, q, b, cfg := Body(Inner()), Outer(), Str([A]), Bare(u);
    SourceIs();
    BodyIs(u);
    BodyPairs();
    AheadIs(u);
    MaybeIs(u);
    QuantFormed(t, q, b);
    PairCode(Quant(t, q), b, ml, cfg, NOTHING);
    LoopCode(t, ml, u);
    PairCode(Ahead(), Maybe(Inner()), ml, cfg, BeforeBody());
    AheadCode(BeforeBody(), ml, u);
    MaybeCode(AfterAhead(BeforeBody()), ml, u);
    LetterCode(CompileTree(Quant(t, q), ml, cfg, NOTHING), ml, cfg);
    BufferCode();
    WholeCode(Done(), ml, cfg, AfterBody(AfterMaybe(AfterAhead(BeforeBody()))));
  }

  lemma LetterCode(r: Reg, ml: bool, cfg: Cfg)
    ensures CompileTree(Str([A]), ml, cfg, r) == Add(r, OpExact1(A), 2)
  {
  }

  lemma WholeCode(n: Node, ml: bool, cfg: Cfg, r: Reg)
    requires Formed(n) && CompileTree(n, ml, cfg, NOTHING) == Add(r, OpExact1(A), 2)
    requires r == AfterBody(AfterMaybe(AfterAhead(BeforeBody()))) && |Buffer().code| == 34
    ensures CompileLength(n, cfg) == 33 && ProgramOf(n, ml, cfg) == Prog(Buffer().code, Buffer().ranges)
  {
    hide CompileTree, CompileLength, Formed, Add, AfterBody, AfterMaybe, AfterAhead, BeforeBody;
    assert Compiled(n, ml, cfg) == Buffer();
  }

  // ----- the run of the machine that notes the group -----

  function Path(n: nat): Stack {
    match n
    case 0 => [BOTTOM]
    case 1 => Path(0) + [Repeat(0, 7, 0)]
    case 2 => Path(1) + [NullCheckStart(0, 0)]
    case 3 => Path(2) + [Pos(0)]
    case 4 => Path(3) + [MemStart(1, 0)]
    case 5 => Path(4) + [MemEnd(1, 0)]
    case 6 => Path(2) + [Void] + [MemStart(1, 0)] + [MemEnd(1, 0)]
    case 7 => Path(6) + [StkAlt(25, 0)]
    case 8 =>
      [BOTTOM, Repeat(1, 7, 0), NullCheckStart(0, 0), Void, MemStart(1, 0), MemEnd(1, 0), StkAlt(25, 0)]
          + [RepeatInc(1)]
    case 9 => Path(8) + [NullCheckStart(0, 1)]
    case 10 => Path(9) + [Pos(1)]
    case 11 => Path(10) + [MemStart(1, 1)]
    case 12 => Path(11) + [MemEnd(1, 1)]
    case 13 => Path(9) + [Void]
    case 14 => Path(13) + [MemStart(1, 1)]
    case 15 => Path(14) + [MemEnd(1, 1)]
    case _ => Path(15) + [StkAlt(25, 1)]
  }

  function Stage(i: nat): State {
    match i
    case 0 => Run(0, 0, Path(0))
    case 1 => Run(7, 0, Path(1))
    case 2 => Run(10, 0, Path(2))
    case 3 => Run(11, 0, Path(3))
    case 4 => Run(14, 0, Path(4))
    case 5 => Run(17, 0, Path(5))
    case 6 => Run(18, 0, Path(6))
    case 7 => Run(23, 0, Path(7))
    case 8 => Run(25, 1, Path(7))
    case 9 => Run(28, 1, Path(7))
    case 10 => Run(7, 1, Path(8))
    case 11 => Run(10, 1, Path(9))
    case 12 => Run(11, 1, Path(10))
    case 13 => Run(14, 1, Path(11))
    case 14 => Run(17, 1, Path(12))
    case 15 => Run(18, 1, Path(15))
    case 16 => Run(23, 1, Path(16))
    case 17 => Fail(Path(16))
    case 18 => Run(25, 1, Path(15))
    case 19 => Run(31, 1, Path(15))
    case 20 => Fail(Path(15))
    case 21 => Fail(Path(14))
    case 22 => Fail(Path(13))
    case 23 => Fail(Path(9))
    case 24 => Fail(Path(8))
    case 25 => Fail(Path(7))
    case 26 => Run(25, 0, Path(6))
    case 27 => Run(31, 0, Path(6))
    case _ => Run(33, 1, Path(6))
  }

  const LAST: nat := 28

  lemma CodeAt(prog: Prog, p: nat)
    requires Coded(prog) && Code(p).Some?
    ensures Fetch(prog, p) == Code(p)
  {
  }

  lemma Pushes(prog: Prog, s: nat, stk: Stack)
    requires Coded(prog) && prog.rec
    ensures Step(prog, JustA(), Run(10, s, stk)) == Run(11, s, stk + [Pos(s)])
    ensures Step(prog, JustA(), Run(11, s, stk)) == Run(14, s, stk + [MemStart(1, s)])
    ensures Step(prog, JustA(), Run(14, s, stk)) == Run(17, s, stk + [MemEnd(1, s)])
  {
    hide Coded, Fetch;
    CodeAt(prog, 10); CodeAt(prog, 11); CodeAt(prog, 14);
  }

  lemma Opens(prog: Prog, s: nat, stk: Stack)
    requires Coded(prog)
    ensures Step(prog, JustA(), Run(0, s, stk)) == Run(7, s, stk + [Repeat(0, 7, 0)])
    ensures Step(prog, JustA(), Run(7, s, stk)) == Run(10, s, stk + [NullCheckStart(0, s)])
    ensures Step(prog, JustA(), Run(18, s, stk)) == Run(23, s, stk + [StkAlt(25, s)])
  {
    CodeAt(prog, 0); CodeAt(prog, 7); CodeAt(prog, 18);
    assert prog.ranges == [Range(3, 3)];
    hide Coded, Fetch;
  }

  lemma Letters(prog: Prog, stk: Stack)
    requires Coded(prog)
    ensures Step(prog, JustA(), Run(23, 0, stk)) == Run(25, 1, stk) && Step(prog, JustA(), Run(23, 1, stk)) == Fail(stk)
    ensures Step(prog, JustA(), Run(31, 0, stk)) == Run(33, 1, stk) && Step(prog, JustA(), Run(31, 1, stk)) == Fail(stk)
  {
    CodeAt(prog, 23); CodeAt(prog, 31);
    hide Coded, Fetch;
  }

  lemma Checks(prog: Prog, s: nat, stk: Stack, at: nat)
    requires Coded(prog) && FindNullCheck(stk, 0) == Some(at)
    ensures Step(prog, JustA(), Run(25, s, stk)) == Run(if at == s then 31 else 28, s, stk)
  {
    CodeAt(prog, 25); CodeAt(prog, 28);
    hide FindNullCheck, Coded, Fetch;
  }

  lemma Closes(prog: Prog, stk: Stack, s: nat)
    requires Coded(prog)
    ensures Step(prog, JustA(), Run(17, s, stk + [Pos(s)] + [MemStart(1, s)] + [MemEnd(1, s)])) ==
            Run(18, s, stk + [Void] + [MemStart(1, s)] + [MemEnd(1, s)])
  {
    hide Coded, Fetch;
    CodeAt(prog, 17);
    var a := stk + [Pos(s)];
    var b := a + [MemStart(1, s)];
    var c := b + [MemEnd(1, s)];
    assert c[..|c| - 1] == b && b[..|b| - 1] == a && a[..|a| - 1] == stk;
    assert VoidTo(a, MarkPos) == Some((stk + [Void], Pos(s)));
    assert VoidTo(b, MarkPos) == Some((stk + [Void] + [MemStart(1, s)], Pos(s)));
    assert VoidTo(c, MarkPos) == Some((stk + [Void] + [MemStart(1, s)] + [MemEnd(1, s)], Pos(s)));
  }

  lemma SevenIs()
    ensures Path(7) == [BOTTOM, Repeat(0, 7, 0), NullCheckStart(0, 0), Void, MemStart(1, 0), MemEnd(1, 0),
            StkAlt(25, 0)]
  {
  }

  lemma Counts(prog: Prog)
    requires Coded(prog)
    ensures Step(prog, JustA(), Run(28, 1, Path(7))) == Run(7, 1, Path(8))
  {
    hide Step, FindRepeat, Coded;
    SevenIs();
    CounterFound(Path(7));
    CountStep(prog, Path(7));
  }

  lemma CountStep(prog: Prog, k: Stack)
    requires Coded(prog) && FindRepeat(k, 0) == Some(1) && k[1] == Repeat(0, 7, 0)
    ensures Step(prog, JustA(), Run(28, 1, k)) == Run(7, 1, k[1 := Repeat(1, 7, 0)] + [RepeatInc(1)])
  {
    CodeAt(prog, 28);
    assert prog.ranges == [Range(3, 3)];
    hide Coded, Fetch, FindRepeat;
  }

  lemma Uncounts()
    ensures PopOne(Path(8)) == Fail(Path(7))
  {
    SevenIs();
    var k := Path(7)[1 := Repeat(1, 7, 0)];
    assert Path(8) == k + [RepeatInc(1)] && Path(8)[..7] == k;
    assert k[1 := Repeat(0, 7, 0)] == Path(7);
  }

  lemma {:induction false} CounterFound(k: Stack)
    requires |k| >= 2 && k[1] == Repeat(0, 7, 0) && forall i :: 2 <= i < |k| ==> !k[i].Repeat?
    ensures FindRepeat(k, 0) == Some(1)
    decreases |k|
  {
    if |k| > 2 { CounterFound(k[..|k| - 1]); }
  }

  lemma Pops(stk: Stack, e: Entry)
    ensures PopUsed(e) ==> PopOne(stk + [e]) == Run(e.pcode, e.pstr, stk)
    ensures !PopUsed(e) && !e.RepeatInc? ==> PopOne(stk + [e]) == Fail(stk)
  {
    assert (stk + [e])[..|stk|] == stk;
  }

  lemma NullFound(stk: Stack, e: Entry)
    ensures FindNullCheck(stk + [e], 0) ==
            if e.NullCheckStart? && e.num == 0 then Some(e.pstr) else FindNullCheck(stk, 0)
  {
    assert (stk + [e])[..|stk|] == stk;
  }

  lemma FirstRound(prog: Prog, i: nat)
    requires Coded(prog) && prog.rec && i < 10
    ensures Step(prog, JustA(), Stage(i)) == Stage(i + 1)
  {
    hide Coded, Step;
    if i <= 1 {
      Opens(prog, 0, Path(i));
    } else if i <= 4 {
      Pushes(prog, 0, Path(i));
    } else if i == 5 {
      Closes(prog, Path(2), 0);
    } else if i == 6 {
      Opens(prog, 0, Path(6));
    } else if i == 7 {
      Letters(prog, Path(7));
    } else if i == 8 {
      FirstCheck();
      Checks(prog, 1, Path(7), 0);
    } else {
      Counts(prog);
    }
  }

  lemma FirstCheck()
    ensures FindNullCheck(Path(6), 0) == Some(0) && FindNullCheck(Path(7), 0) == Some(0)
  {
    hide FindNullCheck;
    NullFound(Path(1), NullCheckStart(0, 0));
    NullFound(Path(2), Void);
    NullFound(Path(2) + [Void], MemStart(1, 0));
    NullFound(Path(2) + [Void] + [MemStart(1, 0)], MemEnd(1, 0));
    NullFound(Path(6), StkAlt(25, 0));
  }

  lemma SecondCheck()
    ensures FindNullCheck(Path(15), 0) == Some(1)
  {
    hide FindNullCheck;
    NullFound(Path(8), NullCheckStart(0, 1));
    NullFound(Path(9), Void);
    NullFound(Path(13), MemStart(1, 1));
    NullFound(Path(14), MemEnd(1, 1));
  }

  lemma SecondRound(prog: Prog, i: nat)
    requires Coded(prog) && prog.rec && 10 <= i < 20
    ensures Step(prog, JustA(), Stage(i)) == Stage(i + 1)
  {
    if i == 17 { Pops(Path(15), StkAlt(25, 1)); }
    hide Coded, PopOne;
    if i == 10 {
      Opens(prog, 1, Path(8));
    } else if i <= 13 {
      Pushes(prog, 1, Path(i - 2));
    } else if i == 14 {
      Closes(prog, Path(9), 1);
    } else if i == 15 {
      Opens(prog, 1, Path(15));
    } else if i == 16 {
      Letters(prog, Path(16));
    } else if i == 18 {
      SecondCheck();
      Checks(prog, 1, Path(15), 1);
    } else if i == 19 {
      Letters(prog, Path(15));
    }
  }

  lemma WayBack(prog: Prog, i: nat)
    requires Coded(prog) && 20 <= i < LAST
    ensures Step(prog, JustA(), Stage(i)) == Stage(i + 1)
  {
    hide Coded, PopOne;
    if i == 20 {
      Pops(Path(14), MemEnd(1, 1));
    } else if i == 21 {
      Pops(Path(13), MemStart(1, 1));
    } else if i == 22 {
      Pops(Path(9), Void);
    } else if i == 23 {
      Pops(Path(8), NullCheckStart(0, 1));
    } else if i == 24 {
      Uncounts();
    } else if i == 25 {
      Pops(Path(6), StkAlt(25, 0));
    } else if i == 26 {
      FirstCheck();
      Checks(prog, 0, Path(6), 0);
    } else {
      Letters(prog, Path(6));
    }
  }

  lemma StageStep(prog: Prog, i: nat)
    requires Coded(prog) && prog.rec && i < LAST
    ensures Step(prog, JustA(), Stage(i)) == Stage(i + 1)
  {
    hide *;
    Twenty();
    if i < 10 { FirstRound(prog, i); } else if i < 20 { SecondRound(prog, i); } else { WayBack(prog, i); }
  }

  lemma Twenty()
    ensures LAST == 28
  {
  }

  // ----- the matcher beside it -----

  predicate NoBits(cfg: Cfg) { cfg.btMemStart == {} && cfg.btMemEnd == {} }

  predicate Writes(i: Instr) { i.OpMemoryStart? || i.OpMemoryEnd? }

  /** One instruction of the matcher, next to the noting machine: only the two capture instructions write. */
  lemma WriteRun(prog: Prog, cfg: Cfg, x: Subject, p: int, i: Instr, s: nat, path: Stack, c: Cells)
    requires !prog.rec && NoBits(cfg) && Fetch(prog, p) == Some(i) && (TouchesCells(i) ==> Writes(i))
    requires Entries(c.stk) == Strip(cfg, path) && MemBits(cfg, i)
    requires var st := Step(Noter(prog), x, Run(p, s, path)); st.Run? || st.Fail?
    ensures var st := Step(Noter(prog), x, Run(p, s, path));
            var now := StripState(cfg, Run(p, s, path));
            var c' := CellsStep(prog, x, now, c);
            && Step(prog, x, now) == StripState(cfg, st) && Entries(c'.stk) == Strip(cfg, StackOf(st))
            && c'.start == (if i.OpMemoryStart? then c.start[i.num := Position(s)] else c.start)
            && c'.end == (if i.OpMemoryEnd? then c.end[i.num := Position(s)] else c.end)
  {
    hide Step, Exec, Strip, Fetch, Entries, AfterInstr, TouchesCells, MemBits, Size, CellsStep, NoBits, NoGroup, Writes;
    var q := p + Size(i);
    SameFetch(prog, p);
    RunIs(Noter(prog), x, i, p, s, path, c);
    RunIs(prog, x, i, p, s, Strip(cfg, path), c);
    ExecStrip(cfg, prog, x, i, q, s, path);
    StripStack(cfg, Exec(Noter(prog), x, i, q, s, path));
    StripRun(cfg, p, s, path);
    WriteCells(cfg, i, q, s, path, c, Noter(prog), x);
  }

  lemma SameFetch(prog: Prog, p: int)
    ensures Fetch(Noter(prog), p) == Fetch(prog, p)
  {
  }

  lemma WriteCells(cfg: Cfg, i: Instr, q: int, s: nat, path: Stack, c: Cells, noter: Prog, x: Subject)
    requires NoBits(cfg) && (TouchesCells(i) ==> Writes(i)) && Entries(c.stk) == Strip(cfg, path) && noter.rec
    ensures var es := Strip(cfg, StackOf(Exec(noter, x, i, q, s, path)));
            var c' := AfterInstr(i, s, c, es);
            && Entries(c'.stk) == es
            && c'.start == (if i.OpMemoryStart? then c.start[i.num := Position(s)] else c.start)
            && c'.end == (if i.OpMemoryEnd? then c.end[i.num := Position(s)] else c.end)
  {
    hide Strip, Entries;
    if Writes(i) {
      StripPush(cfg, path, if i.OpMemoryStart? then MemStart(i.num, s) else MemEnd(i.num, s));
    } else {
      hide Exec;
    }
  }

  /** Backtracking writes nothing. */
  lemma WriteFail(prog: Prog, cfg: Cfg, x: Subject, path: Stack, c: Cells) returns (m: nat, c': Cells)
    requires NoBits(cfg) && Entries(c.stk) == Strip(cfg, path) && (PopOne(path).Run? || PopOne(path).Fail?)
    ensures Follows(prog, x, StripState(cfg, Fail(path)), c, m, StripState(cfg, PopOne(path)), c')
    ensures c'.start == c.start && c'.end == c.end && Entries(c'.stk) == Strip(cfg, StackOf(PopOne(path)))
  {
    var now := StripState(cfg, Fail(path));
    FollowsOne(prog, x, now, c);
    FollowsNone(prog, x, now, c);
    PopOneStrip(cfg, path);
    StripStack(cfg, PopOne(path));
    hide Follows, Strip, Entries;
    if Stays(cfg, path[|path| - 1]) {
      m, c' := 1, CellsStep(prog, x, now, c);
      PopHeight(Strip(cfg, path));
      TopPlain(cfg, path, c);
      UndoneOne(c, StackOf(PopOne(Strip(cfg, path))));
    } else {
      m, c' := 0, c;
    }
  }

  lemma PopHeight(stk: Stack)
    requires PopOne(stk).Run? || PopOne(stk).Fail?
    ensures |StackOf(PopOne(stk))| + 1 == |stk|
  {
  }

  lemma TopPlain(cfg: Cfg, path: Stack, c: Cells)
    requires NoBits(cfg) && path != [] && Stays(cfg, path[|path| - 1]) && Entries(c.stk) == Strip(cfg, path)
    ensures c.stk != [] && NoMem(c.stk[|c.stk| - 1].e)
  {
    assert Entries(c.stk)[|c.stk| - 1] == c.stk[|c.stk| - 1].e;
  }

  function StartAt(i: nat): map<nat, Ref> { if i < 4 then map[] else map[1 := Position(if i < 13 then 0 else 1)] }

  function EndAt(i: nat): map<nat, Ref> { if i < 5 then map[] else map[1 := Position(if i < 14 then 0 else 1)] }

  /** At stage i the cells hold what was written last. */
  ghost predicate Holds(u: bool, i: nat, c: Cells) {
    Entries(c.stk) == Strip(Bare(u), StackOf(Stage(i))) && c.start == StartAt(i) && c.end == EndAt(i)
  }

  lemma OneStage(prog: Prog, u: bool, i: nat, c: Cells) returns (m: nat, c': Cells)
    requires Coded(prog) && !prog.rec && i < LAST && Holds(u, i, c)
    ensures Holds(u, i + 1, c')
    ensures Follows(prog, JustA(), StripState(Bare(u), Stage(i)), c, m, StripState(Bare(u), Stage(i + 1)), c')
  {
    var cfg, x, st := Bare(u), JustA(), Stage(i);
    NoterCoded(prog);
    StageStep(Noter(prog), i);
    StageInstr(prog, u, i);
    hide Coded, Strip, Entries, Exec, Follows, Stage, StripState, StackOf, Path, MemBits, TouchesCells, Code, StartAt,
      EndAt;
    if st.Run? {
      var i' := Fetch(prog, st.p).value;
      WriteRun(prog, cfg, x, st.p, i', st.s, st.stk, c);
      var now := StripState(cfg, st);
      FollowsOne(prog, x, now, c);
      m, c' := 1, CellsStep(prog, x, now, c);
    } else {
      m, c' := WriteFail(prog, cfg, x, st.stk, c);
    }
  }

  lemma NoterCoded(prog: Prog)
    requires Coded(prog)
    ensures Coded(Noter(prog)) && Noter(prog).rec
  {
  }

  /** What stands at the address of a stage, and what it writes. */
  predicate Staged(u: bool, i: nat) {
    var st, s' := Stage(i), Stage(i + 1);
    && (st.Run? || st.Fail?) && (s'.Run? || s'.Fail?)
    && (st.Fail? ==> StartAt(i + 1) == StartAt(i) && EndAt(i + 1) == EndAt(i))
    && (st.Run? ==>
          && st.p >= 0 && Code(st.p).Some?
          && var f := Code(st.p).value;
             && MemBits(Bare(u), f) && (TouchesCells(f) ==> Writes(f))
             && StartAt(i + 1) == (if f.OpMemoryStart? then StartAt(i)[f.num := Position(st.s)] else StartAt(i))
             && EndAt(i + 1) == (if f.OpMemoryEnd? then EndAt(i)[f.num := Position(st.s)] else EndAt(i)))
  }

  lemma StagedFirst(u: bool, i: nat)
    requires i < 10
    ensures Staged(u, i)
  {
    hide Path;
  }

  lemma StagedSecond(u: bool, i: nat)
    requires 10 <= i < 20
    ensures Staged(u, i)
  {
    hide Path;
  }

  lemma StagedBack(u: bool, i: nat)
    requires 20 <= i < LAST
    ensures Staged(u, i)
  {
    hide Path;
  }

  lemma StageInstr(prog: Prog, u: bool, i: nat)
    requires Coded(prog) && i < LAST
    ensures NoBits(Bare(u)) && Staged(u, i) && (Stage(i).Run? ==> Stage(i).p >= 0)
    ensures Stage(i).Run? ==> Fetch(prog, Stage(i).p) == Code(Stage(i).p) && Code(Stage(i).p).Some?
  {
    if i < 10 { StagedFirst(u, i); } else if i < 20 { StagedSecond(u, i); } else { StagedBack(u, i); }
    hide Coded, Path, Stage, Code;
    if Stage(i).Run? { CodeAt(prog, Stage(i).p); }
  }

  // ----- the match -----

  lemma {:induction false} StagesTo(prog: Prog, u: bool, i: nat) returns (m: int, c: Cells)
    requires Coded(prog) && !prog.rec && i <= LAST
    ensures Holds(u, i, c) && Follows(prog, JustA(), StartState(0), CLEARED, m, StripState(Bare(u), Stage(i)), c)
    decreases i
  {
    hide Coded, Follows, StripState, Stage, Holds;
    if i == 0 {
      m, c := 0, CLEARED;
      Beginning(u);
      FollowsNone(prog, JustA(), StartState(0), CLEARED);
    } else {
      var m1, c1 := StagesTo(prog, u, i - 1);
      var m2, c2 := OneStage(prog, u, i - 1, c1);
      FollowsTrans(prog, JustA(), StartState(0), CLEARED, m1, StripState(Bare(u), Stage(i - 1)), c1, m2,
                   StripState(Bare(u), Stage(i)), c2);
      m, c := m1 + m2, c2;
    }
  }

  lemma Beginning(u: bool)
    ensures StripState(Bare(u), Stage(0)) == StartState(0) && Holds(u, 0, CLEARED)
  {
    assert [BOTTOM][..0] == [] && CLEARED.stk[..0] == [];
  }

  lemma {:induction false} NoterTo(prog: Prog, i: nat)
    requires Coded(prog) && prog.rec && i <= LAST
    ensures Steps(prog, JustA(), Stage(i), LAST - i) == Stage(LAST)
    decreases LAST - i
  {
    hide Coded, Stage, Step;
    if i < LAST {
      StageStep(prog, i);
      NoterTo(prog, i + 1);
    }
  }

  /** The machine arrives once. */
  lemma OneArrival(prog: Prog, m: nat, a: State, n: nat, b: State)
    requires Coded(prog) && Steps(prog, JustA(), StartState(0), m) == a && Steps(prog, JustA(), StartState(0), n) == b
    requires a.Run? && a.p == 33 && b.Run? && b.p == 33
    ensures a == b
  {
    CodeAt(prog, 33);
    hide Coded, Fetch, Steps;
    if m < n {
      Regions.Ended(prog, JustA(), StartState(0), 33, m, a, n, b);
    } else if n < m {
      Regions.Ended(prog, JustA(), StartState(0), 33, n, b, m, a);
    }
  }

  lemma LastStage(u: bool, c: Cells)
    requires Holds(u, LAST, c)
    ensures StripState(Bare(u), Stage(LAST)) == Run(33, 1, Entries(c.stk))
    ensures Get(c.start, 1) == Position(1) == Get(c.end, 1)
  {
    hide Path, Strip, Entries;
  }

  lemma LastNoted()
    ensures NotedIn(Path(6), 1) == Noted(Some(0), Some(0))
  {
    var a := Path(2) + [Void] + [MemStart(1, 0)];
    assert Path(6) == a + [MemEnd(1, 0)] && Path(6)[..|a|] == a && a[..|a| - 1] == Path(2) + [Void];
  }

  /** The region of the matcher. */
  lemma Copied(ml: bool, u: bool, region: Region)
    requires Formed(Done()) && |JustA().text| == 1 && Filled(Done(), ml, Bare(u), JustA(), 0, 1, region)
    ensures 1 in region && region[1] == (1, 1)
  {
    hide Ends, ProgramOf, CompileLength, Done, Formed, Coded, Follows, Holds, Stage, StripState, Strip, Bare;
    var prog, x, cfg := ProgramOf(Done(), ml, Bare(u)), JustA(), Bare(u);
    DoneCode(ml, u);
    BufferCode();
    DoneEnds(ml, u);
    var d: nat, c: Cells :| FilledBy(Done(), ml, cfg, x, 0, 1, region, d, c);
    var m, c' := StagesTo(prog, u, LAST);
    LastStage(u, c');
    FirstLanding(prog, x, 33, 1, c, m, c');
    RegionOne(u, c', region);
  }

  lemma FirstLanding(prog: Prog, x: Subject, q: int, e: nat, c: Cells, m: int, c': Cells)
    requires Lands(prog, x, q, 0, 0, e, c)
             && Follows(prog, x, StartState(0), CLEARED, m, Run(q, e, Entries(c'.stk)), c')
    requires Coded(prog) && q == 33
    ensures c == c'
  {
    hide Coded, Fetch, Follows, Entries;
    CodeAt(prog, 33);
    var was: State, cw: Cells, n: int :|
      Follows(prog, x, was, cw, n, Run(q, e, Entries(c.stk)), c) && Landed(prog, x, q, 0, 0, was, cw);
    SameArrival(prog, x, StartState(0), CLEARED, q, m, Run(q, e, Entries(c'.stk)), c', n, Run(q, e, Entries(c.stk)), c);
  }

  lemma RegionOne(u: bool, c: Cells, region: Region)
    requires RegionIs(Bare(u), c, 0, 1, region) && Get(c.start, 1) == Position(1) == Get(c.end, 1)
    ensures 1 in region && region[1] == (1, 1)
  {
    assert RegionAt(Bare(u), c, region, 1);
  }

  lemma NoterArrives(noter: Prog)
    requires Coded(noter) && noter.rec
    ensures Arrives(noter, JustA(), 33, 0, 0, 1, Path(6))
  {
    hide Coded, Stage, Steps, Path, JustA;
    NoterTo(noter, 0);
    StageEnds();
    assert Gets(noter, JustA(), 33, StartState(0), 1, Path(6));
    assert After(noter, JustA(), 33, 0, 0, StartState(0));
  }

  lemma ArrivalOnce(noter: Prog, path: Stack)
    requires Coded(noter) && noter.rec && Arrives(noter, JustA(), 33, 0, 0, 1, path)
    ensures path == Path(6)
  {
    hide Coded, Stage, Steps, Path, JustA;
    NoterTo(noter, 0);
    StageEnds();
    var was: State :| After(noter, JustA(), 33, 0, 0, was) && Gets(noter, JustA(), 33, was, 1, path);
    var n :| Steps(noter, JustA(), was, n) == Run(33, 1, path);
    OneArrival(noter, LAST, Run(33, 1, Path(6)), n, Run(33, 1, path));
  }

  /** The first arrival of the noting machine, and no other, has the group at 0. */
  lemma NotedFirst(ml: bool, u: bool, path: Stack)
    requires Formed(Done())
    ensures var noter := Noter(ProgramOf(Done(), ml, Bare(u)));
            Arrives(noter, JustA(), CompileLength(Done(), Bare(u)), 0, 0, 1, path) <==> path == Path(6)
  {
    hide *;
    var noter := Noter(ProgramOf(Done(), ml, Bare(u)));
    DoneCode(ml, u);
    BufferCode();
    NoterCoded(Prog(Buffer().code, Buffer().ranges));
    NoterArrives(noter);
    if Arrives(noter, JustA(), 33, 0, 0, 1, path) { ArrivalOnce(noter, path); }
  }

  lemma StageEnds()
    ensures Stage(0) == StartState(0) && Stage(LAST) == Run(33, 1, Path(6))
  {
  }

  lemma NotCaught(ml: bool, u: bool, path: Stack, region: Region)
    requires Formed(Done()) && NotedIn(path, 1) == Noted(Some(0), Some(0)) && 1 in region && region[1] == (1, 1)
    ensures !Captured(Done(), ml, JustA(), Bare(u), 0, 1, path, region)
  {
    hide Done, Formed, GroupSpan;
    var k: nat := 1;
    assert !CaptureOf(Done(), ml, JustA(), Bare(u), path, region, k);
  }

  lemma NotTraced(ml: bool, u: bool, region: Region)
    requires Formed(Done()) && |JustA().text| == 1 && 1 in region && region[1] == (1, 1)
    ensures !Matched(Done(), ml, Bare(u), JustA(), 0, 1, region)
  {
    hide Ends, ProgramOf, CompileLength, Done, Formed, Arrives, Path, Captured, NotedIn;
    DoneEnds(ml, u);
    LastNoted();
    forall d: nat, path: Stack ensures !MatchedBy(Done(), ml, Bare(u), JustA(), 0, 1, region, d, path) {
      NotedFirst(ml, u, path);
      if path == Path(6) { NotCaught(ml, u, path, region); }
    }
  }

  /** The round that is left has the group at 0, the region has it at 1, and the captures are not those of a match. */
  ghost predicate Stale(ml: bool, u: bool, best: Best, region: Region) {
    && Formed(Done()) && |JustA().text| == 1 && !NoneQuits(Done(), Bare(u))
    && best.len == 1 && 1 in region && region[1] == (1, 1)
    && !Matched(Done(), ml, Bare(u), JustA(), 0, 1, region)
    && forall path: Stack ::
         Arrives(Noter(ProgramOf(Done(), ml, Bare(u))), JustA(), CompileLength(Done(), Bare(u)), 0, 0, 1, path)
         ==> NotedIn(path, 1) == Noted(Some(0), Some(0))
  }

  lemma IsStale(ml: bool, u: bool, best: Best, region: Region)
    requires Formed(Done()) && |JustA().text| == 1
    requires best == Outcome(Ends(Done(), ml, JustA(), Bare(u), 0), 0, |JustA().text|, FIRST, Best(MISMATCH, MISMATCH))
    requires best.len != MISMATCH ==> Filled(Done(), ml, Bare(u), JustA(), 0, best.len, region)
    ensures Stale(ml, u, best, region)
  {
    hide Ends, ProgramOf, CompileLength, Done, Formed, Arrives, Path, Captured, NotedIn, Filled, Matched,
      NoneQuits, JustA,
      Noter;
    MayLeave(u);
    DoneEnds(ml, u);
    Copied(ml, u, region);
    NotTraced(ml, u, region);
    LastNoted();
    forall path: Stack |
      Arrives(Noter(ProgramOf(Done(), ml, Bare(u))), JustA(), CompileLength(Done(), Bare(u)), 0, 0, 1, path)
      ensures NotedIn(path, 1) == Noted(Some(0), Some(0))
    {
      NotedFirst(ml, u, path);
    }
  }

  /** With the bits that set-up asks for, (?:(?=())a?){3}a matches a and returns (1, 1) for its group: not the capture
      of the match. The repeat may leave early. */
  method StaleCapture(ml: bool, u: bool, base: nat) returns (best: Best, region: Region)
    ensures Parsed(Source()) && Numbered(Source()) && StartBits(Source(), false) <= Bare(u).btMemStart
    ensures SetupTree(Source(), false) == Done() && Stale(ml, u, best, region)
  {
    hide *;
    SourceIs();
    TextSize();
    ShortText();
    best, region := Regex.Match(Source(), ml, Bare(u), base, JustA(), 0, FIRST, MISMATCH);
    IsStale(ml, u, best, region);
  }

  lemma ShortText()
    ensures TextOk(JustA())
  {
  }
}
