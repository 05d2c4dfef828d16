/** A search that fails with ONIGERR_MEMORY: (?=a[\x80]|a[\x81]|...|a[\xb3]).*x, whose 52 alternatives make the
    byte map too heavy to win against a literal that has lost its length. */
module RefusedSearch {
  import opened Regint
  import opened Regparse
  import opened Regcomp
  import opened Machine
  import opened Setup
  import opened Meaning
  import opened Lengths
  import opened MatchAt
  import opened Optimize
  import opened LostLiterals
  import opened OptimizeSound
  import opened CompilerCorrect
  import opened DotStar
  import opened FixedRepeat
  import opened StarAnchor
  import S = Search
  import Regex

  const X: byte := 0x78
  const FIRST_BYTE: byte := 0x80
  const ALTERNATIVES: nat := 52

  function Class(b: byte): Node { CClass({b}, false, None, false) }

  /** a[b] */
  function Pair(b: byte): Node { List(Cons(Str([A]), Last(Class(b)))) }

  /** a[b]|...|a[b + n] */
  function Pairs(b: byte, n: nat): Nodes
    requires b + n < 256
    decreases n
  {
    if n == 0 then Last(Pair(b)) else Cons(Pair(b), Pairs(b + 1, n - 1))
  }

  function Ahead(): Node { Look(PrecRead, 0, Alt(Pairs(FIRST_BYTE, ALTERNATIVES - 1))) }

  function AheadStarX(star: Node): Node { List(Cons(Ahead(), Cons(star, Last(Str([X]))))) }

  function Ax(): Subject { Subject([A, FIRST_BYTE, X], 0, 0, false) }

  // ----- what set-up makes of it -----

  lemma {:induction false} PairsKept(b: byte, n: nat)
    requires b + n < 256
    ensures AllParsed(Pairs(b, n)) && AllUnmisled(Pairs(b, n)) && AllFormed(Pairs(b, n))
    ensures SetupAlt(Pairs(b, n), false) == Pairs(b, n)
    decreases n
  {
    PairKept(b);
    hide Pair;
    if n > 0 { PairsKept(b + 1, n - 1); }
  }

  lemma PairKept(b: byte)
    ensures Parsed(Pair(b)) && Unmisled(Pair(b)) && Formed(Pair(b)) && SetupTree(Pair(b), false) == Pair(b)
  {
    var a, c := Str([A]), Class(b);
    assert Parsed(c) && AllParsed(Last(c)) && Unmisled(c) && AllUnmisled(Last(c)) && Formed(c) && AllFormed(Last(c));
    assert SetupTree(a, false) == a && SetupTree(c, false) == c && SetupList(Last(c), false) == Last(c);
  }

  lemma AheadKept()
    ensures Parsed(Ahead()) && Unmisled(Ahead()) && Formed(Ahead()) && SetupTree(Ahead(), false) == Ahead()
  {
    var ns := Pairs(FIRST_BYTE, ALTERNATIVES - 1);
    PairsKept(FIRST_BYTE, ALTERNATIVES - 1);
    hide Pairs;
    assert SetupTree(Alt(ns), false) == Alt(ns) && Parsed(Alt(ns)) && Unmisled(Alt(ns)) && Formed(Alt(ns));
  }

  lemma SetupOfAhead()
    ensures Parsed(AheadStarX(RawStar())) && Unmisled(AheadStarX(RawStar()))
    ensures SetupTree(AheadStarX(RawStar()), false) == AheadStarX(StarTo(X))
  {
    var str, star := Str([X]), RawStar();
    AheadKept();
    SetupStar(X);
    hide Ahead;
    assert Ahead().Look? by { AheadLook(); }
    assert Parsed(str) && Unmisled(str) && AllParsed(Last(str)) && AllUnmisled(Last(str));
    assert AllParsed(Cons(star, Last(str))) && AllUnmisled(Cons(star, Last(str)));
    assert NextSetup(Ahead(), Star()) == Ahead();
    assert SetupTree(str, false) == str && SetupList(Last(str), false) == Last(str);
    assert SetupList(Cons(star, Last(str)), false) == Cons(StarTo(X), Last(str));
  }

  lemma AheadLook()
    ensures Ahead().Look?
  {
  }

  lemma SetupStar(b: byte)
    ensures Parsed(RawStar()) && Unmisled(RawStar()) && SetupTree(RawStar(), false) == Star()
    ensures NextSetup(Star(), Str([b])) == StarTo(b)
  {
    assert Head(Str([b]), true) == Some(Str([b])) && Head(AnyChar, false).None?;
  }

  // ----- what the analysis makes of it -----

  const AT_ONE := Mml(1, 1)

  /** The literal a and one of some bytes behind it. */
  function Found(bytes: set<byte>): Opt {
    Opt(Mml(2, 2), false, false, NO_EXACT, Exact(ZERO, false, [A], false), NO_EXACT, ByteMap(AT_ONE, bytes))
  }

  /** Up to the literals that are not there. */
  predicate Same(o: Opt, o': Opt) {
    && o.len == o'.len && !o.star && !o.starMl && o.exb.s == [] && o.exm == o'.exm && o.expr.s == []
    && o.byteMap == o'.byteMap
  }

  lemma PairInfo(b: byte, ml: bool)
    requires b >= 0x80
    ensures Same(OptNode(Pair(b), ZERO, ml), Found({b}))
  {
    MapValueOne(A, 256);
    MapValueOne(b, 256);
    hide MapValue;
    var a, c := OptNode(Str([A]), ZERO, ml), OptNode(Class(b), AT_ONE, ml);
    assert Fitting([A], 0) == [A];
    assert a == Bound(ZERO).(len := AT_ONE, exb := Exact(ZERO, true, [A], false), byteMap := ByteMap(ZERO, {A}));
    assert c == Bound(AT_ONE).(len := AT_ONE, byteMap := ByteMap(AT_ONE, {b}));
    assert AddMml(ZERO, AT_ONE) == AT_ONE;
    var one := ConcatLeft(Bound(ZERO), a);
    assert one.exm == Exact(ZERO, true, [A], false) && one.exb.s == [] && one.byteMap == ByteMap(ZERO, {A});
    LaterMap(b);
    assert OptList(Last(Class(b)), one, AT_ONE, ml) == ConcatLeft(one, c);
    assert OptList(Cons(Str([A]), Last(Class(b))), Bound(ZERO), ZERO, ml) == ConcatLeft(one, c);
  }

  /** A rare byte one place on beats a common one here. */
  lemma LaterMap(b: byte)
    requires b >= 0x80
    ensures SelectMap(ByteMap(ZERO, {A}), ByteMap(AT_ONE, {b})) == ByteMap(AT_ONE, {b})
  {
    MapValueOne(A, 256);
    MapValueOne(b, 256);
    hide MapValue;
    assert MapPositionValue(A) == 6 && MapPositionValue(b) == 4;
    assert DistanceValue(ZERO) == 1000 && DistanceValue(AT_ONE) == 1000;
    hide DistanceValue;
  }

  predicate Within(c: byte, b: byte, n: nat) { b <= c <= b + n }

  function From(b: byte, n: nat): set<byte> { set c: byte | Within(c, b, n) }

  lemma {:induction false} PairsInfo(b: byte, n: nat, a: Opt, bytes: set<byte>, ml: bool)
    requires b + n < 256 && b >= 0x80 && bytes != {} && Same(a, Found(bytes))
    ensures Same(OptAltFrom(Pairs(b, n), a, ZERO, ml), Found(bytes + From(b, n)))
    decreases n
  {
    hide Pair, OptNode;
    hide AltMerge;
    PairInfo(b, ml);
    var o := AltMerge(a, OptNode(Pair(b), ZERO, ml));
    MergeFound(a, OptNode(Pair(b), ZERO, ml), bytes, b);
    if n == 0 {
      assert From(b, 0) == {b};
    } else {
      PairsInfo(b + 1, n - 1, o, bytes + {b}, ml);
      assert bytes + {b} + From(b + 1, n - 1) == bytes + From(b, n);
    }
  }

  lemma MergeFound(a: Opt, c: Opt, bytes: set<byte>, b: byte)
    requires bytes != {} && Same(a, Found(bytes)) && Same(c, Found({b}))
    ensures Same(AltMerge(a, c), Found(bytes + {b}))
  {
    assert CommonPrefix([A], [A]) == [A] + CommonPrefix([], []);
  }

  function AllBytes(): set<byte> { From(FIRST_BYTE, ALTERNATIVES - 1) }

  lemma PairsStep(b: byte, n: nat)
    requires n > 0 && b + n < 256
    ensures Pairs(b, n) == Cons(Pair(b), Pairs(b + 1, n - 1))
  {
  }

  lemma FromStep(b: byte, n: nat)
    requires n > 0 && b + n < 256
    ensures From(b, n) == {b} + From(b + 1, n - 1)
  {
  }

  lemma AltIs(n: Node, rest: Nodes, ml: bool)
    ensures OptNode(Alt(Cons(n, rest)), ZERO, ml) == OptAltFrom(rest, OptNode(n, ZERO, ml), ZERO, ml)
  {
    assert OptAlt(Cons(n, rest), ZERO, ml) == OptAltFrom(rest, OptNode(n, ZERO, ml), ZERO, ml);
  }

  lemma AlternativesInfo(ml: bool)
    ensures Same(OptNode(Alt(Pairs(FIRST_BYTE, ALTERNATIVES - 1)), ZERO, ml), Found(AllBytes()))
  {
    hide Pair, Pairs, OptNode, From, Same;
    var b, n := FIRST_BYTE, ALTERNATIVES - 1;
    PairInfo(b, ml);
    PairsInfo(b + 1, n - 1, OptNode(Pair(b), ZERO, ml), {b}, ml);
    PairsStep(b, n);
    FromStep(b, n);
    AltIs(Pair(b), Pairs(b + 1, n - 1), ml);
  }

  /** Every one of the bytes weighs 4. */
  lemma {:induction false} WeightFrom(b: byte, k: nat, n: nat)
    requires b >= 0x80 && b + k < 256 && n <= 256
    ensures MapValue(From(b, k), n) == if n <= b then 0 else if n <= b + k then 4 * (n - b) else 4 * (k + 1)
  {
    if n > 0 { WeightFrom(b, k, n - 1); }
  }

  const LOST := Exact(ZERO, false, [A], true)

  /** The three items in turn: the literal a is asked for, loses its length to .*, and stays the better one. */
  lemma LiteralLost(ml: bool)
    ensures var o := OptNode(AheadStarX(StarTo(X)), ZERO, ml);
            && o.exb == LOST && o.exm == Exact(NEAR, true, [X], false)
            && o.byteMap == ByteMap(AT_ONE, AllBytes())
  {
    var l := AheadInfo(ml);
    var star, str := OptNode(StarTo(X), ZERO, ml), OptNode(Str([X]), NEAR, ml);
    StarInfo(ml);
    assert Fitting([X], 0) == [X];
    assert str == Bound(NEAR).(len := AT_ONE, exb := Exact(NEAR, true, [X], false), byteMap := ByteMap(NEAR, {X}));
    MapsKept();
    hide OptNode, SelectMap;
    var one := ConcatLeft(Bound(ZERO), l);
    assert one.expr == Exact(ZERO, false, [A], false) && one.byteMap == ByteMap(AT_ONE, AllBytes());
    assert one.exb.s == [] && !one.exb.reachEnd && one.exm.s == [] && !one.exm.reachEnd && one.len == ZERO;
    var two := ConcatLeft(one, star);
    assert two.exb == LOST && two.expr == LOST && two.byteMap == one.byteMap;
    assert two.exm.s == [] && !two.exm.reachEnd;
    var three := ConcatLeft(two, str);
    assert three.exb == LOST && three.exm == Exact(NEAR, true, [X], false) && three.byteMap == one.byteMap;
    Items(l, star, str, ml);
  }

  lemma AheadInfo(ml: bool) returns (l: Opt)
    ensures l == OptNode(Ahead(), ZERO, ml) && l.len == ZERO && l.expr == Exact(ZERO, false, [A], false)
    ensures l.exb.s == [] && l.exm.s == [] && l.byteMap == ByteMap(AT_ONE, AllBytes())
  {
    AlternativesInfo(ml);
    hide Pairs;
    l := OptNode(Ahead(), ZERO, ml);
    assert FIRST_BYTE in AllBytes();
  }

  lemma StarInfo(ml: bool)
    ensures var o := OptNode(StarTo(X), ZERO, ml);
            o.len == NEAR && o.exb.s == [] && o.exm.s == [] && o.expr.s == [] && o.byteMap.bytes == {}
  {
    assert QuantLen(AT_ONE, StarTo(X).q) == NEAR;
  }

  lemma MapsKept()
    ensures forall m: Mml :: SelectMap(ByteMap(m, {}), ByteMap(AT_ONE, AllBytes())) == ByteMap(AT_ONE, AllBytes())
    ensures forall m: Mml :: SelectMap(ByteMap(AT_ONE, AllBytes()), ByteMap(m, {})) == ByteMap(AT_ONE, AllBytes())
    ensures SelectMap(ByteMap(AT_ONE, AllBytes()), ByteMap(NEAR, {X})) == ByteMap(AT_ONE, AllBytes())
    ensures MapValue(AllBytes(), 256) == 208
  {
    WeightFrom(FIRST_BYTE, ALTERNATIVES - 1, 256);
    MapValueOne(X, 256);
    hide MapValue;
    assert FIRST_BYTE in AllBytes();
    assert MapPositionValue(X) == 6 && DistanceValue(AT_ONE) == 1000 && DistanceValue(NEAR) == 0;
    hide DistanceValue;
  }

  lemma Items(l: Opt, star: Opt, str: Opt, ml: bool)
    requires l == OptNode(Ahead(), ZERO, ml) && star == OptNode(StarTo(X), ZERO, ml)
    requires str == OptNode(Str([X]), NEAR, ml) && l.len == ZERO && star.len == NEAR
    ensures OptNode(AheadStarX(StarTo(X)), ZERO, ml) == ConcatLeft(ConcatLeft(ConcatLeft(Bound(ZERO), l), star), str)
  {
    hide ConcatLeft, OptLook, OptQuant, Ahead;
    assert AddMml(ZERO, ZERO) == ZERO && AddMml(ZERO, NEAR) == NEAR;
    var last := Last(Str([X]));
    var rest := Cons(StarTo(X), last);
    var a := ConcatLeft(Bound(ZERO), l);
    assert OptList(last, ConcatLeft(a, star), NEAR, ml) == ConcatLeft(ConcatLeft(a, star), str);
    assert OptList(rest, a, ZERO, ml) == OptList(last, ConcatLeft(a, star), NEAR, ml);
    assert OptList(Cons(Ahead(), rest), Bound(ZERO), ZERO, ml) == OptList(rest, a, ZERO, ml);
  }

  lemma AheadRefuses(ml: bool)
    ensures Refuses(OptNode(AheadStarX(StarTo(X)), ZERO, ml))
  {
    LiteralLost(ml);
    MapsKept();
    hide OptNode, MapValue, AllBytes;
    assert MapPositionValue(A) == 6 && MapPositionValue(X) == 6;
    assert DistanceValue(ZERO) == 1000 && DistanceValue(NEAR) == 0;
    hide DistanceValue;
  }

  // ----- what it matches -----

  /** a and \x80 */
  lemma PairHits(ml: bool, cfg: Cfg)
    ensures Formed(Pair(FIRST_BYTE)) && Ends(Pair(FIRST_BYTE), ml, Ax(), cfg, 0) != []
  {
    var x, a, rest := Ax(), Str([A]), Last(Class(FIRST_BYTE));
    HasByte(x, 0, A);
    CharEnds(Class(FIRST_BYTE), ml, x, cfg, 1);
    assert AllFormed(rest) && Ends(a, ml, x, cfg, 0) == [1];
    TwoItems(a, rest, ml, x, cfg, 0);
    assert EndsList(rest, ml, x, cfg, 1) == [2];
    hide Ends, EndsList;
    AllFrom(rest, ml, x, cfg, [1], 1, 2);
  }

  lemma AheadEnds(ml: bool, cfg: Cfg)
    ensures Formed(Ahead()) && Ends(Ahead(), ml, Ax(), cfg, 0) == [0]
  {
    hide Pair, Pairs;
    var b, n := FIRST_BYTE, ALTERNATIVES - 1;
    AheadKept();
    PairHits(ml, cfg);
    PairsKept(b, n);
    PairsStep(b, n);
    var ns := Pairs(b, n);
    hide Ax;
    assert Formed(Alt(ns)) && Ends(Alt(ns), ml, Ax(), cfg, 0) == EndsAlt(ns, ml, Ax(), cfg, 0);
    assert EndsAlt(ns, ml, Ax(), cfg, 0) != [];
  }

  lemma RawItems(b: byte, ml: bool, x: Subject, cfg: Cfg, s: nat)
    requires s <= |x.text|
    ensures AllFormed(Cons(RawStar(), Last(Str([b]))))
    ensures Formed(Raw(b)) && Ends(Raw(b), ml, x, cfg, s) == EndsList(Cons(RawStar(), Last(Str([b]))), ml, x, cfg, s)
  {
    RawFormed(b);
  }

  lemma AheadHits(ml: bool, cfg: Cfg)
    ensures TextOk(Ax()) && Formed(AheadStarX(RawStar())) && S.HitAt(AheadStarX(RawStar()), ml, Ax(), cfg, PLAIN, 0)
  {
    var x, rest := Ax(), Cons(RawStar(), Last(Str([X])));
    assert DotReaches(ml, x, 0, 2) && x.text[2] == X;
    hide Ends, EndsList, Formed, Ahead;
    AheadEnds(ml, cfg);
    RawItems(X, ml, x, cfg, 0);
    ItemIs(Raw(X), X);
    GoalHas(Raw(X), ml, x, cfg, 0, 2);
    TwoItems(Ahead(), rest, ml, x, cfg, 0);
    AllFrom(rest, ml, x, cfg, [0], 0, 3);
  }

  /** The expression matches a\x80x from its start, and the search fails for want of memory. */
  method RefusesMatch(ml: bool, cfg: Cfg, base: nat) returns (r: int)
    ensures var n := AheadStarX(RawStar());
            Parsed(n) && Unmisled(n) && Formed(n) && S.HitAt(n, ml, Ax(), cfg, PLAIN, 0)
    ensures r == Regex.ONIGERR_MEMORY
  {
    hide *;
    AheadHits(ml, cfg);
    SetupOfAhead();
    AheadRefuses(ml);
    Plain();
    r := Regex.Search(AheadStarX(RawStar()), ml, cfg, base, Ax(), 0, PLAIN);
  }
}
