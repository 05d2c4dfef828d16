/** Where the anchor that optimize_node_left keeps for a leading .* is wrong: behind a look-around, and
    behind the alternatives of an atomic group. */
module StarAnchor {
  import opened Regint
  import opened Regparse
  import opened Regcomp
  import opened Machine
  import opened Setup
  import opened Meaning
  import opened Lengths
  import opened CompilerCorrect
  import opened MatchAt
  import opened Optimize
  import opened LostLiterals
  import opened OptimizeSound
  import opened DotStar
  import S = Search
  import opened FixedRepeat
  import Regex

  function StarRep(): Rep { Rep(0, REPEAT_INFINITE, true, IsNotEmpty, None, None, false, false, false) }

  /** .* */
  function Star(): Node { Quant(AnyChar, StarRep()) }

  /** l.* */
  function Behind(l: Node): Node { List(Cons(l, Last(Star()))) }

  /** The anchor is right: a match is also found from every start the dot reaches it from. */
  ghost predicate AnchorHolds(n: Node, ml: bool)
    requires Formed(n)
  {
    forall x: Subject, cfg: Cfg :: S.GoesBack(n, ml, x, cfg, PLAIN, ml)
  }

  /** Where l holds, it also holds at every start the dot reaches the place from. */
  ghost predicate HoldsBack(l: Node, ml: bool)
    requires Formed(l)
  {
    forall x: Subject, cfg: Cfg, s: nat, t: nat ::
      t <= |x.text| && DotReaches(ml, x, s, t) && Holds(l, ml, x, cfg, t) ==>
      Holds(l, ml, x, cfg, s)
  }

  predicate Holds(l: Node, ml: bool, x: Subject, cfg: Cfg, s: nat)
    requires Formed(l) && s <= |x.text|
  {
    Ends(l, ml, x, cfg, s) != []
  }

  // ----- a look-around in front -----

  /** The anchor is kept across a look-around. */
  lemma BehindFlag(k: LookKind, len: nat, b: Node, ml: bool)
    requires Formed(b)
    ensures Formed(Behind(Look(k, len, b))) && Flag(OptNode(Behind(Look(k, len, b)), ZERO, ml), ml)
  {
    hide SelectExact, SelectMap, Cut, Formed;
    var l := Look(k, len, b);
    var ns := Cons(l, Last(Star()));
    var a, c := OptNode(l, ZERO, ml), OptNode(Star(), ZERO, ml);
    assert a.len == ZERO && AddMml(ZERO, a.len) == ZERO;
    assert Flag(c, ml);
    assert OptList(Last(Star()), ConcatLeft(Bound(ZERO), a), ZERO, ml) == ConcatLeft(ConcatLeft(Bound(ZERO), a), c);
    assert OptNode(Behind(l), ZERO, ml) == OptList(ns, Bound(ZERO), ZERO, ml);
    assert Formed(Behind(l)) by {
      LookFormed(k, len, b);
      BehindFormed(l);
    }
  }

  lemma LookFormed(k: LookKind, len: nat, b: Node)
    requires Formed(b)
    ensures Formed(Look(k, len, b))
  {
  }

  lemma BehindFormed(l: Node)
    requires Formed(l)
    ensures Formed(Star()) && Formed(Behind(l))
  {
    assert AllFormed(Last(Star()));
  }

  /** l.* matches exactly where l holds. */
  lemma BehindHit(l: Node, ml: bool, x: Subject, cfg: Cfg, s: nat)
    requires Formed(l) && s <= |x.text|
    ensures Formed(Behind(l)) && (S.HitAt(Behind(l), ml, x, cfg, PLAIN, s) <==> Holds(l, ml, x, cfg, s))
  {
    BehindFormed(l);
    var rest := Last(Star());
    var es := Ends(l, ml, x, cfg, s);
    assert Ends(Behind(l), ml, x, cfg, s) == EndsListAll(rest, ml, x, cfg, es);
    hide Ends, EndsList;
    if es != [] {
      DotUnfold(StarRep(), ml, x, cfg, 0, es[0]);
      assert es[0] in EndsList(rest, ml, x, cfg, es[0]) by { StarEnds(ml, x, cfg, es[0]); }
      AllFrom(rest, ml, x, cfg, es, es[0], es[0]);
    }
  }

  lemma StarEnds(ml: bool, x: Subject, cfg: Cfg, s: nat)
    requires s <= |x.text|
    ensures EndsList(Last(Star()), ml, x, cfg, s) == EndsRep(AnyChar, StarRep(), ml, x, cfg, 0, s)
  {
    hide EndsRep;
  }

  /** The anchor is right exactly when what stands in front of .* holds backwards along the line. */
  lemma AnchorExactly(l: Node, ml: bool)
    requires Formed(l)
    ensures Formed(Behind(l)) && (AnchorHolds(Behind(l), ml) <==> HoldsBack(l, ml))
  {
    BehindFormed(l);
    hide Formed, S.HitAt, Holds, DotReaches;
    forall x: Subject, cfg: Cfg, s: nat | s <= |x.text|
      ensures S.HitAt(Behind(l), ml, x, cfg, PLAIN, s) <==> Holds(l, ml, x, cfg, s)
    {
      BehindHit(l, ml, x, cfg, s);
    }
    if AnchorHolds(Behind(l), ml) {
      forall x: Subject, cfg: Cfg, s: nat, t: nat
        | t <= |x.text| && DotReaches(ml, x, s, t) && Holds(l, ml, x, cfg, t)
        ensures Holds(l, ml, x, cfg, s)
      {
        ReachOrder(ml, x);
        assert S.GoesBack(Behind(l), ml, x, cfg, PLAIN, ml);
      }
    } else {
      var x: Subject, cfg: Cfg :| !S.GoesBack(Behind(l), ml, x, cfg, PLAIN, ml);
      ReachOrder(ml, x);
    }
  }

  lemma ReachOrder(dotAll: bool, x: Subject)
    ensures forall s: nat, t: nat :: DotReaches(dotAll, x, s, t) ==> s <= t
  {
  }

  // ----- a literal in the look-around -----

  /** Two places on a line, with the look-around true at the second only. */
  lemma LiteralFails(k: LookKind, len: nat, str: seq<byte>, ml: bool, cfg: Cfg)
    returns (x: Subject, s: nat, t: nat)
    requires Parsed(Look(k, len, Str(str))) && !Harmless(k, str, ml)
    ensures t <= |x.text| && DotReaches(ml, x, s, t)
    ensures var l := Look(k, len, Str(str)); !Holds(l, ml, x, cfg, s) && Holds(l, ml, x, cfg, t)
  {
    var last := str[|str| - 1];
    match k
    case PrecRead =>
      x := Subject([Other(str[0])] + str, 0, 0, false);
      s, t := 0, 1;
      assert x.text[0] != str[0] && x.text[1..1 + |str|] == str;
      assert !HasAt(x, 0, str) && HasAt(x, 1, str);
      assert Ends(Str(str), ml, x, cfg, 0) == [];
    case PrecReadNot =>
      x := Subject(str, 0, 0, false);
      s, t := 0, 1;
      assert x.text[0..|str|] == str;
      assert HasAt(x, 0, str) && !HasAt(x, 1, str);
      assert Ends(Str(str), ml, x, cfg, 0) == [|str|];
    case LookBehind =>
      x := Subject(str, 0, 0, false);
      s, t := |str| - 1, |str|;
      assert x.text[0..|str|] == str;
      assert HasAt(x, 0, str);
    case LookBehindNot =>
      x := Subject(str + [Other(last)], 0, 0, false);
      s, t := |str|, |str| + 1;
      assert x.text[0..|str|] == str && x.text[1..1 + |str|][|str| - 1] == Other(last);
      assert HasAt(x, 0, str) && !HasAt(x, 1, str);
      assert Ends(Str(str), ml, x, cfg, 0) == [|str|];
  }

  function Other(b: byte): (r: byte)
    ensures r != b && r != NEWLINE
  {
    if b == 0 then 1 else 0
  }

  /** For a literal in a look-around the anchor is right exactly when the look-around is harmless, and that
      is exactly when the analysis is trusted with it. */
  lemma LiteralExactly(k: LookKind, len: nat, str: seq<byte>, ml: bool)
    requires Parsed(Look(k, len, Str(str)))
    ensures var n := Behind(Look(k, len, Str(str)));
            && Formed(n) && Flag(OptNode(n, ZERO, ml), ml)
            && (AnchorHolds(n, ml) <==> Harmless(k, str, ml))
            && (Anchored(n, ml) <==> Harmless(k, str, ml))
  {
    var l := Look(k, len, Str(str));
    BehindFlag(k, len, Str(str), ml);
    AnchorExactly(l, ml);
    LookAnchored(k, len, Str(str), ml);
    if Harmless(k, str, ml) {
      LiteralHoldsBack(k, len, str, ml);
    } else {
      var cfg := Cfg({}, {}, true);
      var x, s, t := LiteralFails(k, len, str, ml, cfg);
    }
  }

  lemma LiteralHoldsBack(k: LookKind, len: nat, str: seq<byte>, ml: bool)
    requires Parsed(Look(k, len, Str(str))) && Harmless(k, str, ml)
    ensures HoldsBack(Look(k, len, Str(str)), ml)
  {
    var l := Look(k, len, Str(str));
    assert Formed(l) && Ready(l) && Recedes(l, ml, ml);
    forall x: Subject, cfg: Cfg, s: nat, t: nat | t <= |x.text| && DotReaches(ml, x, s, t) && Holds(l, ml, x, cfg, t)
      ensures Holds(l, ml, x, cfg, s)
    {
      LiteralHere(k, len, str, ml, x, cfg, t);
      HarmlessBack(l, ml, ml, x, cfg, s, t);
    }
  }

  lemma LiteralHere(k: LookKind, len: nat, str: seq<byte>, ml: bool, x: Subject, cfg: Cfg, t: nat)
    requires Parsed(Look(k, len, Str(str))) && t <= |x.text| && Holds(Look(k, len, Str(str)), ml, x, cfg, t)
    ensures t in Ends(Look(k, len, Str(str)), ml, x, cfg, t)
  {
  }

  /** Whether the analysis is trusted is a matter of what stands in front. */
  lemma LookAnchored(k: LookKind, len: nat, b: Node, ml: bool)
    requires Flag(OptNode(Behind(Look(k, len, b)), ZERO, ml), ml)
    ensures Anchored(Behind(Look(k, len, b)), ml) <==> Recedes(Look(k, len, b), ml, ml)
  {
    var l := Look(k, len, b);
    var n := Behind(l);
    OnlyFlag(l, ml);
    var o := OptNode(l, ZERO, ml);
    assert !o.star && !o.starMl && o.len == ZERO && AddMml(ZERO, o.len) == ZERO;
    assert Flag(OptNode(Star(), ZERO, ml), ml);
    hide OptNode, Recedes;
    assert Honest(Star(), ZERO, ml, ml) && HonestList(Last(Star()), ZERO, ml, ml);
    assert HonestList(Cons(l, Last(Star())), ZERO, ml, ml) == (Sure(l) || Recedes(l, ml, ml));
    assert Honest(n, ZERO, ml, ml) == HonestList(Cons(l, Last(Star())), ZERO, ml, ml);
  }

  /** .* sets one of the two flags. */
  lemma OnlyFlag(l: Node, ml: bool)
    requires l.Look?
    ensures !Flag(OptNode(Behind(l), ZERO, ml), !ml) && Flag(OptNode(Star(), ZERO, ml), ml)
  {
    hide SelectExact, SelectMap, Cut;
    var a, c := OptNode(l, ZERO, ml), OptNode(Star(), ZERO, ml);
    assert a.len == ZERO && AddMml(ZERO, a.len) == ZERO && !a.star && !a.starMl;
    assert OptList(Last(Star()), ConcatLeft(Bound(ZERO), a), ZERO, ml) == ConcatLeft(ConcatLeft(Bound(ZERO), a), c);
  }

  // ----- one character in the look-around -----

  /** How far the look-around looks: back by one, or ahead. */
  function CharLen(k: LookKind): nat { if k.LookBehind? || k.LookBehindNot? then 1 else 0 }

  /** The same for any node of one character: a class, a type or the dot. */
  lemma CharExactly(k: LookKind, b: Node, ml: bool)
    requires OneChar(b)
    ensures var n := Behind(Look(k, CharLen(k), b));
            && Parsed(Look(k, CharLen(k), b)) && Formed(n) && Flag(OptNode(n, ZERO, ml), ml)
            && (AnchorHolds(n, ml) <==> HarmlessChar(k, b, ml, ml))
            && (Anchored(n, ml) <==> HarmlessChar(k, b, ml, ml))
  {
    hide HarmlessChar, Anchored, Recedes, OptNode, Holds, DotReaches;
    var l := Look(k, CharLen(k), b);
    CharRecedes(k, b, ml);
    BehindFlag(k, CharLen(k), b, ml);
    AnchorExactly(l, ml);
    LookAnchored(k, CharLen(k), b, ml);
    if HarmlessChar(k, b, ml, ml) {
      CharHoldsBack(k, b, ml);
    } else {
      var cfg := Cfg({}, {}, true);
      var x, s, t := CharFails(k, b, ml, cfg);
    }
  }

  lemma CharRecedes(k: LookKind, b: Node, ml: bool)
    requires OneChar(b)
    ensures var l := Look(k, CharLen(k), b);
            Parsed(l) && Formed(b) && Formed(l) && (Recedes(l, ml, ml) <==> HarmlessChar(k, b, ml, ml))
  {
    hide HarmlessChar;
  }

  lemma CharHoldsBack(k: LookKind, b: Node, ml: bool)
    requires OneChar(b) && HarmlessChar(k, b, ml, ml)
    ensures HoldsBack(Look(k, CharLen(k), b), ml)
  {
    var l := Look(k, CharLen(k), b);
    CharRecedes(k, b, ml);
    forall x: Subject, cfg: Cfg, s: nat, t: nat | t <= |x.text| && DotReaches(ml, x, s, t) && Holds(l, ml, x, cfg, t)
      ensures Holds(l, ml, x, cfg, s)
    {
      CharLook(k, CharLen(k), b, ml, x, cfg, t);
      hide Ends, Formed, HarmlessChar, DotReaches;
      ReachOrder(ml, x);
      CharBack(l, ml, ml, x, cfg, s, t);
    }
  }

  /** Two places on a line, with the look-around true at the second only. */
  lemma CharFails(k: LookKind, b: Node, ml: bool, cfg: Cfg) returns (x: Subject, s: nat, t: nat)
    requires OneChar(b) && !HarmlessChar(k, b, ml, ml)
    ensures t <= |x.text| && DotReaches(ml, x, s, t) && Formed(Look(k, CharLen(k), b))
    ensures var l := Look(k, CharLen(k), b); !Holds(l, ml, x, cfg, s) && Holds(l, ml, x, cfg, t)
  {
    hide Ends, Takes;
    if k.PrecRead? || k.LookBehindNot? {
      var taken: byte :| Takes(b, ml, taken);
      var spared: byte :| DotStar.Passed(spared, ml) && !Takes(b, ml, spared);
      x := Subject(if k.PrecRead? then [spared, taken] else [taken, spared], 0, 0, false);
      s, t := if k.PrecRead? then 0 else 1, if k.PrecRead? then 1 else 2;
    } else {
      var taken: byte :| DotStar.Passed(taken, ml) && Takes(b, ml, taken);
      x := Subject([taken], 0, 0, false);
      s, t := 0, 1;
    }
    CharLook(k, CharLen(k), b, ml, x, cfg, s);
    CharLook(k, CharLen(k), b, ml, x, cfg, t);
  }

  // ----- matches the search misses -----

  const NEAR := Mml(0, INFINITE_DISTANCE)

  function RawStar(): Node { Quant(AnyChar, StarRep().(raw := true)) }

  function StarTo(b: byte): Node { Quant(AnyChar, StarRep().(nextHead := Some([b]))) }

  function StarThen(q: Rep, b: byte): Node { List(Cons(Quant(AnyChar, q), Last(Str([b])))) }

  // (?!a).*b on ab

  function NotA(): Node { Look(PrecReadNot, 0, Str([A])) }

  /** (?!a).*b */
  function NotAStarB(star: Node): Node { List(Cons(NotA(), Cons(star, Last(Str([B]))))) }

  function Ab(): Subject { Subject([A, B], 0, 0, false) }

  lemma SetupOfNotA()
    ensures Parsed(NotAStarB(RawStar())) && Unmisled(NotAStarB(RawStar()))
    ensures SetupTree(NotAStarB(RawStar()), false) == NotAStarB(StarTo(B))
  {
    NotAParsed();
    hide Parsed, Unmisled;
    var b, star := Str([B]), RawStar();
    assert SetupTree(star, false) == Star() && SetupTree(NotA(), false) == NotA() && SetupTree(b, false) == b;
    assert Head(b, true) == Some(b) && Head(AnyChar, false).None?;
    assert NextSetup(Star(), b) == StarTo(B) && NextSetup(NotA(), Star()) == NotA();
    assert SetupList(Last(b), false) == Last(b);
    assert SetupList(Cons(star, Last(b)), false) == Cons(StarTo(B), Last(b));
  }

  lemma NotAParsed()
    ensures Parsed(NotAStarB(RawStar())) && Unmisled(NotAStarB(RawStar()))
  {
    var b, star := Str([B]), RawStar();
    assert Parsed(star) && Parsed(b) && Parsed(NotA()) && AllParsed(Last(b)) && AllParsed(Cons(star, Last(b)));
    assert Unmisled(star) && Unmisled(b) && Unmisled(NotA()) && AllUnmisled(Last(b))
           && AllUnmisled(Cons(star, Last(b)));
  }

  lemma NotAHits(cfg: Cfg)
    ensures TextOk(Ab()) && Formed(NotAStarB(RawStar())) && S.HitAt(NotAStarB(RawStar()), false, Ab(), cfg, PLAIN, 1)
    ensures Formed(NotAStarB(StarTo(B))) && !S.HitAt(NotAStarB(StarTo(B)), false, Ab(), cfg, PLAIN, 0)
    ensures Clear(Ab(), 0, |Ab().text|) && 0 < |Ab().text|
  {
    var x, b := Ab(), Last(Str([B]));
    NotAEnds(x, cfg);
    RawFormed(B);
    GoalHas(Raw(B), false, x, cfg, 1, 1);
    assert Ends(Raw(B), false, x, cfg, 1) == EndsList(Cons(RawStar(), b), false, x, cfg, 1);
    TwoItems(NotA(), Cons(RawStar(), b), false, x, cfg, 1);
    assert Formed(StarTo(B)) && AllFormed(b) && AllFormed(Cons(StarTo(B), b));
    NothingBehind(NotA(), Cons(StarTo(B), b), false, x, cfg, 0);
    hide Ends, EndsList, Formed, NotA;
    AllFrom(Cons(RawStar(), b), false, x, cfg, [1], 1, 2);
  }

  lemma NotAEnds(x: Subject, cfg: Cfg)
    requires x == Ab()
    ensures Formed(NotA()) && Ends(NotA(), false, x, cfg, 0) == [] && Ends(NotA(), false, x, cfg, 1) == [1]
    ensures HasAt(x, 1, [B])
  {
    assert x.text[0..1] == [A] && x.text[1..2] == [B];
    assert HasAt(x, 0, [A]) && !HasAt(x, 1, [A]);
    assert Ends(Str([A]), false, x, cfg, 0) == [1] && Ends(Str([A]), false, x, cfg, 1) == [];
  }

  lemma InfoOfNotA()
    ensures var info := InfoOf(NotAStarB(StarTo(B)), false);
            && info.how == SearchExact([B]) && info.dmax == INFINITE_DISTANCE && info.star && !info.starMl
  {
    MapValueOne(B, 256);
    hide MapValue;
    var l, star, b := OptNode(NotA(), ZERO, false), OptNode(StarTo(B), ZERO, false), OptNode(Str([B]), NEAR, false);
    assert l == Bound(ZERO);
    assert star == Bound(ZERO).(len := NEAR, star := true);
    assert Fitting([B], 0) == [B];
    assert b == Bound(NEAR).(len := Mml(1, 1), exb := Exact(NEAR, true, [B], false), byteMap := ByteMap(NEAR, {B}));
    var one := ConcatLeft(Bound(ZERO), l);
    assert one == Bound(ZERO);
    var two := ConcatLeft(one, star);
    assert two == Bound(ZERO).(len := NEAR, star := true);
    var three := ConcatLeft(two, b);
    assert three.star && !three.starMl && three.exb.s == [] && three.exm == Exact(NEAR, true, [B], false);
    assert three.byteMap == ByteMap(NEAR, {B});
    assert OptNode(NotAStarB(StarTo(B)), ZERO, false) == three by { ThreeItems(l, star, b); }
    hide OptNode, ConcatLeft;
    assert CompExactOrMap(three.exm, three.byteMap) <= 0;
  }

  lemma ThreeItems(l: Opt, star: Opt, b: Opt)
    requires l == OptNode(NotA(), ZERO, false) && star == OptNode(StarTo(B), ZERO, false)
    requires b == OptNode(Str([B]), NEAR, false) && l.len == ZERO && star.len == NEAR
    ensures OptNode(NotAStarB(StarTo(B)), ZERO, false) == ConcatLeft(ConcatLeft(ConcatLeft(Bound(ZERO), l), star), b)
  {
    hide ConcatLeft, OptLook, OptQuant;
    assert AddMml(ZERO, ZERO) == ZERO && AddMml(ZERO, NEAR) == NEAR;
    var last := Last(Str([B]));
    var rest := Cons(StarTo(B), last);
    var a := ConcatLeft(Bound(ZERO), l);
    assert OptList(last, ConcatLeft(a, star), NEAR, false) == ConcatLeft(ConcatLeft(a, star), b);
    assert OptList(rest, a, ZERO, false) == OptList(last, ConcatLeft(a, star), NEAR, false);
    assert OptList(Cons(NotA(), rest), Bound(ZERO), ZERO, false) == OptList(rest, a, ZERO, false);
    assert OptNode(NotAStarB(StarTo(B)), ZERO, false) == OptList(Cons(NotA(), rest), Bound(ZERO), ZERO, false);
  }

  /** (?!a).*b matches ab from 1, and the search finds nothing. */
  method MissesLook(cfg: Cfg, base: nat) returns (r: int)
    ensures var n := NotAStarB(RawStar());
            Parsed(n) && Unmisled(n) && Formed(n) && S.HitAt(n, false, Ab(), cfg, PLAIN, 1)
    ensures r == MISMATCH
  {
    hide *;
    NotAHits(cfg);
    SetupOfNotA();
    InfoOfNotA();
    Plain();
    Skimming(NotAStarB(StarTo(B)), Ab(), cfg);
    r := Regex.Search(NotAStarB(RawStar()), false, cfg, base, Ab(), 0, PLAIN);
    NotRefused(NotAStarB(StarTo(B)), Ab(), cfg, r);
  }

  lemma Plain()
    ensures !PLAIN.findLongest
  {
  }

  lemma Skimming(t: Node, x: Subject, cfg: Cfg)
    requires Formed(t) && Clear(x, 0, |x.text|) && !S.HitAt(t, false, x, cfg, PLAIN, 0)
    requires var info := InfoOf(t, false);
             info.dmax == INFINITE_DISTANCE && info.star && !info.starMl && info.how != SearchNone
    ensures S.Skims(t, false, x, cfg, PLAIN, InfoOf(t, false), 0)
  {
    hide InfoOf, Formed, S.HitAt, Clear;
  }

  lemma NotRefused(t: Node, x: Subject, cfg: Cfg, r: int)
    requires Formed(t) && S.Skims(t, false, x, cfg, PLAIN, InfoOf(t, false), 0)
    requires r == Regex.ONIGERR_MEMORY <==> Refuses(OptNode(t, ZERO, false))
    requires InfoOf(t, false).how != SearchRefused
    requires r != Regex.ONIGERR_MEMORY ==> S.FirstTried(t, false, x, cfg, PLAIN, InfoOf(t, false), 0, r)
    ensures r == MISMATCH
  {
    hide OptNode, Formed, S.Skims, S.FirstTried, S.HitAt;
    RefusedExactly(t, false);
    S.SkimsMisses(t, false, x, cfg, PLAIN, InfoOf(t, false), 0, r);
  }

  // (?>.*a|.*b)c

  function Or(a: Node, b: Node): Node { Atomic(false, Alt(Cons(a, Last(b)))) }

  /** (?>...|...)c */
  function OrThen(a: Node, b: Node, c: byte): Node { List(Cons(Or(a, b), Last(Str([c])))) }

  function Raw(b: byte): Node { StarThen(RawStar().q, b) }

  function Peeking(b: byte): Node { StarThen(StarTo(b).q, b) }

  function RawChoice(a: byte, b: byte, c: byte): Node { OrThen(Raw(a), Raw(b), c) }

  function SetChoice(a: byte, b: byte, c: byte): Node { OrThen(Peeking(a), Peeking(b), c) }

  lemma RawFormed(b: byte)
    ensures Formed(Raw(b)) && Formed(Peeking(b))
  {
    assert Formed(RawStar()) && Formed(StarTo(b)) && AllFormed(Last(Str([b])));
  }

  lemma SetupOfItem(b: byte)
    ensures Parsed(Raw(b)) && Unmisled(Raw(b)) && SetupTree(Raw(b), false) == Peeking(b)
  {
    var str, star := Str([b]), RawStar();
    assert SetupTree(star, false) == Star() && SetupTree(str, false) == str;
    assert Head(str, true) == Some(str) && Head(AnyChar, false).None?;
    assert NextSetup(Star(), str) == StarTo(b);
    assert SetupList(Last(str), false) == Last(str);
    assert Parsed(star) && Parsed(str) && AllParsed(Last(str));
    assert Unmisled(star) && Unmisled(str) && AllUnmisled(Last(str));
  }

  lemma SetupOfChoice(a: byte, b: byte, c: byte)
    ensures Parsed(RawChoice(a, b, c)) && Unmisled(RawChoice(a, b, c))
    ensures SetupTree(RawChoice(a, b, c), false) == SetChoice(a, b, c)
  {
    SetupOfItem(a);
    SetupOfItem(b);
    hide Parsed, Unmisled, Raw, Peeking;
    SetupOfOr(Raw(a), Raw(b), Peeking(a), Peeking(b), c);
  }

  lemma SetupOfOr(a: Node, b: Node, a': Node, b': Node, c: byte)
    requires Parsed(a) && Parsed(b) && Unmisled(a) && Unmisled(b)
    requires SetupTree(a, false) == a' && SetupTree(b, false) == b'
    ensures var n := OrThen(a, b, c); Parsed(n) && Unmisled(n) && SetupTree(n, false) == OrThen(a', b', c)
  {
    var str, alt := Str([c]), Alt(Cons(a, Last(b)));
    assert AllParsed(Last(b)) && AllUnmisled(Last(b));
    assert Parsed(alt) && Unmisled(alt) && !alt.Quant?;
    NoEmptyLoop(alt);
    assert Parsed(Or(a, b)) && Unmisled(Or(a, b));
    assert SetupAlt(Last(b), false) == Last(b') && SetupTree(alt, false) == Alt(Cons(a', Last(b')));
    assert SetupTree(Or(a, b), false) == Or(a', b');
    assert SetupList(Last(str), false) == Last(str) && AllParsed(Last(str)) && AllUnmisled(Last(str));
  }

  lemma NoEmptyLoop(n: Node)
    requires !n.Quant?
    ensures !EmptyLoop(n)
  {
  }

  /** .*b, before set-up or after it. */
  predicate Item(n: Node, b: byte) { n == Raw(b) || n == Peeking(b) }

  lemma ItemIs(n: Node, b: byte)
    requires Item(n, b)
    ensures Formed(n) && DotTo(n) && Goal(n) == b
  {
    RawFormed(b);
  }

  lemma OrFormed(na: Node, nb: Node, a: byte, b: byte, c: byte)
    requires Item(na, a) && Item(nb, b)
    ensures Formed(Or(na, nb)) && Choice(Or(na, nb)) && Goals(Or(na, nb)) == (a, b)
    ensures Formed(Str([c])) && AllFormed(Last(Str([c]))) && Formed(OrThen(na, nb, c))
  {
    ItemIs(na, a);
    ItemIs(nb, b);
    hide DotTo, Item;
    assert AllFormed(Last(nb)) && Formed(Alt(Cons(na, Last(nb))));
    assert Formed(Or(na, nb));
    hide Or;
    assert AllFormed(Last(Str([c])));
  }

  /** The whole tree goes on from the one result of the group. */
  lemma ThenEnds(na: Node, nb: Node, a: byte, b: byte, c: byte, ml: bool, x: Subject, cfg: Cfg, s: nat)
    requires Item(na, a) && Item(nb, b) && s <= |x.text|
    ensures Formed(Or(na, nb)) && Formed(OrThen(na, nb, c)) && AllFormed(Last(Str([c])))
    ensures Ends(OrThen(na, nb, c), ml, x, cfg, s) ==
            EndsListAll(Last(Str([c])), ml, x, cfg, Ends(Or(na, nb), ml, x, cfg, s))
  {
    OrFormed(na, nb, a, b, c);
    hide Or, Item;
    TwoItems(Or(na, nb), Last(Str([c])), ml, x, cfg, s);
  }

  lemma OneThen(c: byte, ml: bool, x: Subject, cfg: Cfg, m: nat)
    requires m <= |x.text|
    ensures EndsListAll(Last(Str([c])), ml, x, cfg, [m]) == One(m < |x.text| && x.text[m] == c, m + 1)
  {
    var rest := Last(Str([c]));
    HasByte(x, m, c);
    assert [m][1..] == [] && EndsListAll(rest, ml, x, cfg, []) == [];
    assert EndsList(rest, ml, x, cfg, m) == Ends(Str([c]), ml, x, cfg, m);
    assert EndsListAll(rest, ml, x, cfg, [m]) == EndsList(rest, ml, x, cfg, m) + [];
  }

  /** A byte other than those given, and no newline. */
  function Else(a: byte, b: byte, c: byte): (r: byte)
    ensures r != a && r != b && r != c && r != NEWLINE
  {
    if 0 !in {a, b, c} then 0 else if 1 !in {a, b, c} then 1 else if 2 !in {a, b, c} then 2 else 3
  }

  /** a, something else, b, c: from the start a is taken and c does not follow, from the next place b is. */
  function Afbc(a: byte, b: byte, c: byte): Subject { Subject([a, Else(a, b, c), b, c], 0, 0, false) }

  /** From the start the group stops behind a. */
  lemma TakesA(na: Node, nb: Node, a: byte, b: byte, c: byte, ml: bool, cfg: Cfg)
    requires Item(na, a) && Item(nb, b) && !Settled(a, b, c, ml)
    ensures Formed(Or(na, nb)) && Ends(Or(na, nb), ml, Afbc(a, b, c), cfg, 0) == [1]
  {
    hide Ends, Formed, DotTo, Goal;
    var x := Afbc(a, b, c);
    ItemIs(na, a);
    OrFormed(na, nb, a, b, c);
    GoalHas(na, ml, x, cfg, 0, 0);
    var ea := Ends(na, ml, x, cfg, 0);
    GoalOnly(na, ml, x, cfg, 0, ea[0]);
    assert DotReaches(ml, x, 0, 3) ==> x.text[2] != NEWLINE || ml;
    ChoiceEnds(Or(na, nb), ml, x, cfg, 0);
  }

  /** From the next place it stops behind b. */
  lemma TakesB(na: Node, nb: Node, a: byte, b: byte, c: byte, ml: bool, cfg: Cfg)
    requires Item(na, a) && Item(nb, b) && !Settled(a, b, c, ml)
    ensures Formed(Or(na, nb)) && Ends(Or(na, nb), ml, Afbc(a, b, c), cfg, 1) == [3]
  {
    hide Ends, Formed, DotTo, Goal;
    var x := Afbc(a, b, c);
    ItemIs(na, a);
    ItemIs(nb, b);
    OrFormed(na, nb, a, b, c);
    GoalHas(nb, ml, x, cfg, 1, 2);
    var ea, eb := Ends(na, ml, x, cfg, 1), Ends(nb, ml, x, cfg, 1);
    assert DotReaches(ml, x, 1, 3) ==> x.text[2] != NEWLINE || ml;
    if ea != [] { GoalOnly(na, ml, x, cfg, 1, ea[0]); }
    GoalOnly(nb, ml, x, cfg, 1, eb[0]);
    ChoiceEnds(Or(na, nb), ml, x, cfg, 1);
  }

  /** So the tree matches from the second place only. */
  lemma ChoiceFails(na: Node, nb: Node, a: byte, b: byte, c: byte, ml: bool, cfg: Cfg)
    requires Item(na, a) && Item(nb, b) && !Settled(a, b, c, ml)
    ensures var n, x := OrThen(na, nb, c), Afbc(a, b, c);
            && Formed(n) && DotReaches(ml, x, 0, 1)
            && Ends(n, ml, x, cfg, 0) == [] && Ends(n, ml, x, cfg, 1) == [4]
  {
    var x := Afbc(a, b, c);
    TakesA(na, nb, a, b, c, ml, cfg);
    TakesB(na, nb, a, b, c, ml, cfg);
    ThenEnds(na, nb, a, b, c, ml, x, cfg, 0);
    ThenEnds(na, nb, a, b, c, ml, x, cfg, 1);
    OneThen(c, ml, x, cfg, 1);
    OneThen(c, ml, x, cfg, 3);
    hide Ends, EndsList, EndsListAll, Formed, Item;
    assert x.text[1] != c && x.text[3] == c;
  }

  lemma ChoiceBack(na: Node, nb: Node, a: byte, b: byte, c: byte, ml: bool, x: Subject, cfg: Cfg, s: nat, t: nat)
    requires Item(na, a) && Item(nb, b) && Settled(a, b, c, ml) && t <= |x.text| && DotReaches(ml, x, s, t)
    requires Formed(OrThen(na, nb, c)) && Ends(OrThen(na, nb, c), ml, x, cfg, t) != []
    ensures Ends(OrThen(na, nb, c), ml, x, cfg, s) != []
  {
    OrFormed(na, nb, a, b, c);
    ThenEnds(na, nb, a, b, c, ml, x, cfg, s);
    ThenEnds(na, nb, a, b, c, ml, x, cfg, t);
    hide Ends, EndsList, EndsListAll, Formed, Item, Choice, Settled;
    var e := Ends(OrThen(na, nb, c), ml, x, cfg, t)[0];
    SettledBack(Or(na, nb), Last(Str([c])), ml, x, cfg, s, t, e);
  }

  /** Either mode's flag is set if it is the mode's own. */
  lemma ChoiceFlag(a: byte, b: byte, c: byte, ml: bool)
    ensures var n := SetChoice(a, b, c);
            Flag(OptNode(n, ZERO, ml), ml) && !Flag(OptNode(n, ZERO, ml), !ml)
            && Flag(OptNode(Or(Peeking(a), Peeking(b)), ZERO, ml), ml)
  {
    var oa := ItemInfo(a, ml);
    var ob := ItemInfo(b, ml);
    OrInfo(a, b, oa, ob, ml);
    var o := AltMerge(oa, ob);
    assert o.len == PAST;
    hide OptNode, AltMerge;
    var last := OptNode(Str([c]), PAST, ml);
    ChoiceInfo(a, b, c, o, last, ml);
    hide SelectExact, SelectMap, Cut, ConcatExact;
  }

  lemma ChoiceAnchored(a: byte, b: byte, c: byte, ml: bool)
    ensures Anchored(SetChoice(a, b, c), ml) <==> Settled(a, b, c, ml)
  {
    hide OptNode, Settled, Steady, Choice, Peeking;
    var n, o := SetChoice(a, b, c), Or(Peeking(a), Peeking(b));
    ChoiceFlag(a, b, c, ml);
    OrFormed(Peeking(a), Peeking(b), a, b, c);
    assert Honest(o, ZERO, ml, ml) <==> Steady(a, b, ml);
    assert Honest(n, ZERO, ml, ml) == HonestList(n.items, ZERO, ml, ml);
    assert HonestList(n.items, ZERO, ml, ml) <==> Steady(a, b, ml) || SettledChoice(o, Str([c]), ml);
    SteadySettled(a, b, c, ml);
    assert Settled(a, b, c, ml) <==> Steady(a, b, ml) || SettledChoice(o, Str([c]), ml);
  }

  lemma SteadySettled(a: byte, b: byte, c: byte, ml: bool)
    ensures Steady(a, b, ml) ==> Settled(a, b, c, ml)
  {
  }

  /** For (?>.*a|.*b)c the anchor is right exactly when the choice is settled: a and b are the same, or the dot
      never runs over an a, or c is one of the two and the dot could have run on to it. That is exactly when
      the analysis is trusted with it. */
  lemma ChoiceExactly(a: byte, b: byte, c: byte, ml: bool)
    ensures var n := SetChoice(a, b, c);
            && SetupTree(RawChoice(a, b, c), false) == n && Formed(n) && Flag(OptNode(n, ZERO, ml), ml)
            && (AnchorHolds(n, ml) <==> Settled(a, b, c, ml))
            && (Anchored(n, ml) <==> Settled(a, b, c, ml))
  {
    var n, x, cfg := SetChoice(a, b, c), Afbc(a, b, c), Cfg({}, {}, true);
    SetupOfChoice(a, b, c);
    ChoiceFlag(a, b, c, ml);
    ChoiceAnchored(a, b, c, ml);
    assert Item(Peeking(a), a) && Item(Peeking(b), b);
    OrFormed(Peeking(a), Peeking(b), a, b, c);
    if Settled(a, b, c, ml) {
      ChoiceHolds(a, b, c, ml);
    } else {
      ChoiceFails(Peeking(a), Peeking(b), a, b, c, ml, cfg);
      hide *;
      NotBack(n, ml, x, cfg, 0, 1);
    }
  }

  lemma ChoiceHolds(a: byte, b: byte, c: byte, ml: bool)
    requires Settled(a, b, c, ml)
    ensures Formed(SetChoice(a, b, c)) && AnchorHolds(SetChoice(a, b, c), ml)
  {
    var n := SetChoice(a, b, c);
    assert Item(Peeking(a), a) && Item(Peeking(b), b);
    OrFormed(Peeking(a), Peeking(b), a, b, c);
    hide Ends, Formed, Item, Settled, Peeking, DotReaches;
    forall x: Subject, cfg: Cfg, s: nat, t: nat
      | t <= |x.text| && DotReaches(ml, x, s, t) && S.HitAt(n, ml, x, cfg, PLAIN, t)
      ensures s <= t && S.HitAt(n, ml, x, cfg, PLAIN, s)
    {
      ReachOrder(ml, x);
      PlainHit(n, ml, x, cfg, s);
      PlainHit(n, ml, x, cfg, t);
      hide S.HitAt;
      ChoiceBack(Peeking(a), Peeking(b), a, b, c, ml, x, cfg, s, t);
    }
  }

  lemma PlainHit(n: Node, ml: bool, x: Subject, cfg: Cfg, s: nat)
    requires Formed(n) && s <= |x.text|
    ensures S.HitAt(n, ml, x, cfg, PLAIN, s) <==> Ends(n, ml, x, cfg, s) != []
  {
    hide Ends, Formed;
    var es := Ends(n, ml, x, cfg, s);
    if es != [] { assert es[0] in es; }
  }

  lemma NotBack(n: Node, ml: bool, x: Subject, cfg: Cfg, s: nat, t: nat)
    requires Formed(n) && s <= t <= |x.text| && DotReaches(ml, x, s, t)
    requires Ends(n, ml, x, cfg, s) == [] && Ends(n, ml, x, cfg, t) == [4]
    ensures !AnchorHolds(n, ml)
  {
    hide Formed, Ends, DotReaches;
    PlainHit(n, ml, x, cfg, s);
    PlainHit(n, ml, x, cfg, t);
    hide S.HitAt;
    assert !S.GoesBack(n, ml, x, cfg, PLAIN, ml);
  }

  // (?>.*a|.*b)c on a, 0, b, c

  function Abc(): Subject { Afbc(A, B, C) }

  lemma ChoiceHits(cfg: Cfg)
    ensures var x, n, t := Abc(), RawChoice(A, B, C), SetChoice(A, B, C);
            && TextOk(x) && Formed(n) && S.HitAt(n, false, x, cfg, PLAIN, 1)
            && Formed(t) && !S.HitAt(t, false, x, cfg, PLAIN, 0)
            && Clear(x, 0, |x.text|) && 0 < |x.text|
  {
    hide *;
    Small(Abc());
    AreChoices();
    ChoiceFails(Raw(A), Raw(B), A, B, C, false, cfg);
    ChoiceFails(Peeking(A), Peeking(B), A, B, C, false, cfg);
    PlainHit(RawChoice(A, B, C), false, Abc(), cfg, 1);
    PlainHit(SetChoice(A, B, C), false, Abc(), cfg, 0);
  }

  lemma Small(x: Subject)
    requires x == Abc()
    ensures TextOk(x) && Clear(x, 0, |x.text|) && 1 < |x.text|
  {
  }

  lemma AreChoices()
    ensures RawChoice(A, B, C) == OrThen(Raw(A), Raw(B), C) && SetChoice(A, B, C) == OrThen(Peeking(A), Peeking(B), C)
    ensures Abc() == Afbc(A, B, C) && !Settled(A, B, C, false)
    ensures Item(Raw(A), A) && Item(Raw(B), B) && Item(Peeking(A), A) && Item(Peeking(B), B)
  {
  }

  /** (?>.*a|.*b)c matches a text of a, another byte, b and c from its second place, and the search finds
      nothing. */
  method MissesChoice(cfg: Cfg, base: nat) returns (r: int)
    ensures var n := RawChoice(A, B, C);
            Parsed(n) && Unmisled(n) && Formed(n) && S.HitAt(n, false, Abc(), cfg, PLAIN, 1)
    ensures r == MISMATCH
  {
    hide *;
    ChoiceHits(cfg);
    SetupOfChoice(A, B, C);
    InfoOfChoice();
    Plain();
    Skimming(SetChoice(A, B, C), Abc(), cfg);
    r := Regex.Search(RawChoice(A, B, C), false, cfg, base, Abc(), 0, PLAIN);
    NotRefused(SetChoice(A, B, C), Abc(), cfg, r);
  }

  lemma {:induction false} MapValueTwo(a: byte, b: byte, n: nat)
    requires n <= 256 && a != b
    ensures MapValue({a, b}, n) == MapValue({a}, n) + MapValue({b}, n)
  {
    if n > 0 { MapValueTwo(a, b, n - 1); }
  }

  /** What the analysis finds in .*b */
  lemma ItemInfo(b: byte, ml: bool) returns (o: Opt)
    ensures o == OptNode(Peeking(b), ZERO, ml)
    ensures o.len == Mml(1, INFINITE_DISTANCE) && o.star == !ml && o.starMl == ml && o.exb.s == [] && Len(o.exb) == 0
            && !o.exb.reachEnd
    ensures o.exm == Exact(NEAR, true, [b], false) && o.expr.s == [] && Len(o.expr) == 0
            && o.byteMap == ByteMap(NEAR, {b})
  {
    hide MapValue;
    var star, str := OptNode(StarTo(b), ZERO, ml), OptNode(Str([b]), NEAR, ml);
    assert QuantLen(Mml(1, 1), StarTo(b).q) == NEAR;
    assert star == OptQuant(AnyChar, StarTo(b).q, OptNode(AnyChar, ZERO, ml), ZERO, ml);
    assert star == Bound(ZERO).(len := NEAR, star := !ml, starMl := ml);
    assert Fitting([b], 0) == [b];
    assert str == Bound(NEAR).(len := Mml(1, 1), exb := Exact(NEAR, true, [b], false), byteMap := ByteMap(NEAR, {b}));
    var one := ConcatLeft(Bound(ZERO), star);
    assert one == Bound(ZERO).(len := NEAR, star := !ml, starMl := ml);
    o := ConcatLeft(one, str);
    assert AddMml(ZERO, NEAR) == NEAR;
    hide ConcatLeft;
    var ns := Cons(StarTo(b), Last(Str([b])));
    assert OptList(Last(Str([b])), one, NEAR, ml) == o;
    assert OptList(ns, Bound(ZERO), ZERO, ml) == o;
  }

  /** The two alternatives have the flag and the bytes a and b in common, and no literal. */
  lemma OrInfo(a: byte, b: byte, oa: Opt, ob: Opt, ml: bool)
    requires oa == OptNode(Peeking(a), ZERO, ml) && ob == OptNode(Peeking(b), ZERO, ml)
    ensures OptNode(Or(Peeking(a), Peeking(b)), ZERO, ml) == AltMerge(oa, ob)
  {
    hide Peeking, AltMerge;
    var alts := Cons(Peeking(a), Last(Peeking(b)));
    assert OptAltFrom(Last(Peeking(b)), oa, ZERO, ml) == AltMerge(oa, ob);
    assert OptAlt(alts, ZERO, ml) == OptAltFrom(Last(Peeking(b)), oa, ZERO, ml);
    assert OptNode(Alt(alts), ZERO, ml) == OptAlt(alts, ZERO, ml);
  }

  const PAST := Mml(1, INFINITE_DISTANCE)

  lemma ChoiceInfo(a: byte, b: byte, c: byte, o: Opt, last: Opt, ml: bool)
    requires o == OptNode(Or(Peeking(a), Peeking(b)), ZERO, ml) && o.len == PAST
             && last == OptNode(Str([c]), PAST, ml)
    ensures OptNode(SetChoice(a, b, c), ZERO, ml) == ConcatLeft(ConcatLeft(Bound(ZERO), o), last)
  {
    hide Or, ConcatLeft;
    var n := Or(Peeking(a), Peeking(b));
    var rest := Last(Str([c]));
    assert AddMml(ZERO, PAST) == PAST;
    assert OptList(rest, ConcatLeft(Bound(ZERO), o), PAST, ml) == ConcatLeft(ConcatLeft(Bound(ZERO), o), last);
    assert OptList(Cons(n, rest), Bound(ZERO), ZERO, ml) == OptList(rest, ConcatLeft(Bound(ZERO), o), PAST, ml);
  }

  lemma MapWeights()
    ensures SelectMap(ByteMap(NEAR, {A, B}), ByteMap(PAST, {C})) == ByteMap(NEAR, {A, B})
    ensures SelectMap(ByteMap(ZERO, {}), ByteMap(NEAR, {A, B})) == ByteMap(NEAR, {A, B})
    ensures CompExactOrMap(Exact(PAST, true, [C], false), ByteMap(NEAR, {A, B})) > 0
  {
    MapValueOne(A, 256);
    MapValueOne(B, 256);
    MapValueOne(C, 256);
    MapValueTwo(A, B, 256);
    hide MapValue;
    assert MapPositionValue(A) == 6 && MapPositionValue(B) == 6 && MapPositionValue(C) == 6;
    assert DistanceValue(NEAR) == 0 && DistanceValue(PAST) == 0;
    hide DistanceValue;
  }

  lemma InfoOfChoice()
    ensures var info := InfoOf(SetChoice(A, B, C), false);
            && info.how == SearchMap({A, B}) && info.dmax == INFINITE_DISTANCE && info.star && !info.starMl
  {
    hide MapValue, OptNode, SelectMap, CompExactOrMap;
    var oa := ItemInfo(A, false);
    var ob := ItemInfo(B, false);
    OrInfo(A, B, oa, ob, false);
    var o := AltMerge(oa, ob);
    assert o.len == PAST && o.star && !o.starMl && o.exb == NO_EXACT && o.exm == Exact(NEAR, false, [], false);
    assert o.byteMap == ByteMap(NEAR, {A, B}) && o.expr == NO_EXACT;
    var c := LastInfo();
    ChoiceInfo(A, B, C, o, c, false);
    MapWeights();
    var one := ConcatLeft(Bound(ZERO), o);
    assert one.star && !one.starMl && one.len == PAST && one.exb.s == [] && one.exm.s == [] && one.expr.s == [];
    assert one.byteMap == ByteMap(NEAR, {A, B}) && !one.exb.reachEnd && !one.exm.reachEnd && Len(one.expr) == 0;
    var all := ConcatLeft(one, c);
    assert all.star && !all.starMl && all.exb.s == [] && all.exm == Exact(PAST, true, [C], false);
    assert all.byteMap == ByteMap(NEAR, {A, B});
  }

  lemma LastInfo() returns (c: Opt)
    ensures c == OptNode(Str([C]), PAST, false)
    ensures c == Bound(PAST).(len := Mml(1, 1), exb := Exact(PAST, true, [C], false), byteMap := ByteMap(PAST, {C}))
  {
    assert Fitting([C], 0) == [C];
    c := OptNode(Str([C]), PAST, false);
  }
}
