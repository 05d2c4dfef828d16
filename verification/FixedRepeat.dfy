/** The one repeat optimize_node_left gets wrong: X{n,n} with n >= 2 whose literal, copied n - 1 times, still
    fits and is taken to reach the end of the repeat. */
module FixedRepeat {
  import opened Regint
  import opened Regparse
  import opened Regcomp
  import opened Machine
  import opened Setup
  import opened Meaning
  import opened Lengths
  import opened LengthSound
  import opened CompilerCorrect
  import opened MatchAt
  import opened Optimize
  import opened LostLiterals
  import opened OptimizeSound
  import opened DotStar
  import opened SetupCorrect
  import S = Search
  import Regex

  // ----- exactly which repeats -----

  /** An alternation whose literal is all of it begins with one that has the same literal. */
  lemma {:induction false} AltReaches(ns: Nodes, a: Opt, env: Mml, ml: bool)
    requires Reaches(OptAltFrom(ns, a, env, ml).exb)
    ensures Reaches(a.exb) && a.exb.s == OptAltFrom(ns, a, env, ml).exb.s
  {
    hide OptNode;
    var b := AltMerge(a, OptNode(ns.left, env, ml));
    if ns.Cons? { AltReaches(ns.right, b, env, ml); }
  }

  lemma QuantReaches(t: Node, q: Rep, b: Opt, env: Mml, ml: bool)
    requires Reaches(OptQuant(t, q, b, env, ml).exb) && !Overreaches(b.exb, q)
    ensures q.lower == q.upper == 1 && Reaches(b.exb) && OptQuant(t, q, b, env, ml).exb.s == b.exb.s
  {
  }

  lemma AltHas(ns: Nodes, ml: bool, x: Subject, cfg: Cfg, s: nat, e: nat)
    requires AllFormed(ns) && s <= |x.text| && e in Ends(ns.left, ml, x, cfg, s)
    ensures e in EndsAlt(ns, ml, x, cfg, s)
  {
    hide Ends;
  }

  /** Where the literal of such a node stands, the node matches it. */
  lemma {:induction false} ReachMatches(n: Node, env: Mml, ml: bool, x: Subject, cfg: Cfg, s: nat)
    requires Formed(n) && Ready(n) && Searchable(n) && s <= |x.text| <= INT_MAX && env.min == 0
    requires Reaches(OptNode(n, env, ml).exb) && HasAt(x, s, OptNode(n, env, ml).exb.s)
    ensures s + |OptNode(n, env, ml).exb.s| in Ends(n, ml, x, cfg, s)
    decreases n
  {
    hide OptQuant, OptAltFrom, OptList, EndsRep, EndsSimple, EndsList, EndsAlt, Overreaches, RepOk, RepReady, SimpleOk,
      BehindOk, MinLen, IsSimple;
    match n
    case Str(_) =>
    case List(ns) => ListNotReaching(ns, Bound(env), env, ml);
    case Alt(ns) =>
      if ns.Cons? { AltReaches(ns.right, OptNode(ns.left, env, ml), env, ml); }
      ReachMatches(ns.left, env, ml, x, cfg, s);
      AltHas(ns, ml, x, cfg, s, s + |OptNode(ns.left, env, ml).exb.s|);
    case Quant(t, q) =>
      OverreachesSame(t, q, env, ml);
      QuantReaches(t, q, OptNode(t, env, ml), env, ml);
      ReachMatches(t, env, ml, x, cfg, s);
      OnceMatches(t, q, ml, x, cfg, s, s + |OptNode(t, env, ml).exb.s|);
    case Group(_, b) => ReachMatches(b, env, ml, x, cfg, s);
    case OptionNode(ml', b) => ReachMatches(b, env, ml', x, cfg, s);
    case Atomic(simple, b) =>
      if simple {
        LoopNotReaching(b, env, ml);
      } else {
        ReachMatches(b, env, ml, x, cfg, s);
        FirstReach(b, env, ml, x, cfg, s);
      }
    case _ =>
  }

  lemma LoopNotReaching(b: Node, env: Mml, ml: bool)
    requires b.Quant? && Infinite(b.q.upper)
    ensures !Reaches(OptNode(b, env, ml).exb)
  {
    hide RepeatExact;
  }

  /** Every match of such a node is its literal. */
  lemma AllReach(n: Node, env: Mml, ml: bool, x: Subject, cfg: Cfg, s: nat, e: nat)
    requires Formed(n) && Ready(n) && Searchable(n) && s <= |x.text| <= INT_MAX && env.min == 0
    requires Reaches(OptNode(n, env, ml).exb) && e in Ends(n, ml, x, cfg, s)
    ensures e == s + |OptNode(n, env, ml).exb.s|
  {
    hide OptNode, Ends;
    var any := Mml(0, INFINITE_DISTANCE);
    ReachSame(n, env, any, ml, ml);
    OptSound(n, any, ml, x, cfg, s, s, e);
  }

  lemma FirstReach(n: Node, env: Mml, ml: bool, x: Subject, cfg: Cfg, s: nat)
    requires Formed(n) && Ready(n) && Searchable(n) && s <= |x.text| <= INT_MAX && env.min == 0
    requires Reaches(OptNode(n, env, ml).exb) && Ends(n, ml, x, cfg, s) != []
    ensures Ends(n, ml, x, cfg, s)[0] == s + |OptNode(n, env, ml).exb.s|
  {
    hide OptNode, Ends, Ready, Searchable, Formed, Reaches;
    AllReach(n, env, ml, x, cfg, s, Ends(n, ml, x, cfg, s)[0]);
  }

  lemma OnceMatches(t: Node, q: Rep, ml: bool, x: Subject, cfg: Cfg, s: nat, e: nat)
    requires Formed(t) && RepOk(q) && q.lower == q.upper == 1 && s < e <= |x.text| && e in Ends(t, ml, x, cfg, s)
    ensures e in EndsRep(t, q, ml, x, cfg, 0, s)
  {
    hide Ends, Formed, EndsEach;
    OnwardMoved(t, q, ml, x, cfg, 1, e, s);
    assert EndsRep(t, q, ml, x, cfg, 1, e) == [e];
    EachHas(t, q, ml, x, cfg, 1, Ends(t, ml, x, cfg, s), s, e, e);
  }

  /** Such a literal fits the buffer. */
  lemma {:induction false} ReachShort(n: Node, env: Mml, ml: bool)
    requires Searchable(n) && Reaches(OptNode(n, env, ml).exb)
    ensures |OptNode(n, env, ml).exb.s| <= OPT_EXACT_MAXLEN
    decreases n
  {
    hide OptQuant, Overreaches;
    match n
    case Str(_) =>
    case List(ns) => ListNotReaching(ns, Bound(env), env, ml);
    case Alt(ns) =>
      if ns.Cons? { AltReaches(ns.right, OptNode(ns.left, env, ml), env, ml); }
      ReachShort(ns.left, env, ml);
    case Quant(t, q) =>
      OverreachesSame(t, q, env, ml);
      QuantReaches(t, q, OptNode(t, env, ml), env, ml);
      ReachShort(t, env, ml);
    case Group(_, b) => ReachShort(b, env, ml);
    case OptionNode(ml', b) => ReachShort(b, env, ml');
    case Atomic(simple, b) => if simple { LoopNotReaching(b, env, ml); } else { ReachShort(b, env, ml); }
    case _ =>
  }

  lemma {:induction false} TimesShort(str: seq<byte>, n: nat)
    requires |str| <= OPT_EXACT_MAXLEN
    ensures |Times(str, n)| <= OPT_EXACT_MAXLEN * n
  {
    if n > 0 { TimesShort(str, n - 1); }
  }

  lemma {:induction false} TimesSplit(str: seq<byte>, k: nat, n: nat)
    requires k <= n
    ensures Times(str, n) == Times(str, k) + Times(str, n - k)
  {
    if k > 0 {
      TimesSplit(str, k - 1, n - 1);
      assert str + (Times(str, k - 1) + Times(str, n - k)) == Times(str, k) + Times(str, n - k);
    }
  }

  /** In n copies of the literal, each copy stands behind those before it. */
  lemma CopyAt(str: seq<byte>, n: nat, k: nat, x: Subject)
    requires k < n && x.text == Times(str, n)
    ensures HasAt(x, |Times(str, k)|, str) && |Times(str, k)| + |str| == |Times(str, k + 1)|
  {
    TimesSplit(str, k, n);
    TimesEnd(str, k);
    assert Times(str, n - k) == str + Times(str, n - k - 1);
    var a := |Times(str, k)|;
    assert x.text[a..] == Times(str, n - k);
    assert x.text[a..a + |str|] == x.text[a..][..|str|] == str;
  }

  /** X{n,n} takes all the copies. */
  lemma {:induction false} TakesAll(t: Node, q: Rep, str: seq<byte>, ml: bool, x: Subject, cfg: Cfg, k: nat)
    requires Formed(t) && RepOk(q) && Ready(t) && Searchable(t) && q.lower == q.upper && k <= q.lower
    requires Reaches(OptNode(t, ZERO, ml).exb) && str == OptNode(t, ZERO, ml).exb.s
    requires x.text == Times(str, q.lower) && |x.text| <= INT_MAX && |Times(str, k)| <= |x.text|
    ensures |x.text| in EndsRep(t, q, ml, x, cfg, k, |Times(str, k)|)
    decreases q.lower - k
  {
    hide OptNode, Searchable, Ready, Formed, Ends, EndsEach;
    var s := |Times(str, k)|;
    if k < q.lower {
      CopyAt(str, q.lower, k, x);
      var m := s + |str|;
      ReachMatches(t, ZERO, ml, x, cfg, s);
      hide Times;
      TakesAll(t, q, str, ml, x, cfg, k + 1);
      OnwardMoved(t, q, ml, x, cfg, k + 1, m, s);
      EachHas(t, q, ml, x, cfg, k + 1, Ends(t, ml, x, cfg, s), s, m, |x.text|);
    }
  }

  /** What optimize_node_left says of X{n,n} is so in every match, on every text. */
  ghost predicate ClaimHolds(t: Node, q: Rep, ml: bool)
    requires Formed(t) && RepOk(q)
  {
    forall x: Subject, cfg: Cfg, e: nat :: |x.text| <= INT_MAX && e in EndsRep(t, q, ml, x, cfg, 0, 0) ==>
      OptOk(OptQuant(t, q, OptNode(t, ZERO, ml), ZERO, ml), Span(x, 0, 0, e))
  }

  /** The text of n copies refutes a literal that stops after n - 1 of them. */
  lemma CopiesRefute(t: Node, q: Rep, ml: bool) returns (x: Subject)
    requires Formed(t) && RepOk(q) && Ready(t) && Searchable(t) && q.lower <= MAX_REPEAT_NUM
    requires Overreaches(OptNode(t, ZERO, ml).exb, q)
    ensures |x.text| <= INT_MAX && forall cfg: Cfg :: |x.text| in EndsRep(t, q, ml, x, cfg, 0, 0)
    ensures !OptOk(OptQuant(t, q, OptNode(t, ZERO, ml), ZERO, ml), Span(x, 0, 0, |x.text|))
  {
    hide OptNode, Ends, EndsRep, Copied;
    var body := OptNode(t, ZERO, ml).exb;
    var str := body.s;
    x := Subject(Times(str, q.lower), 0, 0, false);
    ReachShort(t, ZERO, ml);
    TimesShort(str, q.lower);
    forall cfg: Cfg ensures |x.text| in EndsRep(t, q, ml, x, cfg, 0, 0) { TakesAll(t, q, str, ml, x, cfg, 0); }
    assert Times(str, 1) == str + Times(str, 0) == str;
    CopiedPrefix(body, body, 2, q.lower);
    TimesEnd(str, q.lower - 1);
    assert OptQuant(t, q, OptNode(t, ZERO, ml), ZERO, ml).exb == RepeatExact(body, q.lower);
  }

  /** X{n,n}: the analysis is right exactly where the copied literal is not taken to reach the end. */
  lemma FixedExactly(t: Node, q: Rep, ml: bool)
    requires Formed(t) && RepOk(q) && Ready(t) && Searchable(t) && q.lower == q.upper && q.lower <= MAX_REPEAT_NUM
    ensures ClaimHolds(t, q, ml) <==> !Overreaches(OptNode(t, ZERO, ml).exb, q)
  {
    hide OptNode, OptQuant, Ends, EndsRep, OptOk, Overreaches, Searchable, Ready, Formed, RepOk;
    if Overreaches(OptNode(t, ZERO, ml).exb, q) {
      var x := CopiesRefute(t, q, ml);
      var cfg := Cfg({}, {}, true);
      assert |x.text| in EndsRep(t, q, ml, x, cfg, 0, 0);
    } else {
      forall x: Subject, cfg: Cfg, e: nat | |x.text| <= INT_MAX && e in EndsRep(t, q, ml, x, cfg, 0, 0)
        ensures OptOk(OptQuant(t, q, OptNode(t, ZERO, ml), ZERO, ml), Span(x, 0, 0, e))
      {
        QuantSound(t, q, ZERO, ml, x, cfg, 0, 0, e);
        EndingSame(OptQuant(t, q, OptNode(t, ZERO, ml), ZERO, ml));
      }
    }
  }

  // ----- a match the search misses -----

  const A: byte := 0x61
  const B: byte := 0x62
  const C: byte := 0x63

  function Twice(): Rep { Rep(2, 2, true, IsNotEmpty, None, None, false, false, false) }

  function RawTwice(): Rep { Twice().(raw := true) }

  /** (ab) */
  function AbGroup(): Node { Group(1, Str([A, B])) }

  /** (ab){2}c */
  function AbAbC(q: Rep): Node { List(Cons(Quant(AbGroup(), q), Last(Str([C])))) }

  lemma {:induction false} MapValueOne(b: byte, n: nat)
    requires n <= 256
    ensures MapValue({b}, n) == if b < n then MapPositionValue(b) else 0
  {
    if n > 0 { MapValueOne(b, n - 1); }
  }

  lemma OptOfTwice(ml: bool)
    ensures OptNode(Quant(AbGroup(), Twice()), ZERO, ml) ==
            Opt(Mml(4, 4), false, false, Exact(ZERO, true, [A, B], false), NO_EXACT, Exact(ZERO, false, [], false),
                ByteMap(ZERO, {A}))
  {
    hide MapValue;
    var ab := Str([A, B]);
    assert Fitting([A, B], 0) == [A, B];
    assert OptNode(ab, ZERO, ml) == Opt(Mml(2, 2), false, false, Exact(ZERO, true, [A, B], false), NO_EXACT,
                                        Exact(ZERO, false, [], false), ByteMap(ZERO, {A}));
    assert OptNode(Group(1, ab), ZERO, ml) == OptNode(ab, ZERO, ml);
    assert DistanceMultiply(2, 2) == 4;
  }

  lemma OptOfC(env: Mml, ml: bool)
    ensures OptNode(Str([C]), env, ml) == Opt(Mml(1, 1), false, false, Exact(env, true, [C], false), NO_EXACT,
                                              Exact(env, false, [], false), ByteMap(env, {C}))
  {
    hide MapValue;
    assert Fitting([C], 0) == [C];
  }

  lemma Nearest()
    ensures DistanceValue(ZERO) == 1000 && DistanceValue(Mml(4, 4)) == 1000
  {
    assert NEAR_VALUES[0] == 1000;
    assert DIST_VALUES[0] == NEAR_VALUES[0];
  }

  lemma SelectAC()
    ensures SelectMap(ByteMap(ZERO, {A}), ByteMap(Mml(4, 4), {C})) == ByteMap(ZERO, {A})
    ensures CompExactOrMap(Exact(ZERO, true, [A, B, C], false), ByteMap(ZERO, {A})) == -1
  {
    MapValueOne(A, 256);
    MapValueOne(C, 256);
    hide MapValue;
    assert MapPositionValue(A) == 6 && MapPositionValue(C) == 6;
    Nearest();
    hide DistanceValue;
  }

  lemma OptOfAll(ml: bool)
    ensures OptNode(AbAbC(Twice()), ZERO, ml) ==
            Opt(Mml(5, 5), false, false, Exact(ZERO, false, [], false), Exact(ZERO, true, [A, B, C], false),
                Exact(ZERO, false, [], false),
                ByteMap(ZERO, {A}))
  {
    OptOfTwice(ml);
    OptOfC(Mml(4, 4), ml);
    SelectAC();
    hide MapValue, SelectMap, CompExactOrMap;
    var o1, o2 := OptNode(Quant(AbGroup(), Twice()), ZERO, ml), OptNode(Str([C]), Mml(4, 4), ml);
    assert SelectMap(ByteMap(ZERO, {}), ByteMap(ZERO, {A})) == ByteMap(ZERO, {A}) by { SelectFirst(); }
    var a1 := ConcatLeft(Bound(ZERO), o1);
    assert a1 == Opt(Mml(4, 4), false, false, Exact(ZERO, false, [], false), Exact(ZERO, true, [A, B], false),
                      Exact(ZERO, false, [], false), ByteMap(ZERO, {A}));
    assert [A, B] + [C] == [A, B, C] && Fitting([C], 2) == [C];
    assert ConcatLeft(a1, o2).exm == Exact(ZERO, true, [A, B, C], false);
    hide OptNode;
    assert OptNode(AbAbC(Twice()), ZERO, ml) == ConcatLeft(a1, o2) by { ListOfTwo(o1, o2, ml); }
  }

  lemma SelectFirst()
    ensures SelectMap(ByteMap(ZERO, {}), ByteMap(ZERO, {A})) == ByteMap(ZERO, {A})
  {
    hide MapValue;
  }

  lemma ListOfTwo(o1: Opt, o2: Opt, ml: bool)
    requires o1 == OptNode(Quant(AbGroup(), Twice()), ZERO, ml) && o1.len == Mml(4, 4)
             && o2 == OptNode(Str([C]), Mml(4, 4), ml)
    ensures OptNode(AbAbC(Twice()), ZERO, ml) == ConcatLeft(ConcatLeft(Bound(ZERO), o1), o2)
  {
    hide MapValue, SelectMap, ConcatLeft;
    var ns := Cons(Quant(AbGroup(), Twice()), Last(Str([C])));
    assert AddMml(ZERO, o1.len) == Mml(4, 4);
    assert OptNode(List(ns), ZERO, ml) == OptList(ns, Bound(ZERO), ZERO, ml);
    assert OptList(Last(Str([C])), ConcatLeft(Bound(ZERO), o1), Mml(4, 4), ml) ==
           ConcatLeft(ConcatLeft(Bound(ZERO), o1), o2);
  }

  /** The literal found is abc, right at the start: the second copy of ab is left out. */
  lemma InfoOfAbAbC(ml: bool)
    ensures InfoOf(AbAbC(Twice()), ml).how == SearchExact([A, B, C])
    ensures InfoOf(AbAbC(Twice()), ml).dmin == 0 && InfoOf(AbAbC(Twice()), ml).dmax == 0
  {
    OptOfAll(ml);
    SelectAC();
    hide OptNode, MapValue, SelectMap, CompExactOrMap;
  }

  lemma QuantEnds(t: Node, q: Rep, ml: bool, x: Subject, cfg: Cfg, s: nat)
    requires Formed(t) && RepOk(q) && s <= |x.text|
    ensures Formed(Quant(t, q)) && Ends(Quant(t, q), ml, x, cfg, s) == EndsRep(t, q, ml, x, cfg, 0, s)
  {
  }

  const AbAbCText := [A, B, A, B, C]

  lemma EndsOfTwice(q: Rep, ml: bool, x: Subject, cfg: Cfg)
    requires q == Twice() || q == RawTwice()
    requires x.text == AbAbCText
    ensures Formed(Quant(AbGroup(), q)) && Ends(Quant(AbGroup(), q), ml, x, cfg, 0) == [4]
  {
    var g := AbGroup();
    assert x.text[0..2] == [A, B] && x.text[2..4] == [A, B];
    assert HasAt(x, 0, [A, B]) && HasAt(x, 2, [A, B]);
    assert Ends(g, ml, x, cfg, 0) == Ends(Str([A, B]), ml, x, cfg, 0) == [2];
    assert Ends(g, ml, x, cfg, 2) == Ends(Str([A, B]), ml, x, cfg, 2) == [4];
    hide Ends, FormOf, CompileLength, EndsEach, Checked;
    EachOne(g, q, ml, x, cfg, 2, 4, 2);
    EachOne(g, q, ml, x, cfg, 1, 2, 0);
    OnwardMoved(g, q, ml, x, cfg, 2, 4, 2);
    OnwardMoved(g, q, ml, x, cfg, 1, 2, 0);
    assert EndsRep(g, q, ml, x, cfg, 2, 4) == [4];
    assert EndsRep(g, q, ml, x, cfg, 1, 2) == [4];
    assert EndsRep(g, q, ml, x, cfg, 0, 0) == [4];
    QuantEnds(g, q, ml, x, cfg, 0);
  }

  lemma EndsOfList(q: Rep, ml: bool, x: Subject, cfg: Cfg)
    requires x.text == AbAbCText && (q == Twice() || q == RawTwice())
    ensures Formed(AbAbC(q)) && Ends(AbAbC(q), ml, x, cfg, 0) == [5]
  {
    hide EndsRep, FormOf, CompileLength;
    EndsOfTwice(q, ml, x, cfg);
    var c := Str([C]);
    assert x.text[4..5] == [C];
    assert Ends(c, ml, x, cfg, 4) == [5];
    assert AllFormed(Last(c));
    assert [4][1..] == [] && EndsListAll(Last(c), ml, x, cfg, []) == [];
    assert EndsList(Last(c), ml, x, cfg, 4) == [5];
    assert EndsListAll(Last(c), ml, x, cfg, [4]) == [5] + [];
  }

  /** Set-up has nothing to change. */
  lemma SetupOfAll()
    ensures Parsed(AbAbC(RawTwice())) && SetupTree(AbAbC(RawTwice()), false) == AbAbC(Twice())
  {
    hide Head;
    var c, t := Str([C]), Quant(AbGroup(), RawTwice());
    assert MinLen(AbGroup()) == 2 && Parsed(t) && AllParsed(Last(c));
    assert SetupTree(AbGroup(), true) == AbGroup();
    assert SetupTree(t, false) == Quant(AbGroup(), Twice());
    assert SetupList(Last(c), false) == Last(c);
  }

  /** The literal stands at 2 only, so no other start is tried. */
  lemma OnlyAtTwo(info: Info, r: int)
    requires info.how == SearchExact([A, B, C]) && info.dmin == 0 && info.dmax == 0
    requires r >= 0 && S.Necessary(info, AbAbCText, r)
    ensures r == 2
  {
    var p: int :| S.NecessaryAt(info, AbAbCText, r, p);
    assert AbAbCText[p..p + 3][2] == AbAbCText[p + 2];
  }

  /** At 2 there is one copy of ab only. */
  lemma NoneAtTwo(ml: bool, x: Subject, cfg: Cfg)
    requires x.text == AbAbCText
    ensures Formed(AbAbC(Twice())) && Ends(AbAbC(Twice()), ml, x, cfg, 2) == []
  {
    var g, q, t := AbGroup(), Twice(), Quant(AbGroup(), Twice());
    assert x.text[2..4] == [A, B] && HasAt(x, 2, [A, B]) && !HasAt(x, 4, [A, B]);
    assert Ends(g, ml, x, cfg, 2) == Ends(Str([A, B]), ml, x, cfg, 2) == [4];
    assert Ends(g, ml, x, cfg, 4) == Ends(Str([A, B]), ml, x, cfg, 4) == [];
    hide FormOf, CompileLength, EndsEach, Checked;
    EachOne(g, q, ml, x, cfg, 1, 4, 2);
    OnwardMoved(g, q, ml, x, cfg, 1, 4, 2);
    EachSplit(g, q, ml, x, cfg, 2, [], 4);
    hide Ends;
    assert EndsRep(g, q, ml, x, cfg, 1, 4) == [];
    assert EndsRep(g, q, ml, x, cfg, 0, 2) == [];
    QuantEnds(g, q, ml, x, cfg, 2);
    NothingBehind(t, Last(Str([C])), ml, x, cfg, 2);
  }

  lemma NothingBehind(t: Node, rest: Nodes, ml: bool, x: Subject, cfg: Cfg, s: nat)
    requires Formed(t) && AllFormed(rest) && s <= |x.text| && Ends(t, ml, x, cfg, s) == []
    ensures Formed(List(Cons(t, rest))) && Ends(List(Cons(t, rest)), ml, x, cfg, s) == []
  {
    hide EndsList;
    assert EndsListAll(rest, ml, x, cfg, []) == [];
    assert Ends(List(Cons(t, rest)), ml, x, cfg, s) == EndsListAll(rest, ml, x, cfg, []) by {
      TwoItems(t, rest, ml, x, cfg, s);
    }
  }

  lemma TwoItems(t: Node, rest: Nodes, ml: bool, x: Subject, cfg: Cfg, s: nat)
    requires Formed(t) && AllFormed(rest) && s <= |x.text|
    ensures Formed(List(Cons(t, rest)))
    ensures Ends(List(Cons(t, rest)), ml, x, cfg, s) == EndsListAll(rest, ml, x, cfg, Ends(t, ml, x, cfg, s))
  {
    hide EndsListAll;
  }

  const PLAIN := Options(false, false)

  function AbAbCAt(): Subject { Subject(AbAbCText, 0, 0, false) }

  lemma AbAbCHits(ml: bool, cfg: Cfg)
    ensures TextOk(AbAbCAt()) && Parsed(AbAbC(RawTwice())) && Unmisled(AbAbC(RawTwice()))
    ensures Formed(AbAbC(RawTwice())) && S.HitAt(AbAbC(RawTwice()), ml, AbAbCAt(), cfg, PLAIN, 0)
    ensures Formed(AbAbC(Twice())) && !S.HitAt(AbAbC(Twice()), ml, AbAbCAt(), cfg, PLAIN, 2)
  {
    hide Ends, Formed, Parsed, Unmisled, AbAbC;
    var n, x := AbAbC(RawTwice()), AbAbCAt();
    SetupOfAll();
    EndsOfList(RawTwice(), ml, x, cfg);
    NoneAtTwo(ml, x, cfg);
    TwiceUnmisled();
    assert 5 in Ends(n, ml, x, cfg, 0);
    assert |x.text| == 5;
  }

  lemma TwiceUnmisled()
    ensures Unmisled(AbAbC(RawTwice()))
  {
    var c, t := Str([C]), Quant(AbGroup(), RawTwice());
    assert Unmisled(AbGroup()) && SetupTree(AbGroup(), true) == AbGroup();
    assert Unmisled(t) && Unmisled(c) && AllUnmisled(Last(c));
  }

  /** (ab){2}c matches ababc from its start, and the search finds nothing. */
  method MissesFixed(ml: bool, cfg: Cfg, base: nat) returns (r: int)
    ensures var n := AbAbC(RawTwice());
            Parsed(n) && Unmisled(n) && Formed(n) && S.HitAt(n, ml, AbAbCAt(), cfg, PLAIN, 0)
    ensures r == MISMATCH
  {
    hide *;
    AbAbCHits(ml, cfg);
    AbAbCSearch();
    InfoOfAbAbC(ml);
    r := Regex.Search(AbAbC(RawTwice()), ml, cfg, base, AbAbCAt(), 0, PLAIN);
    RefusedExactly(AbAbC(Twice()), ml);
    NotTwo(ml, cfg, r);
  }

  lemma AbAbCSearch()
    ensures !PLAIN.findLongest && SetupTree(AbAbC(RawTwice()), false) == AbAbC(Twice()) && AbAbCAt().text == AbAbCText
  {
    SetupOfAll();
  }

  lemma NotTwo(ml: bool, cfg: Cfg, r: int)
    requires Formed(AbAbC(Twice())) && !S.HitAt(AbAbC(Twice()), ml, AbAbCAt(), cfg, PLAIN, 2)
    requires var info := InfoOf(AbAbC(Twice()), ml);
             && S.FirstTried(AbAbC(Twice()), ml, AbAbCAt(), cfg, PLAIN, info, 0, r)
             && info.how == SearchExact([A, B, C]) && info.dmin == 0 && info.dmax == 0
    ensures r == MISMATCH
  {
    hide InfoOf, S.HitAt, Formed, AbAbC, S.Necessary, S.FirstTried, S.Tried;
    var info := InfoOf(AbAbC(Twice()), ml);
    if r != MISMATCH {
      S.TriedHit(AbAbC(Twice()), ml, AbAbCAt(), cfg, PLAIN, info, 0, r);
      S.TriedPlace(info, AbAbCText, 0, r);
      OnlyAtTwo(info, r);
    }
  }
}
