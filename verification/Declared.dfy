/** What a regular expression says, without an order, a repeat form or any code: from where to where it
    matches. The results of a tree are these matches. */
module Declared {
  import opened Regint
  import opened Regparse
  import opened Regcomp
  import opened Machine
  import opened Setup
  import opened Meaning
  import opened Lengths
  import opened LengthSound
  import opened CompilerCorrect
  import opened MatchAt
  import opened Optimize
  import opened LostLiterals
  import opened OptimizeSound
  import opened DotStar
  import opened Reduction
  import opened ReductionMeaning
  import opened SetupCorrect
  import opened SetupReady
  import S = Search
  import L = SearchLongest
  import Regex

  /** n matches from s to e. An atomic group is read as a plain one. */
  ghost predicate Matches(n: Node, ml: bool, x: Subject, s: nat, e: nat)
    requires s <= |x.text|
    decreases n, 1
  {
    match n
    case Str(str) => HasAt(x, s, str) && e == s + |str|
    case CClass(bs, neg, _, _) => s < |x.text| && (x.text[s] in bs) != neg && e == s + 1
    case CType(not) => s < |x.text| && IsWord(x.text[s]) != not && e == s + 1
    case AnyChar => s < |x.text| && (ml || x.text[s] != NEWLINE) && e == s + 1
    case List(ns) => MatchesAll(ns, ml, x, s, e)
    case Alt(ns) => MatchesOne(ns, ml, x, s, e)
    case Quant(t, q) => 
      (s, e) in RepRel(iset a: nat, b: nat | a <= |x.text| && Matches(t, ml, x, a, b) :: (a, b), q.lower, q.upper)
    case Group(_, b) => Matches(b, ml, x, s, e)
    case OptionNode(ml', b) => Matches(b, ml', x, s, e)
    case Atomic(_, b) => Matches(b, ml, x, s, e)
    case Anchor(k) => AtAnchor(k, x, s) && e == s
    case Look(k, len, b) =>
      match k
      case PrecRead => e == s && Somewhere(b, ml, x, s)
      case PrecReadNot => e == s && !Somewhere(b, ml, x, s)
      case LookBehind => 0 <= len <= s && Matches(b, ml, x, s - len, e)
      case LookBehindNot => e == s && (len < 0 || s < len || !Somewhere(b, ml, x, s - len))
  }

  ghost predicate Somewhere(n: Node, ml: bool, x: Subject, s: nat)
    requires s <= |x.text|
    decreases n, 2
  {
    exists e: nat :: Matches(n, ml, x, s, e)
  }

  /** The items one after the other. */
  ghost predicate MatchesAll(ns: Nodes, ml: bool, x: Subject, s: nat, e: nat)
    requires s <= |x.text|
    decreases ns, 0
  {
    match ns
    case Last(n) => Matches(n, ml, x, s, e)
    case Cons(n, rest) => exists m: nat :: m <= |x.text| && Matches(n, ml, x, s, m) && MatchesAll(rest, ml, x, m, e)
  }

  /** One of the alternatives. */
  ghost predicate MatchesOne(ns: Nodes, ml: bool, x: Subject, s: nat, e: nat)
    requires s <= |x.text|
    decreases ns, 0
  {
    match ns
    case Last(n) => Matches(n, ml, x, s, e)
    case Cons(n, rest) => Matches(n, ml, x, s, e) || MatchesOne(rest, ml, x, s, e)
  }

  /** Trees of the parser without atomic groups and without anchors or look-around inside a repeat. */
  predicate Plain(n: Node) {
    match n
    case List(ns) => AllPlain(ns)
    case Alt(ns) => AllPlain(ns)
    case Quant(t, q) => Regular(t) && Plain(t) && q.headExact.None? && q.nextHead.None?
    case Group(_, b) => Plain(b)
    case OptionNode(_, b) => Plain(b)
    case Atomic(_, _) => false
    case Look(_, _, b) => Plain(b)
    case _ => true
  }

  predicate AllPlain(ns: Nodes) {
    match ns
    case Last(n) => Plain(n)
    case Cons(n, rest) => Plain(n) && AllPlain(rest)
  }

  ghost function Language(n: Node, ml: bool, x: Subject): Rel {
    iset a: nat, b: nat | a <= |x.text| && Matches(n, ml, x, a, b) :: (a, b)
  }

  lemma Between(n: Node, rest: Nodes, ml: bool, x: Subject, s: nat, e: nat) returns (m: nat)
    requires s <= |x.text| && MatchesAll(Cons(n, rest), ml, x, s, e)
    ensures m <= |x.text| && Matches(n, ml, x, s, m) && MatchesAll(rest, ml, x, m, e)
  {
    m :| m <= |x.text| && Matches(n, ml, x, s, m) && MatchesAll(rest, ml, x, m, e);
  }

  lemma Witness(n: Node, ml: bool, x: Subject, s: nat) returns (e: nat)
    requires s <= |x.text| && Somewhere(n, ml, x, s)
    ensures Matches(n, ml, x, s, e)
  {
    e :| Matches(n, ml, x, s, e);
  }

  /** The results of a tree are exactly its matches. */
  lemma {:induction false} EndsAreMatches(n: Node, ml: bool, x: Subject, cfg: Cfg, s: nat, e: nat)
    requires Formed(n) && Plain(n) && s <= |x.text|
    ensures e in Ends(n, ml, x, cfg, s) <==> Matches(n, ml, x, s, e)
    decreases n, 1
  {
    hide EndsRep, RepRel, CompileLength;
    match n
    case List(ns) => ListMatches(ns, ml, x, cfg, s, e);
    case Alt(ns) => AltMatches(ns, ml, x, cfg, s, e);
    case Quant(t, q) => QuantMatches(t, q, ml, x, cfg, s, e);
    case Group(_, b) => EndsAreMatches(b, ml, x, cfg, s, e);
    case OptionNode(ml', b) => EndsAreMatches(b, ml', x, cfg, s, e);
    case Look(k, len, b) => LookMatches(k, len, b, ml, x, cfg, s, e);
    case _ =>
  }

  lemma {:induction false} ListMatches(ns: Nodes, ml: bool, x: Subject, cfg: Cfg, s: nat, e: nat)
    requires AllFormed(ns) && AllPlain(ns) && s <= |x.text|
    ensures e in EndsList(ns, ml, x, cfg, s) <==> MatchesAll(ns, ml, x, s, e)
    decreases ns, 0
  {
    hide Ends, Matches, Formed, Plain;
    var n := ns.left;
    if ns.Last? {
      EndsAreMatches(n, ml, x, cfg, s, e);
    } else {
      var rest := ns.right;
      var from := Ends(n, ml, x, cfg, s);
      if e in EndsListAll(rest, ml, x, cfg, from) {
        var m := FromSome(rest, ml, x, cfg, from, e);
        EndsAreMatches(n, ml, x, cfg, s, m);
        ListMatches(rest, ml, x, cfg, m, e);
      }
      if MatchesAll(ns, ml, x, s, e) {
        var m := Between(n, rest, ml, x, s, e);
        EndsAreMatches(n, ml, x, cfg, s, m);
        ListMatches(rest, ml, x, cfg, m, e);
        AllFrom(rest, ml, x, cfg, from, m, e);
      }
    }
  }

  lemma {:induction false} AltMatches(ns: Nodes, ml: bool, x: Subject, cfg: Cfg, s: nat, e: nat)
    requires AllFormed(ns) && AllPlain(ns) && s <= |x.text|
    ensures e in EndsAlt(ns, ml, x, cfg, s) <==> MatchesOne(ns, ml, x, s, e)
    decreases ns, 0
  {
    hide Ends, Matches, Formed, Plain;
    EndsAreMatches(ns.left, ml, x, cfg, s, e);
    if ns.Cons? { AltMatches(ns.right, ml, x, cfg, s, e); }
  }

  lemma {:induction false} QuantMatches(t: Node, q: Rep, ml: bool, x: Subject, cfg: Cfg, s: nat, e: nat)
    requires Formed(t) && RepOk(q) && Regular(t) && Plain(t) && q.headExact.None? && q.nextHead.None? && s <= |x.text|
    ensures e in EndsRep(t, q, ml, x, cfg, 0, s) <==> (s, e) in RepRel(Language(t, ml, x), q.lower, q.upper)
    decreases t, 2
  {
    QuantRel(t, q, ml, x, cfg);
    var r, r' := RelOf(t, ml, x, cfg), Language(t, ml, x);
    forall a: nat, b: nat | a <= |x.text| ensures (a, b) in r <==> (a, b) in r' { EndsAreMatches(t, ml, x, cfg, a, b); }
    forall a: nat, b: nat | a <= |x.text| && (a, b) in r ensures b <= |x.text| { EndInside(t, ml, x, cfg, a, b); }
    hide RepRel, Regular, Plain, Matches, EndsRep;
    RepInside(r, r', q.lower, q.upper, s, e, |x.text|);
    assert (s, e) in RelOf(Quant(t, q), ml, x, cfg) <==> e in Ends(Quant(t, q), ml, x, cfg, s);
  }

  lemma {:induction false} LookMatches(k: LookKind, len: nat, b: Node, ml: bool, x: Subject, cfg: Cfg, s: nat, e: nat)
    requires Formed(Look(k, len, b)) && Formed(b) && Plain(b) && s <= |x.text|
    ensures e in Ends(Look(k, len, b), ml, x, cfg, s) <==> Matches(Look(k, len, b), ml, x, s, e)
    decreases b, 2
  {
    hide Plain, Formed;
    if k.PrecRead? || k.PrecReadNot? {
      SomeEnd(b, ml, x, cfg, s);
    } else if s >= len {
      SomeEnd(b, ml, x, cfg, s - len);
      EndsAreMatches(b, ml, x, cfg, s - len, e);
    }
  }

  lemma {:induction false} SomeEnd(b: Node, ml: bool, x: Subject, cfg: Cfg, s: nat)
    requires Formed(b) && Plain(b) && s <= |x.text|
    ensures Ends(b, ml, x, cfg, s) != [] <==> Somewhere(b, ml, x, s)
    decreases b, 2, 0
  {
    hide Ends, Matches, Plain, Formed;
    var es := Ends(b, ml, x, cfg, s);
    if es != [] { EndsAreMatches(b, ml, x, cfg, s, es[0]); }
    if Somewhere(b, ml, x, s) {
      var e := Witness(b, ml, x, s);
      EndsAreMatches(b, ml, x, cfg, s, e);
    }
  }

  // ----- a look-ahead inside a counted repeat -----

  const A: byte := 0x61

  /** (?=a)(?:): the parser repeats an alternative like this, but no single look-ahead. */
  function AheadEmpty(): Node { List(Cons(Look(PrecRead, 0, Str([A])), Last(Str([])))) }

  /** (?=a)(?:)|a */
  function AheadOrA(): Node { Alt(Cons(AheadEmpty(), Last(Str([A])))) }

  function Eleven(): Rep { RepOf(11, 11, true) }

  lemma AheadOrAIs()
    ensures Parsed(AheadOrA()) && Formed(AheadOrA()) && SetupTree(AheadOrA(), true) == AheadOrA()
    ensures MinLen(AheadOrA()) == 0 && !HasMemory(AheadOrA()) && !InvalidTarget(AheadOrA()) && AheadOrA().Alt?
  {
    hide AheadEmpty;
    var t, a := AheadOrA(), Str([A]);
    AheadEmptyIs();
    assert MinLenAlt(t.items) == 0;
    assert Parsed(a) && AllParsed(Last(a)) && AllParsed(t.items);
    assert Formed(a) && AllFormed(Last(a)) && AllFormed(t.items);
    assert SetupTree(a, true) == a && SetupAlt(Last(a), true) == Last(a);
    assert !AnyMemory(Last(a)) && !AnyInvalid(Last(a));
  }

  /** The counter watches the rounds that are owed. */
  lemma ElevenChecked(cfg: Cfg)
    ensures Parsed(Quant(AheadOrA(), Eleven())) && Formed(AheadOrA()) && Checked(AheadOrA(), Eleven(), cfg, 0)
  {
    AheadOrAIs();
    hide AheadOrA, CompileLength;
    var t := AheadOrA();
    assert HeadString(t).None?;
    assert QuantSetup(t, SetRep(t, Eleven(), false)) == Quant(t, Eleven().(emptyInfo := IsEmpty, raw := false));
  }

  lemma AheadEmptyIs()
    ensures Parsed(AheadEmpty()) && Formed(AheadEmpty()) && SetupTree(AheadEmpty(), true) == AheadEmpty()
    ensures MinLen(AheadEmpty()) == 0 && !HasMemory(AheadEmpty()) && !InvalidTarget(AheadEmpty())
  {
    var l, e := Look(PrecRead, 0, Str([A])), Str([]);
    assert Parsed(l) && Parsed(e) && AllParsed(Last(e)) && Formed(l) && Formed(e) && AllFormed(Last(e));
    assert SetupTree(l, true) == l && SetupTree(e, true) == e && SetupList(Last(e), true) == Last(e);
    assert MinLen(l) == 0 && MinLenList(Last(e)) == 0 && !HasMemory(l) && !AnyMemory(Last(e));
  }

  lemma AheadEmptyEnds(ml: bool, x: Subject, cfg: Cfg)
    requires x.text == [A]
    ensures Formed(AheadEmpty()) && Ends(AheadEmpty(), ml, x, cfg, 0) == [0] && Ends(AheadEmpty(), ml, x, cfg, 1) == []
    ensures Matches(AheadEmpty(), ml, x, 0, 0)
  {
    var l, a, e := Look(PrecRead, 0, Str([A])), Str([A]), Str([]);
    var ns := Last(e);
    assert x.text[0..1] == [A] && HasAt(x, 0, [A]) && HasAt(x, 0, []);
    assert Formed(l) && AllFormed(ns);
    assert Ends(a, ml, x, cfg, 0) == [1] && Ends(a, ml, x, cfg, 1) == [];
    assert Ends(l, ml, x, cfg, 0) == [0] && Ends(l, ml, x, cfg, 1) == [];
    assert EndsList(ns, ml, x, cfg, 0) == [0] && EndsListAll(ns, ml, x, cfg, []) == [] && [0][1..] == [];
    assert EndsListAll(ns, ml, x, cfg, [0]) == [0] + [];
    assert Matches(a, ml, x, 0, 1) && Somewhere(a, ml, x, 0) && Matches(l, ml, x, 0, 0);
    assert Matches(e, ml, x, 0, 0) && MatchesAll(ns, ml, x, 0, 0);
  }

  lemma AheadEnds(ml: bool, x: Subject, cfg: Cfg)
    requires x.text == [A]
    ensures Formed(AheadOrA()) && Ends(AheadOrA(), ml, x, cfg, 0) == [0, 1] && Ends(AheadOrA(), ml, x, cfg, 1) == []
    ensures Matches(AheadOrA(), ml, x, 0, 0) && Matches(AheadOrA(), ml, x, 0, 1)
  {
    hide AheadEmpty;
    var a := Str([A]);
    AheadEmptyEnds(ml, x, cfg);
    assert x.text[0..1] == [A] && HasAt(x, 0, [A]);
    assert AllFormed(Last(a)) && AllFormed(AheadOrA().items);
    assert Ends(a, ml, x, cfg, 0) == [1] && Ends(a, ml, x, cfg, 1) == [];
    assert EndsAlt(Last(a), ml, x, cfg, 0) == [1] && EndsAlt(Last(a), ml, x, cfg, 1) == [];
    assert Matches(a, ml, x, 0, 1);
    assert MatchesOne(Last(a), ml, x, 0, 1);
  }

  lemma ElevenMatches(ml: bool, x: Subject)
    requires x.text == [A] && Matches(AheadOrA(), ml, x, 0, 0) && Matches(AheadOrA(), ml, x, 0, 1)
    ensures Matches(Quant(AheadOrA(), Eleven()), ml, x, 0, 1)
  {
    hide Matches, AheadOrA, Path, RepRel;
    var r := Language(AheadOrA(), ml, x);
    assert (0, 0) in r && (0, 1) in r;
    ReductionMeaning.Loops(r, 10, 0);
    OneStep(r, 0, 1);
    PathAdd(r, 10, 1, 0, 0, 1);
    InRep(r, 11, 11, 11, 0, 1);
    QuantMatch(AheadOrA(), Eleven(), ml, x, 0, 1);
  }

  lemma ElevenEnds(t: Node, ml: bool, x: Subject, cfg: Cfg)
    requires x.text == [A] && Formed(t) && Checked(t, Eleven(), cfg, 0)
    requires Ends(t, ml, x, cfg, 0) == [0, 1] && Ends(t, ml, x, cfg, 1) == []
    ensures Formed(Quant(t, Eleven())) && Ends(Quant(t, Eleven()), ml, x, cfg, 0) == [0]
  {
    hide Ends, Formed, Checked, EndsEach;
    var q := Eleven();
    EachSplit(t, q, ml, x, cfg, 1, [0, 1], 0);
    EachSplit(t, q, ml, x, cfg, 1, [1], 0);
    EachSplit(t, q, ml, x, cfg, 1, [], 0);
    EachSplit(t, q, ml, x, cfg, 2, [], 1);
    assert [0, 1][1..] == [1] && [1][1..] == [];
    OnwardMoved(t, q, ml, x, cfg, 1, 1, 0);
    assert EndsRep(t, q, ml, x, cfg, 1, 1) == [];
    assert EndsRep(t, q, ml, x, cfg, 0, 0) == [0];
    QuantIs(t, q, ml, x, cfg, 0);
  }

  /** (?:(?=a)(?:)|a){11} on a: ten empty rounds and a, but the first empty round leaves the repeat. */
  lemma LookInsideDiffers(ml: bool, cfg: Cfg)
    ensures var n, x := Quant(AheadOrA(), Eleven()), Subject([A], 0, 0, false);
            Parsed(n) && Formed(n) && Matches(n, ml, x, 0, 1) && Ends(n, ml, x, cfg, 0) == [0]
  {
    hide *;
    var x := Subject([A], 0, 0, false);
    ElevenChecked(cfg);
    AheadEnds(ml, x, cfg);
    ElevenMatches(ml, x);
    ElevenEnds(AheadOrA(), ml, x, cfg);
  }

  lemma QuantMatch(t: Node, q: Rep, ml: bool, x: Subject, s: nat, e: nat)
    requires s <= |x.text| && (s, e) in RepRel(Language(t, ml, x), q.lower, q.upper)
    ensures Matches(Quant(t, q), ml, x, s, e)
  {
    hide RepRel;
  }

  lemma QuantIs(t: Node, q: Rep, ml: bool, x: Subject, cfg: Cfg, s: nat)
    requires Formed(t) && RepOk(q) && s <= |x.text|
    ensures Formed(Quant(t, q)) && Ends(Quant(t, q), ml, x, cfg, s) == EndsRep(t, q, ml, x, cfg, 0, s)
  {
    hide EndsRep;
  }

  // ----- onig_match and onig_search -----

  /** Results lie behind their start. */
  lemma EndsBehind(n: Node, ml: bool, x: Subject, cfg: Cfg, s: nat)
    requires Parsed(n) && Unmisled(n) && TextOk(x) && s <= |x.text|
    ensures Formed(n) && FromTo(Ends(n, ml, x, cfg, s), s, |x.text|)
  {
    hide Ends, Parsed, Unmisled, SetupTree, Ready, Formed, MinLen;
    ParsedFormed(n);
    SetupFormed(n, false);
    SetupIsReady(n, false);
    SetupEnds(n, false, ml, x, cfg, s);
    assert |x.text| <= INT_MAX;
    MinLenSound(SetupTree(n, false), ml, x, cfg, s);
    var es := Ends(n, ml, x, cfg, s);
    assert Bounded(es, x);
  }

  lemma {:induction false} LongestHas(ends: seq<nat>, s0: nat)
    requires ends != [] && forall i :: 0 <= i < |ends| ==> ends[i] >= s0
    ensures exists e :: e in ends && e - s0 == Longest(ends, s0)
  {
    var rest := ends[1..];
    if rest == [] || ends[0] - s0 > Longest(rest, s0) {
      assert ends[0] in ends;
    } else {
      LongestHas(rest, s0);
      var e :| e in rest && e - s0 == Longest(rest, s0);
      assert e in ends;
    }
  }

  /** The longest match, or just a match. */
  ghost predicate MatchLength(n: Node, ml: bool, x: Subject, s0: nat, longest: bool, r: int)
    requires s0 <= |x.text|
  {
    && (r == MISMATCH ==> !Somewhere(n, ml, x, s0))
    && (r != MISMATCH ==> r >= 0 && Matches(n, ml, x, s0, s0 + r))
    && (longest ==> forall e: nat :: Matches(n, ml, x, s0, e) ==> e - s0 <= r)
  }

  lemma OutcomeLength(n: Node, ml: bool, x: Subject, cfg: Cfg, s0: nat, longest: bool)
    requires Formed(n) && Plain(n) && s0 <= |x.text| && FromTo(Ends(n, ml, x, cfg, s0), s0, |x.text|)
    ensures MatchLength(n, ml, x, s0, longest,
              Outcome(Ends(n, ml, x, cfg, s0), s0, |x.text|, Options(longest, false), Best(MISMATCH, MISMATCH)).len)
  {
    hide Ends, Matches, Formed, Plain;
    hide Outcome;
    var es := Ends(n, ml, x, cfg, s0);
    forall e: nat ensures Matches(n, ml, x, s0, e) <==> e in es { EndsAreMatches(n, ml, x, cfg, s0, e); }
    SomeEnd(n, ml, x, cfg, s0);
    if longest {
      LongestOutcome(es, s0, |x.text|, Best(MISMATCH, MISMATCH));
      LongestBound(es, s0, |x.text|);
      LongestIs(es, s0);
      if es != [] { LongestHas(es, s0); }
    } else {
      FirstOutcome(es, s0, |x.text|, MISMATCH);
    }
  }

  /** onig_match: MISMATCH exactly where the expression does not match, and otherwise the length of a match,
      of the longest with FIND_LONGEST. */
  method OnigMatch(n: Node, ml: bool, cfg: Cfg, base: nat, x: Subject, s0: nat, longest: bool) returns (r: int)
    requires Parsed(n) && Plain(n) && Unmisled(n) && TextOk(x) && s0 <= |x.text|
    ensures MatchLength(n, ml, x, s0, longest, r)
  {
    EndsBehind(n, ml, x, cfg, s0);
    OutcomeLength(n, ml, x, cfg, s0, longest);
    hide *;
    var best, _ := Regex.Match(n, ml, cfg, base, x, s0, Options(longest, false), MISMATCH);
    r := best.len;
  }

  /** The first place from start on where the expression matches. */
  ghost predicate FirstPlace(n: Node, ml: bool, x: Subject, start: nat, r: int) {
    if r == MISMATCH then forall s: nat :: start <= s <= |x.text| ==> !Somewhere(n, ml, x, s)
    else start <= r <= |x.text| && Somewhere(n, ml, x, r) && forall s: nat :: start <= s < r ==> !Somewhere(n, ml, x, s)
  }

  lemma LeftmostPlace(n: Node, ml: bool, x: Subject, cfg: Cfg, start: nat, r: int)
    requires Formed(n) && Plain(n) && S.Leftmost(n, ml, x, cfg, FIRST, start, r)
    ensures FirstPlace(n, ml, x, start, r)
  {
    hide Ends, Matches, Formed, Plain;
    forall s: nat | s <= |x.text| ensures S.HitAt(n, ml, x, cfg, FIRST, s) <==> Somewhere(n, ml, x, s) {
      SomeEnd(n, ml, x, cfg, s);
      var es := Ends(n, ml, x, cfg, s);
      if es != [] { assert es[0] in es; }
    }
    hide S.HitAt, Somewhere;
  }

  /** onig_search, forward: the first place where the expression matches. It is an error instead exactly where
      the analysis has lost a literal, so never for an expression that keeps its literals. */
  method OnigSearch(n: Node, ml: bool, cfg: Cfg, base: nat, x: Subject, start: nat) returns (r: int)
    requires Parsed(n) && Plain(n) && Unmisled(n) && TextOk(x)
    requires Dependable(SetupTree(n, false), ml)
    ensures r == Regex.ONIGERR_MEMORY <==> Refuses(OptNode(SetupTree(n, false), ZERO, ml))
    ensures r != Regex.ONIGERR_MEMORY ==> FirstPlace(n, ml, x, start, r)
    ensures Keeps(n) ==> FirstPlace(n, ml, x, start, r)
  {
    hide *;
    Plainly();
    r := Regex.Search(n, ml, cfg, base, x, start, FIRST);
    if r != Regex.ONIGERR_MEMORY { LeftmostPlace(n, ml, x, cfg, start, r); }
  }

  lemma Plainly()
    ensures !FIRST.findLongest && LONGEST.findLongest
  {
  }

  /** The first of the places where the longest match begins. */
  ghost predicate LongestPlace(n: Node, ml: bool, x: Subject, start: nat, r: int) {
    if r == MISMATCH then forall s: nat :: start <= s <= |x.text| ==> !Somewhere(n, ml, x, s)
    else
      && start <= r <= |x.text|
      && exists len: nat :: Matches(n, ml, x, r, r + len) && NoneLonger(n, ml, x, start, r, len)
  }

  /** No match is longer, and none in front of r is as long. */
  ghost predicate NoneLonger(n: Node, ml: bool, x: Subject, start: nat, r: int, len: nat) {
    forall s: nat, e: nat :: start <= s <= |x.text| && Matches(n, ml, x, s, e) ==>
      e - s <= len && (s < r ==> e - s < len)
  }

  /** Both sides of LongestAt. */
  lemma LongestMatch(n: Node, ml: bool, x: Subject, cfg: Cfg, s: nat)
    requires Parsed(n) && Plain(n) && Unmisled(n) && TextOk(x) && s <= |x.text|
    ensures Formed(n)
    ensures forall e: nat :: Matches(n, ml, x, s, e) ==> e - s <= L.LongestAt(n, ml, x, cfg, s)
    ensures L.LongestAt(n, ml, x, cfg, s) >= 0 ==> Matches(n, ml, x, s, s + L.LongestAt(n, ml, x, cfg, s))
    ensures L.LongestAt(n, ml, x, cfg, s) == MISMATCH ==> !Somewhere(n, ml, x, s)
  {
    hide Ends, Matches, Parsed, Plain, Unmisled, Formed;
    EndsBehind(n, ml, x, cfg, s);
    var es := Ends(n, ml, x, cfg, s);
    forall e: nat ensures Matches(n, ml, x, s, e) <==> e in es { EndsAreMatches(n, ml, x, cfg, s, e); }
    SomeEnd(n, ml, x, cfg, s);
    LongestIs(es, s);
    LongestBound(es, s, |x.text|);
    if es != [] { LongestHas(es, s); }
  }

  lemma PlaceMatches(n: Node, ml: bool, x: Subject, cfg: Cfg, start: nat, r: int)
    requires Parsed(n) && Plain(n) && Unmisled(n) && TextOk(x) && Formed(n) && L.LongestPlace(n, ml, x, cfg, start, r)
    ensures LongestPlace(n, ml, x, start, r)
  {
    hide L.LongestAt, Matches, Somewhere, Parsed, Plain, Unmisled, Formed, TextOk;
    if r == MISMATCH {
      forall s: nat | start <= s <= |x.text| ensures !Somewhere(n, ml, x, s) { LongestMatch(n, ml, x, cfg, s); }
    } else {
      LongestMatch(n, ml, x, cfg, r);
      var len := L.LongestAt(n, ml, x, cfg, r);
      forall s: nat, e: nat | start <= s <= |x.text| && Matches(n, ml, x, s, e)
        ensures e - s <= len && (s < r ==> e - s < len)
      {
        LongestMatch(n, ml, x, cfg, s);
      }
      assert NoneLonger(n, ml, x, start, r, len);
    }
  }

  /** onig_search with FIND_LONGEST: where the longest match of all begins, or an error as above. */
  method OnigSearchLongest(n: Node, ml: bool, cfg: Cfg, base: nat, x: Subject, start: nat) returns (r: int)
    requires Parsed(n) && Plain(n) && Unmisled(n) && TextOk(x)
    requires Dependable(SetupTree(n, false), ml)
    ensures r == Regex.ONIGERR_MEMORY <==> Refuses(OptNode(SetupTree(n, false), ZERO, ml))
    ensures r != Regex.ONIGERR_MEMORY ==> LongestPlace(n, ml, x, start, r)
    ensures Keeps(n) ==> LongestPlace(n, ml, x, start, r)
  {
    hide *;
    Plainly();
    r := Regex.SearchLongest(n, ml, cfg, base, x, start, LONGEST);
    if r != Regex.ONIGERR_MEMORY { PlaceMatches(n, ml, x, cfg, start, r); }
  }
}
