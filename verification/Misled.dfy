/** When set-up loses matches: a loop takes over the head of an inner repeat that may run zero times,
    and something relies on it. */
module Misled {
  import opened Regint
  import opened Regparse
  import opened Regcomp
  import opened Machine
  import opened Setup
  import opened Meaning
  import opened Lengths
  import opened SetupMeaning
  import opened SetupReady
  import opened SetupCorrect

  // ----- trees without heads -----

  /** A tree in which no loop gets a head is not misled. */
  lemma {:induction false} HeadFreeUnmisled(n: Node)
    requires Parsed(n) && HeadFree(n)
    ensures Unmisled(n)
    decreases n, 1
  {
    match n
    case List(ns) => AllHeadFreeUnmisled(ns);
    case Alt(ns) => AllHeadFreeUnmisled(ns);
    case Quant(t, _) =>
      HeadFreeUnmisled(t);
      SetupHeads(t, true, true);
    case Group(_, b) => HeadFreeUnmisled(b);
    case OptionNode(_, b) => HeadFreeUnmisled(b);
    case Atomic(_, b) => HeadFreeUnmisled(b);
    case Look(_, _, b) => HeadFreeUnmisled(b);
    case _ =>
  }

  lemma {:induction false} AllHeadFreeUnmisled(ns: Nodes)
    requires AllParsed(ns) && AllHeadFree(ns)
    ensures AllUnmisled(ns)
    decreases ns, 0
  {
    HeadFreeUnmisled(ns.left);
    if ns.Cons? { AllHeadFreeUnmisled(ns.right); }
  }

  // ----- the empty text -----

  function Nothing(b: byte): Subject { Subject([], b, 0, false) }

  /** A repeat that may run zero times matches. */
  lemma ZeroTimes(t: Node, q: Rep, ml: bool, x: Subject, cfg: Cfg, k: nat, s: nat)
    requires Formed(t) && RepOk(q) && q.nextHead.None? && q.lower <= k && s <= |x.text|
    ensures EndsRep(t, q, ml, x, cfg, k, s) != []
  {
    hide Formed, Ends, EndsEach;
    RepUnfold(t, q, ml, x, cfg, k, s);
  }

  /** A repeat of a body that matches the empty text matches it. */
  lemma {:induction false} RepMatches(t: Node, q: Rep, ml: bool, x: Subject, cfg: Cfg, k: nat)
    requires Formed(t) && RepOk(q) && q.nextHead.None? && x.text == [] && Ends(t, ml, x, cfg, 0) != []
    ensures EndsRep(t, q, ml, x, cfg, k, 0) != []
    decreases q.lower - k
  {
    hide Formed, Ends, EndsRep, EndsEach, Checked, RepOk;
    RepUnfold(t, q, ml, x, cfg, k, 0);
    if q.lower <= k {
      ZeroTimes(t, q, ml, x, cfg, k, 0);
    } else if !UpperReached(q, k) {
      var es := Ends(t, ml, x, cfg, 0);
      EachSplit(t, q, ml, x, cfg, k + 1, es, 0);
      if !Checked(t, q, cfg, k) {
        RepMatches(t, q, ml, x, cfg, k + 1);
        OnwardMoved(t, q, ml, x, cfg, k + 1, es[0], 0);
      }
    }
  }

  /** One round more than a loop that stops at once. */
  lemma TwoResults(t: Node, q: Rep, ml: bool, x: Subject, cfg: Cfg)
    requires Formed(t) && RepOk(q) && q.nextHead.None? && q.headExact.None? && q.greedy && Infinite(q.upper)
    requires x.text == [] && Ends(t, ml, x, cfg, 0) != [] && q.lower == 0
    ensures |EndsRep(t, q, ml, x, cfg, 0, 0)| >= 2
  {
    hide Formed, Ends, EndsRep, EndsEach, RepOk, LaterChecked, NowChecked;
    var es := Ends(t, ml, x, cfg, 0);
    RepUnfold(t, q, ml, x, cfg, 0, 0);
    EachSplit(t, q, ml, x, cfg, 1, es, 0);
  }

  /** A loop with a head stops at once. */
  lemma HeadStops(t: Node, q: Rep, ml: bool, x: Subject, cfg: Cfg)
    requires Formed(t) && RepOk(q) && q.nextHead.None? && q.headExact.Some? && q.greedy && Infinite(q.upper)
    requires x.text == [] && q.lower == 0 && !t.AnyChar?
    ensures EndsRep(t, q, ml, x, cfg, 0, 0) == [0]
  {
    hide Formed, Ends, EndsEach, CompileLength;
    RepUnfold(t, q, ml, x, cfg, 0, 0);
  }

  // ----- a loop in front -----

  const LETTER_A: byte := 0x61
  const LETTER_B: byte := 0x62
  const LETTER_C: byte := 0x63

  function Loop(t: Node, lower: nat, upper: int): Node {
    Quant(t, Rep(lower, upper, true, IsNotEmpty, None, None, false, false, true))
  }

  /** b|c */
  function BorC(): Node { Alt(Cons(Str([LETTER_B]), Last(Str([LETTER_C])))) }

  /** (?:b|c)* */
  function Front(): Node { Loop(BorC(), 0, REPEAT_INFINITE) }

  /** (?:b|c)*n */
  function Behind(n: Node): Node { List(Cons(Front(), Last(n))) }

  function FrontRep(next: Option<seq<byte>>): Rep { SetRep(BorC(), Front().q, false).(nextHead := next) }

  lemma FrontIs()
    ensures Parsed(BorC()) && Parsed(Front()) && Unmisled(BorC()) && Unmisled(Front()) && Formed(BorC())
    ensures SetupTree(BorC(), true) == BorC() && SetupTree(Front(), false) == Quant(BorC(), FrontRep(None))
    ensures Front().q.raw && FrontRep(None).emptyInfo == IsNotEmpty
  {
    var b, c := Str([LETTER_B]), Str([LETTER_C]);
    assert AllParsed(Last(c)) && AllFormed(Last(c)) && AllUnmisled(Last(c));
    assert AllParsed(BorC().items) && AllFormed(BorC().items) && AllUnmisled(BorC().items);
    assert SetupAlt(Last(c), true) == Last(c) && SetupTree(b, true) == b;
    assert SetupTree(BorC(), true) == BorC();
    assert MinLen(b) == 1 && MinLenAlt(Last(c)) == 1 && MinLen(BorC()) == 1;
  }

  /** The front loop on the empty text: it stops unless it waits for something. */
  lemma FrontEnds(q: Rep, ml: bool, x: Subject, cfg: Cfg)
    requires x.text == [] && Formed(BorC()) && RepOk(q) && q.headExact.None? && q.lower == 0 && Infinite(q.upper)
             && q.greedy
    requires q.nextHead.Some? ==> x.atEnd != q.nextHead.value[0]
    ensures Formed(Quant(BorC(), q)) && Ends(Quant(BorC(), q), ml, x, cfg, 0) == One(q.nextHead.None?, 0)
  {
    var b, c := Str([LETTER_B]), Str([LETTER_C]);
    assert Ends(b, ml, x, cfg, 0) == [] && Ends(c, ml, x, cfg, 0) == [];
    assert EndsAlt(Last(c), ml, x, cfg, 0) == [];
    assert Ends(BorC(), ml, x, cfg, 0) == [];
    hide CompileLength;
    EachSplit(BorC(), q, ml, x, cfg, 1, [], 0);
    assert FormOf(BorC(), q, CompileLength(BorC(), cfg)).PushLoop?;
    assert Ends(Quant(BorC(), q), ml, x, cfg, 0) == EndsRep(BorC(), q, ml, x, cfg, 0, 0);
  }

  lemma BehindParsed(n: Node)
    requires Parsed(n)
    ensures Parsed(Behind(n)) && Formed(Behind(n)) && Formed(n)
    ensures Unmisled(n) ==> Unmisled(Behind(n))
  {
    hide Parsed, Formed, Unmisled, Front;
    FrontIs();
    ParsedFormed(n);
    ParsedFormed(Front());
    BehindIs(n);
  }

  lemma BehindIs(n: Node)
    ensures Parsed(Behind(n)) == (Parsed(Front()) && Parsed(n)) && Formed(Behind(n)) == (Formed(Front()) && Formed(n))
    ensures Unmisled(Behind(n)) == (Unmisled(Front()) && Unmisled(n))
    ensures SetupTree(Behind(n), false) == List(Cons(NextSetup(SetupTree(Front(), false), SetupTree(n, false)),
                                                     Last(SetupTree(n, false))))
  {
    hide Front;
    assert SetupList(Last(n), false) == Last(SetupTree(n, false)) && Last(n).left == n;
    assert SetupList(Cons(Front(), Last(n)), false) ==
           Cons(NextSetup(SetupTree(Front(), false), SetupTree(Last(n).left, false)), SetupList(Last(n), false));
    assert AllParsed(Last(n)) == Parsed(n) && AllFormed(Last(n)) == Formed(n) && AllUnmisled(Last(n)) == Unmisled(n);
  }

  lemma TwoEnds(a: Node, n: Node, ml: bool, x: Subject, cfg: Cfg)
    requires Formed(a) && Formed(n) && (Ends(a, ml, x, cfg, 0) == [] || Ends(a, ml, x, cfg, 0) == [0])
    ensures Formed(List(Cons(a, Last(n))))
    ensures Ends(List(Cons(a, Last(n))), ml, x, cfg, 0) ==
            if Ends(a, ml, x, cfg, 0) == [] then [] else Ends(n, ml, x, cfg, 0)
  {
    var rest := Last(n);
    assert AllFormed(rest) && AllFormed(Cons(a, rest));
    assert EndsListAll(rest, ml, x, cfg, []) == [] && [0][1..] == [];
    assert EndsList(rest, ml, x, cfg, 0) == Ends(n, ml, x, cfg, 0);
    if Ends(a, ml, x, cfg, 0) == [0] { assert EndsListAll(rest, ml, x, cfg, [0]) == Ends(n, ml, x, cfg, 0) + []; }
  }

  // ----- the misled loop -----

  /** The set-up loop has taken over the head. */
  lemma MisledIs(t: Node, q: Rep) returns (h: seq<byte>, b: Node, q': Rep)
    requires Parsed(Quant(t, q)) && Misleads(SetupTree(t, true), SetRep(t, q, false)) && Formed(SetupTree(t, true))
    ensures h != [] && SetupTree(Quant(t, q), false) == Quant(b, q') && q'.headExact == Some(h) && q'.nextHead.None?
    ensures q'.lower == q.lower && q'.upper == q.upper && q'.greedy && q.greedy && b.Quant? && RepOk(q) && Parsed(t)
    ensures Head(Quant(b, q'), true) == if q.lower == 0 then None else Some(Str(h))
    ensures q.nextHead.None? && q.headExact.None?
    ensures SetupTree(t, true).Quant? && SetupTree(t, true).q.lower == 0 && SetupTree(t, true).q.nextHead.None?
    ensures Formed(SetupTree(t, true).target) && RepOk(SetupTree(t, true).q)
  {
    hide MinLen, HasMemory;
    SetupTop(t, true);
    var t' := SetupTree(t, true);
    h := t'.q.headExact.value;
    b := Quant(t'.target, t'.q.(headExact := None));
    q' := SetRep(t, q, false).(headExact := Some(h));
  }

  /** The body of a misled loop matches the empty text: its inner repeat need not run. */
  lemma BodyMatches(t: Node, ml: bool, x: Subject, cfg: Cfg)
    requires Parsed(t) && Unmisled(t) && Formed(t) && Formed(SetupTree(t, true)) && x.text == []
    requires var t' := SetupTree(t, true);
             t'.Quant? && t'.q.lower == 0 && t'.q.nextHead.None? && Formed(t'.target) && RepOk(t'.q)
    ensures Ends(t, ml, x, cfg, 0) != []
  {
    var t' := SetupTree(t, true);
    SetupEnds(t, true, ml, x, cfg, 0);
    hide Parsed, Unmisled, Formed, SetupTree, EndsRep, RepOk;
    assert Ends(t', ml, x, cfg, 0) == EndsRep(t'.target, t'.q, ml, x, cfg, 0, 0);
    ZeroTimes(t'.target, t'.q, ml, x, cfg, 0, 0);
  }

  lemma RawEnds(t: Node, q: Rep, ml: bool, x: Subject, cfg: Cfg, s: nat)
    requires Formed(Quant(t, q)) && s <= |x.text|
    ensures Formed(t) && RepOk(q) && Ends(Quant(t, q), ml, x, cfg, s) == EndsRep(t, q, ml, x, cfg, 0, s)
  {
  }

  /** A misled loop that has to run makes the loop in front of it wait for a head that need not be
      there: (?:b|c)* in front of it matches the empty text, but not after set-up. */
  lemma LosesMatch(t: Node, q: Rep, ml: bool, cfg: Cfg) returns (x: Subject)
    requires Parsed(Quant(t, q)) && Unmisled(t) && Misleads(SetupTree(t, true), SetRep(t, q, false)) && q.lower > 0
    ensures var n := Behind(Quant(t, q));
            && Formed(n) && Formed(SetupTree(n, false)) && x.text == []
            && Ends(n, ml, x, cfg, 0) != [] && Ends(SetupTree(n, false), ml, x, cfg, 0) == []
  {
    var m := Quant(t, q);
    BehindParsed(m);
    SetupFormed(Behind(m), false);
    SetupFormed(m, false);
    SetupFormed(t, true);
    var h, b, q' := MisledIs(t, q);
    hide Parsed, Unmisled, Misleads, SetupTree, Ends, EndsRep, Formed, Behind, Head, BorC;
    x := Nothing(if h[0] == 0 then 1 else 0);
    RawEnds(t, q, ml, x, cfg, 0);
    BodyMatches(t, ml, x, cfg);
    RepMatches(t, q, ml, x, cfg, 0);
    FrontIs();
    FrontEnds(Front().q, ml, x, cfg);
    FrontEnds(FrontRep(Some(h)), ml, x, cfg);
    BehindIs(m);
    BehindList(m);
    NextFront(Quant(b, q'), h);
    TwoEnds(Front(), m, ml, x, cfg);
    TwoEnds(Quant(BorC(), FrontRep(Some(h))), Quant(b, q'), ml, x, cfg);
  }

  lemma BehindList(n: Node)
    ensures Behind(n) == List(Cons(Front(), Last(n)))
  {
  }

  lemma NextFront(next: Node, h: seq<byte>)
    requires Head(next, true) == Some(Str(h)) && h != []
    ensures NextSetup(Quant(BorC(), FrontRep(None)), next) == Quant(BorC(), FrontRep(Some(h)))
  {
    hide Head;
    assert HeadString(next) == Some(h);
  }

  // ----- exactly when -----

  /** Set-up keeps the ordered results of n on every text. */
  ghost predicate Kept(n: Node) {
    && Formed(n) && Formed(SetupTree(n, false))
    && forall ml: bool, x: Subject, cfg: Cfg, s: nat :: s <= |x.text| ==>
         Ends(SetupTree(n, false), ml, x, cfg, s) == Ends(n, ml, x, cfg, s)
  }

  lemma UnmisledKept(n: Node)
    requires Parsed(n) && Unmisled(n)
    ensures Kept(n)
  {
    ParsedFormed(n);
    SetupFormed(n, false);
    hide Parsed, Unmisled, Formed, SetupTree, Ends;
    forall ml: bool, x: Subject, cfg: Cfg, s: nat | s <= |x.text|
      ensures Ends(SetupTree(n, false), ml, x, cfg, s) == Ends(n, ml, x, cfg, s)
    {
      SetupEnds(n, false, ml, x, cfg, s);
    }
  }

  /** A repeat, alone and behind another loop, keeps its results exactly when it is not misled. */
  lemma KeptExactly(t: Node, q: Rep)
    requires Parsed(Quant(t, q)) && Unmisled(t)
    ensures Kept(Quant(t, q)) && Kept(Behind(Quant(t, q))) <==> !Misleads(SetupTree(t, true), SetRep(t, q, false))
  {
    var m := Quant(t, q);
    var cfg := Cfg({}, {}, true);
    hide Parsed, Misleads, SetupTree, Formed, Ends, Behind, Kept;
    if Misleads(SetupTree(t, true), SetRep(t, q, false)) {
      if q.lower > 0 {
        var x := LosesMatch(t, q, false, cfg);
        NotKept(Behind(m), false, x, cfg);
      } else {
        FewerResults(t, q, false, cfg);
        NotKept(m, false, Nothing(0), cfg);
      }
    } else {
      assert Unmisled(m);
      BehindParsed(m);
      UnmisledKept(m);
      UnmisledKept(Behind(m));
    }
  }

  lemma NotKept(n: Node, ml: bool, x: Subject, cfg: Cfg)
    requires Formed(n) && Formed(SetupTree(n, false))
    requires Ends(SetupTree(n, false), ml, x, cfg, 0) != Ends(n, ml, x, cfg, 0)
    ensures !Kept(n)
  {
  }

  /** A misled loop that need not run stops where it would have gone round once more. */
  lemma FewerResults(t: Node, q: Rep, ml: bool, cfg: Cfg)
    requires Parsed(Quant(t, q)) && Unmisled(t) && Misleads(SetupTree(t, true), SetRep(t, q, false)) && q.lower == 0
    ensures var n, x := Quant(t, q), Nothing(0);
            && Formed(n) && Formed(SetupTree(n, false))
            && Ends(SetupTree(n, false), ml, x, cfg, 0) == [0] && |Ends(n, ml, x, cfg, 0)| >= 2
  {
    var x := Nothing(0);
    ParsedFormed(Quant(t, q));
    SetupFormed(Quant(t, q), false);
    SetupFormed(t, true);
    var h, b, q' := MisledIs(t, q);
    MisledBound(t, q);
    hide Parsed, Unmisled, Misleads, SetupTree, Ends, EndsRep, Formed, Head;
    RawEnds(t, q, ml, x, cfg, 0);
    RawEnds(b, q', ml, x, cfg, 0);
    BodyMatches(t, ml, x, cfg);
    TwoResults(t, q, ml, x, cfg);
    HeadStops(b, q', ml, x, cfg);
  }

  lemma MisledBound(t: Node, q: Rep)
    requires Misleads(SetupTree(t, true), SetRep(t, q, false))
    ensures q.lower == 0 ==> Infinite(q.upper)
  {
  }

  // ----- an input -----

  /** (?=a) */
  function Ahead(): Node { Look(PrecRead, 0, Str([LETTER_A])) }

  lemma AheadsAre()
    ensures Parsed(Aheads()) && Unmisled(Aheads()) && !InvalidTarget(Aheads()) && !Aheads().Quant? && !Aheads().Str?
    ensures MinLen(Aheads()) == 0 && !HasMemory(Aheads()) && SetupTree(Aheads(), true) == Aheads()
    ensures HeadString(Aheads()) == Some([LETTER_A])
  {
    var n, ns := Ahead(), Last(Ahead());
    assert Parsed(Str([LETTER_A])) && Parsed(n) && AllParsed(ns) && AllParsed(Cons(n, ns));
    assert Unmisled(Str([LETTER_A])) && Unmisled(n) && AllUnmisled(ns) && AllUnmisled(Cons(n, ns));
    assert MinLen(n) == 0 && MinLenList(ns) == 0 && !HasMemory(n) && !AnyMemory(ns);
    assert SetupTree(Str([LETTER_A]), true) == Str([LETTER_A]) && SetupTree(n, true) == n && SetupList(ns, true) == ns;
    assert Head(Str([LETTER_A]), true) == Some(Str([LETTER_A])) && Head(n, true) == Some(Str([LETTER_A]));
    assert HeadOfFirst(Cons(n, ns), true) == Some(Str([LETTER_A]));
  }

  /** (?=a)(?=a): the parser repeats a list, but no single look-ahead. */
  function Aheads(): Node { List(Cons(Ahead(), Last(Ahead()))) }

  /** (?:(?:(?=a)(?=a)){0,3})+ */
  function BadLoop(): Node { Loop(Loop(Aheads(), 0, 3), 1, REPEAT_INFINITE) }

  /** (?:b|c)*(?:(?:(?=a)(?=a)){0,3})+ matches the empty text, but not after set-up. */
  lemma HeadMoves(ml: bool, cfg: Cfg) returns (x: Subject)
    ensures var n := Behind(BadLoop());
            && Parsed(n) && Formed(n) && Formed(SetupTree(n, false)) && x.text == []
            && Ends(n, ml, x, cfg, 0) != [] && Ends(SetupTree(n, false), ml, x, cfg, 0) == []
  {
    var inner := Loop(Aheads(), 0, 3);
    AheadsAre();
    hide Aheads;
    assert MinLen(inner) == 0 && !HasMemory(inner);
    assert Parsed(inner) && Parsed(BadLoop());
    assert SetupTree(inner, true) == Quant(Aheads(), SetRep(Aheads(), inner.q, true).(headExact := Some([LETTER_A])));
    assert Unmisled(inner);
    assert Misleads(SetupTree(inner, true), SetRep(inner, BadLoop().q, false));
    x := LosesMatch(inner, BadLoop().q, ml, cfg);
    BehindParsed(BadLoop());
  }
}
