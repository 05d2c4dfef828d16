/** setup_tree keeps the meaning of every tree. */
module SetupCorrect {
  import opened Regint
  import opened Regparse
  import opened Regcomp
  import opened Machine
  import opened Meaning
  import opened Lengths
  import opened LengthSound
  import opened Setup
  import opened SetupMeaning
  import opened SetupReady

  // ----- well-formedness -----

  lemma {:induction false} ParsedFormed(n: Node)
    requires Parsed(n)
    ensures Formed(n)
  {
    match n
    case List(ns) => AllParsedFormed(ns);
    case Alt(ns) => AllParsedFormed(ns);
    case Quant(t, _) => ParsedFormed(t);
    case Group(_, b) => ParsedFormed(b);
    case OptionNode(_, b) => ParsedFormed(b);
    case Atomic(_, b) => ParsedFormed(b);
    case Look(_, _, b) => ParsedFormed(b);
    case _ =>
  }

  lemma {:induction false} AllParsedFormed(ns: Nodes)
    requires AllParsed(ns)
    ensures AllFormed(ns)
  {
    ParsedFormed(ns.left);
    if ns.Cons? { AllParsedFormed(ns.right); }
  }

  lemma {:induction false} NextFormed(n: Node, next: Node)
    requires Formed(n)
    ensures Formed(NextSetup(n, next))
  {
    if n.Group? { NextFormed(n.body, next); }
  }

  lemma {:induction false} SetupFormed(n: Node, inside: bool)
    requires Parsed(n)
    ensures Formed(SetupTree(n, inside))
  {
    match n
    case List(ns) => ListFormed(ns, inside);
    case Alt(ns) => AltFormed(ns, inside);
    case Quant(t, q) => SetupFormed(t, true);
    case Group(_, b) => SetupFormed(b, inside);
    case OptionNode(_, b) => SetupFormed(b, inside);
    case Atomic(_, b) => SetupFormed(b, inside);
    case Look(_, _, b) => SetupFormed(b, inside);
    case _ =>
  }

  lemma {:induction false} ListFormed(ns: Nodes, inside: bool)
    requires AllParsed(ns)
    ensures AllFormed(SetupList(ns, inside))
  {
    SetupFormed(ns.left, inside);
    if ns.Cons? {
      ListFormed(ns.right, inside);
      NextFormed(SetupTree(ns.left, inside), SetupTree(ns.right.left, inside));
    }
  }

  lemma {:induction false} AltFormed(ns: Nodes, inside: bool)
    requires AllParsed(ns)
    ensures AllFormed(SetupAlt(ns, inside))
  {
    SetupFormed(ns.left, inside);
    if ns.Cons? { AltFormed(ns.right, inside); }
  }

  // ----- repeats of bodies that mean the same -----

  ghost predicate SameEnds(t: Node, t': Node, ml: bool, x: Subject, cfg: Cfg)
    requires Formed(t) && Formed(t')
  {
    forall s: nat :: s <= |x.text| ==> Ends(t, ml, x, cfg, s) == Ends(t', ml, x, cfg, s)
  }

  /** The same bounds; the second may have a head, if it is a true one. */
  predicate SameLoop(q: Rep, t': Node, q': Rep) {
    && q.lower == q'.lower && q.upper == q'.upper && q.greedy == q'.greedy
    && q.headExact.None? && q.nextHead.None? && q'.nextHead.None? && HeadTrue(t', q')
  }

  ghost predicate SameCheck(t: Node, q: Rep, t': Node, q': Rep, cfg: Cfg)
    requires Formed(t) && Formed(t')
  {
    forall k: nat :: Checked(t, q, cfg, k) == Checked(t', q', cfg, k)
  }

  ghost predicate SameRepeat(t: Node, q: Rep, t': Node, q': Rep, ml: bool, x: Subject, cfg: Cfg) {
    && Formed(t) && Formed(t') && RepOk(q) && RepOk(q') && SameLoop(q, t', q') && SameCheck(t, q, t', q', cfg)
    && SameEnds(t, t', ml, x, cfg)
  }

  /** Where a loop with a true head does not look further, its body would not match. */
  lemma NotEntered(t: Node, q: Rep, ml: bool, x: Subject, cfg: Cfg, s: nat)
    requires Formed(t) && RepOk(q) && HeadTrue(t, q) && s <= |x.text| && !Entered(t, q, x, cfg, s)
    ensures Ends(t, ml, x, cfg, s) == [] && q.greedy
  {
    hide Ends, Formed, Lead, CompileLength;
    assert FormOf(t, q, CompileLength(t, cfg)).PushLoop?;
    if Ends(t, ml, x, cfg, s) != [] {
      LeadSound(t, true, ml, x, cfg, s);
      FirstByte(Str(q.headExact.value), x, s);
    }
  }

  lemma {:induction false} RepSame(t: Node, q: Rep, t': Node, q': Rep, ml: bool, x: Subject, cfg: Cfg, k: nat, s: nat)
    requires SameRepeat(t, q, t', q', ml, x, cfg) && s <= |x.text|
    ensures EndsRep(t, q, ml, x, cfg, k, s) == EndsRep(t', q', ml, x, cfg, k, s)
    decreases Left(q, k), |x.text| - s, 1, 0
  {
    hide Ends, EndsRep, EndsEach, CompileLength, FormOf, Formed, RepOk, HeadTrue, Entered, Checked, SameCheck;
    var es := Ends(t, ml, x, cfg, s);
    assert es == Ends(t', ml, x, cfg, s);
    RepUnfold(t, q, ml, x, cfg, k, s);
    RepUnfold(t', q', ml, x, cfg, k, s);
    if !UpperReached(q, k) {
      EachSame(t, q, t', q', ml, x, cfg, k + 1, es, s);
      if k >= q.lower && !Entered(t', q', x, cfg, s) {
        NotEntered(t', q', ml, x, cfg, s);
        EachSplit(t, q, ml, x, cfg, k + 1, [], s);
      }
    }
  }

  /** A repeat that does not peek. */
  lemma RepUnfold(t: Node, q: Rep, ml: bool, x: Subject, cfg: Cfg, k: nat, s: nat)
    requires Formed(t) && RepOk(q) && q.nextHead.None? && s <= |x.text|
    ensures q.headExact.None? ==> Entered(t, q, x, cfg, s)
    ensures EndsRep(t, q, ml, x, cfg, k, s) ==
            if UpperReached(q, k) then [s]
            else
              var more := EndsEach(t, q, ml, x, cfg, k + 1, Ends(t, ml, x, cfg, s), s);
              if k < q.lower then more
              else if !Entered(t, q, x, cfg, s) then [s]
              else if q.greedy then more + [s]
              else [s] + more
  {
    hide Formed, Ends, EndsEach, CompileLength, FormOf;
  }

  lemma SameParts(t: Node, q: Rep, t': Node, q': Rep, ml: bool, x: Subject, cfg: Cfg)
    requires SameRepeat(t, q, t', q', ml, x, cfg)
    ensures Formed(t) && Formed(t') && RepOk(q) && RepOk(q') && SameCheck(t, q, t', q', cfg)
    ensures q'.lower == q.lower && q'.upper == q.upper
  {
    hide Formed, RepOk, SameCheck, SameEnds, HeadTrue;
  }

  lemma SameNow(t: Node, q: Rep, t': Node, q': Rep, cfg: Cfg, k: nat)
    requires Formed(t) && Formed(t') && SameCheck(t, q, t', q', cfg)
    ensures Checked(t, q, cfg, k) == Checked(t', q', cfg, k)
  {
    hide Formed, Checked;
  }

  lemma OnwardIs(t: Node, q: Rep, ml: bool, x: Subject, cfg: Cfg, k: nat, e: nat, s: nat)
    requires Formed(t) && RepOk(q) && e <= |x.text| && k > 0
    ensures Onward(t, q, ml, x, cfg, k, e, s) ==
            if e <= s && Checked(t, q, cfg, k - 1) then [e] else EndsRep(t, q, ml, x, cfg, k, e)
  {
    hide Formed, RepOk, Checked, EndsRep;
  }

  lemma {:induction false} EachSame(t: Node, q: Rep, t': Node, q': Rep, ml: bool, x: Subject, cfg: Cfg, k: nat,
                                    es: seq<nat>, s: nat)
    requires SameRepeat(t, q, t', q', ml, x, cfg) && s <= |x.text|
    requires Bounded(es, x) && k > 0 && !UpperReached(q, k - 1)
    ensures EndsEach(t, q, ml, x, cfg, k, es, s) == EndsEach(t', q', ml, x, cfg, k, es, s)
    decreases Left(q, k - 1), |x.text| - s, 0, |es|
  {
    hide Formed, Ends, CompileLength, FormOf, SameEnds, EndsRep, EndsEach, HeadTrue, RepOk, Checked, SameLoop;
    hide SameRepeat, Onward;
    SameParts(t, q, t', q', ml, x, cfg);
    EachSplit(t, q, ml, x, cfg, k, es, s);
    EachSplit(t', q', ml, x, cfg, k, es, s);
    if es != [] {
      SameNow(t, q, t', q', cfg, k - 1);
      LeftFalls(t, q, cfg, k - 1);
      OnwardIs(t, q, ml, x, cfg, k, es[0], s);
      OnwardIs(t', q', ml, x, cfg, k, es[0], s);
      if es[0] > s || !Checked(t, q, cfg, k - 1) { RepSame(t, q, t', q', ml, x, cfg, k, es[0]); }
      EachSame(t, q, t', q', ml, x, cfg, k, es[1..], s);
    }
  }

  // ----- repeated strings -----

  lemma HasConcat(x: Subject, s: nat, a: seq<byte>, b: seq<byte>)
    ensures HasAt(x, s, a + b) == (HasAt(x, s, a) && HasAt(x, s + |a|, b))
  {
    if s + |a + b| <= |x.text| {
      var c := x.text[s..s + |a + b|];
      assert c[..|a|] == x.text[s..s + |a|] && c[|a|..] == x.text[s + |a|..s + |a| + |b|];
      assert c == c[..|a|] + c[|a|..];
      if HasAt(x, s, a + b) { assert (a + b)[..|a|] == a && (a + b)[|a|..] == b; }
    }
  }

  lemma Distribute(n: nat, m: nat)
    requires m > 0
    ensures n * m == n + n * (m - 1)
  {
  }

  lemma ExpandStep(t: Node, str: seq<byte>, q: Rep, ml: bool, x: Subject, cfg: Cfg, k: nat, s: nat)
    requires Formed(t) && SameEnds(Str(str), t, ml, x, cfg)
    requires RepOk(q) && q.lower == q.upper && k < q.lower && s <= |x.text|
    ensures var next := EndsRep(t, q, ml, x, cfg, k, s);
            if !HasAt(x, s, str) then next == []
            else
              var e := s + |str|;
              e <= |x.text| && (next == EndsRep(t, q, ml, x, cfg, k + 1, e) || (str == [] && next == [s]))
  {
    hide CompileLength, FormOf, Checked, EndsEach;
    var es := Ends(t, ml, x, cfg, s);
    assert es == Ends(Str(str), ml, x, cfg, s);
    hide Ends, Formed;
    if es == [] {
      EachSplit(t, q, ml, x, cfg, k + 1, es, s);
    } else {
      assert HasAt(x, s, str) && s + |str| <= |x.text|;
      EachOne(t, q, ml, x, cfg, k + 1, s + |str|, s);
    }
  }

  lemma RepeatedStep(str: seq<byte>, m: nat)
    ensures Repeated(str, m) == if m == 0 then [] else str + Repeated(str, m - 1)
  {
  }

  lemma HasNothing(x: Subject, s: nat)
    requires s <= |x.text|
    ensures HasAt(x, s, [])
  {
  }

  lemma ExpandNone(t: Node, q: Rep, ml: bool, x: Subject, cfg: Cfg, s: nat)
    requires Formed(t) && RepOk(q) && q.lower == q.upper && s <= |x.text|
    ensures EndsRep(t, q, ml, x, cfg, q.lower, s) == [s]
  {
    hide CompileLength, FormOf, Formed;
  }

  /** X{n,n} written out n times. */
  lemma {:induction false} ExpandEnds(t: Node, str: seq<byte>, q: Rep, ml: bool, x: Subject, cfg: Cfg, k: nat, s: nat)
    requires Formed(t) && SameEnds(Str(str), t, ml, x, cfg)
    requires RepOk(q) && q.lower == q.upper && k <= q.lower && s <= |x.text|
    ensures EndsRep(t, q, ml, x, cfg, k, s) ==
            One(HasAt(x, s, Repeated(str, q.lower - k)), s + |str| * (q.lower - k))
    decreases q.lower - k
  {
    hide EndsRep, HasAt, Repeated, SameEnds, Formed;
    var m := q.lower - k;
    RepeatedStep(str, m);
    HasNothing(x, s);
    if m == 0 {
      ExpandNone(t, q, ml, x, cfg, s);
    } else {
      ExpandStep(t, str, q, ml, x, cfg, k, s);
      HasConcat(x, s, str, Repeated(str, m - 1));
      Distribute(|str|, m);
      if HasAt(x, s, str) { ExpandEnds(t, str, q, ml, x, cfg, k + 1, s + |str|); }
      if str == [] { EmptyRepeated(m); }
    }
  }

  lemma {:induction false} EmptyRepeated(m: nat)
    ensures Repeated([], m) == []
  {
  }

  // ----- the next node -----

  /** Where the rest can go on, the heads of the next node match. */
  ghost predicate HeadsLive(next: Node, x: Subject, live: set<nat>) {
    forall e :: e in live ==> NextAt(next, true, x, e) && NextAt(next, false, x, e)
  }

  predicate NextAt(next: Node, exact: bool, x: Subject, e: nat) {
    Head(next, exact).Some? ==> HeadAt(Head(next, exact).value, x, e)
  }

  /** Repeats that next_setup can reach do not peek yet, and those of simple bodies have no heads. */
  predicate TopPlain(n: Node) {
    match n
    case Quant(t, q) => q.nextHead.None? && (IsSimple(t) && t != Str([]) ==> q.headExact.None?)
    case Group(_, b) => TopPlain(b)
    case _ => true
  }

  /** next_setup gives up only ends from which the next node cannot match. */
  lemma {:induction false} NextPrune(n: Node, next: Node, ml: bool, x: Subject, cfg: Cfg, s: nat, live: set<nat>)
    requires Formed(n) && Formed(NextSetup(n, next)) && TopPlain(n) && HeadsLive(next, x, live) && s <= |x.text|
    ensures Prune(Ends(NextSetup(n, next), ml, x, cfg, s), live) == Prune(Ends(n, ml, x, cfg, s), live)
    decreases n
  {
    match n
    case Quant(t, q) =>
      if q.greedy && Infinite(q.upper) {
        if Possessive(t, q, next) {
          PossessNext(t, q, next, ml, x, cfg, s, live);
        } else {
          PeekNext(t, q, next, ml, x, cfg, s, live);
        }
      }
    case Group(_, b) => NextPrune(b, next, ml, x, cfg, s, live);
    case _ =>
  }

  lemma PossessNext(t: Node, q: Rep, next: Node, ml: bool, x: Subject, cfg: Cfg, s: nat, live: set<nat>)
    requires Formed(t) && RepOk(q) && q.headExact.None? && q.nextHead.None? && q.greedy && Infinite(q.upper)
             && s <= |x.text|
    requires Possessive(t, q, next) && HeadsLive(next, x, live)
    ensures Prune(EndsSimple(t, q.lower, ml, x, cfg, 0, s), live) == Prune(EndsRep(t, q, ml, x, cfg, 0, s), live)
  {
    var h := Head(next, false).value;
    forall e | e in live ensures HeadAt(h, x, e) { assert NextAt(next, false, x, e); }
    assert Head(t, false).value == t;
    PossessRep(t, q, h, ml, x, cfg, 0, s, live);
  }

  lemma PeekNext(t: Node, q: Rep, next: Node, ml: bool, x: Subject, cfg: Cfg, s: nat, live: set<nat>)
    requires Formed(t) && RepOk(q) && q.nextHead.None? && s <= |x.text| && HeadsLive(next, x, live)
    requires RepOk(q.(nextHead := HeadString(next)))
    ensures Prune(EndsRep(t, q.(nextHead := HeadString(next)), ml, x, cfg, 0, s), live) ==
            Prune(EndsRep(t, q, ml, x, cfg, 0, s), live)
  {
    var q' := q.(nextHead := HeadString(next));
    if q'.nextHead.Some? {
      forall e | e in live ensures e < |x.text| && x.text[e] == q'.nextHead.value[0] {
        assert NextAt(next, true, x, e);
        FirstByte(Head(next, true).value, x, e);
      }
    }
    PeekRep(t, q', ml, x, cfg, 0, s, live);
    assert NoPeek(q') == q;
  }

  // ----- heads after set-up -----

  lemma {:induction false} NextTrue(n: Node, next: Node)
    requires TrueHeads(n)
    ensures TrueHeads(NextSetup(n, next))
  {
    if n.Group? { NextTrue(n.body, next); }
  }

  lemma QuantTrue(t: Node, q: Rep)
    requires Formed(t) && TrueHeads(t) && q.headExact.None? && !Misleads(t, q)
    ensures TrueHeads(QuantSetup(t, q))
  {
    hide Formed;
    if q.greedy && q.emptyInfo != IsNotEmpty {
      if t.Quant? {
        if t.q.headExact.Some? {
          var inner := Quant(t.target, t.q.(headExact := None));
          assert TrueHeads(inner);
          assert Lead(inner, true) == if t.q.lower == 0 then None else Lead(t.target, true);
        }
      } else {
        HeadIsLead(t, true);
      }
    }
  }

  lemma {:induction false} SetupTrue(n: Node, inside: bool)
    requires Parsed(n) && Unmisled(n)
    ensures TrueHeads(SetupTree(n, inside))
  {
    match n
    case List(ns) => ListTrue(ns, inside);
    case Alt(ns) => AltTrue(ns, inside);
    case Quant(t, q) =>
      SetupTrue(t, true);
      SetupFormed(t, true);
      QuantTrue(SetupTree(t, true), SetRep(t, q, inside));
    case Group(_, b) => SetupTrue(b, inside);
    case OptionNode(_, b) => SetupTrue(b, inside);
    case Atomic(_, b) => SetupTrue(b, inside);
    case Look(_, _, b) => SetupTrue(b, inside);
    case _ =>
  }

  lemma {:induction false} ListTrue(ns: Nodes, inside: bool)
    requires AllParsed(ns) && AllUnmisled(ns)
    ensures AllTrueHeads(SetupList(ns, inside))
  {
    SetupTrue(ns.left, inside);
    if ns.Cons? {
      ListTrue(ns.right, inside);
      NextTrue(SetupTree(ns.left, inside), SetupTree(ns.right.left, inside));
    }
  }

  lemma {:induction false} AltTrue(ns: Nodes, inside: bool)
    requires AllParsed(ns) && AllUnmisled(ns)
    ensures AllTrueHeads(SetupAlt(ns, inside))
  {
    SetupTrue(ns.left, inside);
    if ns.Cons? { AltTrue(ns.right, inside); }
  }

  lemma {:induction false} SetupTop(n: Node, inside: bool)
    requires Parsed(n)
    ensures TopPlain(SetupTree(n, inside))
  {
    match n
    case Quant(t, q) =>
      SetupMin(t, true);
      SetupShort(t, true);
      QuantTop(SetupTree(t, true), SetRep(t, q, inside));
    case Group(_, b) => SetupTop(b, inside);
    case _ =>
  }

  lemma QuantTop(t: Node, q: Rep)
    requires q.nextHead.None? && q.headExact.None? && (q.emptyInfo != IsNotEmpty ==> MinLen(t) == 0)
    requires t.Str? ==> |t.s| < TWO32
    ensures TopPlain(QuantSetup(t, q))
  {
  }

  // ----- the tree -----

  /** Whether the set-up repeat is checked is what the meaning of the parsed one asks. */
  lemma SetupChecked(t: Node, q: Rep, inside: bool, cfg: Cfg)
    requires Formed(t) && q.raw
    requires var n := QuantSetup(SetupTree(t, true), SetRep(t, q, inside)); n.Quant? && Formed(n.target)
    ensures var n := QuantSetup(SetupTree(t, true), SetRep(t, q, inside)); SameCheck(t, q, n.target, n.q, cfg)
  {
    hide Formed, SetupTree, CompileLength, Head, Repeated, MinLen, HasMemory;
    var t' := SetupTree(t, true);
    var m, n := QuantSetup(t', SetRep(t, q, false)), QuantSetup(t', SetRep(t, q, inside));
    assert m.Quant? && m.target == n.target && n.q == m.q.(inRepeat := n.q.inRepeat);
    assert NowChecked(m.target, m.q, cfg) == NowChecked(n.target, n.q, cfg);
  }

  /** Without its own head, the inner repeat means the same. */
  lemma HeadDropped(t: Node, ml: bool, x: Subject, cfg: Cfg, s: nat)
    requires t.Quant? && Formed(t) && TrueHeads(t) && t.q.nextHead.None? && !t.q.raw && s <= |x.text|
    ensures var t' := Quant(t.target, t.q.(headExact := None));
            Formed(t') && Ends(t', ml, x, cfg, s) == Ends(t, ml, x, cfg, s)
  {
    hide Formed, EndsRep, TrueHeads, HeadTrue, CompileLength;
    var b, q := t.target, t.q;
    QuantFormed(t);
    RepSame(b, q.(headExact := None), b, q, ml, x, cfg, 0, s);
  }

  lemma QuantFormed(t: Node)
    requires t.Quant? && Formed(t) && TrueHeads(t)
    ensures Formed(t.target) && RepOk(t.q) && HeadTrue(t.target, t.q)
    ensures Formed(Quant(t.target, t.q.(headExact := None)))
  {
  }

  lemma SetupQuantIs(t: Node, q: Rep, inside: bool)
    requires Parsed(Quant(t, q)) && Unmisled(Quant(t, q))
    ensures SetupTree(Quant(t, q), inside) == QuantSetup(SetupTree(t, true), SetRep(t, q, inside))
    ensures Parsed(t) && Unmisled(t) && RepOk(q) && q.raw && q.headExact.None? && q.nextHead.None?
    ensures var t', q' := SetupTree(t, true), SetRep(t, q, inside);
            var n := QuantSetup(t', q');
            && q'.lower == q.lower && q'.upper == q.upper && q'.greedy == q.greedy && !q'.raw
            && if Expands(t', q') then n == Str(Repeated(t'.s, q.lower)) && q.lower == q.upper
               else
                 && n.Quant? && n.q.lower == q.lower && n.q.upper == q.upper && n.q.greedy == q.greedy
                 && n.q.nextHead.None?
                 && (n.target != t' ==> t'.Quant? && n.target == Quant(t'.target, t'.q.(headExact := None)))
                 && (t'.Quant? ==> t'.q.nextHead.None? && !t'.q.raw)
  {
    hide MinLen, HasMemory, Head;
    SetupTop(t, true);
    SetupNotRaw(t, true);
  }

  lemma SetupNotRaw(t: Node, inside: bool)
    ensures SetupTree(t, inside).Quant? ==> !SetupTree(t, inside).q.raw
  {
  }

  lemma QuantResult(n: Node, ml: bool, x: Subject, cfg: Cfg, s: nat)
    requires Formed(n) && s <= |x.text|
    ensures n.Quant? ==>
              && Formed(n.target) && RepOk(n.q)
              && Ends(n, ml, x, cfg, s) == EndsRep(n.target, n.q, ml, x, cfg, 0, s)
    ensures n.Str? ==> Ends(n, ml, x, cfg, s) == One(HasAt(x, s, n.s), s + |n.s|)
  {
  }

  /** The set-up repeat, body and bounds: it means what the parsed one does. */
  lemma SetupQuantEnds(t: Node, q: Rep, inside: bool, ml: bool, x: Subject, cfg: Cfg, s: nat)
    requires Parsed(Quant(t, q)) && Unmisled(Quant(t, q)) && Formed(t) && s <= |x.text|
    requires Formed(SetupTree(t, true)) && SameEnds(t, SetupTree(t, true), ml, x, cfg)
    requires Formed(SetupTree(Quant(t, q), inside))
    ensures Ends(SetupTree(Quant(t, q), inside), ml, x, cfg, s) == EndsRep(t, q, ml, x, cfg, 0, s)
  {
    hide Formed, Ends, EndsRep, SetupTree, CompileLength, TrueHeads, Head, Unmisled, Parsed, Misleads, MinLen,
      HasMemory;
    hide RepOk, SetRep, QuantSetup, SameCheck;
    var t', q' := SetupTree(t, true), SetRep(t, q, inside);
    var n := QuantSetup(t', q');
    SetupQuantIs(t, q, inside);
    SetupTrue(Quant(t, q), inside);
    SetupTrue(t, true);
    QuantResult(n, ml, x, cfg, s);
    if Expands(t', q') {
      ExpandEnds(t, t'.s, q, ml, x, cfg, 0, s);
    } else {
      SetupChecked(t, q, inside, cfg);
      forall e: nat | e <= |x.text| ensures Ends(t, ml, x, cfg, e) == Ends(n.target, ml, x, cfg, e) {
        if n.target != t' { HeadDropped(t', ml, x, cfg, e); }
      }
      QuantFormed(n);
      RepSame(t, q, n.target, n.q, ml, x, cfg, 0, s);
    }
  }

  lemma SetupAtomicEnds(b: Node, b': Node, ml: bool, x: Subject, cfg: Cfg, s: nat)
    requires Formed(b) && Formed(b') && TopPlain(b') && s <= |x.text|
             && Ends(b', ml, x, cfg, s) == Ends(b, ml, x, cfg, s)
    requires SimpleAtomic(b') ==> b'.target != Str([])
    ensures Ends(Atomic(SimpleAtomic(b'), b'), ml, x, cfg, s) == Ends(Atomic(false, b), ml, x, cfg, s)
  {
    hide CompileLength;
    if SimpleAtomic(b') { SimpleIsFirst(b'.target, b'.q, ml, x, cfg, 0, s); }
  }

  /** Alternatives and repeats under set-up leave an infinite greedy repeat of a simple body only where there
      was one. */
  lemma EmptyLoopSetup(b: Node, inside: bool)
    requires Parsed(b) && SimpleAtomic(SetupTree(b, inside)) && !EmptyLoop(b)
    ensures SetupTree(b, inside).target != Str([])
  {
  }

  /** setup_tree keeps the ordered results of every tree whose loops are not misled. */
  lemma {:induction false} SetupEnds(n: Node, inside: bool, ml: bool, x: Subject, cfg: Cfg, s: nat)
    requires Parsed(n) && Unmisled(n) && Formed(n) && Formed(SetupTree(n, inside)) && s <= |x.text|
    ensures Ends(SetupTree(n, inside), ml, x, cfg, s) == Ends(n, ml, x, cfg, s)
    decreases n, 1
  {
    hide CompileLength, EndsRep, EndsEach, EndsSimple, QuantSetup, MinLen, Misleads, ParsedRep, RawRep, BehindOk, HasAt,
      AtAnchor, EndsList, EndsAlt, SetRep;
    match n
    case List(ns) => SetupListEnds(ns, inside, ml, x, cfg, s);
    case Alt(ns) => SetupAltEnds(ns, inside, ml, x, cfg, s);
    case Quant(t, q) =>
      SetupFormed(t, true);
      forall e: nat | e <= |x.text| ensures Ends(t, ml, x, cfg, e) == Ends(SetupTree(t, true), ml, x, cfg, e) {
        SetupEnds(t, true, ml, x, cfg, e);
      }
      SetupQuantEnds(t, q, inside, ml, x, cfg, s);
    case Group(_, b) => SetupEnds(b, inside, ml, x, cfg, s);
    case OptionNode(ml', b) => SetupEnds(b, inside, ml', x, cfg, s);
    case Atomic(_, b) =>
      SetupEnds(b, inside, ml, x, cfg, s);
      SetupTop(b, inside);
      if SimpleAtomic(SetupTree(b, inside)) { EmptyLoopSetup(b, inside); }
      SetupAtomicEnds(b, SetupTree(b, inside), ml, x, cfg, s);
    case Look(k, len, b) =>
      if k.PrecRead? || k.PrecReadNot? { SetupEnds(b, inside, ml, x, cfg, s); }
      else if s >= len { SetupEnds(b, inside, ml, x, cfg, s - len); }
    case _ =>
  }

  lemma {:induction false} SetupAltEnds(ns: Nodes, inside: bool, ml: bool, x: Subject, cfg: Cfg, s: nat)
    requires AllParsed(ns) && AllUnmisled(ns) && AllFormed(ns) && AllFormed(SetupAlt(ns, inside))
    requires s <= |x.text|
    ensures EndsAlt(SetupAlt(ns, inside), ml, x, cfg, s) == EndsAlt(ns, ml, x, cfg, s)
    decreases ns, 0
  {
    hide Ends, CompileLength;
    SetupEnds(ns.left, inside, ml, x, cfg, s);
    if ns.Cons? { SetupAltEnds(ns.right, inside, ml, x, cfg, s); }
  }

  lemma {:induction false} ListAllSame(ns: Nodes, ns': Nodes, ml: bool, x: Subject, cfg: Cfg, from: seq<nat>)
    requires AllFormed(ns) && AllFormed(ns') && Bounded(from, x)
    requires forall e: nat :: e <= |x.text| ==> EndsList(ns, ml, x, cfg, e) == EndsList(ns', ml, x, cfg, e)
    ensures EndsListAll(ns, ml, x, cfg, from) == EndsListAll(ns', ml, x, cfg, from)
    decreases |from|
  {
    hide EndsList;
    if from != [] { ListAllSame(ns, ns', ml, x, cfg, from[1..]); }
  }

  lemma LiveHeads(rest: Nodes, next: Node, ml: bool, x: Subject, cfg: Cfg, live: set<nat>)
    requires AllFormed(rest) && Formed(next) && TrueHeads(next) && live == Live(rest, ml, x, cfg)
    requires forall e: nat :: e <= |x.text| ==> Ends(next, ml, x, cfg, e) == Ends(rest.left, ml, x, cfg, e)
    ensures HeadsLive(next, x, live)
  {
    hide Ends, Head;
    forall e | e in live ensures NextAt(next, true, x, e) && NextAt(next, false, x, e) {
      ListNeeds(rest, ml, x, cfg, e);
      if Head(next, true).Some? { HeadSound(next, true, ml, x, cfg, e); }
      if Head(next, false).Some? { HeadSound(next, false, ml, x, cfg, e); }
    }
  }

  lemma {:induction false} SetupListEnds(ns: Nodes, inside: bool, ml: bool, x: Subject, cfg: Cfg, s: nat)
    requires AllParsed(ns) && AllUnmisled(ns) && AllFormed(ns) && AllFormed(SetupList(ns, inside))
    requires s <= |x.text|
    ensures EndsList(SetupList(ns, inside), ml, x, cfg, s) == EndsList(ns, ml, x, cfg, s)
    decreases ns, 0
  {
    hide Ends, CompileLength, HeadsLive, Live, Prune, NextSetup, SetupTree, Formed, TrueHeads, Parsed, TopPlain,
      Unmisled;
    match ns
    case Last(n) => SetupEnds(n, inside, ml, x, cfg, s);
    case Cons(n, rest) =>
      var n1, next := SetupTree(n, inside), SetupTree(rest.left, inside);
      var n2, rest' := NextSetup(n1, next), SetupList(rest, inside);
      var live := Live(rest, ml, x, cfg);
      SetupFormed(n, inside); SetupFormed(rest.left, inside);
      SetupTrue(rest.left, inside);
      SetupTop(n, inside);
      SetupEnds(n, inside, ml, x, cfg, s);
      forall e: nat | e <= |x.text| ensures Ends(next, ml, x, cfg, e) == Ends(rest.left, ml, x, cfg, e) {
        SetupEnds(rest.left, inside, ml, x, cfg, e);
      }
      forall e: nat | e <= |x.text| ensures EndsList(rest', ml, x, cfg, e) == EndsList(rest, ml, x, cfg, e) {
        SetupListEnds(rest, inside, ml, x, cfg, e);
      }
      LiveHeads(rest, next, ml, x, cfg, live);
      NextPrune(n1, next, ml, x, cfg, s, live);
      var before, after := Ends(n1, ml, x, cfg, s), Ends(n2, ml, x, cfg, s);
      ListAllSame(rest', rest, ml, x, cfg, after);
      OnlyLive(rest, ml, x, cfg, after);
      OnlyLive(rest, ml, x, cfg, before);
  }
}
