/** The spans of the groups in a finished tree are spans of the same groups in the parse tree: set-up adds none. */
module SourceSpans {
  import opened Regint
  import opened Regparse
  import opened Regcomp
  import opened Machine
  import opened Meaning
  import opened Lengths
  import opened Setup
  import opened SetupMeaning
  import opened SetupCorrect
  import opened Spans

  /** A peeking loop has no end that the loop does not have. */
  lemma {:induction false} PeekSub(t: Node, q: Rep, ml: bool, x: Subject, cfg: Cfg, k: nat, s: nat, e: nat)
    requires Formed(t) && RepOk(q) && s <= |x.text| && e in EndsRep(t, q, ml, x, cfg, k, s)
    ensures e in EndsRep(t, NoPeek(q), ml, x, cfg, k, s)
    decreases Left(q, k), |x.text| - s, 1, 0
  {
    hide Formed, Ends, EndsEach, CompileLength, FormOf, Entered, Leavable, EndsRep;
    RepCases(t, q, ml, x, cfg, k, s);
    RepCases(t, NoPeek(q), ml, x, cfg, k, s);
    PeekEntered(t, q, x, cfg, s);
    if !UpperReached(q, k) {
      var es := Ends(t, ml, x, cfg, s);
      if e in EndsEach(t, q, ml, x, cfg, k + 1, es, s) { PeekEachSub(t, q, ml, x, cfg, k + 1, es, s, e); }
    }
  }

  lemma {:induction false} PeekEachSub(t: Node, q: Rep, ml: bool, x: Subject, cfg: Cfg, k: nat, es: seq<nat>, s: nat,
                                       e: nat)
    requires Formed(t) && RepOk(q) && s <= |x.text| && Bounded(es, x) && k > 0 && !UpperReached(q, k - 1)
    requires e in EndsEach(t, q, ml, x, cfg, k, es, s)
    ensures e in EndsEach(t, NoPeek(q), ml, x, cfg, k, es, s)
    decreases Left(q, k - 1), |x.text| - s, 0, |es|
  {
    hide Formed, Ends, EndsRep, EndsEach, CompileLength, FormOf, Checked, Onward;
    EachSplit(t, q, ml, x, cfg, k, es, s);
    EachSplit(t, NoPeek(q), ml, x, cfg, k, es, s);
    if e in Onward(t, q, ml, x, cfg, k, es[0], s) {
      PeekOneSub(t, q, ml, x, cfg, k, es[0], s, e);
    } else {
      PeekEachSub(t, q, ml, x, cfg, k, es[1..], s, e);
    }
  }

  lemma {:induction false} PeekOneSub(t: Node, q: Rep, ml: bool, x: Subject, cfg: Cfg, k: nat, m: nat, s: nat, e: nat)
    requires Formed(t) && RepOk(q) && s <= |x.text| && m <= |x.text| && k > 0 && !UpperReached(q, k - 1)
    requires e in Onward(t, q, ml, x, cfg, k, m, s)
    ensures e in Onward(t, NoPeek(q), ml, x, cfg, k, m, s)
    decreases Left(q, k - 1), |x.text| - s, 0, 0
  {
    hide Formed, Ends, EndsRep, CompileLength, FormOf, Checked;
    PeekChecked(t, q, cfg, k - 1);
    if m > s || !Checked(t, q, cfg, k - 1) {
      LeftFalls(t, q, cfg, k - 1);
      PeekSub(t, q, ml, x, cfg, k, m, e);
    }
  }

  /** next_setup adds no end. */
  lemma {:induction false} NextSub(n: Node, next: Node, ml: bool, x: Subject, cfg: Cfg, s: nat, e: nat)
    requires Formed(n) && Formed(NextSetup(n, next)) && TopPlain(n) && s <= |x.text|
    requires e in Ends(NextSetup(n, next), ml, x, cfg, s)
    ensures e in Ends(n, ml, x, cfg, s)
    decreases n
  {
    hide EndsRep, EndsSimple, Possessive, Head, CompileLength;
    match n
    case Quant(t, q) =>
      if q.greedy && Infinite(q.upper) {
        if Possessive(t, q, next) {
          PossessSub(t, q, next, ml, x, cfg, s, e);
        } else {
          PeekSub(t, q.(nextHead := HeadString(next)), ml, x, cfg, 0, s, e);
        }
      }
    case Group(_, b) => NextSub(b, next, ml, x, cfg, s, e);
    case _ =>
  }

  lemma PossessSub(t: Node, q: Rep, next: Node, ml: bool, x: Subject, cfg: Cfg, s: nat, e: nat)
    requires Formed(t) && RepOk(q) && TopPlain(Quant(t, q)) && s <= |x.text|
    requires q.greedy && Infinite(q.upper) && Possessive(t, q, next) && e in EndsSimple(t, q.lower, ml, x, cfg, 0, s)
    ensures e in EndsRep(t, q, ml, x, cfg, 0, s)
  {
    hide EndsRep, EndsSimple, Ends;
    assert t != Str([]);
    SimpleIsFirst(t, q, ml, x, cfg, 0, s);
  }

  lemma {:induction false} NextSpan(n: Node, next: Node, ml: bool, x: Subject, cfg: Cfg, k: nat, a: nat, e: nat)
    requires Formed(n) && Formed(NextSetup(n, next)) && TopPlain(n)
    requires GroupSpan(NextSetup(n, next), ml, x, cfg, k, a, e)
    ensures GroupSpan(n, ml, x, cfg, k, a, e)
    decreases n
  {
    hide Ends, Possessive, Head;
    if n.Group? {
      if GroupSpan(NextSetup(n.body, next), ml, x, cfg, k, a, e) {
        NextSpan(n.body, next, ml, x, cfg, k, a, e);
      } else {
        NextSub(n.body, next, ml, x, cfg, a, e);
      }
    }
  }

  lemma QuantSpan(t: Node, q: Rep, ml: bool, x: Subject, cfg: Cfg, k: nat, a: nat, e: nat)
    requires Formed(t) && Formed(QuantSetup(t, q)) && GroupSpan(QuantSetup(t, q), ml, x, cfg, k, a, e)
    ensures GroupSpan(t, ml, x, cfg, k, a, e)
  {
    hide Ends, Head, Repeated;
  }

  /** Where no loop is misled, a span in the finished tree is one in the parse tree. */
  lemma {:induction false} SetupSpan(n: Node, inside: bool, ml: bool, x: Subject, cfg: Cfg, k: nat, a: nat, e: nat)
    requires Parsed(n) && Unmisled(n) && Formed(n) && Formed(SetupTree(n, inside))
    requires GroupSpan(SetupTree(n, inside), ml, x, cfg, k, a, e)
    ensures GroupSpan(n, ml, x, cfg, k, a, e)
    decreases n, 1
  {
    hide Ends, QuantSetup, SetRep, MinLen, Misleads;
    match n
    case List(ns) => ListSpan(ns, inside, ml, x, cfg, k, a, e);
    case Alt(ns) => AltSpan(ns, inside, ml, x, cfg, k, a, e);
    case Quant(t, q) =>
      SetupFormed(t, true);
      QuantSpan(SetupTree(t, true), SetRep(t, q, inside), ml, x, cfg, k, a, e);
      SetupSpan(t, true, ml, x, cfg, k, a, e);
    case Group(k', b) =>
      if GroupSpan(SetupTree(b, inside), ml, x, cfg, k, a, e) {
        SetupSpan(b, inside, ml, x, cfg, k, a, e);
      } else {
        SetupEnds(b, inside, ml, x, cfg, a);
      }
    case OptionNode(ml', b) => SetupSpan(b, inside, ml', x, cfg, k, a, e);
    case Atomic(_, b) => SetupSpan(b, inside, ml, x, cfg, k, a, e);
    case Look(_, _, b) => SetupSpan(b, inside, ml, x, cfg, k, a, e);
    case _ =>
  }

  lemma {:induction false} ListSpan(ns: Nodes, inside: bool, ml: bool, x: Subject, cfg: Cfg, k: nat, a: nat, e: nat)
    requires AllParsed(ns) && AllUnmisled(ns) && AllFormed(ns) && AllFormed(SetupList(ns, inside))
    requires AllSpan(SetupList(ns, inside), ml, x, cfg, k, a, e)
    ensures AllSpan(ns, ml, x, cfg, k, a, e)
    decreases ns, 0
  {
    hide Ends, NextSetup, SetupTree, GroupSpan, Parsed, Unmisled, Formed;
    match ns
    case Last(n) => SetupSpan(n, inside, ml, x, cfg, k, a, e);
    case Cons(n, rest) =>
      var n1, next := SetupTree(n, inside), SetupTree(rest.left, inside);
      SetupFormed(n, inside);
      SetupTop(n, inside);
      if GroupSpan(NextSetup(n1, next), ml, x, cfg, k, a, e) {
        NextSpan(n1, next, ml, x, cfg, k, a, e);
        SetupSpan(n, inside, ml, x, cfg, k, a, e);
      } else {
        ListSpan(rest, inside, ml, x, cfg, k, a, e);
      }
  }

  lemma {:induction false} AltSpan(ns: Nodes, inside: bool, ml: bool, x: Subject, cfg: Cfg, k: nat, a: nat, e: nat)
    requires AllParsed(ns) && AllUnmisled(ns) && AllFormed(ns) && AllFormed(SetupAlt(ns, inside))
    requires AllSpan(SetupAlt(ns, inside), ml, x, cfg, k, a, e)
    ensures AllSpan(ns, ml, x, cfg, k, a, e)
    decreases ns, 0
  {
    hide Ends, SetupTree, GroupSpan, Parsed, Unmisled, Formed;
    if GroupSpan(SetupTree(ns.left, inside), ml, x, cfg, k, a, e) {
      SetupSpan(ns.left, inside, ml, x, cfg, k, a, e);
    } else {
      AltSpan(ns.right, inside, ml, x, cfg, k, a, e);
    }
  }
}
