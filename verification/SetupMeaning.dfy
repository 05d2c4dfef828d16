/** Set-up changes trees, not what they mean: the peeking loops and possessive repeats it makes give
    up only ends from which the rest of the list could not go on. */
module SetupMeaning {
  import opened Regint
  import opened Regparse
  import opened Regcomp
  import opened Machine
  import opened Meaning
  import opened Lengths
  import opened LengthSound
  import opened Setup

  // ----- heads -----

  predicate HeadShape(h: Node) { (h.Str? && h.s != []) || h.CType? || h.CClass? }

  predicate HeadAt(h: Node, x: Subject, s: nat)
    requires HeadShape(h)
  {
    match h
    case Str(str) => HasAt(x, s, str)
    case CType(not) => s < |x.text| && IsWord(x.text[s]) != not
    case CClass(_, _, _, _) => s < |x.text| && InClass(h, x.text[s])
  }

  lemma ListNeeds(ns: Nodes, ml: bool, x: Subject, cfg: Cfg, s: nat)
    requires AllFormed(ns) && s <= |x.text| && EndsList(ns, ml, x, cfg, s) != []
    ensures Ends(ns.left, ml, x, cfg, s) != []
  {
    hide Ends, Formed;
  }

  lemma RepNeeds(t: Node, q: Rep, ml: bool, x: Subject, cfg: Cfg, s: nat)
    requires Formed(t) && RepOk(q) && s <= |x.text| && q.lower > 0 && EndsRep(t, q, ml, x, cfg, 0, s) != []
    ensures Ends(t, ml, x, cfg, s) != []
  {
    hide Ends, Formed;
  }

  /** Every match of a tree starts with a match of its lead. */
  lemma {:induction false} LeadSound(n: Node, exact: bool, ml: bool, x: Subject, cfg: Cfg, s: nat)
    requires Formed(n) && s <= |x.text| && Lead(n, exact).Some? && Ends(n, ml, x, cfg, s) != []
    ensures HeadAt(Lead(n, exact).value, x, s)
  {
    match n
    case List(ns) =>
      ListNeeds(ns, ml, x, cfg, s);
      LeadSound(ns.left, exact, ml, x, cfg, s);
    case Quant(t, q) =>
      RepNeeds(t, q, ml, x, cfg, s);
      LeadSound(t, exact, ml, x, cfg, s);
    case OptionNode(ml', b) => LeadSound(b, exact, ml', x, cfg, s);
    case Group(_, b) => LeadSound(b, exact, ml, x, cfg, s);
    case Atomic(simple, b) =>
      if simple { LeadSound(b.target, exact, ml, x, cfg, s); } else { LeadSound(b, exact, ml, x, cfg, s); }
    case Look(k, _, b) => LeadSound(b, exact, ml, x, cfg, s);
    case _ =>
  }

  /** An exact lead is the lead. */
  lemma {:induction false} LeadExact(n: Node)
    requires Lead(n, true).Some?
    ensures Lead(n, false) == Lead(n, true)
  {
    match n
    case List(ns) => LeadExact(ns.left);
    case Quant(t, _) => LeadExact(t);
    case OptionNode(_, b) => LeadExact(b);
    case Group(_, b) => LeadExact(b);
    case Atomic(_, b) => LeadExact(b);
    case Look(_, _, b) => LeadExact(b);
    case _ =>
  }

  /** Where the heads of loops are true, get_head_value_node finds the lead. */
  lemma {:induction false} HeadIsLead(n: Node, exact: bool)
    requires Formed(n) && TrueHeads(n)
    ensures Head(n, exact) == Lead(n, exact)
  {
    match n
    case List(ns) => HeadIsLead(ns.left, exact);
    case Quant(t, q) =>
      if q.lower > 0 {
        if q.headExact.Some? { LeadExact(t); } else { HeadIsLead(t, exact); }
      }
    case OptionNode(_, b) => HeadIsLead(b, exact);
    case Group(_, b) => HeadIsLead(b, exact);
    case Atomic(_, b) => HeadIsLead(b, exact);
    case Look(_, _, b) => HeadIsLead(b, exact);
    case _ =>
  }

  /** Every match of a tree starts with a match of its head. */
  lemma HeadSound(n: Node, exact: bool, ml: bool, x: Subject, cfg: Cfg, s: nat)
    requires Formed(n) && TrueHeads(n) && s <= |x.text| && Head(n, exact).Some? && Ends(n, ml, x, cfg, s) != []
    ensures HeadAt(Head(n, exact).value, x, s)
  {
    hide Ends, Lead, Head, TrueHeads, Formed;
    HeadIsLead(n, exact);
    LeadSound(n, exact, ml, x, cfg, s);
  }

  /** is_not_included is right: where one head matches the other does not. */
  lemma NotIncludedSound(h: Node, g: Node, x: Subject, s: nat)
    requires HeadShape(h) && HeadShape(g) && NotIncluded(h, g) && HeadAt(h, x, s)
    ensures !HeadAt(g, x, s)
  {
    if h.Str? && g.Str? {
      var i :| 0 <= i < |h.s| && i < |g.s| && h.s[i] != g.s[i];
      ByteAt(h.s, x, s, i);
      ByteAt(g.s, x, s, i);
    } else {
      if h.Str? { FirstByte(h, x, s); }
      if g.Str? && HeadAt(g, x, s) { FirstByte(g, x, s); }
    }
  }

  lemma ByteAt(str: seq<byte>, x: Subject, s: nat, i: nat)
    requires i < |str|
    ensures HasAt(x, s, str) ==> s + i < |x.text| && x.text[s + i] == str[i]
  {
    if HasAt(x, s, str) { assert x.text[s..s + |str|][i] == x.text[s + i]; }
  }

  lemma FirstByte(h: Node, x: Subject, s: nat)
    requires h.Str? && h.s != [] && HasAt(x, s, h.s)
    ensures s < |x.text| && x.text[s] == h.s[0]
  {
    assert x.text[s..s + |h.s|][0] == x.text[s];
  }

  // ----- ends that matter -----

  /** The ends that are in live, in order. */
  function Prune(r: seq<nat>, live: set<nat>): (p: seq<nat>)
  {
    if r == [] then []
    else (if r[0] in live then [r[0]] else []) + Prune(r[1..], live)
  }

  lemma {:induction false} PruneConcat(a: seq<nat>, b: seq<nat>, live: set<nat>)
    ensures Prune(a + b, live) == Prune(a, live) + Prune(b, live)
    decreases |a|
  {
    if a == [] {
      assert a + b == b;
    } else {
      PruneFirst(a, live);
      PruneFirst(a + b, live);
      hide Prune;
      assert (a + b)[1..] == a[1..] + b;
      PruneConcat(a[1..], b, live);
    }
  }

  lemma PruneFirst(r: seq<nat>, live: set<nat>)
    requires r != []
    ensures Prune(r, live) == if r[0] in live then [r[0]] + Prune(r[1..], live) else Prune(r[1..], live)
  {
  }

  /** From where the rest of a list can go on. */
  ghost function Live(ns: Nodes, ml: bool, x: Subject, cfg: Cfg): set<nat>
    requires AllFormed(ns)
  {
    set e: nat | e <= |x.text| && EndsList(ns, ml, x, cfg, e) != []
  }

  lemma {:induction false} PruneBounded(r: seq<nat>, live: set<nat>, x: Subject)
    requires Bounded(r, x)
    ensures Bounded(Prune(r, live), x)
  {
    if r != [] { PruneBounded(r[1..], live, x); }
  }

  /** Going on from the ends that matter is going on from all. */
  lemma {:induction false} OnlyLive(ns: Nodes, ml: bool, x: Subject, cfg: Cfg, from: seq<nat>)
    requires AllFormed(ns) && Bounded(from, x)
    ensures Bounded(Prune(from, Live(ns, ml, x, cfg)), x)
    ensures EndsListAll(ns, ml, x, cfg, from) == EndsListAll(ns, ml, x, cfg, Prune(from, Live(ns, ml, x, cfg)))
    decreases |from|
  {
    var live := Live(ns, ml, x, cfg);
    PruneBounded(from, live, x);
    if from != [] {
      OnlyLive(ns, ml, x, cfg, from[1..]);
      var p := Prune(from[1..], live);
      if from[0] in live { assert ([from[0]] + p)[1..] == p; } else { assert [] + p == p; }
    }
  }

  // ----- peek-next -----

  /** Where the rest can go on, the next byte is the head of the next node. */
  ghost predicate PeekOk(q: Rep, x: Subject, live: set<nat>) {
    q.nextHead.Some? && q.nextHead.value != [] ==>
      forall e :: e in live ==> e < |x.text| && x.text[e] == q.nextHead.value[0]
  }

  function NoPeek(q: Rep): Rep { q.(nextHead := None) }

  /** A peeking loop gives up only ends that do not matter, whatever byte lies behind the text. */
  lemma {:induction false} PeekRep(t: Node, q: Rep, ml: bool, x: Subject, cfg: Cfg, k: nat, s: nat, live: set<nat>)
    requires Formed(t) && RepOk(q) && s <= |x.text| && PeekOk(q, x, live)
    ensures Prune(EndsRep(t, q, ml, x, cfg, k, s), live) == Prune(EndsRep(t, NoPeek(q), ml, x, cfg, k, s), live)
    decreases Left(q, k), |x.text| - s, 1, 0
  {
    hide Formed, Ends, EndsEach, CompileLength, FormOf, Entered;
    if !UpperReached(q, k) {
      var es := Ends(t, ml, x, cfg, s);
      PeekEntered(t, q, x, cfg, s);
      PeekEach(t, q, ml, x, cfg, k + 1, es, s, live);
      if k >= q.lower {
        var more := EndsEach(t, q, ml, x, cfg, k + 1, es, s);
        var more' := EndsEach(t, NoPeek(q), ml, x, cfg, k + 1, es, s);
        if q.greedy {
          PruneConcat(more, One(Leavable(t, q, x, cfg, s), s), live);
          PruneConcat(more', [s], live);
        } else {
          PruneConcat([s], more, live);
          PruneConcat([s], more', live);
        }
      }
    }
  }

  lemma {:induction false} PeekEach(t: Node, q: Rep, ml: bool, x: Subject, cfg: Cfg, k: nat, es: seq<nat>, s: nat,
                                    live: set<nat>)
    requires Formed(t) && RepOk(q) && s <= |x.text| && PeekOk(q, x, live)
    requires Bounded(es, x) && k > 0 && !UpperReached(q, k - 1)
    ensures Prune(EndsEach(t, q, ml, x, cfg, k, es, s), live) ==
            Prune(EndsEach(t, NoPeek(q), ml, x, cfg, k, es, s), live)
    decreases Left(q, k - 1), |x.text| - s, 0, |es|
  {
    hide Formed, Ends, EndsRep, EndsEach, CompileLength, FormOf, PeekOk, Checked, Onward;
    EachSplit(t, q, ml, x, cfg, k, es, s);
    EachSplit(t, NoPeek(q), ml, x, cfg, k, es, s);
    if es != [] {
      PeekEach(t, q, ml, x, cfg, k, es[1..], s, live);
      PeekOne(t, q, ml, x, cfg, k, es[0], s, live);
      PruneConcat(Onward(t, q, ml, x, cfg, k, es[0], s), EndsEach(t, q, ml, x, cfg, k, es[1..], s), live);
      PruneConcat(Onward(t, NoPeek(q), ml, x, cfg, k, es[0], s), EndsEach(t, NoPeek(q), ml, x, cfg, k, es[1..], s),
                  live);
    }
  }

  lemma {:induction false} PeekOne(t: Node, q: Rep, ml: bool, x: Subject, cfg: Cfg, k: nat, e: nat, s: nat,
                                   live: set<nat>)
    requires Formed(t) && RepOk(q) && s <= |x.text| && e <= |x.text| && PeekOk(q, x, live)
    requires k > 0 && !UpperReached(q, k - 1)
    ensures Prune(Onward(t, q, ml, x, cfg, k, e, s), live) == Prune(Onward(t, NoPeek(q), ml, x, cfg, k, e, s), live)
    decreases Left(q, k - 1), |x.text| - s, 0, 0
  {
    hide Formed, Ends, EndsRep, CompileLength, FormOf, PeekOk, Checked;
    PeekChecked(t, q, cfg, k - 1);
    if e > s || !Checked(t, q, cfg, k - 1) {
      LeftFalls(t, q, cfg, k - 1);
      PeekRep(t, q, ml, x, cfg, k, e, live);
    }
  }

  /** A peek changes the head of a loop, not its form or its check. */
  lemma PeekChecked(t: Node, q: Rep, cfg: Cfg, k: nat)
    requires Formed(t)
    ensures Checked(t, q, cfg, k) == Checked(t, NoPeek(q), cfg, k)
  {
    hide Formed, CompileLength, SetupTree, MinLen, HasMemory, QuantSetup, NowChecked;
    PeekNow(t, q, cfg);
    var t' := SetupTree(t, true);
    assert SetRep(t, NoPeek(q), false) == NoPeek(SetRep(t, q, false));
    PeekSetup(t', SetRep(t, q, false));
    var n := QuantSetup(t', SetRep(t, q, false));
    if n.Quant? && Formed(n.target) { PeekNow(n.target, n.q, cfg); }
  }

  lemma PeekNow(t: Node, q: Rep, cfg: Cfg)
    requires Formed(t)
    ensures NowChecked(t, q, cfg) == NowChecked(t, NoPeek(q), cfg)
  {
    hide Formed, CompileLength;
  }

  lemma PeekSetup(t: Node, q: Rep)
    ensures var n, m := QuantSetup(t, q), QuantSetup(t, NoPeek(q));
            if n.Quant? then m.Quant? && m.target == n.target && m.q == NoPeek(n.q) else !m.Quant?
  {
    hide Head, Repeated;
  }

  lemma PeekEntered(t: Node, q: Rep, x: Subject, cfg: Cfg, s: nat)
    requires Formed(t) && RepOk(q)
    ensures Entered(t, q, x, cfg, s) == Entered(t, NoPeek(q), x, cfg, s) && Leavable(t, NoPeek(q), x, cfg, s)
  {
    hide Formed, CompileLength;
  }

  // ----- repeats of one-instruction bodies -----

  /** At most one result, behind the start. */
  lemma SimpleStep(t: Node, ml: bool, x: Subject, cfg: Cfg, s: nat)
    requires IsSimple(t) && t != Str([]) && s <= |x.text|
    ensures var es := Ends(t, ml, x, cfg, s); es == [] || (|es| == 1 && es[0] > s)
    ensures HeadShape(t) ==> (HeadAt(t, x, s) <==> Ends(t, ml, x, cfg, s) != [])
  {
  }

  /** a*b and (?>a*)b: the ends the possessive form gives up are those where a still matches. */
  lemma {:induction false} PossessRep(t: Node, q: Rep, h: Node, ml: bool, x: Subject, cfg: Cfg, k: nat, s: nat,
                                      live: set<nat>)
    requires IsSimple(t) && HeadShape(t) && HeadShape(h) && NotIncluded(t, h)
    requires RepOk(q) && q.headExact.None? && q.nextHead.None? && q.greedy && Infinite(q.upper) && s <= |x.text|
    requires forall e :: e in live ==> HeadAt(h, x, e)
    ensures Prune(EndsRep(t, q, ml, x, cfg, k, s), live) == Prune(EndsSimple(t, q.lower, ml, x, cfg, k, s), live)
    decreases |x.text| - s
  {
    hide CompileLength, FormOf, NotIncluded, HeadAt;
    SimpleStep(t, ml, x, cfg, s);
    var es := Ends(t, ml, x, cfg, s);
    hide Ends;
    if es != [] {
      PossessRep(t, q, h, ml, x, cfg, k + 1, es[0], live);
      OneEnd(t, q, ml, x, cfg, k, es, s);
      if k >= q.lower {
        NotIncludedSound(t, h, x, s);
        PruneConcat(EndsRep(t, q, ml, x, cfg, k + 1, es[0]), [s], live);
        assert s !in live;
        assert Prune([s], live) == [];
      } else {
        assert EndsRep(t, q, ml, x, cfg, k + 1, es[0]) + [] == EndsRep(t, q, ml, x, cfg, k + 1, es[0]);
      }
    }
  }

  lemma OneEnd(t: Node, q: Rep, ml: bool, x: Subject, cfg: Cfg, k: nat, es: seq<nat>, s: nat)
    requires Formed(t) && RepOk(q) && q.headExact.None? && q.nextHead.None? && q.greedy && Infinite(q.upper)
             && s <= |x.text|
    requires es == Ends(t, ml, x, cfg, s) && |es| == 1 && es[0] > s
    ensures EndsRep(t, q, ml, x, cfg, k, s) == EndsRep(t, q, ml, x, cfg, k + 1, es[0]) + if k >= q.lower then [s]
            else []
  {
    hide Ends, EndsEach, Checked, Formed;
    assert es == [es[0]];
    EachOne(t, q, ml, x, cfg, k + 1, es[0], s);
    OnwardMoved(t, q, ml, x, cfg, k + 1, es[0], s);
  }

  /** (?>X*): the loop that only keeps the farthest end finds the first result. */
  lemma {:induction false} SimpleIsFirst(t: Node, q: Rep, ml: bool, x: Subject, cfg: Cfg, k: nat, s: nat)
    requires IsSimple(t) && t != Str([]) && s <= |x.text|
    requires RepOk(q) && q.headExact.None? && q.nextHead.None? && q.greedy && Infinite(q.upper)
    ensures var r := EndsRep(t, q, ml, x, cfg, k, s);
            EndsSimple(t, q.lower, ml, x, cfg, k, s) == if r == [] then [] else [r[0]]
    decreases |x.text| - s
  {
    hide CompileLength, FormOf;
    SimpleStep(t, ml, x, cfg, s);
    var es := Ends(t, ml, x, cfg, s);
    hide Ends;
    if es != [] {
      SimpleIsFirst(t, q, ml, x, cfg, k + 1, es[0]);
      OneEnd(t, q, ml, x, cfg, k, es, s);
      if k >= q.lower { RepSome(t, q, ml, x, cfg, k + 1, es[0]); }
    }
  }

  /** Past its lower bound such a repeat always has a result. */
  lemma RepSome(t: Node, q: Rep, ml: bool, x: Subject, cfg: Cfg, k: nat, s: nat)
    requires Formed(t) && RepOk(q) && q.headExact.None? && q.nextHead.None? && q.greedy && Infinite(q.upper)
    requires s <= |x.text| && k >= q.lower
    ensures EndsRep(t, q, ml, x, cfg, k, s) != []
  {
  }
}
