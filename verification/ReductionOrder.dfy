/** Whether the rewriting of nested repeats keeps the first result, the one match_at takes: around bodies that
    advance, in all but two of the 36 cases. */
module ReductionOrder {
  import opened Regint
  import opened Regparse
  import opened Regcomp
  import opened Machine
  import opened Meaning
  import opened Lengths
  import opened LengthSound
  import opened OptimizeSound
  import opened Reduction
  import opened ReductionMeaning

  function First(es: seq<nat>): Option<nat> { if es == [] then None else Some(es[0]) }

  ghost predicate Behind(n: Node, ml: bool, x: Subject, cfg: Cfg, least: nat)
    requires Formed(n)
  {
    forall s: nat, e: nat :: s <= |x.text| && e in Ends(n, ml, x, cfg, s) ==> e >= s + least
  }

  /** No match of the body is empty. */
  ghost predicate Advances(n: Node, ml: bool, x: Subject, cfg: Cfg)
    requires Formed(n)
  {
    Behind(n, ml, x, cfg, 1)
  }

  /** Where first results, one behind the other, come to an end. */
  ghost function RunOn(n: Node, ml: bool, x: Subject, cfg: Cfg, s: nat): (r: nat)
    requires Formed(n) && s <= |x.text|
    ensures s <= r <= |x.text|
    decreases |x.text| - s
  {
    var es := Ends(n, ml, x, cfg, s);
    if es == [] || es[0] <= s then s else RunOn(n, ml, x, cfg, es[0])
  }

  // ----- one popular repeat -----

  /** The first result of a repeat, from the first result of its body and where those lead. */
  function PopFirst(p: Popular, first: Option<nat>, run: nat, s: nat): Option<nat> {
    match p
    case Quest => Some(if first.Some? then first.value else s)
    case Star => Some(run)
    case Plus => if first.None? then None else Some(run)
    case LazyQuest => Some(s)
    case LazyStar => Some(s)
    case LazyPlus => first
  }

  function PopRun(p: Popular, run: nat, s: nat): nat { if p.LazyQuest? || p.LazyStar? then s else run }

  lemma PopFormed(t: Node, p: Popular)
    requires Formed(t)
    ensures RepOk(PopRep(p)) && Formed(PopNode(t, p))
  {
  }

  lemma PopEnds(t: Node, p: Popular, ml: bool, x: Subject, cfg: Cfg, s: nat)
    requires Formed(t) && s <= |x.text|
    ensures RepOk(PopRep(p)) && Formed(PopNode(t, p))
    ensures Ends(PopNode(t, p), ml, x, cfg, s) == EndsRep(t, PopRep(p), ml, x, cfg, 0, s)
  {
    hide EndsRep;
  }

  lemma NoHeads(t: Node, p: Popular, x: Subject, cfg: Cfg, s: nat)
    requires Formed(t) && RepOk(PopRep(p))
    ensures Entered(t, PopRep(p), x, cfg, s) && Leavable(t, PopRep(p), x, cfg, s)
  {
  }

  /** Past its lower bound a greedy loop runs on as far as first results go. */
  lemma {:induction false} LoopFirst(t: Node, p: Popular, ml: bool, x: Subject, cfg: Cfg, k: nat, s: nat)
    requires Formed(t) && RepOk(PopRep(p)) && (p.Star? || p.Plus?) && k >= LowerOf(p) && s <= |x.text|
    requires Behind(t, ml, x, cfg, 0)
    ensures First(EndsRep(t, PopRep(p), ml, x, cfg, k, s)) == Some(RunOn(t, ml, x, cfg, s))
    decreases |x.text| - s
  {
    hide Ends, EndsRep, EndsEach, Entered, Leavable, LaterChecked, NowChecked, Formed;
    var q, es := PopRep(p), Ends(t, ml, x, cfg, s);
    NoHeads(t, p, x, cfg, s);
    RepCases(t, q, ml, x, cfg, k, s);
    EachSplit(t, q, ml, x, cfg, k + 1, es, s);
    if es != [] && es[0] > s {
      LoopFirst(t, p, ml, x, cfg, k + 1, es[0]);
      OnwardMoved(t, q, ml, x, cfg, k + 1, es[0], s);
    } else if es != [] {
      assert Checked(t, q, cfg, k) && es[0] in es;
    }
  }

  /** One round is owed. */
  lemma OwedFirst(t: Node, p: Popular, ml: bool, x: Subject, cfg: Cfg, s: nat)
    requires Formed(t) && RepOk(PopRep(p)) && (p.Plus? || p.LazyPlus?) && s <= |x.text| && Behind(t, ml, x, cfg, 0)
    ensures First(EndsRep(t, PopRep(p), ml, x, cfg, 0, s)) ==
            PopFirst(p, First(Ends(t, ml, x, cfg, s)), RunOn(t, ml, x, cfg, s), s)
  {
    hide Ends, EndsRep, EndsEach, Entered, Leavable, Checked, Onward, Formed;
    var q, es := PopRep(p), Ends(t, ml, x, cfg, s);
    RepCases(t, q, ml, x, cfg, 0, s);
    EachSplit(t, q, ml, x, cfg, 1, es, s);
    if es != [] {
      assert es[0] in es;
      OwedOnward(t, p, ml, x, cfg, s, es[0]);
    }
  }

  /** Behind the round that is owed. */
  lemma OwedOnward(t: Node, p: Popular, ml: bool, x: Subject, cfg: Cfg, s: nat, e: nat)
    requires Formed(t) && RepOk(PopRep(p)) && (p.Plus? || p.LazyPlus?) && s <= e <= |x.text|
    requires Behind(t, ml, x, cfg, 0) && (e == s ==> RunOn(t, ml, x, cfg, e) == e)
    ensures var r := if p.Plus? then RunOn(t, ml, x, cfg, e) else e;
            First(Onward(t, PopRep(p), ml, x, cfg, 1, e, s)) == Some(r)
  {
    hide Ends, EndsRep, EndsEach, Entered, Leavable, Formed, Behind, RunOn;
    if p.Plus? {
      LoopFirst(t, p, ml, x, cfg, 1, e);
    } else {
      NoHeads(t, p, x, cfg, e);
      RepCases(t, PopRep(p), ml, x, cfg, 1, e);
    }
  }

  lemma FirstOfPop(t: Node, p: Popular, ml: bool, x: Subject, cfg: Cfg, s: nat)
    requires Formed(t) && s <= |x.text| && Behind(t, ml, x, cfg, 0)
    ensures Formed(PopNode(t, p))
    ensures First(Ends(PopNode(t, p), ml, x, cfg, s)) ==
            PopFirst(p, First(Ends(t, ml, x, cfg, s)), RunOn(t, ml, x, cfg, s), s)
  {
    var q, es := PopRep(p), Ends(t, ml, x, cfg, s);
    PopEnds(t, p, ml, x, cfg, s);
    NoHeads(t, p, x, cfg, s);
    RepCases(t, q, ml, x, cfg, 0, s);
    EachSplit(t, q, ml, x, cfg, 1, es, s);
    hide Ends, EndsEach, Entered, Leavable, Checked;
    match p
    case Quest => if es != [] { RepCases(t, q, ml, x, cfg, 1, es[0]); }
    case Star => LoopFirst(t, p, ml, x, cfg, 0, s);
    case Plus => OwedFirst(t, p, ml, x, cfg, s);
    case LazyPlus => OwedFirst(t, p, ml, x, cfg, s);
    case _ =>
  }

  /** Ends of a repeat lie behind its start if those of its body do. */
  lemma PopBehind(t: Node, p: Popular, ml: bool, x: Subject, cfg: Cfg)
    requires Formed(t) && Behind(t, ml, x, cfg, 0)
    ensures Formed(PopNode(t, p)) && Behind(PopNode(t, p), ml, x, cfg, 0)
  {
    PopFormed(t, p);
    forall s: nat, e: nat | s <= |x.text| && e in Ends(PopNode(t, p), ml, x, cfg, s) ensures e >= s {
      PopEnds(t, p, ml, x, cfg, s);
      RepBehind(t, PopRep(p), ml, x, cfg, 0, s, e);
    }
  }

  lemma {:induction false} RepBehind(t: Node, q: Rep, ml: bool, x: Subject, cfg: Cfg, k: nat, s: nat, e: nat)
    requires Formed(t) && RepOk(q) && Behind(t, ml, x, cfg, 0) && s <= |x.text| && e in EndsRep(t, q, ml, x, cfg, k, s)
    ensures e >= s
    decreases Left(q, k), |x.text| - s
  {
    hide Ends, EndsRep, Formed, Continues, Checked;
    var m := RepSome(t, q, ml, x, cfg, k, s, e);
    if m.Some? {
      var left := GoesOn(t, q, ml, x, cfg, k, s, m.value, e);
      if !left { RepBehind(t, q, ml, x, cfg, k + 1, m.value, e); }
    }
  }

  lemma AdvancesBehind(t: Node, ml: bool, x: Subject, cfg: Cfg)
    requires Formed(t) && Advances(t, ml, x, cfg)
    ensures Behind(t, ml, x, cfg, 0)
  {
    hide Ends, Formed;
  }

  lemma Ahead(t: Node, ml: bool, x: Subject, cfg: Cfg, s: nat)
    requires Formed(t) && s <= |x.text| && Advances(t, ml, x, cfg) && Ends(t, ml, x, cfg, s) != []
    ensures Ends(t, ml, x, cfg, s)[0] > s
  {
    hide Ends, Formed;
    var es := Ends(t, ml, x, cfg, s);
    assert es[0] in es;
  }

  /** Where the first results of a repeat lead. */
  lemma {:induction false} RunOfPop(t: Node, p: Popular, ml: bool, x: Subject, cfg: Cfg, s: nat)
    requires Formed(t) && s <= |x.text| && Advances(t, ml, x, cfg)
    ensures Formed(PopNode(t, p))
    ensures RunOn(PopNode(t, p), ml, x, cfg, s) == PopRun(p, RunOn(t, ml, x, cfg, s), s)
    decreases |x.text| - s
  {
    hide Ends, Formed, PopNode, Behind, Advances;
    AdvancesBehind(t, ml, x, cfg);
    FirstOfPop(t, p, ml, x, cfg, s);
    RunStops(t, ml, x, cfg, s);
    if Ends(t, ml, x, cfg, s) != [] { Ahead(t, ml, x, cfg, s); }
    var es, us := Ends(t, ml, x, cfg, s), Ends(PopNode(t, p), ml, x, cfg, s);
    if us != [] && us[0] > s { RunOfPop(t, p, ml, x, cfg, us[0]); }
  }

  /** At its end a run has come to its end, and one step on leads to the same end. */
  lemma {:induction false} RunStops(t: Node, ml: bool, x: Subject, cfg: Cfg, s: nat)
    requires Formed(t) && s <= |x.text|
    ensures var r := RunOn(t, ml, x, cfg, s); RunOn(t, ml, x, cfg, r) == r
    decreases |x.text| - s
  {
    hide Ends;
    var es := Ends(t, ml, x, cfg, s);
    if es != [] && es[0] > s { RunStops(t, ml, x, cfg, es[0]); }
  }

  // ----- two nested ones -----

  function NestedFirst(inner: Popular, outer: Popular, first: Option<nat>, run: nat, s: nat): Option<nat> {
    PopFirst(outer, PopFirst(inner, first, run, s), PopRun(inner, run, s), s)
  }

  lemma FirstOfNested(t: Node, inner: Popular, outer: Popular, ml: bool, x: Subject, cfg: Cfg, s: nat)
    requires Formed(t) && s <= |x.text| && Advances(t, ml, x, cfg)
    ensures Formed(NestedNode(t, inner, outer))
    ensures First(Ends(NestedNode(t, inner, outer), ml, x, cfg, s)) ==
            NestedFirst(inner, outer, First(Ends(t, ml, x, cfg, s)), RunOn(t, ml, x, cfg, s), s)
  {
    hide Ends, Formed;
    FirstOfPop(t, inner, ml, x, cfg, s);
    RunOfPop(t, inner, ml, x, cfg, s);
    PopBehind(t, inner, ml, x, cfg);
    FirstOfPop(PopNode(t, inner), outer, ml, x, cfg, s);
  }

  /** What the table writes has this first result. */
  function ReducedFirst(inner: Popular, outer: Popular, first: Option<nat>, run: nat, s: nat): Option<nat> {
    var c := ReduceTable(inner, outer);
    if Single(c) then PopFirst(Outermost(c, inner, outer), first, run, s)
    else NestedFirst(Innermost(c, inner), Outermost(c, inner, outer), first, run, s)
  }

  lemma FirstOfReduced(t: Node, inner: Popular, outer: Popular, ml: bool, x: Subject, cfg: Cfg, s: nat)
    requires Formed(t) && s <= |x.text| && Advances(t, ml, x, cfg)
    ensures Formed(ReducedNode(t, inner, outer))
    ensures First(Ends(ReducedNode(t, inner, outer), ml, x, cfg, s)) ==
            ReducedFirst(inner, outer, First(Ends(t, ml, x, cfg, s)), RunOn(t, ml, x, cfg, s), s)
  {
    hide *;
    var c := ReduceTable(inner, outer);
    var o, i := Outermost(c, inner, outer), Innermost(c, inner);
    ReducedIs(t, inner, outer);
    FirstIs(inner, outer, First(Ends(t, ml, x, cfg, s)), RunOn(t, ml, x, cfg, s), s);
    NodesAre(t, i, o);
    AdvancesBehind(t, ml, x, cfg);
    if Single(c) { FirstOfPop(t, o, ml, x, cfg, s); } else { FirstOfNested(t, i, o, ml, x, cfg, s); }
  }

  lemma FirstIs(inner: Popular, outer: Popular, first: Option<nat>, run: nat, s: nat)
    ensures var c := ReduceTable(inner, outer);
            ReducedFirst(inner, outer, first, run, s) ==
            if Single(c) then PopFirst(Outermost(c, inner, outer), first, run, s)
            else NestedFirst(Innermost(c, inner), Outermost(c, inner, outer), first, run, s)
  {
    hide ReduceTable, Single, Outermost, Innermost, PopFirst, NestedFirst;
  }

  lemma NodesAre(t: Node, inner: Popular, outer: Popular)
    ensures PopNode(t, outer) == Quant(t, PopRep(outer))
    ensures NestedNode(t, inner, outer) == Quant(Quant(t, PopRep(inner)), PopRep(outer))
  {
  }

  /** The two cases that give up rounds: (?:X+?)* becomes (?:X+?)?, and (?:X+?)+ becomes X+?. */
  predicate GivesUp(inner: Popular, outer: Popular) { inner.LazyPlus? && (outer.Star? || outer.Plus?) }

  /** The first result is the same at s. */
  ghost predicate SameFirst(t: Node, inner: Popular, outer: Popular, ml: bool, x: Subject, cfg: Cfg, s: nat)
    requires Formed(t) && s <= |x.text|
  {
    && Formed(NestedNode(t, inner, outer)) && Formed(ReducedNode(t, inner, outer))
    && First(Ends(ReducedNode(t, inner, outer), ml, x, cfg, s)) ==
       First(Ends(NestedNode(t, inner, outer), ml, x, cfg, s))
  }

  lemma FirstKept(t: Node, inner: Popular, outer: Popular, ml: bool, x: Subject, cfg: Cfg, s: nat)
    requires Formed(t) && s <= |x.text| && Advances(t, ml, x, cfg) && !GivesUp(inner, outer)
    ensures SameFirst(t, inner, outer, ml, x, cfg, s)
  {
    hide Ends, Formed, NestedNode, ReducedNode;
    FirstOfNested(t, inner, outer, ml, x, cfg, s);
    FirstOfReduced(t, inner, outer, ml, x, cfg, s);
    var first, run := First(Ends(t, ml, x, cfg, s)), RunOn(t, ml, x, cfg, s);
    assert first.None? ==> run == s;
    CellFirst(inner, outer, first, run, s);
  }

  lemma CellFirst(inner: Popular, outer: Popular, first: Option<nat>, run: nat, s: nat)
    requires !GivesUp(inner, outer) && (first.None? ==> run == s)
    ensures ReducedFirst(inner, outer, first, run, s) == NestedFirst(inner, outer, first, run, s)
  {
  }

  /** The first result survives around every body that advances. */
  ghost predicate KeepsFirst(inner: Popular, outer: Popular) {
    forall t: Node, ml: bool, x: Subject, cfg: Cfg, s: nat ::
      Formed(t) && s <= |x.text| && Advances(t, ml, x, cfg) ==> SameFirst(t, inner, outer, ml, x, cfg, s)
  }

  const LETTER: byte := 0x61

  function Letter(): Node { Str([LETTER]) }

  function Twice(): Subject { Subject([LETTER, LETTER], 0, 0, false) }

  lemma LetterEnds(ml: bool, cfg: Cfg)
    ensures Formed(Letter()) && Advances(Letter(), ml, Twice(), cfg)
    ensures Ends(Letter(), ml, Twice(), cfg, 0) == [1] && RunOn(Letter(), ml, Twice(), cfg, 0) == 2
  {
    var x := Twice();
    assert x.text[0..1] == [LETTER] && x.text[1..2] == [LETTER];
    assert Ends(Letter(), ml, x, cfg, 1) == [2] && Ends(Letter(), ml, x, cfg, 2) == [];
    assert RunOn(Letter(), ml, x, cfg, 2) == 2 && RunOn(Letter(), ml, x, cfg, 1) == 2;
  }

  /** On aa the nested repeats take both letters first, the reduced ones only one. */
  lemma FirstLost(inner: Popular, outer: Popular, ml: bool, cfg: Cfg)
    requires GivesUp(inner, outer)
    ensures Formed(Letter())
    ensures Formed(NestedNode(Letter(), inner, outer)) && Formed(ReducedNode(Letter(), inner, outer))
    ensures Advances(Letter(), ml, Twice(), cfg) && !SameFirst(Letter(), inner, outer, ml, Twice(), cfg, 0)
    ensures First(Ends(NestedNode(Letter(), inner, outer), ml, Twice(), cfg, 0)) == Some(2)
    ensures First(Ends(ReducedNode(Letter(), inner, outer), ml, Twice(), cfg, 0)) == Some(1)
  {
    LetterEnds(ml, cfg);
    hide Ends, Formed, NestedNode, ReducedNode, Letter, RunOn;
    FirstOfNested(Letter(), inner, outer, ml, Twice(), cfg, 0);
    FirstOfReduced(Letter(), inner, outer, ml, Twice(), cfg, 0);
  }

  /** Exactly the other 34 cases keep it. */
  lemma FirstExactly(inner: Popular, outer: Popular)
    ensures KeepsFirst(inner, outer) <==> !GivesUp(inner, outer)
  {
    hide SameFirst, Advances, Formed, GivesUp;
    if GivesUp(inner, outer) {
      FirstLost(inner, outer, false, Cfg({}, {}, true));
      assert !SameFirst(Letter(), inner, outer, false, Twice(), Cfg({}, {}, true), 0);
    } else {
      forall t: Node, ml: bool, x: Subject, cfg: Cfg, s: nat | Formed(t) && s <= |x.text| && Advances(t, ml, x, cfg)
        ensures SameFirst(t, inner, outer, ml, x, cfg, s)
      {
        FirstKept(t, inner, outer, ml, x, cfg, s);
      }
    }
  }

  // ----- set_quantifier -----

  /** Rounds that go on from ends with the same first results have the same first result. */
  lemma {:induction false} EachFirst(u: Node, q: Rep, q': Rep, ml: bool, x: Subject, cfg: Cfg, k: nat, es: seq<nat>,
                                     s: nat)
    requires Formed(u) && RepOk(q) && RepOk(q') && s <= |x.text| && Bounded(es, x) && k > 0
    requires !UpperReached(q, k - 1) && !UpperReached(q', k - 1)
    requires forall i :: 0 <= i < |es| ==> es[i] > s
    requires forall i :: 0 <= i < |es| ==>
               First(EndsRep(u, q, ml, x, cfg, k, es[i])) == First(EndsRep(u, q', ml, x, cfg, k, es[i]))
    ensures First(EndsEach(u, q, ml, x, cfg, k, es, s)) == First(EndsEach(u, q', ml, x, cfg, k, es, s))
    decreases |es|
  {
    hide Ends, EndsRep, EndsEach, Checked, Formed;
    EachSplit(u, q, ml, x, cfg, k, es, s);
    EachSplit(u, q', ml, x, cfg, k, es, s);
    if es != [] {
      OnwardMoved(u, q, ml, x, cfg, k, es[0], s);
      OnwardMoved(u, q', ml, x, cfg, k, es[0], s);
      EachFirst(u, q, q', ml, x, cfg, k, es[1..], s);
    }
  }

  /** X* does not fail, and behind its first result there is nothing more to take. */
  lemma {:induction false} StarRounds(t: Node, q: Rep, ml: bool, x: Subject, cfg: Cfg, k: nat, s: nat)
    requires Formed(t) && Advances(t, ml, x, cfg) && s <= |x.text| && RepOk(q) && PlainGreedy(q)
    requires !Infinite(q.upper) && k < q.upper
    ensures Formed(PopNode(t, Star))
    ensures First(EndsRep(PopNode(t, Star), q, ml, x, cfg, k, s)) == Some(RunOn(t, ml, x, cfg, s))
    decreases q.upper - k
  {
    hide Ends, EndsRep, EndsEach, Checked, Formed, PopNode, Entered, Leavable, Advances, Behind, RunOn;
    var u := PopNode(t, Star);
    AdvancesBehind(t, ml, x, cfg);
    FirstOfPop(t, Star, ml, x, cfg, s);
    RunStops(t, ml, x, cfg, s);
    var e := RunOn(t, ml, x, cfg, s);
    NoHeadsIn(u, q, x, cfg, s);
    RepCases(u, q, ml, x, cfg, k, s);
    RepCases(u, q, ml, x, cfg, k + 1, e);
    EachSplit(u, q, ml, x, cfg, k + 1, Ends(u, ml, x, cfg, s), s);
    if k + 1 < q.upper { StarRounds(t, q, ml, x, cfg, k + 1, e); }
  }

  predicate PlainGreedy(q: Rep) { q.greedy && q.headExact.None? && q.nextHead.None? }

  lemma NoHeadsIn(u: Node, q: Rep, x: Subject, cfg: Cfg, s: nat)
    requires Formed(u) && RepOk(q) && PlainGreedy(q)
    ensures Entered(u, q, x, cfg, s) && Leavable(u, q, x, cfg, s)
  {
  }

  /** Around X+ the rounds that are not owed add nothing to the first result. */
  lemma {:induction false} PlusRounds(t: Node, q: Rep, d: nat, ml: bool, x: Subject, cfg: Cfg, k: nat, s: nat)
    requires Formed(t) && Advances(t, ml, x, cfg) && s <= |x.text| && RepOk(q) && PlainGreedy(q)
    requires !Infinite(q.upper) && q.upper > 1 && d == DroppedUpper(q.lower) && k < d
    ensures Formed(PopNode(t, Plus)) && RepOk(q.(upper := d))
    ensures First(EndsRep(PopNode(t, Plus), q, ml, x, cfg, k, s)) ==
            First(EndsRep(PopNode(t, Plus), q.(upper := d), ml, x, cfg, k, s))
    decreases d - k
  {
    var u, q' := PopNode(t, Plus), q.(upper := d);
    hide Ends, EndsRep, EndsEach, Checked, Formed, PopNode, Entered, Leavable, Advances;
    PopFormed(t, Plus);
    var us := Ends(u, ml, x, cfg, s);
    PlusAdvances(t, ml, x, cfg);
    NoHeadsIn(u, q, x, cfg, s);
    NoHeadsIn(u, q', x, cfg, s);
    RepCases(u, q, ml, x, cfg, k, s);
    RepCases(u, q', ml, x, cfg, k, s);
    assert Bounded(us, x);
    if k + 1 < d {
      forall i | 0 <= i < |us| ensures us[i] > s &&
          First(EndsRep(u, q, ml, x, cfg, k + 1, us[i])) == First(EndsRep(u, q', ml, x, cfg, k + 1, us[i]))
      {
        assert us[i] in us;
        PlusRounds(t, q, d, ml, x, cfg, k + 1, us[i]);
      }
      EachFirst(u, q, q', ml, x, cfg, k + 1, us, s);
    } else if us != [] {
      assert us[0] in us;
      PlusLast(t, q, ml, x, cfg, k, s);
      PlusLast(t, q', ml, x, cfg, k, s);
    } else {
      EachSplit(u, q, ml, x, cfg, k + 1, us, s);
      EachSplit(u, q', ml, x, cfg, k + 1, us, s);
    }
  }

  lemma PlusAdvances(t: Node, ml: bool, x: Subject, cfg: Cfg)
    requires Formed(t) && Advances(t, ml, x, cfg)
    ensures Formed(PopNode(t, Plus))
    ensures forall s: nat, e: nat :: s <= |x.text| && e in Ends(PopNode(t, Plus), ml, x, cfg, s) ==> e > s
  {
    PopFormed(t, Plus);
    AdvancesBehind(t, ml, x, cfg);
    forall s: nat, e: nat | s <= |x.text| && e in Ends(PopNode(t, Plus), ml, x, cfg, s) ensures e > s {
      PopEnds(t, Plus, ml, x, cfg, s);
      hide Ends, EndsRep, Formed, Continues, Checked, PopNode;
      var q := PopRep(Plus);
      var m := RepSome(t, q, ml, x, cfg, 0, s, e);
      var left := GoesOn(t, q, ml, x, cfg, 0, s, m.value, e);
      if !left { RepBehind(t, q, ml, x, cfg, 1, m.value, e); }
    }
  }

  /** The last round that may be owed: its first result ends the repeat. */
  lemma PlusLast(t: Node, q: Rep, ml: bool, x: Subject, cfg: Cfg, k: nat, s: nat)
    requires Formed(t) && Advances(t, ml, x, cfg) && s <= |x.text| && RepOk(q) && PlainGreedy(q)
    requires !Infinite(q.upper) && k < q.upper && k + 1 >= q.lower
    requires Formed(PopNode(t, Plus)) && Ends(PopNode(t, Plus), ml, x, cfg, s) != []
    ensures First(EndsEach(PopNode(t, Plus), q, ml, x, cfg, k + 1, Ends(PopNode(t, Plus), ml, x, cfg, s), s)) ==
            Some(RunOn(t, ml, x, cfg, s))
  {
    hide Ends, EndsRep, EndsEach, Checked, Formed, PopNode, Entered, Leavable, Advances, RunOn;
    var u := PopNode(t, Plus);
    var us := Ends(u, ml, x, cfg, s);
    AdvancesBehind(t, ml, x, cfg);
    PlusAdvances(t, ml, x, cfg);
    FirstOfPop(t, Plus, ml, x, cfg, s);
    var e := RunOn(t, ml, x, cfg, s);
    assert us[0] == e && e in us && e > s;
    EachSplit(u, q, ml, x, cfg, k + 1, us, s);
    OnwardMoved(u, q, ml, x, cfg, k + 1, e, s);
    NothingMore(t, ml, x, cfg, s);
    NoHeadsIn(u, q, x, cfg, e);
    RepCases(u, q, ml, x, cfg, k + 1, e);
    if !UpperReached(q, k + 1) { EachSplit(u, q, ml, x, cfg, k + 2, [], e); }
  }

  /** Where X+ runs to, X does not match. */
  lemma NothingMore(t: Node, ml: bool, x: Subject, cfg: Cfg, s: nat)
    requires Formed(t) && Advances(t, ml, x, cfg) && s <= |x.text|
    ensures Formed(PopNode(t, Plus)) && Ends(PopNode(t, Plus), ml, x, cfg, RunOn(t, ml, x, cfg, s)) == []
  {
    var e := RunOn(t, ml, x, cfg, s);
    RunStops(t, ml, x, cfg, s);
    AdvancesBehind(t, ml, x, cfg);
    FirstOfPop(t, Plus, ml, x, cfg, e);
    if Ends(t, ml, x, cfg, e) != [] { Ahead(t, ml, x, cfg, e); }
    hide Ends, Formed, PopNode;
  }

  /** set_quantifier keeps the first result around every body that advances, but for the two cases the table
      gives up. */
  lemma SetFirst(t: Node, c: Rep, p: Rep, ml: bool, x: Subject, cfg: Cfg, s: nat)
    requires Formed(t) && Advances(t, ml, x, cfg) && s <= |x.text|
    requires c == RepOf(c.lower, c.upper, c.greedy) && p == RepOf(p.lower, p.upper, p.greedy) && RepOk(c) && RepOk(p)
    requires p.lower == p.upper == 1 || !IsPopular(c) || !IsPopular(p) || !GivesUp(PopularRep(c), PopularRep(p))
    ensures Formed(SetNode(t, c, p)) && Formed(Quant(Quant(t, c), p))
    ensures First(Ends(SetNode(t, c, p), ml, x, cfg, s)) == First(Ends(Quant(Quant(t, c), p), ml, x, cfg, s))
  {
    var u := Quant(t, c);
    assert Formed(u);
    if p.lower == p.upper == 1 {
      OnceFirst(u, p, ml, x, cfg, s);
    } else if IsPopular(c) && IsPopular(p) {
      FirstKept(t, PopularRep(c), PopularRep(p), ml, x, cfg, s);
    } else if IsPopular(c) && BoundDrops(p.lower, p.upper, p.greedy, PopularRep(c)) {
      DropFirst(t, PopularRep(c), p, ml, x, cfg, s);
    }
  }

  lemma OnceFirst(u: Node, p: Rep, ml: bool, x: Subject, cfg: Cfg, s: nat)
    requires Formed(u) && s <= |x.text| && RepOk(p) && p.lower == p.upper == 1
    ensures First(Ends(Quant(u, p), ml, x, cfg, s)) == First(Ends(u, ml, x, cfg, s))
  {
    hide Ends, EndsRep, EndsEach, Checked, Formed;
    var us := Ends(u, ml, x, cfg, s);
    QuantIs(u, p, ml, x, cfg, s);
    EachSplit(u, p, ml, x, cfg, 1, us, s);
    RepCases(u, p, ml, x, cfg, 0, s);
    if us != [] { RepCases(u, p, ml, x, cfg, 1, us[0]); }
  }

  lemma DropFirst(t: Node, inner: Popular, p: Rep, ml: bool, x: Subject, cfg: Cfg, s: nat)
    requires Formed(t) && Advances(t, ml, x, cfg) && s <= |x.text| && RepOk(p)
    requires BoundDrops(p.lower, p.upper, p.greedy, inner) && PlainGreedy(p)
    ensures var d := p.(upper := DroppedUpper(p.lower));
            && Formed(Quant(PopNode(t, inner), p)) && Formed(Quant(PopNode(t, inner), d))
            && First(Ends(Quant(PopNode(t, inner), d), ml, x, cfg, s)) ==
               First(Ends(Quant(PopNode(t, inner), p), ml, x, cfg, s))
  {
    var d, u := p.(upper := DroppedUpper(p.lower)), PopNode(t, inner);
    PopFormed(t, inner);
    assert RepOk(d);
    QuantIs(u, p, ml, x, cfg, s);
    QuantIs(u, d, ml, x, cfg, s);
    hide Ends, EndsRep, Formed, PopNode, Advances;
    if inner.Star? {
      StarRounds(t, p, ml, x, cfg, 0, s);
      StarRounds(t, d, ml, x, cfg, 0, s);
    } else {
      PlusRounds(t, p, d.upper, ml, x, cfg, 0, s);
    }
  }

  lemma QuantIs(u: Node, q: Rep, ml: bool, x: Subject, cfg: Cfg, s: nat)
    requires Formed(u) && RepOk(q) && s <= |x.text|
    ensures Formed(Quant(u, q)) && Ends(Quant(u, q), ml, x, cfg, s) == EndsRep(u, q, ml, x, cfg, 0, s)
  {
    hide EndsRep;
  }
}
