/** The rewriting of nested repeats keeps, for every start, the set of ends a tree has (the order may
    change: that is what the lazy forms in the table give up). */
module ReductionMeaning {
  import opened Regint
  import opened Regparse
  import opened Regcomp
  import opened Machine
  import opened Meaning
  import opened Lengths
  import opened LengthSound
  import opened OptimizeSound
  import opened DotStar
  import opened Reduction

  /** Trees whose results at a place do not depend on what surrounds them: no anchors, look-around or
      atomic groups, and no heads yet. */
  predicate Regular(n: Node) {
    match n
    case List(ns) => AllRegular(ns)
    case Alt(ns) => AllRegular(ns)
    case Quant(t, q) => Regular(t) && q.headExact.None? && q.nextHead.None?
    case Group(_, b) => Regular(b)
    case OptionNode(_, b) => Regular(b)
    case Atomic(_, _) => false
    case Anchor(_) => false
    case Look(_, _, _) => false
    case _ => true
  }

  predicate AllRegular(ns: Nodes) {
    match ns
    case Last(n) => Regular(n)
    case Cons(n, rest) => Regular(n) && AllRegular(rest)
  }

  predicate Nullable(n: Node) {
    match n
    case Str(s) => s == []
    case List(ns) => AllNullable(ns)
    case Alt(ns) => AnyNullable(ns)
    case Quant(t, q) => q.lower == 0 || Nullable(t)
    case Group(_, b) => Nullable(b)
    case OptionNode(_, b) => Nullable(b)
    case _ => false
  }

  predicate AllNullable(ns: Nodes) {
    match ns
    case Last(n) => Nullable(n)
    case Cons(n, rest) => Nullable(n) && AllNullable(rest)
  }

  predicate AnyNullable(ns: Nodes) {
    match ns
    case Last(n) => Nullable(n)
    case Cons(n, rest) => Nullable(n) || AnyNullable(rest)
  }

  /** Ends lie behind the start, and the empty match is there everywhere or nowhere. */
  lemma {:induction false} RegularEnds(n: Node, ml: bool, x: Subject, cfg: Cfg, s: nat)
    requires Formed(n) && Regular(n) && s <= |x.text|
    ensures forall e :: e in Ends(n, ml, x, cfg, s) ==> e >= s
    ensures s in Ends(n, ml, x, cfg, s) <==> Nullable(n)
    decreases n, 1
  {
    hide EndsRep, CompileLength;
    match n
    case Str(str) => if str == [] { assert HasAt(x, s, []); }
    case List(ns) => ListEnds(ns, ml, x, cfg, s);
    case Alt(ns) => AltEnds(ns, ml, x, cfg, s);
    case Quant(t, q) => QuantEnds(t, q, ml, x, cfg, s);
    case Group(_, b) => RegularEnds(b, ml, x, cfg, s);
    case OptionNode(ml', b) => RegularEnds(b, ml', x, cfg, s);
    case _ =>
  }

  lemma {:induction false} ListEnds(ns: Nodes, ml: bool, x: Subject, cfg: Cfg, s: nat)
    requires AllFormed(ns) && AllRegular(ns) && s <= |x.text|
    ensures forall e :: e in EndsList(ns, ml, x, cfg, s) ==> e >= s
    ensures s in EndsList(ns, ml, x, cfg, s) <==> AllNullable(ns)
    decreases ns, 0
  {
    hide Ends, Formed, Regular, Nullable;
    var n := ns.left;
    RegularEnds(n, ml, x, cfg, s);
    if ns.Cons? {
      var from := Ends(n, ml, x, cfg, s);
      forall e | e in EndsListAll(ns.right, ml, x, cfg, from) ensures e >= s && (e == s ==> AllNullable(ns)) {
        var m := FromSome(ns.right, ml, x, cfg, from, e);
        ListEnds(ns.right, ml, x, cfg, m);
      }
      if AllNullable(ns) {
        ListEnds(ns.right, ml, x, cfg, s);
        AllFrom(ns.right, ml, x, cfg, from, s, s);
      }
    }
  }

  lemma {:induction false} AltEnds(ns: Nodes, ml: bool, x: Subject, cfg: Cfg, s: nat)
    requires AllFormed(ns) && AllRegular(ns) && s <= |x.text|
    ensures forall e :: e in EndsAlt(ns, ml, x, cfg, s) ==> e >= s
    ensures s in EndsAlt(ns, ml, x, cfg, s) <==> AnyNullable(ns)
    decreases ns, 0
  {
    hide Ends, Formed, Regular, Nullable;
    RegularEnds(ns.left, ml, x, cfg, s);
    if ns.Cons? { AltEnds(ns.right, ml, x, cfg, s); }
  }

  lemma {:induction false} QuantEnds(t: Node, q: Rep, ml: bool, x: Subject, cfg: Cfg, s: nat)
    requires Formed(t) && RepOk(q) && Regular(t) && q.headExact.None? && q.nextHead.None? && s <= |x.text|
    ensures forall e :: e in EndsRep(t, q, ml, x, cfg, 0, s) ==> e >= s
    ensures s in EndsRep(t, q, ml, x, cfg, 0, s) <==> q.lower == 0 || Nullable(t)
    decreases t, 2
  {
    hide Ends, Formed, Regular, EndsEach, CompileLength;
    forall a: nat | a <= |x.text| ensures Sane(t, ml, x, cfg, a) { RegularEnds(t, ml, x, cfg, a); }
    forall e | e in EndsRep(t, q, ml, x, cfg, 0, s) ensures e >= s && (e == s ==> q.lower == 0 || Nullable(t)) {
      RepAfter(t, q, ml, x, cfg, 0, s, e);
    }
    if Nullable(t) {
      assert Sane(t, ml, x, cfg, s);
      StayRep(t, q, ml, x, cfg, 0, s);
    }
  }

  ghost predicate Sane(t: Node, ml: bool, x: Subject, cfg: Cfg, s: nat)
    requires Formed(t) && s <= |x.text|
  {
    && (forall e :: e in Ends(t, ml, x, cfg, s) ==> e >= s)
    && (s in Ends(t, ml, x, cfg, s) <==> Nullable(t))
  }

  ghost predicate AllSane(t: Node, ml: bool, x: Subject, cfg: Cfg)
    requires Formed(t)
  {
    forall s: nat :: s <= |x.text| ==> Sane(t, ml, x, cfg, s)
  }

  lemma {:induction false} RepAfter(t: Node, q: Rep, ml: bool, x: Subject, cfg: Cfg, k: nat, s: nat, e: nat)
    requires Formed(t) && RepOk(q) && AllSane(t, ml, x, cfg) && s <= |x.text| && e in EndsRep(t, q, ml, x, cfg, k, s)
    ensures e >= s && (e == s ==> k >= q.lower || Nullable(t))
    decreases Left(q, k), |x.text| - s
  {
    hide Ends, EndsRep, EndsEach, Formed, Continues, Checked;
    var m := RepSome(t, q, ml, x, cfg, k, s, e);
    if m.Some? {
      assert Sane(t, ml, x, cfg, s);
      var left := GoesOn(t, q, ml, x, cfg, k, s, m.value, e);
      if !left { RepAfter(t, q, ml, x, cfg, k + 1, m.value, e); }
    }
  }

  // ----- results as relations -----

  ghost function RelOf(n: Node, ml: bool, x: Subject, cfg: Cfg): Rel
    requires Formed(n)
  {
    iset s: nat, e: nat | s <= |x.text| && e in Ends(n, ml, x, cfg, s) :: (s, e)
  }

  /** Rounds a repeat may still take after k. */
  predicate RoundsLeft(q: Rep, k: nat, n: nat) {
    q.lower <= k + n && (Infinite(q.upper) || k + n <= q.upper)
  }

  lemma {:induction false} Loops(r: Rel, n: nat, a: nat)
    requires (a, a) in r
    ensures Path(r, n, a, a)
  {
    if n > 0 { Loops(r, n - 1, a); }
  }

  /** Every result of a repeat is reached by an allowed number of rounds. */
  lemma {:induction false} RepPath(t: Node, q: Rep, ml: bool, x: Subject, cfg: Cfg, k: nat, s: nat, e: nat)
    returns (n: nat)
    requires Formed(t) && RepOk(q) && AllSane(t, ml, x, cfg) && s <= |x.text| && e in EndsRep(t, q, ml, x, cfg, k, s)
    ensures Path(RelOf(t, ml, x, cfg), n, s, e) && (Infinite(q.upper) || k <= q.upper ==> RoundsLeft(q, k, n))
    decreases Left(q, k), |x.text| - s
  {
    hide Ends, EndsRep, EndsEach, Formed, Sane, AllSane, RelOf, Path, Continues, RepOk, Checked;
    var r := RelOf(t, ml, x, cfg);
    var m := RepSome(t, q, ml, x, cfg, k, s, e);
    if m.None? {
      n := 0;
      NoRounds(r, s);
    } else {
      RoundStep(t, q, ml, x, cfg, k, s, m.value, e);
      var left := GoesOn(t, q, ml, x, cfg, k, s, m.value, e);
      if !left {
        var i := RepPath(t, q, ml, x, cfg, k + 1, m.value, e);
        n := i + 1;
        StepFirst(r, n, s, m.value, e);
      } else {
        n := if q.lower > k then q.lower - k else 1;
        LowerFits(q);
        Loops(r, n, s);
      }
    }
  }

  lemma LowerFits(q: Rep)
    requires RepOk(q)
    ensures Infinite(q.upper) || q.lower <= q.upper
  {
  }

  lemma NoRounds(r: Rel, a: nat)
    ensures Path(r, 0, a, a)
  {
  }

  /** The first round of a result is a pair of the body's relation. */
  lemma RoundStep(t: Node, q: Rep, ml: bool, x: Subject, cfg: Cfg, k: nat, s: nat, m: nat, e: nat)
    requires Formed(t) && RepOk(q) && AllSane(t, ml, x, cfg) && s <= |x.text|
    requires Continues(t, q, ml, x, cfg, k + 1, s, m, e)
    ensures (s, m) in RelOf(t, ml, x, cfg) && s <= m <= |x.text|
  {
    hide Ends, EndsRep, Formed, RepOk;
    assert Sane(t, ml, x, cfg, s);
  }

  /** With a nullable body any number of rounds up to the bound will do. */
  lemma {:induction false} NullPath(t: Node, q: Rep, ml: bool, x: Subject, cfg: Cfg, k: nat, n: nat, s: nat, e: nat)
    requires Formed(t) && RepOk(q) && q.headExact.None? && AllSane(t, ml, x, cfg) && Nullable(t) && s <= |x.text|
    requires Path(RelOf(t, ml, x, cfg), n, s, e) && (Infinite(q.upper) || k + n <= q.upper)
    ensures e in EndsRep(t, q, ml, x, cfg, k, s)
    decreases n
  {
    hide Ends, Formed, EndsEach;
    assert Sane(t, ml, x, cfg, s);
    if n == 0 {
      StayRep(t, q, ml, x, cfg, k, s);
    } else {
      var m := FirstStep(RelOf(t, ml, x, cfg), n, s, e);
      if m == s {
        hide EndsRep;
        NullPath(t, q, ml, x, cfg, k, n - 1, s, e);
      } else {
        EndInside(t, ml, x, cfg, s, m);
        NullPath(t, q, ml, x, cfg, k + 1, n - 1, m, e);
        OnwardMoved(t, q, ml, x, cfg, k + 1, m, s);
        EachHas(t, q, ml, x, cfg, k + 1, Ends(t, ml, x, cfg, s), s, m, e);
        Covers(t, q, ml, x, cfg, k, s, e);
      }
    }
  }

  lemma EndInside(t: Node, ml: bool, x: Subject, cfg: Cfg, s: nat, m: nat)
    requires Formed(t) && s <= |x.text| && m in Ends(t, ml, x, cfg, s)
    ensures m <= |x.text|
  {
    assert Bounded(Ends(t, ml, x, cfg, s), x);
  }

  /** What continues is a result, whether or not the repeat might stop. */
  lemma Covers(t: Node, q: Rep, ml: bool, x: Subject, cfg: Cfg, k: nat, s: nat, e: nat)
    requires Formed(t) && RepOk(q) && q.headExact.None? && s <= |x.text| && !UpperReached(q, k)
    requires e in EndsEach(t, q, ml, x, cfg, k + 1, Ends(t, ml, x, cfg, s), s)
    ensures e in EndsRep(t, q, ml, x, cfg, k, s)
  {
    hide Ends, EndsEach, Formed;
  }

  /** With a body that is never empty, so does any allowed number of rounds. */
  lemma {:induction false} AdvancePath(t: Node, q: Rep, ml: bool, x: Subject, cfg: Cfg, k: nat, n: nat, s: nat, e: nat)
    requires Formed(t) && RepOk(q) && q.headExact.None? && q.nextHead.None? && AllSane(t, ml, x, cfg)
    requires !Nullable(t) && s <= |x.text|
    requires Path(RelOf(t, ml, x, cfg), n, s, e) && RoundsLeft(q, k, n)
    ensures e in EndsRep(t, q, ml, x, cfg, k, s)
    decreases n
  {
    hide Ends, Formed, EndsEach;
    assert Sane(t, ml, x, cfg, s);
    if n == 0 {
      Stops(t, q, ml, x, cfg, k, s);
    } else {
      var m := FirstStep(RelOf(t, ml, x, cfg), n, s, e);
      EndInside(t, ml, x, cfg, s, m);
      AdvancePath(t, q, ml, x, cfg, k + 1, n - 1, m, e);
      OnwardMoved(t, q, ml, x, cfg, k + 1, m, s);
      hide EndsRep;
      EachHas(t, q, ml, x, cfg, k + 1, Ends(t, ml, x, cfg, s), s, m, e);
      Covers(t, q, ml, x, cfg, k, s, e);
    }
  }

  lemma Stops(t: Node, q: Rep, ml: bool, x: Subject, cfg: Cfg, k: nat, s: nat)
    requires Formed(t) && RepOk(q) && q.headExact.None? && q.nextHead.None? && s <= |x.text| && k >= q.lower
    ensures s in EndsRep(t, q, ml, x, cfg, k, s)
  {
    hide Ends, EndsEach, Formed;
  }

  /** The ends of a repeat, as a set, are what the repeat of the body's relation relates. */
  lemma QuantRel(t: Node, q: Rep, ml: bool, x: Subject, cfg: Cfg)
    requires Formed(t) && RepOk(q) && Regular(t) && q.headExact.None? && q.nextHead.None?
    ensures Formed(Quant(t, q))
    ensures forall s: nat, e: nat :: s <= |x.text| ==>
              ((s, e) in RelOf(Quant(t, q), ml, x, cfg) <==> (s, e) in RepRel(RelOf(t, ml, x, cfg), q.lower, q.upper))
  {
    assert Formed(Quant(t, q));
    forall s: nat | s <= |x.text| ensures Sane(t, ml, x, cfg, s) { RegularEnds(t, ml, x, cfg, s); }
    forall s: nat, e: nat | s <= |x.text|
      ensures (s, e) in RelOf(Quant(t, q), ml, x, cfg) <==> (s, e) in RepRel(RelOf(t, ml, x, cfg), q.lower, q.upper)
    {
      QuantPair(t, q, ml, x, cfg, s, e);
    }
  }

  lemma QuantPair(t: Node, q: Rep, ml: bool, x: Subject, cfg: Cfg, s: nat, e: nat)
    requires Formed(t) && RepOk(q) && q.headExact.None? && q.nextHead.None? && AllSane(t, ml, x, cfg) && s <= |x.text|
    ensures e in EndsRep(t, q, ml, x, cfg, 0, s) <==> (s, e) in RepRel(RelOf(t, ml, x, cfg), q.lower, q.upper)
  {
    hide Ends, EndsRep, Formed, AllSane, RelOf, Path;
    var r := RelOf(t, ml, x, cfg);
    if e in EndsRep(t, q, ml, x, cfg, 0, s) {
      var n := RepPath(t, q, ml, x, cfg, 0, s, e);
      InRep(r, q.lower, q.upper, n, s, e);
    }
    if (s, e) in RepRel(r, q.lower, q.upper) {
      var n := OutRep(r, q.lower, q.upper, s, e);
      if Nullable(t) { NullPath(t, q, ml, x, cfg, 0, n, s, e); } else { AdvancePath(t, q, ml, x, cfg, 0, n, s, e); }
    }
  }

  // ----- nodes and trees -----

  function RepOf(lower: nat, upper: int, greedy: bool): Rep {
    Rep(lower, upper, greedy, IsNotEmpty, None, None, false, false, true)
  }

  function PopRep(p: Popular): Rep { RepOf(LowerOf(p), Reduction.UpperOf(p), GreedyOf(p)) }

  function PopNode(t: Node, p: Popular): Node { Quant(t, PopRep(p)) }

  /** The two nested repeats, and what the table makes of them. */
  function NestedNode(t: Node, inner: Popular, outer: Popular): Node { PopNode(PopNode(t, inner), outer) }

  function ReducedNode(t: Node, inner: Popular, outer: Popular): Node {
    var c := ReduceTable(inner, outer);
    if Single(c) then PopNode(t, Outermost(c, inner, outer))
    else NestedNode(t, Innermost(c, inner), Outermost(c, inner, outer))
  }

  /** The tree a quantifier node stands for, around t. */
  ghost function TreeOf(node: QuantifierNode, t: Node): Node
    reads node, node.inner
  {
    Quant(if node.inner == null then t else Quant(t, RepOf(node.inner.lower, node.inner.upper, node.inner.greedy)),
          RepOf(node.lower, node.upper, node.greedy))
  }

  predicate IsPopular(q: Rep) { PopularOf(q.lower, q.upper, q.greedy).Some? }

  function PopularRep(q: Rep): Popular
    requires IsPopular(q)
  {
    PopularOf(q.lower, q.upper, q.greedy).value
  }

  /** What set_quantifier makes of a repeat p of a repeat c; {1,1} leaves the target alone. */
  function SetNode(t: Node, c: Rep, p: Rep): Node {
    if p.lower == 1 && p.upper == 1 then Quant(t, c)
    else if IsPopular(c) && IsPopular(p) then ReducedNode(t, PopularRep(c), PopularRep(p))
    else if IsPopular(c) && BoundDrops(p.lower, p.upper, p.greedy, PopularRep(c)) then
      Quant(Quant(t, c), p.(upper := DroppedUpper(p.lower)))
    else Quant(Quant(t, c), p)
  }

  predicate BoundsOk(lower: nat, upper: int) { upper == REPEAT_INFINITE || lower <= upper }

  /** Relations only matter inside the text. */
  lemma {:induction false} PathInside(r: Rel, r': Rel, n: nat, a: nat, b: nat, size: nat)
    requires forall s: nat, e: nat :: s <= size ==> ((s, e) in r <==> (s, e) in r')
    requires forall s: nat, e: nat :: s <= size && (s, e) in r ==> e <= size
    requires a <= size
    ensures Path(r, n, a, b) <==> Path(r', n, a, b)
    decreases n
  {
    if n > 0 {
      forall m: nat | (a, m) in r ensures Path(r, n - 1, m, b) <==> Path(r', n - 1, m, b) {
        PathInside(r, r', n - 1, m, b, size);
      }
    }
  }

  lemma RepInside(r: Rel, r': Rel, lower: nat, upper: int, a: nat, b: nat, size: nat)
    requires forall s: nat, e: nat :: s <= size ==> ((s, e) in r <==> (s, e) in r')
    requires forall s: nat, e: nat :: s <= size && (s, e) in r ==> e <= size
    requires a <= size
    ensures (a, b) in RepRel(r, lower, upper) <==> (a, b) in RepRel(r', lower, upper)
  {
    forall n: nat ensures Path(r, n, a, b) <==> Path(r', n, a, b) { PathInside(r, r', n, a, b, size); }
    if (a, b) in RepRel(r, lower, upper) {
      var n := OutRep(r, lower, upper, a, b);
      InRep(r', lower, upper, n, a, b);
    }
    if (a, b) in RepRel(r', lower, upper) {
      var n := OutRep(r', lower, upper, a, b);
      InRep(r, lower, upper, n, a, b);
    }
  }

  /** Two nested repeats of a tree. */
  lemma NestedEnds(t: Node, c: Rep, p: Rep, ml: bool, x: Subject, cfg: Cfg, s: nat, e: nat)
    requires Formed(t) && Regular(t) && RepOk(c) && RepOk(p) && s <= |x.text|
    requires c.headExact.None? && c.nextHead.None? && p.headExact.None? && p.nextHead.None?
    ensures Formed(Quant(Quant(t, c), p))
    ensures e in Ends(Quant(Quant(t, c), p), ml, x, cfg, s) <==>
            (s, e) in RepRel(RepRel(RelOf(t, ml, x, cfg), c.lower, c.upper), p.lower, p.upper)
  {
    QuantRel(t, c, ml, x, cfg);
    QuantRel(Quant(t, c), p, ml, x, cfg);
    var r, r' := RelOf(Quant(t, c), ml, x, cfg), RepRel(RelOf(t, ml, x, cfg), c.lower, c.upper);
    forall a: nat, b: nat | a <= |x.text| && (a, b) in r ensures b <= |x.text| {
      EndInside(Quant(t, c), ml, x, cfg, a, b);
    }
    hide Ends, RepRel, Formed;
    RepInside(r, r', p.lower, p.upper, s, e, |x.text|);
    assert (s, e) in RelOf(Quant(Quant(t, c), p), ml, x, cfg) <==> e in Ends(Quant(Quant(t, c), p), ml, x, cfg, s);
  }

  lemma SingleEnds(t: Node, q: Rep, ml: bool, x: Subject, cfg: Cfg, s: nat, e: nat)
    requires Formed(t) && Regular(t) && RepOk(q) && s <= |x.text| && q.headExact.None? && q.nextHead.None?
    ensures Formed(Quant(t, q))
    ensures e in Ends(Quant(t, q), ml, x, cfg, s) <==> (s, e) in RepRel(RelOf(t, ml, x, cfg), q.lower, q.upper)
  {
    QuantRel(t, q, ml, x, cfg);
    hide Ends, RepRel, Formed;
    assert (s, e) in RelOf(Quant(t, q), ml, x, cfg) <==> e in Ends(Quant(t, q), ml, x, cfg, s);
  }

  /** A node around a tree has the ends that its relation says. */
  lemma AroundEnds(node: QuantifierNode, t: Node, ml: bool, x: Subject, cfg: Cfg, s: nat, e: nat)
    requires Formed(t) && Regular(t) && s <= |x.text| && BoundsOk(node.lower, node.upper)
    requires node.inner != null ==> BoundsOk(node.inner.lower, node.inner.upper)
    ensures Formed(TreeOf(node, t))
    ensures e in Ends(TreeOf(node, t), ml, x, cfg, s) <==> (s, e) in node.Around(RelOf(t, ml, x, cfg))
  {
    var q := RepOf(node.lower, node.upper, node.greedy);
    if node.inner == null {
      SingleEnds(t, q, ml, x, cfg, s, e);
    } else {
      NestedEnds(t, RepOf(node.inner.lower, node.inner.upper, node.inner.greedy), q, ml, x, cfg, s, e);
    }
  }

  /** set_quantifier on trees: the node, or with {1,1} the target alone, has the ends of the two nested
      repeats around whatever regular tree they are around; the dropped upper bound loses none. */
  method SetTree(node: QuantifierNode, target: QuantifierNode, ghost t: Node, ghost ml: bool, ghost x: Subject,
                 ghost cfg: Cfg) returns (ret: int)
    requires node != target && node.inner == null && target.inner == null
    requires BoundsOk(node.lower, node.upper) && BoundsOk(target.lower, target.upper)
    requires Formed(t) && Regular(t)
    modifies node, target
    ensures ret == if old(node.lower) == 1 && old(node.upper) == 1 then 1 else 0
    ensures var old2 := Quant(Quant(t, RepOf(old(target.lower), old(target.upper), old(target.greedy))),
                              RepOf(old(node.lower), old(node.upper), old(node.greedy)));
            var new1 := TreeOf(if ret == 1 then target else node, t);
            && Formed(old2) && Formed(new1) && new1 == SetNode(t, RepOf(old(target.lower), old(target.upper),
                 old(target.greedy)), RepOf(old(node.lower), old(node.upper), old(node.greedy)))
            && forall s: nat, e: nat :: s <= |x.text| ==>
                 (e in Ends(new1, ml, x, cfg, s) <==> e in Ends(old2, ml, x, cfg, s))
  {
    ghost var c := RepOf(target.lower, target.upper, target.greedy);
    ghost var p := RepOf(node.lower, node.upper, node.greedy);
    hide *;
    RepsOk(c, p);
    ret := SetQuantifier(node, target);
    SetShape(node, target, t, c, p, ret);
    SameEnds(if ret == 1 then target else node, t, c, p, ml, x, cfg);
  }

  lemma RepsOk(c: Rep, p: Rep)
    ensures BoundsOk(c.lower, c.upper) ==> c.upper == REPEAT_INFINITE || c.lower <= c.upper
    ensures BoundsOk(p.lower, p.upper) ==> p.upper == REPEAT_INFINITE || p.lower <= p.upper
  {
  }

  /** A node with the relation of two nested repeats has their ends. */
  lemma SameEnds(whole: QuantifierNode, t: Node, c: Rep, p: Rep, ml: bool, x: Subject, cfg: Cfg)
    requires Formed(t) && Regular(t) && BoundsOk(c.lower, c.upper) && BoundsOk(p.lower, p.upper)
    requires c == RepOf(c.lower, c.upper, c.greedy) && p == RepOf(p.lower, p.upper, p.greedy)
    requires whole.upper == REPEAT_INFINITE || whole.lower <= whole.upper
    requires whole.inner != null ==> whole.inner.upper == REPEAT_INFINITE || whole.inner.lower <= whole.inner.upper
    requires forall r: Rel :: whole.Around(r) == RepRel(RepRel(r, c.lower, c.upper), p.lower, p.upper)
    ensures Formed(TreeOf(whole, t)) && Formed(Quant(Quant(t, c), p))
    ensures forall s: nat, e: nat :: s <= |x.text| ==>
              (e in Ends(TreeOf(whole, t), ml, x, cfg, s) <==> e in Ends(Quant(Quant(t, c), p), ml, x, cfg, s))
  {
    hide Ends, RepRel, Regular, RelOf;
    var r := RelOf(t, ml, x, cfg);
    assert whole.Around(r) == RepRel(RepRel(r, c.lower, c.upper), p.lower, p.upper);
    BothFormed(whole, t, c, p);
    forall s: nat, e: nat | s <= |x.text|
      ensures e in Ends(TreeOf(whole, t), ml, x, cfg, s) <==> e in Ends(Quant(Quant(t, c), p), ml, x, cfg, s)
    {
      NestedEnds(t, c, p, ml, x, cfg, s, e);
      AroundEnds(whole, t, ml, x, cfg, s, e);
    }
  }

  lemma BothFormed(whole: QuantifierNode, t: Node, c: Rep, p: Rep)
    requires Formed(t) && BoundsOk(c.lower, c.upper) && BoundsOk(p.lower, p.upper)
    requires c == RepOf(c.lower, c.upper, c.greedy) && p == RepOf(p.lower, p.upper, p.greedy)
    requires whole.upper == REPEAT_INFINITE || whole.lower <= whole.upper
    requires whole.inner != null ==> whole.inner.upper == REPEAT_INFINITE || whole.inner.lower <= whole.inner.upper
    ensures Formed(TreeOf(whole, t)) && Formed(Quant(Quant(t, c), p))
  {
  }

  /** The nodes that SetQuantifier leaves stand for the tree that SetNode describes. */
  lemma SetShape(node: QuantifierNode, target: QuantifierNode, t: Node, c: Rep, p: Rep, ret: int)
    requires c == RepOf(c.lower, c.upper, c.greedy) && p == RepOf(p.lower, p.upper, p.greedy)
    requires target.inner == null && ret == if p.lower == 1 && p.upper == 1 then 1 else 0
    requires var cn, pn := PopularOf(c.lower, c.upper, c.greedy), PopularOf(p.lower, p.upper, p.greedy);
             if ret == 0 && cn.Some? && pn.Some? then
               var r := ReduceTable(cn.value, pn.value);
               && node.Num() == Some(Outermost(r, cn.value, pn.value))
               && (if Single(r) then node.inner == null
                   else node.inner == target && target.Num() == Some(Innermost(r, cn.value)))
             else
               && target.lower == c.lower && target.upper == c.upper && target.greedy == c.greedy
               && node.lower == p.lower && node.greedy == p.greedy
               && (ret == 1 || (node.inner == target && node.upper ==
                     if cn.Some? && BoundDrops(p.lower, p.upper, p.greedy, cn.value)
                     then DroppedUpper(p.lower) else p.upper))
    ensures TreeOf(if ret == 1 then target else node, t) == SetNode(t, c, p)
  {
    hide ReducedNode;
    if ret == 0 && IsPopular(c) && IsPopular(p) {
      ReducedShape(node, target, t, PopularRep(c), PopularRep(p));
    }
  }

  lemma ReducedShape(node: QuantifierNode, target: QuantifierNode, t: Node, inner: Popular, outer: Popular)
    requires var r := ReduceTable(inner, outer);
             && node.Num() == Some(Outermost(r, inner, outer))
             && (if Single(r) then node.inner == null
                 else node.inner == target && target.inner == null && target.Num() == Some(Innermost(r, inner)))
    ensures TreeOf(node, t) == ReducedNode(t, inner, outer)
  {
    hide *;
    ReducedIs(t, inner, outer);
    TreeIs(node, t);
    PopularIs(node);
    if target.Num().Some? { PopularIs(target); }
  }

  lemma ReducedIs(t: Node, inner: Popular, outer: Popular)
    ensures var c := ReduceTable(inner, outer);
            ReducedNode(t, inner, outer) ==
            if Single(c) then Quant(t, PopRep(Outermost(c, inner, outer)))
            else Quant(Quant(t, PopRep(Innermost(c, inner))), PopRep(Outermost(c, inner, outer)))
  {
    hide ReduceTable, Single, Outermost, Innermost, PopRep;
  }

  lemma TreeIs(node: QuantifierNode, t: Node)
    ensures var q := RepOf(node.lower, node.upper, node.greedy);
            TreeOf(node, t) == Quant(if node.inner == null then t
                                     else Quant(t, RepOf(node.inner.lower, node.inner.upper, node.inner.greedy)), q)
  {
    hide RepOf;
  }

  lemma PopularIs(node: QuantifierNode)
    requires node.Num().Some?
    ensures RepOf(node.lower, node.upper, node.greedy) == PopRep(node.Num().value)
  {
  }

  /** onig_reduce_nested_quantifier on trees: whatever regular tree the nodes are around, the reduced
      node has the ends of the two nested ones. */
  method ReduceTree(parent: QuantifierNode, child: QuantifierNode, ghost t: Node, ghost ml: bool, ghost x: Subject,
                    ghost cfg: Cfg)
    requires parent != child && child.inner == null && parent.Num().Some? && child.Num().Some?
    requires Formed(t) && Regular(t)
    modifies parent, child
    ensures TreeOf(parent, t) == ReducedNode(t, old(child.Num()).value, old(parent.Num()).value)
    ensures Formed(TreeOf(parent, t))
    ensures var old2 := Quant(Quant(t, RepOf(old(child.lower), old(child.upper), old(child.greedy))),
                              RepOf(old(parent.lower), old(parent.upper), old(parent.greedy)));
            && Formed(old2)
            && forall s: nat, e: nat :: s <= |x.text| ==>
                 (e in Ends(TreeOf(parent, t), ml, x, cfg, s) <==> e in Ends(old2, ml, x, cfg, s))
  {
    ghost var c := RepOf(child.lower, child.upper, child.greedy);
    ghost var p := RepOf(parent.lower, parent.upper, parent.greedy);
    ReduceNestedQuantifier(parent, child);
    ghost var p' := RepOf(parent.lower, parent.upper, parent.greedy);
    hide Ends, RepRel, Regular;
    forall s: nat, e: nat | s <= |x.text|
      ensures Formed(TreeOf(parent, t)) && Formed(Quant(Quant(t, c), p))
      ensures e in Ends(TreeOf(parent, t), ml, x, cfg, s) <==> e in Ends(Quant(Quant(t, c), p), ml, x, cfg, s)
    {
      NestedEnds(t, c, p, ml, x, cfg, s, e);
      if parent.inner == null {
        SingleEnds(t, p', ml, x, cfg, s, e);
      } else {
        NestedEnds(t, RepOf(child.lower, child.upper, child.greedy), p', ml, x, cfg, s, e);
      }
      assert parent.Around(RelOf(t, ml, x, cfg)) == RepRel(RepRel(RelOf(t, ml, x, cfg), c.lower, c.upper), p.lower,
                                                           p.upper);
    }
  }
}
