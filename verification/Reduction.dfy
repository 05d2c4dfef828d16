/** Nested repeats: the rewriting table of onig_reduce_nested_quantifier and the bound change of
    set_quantifier (Dependencies/oniguruma5/regparse.c), on what a repeat relates: start positions to
    end positions. */
module Reduction {
  import opened Regint

  /** From where to where something matches. */
  type Rel = iset<(nat, nat)>

  ghost predicate Path(r: Rel, n: nat, a: nat, b: nat) {
    if n == 0 then a == b else exists m: nat :: (a, m) in r && Path(r, n - 1, m, b)
  }

  predicate InBounds(lower: nat, upper: int, n: nat) { lower <= n && (upper == REPEAT_INFINITE || n <= upper) }

  ghost predicate Repeats(r: Rel, lower: nat, upper: int, a: nat, b: nat) {
    exists n: nat :: InBounds(lower, upper, n) && Path(r, n, a, b)
  }

  /** r{lower,upper} */
  ghost function RepRel(r: Rel, lower: nat, upper: int): Rel {
    iset a: nat, b: nat | Repeats(r, lower, upper, a, b) :: (a, b)
  }

  lemma InRep(r: Rel, lower: nat, upper: int, n: nat, a: nat, b: nat)
    requires InBounds(lower, upper, n) && Path(r, n, a, b)
    ensures (a, b) in RepRel(r, lower, upper)
  {
    assert Repeats(r, lower, upper, a, b);
  }

  lemma OutRep(r: Rel, lower: nat, upper: int, a: nat, b: nat) returns (n: nat)
    requires (a, b) in RepRel(r, lower, upper)
    ensures InBounds(lower, upper, n) && Path(r, n, a, b)
  {
    assert Repeats(r, lower, upper, a, b);
    n :| InBounds(lower, upper, n) && Path(r, n, a, b);
  }

  lemma {:induction false} PathAdd(r: Rel, m: nat, n: nat, a: nat, b: nat, c: nat)
    requires Path(r, m, a, b) && Path(r, n, b, c)
    ensures Path(r, m + n, a, c)
    decreases m
  {
    if m > 0 {
      var i: nat :| (a, i) in r && Path(r, m - 1, i, b);
      PathAdd(r, m - 1, n, i, b, c);
    }
  }

  lemma OneStep(r: Rel, a: nat, b: nat)
    ensures Path(r, 1, a, b) <==> (a, b) in r
  {
    if Path(r, 1, a, b) {
      var m: nat :| (a, m) in r && Path(r, 0, m, b);
    }
    if (a, b) in r { assert Path(r, 0, b, b); }
  }

  /** n steps of r{lower,upper} are as many steps of r as the rounds took together. */
  lemma {:induction false} Flatten(r: Rel, lower: nat, upper: int, n: nat, a: nat, b: nat) returns (m: nat)
    requires Path(RepRel(r, lower, upper), n, a, b)
    ensures Path(r, m, a, b) && m >= lower * n && (upper >= 0 ==> m <= upper * n)
    decreases n
  {
    if n == 0 {
      m := 0;
    } else {
      var s := RepRel(r, lower, upper);
      var i: nat :| (a, i) in s && Path(s, n - 1, i, b);
      var k := OutRep(r, lower, upper, a, i);
      var rest := Flatten(r, lower, upper, n - 1, i, b);
      PathAdd(r, k, rest, a, i, b);
      m := k + rest;
      assert lower * n == lower + lower * (n - 1) && upper * n == upper + upper * (n - 1);
    }
  }

  /** Every step of r is a round of r{lower,upper} if one round may be one step. */
  lemma {:induction false} Rounds(r: Rel, lower: nat, upper: int, n: nat, a: nat, b: nat)
    requires Path(r, n, a, b) && InBounds(lower, upper, 1)
    ensures Path(RepRel(r, lower, upper), n, a, b)
    decreases n
  {
    if n > 0 {
      var i: nat :| (a, i) in r && Path(r, n - 1, i, b);
      OneStep(r, a, i);
      InRep(r, lower, upper, 1, a, i);
      Rounds(r, lower, upper, n - 1, i, b);
    }
  }

  // ----- popular repeats -----

  /** The six repeats of the table, as popular_quantifier_num numbers them. */
  datatype Popular = Quest | Star | Plus | LazyQuest | LazyStar | LazyPlus

  function LowerOf(p: Popular): nat { if p.Plus? || p.LazyPlus? then 1 else 0 }

  function UpperOf(p: Popular): int { if p.Quest? || p.LazyQuest? then 1 else REPEAT_INFINITE }

  predicate GreedyOf(p: Popular) { p.Quest? || p.Star? || p.Plus? }

  function PopularOf(lower: nat, upper: int, greedy: bool): (r: Option<Popular>)
    ensures r.Some? <==> (lower == 0 && upper == 1) || (lower <= 1 && upper == REPEAT_INFINITE)
    ensures r.Some? ==> LowerOf(r.value) == lower && UpperOf(r.value) == upper && GreedyOf(r.value) == greedy
  {
    if lower == 0 && upper == 1 then Some(if greedy then Quest else LazyQuest)
    else if lower == 0 && upper == REPEAT_INFINITE then Some(if greedy then Star else LazyStar)
    else if lower == 1 && upper == REPEAT_INFINITE then Some(if greedy then Plus else LazyPlus)
    else None
  }

  ghost function PopRel(r: Rel, p: Popular): Rel { RepRel(r, LowerOf(p), UpperOf(p)) }

  /** What two nested popular repeats come to: ? of ? is ?, + of + is +, everything else is *. */
  function Nested(inner: Popular, outer: Popular): Popular {
    if UpperOf(inner) == 1 && UpperOf(outer) == 1 then Quest
    else if LowerOf(inner) == 1 && LowerOf(outer) == 1 then Plus
    else Star
  }

  lemma NestedIn(r: Rel, inner: Popular, outer: Popular, a: nat, b: nat)
    requires (a, b) in PopRel(PopRel(r, inner), outer)
    ensures (a, b) in PopRel(r, Nested(inner, outer))
  {
    var n := OutRep(PopRel(r, inner), LowerOf(outer), UpperOf(outer), a, b);
    var m := Flatten(r, LowerOf(inner), UpperOf(inner), n, a, b);
    var c := Nested(inner, outer);
    InRep(r, LowerOf(c), UpperOf(c), m, a, b);
  }

  lemma NestedOut(r: Rel, inner: Popular, outer: Popular, a: nat, b: nat)
    requires (a, b) in PopRel(r, Nested(inner, outer))
    ensures (a, b) in PopRel(PopRel(r, inner), outer)
  {
    var c := Nested(inner, outer);
    var s := PopRel(r, inner);
    var n := OutRep(r, LowerOf(c), UpperOf(c), a, b);
    if InBounds(LowerOf(inner), UpperOf(inner), n) {
      InRep(r, LowerOf(inner), UpperOf(inner), n, a, b);
      OneStep(s, a, b);
      InRep(s, LowerOf(outer), UpperOf(outer), 1, a, b);
    } else {
      Rounds(r, LowerOf(inner), UpperOf(inner), n, a, b);
      InRep(s, LowerOf(outer), UpperOf(outer), n, a, b);
    }
  }

  /** All 36 nestings. */
  lemma NestedSame(r: Rel, inner: Popular, outer: Popular)
    ensures PopRel(PopRel(r, inner), outer) == PopRel(r, Nested(inner, outer))
  {
    forall a: nat, b: nat
      ensures (a, b) in PopRel(PopRel(r, inner), outer) <==> (a, b) in PopRel(r, Nested(inner, outer)) {
      if (a, b) in PopRel(PopRel(r, inner), outer) { NestedIn(r, inner, outer, a, b); }
      if (a, b) in PopRel(r, Nested(inner, outer)) { NestedOut(r, inner, outer, a, b); }
    }
  }

  // ----- the table -----

  datatype ReduceType = Asis | Del | ToStar | ToLazyStar | ToLazyQuest | PlusLazyQuest | LazyPlusQuest

  /** ReduceTypeTable[inner][outer] */
  function ReduceTable(inner: Popular, outer: Popular): ReduceType {
    match inner
    case Quest => (match outer
      case Quest => Del case Star => ToStar case Plus => ToStar
      case LazyQuest => ToLazyQuest case LazyStar => ToLazyStar case LazyPlus => Asis)
    case Star => (match outer
      case Quest => Del case Star => Del case Plus => Del
      case LazyQuest => PlusLazyQuest case LazyStar => PlusLazyQuest case LazyPlus => Del)
    case Plus => (match outer
      case Quest => ToStar case Star => ToStar case Plus => Del
      case LazyQuest => Asis case LazyStar => PlusLazyQuest case LazyPlus => Del)
    case LazyQuest => (match outer
      case Quest => Del case Star => ToLazyStar case Plus => ToLazyStar
      case LazyQuest => Del case LazyStar => ToLazyStar case LazyPlus => ToLazyStar)
    case LazyStar => Del
    case LazyPlus => (match outer
      case Quest => Asis case Star => LazyPlusQuest case Plus => Del
      case LazyQuest => ToLazyStar case LazyStar => ToLazyStar case LazyPlus => Del)
  }

  /** One repeat is left, or two are. */
  predicate Single(c: ReduceType) { c.Del? || c.ToStar? || c.ToLazyStar? || c.ToLazyQuest? }

  function Outermost(c: ReduceType, inner: Popular, outer: Popular): Popular {
    match c
    case Del => inner
    case ToStar => Star
    case ToLazyStar => LazyStar
    case ToLazyQuest => LazyQuest
    case PlusLazyQuest => LazyQuest
    case LazyPlusQuest => Quest
    case Asis => outer
  }

  function Innermost(c: ReduceType, inner: Popular): Popular {
    match c
    case PlusLazyQuest => Plus
    case LazyPlusQuest => LazyPlus
    case _ => inner
  }

  /** The bounds each cell has to come to. */
  lemma CellBounds(inner: Popular, outer: Popular)
    ensures var n := Nested(inner, outer);
            match ReduceTable(inner, outer)
            case Del => LowerOf(inner) == LowerOf(n) && UpperOf(inner) == UpperOf(n)
            case ToStar => n == Star
            case ToLazyStar => n == Star
            case ToLazyQuest => n == Quest
            case PlusLazyQuest => n == Star
            case LazyPlusQuest => n == Star
            case Asis => true
  {
  }

  /** What each cell writes relates the same positions as the two nested repeats. */
  lemma CellSame(r: Rel, inner: Popular, outer: Popular)
    ensures var both := PopRel(PopRel(r, inner), outer);
            match ReduceTable(inner, outer)
            case Del => PopRel(r, inner) == both
            case ToStar => PopRel(r, Star) == both
            case ToLazyStar => PopRel(r, LazyStar) == both
            case ToLazyQuest => PopRel(r, LazyQuest) == both
            case PlusLazyQuest => PopRel(PopRel(r, Plus), LazyQuest) == both
            case LazyPlusQuest => PopRel(PopRel(r, LazyPlus), Quest) == both
            case Asis => true
  {
    CellBounds(inner, outer);
    NestedSame(r, inner, outer);
    NestedSame(r, Plus, LazyQuest);
    NestedSame(r, LazyPlus, Quest);
    hide RepRel, ReduceTable, Nested;
    assert Nested(Plus, LazyQuest) == Star && Nested(LazyPlus, Quest) == Star by { PlusQuest(); }
  }

  lemma PlusQuest()
    ensures Nested(Plus, LazyQuest) == Star && Nested(LazyPlus, Quest) == Star
  {
  }

  // ----- the nodes -----

  /** QuantifierNode; the target is another repeat, or anything else. */
  class QuantifierNode {
    var lower: nat
    var upper: int
    var greedy: bool
    var inner: QuantifierNode?

    constructor (lower: nat, upper: int, greedy: bool)
      ensures this.lower == lower && this.upper == upper && this.greedy == greedy && inner == null
    {
      this.lower, this.upper, this.greedy, inner := lower, upper, greedy, null;
    }

    /** What the node relates when its innermost target relates r. */
    ghost function Around(r: Rel): Rel
      reads this, inner
    {
      RepRel(if inner == null then r else RepRel(r, inner.lower, inner.upper), lower, upper)
    }

    ghost function Num(): Option<Popular>
      reads this
    {
      PopularOf(lower, upper, greedy)
    }
  }

  /** onig_reduce_nested_quantifier: parent and child are overwritten so that the parent alone
      stands for the two nested repeats, around whatever the child is around. */
  method ReduceNestedQuantifier(parent: QuantifierNode, child: QuantifierNode)
    requires parent != child && child.inner == null
    requires parent.Num().Some? && child.Num().Some?
    modifies parent, child
    ensures parent.inner == null || parent.inner == child
    ensures child.inner == null
    ensures var inner, outer := old(child.Num()).value, old(parent.Num()).value;
            var c := ReduceTable(inner, outer);
            && parent.Num() == Some(Outermost(c, inner, outer))
            && (if Single(c) then parent.inner == null
                else parent.inner == child && child.Num() == Some(Innermost(c, inner)))
    ensures (parent.upper == REPEAT_INFINITE || parent.lower <= parent.upper)
            && (child.upper == REPEAT_INFINITE || child.lower <= child.upper)
    ensures forall r: Rel :: parent.Around(r) ==
              RepRel(RepRel(r, old(child.lower), old(child.upper)), old(parent.lower), old(parent.upper))
  {
    ghost var outer, inner := parent.Num().value, child.Num().value;
    var p := PopularOf(parent.lower, parent.upper, parent.greedy);
    var c := PopularOf(child.lower, child.upper, child.greedy);
    hide RepRel, ReduceTable;
    match ReduceTable(c.value, p.value) {
      case Del =>
        parent.lower, parent.upper, parent.greedy, parent.inner := child.lower, child.upper, child.greedy, child.inner;
      case ToStar =>
        parent.inner := child.inner;
        parent.lower, parent.upper, parent.greedy := 0, REPEAT_INFINITE, true;
      case ToLazyStar =>
        parent.inner := child.inner;
        parent.lower, parent.upper, parent.greedy := 0, REPEAT_INFINITE, false;
      case ToLazyQuest =>
        parent.inner := child.inner;
        parent.lower, parent.upper, parent.greedy := 0, 1, false;
      case PlusLazyQuest =>
        parent.inner := child;
        parent.lower, parent.upper, parent.greedy := 0, 1, false;
        child.lower, child.upper, child.greedy := 1, REPEAT_INFINITE, true;
      case LazyPlusQuest =>
        parent.inner := child;
        parent.lower, parent.upper, parent.greedy := 0, 1, true;
        child.lower, child.upper, child.greedy := 1, REPEAT_INFINITE, false;
      case Asis =>
        parent.inner := child;
    }
    forall r: Rel ensures parent.Around(r) == PopRel(PopRel(r, inner), outer) { CellSame(r, inner, outer); }
  }

  // ----- set_quantifier -----

  /** (?:a*){n,m} and (?:a+){n,m}: greedy, bounded, more than one round. */
  predicate BoundDrops(lower: nat, upper: int, greedy: bool, inner: Popular) {
    (inner.Star? || inner.Plus?) && upper != REPEAT_INFINITE && upper > 1 && greedy
  }

  function DroppedUpper(lower: nat): int { if lower == 0 then 1 else lower }

  /** Some number of rounds in bounds is enough: one round takes what the others would. */
  lemma FewerRounds(r: Rel, inner: Popular, lower: nat, n: nat, a: nat, b: nat)
    requires (inner.Star? || inner.Plus?) && n >= 1 && n >= lower && Path(PopRel(r, inner), n, a, b)
    ensures Path(PopRel(r, inner), if lower == 0 then 1 else lower, a, b)
  {
    var k := if lower == 0 then 1 else lower;
    var s := PopRel(r, inner);
    MergeRounds(r, inner, n, k, a, b);
  }

  lemma {:induction false} MergeRounds(r: Rel, inner: Popular, n: nat, k: nat, a: nat, b: nat)
    requires (inner.Star? || inner.Plus?) && 1 <= k <= n && Path(PopRel(r, inner), n, a, b)
    ensures Path(PopRel(r, inner), k, a, b)
    decreases n
  {
    hide RepRel;
    var s := PopRel(r, inner);
    if k < n {
      var i := FirstStep(s, n, a, b);
      var j := FirstStep(s, n - 1, i, b);
      hide Path, PopRel;
      JoinRounds(r, inner, a, i, j);
      StepFirst(s, n - 1, a, j, b);
      MergeRounds(r, inner, n - 1, k, a, b);
    }
  }

  /** Two rounds of a* or of a+ are one. */
  lemma JoinRounds(r: Rel, inner: Popular, a: nat, i: nat, j: nat)
    requires (inner.Star? || inner.Plus?) && (a, i) in PopRel(r, inner) && (i, j) in PopRel(r, inner)
    ensures (a, j) in PopRel(r, inner)
  {
    var m1 := OutRep(r, LowerOf(inner), UpperOf(inner), a, i);
    var m2 := OutRep(r, LowerOf(inner), UpperOf(inner), i, j);
    PathAdd(r, m1, m2, a, i, j);
    InRep(r, LowerOf(inner), UpperOf(inner), m1 + m2, a, j);
  }

  lemma FirstStep(r: Rel, n: nat, a: nat, b: nat) returns (m: nat)
    requires n > 0 && Path(r, n, a, b)
    ensures (a, m) in r && Path(r, n - 1, m, b)
  {
    m :| (a, m) in r && Path(r, n - 1, m, b);
  }

  lemma StepFirst(r: Rel, n: nat, a: nat, m: nat, b: nat)
    requires n > 0 && (a, m) in r && Path(r, n - 1, m, b)
    ensures Path(r, n, a, b)
  {
  }

  /** No rounds of a* or a+ around nothing: the same as none. */
  lemma DropIn(r: Rel, inner: Popular, lower: nat, upper: int, a: nat, b: nat)
    requires BoundDrops(lower, upper, true, inner) && lower <= upper && (a, b) in RepRel(PopRel(r, inner), lower, upper)
    ensures (a, b) in RepRel(PopRel(r, inner), lower, DroppedUpper(lower))
  {
    var s := PopRel(r, inner);
    var n := OutRep(s, lower, upper, a, b);
    if n == 0 {
      InRep(s, lower, DroppedUpper(lower), 0, a, b);
    } else {
      FewerRounds(r, inner, lower, n, a, b);
      InRep(s, lower, DroppedUpper(lower), if lower == 0 then 1 else lower, a, b);
    }
  }

  /** set_quantifier: lowering the bound of (?:a*){n,m} or (?:a+){n,m} loses nothing and adds nothing. */
  lemma DropSame(r: Rel, inner: Popular, lower: nat, upper: int)
    requires BoundDrops(lower, upper, true, inner) && lower <= upper
    ensures RepRel(PopRel(r, inner), lower, upper) == RepRel(PopRel(r, inner), lower, DroppedUpper(lower))
  {
    var s := PopRel(r, inner);
    forall a: nat, b: nat
      ensures (a, b) in RepRel(s, lower, upper) <==> (a, b) in RepRel(s, lower, DroppedUpper(lower)) {
      if (a, b) in RepRel(s, lower, upper) { DropIn(r, inner, lower, upper, a, b); }
      if (a, b) in RepRel(s, lower, DroppedUpper(lower)) {
        var n := OutRep(s, lower, DroppedUpper(lower), a, b);
        InRep(s, lower, upper, n, a, b);
      }
    }
  }

  lemma JustOnce(r: Rel)
    ensures RepRel(r, 1, 1) == r
  {
    forall p: (nat, nat) ensures p in RepRel(r, 1, 1) <==> p in r {
      OneStep(r, p.0, p.1);
      if p in RepRel(r, 1, 1) { var n := OutRep(r, 1, 1, p.0, p.1); }
      if p in r { InRep(r, 1, 1, 1, p.0, p.1); }
    }
  }

  /** The part of set_quantifier for a target that is a repeat itself. With {1,1} it returns 1: the
      caller keeps the target alone. */
  method SetQuantifier(node: QuantifierNode, target: QuantifierNode) returns (ret: int)
    requires node != target && node.inner == null && target.inner == null
    requires node.upper == REPEAT_INFINITE || node.lower <= node.upper
    modifies node, target
    ensures target.inner == null && (ret == 0 ==> node.inner == null || node.inner == target)
    ensures ret == 0 ==> node.upper == REPEAT_INFINITE || node.lower <= node.upper
    ensures || (target.upper == old(target.upper) && target.lower == old(target.lower))
            || target.upper == REPEAT_INFINITE || target.lower <= target.upper
    ensures var c, p := old(target.Num()), old(node.Num());
            if ret == 0 && c.Some? && p.Some? then
              var r := ReduceTable(c.value, p.value);
              && node.Num() == Some(Outermost(r, c.value, p.value))
              && (if Single(r) then node.inner == null
                  else node.inner == target && target.Num() == Some(Innermost(r, c.value)))
            else
              && target.lower == old(target.lower) && target.upper == old(target.upper)
              && target.greedy == old(target.greedy)
              && node.lower == old(node.lower) && node.greedy == old(node.greedy)
              && (ret == 1 || (node.inner == target && node.upper ==
                    if c.Some? && BoundDrops(node.lower, old(node.upper), node.greedy, c.value)
                    then DroppedUpper(node.lower) else old(node.upper)))
    ensures ret == if old(node.lower) == 1 && old(node.upper) == 1 then 1 else 0
    ensures forall r: Rel :: (if ret == 1 then target else node).Around(r) ==
              RepRel(RepRel(r, old(target.lower), old(target.upper)), old(node.lower), old(node.upper))
  {
    if node.lower == 1 && node.upper == 1 {
      forall r: Rel ensures target.Around(r) == RepRel(RepRel(r, target.lower, target.upper), 1, 1) {
        JustOnce(RepRel(r, target.lower, target.upper));
      }
      return 1;
    }
    ret := 0;
    var c := PopularOf(target.lower, target.upper, target.greedy);
    var p := PopularOf(node.lower, node.upper, node.greedy);
    if c.Some? {
      if p.Some? {
        ReduceNestedQuantifier(node, target);
        return;
      } else if BoundDrops(node.lower, node.upper, node.greedy, c.value) {
        ghost var upper := node.upper;
        node.upper := DroppedUpper(node.lower);
        node.inner := target;
        forall r: Rel ensures node.Around(r) == RepRel(PopRel(r, c.value), node.lower, upper) {
          DropSame(r, c.value, node.lower, upper);
        }
        return;
      }
    }
    node.inner := target;
  }
}
