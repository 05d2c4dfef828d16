/** The lengths computed at compile time bound every match. */
module LengthSound {
  import opened Regint
  import opened Regparse
  import opened Regcomp
  import opened Machine
  import opened Meaning
  import opened Lengths

  // ----- every match is at least MinLen long -----

  ghost predicate AtLeast(r: seq<nat>, b: nat) { forall i :: 0 <= i < |r| ==> r[i] >= b }

  lemma DistanceMultiplyBound(d: Distance, m: nat)
    requires m <= MAX_REPEAT_NUM
    ensures DistanceMultiply(d, m) <= d * m || d * m > INT_MAX
  {
    if m > 0 && d >= INFINITE_DISTANCE / m {
      var q := INFINITE_DISTANCE / m;
      assert q * m + INFINITE_DISTANCE % m == INFINITE_DISTANCE;
      MulMono(q, d, m);
    }
  }

  /** No match is shorter than get_min_match_length says. */
  lemma {:induction false} MinLenSound(n: Node, ml: bool, x: Subject, cfg: Cfg, s: nat)
    requires Formed(n) && Ready(n) && s <= |x.text| <= INT_MAX
    ensures AtLeast(Ends(n, ml, x, cfg, s), s + MinLen(n))
    decreases n, 3, 0, 0, 0, 0
  {
    hide EndsRep, EndsSimple, EndsEach, CompileLength, FormOf, DistanceMultiply, HasAt, AtAnchor;
    match n
    case List(ns) => MinLenListSound(ns, ml, x, cfg, s);
    case Alt(ns) => MinLenAltSound(ns, ml, x, cfg, s);
    case Quant(t, q) => MinLenQuantSound(t, q, ml, x, cfg, s);
    case Group(_, b) => MinLenSound(b, ml, x, cfg, s);
    case OptionNode(ml', b) => MinLenSound(b, ml', x, cfg, s);
    case Atomic(simple, b) =>
      if simple { MinLenSimpleRepeatSound(b.target, b.q, ml, x, cfg, s); } else { MinLenSound(b, ml, x, cfg, s); }
    case Look(k, len, b) =>
      if k.LookBehind? && s >= len { CharLenSound(b, true, ml, x, cfg, s - len); }
    case _ =>
  }

  lemma {:induction false} MinLenQuantSound(t: Node, q: Rep, ml: bool, x: Subject, cfg: Cfg, s: nat)
    requires Formed(t) && RepOk(q) && Ready(t) && q.lower <= MAX_REPEAT_NUM && s <= |x.text| <= INT_MAX
    ensures AtLeast(EndsRep(t, q, ml, x, cfg, 0, s), s + if q.lower > 0 then DistanceMultiply(MinLen(t), q.lower)
            else 0)
    decreases t, 6, 0, 0, 0, 0
  {
    MinLenRepSound(t, q, ml, x, cfg, 0, s);
    DistanceMultiplyBound(MinLen(t), q.lower);
    Commute(MinLen(t), q.lower);
  }

  lemma {:induction false} MinLenSimpleRepeatSound(t: Node, q: Rep, ml: bool, x: Subject, cfg: Cfg, s: nat)
    requires Formed(t) && Ready(t) && q.lower <= MAX_REPEAT_NUM && s <= |x.text| <= INT_MAX
    ensures AtLeast(EndsSimple(t, q.lower, ml, x, cfg, 0, s), s + if q.lower > 0 then
            DistanceMultiply(MinLen(t), q.lower) else 0)
    decreases t, 6, 0, 0, 0, 0
  {
    MinLenSimpleSound(t, q.lower, ml, x, cfg, 0, s);
    DistanceMultiplyBound(MinLen(t), q.lower);
    Commute(MinLen(t), q.lower);
  }

  lemma Commute(a: int, b: int)
    ensures a * b == b * a
  {
  }

  /** One more iteration of length c pays for one copy owed. */
  lemma OwedStep(lower: nat, k: nat, c: nat)
    ensures Owed(lower, k) * c <= c + Owed(lower, k + 1) * c
  {
    if k < lower {
      assert Owed(lower, k) == 1 + Owed(lower, k + 1);
    }
  }

  lemma {:induction false} MinLenListSound(ns: Nodes, ml: bool, x: Subject, cfg: Cfg, s: nat)
    requires AllFormed(ns) && AllReady(ns) && s <= |x.text| <= INT_MAX
    ensures AtLeast(EndsList(ns, ml, x, cfg, s), s + MinLenList(ns))
    decreases ns, 0, 0, 0, 0, 0
  {
    match ns
    case Last(n) => MinLenSound(n, ml, x, cfg, s);
    case Cons(n, rest) =>
      MinLenSound(n, ml, x, cfg, s);
      MinLenListAllSound(rest, ml, x, cfg, Ends(n, ml, x, cfg, s), s + MinLen(n));
  }

  lemma {:induction false} MinLenListAllSound(ns: Nodes, ml: bool, x: Subject, cfg: Cfg, from: seq<nat>, b: nat)
    requires AllFormed(ns) && AllReady(ns) && Bounded(from, x) && |x.text| <= INT_MAX
    requires AtLeast(from, b)
    ensures AtLeast(EndsListAll(ns, ml, x, cfg, from), b + MinLenList(ns))
    decreases ns, 1, |from|, 0, 0, 0
  {
    if from != [] {
      MinLenListSound(ns, ml, x, cfg, from[0]);
      MinLenListAllSound(ns, ml, x, cfg, from[1..], b);
    }
  }

  lemma {:induction false} MinLenAltSound(ns: Nodes, ml: bool, x: Subject, cfg: Cfg, s: nat)
    requires AllFormed(ns) && AllReady(ns) && s <= |x.text| <= INT_MAX
    ensures AtLeast(EndsAlt(ns, ml, x, cfg, s), s + MinLenAlt(ns))
    decreases ns, 0, 0, 0, 0, 0
  {
    match ns
    case Last(n) => MinLenSound(n, ml, x, cfg, s);
    case Cons(n, rest) =>
      MinLenSound(n, ml, x, cfg, s);
      MinLenAltSound(rest, ml, x, cfg, s);
  }

  function Owed(lower: nat, k: nat): nat { if k < lower then lower - k else 0 }

  lemma {:induction false} MinLenRepSound(t: Node, q: Rep, ml: bool, x: Subject, cfg: Cfg, k: nat, s: nat)
    requires Formed(t) && RepOk(q) && Ready(t) && s <= |x.text| <= INT_MAX
    ensures AtLeast(EndsRep(t, q, ml, x, cfg, k, s), s + Owed(q.lower, k) * MinLen(t))
    decreases t, 5, Left(q, k), |x.text| - s, 1, 0
  {
    hide Ends, EndsRep, EndsEach, Entered, Leavable, Formed, Ready, MinLen;
    RepCases(t, q, ml, x, cfg, k, s);
    assert k >= q.lower ==> Owed(q.lower, k) * MinLen(t) == 0;
    if !UpperReached(q, k) {
      MinLenSound(t, ml, x, cfg, s);
      MinLenEachSound(t, q, ml, x, cfg, k + 1, Ends(t, ml, x, cfg, s), s);
    }
  }

  lemma {:induction false} MinLenEachSound(t: Node, q: Rep, ml: bool, x: Subject, cfg: Cfg, k: nat, es: seq<nat>,
                                           s: nat)
    requires Formed(t) && RepOk(q) && Ready(t) && s <= |x.text| <= INT_MAX
    requires Bounded(es, x) && k > 0 && !UpperReached(q, k - 1) && AtLeast(es, s + MinLen(t))
    ensures AtLeast(EndsEach(t, q, ml, x, cfg, k, es, s), s + Owed(q.lower, k - 1) * MinLen(t))
    decreases t, 5, Left(q, k - 1), |x.text| - s, 0, |es|
  {
    hide Ends, EndsRep, EndsEach, Checked, Formed, Ready, RepOk;
    EachSplit(t, q, ml, x, cfg, k, es, s);
    if es != [] {
      var c := MinLen(t);
      if es[0] > s || !Checked(t, q, cfg, k - 1) {
        LeftFalls(t, q, cfg, k - 1);
        MinLenRepSound(t, q, ml, x, cfg, k, es[0]);
        OwedStep(q.lower, k - 1, c);
      } else {
        assert c == 0;
      }
      MinLenEachSound(t, q, ml, x, cfg, k, es[1..], s);
    }
  }

  lemma {:induction false} MinLenSimpleSound(t: Node, lower: nat, ml: bool, x: Subject, cfg: Cfg, k: nat, s: nat)
    requires Formed(t) && Ready(t) && s <= |x.text| <= INT_MAX
    ensures AtLeast(EndsSimple(t, lower, ml, x, cfg, k, s), s + Owed(lower, k) * MinLen(t))
    decreases t, 5, |x.text| - s, 0, 0, 0
  {
    MinLenSound(t, ml, x, cfg, s);
    var es := Ends(t, ml, x, cfg, s);
    if es != [] && es[0] > s {
      MinLenSimpleSound(t, lower, ml, x, cfg, k + 1, es[0]);
      OwedStep(lower, k, MinLen(t));
    }
  }

  // ----- a fixed character length is the length of every match -----

  ghost predicate AllAt(r: seq<nat>, e: nat) { forall i :: 0 <= i < |r| ==> r[i] == e }

  /** If get_char_length_tree1 accepts a target with length len, every match is exactly that long. */
  lemma {:induction false} CharLenSound(n: Node, top: bool, ml: bool, x: Subject, cfg: Cfg, s: nat)
    requires Formed(n) && Ready(n) && s <= |x.text| <= INT_MAX
    requires CharLenTree(n, top).Fixed? && CharLenTree(n, top).len < INFINITE_DISTANCE
    ensures AllAt(Ends(n, ml, x, cfg, s), s + CharLenTree(n, top).len)
    decreases n, 3, 0, 0, 0, 0
  {
    match n
    case List(ns) => CharLenListSound(ns, ml, x, cfg, s);
    case Alt(ns) => CharLenAltSound(ns, ml, x, cfg, s);
    case Quant(t, q) => CharLenRepSound(t, q, ml, x, cfg, 0, s);
    case Group(_, b) => CharLenSound(b, false, ml, x, cfg, s);
    case OptionNode(ml', b) => CharLenSound(b, false, ml', x, cfg, s);
    case Atomic(simple, b) =>
      if simple {
      } else {
        CharLenSound(b, false, ml, x, cfg, s);
      }
    case Look(k, len, b) =>
      if k.LookBehind? && s >= len { CharLenSound(b, true, ml, x, cfg, s - len); }
    case _ =>
  }

  lemma {:induction false} CharLenListSound(ns: Nodes, ml: bool, x: Subject, cfg: Cfg, s: nat)
    requires AllFormed(ns) && AllReady(ns) && s <= |x.text| <= INT_MAX
    requires CharLenList(ns).Fixed? && CharLenList(ns).len < INFINITE_DISTANCE
    ensures AllAt(EndsList(ns, ml, x, cfg, s), s + CharLenList(ns).len)
    decreases ns, 0, 0, 0, 0, 0
  {
    match ns
    case Last(n) => CharLenSound(n, false, ml, x, cfg, s);
    case Cons(n, rest) =>
      CharLenSound(n, false, ml, x, cfg, s);
      CharLenListAllSound(rest, ml, x, cfg, Ends(n, ml, x, cfg, s), s + CharLenTree(n, false).len);
  }

  lemma {:induction false} CharLenListAllSound(ns: Nodes, ml: bool, x: Subject, cfg: Cfg, from: seq<nat>, e: nat)
    requires AllFormed(ns) && AllReady(ns) && Bounded(from, x) && |x.text| <= INT_MAX && AllAt(from, e)
    requires CharLenList(ns).Fixed? && CharLenList(ns).len < INFINITE_DISTANCE
    ensures AllAt(EndsListAll(ns, ml, x, cfg, from), e + CharLenList(ns).len)
    decreases ns, 1, |from|, 0, 0, 0
  {
    if from != [] {
      CharLenListSound(ns, ml, x, cfg, from[0]);
      CharLenListAllSound(ns, ml, x, cfg, from[1..], e);
    }
  }

  lemma {:induction false} CharLenAltSound(ns: Nodes, ml: bool, x: Subject, cfg: Cfg, s: nat)
    requires AllFormed(ns) && AllReady(ns) && s <= |x.text| <= INT_MAX
    requires CharLenAlt(ns).SameLen? && CharLenAlt(ns).len < INFINITE_DISTANCE
    ensures AllAt(EndsAlt(ns, ml, x, cfg, s), s + CharLenAlt(ns).len)
    decreases ns, 0, 0, 0, 0, 0
  {
    match ns
    case Last(n) => CharLenSound(n, false, ml, x, cfg, s);
    case Cons(n, rest) =>
      CharLenSound(n, false, ml, x, cfg, s);
      CharLenAltSound(rest, ml, x, cfg, s);
  }

  /** What copies still owed add up to. */
  function OwedLength(lower: nat, k: nat, c: nat): nat
    requires k <= lower
  {
    (lower - k) * c
  }

  lemma OwedLengthStep(lower: nat, k: nat, c: nat)
    requires k < lower
    ensures OwedLength(lower, k, c) == c + OwedLength(lower, k + 1, c)
  {
  }

  lemma FixedUnfold(t: Node, q: Rep, ml: bool, x: Subject, cfg: Cfg, k: nat, s: nat)
    requires Formed(t) && RepOk(q) && s <= |x.text| && k <= q.lower == q.upper
    ensures EndsRep(t, q, ml, x, cfg, k, s) ==
            if k == q.lower then [s] else EndsEach(t, q, ml, x, cfg, k + 1, Ends(t, ml, x, cfg, s), s)
  {
    hide Ends, EndsEach, Formed;
  }

  /** A {n,n} repeat that still owes copies of a fixed-length body. */
  lemma {:induction false} CharLenRepSound(t: Node, q: Rep, ml: bool, x: Subject, cfg: Cfg, k: nat, s: nat)
    requires Formed(t) && RepOk(q) && Ready(t) && s <= |x.text| <= INT_MAX && k <= q.lower == q.upper
    requires CharLenTree(t, false).Fixed?
    requires q.lower > 0 ==> CharLenTree(t, false).len < INFINITE_DISTANCE
    ensures AllAt(EndsRep(t, q, ml, x, cfg, k, s), s + OwedLength(q.lower, k, CharLenTree(t, false).len))
    decreases t, 5, Left(q, k), |x.text| - s, 1, 0
  {
    hide Ends, EndsRep, EndsEach, Formed, Ready, CharLenTree, OwedLength;
    FixedUnfold(t, q, ml, x, cfg, k, s);
    if k < q.lower {
      CharLenSound(t, false, ml, x, cfg, s);
      CharLenEachSound(t, q, ml, x, cfg, k + 1, Ends(t, ml, x, cfg, s), s);
    } else {
      NoneOwed(q.lower, CharLenTree(t, false).len);
    }
  }

  lemma NoneOwed(lower: nat, c: nat)
    ensures OwedLength(lower, lower, c) == 0
  {
  }

  lemma {:induction false} CharLenEachSound(t: Node, q: Rep, ml: bool, x: Subject, cfg: Cfg, k: nat, es: seq<nat>,
                                            s: nat)
    requires Formed(t) && RepOk(q) && Ready(t) && s <= |x.text| <= INT_MAX && 0 < k <= q.lower == q.upper
    requires Bounded(es, x) && CharLenTree(t, false).Fixed? && CharLenTree(t, false).len < INFINITE_DISTANCE
    requires AllAt(es, s + CharLenTree(t, false).len)
    ensures AllAt(EndsEach(t, q, ml, x, cfg, k, es, s), s + OwedLength(q.lower, k - 1, CharLenTree(t, false).len))
    decreases t, 5, Left(q, k - 1), |x.text| - s, 0, |es|
  {
    hide Ends, EndsRep, EndsEach, Formed, Ready, CharLenTree, OwedLength, Checked;
    EachSplit(t, q, ml, x, cfg, k, es, s);
    if es != [] {
      var c := CharLenTree(t, false).len;
      OwedLengthStep(q.lower, k - 1, c);
      if es[0] > s || !Checked(t, q, cfg, k - 1) {
        LeftFalls(t, q, cfg, k - 1);
        CharLenRepSound(t, q, ml, x, cfg, k, es[0]);
      } else {
        NothingOwed(q.lower, k, c);
      }
      CharLenEachSound(t, q, ml, x, cfg, k, es[1..], s);
    }
  }

  lemma NothingOwed(lower: nat, k: nat, c: nat)
    requires k <= lower && c == 0
    ensures OwedLength(lower, k, c) == 0
  {
  }
}
