/** Parse trees the fast search is right for, by simple signs: set-up leaves them so. */
module SearchReady {
  import opened Regint
  import opened Regparse
  import opened Lengths
  import opened Setup
  import opened Optimize
  import opened OptimizeSound
  import opened LastRepeat
  import opened DotStar

  /** No anchors, and no X{n,n} with n >= 2. */
  predicate Unfixed(n: Node) {
    match n
    case List(ns) => AllUnfixed(ns)
    case Alt(ns) => AllUnfixed(ns)
    case Quant(t, q) => Unfixed(t) && q.lower <= MAX_REPEAT_NUM && !(q.lower == q.upper && q.lower >= 2)
    case Group(_, b) => Unfixed(b)
    case OptionNode(_, b) => Unfixed(b)
    case Atomic(simple, b) => Unfixed(b) && (simple ==> SimpleLoop(b))
    case Anchor(_) => false
    case Look(_, _, b) => Unfixed(b)
    case _ => true
  }

  predicate SimpleLoop(b: Node) {
    b.Quant? && b.q.greedy && Infinite(b.q.upper) && IsSimple(b.target) && b.target != Str([])
  }

  predicate AllUnfixed(ns: Nodes) {
    match ns
    case Last(n) => Unfixed(n)
    case Cons(n, rest) => Unfixed(n) && AllUnfixed(rest)
  }

  /** No look-around, and no .* in an atomic group other than a possessive repeat. */
  predicate LookFree(n: Node) {
    match n
    case List(ns) => AllLookFree(ns)
    case Alt(ns) => AllLookFree(ns)
    case Quant(t, _) => LookFree(t)
    case Group(_, b) => LookFree(b)
    case OptionNode(_, b) => LookFree(b)
    case Atomic(simple, b) => LookFree(b) && (simple || NoDotStar(b))
    case Anchor(_) => false
    case Look(_, _, _) => false
    case _ => true
  }

  predicate AllLookFree(ns: Nodes) {
    match ns
    case Last(n) => LookFree(n)
    case Cons(n, rest) => LookFree(n) && AllLookFree(rest)
  }

  // ----- the analysis of such trees can be trusted -----

  lemma {:induction false} UnfixedSearchable(n: Node)
    requires Unfixed(n)
    ensures Searchable(n)
  {
    match n
    case List(ns) => AllUnfixedSearchable(ns);
    case Alt(ns) => AllUnfixedSearchable(ns);
    case Quant(t, _) => UnfixedSearchable(t);
    case Group(_, b) => UnfixedSearchable(b);
    case OptionNode(_, b) => UnfixedSearchable(b);
    case Atomic(_, b) => UnfixedSearchable(b);
    case Look(_, _, b) => UnfixedSearchable(b);
    case _ =>
  }

  lemma {:induction false} AllUnfixedSearchable(ns: Nodes)
    requires AllUnfixed(ns)
    ensures AllSearchable(ns)
  {
    UnfixedSearchable(ns.left);
    if ns.Cons? { AllUnfixedSearchable(ns.right); }
  }

  lemma {:induction false} LookFreeSure(n: Node)
    requires LookFree(n)
    ensures Sure(n)
  {
    match n
    case List(ns) => AllLookFreeSure(ns);
    case Alt(ns) => LookFreeSure(ns.left);
    case Quant(t, _) => LookFreeSure(t);
    case Group(_, b) => LookFreeSure(b);
    case OptionNode(_, b) => LookFreeSure(b);
    case Atomic(_, b) => LookFreeSure(b);
    case _ =>
  }

  lemma {:induction false} AllLookFreeSure(ns: Nodes)
    requires AllLookFree(ns)
    ensures AllSure(ns)
  {
    LookFreeSure(ns.left);
    if ns.Cons? { AllLookFreeSure(ns.right); }
  }

  lemma {:induction false} LookFreeHonest(n: Node, env: Mml, ml: bool, dotAll: bool)
    requires LookFree(n) && Flag(OptNode(n, env, ml), dotAll)
    ensures Honest(n, env, ml, dotAll)
    decreases n, 1
  {
    match n
    case List(ns) => ListHonest(ns, Bound(env), env, ml, dotAll);
    case Alt(ns) =>
      hide OptNode;
      AltNode(ns, env, ml);
      if ns.Cons? {
        AltFlag(ns.right, OptNode(ns.left, env, ml), env, ml, dotAll);
        AltHonest(ns.right, OptNode(ns.left, env, ml), env, ml, dotAll);
      }
      LookFreeHonest(ns.left, env, ml, dotAll);
    case Quant(t, q) => if q.lower > 0 { LookFreeHonest(t, env, ml, dotAll); }
    case Group(_, b) => LookFreeHonest(b, env, ml, dotAll);
    case OptionNode(ml', b) => LookFreeHonest(b, env, ml', dotAll);
    case Atomic(simple, b) => if !simple { NoFlags(b, env, ml); }
    case _ =>
  }

  lemma AltNode(ns: Nodes, env: Mml, ml: bool)
    ensures OptNode(Alt(ns), env, ml) == OptAlt(ns, env, ml)
  {
  }

  lemma {:induction false} AltHonest(ns: Nodes, a: Opt, env: Mml, ml: bool, dotAll: bool)
    requires AllLookFree(ns) && Flag(OptAltFrom(ns, a, env, ml), dotAll)
    ensures AllHonest(ns, env, ml, dotAll)
    decreases ns, 0
  {
    hide OptNode, Honest, LookFree;
    AltFlag(ns, a, env, ml, dotAll);
    LookFreeHonest(ns.left, env, ml, dotAll);
    if ns.Cons? { AltHonest(ns.right, AltMerge(a, OptNode(ns.left, env, ml)), env, ml, dotAll); }
  }

  lemma {:induction false} ListHonest(ns: Nodes, a: Opt, env: Mml, ml: bool, dotAll: bool)
    requires AllLookFree(ns) && Flag(OptList(ns, a, env, ml), dotAll) && !Flag(a, dotAll)
    ensures HonestList(ns, env, ml, dotAll)
    decreases ns, 0
  {
    hide OptNode, Honest, LookFree, Sure, SelectExact, SelectMap;
    var b := OptNode(ns.left, env, ml);
    LookFreeSure(ns.left);
    if Flag(b, dotAll) {
      LookFreeHonest(ns.left, env, ml, dotAll);
    } else if ns.Cons? {
      ListHonest(ns.right, ConcatLeft(a, b), AddMml(env, b.len), ml, dotAll);
    }
  }

  /** Without .*, or without look-around, the flags are honest. */
  lemma PlainAnchored(n: Node, ml: bool)
    requires NoDotStar(n) || LookFree(n)
    ensures Anchored(n, ml)
  {
    if NoDotStar(n) {
      NoStarAnchored(n, ml);
    } else {
      hide OptNode, Honest;
      if OptNode(n, ZERO, ml).star { LookFreeHonest(n, ZERO, ml, false); }
      if OptNode(n, ZERO, ml).starMl { LookFreeHonest(n, ZERO, ml, true); }
    }
  }

  // ----- set-up keeps the signs -----

  lemma {:induction false} NextPlain(n: Node, next: Node)
    requires Unfixed(n)
    ensures Unfixed(NextSetup(n, next)) && (NoDotStar(n) ==> NoDotStar(NextSetup(n, next)))
    ensures LookFree(n) ==> LookFree(NextSetup(n, next))
  {
    if n.Group? { NextPlain(n.body, next); }
  }

  lemma {:induction false} SetupPlain(n: Node, inside: bool)
    requires Parsed(n) && Unfixed(n)
    ensures Unfixed(SetupTree(n, inside)) && (NoDotStar(n) ==> NoDotStar(SetupTree(n, inside)))
    ensures LookFree(n) ==> LookFree(SetupTree(n, inside))
  {
    match n
    case List(ns) => ListPlain(ns, inside);
    case Alt(ns) => AltPlain(ns, inside);
    case Quant(t, q) =>
      SetupPlain(t, true);
      SetupAnyChar(t);
      QuantPlain(SetupTree(t, true), SetRep(t, q, inside));
    case Group(_, b) => SetupPlain(b, inside);
    case OptionNode(_, b) => SetupPlain(b, inside);
    case Atomic(_, b) =>
      SetupPlain(b, inside);
      if SimpleAtomic(SetupTree(b, inside)) { AtomicPlain(b, inside); }
    case Look(_, _, b) => SetupPlain(b, inside);
    case _ =>
  }

  lemma SetupAnyChar(t: Node)
    ensures SetupTree(t, true).AnyChar? <==> t.AnyChar?
  {
  }

  lemma QuantPlain(t: Node, q: Rep)
    requires Unfixed(t) && q.lower <= MAX_REPEAT_NUM && !(q.lower == q.upper && q.lower >= 2)
    ensures Unfixed(QuantSetup(t, q)) && (LookFree(Quant(t, q)) ==> LookFree(QuantSetup(t, q)))
    ensures NoDotStar(Quant(t, q)) ==> NoDotStar(QuantSetup(t, q))
  {
    if t.Quant? && t.q.headExact.Some? {
      var t' := Quant(t.target, t.q.(headExact := None));
      assert Unfixed(t') && (LookFree(t) ==> LookFree(t')) && (NoDotStar(t) ==> NoDotStar(t'));
    }
  }

  lemma AtomicPlain(b: Node, inside: bool)
    requires Parsed(b) && !EmptyLoop(b) && SimpleAtomic(SetupTree(b, inside))
    ensures SimpleLoop(SetupTree(b, inside))
  {
  }

  lemma {:induction false} ListPlain(ns: Nodes, inside: bool)
    requires AllParsed(ns) && AllUnfixed(ns)
    ensures AllUnfixed(SetupList(ns, inside)) && (AllNoDotStar(ns) ==> AllNoDotStar(SetupList(ns, inside)))
    ensures AllLookFree(ns) ==> AllLookFree(SetupList(ns, inside))
  {
    SetupPlain(ns.left, inside);
    if ns.Cons? {
      NextPlain(SetupTree(ns.left, inside), SetupTree(ns.right.left, inside));
      ListPlain(ns.right, inside);
    }
  }

  lemma {:induction false} AltPlain(ns: Nodes, inside: bool)
    requires AllParsed(ns) && AllUnfixed(ns)
    ensures AllUnfixed(SetupAlt(ns, inside)) && (AllNoDotStar(ns) ==> AllNoDotStar(SetupAlt(ns, inside)))
    ensures AllLookFree(ns) ==> AllLookFree(SetupAlt(ns, inside))
  {
    SetupPlain(ns.left, inside);
    if ns.Cons? { AltPlain(ns.right, inside); }
  }

  // ----- X{n,n} at the very end -----

  /** No anchors, and X{n,n} with n >= 2 only where nothing follows. */
  predicate FixedLast(n: Node) {
    match n
    case List(ns) => EndFixed(ns)
    case Alt(ns) => AllFixedLast(ns)
    case Quant(t, q) => Unfixed(t) && q.lower <= MAX_REPEAT_NUM
    case Group(_, b) => FixedLast(b)
    case OptionNode(_, b) => FixedLast(b)
    case Atomic(simple, b) => FixedLast(b) && (simple ==> SimpleLoop(b))
    case Anchor(_) => false
    case Look(_, _, b) => Unfixed(b)
    case _ => true
  }

  predicate EndFixed(ns: Nodes) {
    match ns
    case Last(n) => FixedLast(n)
    case Cons(n, rest) => Unfixed(n) && EndFixed(rest)
  }

  predicate AllFixedLast(ns: Nodes) {
    match ns
    case Last(n) => FixedLast(n)
    case Cons(n, rest) => FixedLast(n) && AllFixedLast(rest)
  }

  lemma {:induction false} SetupTrailing(n: Node, inside: bool)
    requires Parsed(n) && FixedLast(n)
    ensures Trailing(SetupTree(n, inside))
  {
    match n
    case List(ns) => ListTrailing(ns, inside);
    case Alt(ns) => AltTrailing(ns, inside);
    case Quant(t, q) => QuantTrailing(t, q, inside);
    case Group(_, b) => SetupTrailing(b, inside);
    case OptionNode(_, b) => SetupTrailing(b, inside);
    case Atomic(_, b) =>
      SetupTrailing(b, inside);
      if SimpleAtomic(SetupTree(b, inside)) { AtomicTrailing(b, inside); }
    case Look(_, _, b) =>
      SetupPlain(b, inside);
      UnfixedSearchable(SetupTree(b, inside));
    case _ =>
  }

  lemma QuantTrailing(t: Node, q: Rep, inside: bool)
    requires Parsed(t) && Unfixed(t) && q.lower <= MAX_REPEAT_NUM
    ensures Trailing(SetupTree(Quant(t, q), inside))
  {
    var t' := SetupTree(t, true);
    SetupPlain(t, true);
    UnfixedSearchable(t');
    hide SetupTree, Searchable;
    assert SetupTree(Quant(t, q), inside) == QuantSetup(t', SetRep(t, q, inside)) by { SetupQuant(t, q, inside); }
    if t'.Quant? && t'.q.headExact.Some? { WithoutHead(t'); }
  }

  lemma SetupQuant(t: Node, q: Rep, inside: bool)
    ensures SetupTree(Quant(t, q), inside) == QuantSetup(SetupTree(t, true), SetRep(t, q, inside))
  {
  }

  lemma WithoutHead(t: Node)
    requires t.Quant? && Searchable(t)
    ensures Searchable(Quant(t.target, t.q.(headExact := None)))
  {
  }

  lemma AtomicTrailing(b: Node, inside: bool)
    requires Parsed(b) && !EmptyLoop(b) && SimpleAtomic(SetupTree(b, inside))
    ensures Searchable(Atomic(true, SetupTree(b, inside)))
  {
    AtomicPlain(b, inside);
  }

  lemma {:induction false} ListTrailing(ns: Nodes, inside: bool)
    requires AllParsed(ns) && EndFixed(ns)
    ensures LastTrailing(SetupList(ns, inside))
  {
    if ns.Last? {
      SetupTrailing(ns.left, inside);
    } else {
      SetupPlain(ns.left, inside);
      NextPlain(SetupTree(ns.left, inside), SetupTree(ns.right.left, inside));
      UnfixedSearchable(NextSetup(SetupTree(ns.left, inside), SetupTree(ns.right.left, inside)));
      ListTrailing(ns.right, inside);
    }
  }

  lemma {:induction false} AltTrailing(ns: Nodes, inside: bool)
    requires AllParsed(ns) && AllFixedLast(ns)
    ensures AllTrailing(SetupAlt(ns, inside))
  {
    SetupTrailing(ns.left, inside);
    if ns.Cons? { AltTrailing(ns.right, inside); }
  }

  lemma {:induction false} NextNoDot(n: Node, next: Node)
    requires NoDotStar(n)
    ensures NoDotStar(NextSetup(n, next))
  {
    if n.Group? { NextNoDot(n.body, next); }
  }

  lemma {:induction false} SetupNoDot(n: Node, inside: bool)
    requires NoDotStar(n)
    ensures NoDotStar(SetupTree(n, inside))
  {
    match n
    case List(ns) => ListNoDot(ns, inside);
    case Alt(ns) => AltNoDot(ns, inside);
    case Quant(t, _) =>
      SetupNoDot(t, true);
      SetupAnyChar(t);
    case Group(_, b) => SetupNoDot(b, inside);
    case OptionNode(_, b) => SetupNoDot(b, inside);
    case Atomic(_, b) => SetupNoDot(b, inside);
    case _ =>
  }

  lemma {:induction false} ListNoDot(ns: Nodes, inside: bool)
    requires AllNoDotStar(ns)
    ensures AllNoDotStar(SetupList(ns, inside))
  {
    SetupNoDot(ns.left, inside);
    if ns.Cons? {
      NextNoDot(SetupTree(ns.left, inside), SetupTree(ns.right.left, inside));
      ListNoDot(ns.right, inside);
    }
  }

  lemma {:induction false} AltNoDot(ns: Nodes, inside: bool)
    requires AllNoDotStar(ns)
    ensures AllNoDotStar(SetupAlt(ns, inside))
  {
    SetupNoDot(ns.left, inside);
    if ns.Cons? { AltNoDot(ns.right, inside); }
  }

  // ----- so a search can rely on them -----

  /** The analysis of the finished tree can be trusted. */
  lemma SetupSearchable(n: Node, ml: bool)
    requires Parsed(n)
    requires (Unfixed(n) && (NoDotStar(n) || LookFree(n))) || (FixedLast(n) && NoDotStar(n))
    ensures Dependable(SetupTree(n, false), ml)
  {
    hide Parsed, Unfixed, FixedLast, NoDotStar, LookFree, SetupTree, Searchable, Trailing, Anchored;
    if Unfixed(n) && (NoDotStar(n) || LookFree(n)) {
      SetupPlain(n, false);
      UnfixedSearchable(SetupTree(n, false));
      PlainAnchored(SetupTree(n, false), ml);
    } else {
      SetupTrailing(n, false);
      SetupNoDot(n, false);
    }
  }
}
