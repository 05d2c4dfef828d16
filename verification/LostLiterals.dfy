/** Where the length of a look-ahead literal is lost (concat_left_node_opt_info in
    Dependencies/oniguruma5/regcomp.c casts it to int), and when onig_new then reports that memory is short. */
module LostLiterals {
  import opened Regint
  import opened Regparse
  import opened Machine
  import opened Lengths
  import opened Setup
  import opened SetupReady
  import opened Optimize

  // ----- the guard -----

  /** The literal with the negative length is chosen, and the byte map does not beat it: it is empty, or weighs
      more than 200. */
  predicate Refuses(o: Opt) {
    && (Len(o.exb) > 0 || Len(o.exm) > 0)
    && SelectExact(o.exb, o.exm).lost
    && !(1 <= MapValue(o.byteMap.bytes, 256) <= 200)
  }

  lemma {:induction false} NothingWeighs(n: nat)
    requires n <= 256
    ensures MapValue({}, n) == 0
  {
    if n > 0 { NothingWeighs(n - 1); }
  }

  lemma RefusedExactly(n: Node, ml: bool)
    ensures InfoOf(n, ml).how == SearchRefused <==> Refuses(OptNode(n, ZERO, ml))
  {
    hide OptNode, MapValue, SelectExact, DistanceValue;
    NothingWeighs(256);
  }

  // ----- how long a match can be -----

  function MaxLen(n: Node): Distance {
    match n
    case Str(s) => if |s| <= INFINITE_DISTANCE then |s| else INFINITE_DISTANCE
    case List(ns) => MaxLenList(ns)
    case Alt(ns) => MaxLenAlt(ns)
    case Quant(t, q) =>
      if Infinite(q.upper) then (if MaxLen(t) > 0 then INFINITE_DISTANCE else 0)
      else DistanceMultiply(MaxLen(t), Max0(q.upper))
    case Group(_, b) => MaxLen(b)
    case OptionNode(_, b) => MaxLen(b)
    case Atomic(_, b) => MaxLen(b)
    case Anchor(_) => 0
    case Look(_, _, _) => 0
    case _ => 1
  }

  function MaxLenList(ns: Nodes): Distance {
    match ns
    case Last(n) => MaxLen(n)
    case Cons(n, rest) => DistanceAdd(MaxLen(n), MaxLenList(rest))
  }

  function MaxLenAlt(ns: Nodes): Distance {
    match ns
    case Last(n) => MaxLen(n)
    case Cons(n, rest) => if MaxLen(n) < MaxLenAlt(rest) then MaxLenAlt(rest) else MaxLen(n)
  }

  lemma {:induction false} OptMax(n: Node, env: Mml, ml: bool)
    ensures OptNode(n, env, ml).len.max == MaxLen(n)
    decreases n, 1
  {
    match n
    case List(ns) => ListMax(ns, Bound(env), env, ml);
    case Alt(ns) =>
      OptMax(ns.left, env, ml);
      if ns.Cons? { AltMax(ns.right, OptNode(ns.left, env, ml), env, ml); }
    case Quant(t, _) => OptMax(t, env, ml);
    case Group(_, b) => OptMax(b, env, ml);
    case OptionNode(ml', b) => OptMax(b, env, ml');
    case Atomic(_, b) => OptMax(b, env, ml);
    case _ =>
  }

  lemma {:induction false} ListMax(ns: Nodes, a: Opt, env: Mml, ml: bool)
    ensures OptList(ns, a, env, ml).len.max == DistanceAdd(a.len.max, MaxLenList(ns))
    decreases ns, 0
  {
    hide OptNode, MaxLen, SelectExact, SelectMap, Cut, ConcatExact;
    var b := OptNode(ns.left, env, ml);
    OptMax(ns.left, env, ml);
    if ns.Cons? { ListMax(ns.right, ConcatLeft(a, b), AddMml(env, b.len), ml); }
  }

  lemma {:induction false} AltMax(ns: Nodes, a: Opt, env: Mml, ml: bool)
    ensures OptAltFrom(ns, a, env, ml).len.max == (if a.len.max < MaxLenAlt(ns) then MaxLenAlt(ns) else a.len.max)
    decreases ns, 0
  {
    hide OptNode, MaxLen, AltExact, AltMap;
    OptMax(ns.left, env, ml);
    if ns.Cons? { AltMax(ns.right, AltMerge(a, OptNode(ns.left, env, ml)), env, ml); }
  }

  // ----- literals that are never cut to nothing -----

  /** A literal the analysis may take from the node. */
  predicate HasLiteral(n: Node) {
    match n
    case Str(s) => s != []
    case List(ns) => AnyLiteral(ns)
    case Alt(ns) => HasLiteral(ns.left)
    case Quant(t, q) => q.lower > 0 && HasLiteral(t)
    case Group(_, b) => HasLiteral(b)
    case OptionNode(_, b) => HasLiteral(b)
    case Atomic(_, b) => HasLiteral(b)
    case Look(k, _, b) => k.PrecRead? && HasLiteral(b)
    case _ => false
  }

  predicate AnyLiteral(ns: Nodes) {
    match ns
    case Last(n) => HasLiteral(n)
    case Cons(n, rest) => HasLiteral(n) || AnyLiteral(rest)
  }

  /** A positive look-ahead with a literal. */
  predicate LooksAhead(n: Node) {
    match n
    case List(ns) => AnyAhead(ns)
    case Alt(ns) => LooksAhead(ns.left)
    case Quant(t, q) => q.lower > 0 && LooksAhead(t)
    case Group(_, b) => LooksAhead(b)
    case OptionNode(_, b) => LooksAhead(b)
    case Atomic(_, b) => LooksAhead(b)
    case Look(k, _, b) => k.PrecRead? && HasLiteral(b)
    case _ => false
  }

  predicate AnyAhead(ns: Nodes) {
    match ns
    case Last(n) => LooksAhead(n)
    case Cons(n, rest) => LooksAhead(n) || AnyAhead(rest)
  }

  /** In no list does an item that may take more than 0x7fffffff bytes stand behind a positive look-ahead with
      a literal. */
  predicate Keeps(n: Node) {
    match n
    case List(ns) => KeepsAll(ns, false)
    case Alt(ns) => ns.Cons? || Keeps(ns.left)
    case Quant(t, q) => q.lower == 0 || Keeps(t)
    case Group(_, b) => Keeps(b)
    case OptionNode(_, b) => Keeps(b)
    case Atomic(_, b) => Keeps(b)
    case _ => true
  }

  predicate KeepsAll(ns: Nodes, ahead: bool) {
    && Keeps(ns.left)
    && (ahead ==> MaxLen(ns.left) <= INT_MAX)
    && (ns.Cons? ==> KeepsAll(ns.right, ahead || LooksAhead(ns.left)))
  }

  predicate Whole(o: Opt) { !o.exb.lost && !o.exm.lost && !o.expr.lost }

  predicate NoLiteral(o: Opt) { o.exb.s == [] && o.exm.s == [] && o.expr.s == [] }

  lemma {:induction false} LiteralOpt(n: Node, env: Mml, ml: bool)
    ensures !HasLiteral(n) ==> NoLiteral(OptNode(n, env, ml))
    ensures !LooksAhead(n) ==> OptNode(n, env, ml).expr.s == []
    decreases n, 1
  {
    match n
    case List(ns) => LiteralList(ns, Bound(env), env, ml);
    case Alt(ns) =>
      LiteralOpt(ns.left, env, ml);
      if ns.Cons? { LiteralAlt(ns.right, OptNode(ns.left, env, ml), env, ml); }
    case Quant(t, q) => LiteralOpt(t, env, ml);
    case Group(_, b) => LiteralOpt(b, env, ml);
    case OptionNode(ml', b) => LiteralOpt(b, env, ml');
    case Atomic(_, b) => LiteralOpt(b, env, ml);
    case Look(_, _, b) => LiteralOpt(b, env, ml);
    case _ =>
  }

  lemma {:induction false} LiteralList(ns: Nodes, a: Opt, env: Mml, ml: bool)
    ensures NoLiteral(a) && !AnyLiteral(ns) ==> NoLiteral(OptList(ns, a, env, ml))
    ensures a.expr.s == [] && !AnyAhead(ns) ==> OptList(ns, a, env, ml).expr.s == []
    decreases ns, 0
  {
    hide OptNode, HasLiteral, LooksAhead, SelectMap;
    var b := OptNode(ns.left, env, ml);
    LiteralOpt(ns.left, env, ml);
    if ns.Cons? { LiteralList(ns.right, ConcatLeft(a, b), AddMml(env, b.len), ml); }
  }

  lemma {:induction false} LiteralAlt(ns: Nodes, a: Opt, env: Mml, ml: bool)
    ensures NoLiteral(a) ==> NoLiteral(OptAltFrom(ns, a, env, ml))
    ensures a.expr.s == [] ==> OptAltFrom(ns, a, env, ml).expr.s == []
    decreases ns, 0
  {
    hide OptNode;
    if ns.Cons? { LiteralAlt(ns.right, AltMerge(a, OptNode(ns.left, env, ml)), env, ml); }
  }

  /** No literal of such a tree is lost. */
  lemma {:induction false} WholeOpt(n: Node, env: Mml, ml: bool)
    requires Keeps(n)
    ensures Whole(OptNode(n, env, ml))
    decreases n, 1
  {
    match n
    case List(ns) => WholeList(ns, Bound(env), env, ml, false);
    case Alt(ns) =>
      if ns.Cons? { WholeAlt(ns.right, OptNode(ns.left, env, ml), env, ml); } else { WholeOpt(ns.left, env, ml); }
    case Quant(t, q) => if q.lower > 0 { WholeQuant(t, q, env, ml); }
    case Group(_, b) => WholeOpt(b, env, ml);
    case OptionNode(ml', b) => WholeOpt(b, env, ml');
    case Atomic(_, b) => WholeOpt(b, env, ml);
    case _ =>
  }

  lemma WholeQuant(t: Node, q: Rep, env: Mml, ml: bool)
    requires Keeps(t)
    ensures Whole(OptQuant(t, q, OptNode(t, env, ml), env, ml))
    decreases t, 2
  {
    hide OptNode, Keeps;
    WholeOpt(t, env, ml);
    var b := OptNode(t, env, ml);
    if Len(b.exb) > 0 && b.exb.reachEnd { CopiedWhole(b.exb, b.exb, 2, q.lower); }
  }

  lemma {:induction false} CopiedWhole(e: Exact, body: Exact, i: nat, lower: nat)
    requires !e.lost
    ensures !Copied(e, body, i, lower).lost
    decreases Max0(lower - i)
  {
    if i < lower && |e.s| < OPT_EXACT_MAXLEN { CopiedWhole(ConcatExact(e, body), body, i + 1, lower); }
  }

  lemma ConcatWhole(a: Opt, b: Opt)
    requires Whole(a) && Whole(b) && (a.expr.s != [] ==> b.len.max <= INT_MAX)
    ensures Whole(ConcatLeft(a, b)) && (ConcatLeft(a, b).expr.s != [] ==> a.expr.s != [] || b.expr.s != [])
  {
    hide SelectMap, AddMml;
    var c := ConcatItems(a, b);
    assert !c.exb.lost && !c.exm.lost && c.expr == a.expr;
    hide ConcatItems;
  }

  lemma {:induction false} WholeList(ns: Nodes, a: Opt, env: Mml, ml: bool, ahead: bool)
    requires KeepsAll(ns, ahead) && Whole(a) && (a.expr.s != [] ==> ahead)
    ensures Whole(OptList(ns, a, env, ml))
    decreases ns, 0
  {
    hide OptNode, Keeps, LooksAhead, MaxLen, ConcatLeft, Whole;
    var b := OptNode(ns.left, env, ml);
    WholeOpt(ns.left, env, ml);
    LiteralOpt(ns.left, env, ml);
    OptMax(ns.left, env, ml);
    ConcatWhole(a, b);
    if ns.Cons? { WholeList(ns.right, ConcatLeft(a, b), AddMml(env, b.len), ml, ahead || LooksAhead(ns.left)); }
  }

  lemma {:induction false} WholeAlt(ns: Nodes, a: Opt, env: Mml, ml: bool)
    ensures Whole(OptAltFrom(ns, a, env, ml))
    decreases ns, 0
  {
    hide OptNode;
    if ns.Cons? { WholeAlt(ns.right, AltMerge(a, OptNode(ns.left, env, ml)), env, ml); }
  }

  // ----- set-up keeps all this -----

  predicate Alike(n: Node, n': Node) {
    && MaxLen(n') == MaxLen(n) && HasLiteral(n') == HasLiteral(n) && LooksAhead(n') == LooksAhead(n)
    && Keeps(n') == Keeps(n)
  }

  lemma {:induction false} NextAlike(n: Node, next: Node)
    ensures Alike(n, NextSetup(n, next))
  {
    if n.Group? { NextAlike(n.body, next); }
  }

  lemma QuantAlike(t: Node, q: Rep)
    ensures Alike(Quant(t, q), QuantSetup(t, q))
  {
    if Expands(t, q) {
      ExpandMin(t.s, q.lower);
      RepeatedSome(t.s, q.lower);
    }
  }

  lemma RepeatedSome(s: seq<byte>, n: nat)
    requires n > 0
    ensures Repeated(s, n) == [] <==> s == []
  {
    if s == [] { assert |Repeated(s, n)| == 0; } else { MulMono(1, |s|, n); }
  }

  lemma {:induction false} SetupAlike(n: Node, inside: bool)
    ensures Alike(n, SetupTree(n, inside))
  {
    match n
    case List(ns) => ListAlike(ns, inside, false);
    case Alt(ns) => AltAlike(ns, inside);
    case Quant(t, q) =>
      SetupAlike(t, true);
      QuantAlike(SetupTree(t, true), SetRep(t, q, inside));
    case Group(_, b) => SetupAlike(b, inside);
    case OptionNode(_, b) => SetupAlike(b, inside);
    case Atomic(_, b) => SetupAlike(b, inside);
    case Look(_, _, b) => SetupAlike(b, inside);
    case _ =>
  }

  lemma {:induction false} ListAlike(ns: Nodes, inside: bool, ahead: bool)
    ensures MaxLenList(SetupList(ns, inside)) == MaxLenList(ns)
    ensures AnyLiteral(SetupList(ns, inside)) == AnyLiteral(ns) && AnyAhead(SetupList(ns, inside)) == AnyAhead(ns)
    ensures KeepsAll(SetupList(ns, inside), ahead) == KeepsAll(ns, ahead)
  {
    SetupAlike(ns.left, inside);
    if ns.Cons? {
      NextAlike(SetupTree(ns.left, inside), SetupTree(ns.right.left, inside));
      ListAlike(ns.right, inside, ahead || LooksAhead(ns.left));
    }
  }

  lemma {:induction false} AltAlike(ns: Nodes, inside: bool)
    ensures MaxLenAlt(SetupAlt(ns, inside)) == MaxLenAlt(ns)
    ensures HasLiteral(SetupAlt(ns, inside).left) == HasLiteral(ns.left)
    ensures LooksAhead(SetupAlt(ns, inside).left) == LooksAhead(ns.left)
    ensures Keeps(SetupAlt(ns, inside).left) == Keeps(ns.left)
  {
    SetupAlike(ns.left, inside);
    if ns.Cons? { AltAlike(ns.right, inside); }
  }

  /** So the search is not refused. */
  lemma NeverRefused(n: Node, ml: bool)
    requires Keeps(n)
    ensures !Refuses(OptNode(SetupTree(n, false), ZERO, ml))
  {
    hide OptNode, Keeps, SetupTree;
    SetupAlike(n, false);
    WholeOpt(SetupTree(n, false), ZERO, ml);
  }
}
