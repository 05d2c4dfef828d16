/** A search may skip ahead behind a leading .*: what matches later on the same line matches here. */
module DotStar {
  import opened Regint
  import opened Regparse
  import opened Regcomp
  import opened Machine
  import opened Meaning
  import opened Lengths
  import opened LengthSound
  import opened Optimize
  import opened OptimizeSound
  import opened LastRepeat

  predicate Clear(x: Subject, s: nat, t: nat) {
    forall i :: s <= i < t && i < |x.text| ==> x.text[i] != NEWLINE
  }

  /** Nothing between s and t stops the dot. */
  predicate DotReaches(dotAll: bool, x: Subject, s: nat, t: nat) { s <= t && (dotAll || Clear(x, s, t)) }

  predicate Flag(o: Opt, dotAll: bool) { if dotAll then o.starMl else o.star }

  // ----- membership, from parts to wholes -----

  lemma {:induction false} AllFrom(ns: Nodes, ml: bool, x: Subject, cfg: Cfg, from: seq<nat>, m: nat, e: nat)
    requires AllFormed(ns) && Bounded(from, x) && m in from && m <= |x.text| && e in EndsList(ns, ml, x, cfg, m)
    ensures e in EndsListAll(ns, ml, x, cfg, from)
    decreases |from|
  {
    hide EndsList;
    if m != from[0] { AllFrom(ns, ml, x, cfg, from[1..], m, e); }
  }

  lemma {:induction false} EachHas(t: Node, q: Rep, ml: bool, x: Subject, cfg: Cfg, k: nat, es: seq<nat>, s: nat,
                                   m: nat, e: nat)
    requires Formed(t) && RepOk(q) && s <= |x.text| && Bounded(es, x) && k > 0 && !UpperReached(q, k - 1)
    requires m in es && m <= |x.text| && e in Onward(t, q, ml, x, cfg, k, m, s)
    ensures e in EndsEach(t, q, ml, x, cfg, k, es, s)
    decreases |es|
  {
    hide EndsRep, EndsEach, Onward, Formed;
    EachSplit(t, q, ml, x, cfg, k, es, s);
    if m != es[0] { EachHas(t, q, ml, x, cfg, k, es[1..], s, m, e); }
  }

  /** A body that can match empty lets its repeat stay where it is. */
  lemma {:induction false} StayRep(t: Node, q: Rep, ml: bool, x: Subject, cfg: Cfg, k: nat, s: nat)
    requires Formed(t) && RepOk(q) && s <= |x.text| && s in Ends(t, ml, x, cfg, s)
    ensures s in EndsRep(t, q, ml, x, cfg, k, s)
    decreases Left(q, k)
  {
    hide Ends, Formed, EndsEach, Checked;
    if !UpperReached(q, k) {
      LeftFalls(t, q, cfg, k);
      if !Checked(t, q, cfg, k) { StayRep(t, q, ml, x, cfg, k + 1, s); }
      EachHas(t, q, ml, x, cfg, k + 1, Ends(t, ml, x, cfg, s), s, s, s);
    }
  }

  // ----- nodes that only match empty -----

  lemma MultiplyZero(d: Distance, m: nat)
    requires DistanceMultiply(d, m) == 0
    ensures d == 0 || m == 0
  {
    if d > 0 && m > 0 { MulMono(1, d, m); }
  }

  lemma {:induction false} AltGrows(ns: Nodes, a: Opt, env: Mml, ml: bool)
    ensures OptAltFrom(ns, a, env, ml).len.max >= a.len.max
  {
    hide OptNode;
    var b := AltMerge(a, OptNode(ns.left, env, ml));
    if ns.Cons? { AltGrows(ns.right, b, env, ml); }
  }

  lemma {:induction false} ListGrows(ns: Nodes, a: Opt, env: Mml, ml: bool)
    ensures OptList(ns, a, env, ml).len.max == 0 ==> a.len.max == 0
    decreases ns
  {
    hide OptNode;
    var b := OptNode(ns.left, env, ml);
    if ns.Cons? { ListGrows(ns.right, ConcatLeft(a, b), AddMml(env, b.len), ml); }
  }

  lemma SimpleMax(b: Node, env: Mml, ml: bool)
    requires b.Quant? && Infinite(b.q.upper) && IsSimple(b.target) && b.target != Str([])
    ensures OptNode(b, env, ml).len.max > 0
  {
    assert OptNode(b.target, env, ml).len.max > 0;
  }

  /** Nothing in the node looks around: where it cannot take anything, it cannot fail either. */
  predicate Sure(n: Node) {
    match n
    case List(ns) => AllSure(ns)
    case Alt(ns) => Sure(ns.left)
    case Quant(t, _) => Sure(t)
    case Group(_, b) => Sure(b)
    case OptionNode(_, b) => Sure(b)
    case Atomic(_, b) => Sure(b)
    case Anchor(_) => false
    case Look(_, _, _) => false
    case _ => true
  }

  predicate AllSure(ns: Nodes) {
    match ns
    case Last(n) => Sure(n)
    case Cons(n, rest) => Sure(n) && AllSure(rest)
  }

  /** A node whose matches are all empty matches everywhere, unless it looks around. */
  lemma {:induction false} EmptyMatches(n: Node, env: Mml, ml: bool, x: Subject, cfg: Cfg, s: nat)
    requires Formed(n) && Ready(n) && Searchable(n) && Sure(n) && s <= |x.text| <= INT_MAX
    requires OptNode(n, env, ml).len.max == 0
    ensures s in Ends(n, ml, x, cfg, s)
    decreases n, 1
  {
    match n
    case Str(str) => assert HasAt(x, s, []);
    case List(ns) => EmptyList(ns, Bound(env), env, ml, x, cfg, s);
    case Alt(ns) =>
      if ns.Cons? { AltGrows(ns.right, OptNode(ns.left, env, ml), env, ml); }
      EmptyMatches(ns.left, env, ml, x, cfg, s);
    case Quant(t, q) =>
      var b := OptNode(t, env, ml);
      if UpperReached(q, 0) {
        NoRun(t, q, ml, x, cfg, s);
      } else {
        if !Infinite(q.upper) { MultiplyZero(b.len.max, q.upper); }
        EmptyMatches(t, env, ml, x, cfg, s);
        StayRep(t, q, ml, x, cfg, 0, s);
      }
    case Group(_, b) => EmptyMatches(b, env, ml, x, cfg, s);
    case OptionNode(ml', b) => EmptyMatches(b, env, ml', x, cfg, s);
    case Atomic(simple, b) =>
      if simple {
        SimpleMax(b, env, ml);
      } else {
        EmptyMatches(b, env, ml, x, cfg, s);
        EmptyEnds(b, env, ml, x, cfg, s, Ends(b, ml, x, cfg, s)[0]);
      }
    case _ =>
  }

  lemma EmptyEnds(n: Node, env: Mml, ml: bool, x: Subject, cfg: Cfg, s: nat, e: nat)
    requires Formed(n) && Ready(n) && Searchable(n) && s <= |x.text| <= INT_MAX && OptNode(n, env, ml).len.max == 0
    requires e in Ends(n, ml, x, cfg, s)
    ensures e == s
  {
    hide OptNode, Ends;
    SameLen(n, env, Mml(0, INFINITE_DISTANCE), ml);
    OptSound(n, Mml(0, INFINITE_DISTANCE), ml, x, cfg, s, s, e);
    SpanLen(OptNode(n, Mml(0, INFINITE_DISTANCE), ml), x, s, s, e);
  }

  /** Lengths do not depend on the position. */
  lemma {:induction false} SameLen(n: Node, env: Mml, env': Mml, ml: bool)
    ensures OptNode(n, env, ml).len == OptNode(n, env', ml).len
    decreases n, 1
  {
    match n
    case List(ns) => SameListLen(ns, Bound(env), Bound(env'), env, env', ml);
    case Alt(ns) =>
      SameLen(ns.left, env, env', ml);
      if ns.Cons? { SameAltLen(ns.right, OptNode(ns.left, env, ml), OptNode(ns.left, env', ml), env, env', ml); }
    case Quant(t, q) => SameLen(t, env, env', ml);
    case Group(_, b) => SameLen(b, env, env', ml);
    case OptionNode(ml', b) => SameLen(b, env, env', ml');
    case Atomic(_, b) => SameLen(b, env, env', ml);
    case _ =>
  }

  lemma {:induction false} SameListLen(ns: Nodes, a: Opt, a': Opt, env: Mml, env': Mml, ml: bool)
    requires a.len == a'.len
    ensures OptList(ns, a, env, ml).len == OptList(ns, a', env', ml).len
    decreases ns, 0
  {
    hide OptNode, SelectExact, SelectMap, ConcatExact, Cut, AddMml;
    SameLen(ns.left, env, env', ml);
    var b, b' := OptNode(ns.left, env, ml), OptNode(ns.left, env', ml);
    if ns.Cons? { SameListLen(ns.right, ConcatLeft(a, b), ConcatLeft(a', b'), AddMml(env, b.len), AddMml(env', b'.len),
                              ml); }
  }

  lemma {:induction false} SameAltLen(ns: Nodes, a: Opt, a': Opt, env: Mml, env': Mml, ml: bool)
    requires a.len == a'.len
    ensures OptAltFrom(ns, a, env, ml).len == OptAltFrom(ns, a', env', ml).len
    decreases ns, 0
  {
    hide OptNode;
    SameLen(ns.left, env, env', ml);
    if ns.Cons? {
      SameAltLen(ns.right, AltMerge(a, OptNode(ns.left, env, ml)), AltMerge(a', OptNode(ns.left, env', ml)), env, env',
                 ml);
    }
  }

  lemma {:induction false} EmptyList(ns: Nodes, a: Opt, env: Mml, ml: bool, x: Subject, cfg: Cfg, s: nat)
    requires AllFormed(ns) && AllReady(ns) && AllSearchable(ns) && AllSure(ns) && s <= |x.text| <= INT_MAX
    requires OptList(ns, a, env, ml).len.max == 0
    ensures s in EndsList(ns, ml, x, cfg, s)
    decreases ns, 0
  {
    hide Ends, Formed, Ready, Searchable, Sure, OptNode;
    var b := OptNode(ns.left, env, ml);
    if ns.Cons? { ListGrows(ns.right, ConcatLeft(a, b), AddMml(env, b.len), ml); }
    EmptyMatches(ns.left, env, ml, x, cfg, s);
    if ns.Cons? {
      EmptyList(ns.right, ConcatLeft(a, b), AddMml(env, b.len), ml, x, cfg, s);
      AllFrom(ns.right, ml, x, cfg, Ends(ns.left, ml, x, cfg, s), s, s);
    }
  }

  // ----- .* -----

  predicate DotStarRep(q: Rep) { q.lower == 0 && Infinite(q.upper) && q.greedy }

  /** Another round of .*, if it can take a character. */
  lemma DotMore(q: Rep, ml: bool, x: Subject, cfg: Cfg, k: nat, s: nat)
    requires RepOk(q) && DotStarRep(q) && s <= |x.text|
    ensures EndsEach(AnyChar, q, ml, x, cfg, k + 1, Ends(AnyChar, ml, x, cfg, s), s) ==
            if s < |x.text| && (ml || x.text[s] != NEWLINE) then EndsRep(AnyChar, q, ml, x, cfg, k + 1, s + 1) else []
  {
    DotEnds(ml, x, cfg, s);
    hide EndsRep, EndsEach, Ends, Checked, Onward;
    if s < |x.text| && (ml || x.text[s] != NEWLINE) {
      EachOne(AnyChar, q, ml, x, cfg, k + 1, s + 1, s);
      OnwardMoved(AnyChar, q, ml, x, cfg, k + 1, s + 1, s);
    } else {
      EachSplit(AnyChar, q, ml, x, cfg, k + 1, [], s);
    }
  }

  lemma DotUnfold(q: Rep, ml: bool, x: Subject, cfg: Cfg, k: nat, s: nat)
    requires RepOk(q) && DotStarRep(q) && s <= |x.text|
    ensures EndsRep(AnyChar, q, ml, x, cfg, k, s) ==
            (if s < |x.text| && (ml || x.text[s] != NEWLINE) then EndsRep(AnyChar, q, ml, x, cfg, k + 1, s + 1)
             else []) +
            One(Leavable(AnyChar, q, x, cfg, s), s)
  {
    DotEntered(q, x, cfg, s);
    DotMore(q, ml, x, cfg, k, s);
    hide EndsRep, EndsEach, Ends, Entered, Leavable;
    RepCases(AnyChar, q, ml, x, cfg, k, s);
  }

  lemma DotEntered(q: Rep, x: Subject, cfg: Cfg, s: nat)
    requires RepOk(q) && DotStarRep(q)
    ensures Entered(AnyChar, q, x, cfg, s)
  {
  }

  lemma DotEnds(ml: bool, x: Subject, cfg: Cfg, s: nat)
    requires s <= |x.text|
    ensures Ends(AnyChar, ml, x, cfg, s) == if s < |x.text| && (ml || x.text[s] != NEWLINE) then [s + 1] else []
  {
  }

  lemma {:induction false} DotPrefix(q: Rep, ml: bool, x: Subject, cfg: Cfg, k: nat, k': nat, s: nat, t: nat)
    requires RepOk(q) && DotStarRep(q) && t <= |x.text| && DotReaches(ml, x, s, t)
    ensures EndsRep(AnyChar, q, ml, x, cfg, k, t) <= EndsRep(AnyChar, q, ml, x, cfg, k', s)
    decreases |x.text| - s
  {
    hide EndsRep, Leavable;
    DotUnfold(q, ml, x, cfg, k', s);
    if s < t {
      DotPrefix(q, ml, x, cfg, k, k' + 1, s + 1, t);
    } else {
      DotUnfold(q, ml, x, cfg, k, t);
      if s < |x.text| && (ml || x.text[s] != NEWLINE) {
        DotPrefix(q, ml, x, cfg, k + 1, k' + 1, s + 1, s + 1);
        DotPrefix(q, ml, x, cfg, k' + 1, k + 1, s + 1, s + 1);
      }
    }
  }

  /** From every place .* reaches it offers to stop, whatever the number of rounds so far. */
  lemma DotBack(q: Rep, ml: bool, x: Subject, cfg: Cfg, k: nat, k': nat, s: nat, t: nat, e: nat)
    requires RepOk(q) && DotStarRep(q) && t <= |x.text| && DotReaches(ml, x, s, t)
             && e in EndsRep(AnyChar, q, ml, x, cfg, k, t)
    ensures e in EndsRep(AnyChar, q, ml, x, cfg, k', s)
  {
    hide EndsRep;
    DotPrefix(q, ml, x, cfg, k, k', s, t);
  }

  /** (?>.*) runs to the same place. */
  lemma {:induction false} DotSimple(lower: nat, ml: bool, x: Subject, cfg: Cfg, k: nat, k': nat, s: nat, t: nat,
                                     e: nat)
    requires lower == 0 && t <= |x.text| && DotReaches(ml, x, s, t) && e in EndsSimple(AnyChar, lower, ml, x, cfg, k, t)
    ensures e in EndsSimple(AnyChar, lower, ml, x, cfg, k', s)
    decreases |x.text| - s
  {
    if s < |x.text| && (ml || x.text[s] != NEWLINE) {
      assert Ends(AnyChar, ml, x, cfg, s) == [s + 1];
      if s < t { DotSimple(lower, ml, x, cfg, k, k' + 1, s + 1, t, e); }
      else { DotSimple(lower, ml, x, cfg, k + 1, k' + 1, s + 1, s + 1, e); }
    }
  }

  // ----- the flags -----

  lemma {:induction false} NoFlags(n: Node, env: Mml, ml: bool)
    requires NoDotStar(n)
    ensures !OptNode(n, env, ml).star && !OptNode(n, env, ml).starMl
    decreases n, 1
  {
    match n
    case List(ns) => NoListFlags(ns, Bound(env), env, ml);
    case Alt(ns) =>
      NoFlags(ns.left, env, ml);
      if ns.Cons? { NoAltFlags(ns.right, OptNode(ns.left, env, ml), env, ml); }
    case Quant(t, q) => NoFlags(t, env, ml);
    case Group(_, b) => NoFlags(b, env, ml);
    case OptionNode(ml', b) => NoFlags(b, env, ml');
    case Atomic(_, b) => NoFlags(b, env, ml);
    case _ =>
  }

  lemma {:induction false} NoListFlags(ns: Nodes, a: Opt, env: Mml, ml: bool)
    requires AllNoDotStar(ns) && !a.star && !a.starMl
    ensures !OptList(ns, a, env, ml).star && !OptList(ns, a, env, ml).starMl
    decreases ns, 0
  {
    hide OptNode;
    NoFlags(ns.left, env, ml);
    var b := OptNode(ns.left, env, ml);
    if ns.Cons? { NoListFlags(ns.right, ConcatLeft(a, b), AddMml(env, b.len), ml); }
  }

  lemma {:induction false} NoAltFlags(ns: Nodes, a: Opt, env: Mml, ml: bool)
    requires AllNoDotStar(ns) && !a.star && !a.starMl
    ensures !OptAltFrom(ns, a, env, ml).star && !OptAltFrom(ns, a, env, ml).starMl
    decreases ns, 0
  {
    hide OptNode;
    NoFlags(ns.left, env, ml);
    if ns.Cons? { NoAltFlags(ns.right, AltMerge(a, OptNode(ns.left, env, ml)), env, ml); }
  }

  /** What is behind a list that can be non-empty does not make the list start with .*. */
  lemma {:induction false} LateFlag(ns: Nodes, a: Opt, env: Mml, ml: bool, dotAll: bool)
    requires Flag(OptList(ns, a, env, ml), dotAll) && !Flag(a, dotAll)
    ensures a.len.max == 0
  {
    hide OptNode;
    var b := OptNode(ns.left, env, ml);
    if ns.Cons? && a.len.max != 0 { LateFlag(ns.right, ConcatLeft(a, b), AddMml(env, b.len), ml, dotAll); }
  }

  lemma {:induction false} AltFlag(ns: Nodes, a: Opt, env: Mml, ml: bool, dotAll: bool)
    requires Flag(OptAltFrom(ns, a, env, ml), dotAll)
    ensures Flag(a, dotAll) && Flag(OptNode(ns.left, env, ml), dotAll)
  {
    hide OptNode;
    if ns.Cons? { AltFlag(ns.right, AltMerge(a, OptNode(ns.left, env, ml)), env, ml, dotAll); }
  }

  // ----- when the flag is honest -----

  /** The node begins with .*, without an alternative. */
  predicate LeadsOn(n: Node) {
    match n
    case List(ns) => LeadsFirst(ns)
    case Quant(t, q) => t.AnyChar? && DotStarRep(q)
    case Group(_, b) => LeadsOn(b)
    case OptionNode(_, b) => LeadsOn(b)
    case Atomic(simple, b) => if simple then b.Quant? && b.target.AnyChar? && DotStarRep(b.q) else LeadsOn(b)
    case _ => false
  }

  predicate LeadsFirst(ns: Nodes) { LeadsOn(ns.left) }

  /** A look-around for a literal that holds wherever the dot starts from if it holds where the dot gets to. */
  predicate Harmless(k: LookKind, str: seq<byte>, dotAll: bool) {
    str == [] || (!dotAll && ((k.PrecReadNot? && str[0] == NEWLINE) || (k.LookBehind? && str[|str| - 1] == NEWLINE)))
  }

  predicate OneChar(b: Node) { b.CClass? || b.CType? || b.AnyChar? }

  /** The byte is one that the one-character node takes. */
  predicate Takes(b: Node, ml: bool, c: byte) {
    match b
    case CClass(bs, neg, _, _) => (c in bs) != neg
    case CType(not) => IsWord(c) != not
    case AnyChar => ml || c != NEWLINE
    case _ => false
  }

  predicate Passed(c: byte, dotAll: bool) { dotAll || c != NEWLINE }

  predicate TakesNone(b: Node, ml: bool) { forall c: byte :: !Takes(b, ml, c) }

  predicate TakesPassed(b: Node, ml: bool, dotAll: bool) { forall c: byte :: Passed(c, dotAll) ==> Takes(b, ml, c) }

  predicate SparesPassed(b: Node, ml: bool, dotAll: bool) { forall c: byte :: Passed(c, dotAll) ==> !Takes(b, ml, c) }

  /** The same for one character: of what the dot runs over, it takes everything, or nothing. */
  predicate HarmlessChar(k: LookKind, b: Node, ml: bool, dotAll: bool) {
    if k.PrecRead? || k.LookBehindNot? then TakesNone(b, ml) || TakesPassed(b, ml, dotAll)
    else SparesPassed(b, ml, dotAll)
  }

  predicate Recedes(n: Node, ml: bool, dotAll: bool) {
    match n
    case Look(k, len, b) =>
      if b.Str? then Harmless(k, b.s, dotAll)
      else OneChar(b) && (k.LookBehind? || k.LookBehindNot? ==> len == 1) && HarmlessChar(k, b, ml, dotAll)
    case _ => false
  }

  lemma CharEnds(b: Node, ml: bool, x: Subject, cfg: Cfg, s: nat)
    requires OneChar(b) && s <= |x.text|
    ensures Formed(b) && Ends(b, ml, x, cfg, s) == One(s < |x.text| && Takes(b, ml, x.text[s]), s + 1)
  {
  }

  lemma HarmlessBack(n: Node, dotAll: bool, ml: bool, x: Subject, cfg: Cfg, s: nat, t: nat)
    requires Formed(n) && Ready(n) && Recedes(n, ml, dotAll) && t <= |x.text| && DotReaches(dotAll, x, s, t)
    requires t in Ends(n, ml, x, cfg, t)
    ensures s in Ends(n, ml, x, cfg, s)
  {
    if n.body.Str? {
      var str := n.body.s;
      if str == [] { assert x.text[s..s] == []; }
    } else {
      CharBack(n, dotAll, ml, x, cfg, s, t);
    }
  }

  /** A character the node takes stands at s, or in front of s. */
  predicate Sees(k: LookKind, b: Node, ml: bool, x: Subject, s: nat)
    requires s <= |x.text|
  {
    match k
    case PrecRead => s < |x.text| && Takes(b, ml, x.text[s])
    case PrecReadNot => s == |x.text| || !Takes(b, ml, x.text[s])
    case LookBehind => s > 0 && Takes(b, ml, x.text[s - 1])
    case LookBehindNot => s == 0 || !Takes(b, ml, x.text[s - 1])
  }

  lemma CharLook(k: LookKind, len: nat, b: Node, ml: bool, x: Subject, cfg: Cfg, s: nat)
    requires OneChar(b) && s <= |x.text| && (k.LookBehind? || k.LookBehindNot? ==> len == 1)
    ensures Formed(Look(k, len, b)) && Ends(Look(k, len, b), ml, x, cfg, s) == One(Sees(k, b, ml, x, s), s)
  {
    hide Takes;
    if k.PrecRead? || k.PrecReadNot? {
      CharEnds(b, ml, x, cfg, s);
    } else if s >= 1 {
      CharEnds(b, ml, x, cfg, s - 1);
    }
  }

  lemma SeesBack(k: LookKind, b: Node, ml: bool, dotAll: bool, x: Subject, s: nat, t: nat)
    requires HarmlessChar(k, b, ml, dotAll) && s <= t <= |x.text| && Sees(k, b, ml, x, t)
    requires forall i :: s <= i < t ==> Passed(x.text[i], dotAll)
    ensures Sees(k, b, ml, x, s)
  {
    hide Takes, Passed;
    if s < t { assert Passed(x.text[s], dotAll) && Passed(x.text[t - 1], dotAll); }
  }

  lemma CharBack(n: Node, dotAll: bool, ml: bool, x: Subject, cfg: Cfg, s: nat, t: nat)
    requires Formed(n) && Recedes(n, ml, dotAll) && !n.body.Str? && t <= |x.text| && DotReaches(dotAll, x, s, t)
    requires t in Ends(n, ml, x, cfg, t)
    ensures s in Ends(n, ml, x, cfg, s)
  {
    assert n.charLen >= 0;
    hide Ends, Formed, HarmlessChar, Sees;
    CharLook(n.look, n.charLen, n.body, ml, x, cfg, s);
    CharLook(n.look, n.charLen, n.body, ml, x, cfg, t);
    SeesBack(n.look, n.body, ml, dotAll, x, s, t);
  }

  /** .*b, whether or not the loop peeks for b. */
  predicate DotTo(n: Node) {
    && n.List? && n.items.Cons? && n.items.left.Quant? && n.items.left.target.AnyChar? && DotStarRep(n.items.left.q)
    && n.items.right.Last? && n.items.right.left.Str? && |n.items.right.left.s| == 1
    && (n.items.left.q.nextHead.Some? ==> n.items.left.q.nextHead.value == n.items.right.left.s)
  }

  function Goal(n: Node): byte
    requires DotTo(n)
  {
    n.items.right.left.s[0]
  }

  /** (?>.*a|.*b) */
  predicate Choice(n: Node) {
    && n.Atomic? && !n.simple && n.body.Alt? && n.body.items.Cons? && n.body.items.right.Last?
    && DotTo(n.body.items.left) && DotTo(n.body.items.right.left)
  }

  function Goals(n: Node): (byte, byte)
    requires Choice(n)
  {
    (Goal(n.body.items.left), Goal(n.body.items.right.left))
  }

  /** No a stands between two places on a line without one behind them that .*b could use. */
  predicate Steady(a: byte, b: byte, dotAll: bool) { a == b || (!dotAll && a == NEWLINE) }

  /** Or c has to follow, and then a better place than the one taken further on would have been there too. */
  predicate Settled(a: byte, b: byte, c: byte, dotAll: bool) {
    Steady(a, b, dotAll) || ((dotAll || b != NEWLINE) && (c == a || c == b))
  }

  predicate SteadyChoice(n: Node, dotAll: bool) { Choice(n) && Steady(Goals(n).0, Goals(n).1, dotAll) }

  predicate SettledChoice(n: Node, next: Node, dotAll: bool) {
    Choice(n) && next.Str? && next.s != [] && Settled(Goals(n).0, Goals(n).1, next.s[0], dotAll)
  }

  /** For a node with the flag: in front of its .* stands nothing that looks around, but for harmless items of
      a list, and an atomic group has alternatives in front of it only if its choice is settled. */
  predicate Honest(n: Node, env: Mml, ml: bool, dotAll: bool)
    decreases n, 1
  {
    match n
    case List(ns) => HonestList(ns, env, ml, dotAll)
    case Alt(ns) => AllHonest(ns, env, ml, dotAll)
    case Quant(t, q) => q.lower == 0 || Honest(t, env, ml, dotAll)
    case Group(_, b) => Honest(b, env, ml, dotAll)
    case OptionNode(ml', b) => Honest(b, env, ml', dotAll)
    case Atomic(simple, b) => simple || LeadsOn(b) || SteadyChoice(n, dotAll)
    case _ => true
  }

  predicate HonestList(ns: Nodes, env: Mml, ml: bool, dotAll: bool)
    decreases ns, 0
  {
    var b := OptNode(ns.left, env, ml);
    if Flag(b, dotAll) then
      Honest(ns.left, env, ml, dotAll) || (ns.Cons? && SettledChoice(ns.left, ns.right.left, dotAll))
    else
      (Sure(ns.left) || Recedes(ns.left, ml, dotAll)) &&
      match ns
      case Last(_) => true
      case Cons(_, rest) => HonestList(rest, AddMml(env, b.len), ml, dotAll)
  }

  predicate AllHonest(ns: Nodes, env: Mml, ml: bool, dotAll: bool)
    decreases ns, 0
  {
    Honest(ns.left, env, ml, dotAll) &&
    match ns
    case Last(_) => true
    case Cons(_, rest) => AllHonest(rest, env, ml, dotAll)
  }

  // ----- a leading .*, result by result -----

  lemma {:induction false} AllPrefix(ns: Nodes, ml: bool, x: Subject, cfg: Cfg, a: seq<nat>, b: seq<nat>)
    requires AllFormed(ns) && Bounded(b, x) && a <= b
    ensures Bounded(a, x) && EndsListAll(ns, ml, x, cfg, a) <= EndsListAll(ns, ml, x, cfg, b)
    decreases |a|
  {
    hide EndsList;
    if a != [] { AllPrefix(ns, ml, x, cfg, a[1..], b[1..]); }
  }

  lemma {:induction false} SimpleOne(lower: nat, ml: bool, x: Subject, cfg: Cfg, k: nat, s: nat)
    requires s <= |x.text|
    ensures |EndsSimple(AnyChar, lower, ml, x, cfg, k, s)| <= 1
    decreases |x.text| - s
  {
    hide Ends;
    var es := Ends(AnyChar, ml, x, cfg, s);
    if es != [] && es[0] > s { SimpleOne(lower, ml, x, cfg, k + 1, es[0]); }
  }

  /** The results from t are the first ones from s. */
  lemma {:induction false} LeadPrefix(n: Node, env: Mml, dotAll: bool, ml: bool, x: Subject, cfg: Cfg, s: nat, t: nat)
    requires Formed(n) && LeadsOn(n) && t <= |x.text| && DotReaches(dotAll, x, s, t)
    requires Flag(OptNode(n, env, ml), dotAll)
    ensures Ends(n, ml, x, cfg, t) <= Ends(n, ml, x, cfg, s)
    decreases n
  {
    hide EndsRep, EndsSimple;
    match n
    case List(ns) => LeadList(ns, env, dotAll, ml, x, cfg, s, t);
    case Quant(_, q) => DotPrefix(q, ml, x, cfg, 0, 0, s, t);
    case Group(_, b) => LeadPrefix(b, env, dotAll, ml, x, cfg, s, t);
    case OptionNode(ml', b) => LeadPrefix(b, env, dotAll, ml', x, cfg, s, t);
    case Atomic(simple, b) =>
      if simple {
        SimpleOne(b.q.lower, ml, x, cfg, 0, s);
        SimpleOne(b.q.lower, ml, x, cfg, 0, t);
        var r := EndsSimple(AnyChar, b.q.lower, ml, x, cfg, 0, t);
        if r != [] { DotSimple(b.q.lower, ml, x, cfg, 0, 0, s, t, r[0]); }
      } else {
        LeadPrefix(b, env, dotAll, ml, x, cfg, s, t);
      }
    case _ =>
  }

  lemma {:induction false} LeadList(ns: Nodes, env: Mml, dotAll: bool, ml: bool, x: Subject, cfg: Cfg, s: nat, t: nat)
    requires AllFormed(ns) && LeadsOn(ns.left) && s <= t <= |x.text| && DotReaches(dotAll, x, s, t)
    requires Flag(OptList(ns, Bound(env), env, ml), dotAll)
    ensures EndsList(ns, ml, x, cfg, t) <= EndsList(ns, ml, x, cfg, s)
    decreases ns
  {
    hide Ends, Formed, OptNode, LeadsOn, DotReaches;
    var b := OptNode(ns.left, env, ml);
    LeadLong(ns.left, env, ml);
    if ns.Cons? && !Flag(b, dotAll) { LateFlag(ns.right, ConcatLeft(Bound(env), b), AddMml(env, b.len), ml, dotAll); }
    LeadPrefix(ns.left, env, dotAll, ml, x, cfg, s, t);
    if ns.Cons? { AllPrefix(ns.right, ml, x, cfg, Ends(ns.left, ml, x, cfg, t), Ends(ns.left, ml, x, cfg, s)); }
  }

  /** .* can take something. */
  lemma {:induction false} LeadLong(n: Node, env: Mml, ml: bool)
    requires LeadsOn(n)
    ensures OptNode(n, env, ml).len.max > 0
    decreases n
  {
    match n
    case List(ns) =>
      LeadLong(ns.left, env, ml);
      hide OptNode;
      var b := OptNode(ns.left, env, ml);
      assert OptNode(n, env, ml) == OptList(ns, Bound(env), env, ml) by { ListNode(ns, env, ml); }
      if ns.Cons? { ListGrows(ns.right, ConcatLeft(Bound(env), b), AddMml(env, b.len), ml); }
    case Quant(_, _) =>
    case Group(_, b) => LeadLong(b, env, ml);
    case OptionNode(ml', b) => LeadLong(b, env, ml');
    case Atomic(_, b) => LeadLong(b, env, ml);
    case _ =>
  }

  lemma ListNode(ns: Nodes, env: Mml, ml: bool)
    ensures OptNode(List(ns), env, ml) == OptList(ns, Bound(env), env, ml)
  {
  }

  // ----- a choice between two .* -----

  lemma {:induction false} DotAfter(q: Rep, ml: bool, x: Subject, cfg: Cfg, k: nat, s: nat, e: nat)
    requires RepOk(q) && DotStarRep(q) && s <= |x.text| && e in EndsRep(AnyChar, q, ml, x, cfg, k, s)
    ensures DotReaches(ml, x, s, e)
    decreases |x.text| - s
  {
    hide EndsRep, Leavable;
    DotUnfold(q, ml, x, cfg, k, s);
    if s < |x.text| && (ml || x.text[s] != NEWLINE) && e in EndsRep(AnyChar, q, ml, x, cfg, k + 1, s + 1) {
      DotAfter(q, ml, x, cfg, k + 1, s + 1, e);
    }
  }

  lemma DotToParts(n: Node, ml: bool, x: Subject, cfg: Cfg, s: nat)
    requires Formed(n) && DotTo(n) && s <= |x.text|
    ensures var q := n.items.left.q; var rest := n.items.right;
            && RepOk(q) && DotStarRep(q) && AllFormed(rest)
            && Ends(n, ml, x, cfg, s) == EndsListAll(rest, ml, x, cfg, EndsRep(AnyChar, q, ml, x, cfg, 0, s))
            && EndsList(rest, ml, x, cfg, s) == One(HasAt(x, s, [Goal(n)]), s + 1)
            && (s < |x.text| && x.text[s] == Goal(n) ==> Leavable(AnyChar, q, x, cfg, s))
  {
    hide EndsRep, EndsListAll;
    var star, rest := n.items.left, n.items.right;
    assert rest.left.s == [Goal(n)] && AllFormed(n.items);
    assert Ends(star, ml, x, cfg, s) == EndsRep(AnyChar, star.q, ml, x, cfg, 0, s);
    assert Ends(n, ml, x, cfg, s) == EndsList(Cons(star, rest), ml, x, cfg, s);
    assert EndsList(rest, ml, x, cfg, s) == Ends(rest.left, ml, x, cfg, s);
  }

  lemma HasByte(x: Subject, s: nat, b: byte)
    ensures HasAt(x, s, [b]) <==> s < |x.text| && x.text[s] == b
  {
    if s < |x.text| { assert x.text[s..s + 1] == [x.text[s]]; }
  }

  /** .*b ends behind every b the dot gets to ... */
  lemma GoalHas(n: Node, ml: bool, x: Subject, cfg: Cfg, s: nat, e: nat)
    requires Formed(n) && DotTo(n) && e < |x.text| && DotReaches(ml, x, s, e) && x.text[e] == Goal(n)
    ensures e + 1 in Ends(n, ml, x, cfg, s)
  {
    DotToParts(n, ml, x, cfg, s);
    DotToParts(n, ml, x, cfg, e);
    HasByte(x, e, Goal(n));
    hide Ends, EndsList, EndsRep, Leavable, DotTo, HasAt;
    var q := n.items.left.q;
    DotUnfold(q, ml, x, cfg, 0, e);
    DotBack(q, ml, x, cfg, 0, 0, s, e, e);
    AllFrom(n.items.right, ml, x, cfg, EndsRep(AnyChar, q, ml, x, cfg, 0, s), e, e + 1);
  }

  /** ... and nowhere else. */
  lemma GoalOnly(n: Node, ml: bool, x: Subject, cfg: Cfg, s: nat, e: nat)
    requires Formed(n) && DotTo(n) && s <= |x.text| && e in Ends(n, ml, x, cfg, s)
    ensures s < e <= |x.text| && x.text[e - 1] == Goal(n) && DotReaches(ml, x, s, e - 1)
  {
    DotToParts(n, ml, x, cfg, s);
    hide Ends, EndsList, EndsRep, Leavable, DotTo, HasAt;
    var q := n.items.left.q;
    var m := FromSome(n.items.right, ml, x, cfg, EndsRep(AnyChar, q, ml, x, cfg, 0, s), e);
    DotToParts(n, ml, x, cfg, m);
    HasByte(x, m, Goal(n));
    DotAfter(q, ml, x, cfg, 0, s, m);
  }

  lemma GoalPrefix(n: Node, ml: bool, x: Subject, cfg: Cfg, s: nat, t: nat)
    requires Formed(n) && DotTo(n) && t <= |x.text| && DotReaches(ml, x, s, t)
    ensures Ends(n, ml, x, cfg, t) <= Ends(n, ml, x, cfg, s)
  {
    DotToParts(n, ml, x, cfg, s);
    DotToParts(n, ml, x, cfg, t);
    hide Ends, EndsList, EndsRep, Leavable, DotTo;
    var q := n.items.left.q;
    DotPrefix(q, ml, x, cfg, 0, 0, s, t);
    AllPrefix(n.items.right, ml, x, cfg, EndsRep(AnyChar, q, ml, x, cfg, 0, t), EndsRep(AnyChar, q, ml, x, cfg, 0, s));
  }

  /** The first alternative that matches decides, with its first result. */
  lemma ChoiceEnds(n: Node, ml: bool, x: Subject, cfg: Cfg, s: nat)
    requires Formed(n) && Choice(n) && s <= |x.text|
    ensures Formed(n.body.items.left) && Formed(n.body.items.right.left)
    ensures var ea, eb := Ends(n.body.items.left, ml, x, cfg, s), Ends(n.body.items.right.left, ml, x, cfg, s);
            Ends(n, ml, x, cfg, s) == if ea != [] then [ea[0]] else if eb != [] then [eb[0]] else []
  {
    var ns := n.body.items;
    assert AllFormed(ns) && AllFormed(ns.right);
    hide DotTo;
    assert EndsAlt(ns.right, ml, x, cfg, s) == Ends(ns.right.left, ml, x, cfg, s);
    assert Ends(n.body, ml, x, cfg, s) == Ends(ns.left, ml, x, cfg, s) + Ends(ns.right.left, ml, x, cfg, s);
  }

  /** Where .*b is taken from t and the choice is settled, there is no a between s and t for .*a. */
  lemma NoEarlier(na: Node, nb: Node, c: byte, ml: bool, x: Subject, cfg: Cfg, s: nat, t: nat)
    requires Formed(na) && Formed(nb) && DotTo(na) && DotTo(nb) && t <= |x.text| && DotReaches(ml, x, s, t)
    requires Ends(na, ml, x, cfg, t) == [] && Ends(nb, ml, x, cfg, t) != []
    requires Settled(Goal(na), Goal(nb), c, ml)
    requires var m := Ends(nb, ml, x, cfg, t)[0];
             Steady(Goal(na), Goal(nb), ml) || (m < |x.text| && x.text[m] == c)
    ensures Ends(na, ml, x, cfg, s) == []
  {
    hide Ends, DotTo, Goal;
    var es, m := Ends(na, ml, x, cfg, s), Ends(nb, ml, x, cfg, t)[0];
    GoalOnly(nb, ml, x, cfg, t, m);
    if es != [] {
      GoalOnly(na, ml, x, cfg, s, es[0]);
      var k := es[0] - 1;
      if k >= t {
        GoalHas(na, ml, x, cfg, t, k);
      } else if Goal(na) == Goal(nb) {
        GoalHas(na, ml, x, cfg, t, m - 1);
      } else if c == Goal(na) {
        GoalHas(na, ml, x, cfg, t, m);
      } else {
        GoalHas(nb, ml, x, cfg, m, m);
        GoalPrefix(nb, ml, x, cfg, t, m);
        GoalOnly(nb, ml, x, cfg, m, Ends(nb, ml, x, cfg, m)[0]);
      }
    }
  }

  /** A settled choice falls the same way at s as at t. */
  lemma ChoiceKept(n: Node, c: byte, ml: bool, x: Subject, cfg: Cfg, s: nat, t: nat)
    requires Formed(n) && Choice(n) && t <= |x.text| && DotReaches(ml, x, s, t)
    requires Settled(Goals(n).0, Goals(n).1, c, ml) && Ends(n, ml, x, cfg, t) != []
    requires var m := Ends(n, ml, x, cfg, t)[0];
             Steady(Goals(n).0, Goals(n).1, ml) || (m < |x.text| && x.text[m] == c)
    ensures Ends(n, ml, x, cfg, s) == Ends(n, ml, x, cfg, t)
  {
    ChoiceEnds(n, ml, x, cfg, s);
    ChoiceEnds(n, ml, x, cfg, t);
    hide Ends, DotTo, Settled, Steady;
    var na, nb := n.body.items.left, n.body.items.right.left;
    GoalPrefix(na, ml, x, cfg, s, t);
    GoalPrefix(nb, ml, x, cfg, s, t);
    if Ends(na, ml, x, cfg, t) == [] { NoEarlier(na, nb, c, ml, x, cfg, s, t); }
  }

  lemma SteadyBack(n: Node, ml: bool, x: Subject, cfg: Cfg, s: nat, t: nat, e: nat)
    requires Formed(n) && SteadyChoice(n, ml) && t <= |x.text| && DotReaches(ml, x, s, t)
    requires e in Ends(n, ml, x, cfg, t)
    ensures e in Ends(n, ml, x, cfg, s)
  {
    ChoiceKept(n, Goals(n).0, ml, x, cfg, s, t);
  }

  lemma SettledBack(n: Node, rest: Nodes, ml: bool, x: Subject, cfg: Cfg, s: nat, t: nat, e: nat)
    requires Formed(n) && AllFormed(rest) && SettledChoice(n, rest.left, ml) && t <= |x.text|
             && DotReaches(ml, x, s, t)
    requires e in EndsListAll(rest, ml, x, cfg, Ends(n, ml, x, cfg, t))
    ensures e in EndsListAll(rest, ml, x, cfg, Ends(n, ml, x, cfg, s))
  {
    ChoiceEnds(n, ml, x, cfg, t);
    hide Ends, EndsList, Goals, Choice, Settled, Steady;
    var str := rest.left.s;
    var m := FromSome(rest, ml, x, cfg, Ends(n, ml, x, cfg, t), e);
    BeginsWith(str, rest, ml, x, cfg, m, e);
    ChoiceKept(n, str[0], ml, x, cfg, s, t);
  }

  lemma BeginsWith(str: seq<byte>, rest: Nodes, ml: bool, x: Subject, cfg: Cfg, m: nat, e: nat)
    requires rest.left == Str(str) && str != [] && AllFormed(rest) && m <= |x.text|
    requires e in EndsList(rest, ml, x, cfg, m)
    ensures m < |x.text| && x.text[m] == str[0]
  {
    assert Ends(Str(str), ml, x, cfg, m) != [];
    assert x.text[m..m + |str|] == str;
  }

  /** .* sets the flag of its own mode only. */
  lemma ChoiceMode(n: Node, env: Mml, ml: bool, dotAll: bool)
    requires Choice(n) && Flag(OptNode(n, env, ml), dotAll)
    ensures dotAll == ml
  {
    var ns := n.body.items;
    assert OptNode(n, env, ml) == OptNode(n.body, env, ml) == OptAlt(ns, env, ml);
    hide OptNode, DotTo;
    AltFlag(ns.right, OptNode(ns.left, env, ml), env, ml, dotAll);
    DotToMode(ns.left, env, ml, dotAll);
  }

  lemma DotToMode(n: Node, env: Mml, ml: bool, dotAll: bool)
    requires DotTo(n) && Flag(OptNode(n, env, ml), dotAll)
    ensures dotAll == ml
  {
    hide SelectExact, SelectMap, Cut, ConcatExact, Fitting;
    var a, rest := OptNode(n.items.left, env, ml), n.items.right;
    ListNode(n.items, env, ml);
    assert OptNode(AnyChar, env, ml).len.max == 1;
    if dotAll != ml { LateFlag(rest, ConcatLeft(Bound(env), a), AddMml(env, a.len), ml, dotAll); }
  }

  // ----- going back along the line -----

  /** ANCHOR_ANYCHAR_STAR: a match that begins at t is also found from s, if only characters the
      leading dot takes lie between. */
  lemma {:induction false} StarBack(n: Node, env: Mml, dotAll: bool, ml: bool, x: Subject, cfg: Cfg, s: nat, t: nat,
                                    e: nat)
    requires Formed(n) && Ready(n) && Searchable(n) && t <= |x.text| <= INT_MAX && DotReaches(dotAll, x, s, t)
    requires Flag(OptNode(n, env, ml), dotAll) && Honest(n, env, ml, dotAll) && e in Ends(n, ml, x, cfg, t)
    ensures e in Ends(n, ml, x, cfg, s)
    decreases n, 1
  {
    hide OptQuant, EndsRep, EndsSimple;
    match n
    case List(ns) => StarList(ns, Bound(env), env, dotAll, ml, x, cfg, s, t, e);
    case Alt(ns) => StarAlt(ns, env, dotAll, ml, x, cfg, s, t, e);
    case Quant(tt, q) => StarQuant(tt, q, env, dotAll, ml, x, cfg, s, t, e);
    case Group(_, b) => StarBack(b, env, dotAll, ml, x, cfg, s, t, e);
    case OptionNode(ml', b) => StarBack(b, env, dotAll, ml', x, cfg, s, t, e);
    case Atomic(simple, b) =>
      if simple {
        StarSimple(b, env, dotAll, ml, x, cfg, s, t, e);
      } else if LeadsOn(b) {
        LeadPrefix(b, env, dotAll, ml, x, cfg, s, t);
      } else {
        ChoiceMode(n, env, ml, dotAll);
        SteadyBack(n, ml, x, cfg, s, t, e);
      }
    case _ =>
  }

  lemma SettledHere(n: Node, next: Node, env: Mml, ml: bool, dotAll: bool)
    requires SettledChoice(n, next, dotAll) && Flag(OptNode(n, env, ml), dotAll)
    ensures dotAll == ml && SettledChoice(n, next, ml)
  {
    ChoiceMode(n, env, ml, dotAll);
  }

  lemma StarSimple(b: Node, env: Mml, dotAll: bool, ml: bool, x: Subject, cfg: Cfg, s: nat, t: nat, e: nat)
    requires b.Quant? && Formed(b.target) && IsSimple(b.target) && t <= |x.text| && DotReaches(dotAll, x, s, t)
    requires Flag(OptNode(b, env, ml), dotAll) && e in EndsSimple(b.target, b.q.lower, ml, x, cfg, 0, t)
    ensures e in EndsSimple(b.target, b.q.lower, ml, x, cfg, 0, s)
  {
    hide EndsSimple;
    DotSimple(b.q.lower, ml, x, cfg, 0, 0, s, t, e);
  }

  lemma {:induction false} StarQuant(t: Node, q: Rep, env: Mml, dotAll: bool, ml: bool, x: Subject, cfg: Cfg, s: nat,
                                     s': nat, e: nat)
    requires Formed(t) && RepOk(q) && Ready(t) && Searchable(t) && s' <= |x.text| <= INT_MAX
    requires DotReaches(dotAll, x, s, s') && (q.lower > 0 ==> Honest(t, env, ml, dotAll))
    requires Flag(OptQuant(t, q, OptNode(t, env, ml), env, ml), dotAll) && e in EndsRep(t, q, ml, x, cfg, 0, s')
    ensures e in EndsRep(t, q, ml, x, cfg, 0, s)
    decreases t, 2
  {
    hide Formed, Ready, Searchable, OptNode, Ends, EndsEach, Checked, Continues, Honest;
    if q.lower == 0 {
      hide EndsRep;
      DotBack(q, ml, x, cfg, 0, 0, s, s', e);
    } else {
      var i := RepSome(t, q, ml, x, cfg, 0, s', e);
      var m := i.value;
      var left := GoesOn(t, q, ml, x, cfg, 0, s', m, e);
      StarBack(t, env, dotAll, ml, x, cfg, s, s', m);
      EndsAfter(t, env, ml, x, cfg, s', m);
      if m == s' { StayRep(t, q, ml, x, cfg, 1, s'); }
      EachHas(t, q, ml, x, cfg, 1, Ends(t, ml, x, cfg, s), s, m, e);
    }
  }

  lemma EndsAfter(n: Node, env: Mml, ml: bool, x: Subject, cfg: Cfg, s: nat, e: nat)
    requires Formed(n) && Ready(n) && Searchable(n) && s <= |x.text| <= INT_MAX && e in Ends(n, ml, x, cfg, s)
    ensures e >= s
  {
    hide OptNode, Ends;
    OptSound(n, Mml(0, INFINITE_DISTANCE), ml, x, cfg, s, s, e);
    SpanLen(OptNode(n, Mml(0, INFINITE_DISTANCE), ml), x, s, s, e);
  }

  lemma {:induction false} StarList(ns: Nodes, a: Opt, env: Mml, dotAll: bool, ml: bool, x: Subject, cfg: Cfg, s: nat,
                                    t: nat, e: nat)
    requires AllFormed(ns) && AllReady(ns) && AllSearchable(ns) && s <= t <= |x.text| <= INT_MAX
             && DotReaches(dotAll, x, s, t)
    requires Flag(OptList(ns, a, env, ml), dotAll) && !Flag(a, dotAll) && e in EndsList(ns, ml, x, cfg, t)
    requires HonestList(ns, env, ml, dotAll)
    ensures e in EndsList(ns, ml, x, cfg, s)
    decreases ns, 0
  {
    hide Ends, Formed, Ready, Searchable, Honest, SettledChoice, Sure, Recedes, OptNode, DotReaches;
    var n := ns.left;
    var b := OptNode(n, env, ml);
    if ns.Last? {
      StarBack(n, env, dotAll, ml, x, cfg, s, t, e);
    } else {
      var rest := ns.right;
      var c := ConcatLeft(a, b);
      var m := FromSome(rest, ml, x, cfg, Ends(n, ml, x, cfg, t), e);
      if Flag(b, dotAll) && !Honest(n, env, ml, dotAll) {
        SettledHere(n, rest.left, env, ml, dotAll);
        SettledBack(n, rest, ml, x, cfg, s, t, e);
      } else if Flag(b, dotAll) {
        StarBack(n, env, dotAll, ml, x, cfg, s, t, m);
        AllFrom(rest, ml, x, cfg, Ends(n, ml, x, cfg, s), m, e);
      } else {
        LateFlag(rest, c, AddMml(env, b.len), ml, dotAll);
        EmptyEnds(n, env, ml, x, cfg, t, m);
        if Sure(n) { EmptyMatches(n, env, ml, x, cfg, s); } else { HarmlessBack(n, dotAll, ml, x, cfg, s, t); }
        StarList(rest, c, AddMml(env, b.len), dotAll, ml, x, cfg, s, t, e);
        AllFrom(rest, ml, x, cfg, Ends(n, ml, x, cfg, s), s, e);
      }
    }
  }

  lemma {:induction false} StarAlt(ns: Nodes, env: Mml, dotAll: bool, ml: bool, x: Subject, cfg: Cfg, s: nat, t: nat,
                                   e: nat)
    requires AllFormed(ns) && AllReady(ns) && AllSearchable(ns) && s <= t <= |x.text| <= INT_MAX
             && DotReaches(dotAll, x, s, t)
    requires AllHonest(ns, env, ml, dotAll)
    requires Flag(OptAlt(ns, env, ml), dotAll) && e in EndsAlt(ns, ml, x, cfg, t)
    ensures e in EndsAlt(ns, ml, x, cfg, s)
    decreases ns, 0
  {
    hide Ends, Formed, Ready, Searchable, Honest, Sure, OptNode, DotReaches;
    var n := ns.left;
    if ns.Cons? { AltFlag(ns.right, OptNode(n, env, ml), env, ml, dotAll); }
    if e in Ends(n, ml, x, cfg, t) {
      StarBack(n, env, dotAll, ml, x, cfg, s, t, e);
    } else {
      StarAltFrom(ns.right, OptNode(n, env, ml), env, dotAll, ml, x, cfg, s, t, e);
    }
  }

  lemma {:induction false} StarAltFrom(ns: Nodes, a: Opt, env: Mml, dotAll: bool, ml: bool, x: Subject, cfg: Cfg,
                                       s: nat, t: nat, e: nat)
    requires AllFormed(ns) && AllReady(ns) && AllSearchable(ns) && s <= t <= |x.text| <= INT_MAX
             && DotReaches(dotAll, x, s, t)
    requires AllHonest(ns, env, ml, dotAll)
    requires Flag(OptAltFrom(ns, a, env, ml), dotAll) && e in EndsAlt(ns, ml, x, cfg, t)
    ensures e in EndsAlt(ns, ml, x, cfg, s)
    decreases ns, 0
  {
    hide Ends, Formed, Ready, Searchable, Honest, Sure, OptNode, DotReaches;
    var n := ns.left;
    AltFlag(ns, a, env, ml, dotAll);
    if e in Ends(n, ml, x, cfg, t) {
      StarBack(n, env, dotAll, ml, x, cfg, s, t, e);
    } else {
      StarAltFrom(ns.right, AltMerge(a, OptNode(n, env, ml)), env, dotAll, ml, x, cfg, s, t, e);
    }
  }

  /** The flags that survive to the whole tree are honest. */
  predicate Anchored(n: Node, ml: bool) {
    && (OptNode(n, ZERO, ml).star ==> Honest(n, ZERO, ml, false))
    && (OptNode(n, ZERO, ml).starMl ==> Honest(n, ZERO, ml, true))
  }

  /** Trees a search is right for: no repeat overreaches, unless it comes last in a tree without .*, and the
      flags of .* are honest. */
  predicate Dependable(n: Node, ml: bool) {
    (Searchable(n) && Anchored(n, ml)) || (Trailing(n) && NoDotStar(n))
  }

  /** A tree without .* needs no more. */
  lemma NoStarAnchored(n: Node, ml: bool)
    requires NoDotStar(n)
    ensures Anchored(n, ml)
  {
    NoFlags(n, ZERO, ml);
  }
}
