/** The undo bits that setup_tree asks for (Dependencies/oniguruma5/regcomp.c), and what they are worth: with them the
    groups of a compiled expression are opened in the order the code was written in, but for repeats that may leave
    early. */
module MemoryBits {
  import opened Regint
  import opened Regparse
  import opened Regcomp
  import opened Machine
  import opened Lengths
  import opened Setup
  import opened SetupReady
  import opened SetupCorrect
  import opened Spans
  import opened TreeLevels

  /** The groups whose start setup_tree wants undone; inside: in an alternation, in a negative look-around, or in a
      repeat with different bounds. */
  function StartBits(n: Node, inside: bool): set<nat> {
    match n
    case List(ns) => AllBits(ns, inside)
    case Alt(ns) => AllBits(ns, true)
    case Quant(t, q) => StartBits(t, inside || q.lower != q.upper)
    case Group(k, b) => (if inside then {k} else {}) + StartBits(b, inside)
    case OptionNode(_, b) => StartBits(b, inside)
    case Atomic(_, b) => StartBits(b, inside)
    case Look(k, _, b) => StartBits(b, inside || k.PrecReadNot? || k.LookBehindNot?)
    case _ => {}
  }

  function AllBits(ns: Nodes, inside: bool): set<nat> {
    match ns
    case Last(n) => StartBits(n, inside)
    case Cons(n, rest) => StartBits(n, inside) + AllBits(rest, inside)
  }

  lemma {:induction false} InsideBits(n: Node)
    ensures StartBits(n, true) == GroupsOf(n)
  {
    match n
    case List(ns) => AllInside(ns);
    case Alt(ns) => AllInside(ns);
    case Quant(t, _) => InsideBits(t);
    case Group(_, b) => InsideBits(b);
    case OptionNode(_, b) => InsideBits(b);
    case Atomic(_, b) => InsideBits(b);
    case Look(_, _, b) => InsideBits(b);
    case _ =>
  }

  lemma {:induction false} AllInside(ns: Nodes)
    ensures AllBits(ns, true) == AllGroups(ns)
  {
    InsideBits(ns.left);
    if ns.Cons? { AllInside(ns.right); }
  }

  // ----- set-up keeps groups and bits -----

  /** The same groups, with the same bits. */
  predicate SameGroups(a: Node, b: Node) {
    && GroupsOf(a) == GroupsOf(b) && Numbered(a) == Numbered(b)
    && StartBits(a, true) == StartBits(b, true) && StartBits(a, false) == StartBits(b, false)
  }

  lemma {:induction false} NextGroups(n: Node, next: Node)
    ensures SameGroups(NextSetup(n, next), n)
  {
    if n.Group? { NextGroups(n.body, next); }
  }

  lemma QuantGroups(t: Node, q: Rep, t': Node, q': Rep)
    requires SameGroups(t', t) && q'.lower == q.lower && q'.upper == q.upper
    ensures SameGroups(QuantSetup(t', q'), Quant(t, q))
  {
    var n := QuantSetup(t', q');
    hide Repeated, Head;
    if n.Quant? {
      SameInner(t', n.target);
      hide QuantSetup, Numbered, GroupsOf, StartBits;
      QuantOver(t, q, n.target, n.q);
    }
  }

  /** The head of a loop means nothing to its groups. */
  lemma SameInner(t: Node, t': Node)
    requires t' == t || (t.Quant? && t'.Quant? && t'.target == t.target && t'.q == t.q.(headExact := None))
    ensures SameGroups(t', t)
  {
  }

  lemma QuantOver(t: Node, q: Rep, t': Node, q': Rep)
    requires SameGroups(t', t) && q'.lower == q.lower && q'.upper == q.upper
    ensures SameGroups(Quant(t', q'), Quant(t, q))
  {
  }

  lemma {:induction false} SetupGroups(n: Node, inside: bool)
    ensures SameGroups(SetupTree(n, inside), n)
  {
    match n
    case List(ns) => ListGroups(ns, inside);
    case Alt(ns) => AltGroups(ns, inside);
    case Quant(t, q) =>
      SetupGroups(t, true);
      QuantGroups(t, q, SetupTree(t, true), SetRep(t, q, inside));
    case Group(_, b) => SetupGroups(b, inside);
    case OptionNode(_, b) => SetupGroups(b, inside);
    case Atomic(_, b) => SetupGroups(b, inside);
    case Look(_, _, b) => SetupGroups(b, inside);
    case _ =>
  }

  predicate SameAll(a: Nodes, b: Nodes) {
    && AllGroups(a) == AllGroups(b) && AllNumbered(a) == AllNumbered(b)
    && AllBits(a, true) == AllBits(b, true) && AllBits(a, false) == AllBits(b, false)
  }

  lemma {:induction false} ListGroups(ns: Nodes, inside: bool)
    ensures SameAll(SetupList(ns, inside), ns)
  {
    SetupGroups(ns.left, inside);
    if ns.Cons? {
      NextGroups(SetupTree(ns.left, inside), SetupTree(ns.right.left, inside));
      ListGroups(ns.right, inside);
    }
  }

  lemma {:induction false} AltGroups(ns: Nodes, inside: bool)
    ensures SameAll(SetupAlt(ns, inside), ns)
  {
    SetupGroups(ns.left, inside);
    if ns.Cons? { AltGroups(ns.right, inside); }
  }

  // ----- repeats that may leave early -----

  /** A counter with equal bounds that stops at an empty round, around a group whose start is not undone. */
  predicate MayQuit(t: Node, q: Rep, cfg: Cfg)
    requires Formed(t)
  {
    && q.lower == q.upper && FormOf(t, q, CompileLength(t, cfg)).Counter? && q.emptyInfo != IsNotEmpty
    && !(GroupsOf(t) <= cfg.btMemStart)
  }

  predicate NoneQuits(n: Node, cfg: Cfg)
    requires Formed(n)
  {
    match n
    case List(ns) => AllStay(ns, cfg)
    case Alt(ns) => AllStay(ns, cfg)
    case Quant(t, q) => !MayQuit(t, q, cfg) && NoneQuits(t, cfg)
    case Group(_, b) => NoneQuits(b, cfg)
    case OptionNode(_, b) => NoneQuits(b, cfg)
    case Atomic(_, b) => NoneQuits(b, cfg)
    case Look(_, _, b) => NoneQuits(b, cfg)
    case _ => true
  }

  predicate AllStay(ns: Nodes, cfg: Cfg)
    requires AllFormed(ns)
  {
    match ns
    case Last(n) => NoneQuits(n, cfg)
    case Cons(n, rest) => NoneQuits(n, cfg) && AllStay(rest, cfg)
  }

  /** What holds of repeats in a finished tree: {0} is greedy, and a simple atomic repeat has a simple body. */
  predicate Finished(n: Node) {
    match n
    case List(ns) => AllFinished(ns)
    case Alt(ns) => AllFinished(ns)
    case Quant(t, q) => (q.upper == 0 ==> q.greedy && !q.isRefered) && Finished(t)
    case Group(_, b) => Finished(b)
    case OptionNode(_, b) => Finished(b)
    case Atomic(simple, b) => (simple ==> GroupsOf(b) == {}) && Finished(b)
    case Look(_, _, b) => Finished(b)
    case _ => true
  }

  predicate AllFinished(ns: Nodes) {
    match ns
    case Last(n) => Finished(n)
    case Cons(n, rest) => Finished(n) && AllFinished(rest)
  }

  lemma {:induction false} NextFinished(n: Node, next: Node)
    requires Finished(n)
    ensures Finished(NextSetup(n, next))
  {
    if n.Group? { NextFinished(n.body, next); }
  }

  lemma {:induction false} SetupFinished(n: Node, inside: bool)
    requires Parsed(n)
    ensures Finished(SetupTree(n, inside))
  {
    hide MinLen, HasMemory, EmptyInfoOf;
    match n
    case List(ns) => ListFinished(ns, inside);
    case Alt(ns) => AltFinished(ns, inside);
    case Quant(t, q) =>
      SetupFinished(t, true);
      QuantFinished(SetupTree(t, true), SetRep(t, q, inside));
    case Group(_, b) => SetupFinished(b, inside);
    case OptionNode(_, b) => SetupFinished(b, inside);
    case Atomic(_, b) =>
      SetupFinished(b, inside);
      SimpleNone(SetupTree(b, inside));
    case Look(_, _, b) => SetupFinished(b, inside);
    case _ =>
  }

  lemma SimpleNone(b: Node)
    ensures SimpleAtomic(b) ==> GroupsOf(b) == {}
  {
  }

  lemma QuantFinished(t: Node, q: Rep)
    requires Finished(t) && (q.upper == 0 ==> q.greedy && !q.isRefered)
    ensures Finished(QuantSetup(t, q))
  {
    hide Repeated, Head;
  }

  lemma {:induction false} ListFinished(ns: Nodes, inside: bool)
    requires AllParsed(ns)
    ensures AllFinished(SetupList(ns, inside))
  {
    SetupFinished(ns.left, inside);
    if ns.Cons? {
      NextFinished(SetupTree(ns.left, inside), SetupTree(ns.right.left, inside));
      ListFinished(ns.right, inside);
    }
  }

  lemma {:induction false} AltFinished(ns: Nodes, inside: bool)
    requires AllParsed(ns)
    ensures AllFinished(SetupAlt(ns, inside))
  {
    SetupFinished(ns.left, inside);
    if ns.Cons? { AltFinished(ns.right, inside); }
  }

  // ----- what the bits are worth -----

  /** A repeat with equal bounds makes all its rounds unless it may leave early. */
  lemma FixedStays(t: Node, q: Rep, cfg: Cfg)
    requires Formed(t) && q.lower == q.upper && (q.upper == 0 ==> q.greedy && !q.isRefered)
    ensures (GroupsOf(t) <= cfg.btMemStart || Repeats(t, q, cfg)) <==> !MayQuit(t, q, cfg)
  {
    hide Formed, GroupsOf, CompileLength;
  }

  lemma {:induction false} SteadyIs(n: Node, inside: bool, cfg: Cfg)
    requires Formed(n) && Finished(n) && StartBits(n, inside) <= cfg.btMemStart
    ensures Steady(n, cfg) <==> NoneQuits(n, cfg)
  {
    hide GroupsOf, Repeats, MayQuit, CompileLength;
    match n
    case List(ns) => AllSteadyIs(ns, inside, cfg);
    case Alt(ns) =>
      AllInside(ns);
      AllSteadyIs(ns, true, cfg);
    case Quant(t, q) =>
      SteadyIs(t, inside || q.lower != q.upper, cfg);
      if q.lower == q.upper { FixedStays(t, q, cfg); } else { InsideBits(t); RoomStays(t, q, cfg); }
    case Group(k, b) => SteadyIs(b, inside, cfg);
    case OptionNode(ml, b) => SteadyIs(b, inside, cfg);
    case Atomic(simple, b) => SteadyIs(b, inside, cfg);
    case Look(k, len, b) =>
      SteadyIs(b, inside || k.PrecReadNot? || k.LookBehindNot?, cfg);
      if k.PrecReadNot? || k.LookBehindNot? { InsideBits(b); }
    case _ =>
  }

  lemma RoomStays(t: Node, q: Rep, cfg: Cfg)
    requires Formed(t) && q.lower != q.upper
    ensures !MayQuit(t, q, cfg)
  {
    hide Formed, GroupsOf, CompileLength;
  }

  lemma {:induction false} AllSteadyIs(ns: Nodes, inside: bool, cfg: Cfg)
    requires AllFormed(ns) && AllFinished(ns) && AllBits(ns, inside) <= cfg.btMemStart
    ensures AllSteady(ns, cfg) <==> AllStay(ns, cfg)
  {
    hide Formed, GroupsOf, Finished, Steady, NoneQuits, StartBits;
    SteadyIs(ns.left, inside, cfg);
    if ns.Cons? { AllSteadyIs(ns.right, inside, cfg); }
  }

  /** With the bits that set-up asks for, the finished tree is tracked if and only if none of its repeats may leave
      early. */
  lemma SetupSteady(n: Node, cfg: Cfg)
    requires Parsed(n) && StartBits(n, false) <= cfg.btMemStart
    ensures Formed(SetupTree(n, false))
    ensures Steady(SetupTree(n, false), cfg) <==> NoneQuits(SetupTree(n, false), cfg)
    ensures Numbered(SetupTree(n, false)) == Numbered(n)
  {
    SetupFormed(n, false);
    SetupFinished(n, false);
    SetupGroups(n, false);
    hide Formed, Finished, Parsed, SetupTree, Steady, NoneQuits, GroupsOf, StartBits, Numbered;
    SteadyIs(SetupTree(n, false), false, cfg);
  }

  // ----- groups in the open -----

  /** No group is inside a look-around or a {0}. */
  predicate InOpen(n: Node) {
    match n
    case List(ns) => AllOpen(ns)
    case Alt(ns) => AllOpen(ns)
    case Quant(t, q) => InOpen(t) && (q.upper == 0 ==> GroupsOf(t) == {})
    case Group(_, b) => InOpen(b)
    case OptionNode(_, b) => InOpen(b)
    case Atomic(_, b) => InOpen(b)
    case Look(_, _, b) => GroupsOf(b) == {}
    case _ => true
  }

  predicate AllOpen(ns: Nodes) {
    match ns
    case Last(n) => InOpen(n)
    case Cons(n, rest) => InOpen(n) && AllOpen(rest)
  }

  /** Then the parser's check for captures sees all groups. */
  lemma {:induction false} OpenMemory(n: Node)
    requires InOpen(n) && !HasMemory(n)
    ensures GroupsOf(n) == {}
  {
    match n
    case List(ns) => AllOpenMemory(ns);
    case Alt(ns) => AllOpenMemory(ns);
    case Quant(t, q) => if q.upper != 0 { OpenMemory(t); }
    case OptionNode(_, b) => OpenMemory(b);
    case Atomic(_, b) => OpenMemory(b);
    case _ =>
  }

  lemma {:induction false} AllOpenMemory(ns: Nodes)
    requires AllOpen(ns) && !AnyMemory(ns)
    ensures AllGroups(ns) == {}
  {
    OpenMemory(ns.left);
    if ns.Cons? { AllOpenMemory(ns.right); }
  }

  lemma {:induction false} NextStays(n: Node, next: Node, cfg: Cfg)
    requires Formed(n) && Formed(NextSetup(n, next)) && NoneQuits(n, cfg)
    ensures NoneQuits(NextSetup(n, next), cfg)
  {
    hide CompileLength, Head, NotIncluded;
    if n.Group? { NextStays(n.body, next, cfg); }
  }

  lemma QuantStays(t: Node, q: Rep, cfg: Cfg)
    requires Formed(t) && Formed(QuantSetup(t, q)) && NoneQuits(t, cfg)
             && (q.emptyInfo != IsNotEmpty ==> GroupsOf(t) == {})
    ensures NoneQuits(QuantSetup(t, q), cfg)
  {
    var n := QuantSetup(t, q);
    hide CompileLength, Repeated, Head;
    if n.Quant? {
      InnerStays(t, n.target, cfg);
      assert GroupsOf(n.target) == GroupsOf(t);
    }
  }

  lemma InnerStays(t: Node, t': Node, cfg: Cfg)
    requires Formed(t) && Formed(t') && NoneQuits(t, cfg)
    requires t' == t || (t.Quant? && t'.Quant? && t'.target == t.target && t'.q == t.q.(headExact := None))
    ensures NoneQuits(t', cfg)
  {
    hide CompileLength;
  }

  /** A tree whose groups are all in the open has no repeat that may leave early. */
  lemma {:induction false} OpenStays(n: Node, inside: bool, cfg: Cfg)
    requires Parsed(n) && InOpen(n) && Formed(SetupTree(n, inside))
    ensures NoneQuits(SetupTree(n, inside), cfg)
  {
    match n
    case List(ns) => ListStays(ns, inside, cfg);
    case Alt(ns) => AltStays(ns, inside, cfg);
    case Quant(t, q) =>
      SetupFormed(t, true);
      SetupMin(t, true);
      SetupGroups(t, true);
      OpenStays(t, true, cfg);
      if !HasMemory(t) { OpenMemory(t); }
      QuantStays(SetupTree(t, true), SetRep(t, q, inside), cfg);
    case Group(_, b) => OpenStays(b, inside, cfg);
    case OptionNode(_, b) => OpenStays(b, inside, cfg);
    case Atomic(_, b) => OpenStays(b, inside, cfg);
    case Look(_, _, b) =>
      SetupGroups(b, inside);
      NoGroupsStay(SetupTree(b, inside), cfg);
    case _ =>
  }

  lemma {:induction false} ListStays(ns: Nodes, inside: bool, cfg: Cfg)
    requires AllParsed(ns) && AllOpen(ns) && AllFormed(SetupList(ns, inside))
    ensures AllStay(SetupList(ns, inside), cfg)
  {
    SetupFormed(ns.left, inside);
    OpenStays(ns.left, inside, cfg);
    if ns.Cons? {
      NextStays(SetupTree(ns.left, inside), SetupTree(ns.right.left, inside), cfg);
      ListStays(ns.right, inside, cfg);
    }
  }

  lemma {:induction false} AltStays(ns: Nodes, inside: bool, cfg: Cfg)
    requires AllParsed(ns) && AllOpen(ns) && AllFormed(SetupAlt(ns, inside))
    ensures AllStay(SetupAlt(ns, inside), cfg)
  {
    OpenStays(ns.left, inside, cfg);
    if ns.Cons? { AltStays(ns.right, inside, cfg); }
  }

  lemma {:induction false} NoGroupsStay(n: Node, cfg: Cfg)
    requires Formed(n) && GroupsOf(n) == {}
    ensures NoneQuits(n, cfg)
  {
    hide CompileLength, FormOf;
    match n
    case List(ns) => NoneStay(ns, cfg);
    case Alt(ns) => NoneStay(ns, cfg);
    case Quant(t, _) => NoGroupsStay(t, cfg);
    case OptionNode(_, b) => NoGroupsStay(b, cfg);
    case Atomic(_, b) => NoGroupsStay(b, cfg);
    case Look(_, _, b) => NoGroupsStay(b, cfg);
    case _ =>
  }

  lemma {:induction false} NoneStay(ns: Nodes, cfg: Cfg)
    requires AllFormed(ns) && AllGroups(ns) == {}
    ensures AllStay(ns, cfg)
  {
    NoGroupsStay(ns.left, cfg);
    if ns.Cons? { NoneStay(ns.right, cfg); }
  }

  /** So with the bits that set-up asks for, captures of such an expression are right. */
  lemma OpenSteady(n: Node, cfg: Cfg)
    requires Parsed(n) && InOpen(n) && StartBits(n, false) <= cfg.btMemStart
    ensures Formed(SetupTree(n, false)) && Steady(SetupTree(n, false), cfg)
  {
    SetupSteady(n, cfg);
    hide Formed, Parsed, InOpen, SetupTree, Steady, NoneQuits, StartBits;
    OpenStays(n, false, cfg);
  }
}
