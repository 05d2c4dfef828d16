/** Where the capture groups of a tree may begin and end. */
module Spans {
  import opened Regint
  import opened Regparse
  import opened Regcomp
  import opened Machine
  import opened Meaning
  import opened Lengths
  import opened LengthSound
  import opened Enumeration

  /** The numbers of the groups in a tree. */
  function GroupsOf(n: Node): set<nat> {
    match n
    case List(ns) => AllGroups(ns)
    case Alt(ns) => AllGroups(ns)
    case Quant(t, _) => GroupsOf(t)
    case Group(k, b) => {k} + GroupsOf(b)
    case OptionNode(_, b) => GroupsOf(b)
    case Atomic(_, b) => GroupsOf(b)
    case Look(_, _, b) => GroupsOf(b)
    case _ => {}
  }

  function AllGroups(ns: Nodes): set<nat> {
    match ns
    case Last(n) => GroupsOf(n)
    case Cons(n, rest) => GroupsOf(n) + AllGroups(rest)
  }

  /** Different groups have different numbers, as the parser hands them out. */
  predicate Numbered(n: Node) {
    match n
    case List(ns) => AllNumbered(ns)
    case Alt(ns) => AllNumbered(ns)
    case Quant(t, _) => Numbered(t)
    case Group(k, b) => k !in GroupsOf(b) && Numbered(b)
    case OptionNode(_, b) => Numbered(b)
    case Atomic(_, b) => Numbered(b)
    case Look(_, _, b) => Numbered(b)
    case _ => true
  }

  predicate AllNumbered(ns: Nodes) {
    match ns
    case Last(n) => Numbered(n)
    case Cons(n, rest) => Numbered(n) && AllNumbered(rest) && GroupsOf(n) !! AllGroups(rest)
  }

  /** Somewhere in the tree there is a group k whose body matches from a to e. */
  ghost predicate GroupSpan(n: Node, ml: bool, x: Subject, cfg: Cfg, k: nat, a: nat, e: nat)
    requires Formed(n)
  {
    match n
    case List(ns) => AllSpan(ns, ml, x, cfg, k, a, e)
    case Alt(ns) => AllSpan(ns, ml, x, cfg, k, a, e)
    case Quant(t, _) => GroupSpan(t, ml, x, cfg, k, a, e)
    case Group(k', b) =>
      (k == k' && a <= |x.text| && e in Ends(b, ml, x, cfg, a)) || GroupSpan(b, ml, x, cfg, k, a, e)
    case OptionNode(ml', b) => GroupSpan(b, ml', x, cfg, k, a, e)
    case Atomic(_, b) => GroupSpan(b, ml, x, cfg, k, a, e)
    case Look(_, _, b) => GroupSpan(b, ml, x, cfg, k, a, e)
    case _ => false
  }

  ghost predicate AllSpan(ns: Nodes, ml: bool, x: Subject, cfg: Cfg, k: nat, a: nat, e: nat)
    requires AllFormed(ns)
  {
    match ns
    case Last(n) => GroupSpan(n, ml, x, cfg, k, a, e)
    case Cons(n, rest) => GroupSpan(n, ml, x, cfg, k, a, e) || AllSpan(rest, ml, x, cfg, k, a, e)
  }

  /** The spans of all groups are among those given. */
  ghost predicate Spanned(n: Node, ml: bool, x: Subject, cfg: Cfg, spans: iset<(nat, nat, nat)>)
    requires Formed(n)
  {
    forall k: nat, a: nat, e: nat :: GroupSpan(n, ml, x, cfg, k, a, e) ==> (k, a, e) in spans
  }

  lemma {:induction false} SpanGroup(n: Node, ml: bool, x: Subject, cfg: Cfg, k: nat, a: nat, e: nat)
    requires Formed(n) && GroupSpan(n, ml, x, cfg, k, a, e)
    ensures k in GroupsOf(n)
    decreases n
  {
    hide Ends;
    match n
    case List(ns) => AllSpanGroup(ns, ml, x, cfg, k, a, e);
    case Alt(ns) => AllSpanGroup(ns, ml, x, cfg, k, a, e);
    case Quant(t, _) => SpanGroup(t, ml, x, cfg, k, a, e);
    case Group(k', b) => if GroupSpan(b, ml, x, cfg, k, a, e) { SpanGroup(b, ml, x, cfg, k, a, e); }
    case OptionNode(ml', b) => SpanGroup(b, ml', x, cfg, k, a, e);
    case Atomic(_, b) => SpanGroup(b, ml, x, cfg, k, a, e);
    case Look(_, _, b) => SpanGroup(b, ml, x, cfg, k, a, e);
  }

  lemma {:induction false} AllSpanGroup(ns: Nodes, ml: bool, x: Subject, cfg: Cfg, k: nat, a: nat, e: nat)
    requires AllFormed(ns) && AllSpan(ns, ml, x, cfg, k, a, e)
    ensures k in AllGroups(ns)
    decreases ns
  {
    match ns
    case Last(n) => SpanGroup(n, ml, x, cfg, k, a, e);
    case Cons(n, rest) =>
      if GroupSpan(n, ml, x, cfg, k, a, e) {
        SpanGroup(n, ml, x, cfg, k, a, e);
      } else {
        AllSpanGroup(rest, ml, x, cfg, k, a, e);
      }
  }

  /** A group ends behind where it begins. */
  lemma {:induction false} SpanOrder(n: Node, ml: bool, x: Subject, cfg: Cfg, k: nat, a: nat, e: nat)
    requires Formed(n) && Ready(n) && GroupSpan(n, ml, x, cfg, k, a, e) && |x.text| <= INT_MAX
    ensures a <= e <= |x.text|
    decreases n
  {
    hide Ends, MinLen;
    match n
    case List(ns) => AllSpanOrder(ns, ml, x, cfg, k, a, e);
    case Alt(ns) => AllSpanOrder(ns, ml, x, cfg, k, a, e);
    case Quant(t, _) => SpanOrder(t, ml, x, cfg, k, a, e);
    case Group(k', b) =>
      if GroupSpan(b, ml, x, cfg, k, a, e) {
        SpanOrder(b, ml, x, cfg, k, a, e);
      } else {
        MinLenSound(b, ml, x, cfg, a);
        BodySpan(b, ml, x, cfg, a, e);
      }
    case OptionNode(ml', b) => SpanOrder(b, ml', x, cfg, k, a, e);
    case Atomic(simple, b) =>
      if simple { NoSpan(b.target, ml, x, cfg, k, a, e); } else { SpanOrder(b, ml, x, cfg, k, a, e); }
    case Look(_, _, b) => SpanOrder(b, ml, x, cfg, k, a, e);
  }

  lemma NoSpan(n: Node, ml: bool, x: Subject, cfg: Cfg, k: nat, a: nat, e: nat)
    requires Formed(n) && IsSimple(n)
    ensures !GroupSpan(n, ml, x, cfg, k, a, e)
  {
  }

  lemma {:induction false} AllSpanOrder(ns: Nodes, ml: bool, x: Subject, cfg: Cfg, k: nat, a: nat, e: nat)
    requires AllFormed(ns) && AllReady(ns) && AllSpan(ns, ml, x, cfg, k, a, e) && |x.text| <= INT_MAX
    ensures a <= e <= |x.text|
    decreases ns
  {
    match ns
    case Last(n) => SpanOrder(n, ml, x, cfg, k, a, e);
    case Cons(n, rest) =>
      if GroupSpan(n, ml, x, cfg, k, a, e) {
        SpanOrder(n, ml, x, cfg, k, a, e);
      } else {
        AllSpanOrder(rest, ml, x, cfg, k, a, e);
      }
  }

  lemma BodySpan(b: Node, ml: bool, x: Subject, cfg: Cfg, a: nat, e: nat)
    requires Formed(b) && a <= |x.text| && e in Ends(b, ml, x, cfg, a) && AtLeast(Ends(b, ml, x, cfg, a), a + MinLen(b))
    ensures a <= e <= |x.text|
  {
    hide Ends, MinLen, Formed;
  }

  // ----- what the body of a group may note -----

  ghost function Without(spans: iset<(nat, nat, nat)>, k: nat): iset<(nat, nat, nat)> {
    iset t | t in spans && t.0 != k
  }

  /** The job of the body of group k: nothing in it notes that group. */
  ghost function Inner(j: Job, k: nat): Job { j.(spans := Without(j.spans, k)) }

  lemma SpannedInner(b: Node, ml: bool, x: Subject, cfg: Cfg, spans: iset<(nat, nat, nat)>, k: nat)
    requires Formed(b) && Spanned(b, ml, x, cfg, spans) && k !in GroupsOf(b)
    ensures Spanned(b, ml, x, cfg, Without(spans, k))
  {
    hide GroupSpan, GroupsOf, Formed;
    forall m: nat, a: nat, e: nat | GroupSpan(b, ml, x, cfg, m, a, e) ensures (m, a, e) in Without(spans, k) {
      SpanGroup(b, ml, x, cfg, m, a, e);
    }
  }

  /** What a machine that notes all groups relies on. */
  ghost predicate Scoped(j: Job, cfg: Cfg, n: Node, ml: bool)
    requires Formed(n)
  {
    j.prog.rec ==> Numbered(n) && Spanned(n, ml, j.x, cfg, j.spans)
  }

  ghost predicate AllScoped(j: Job, cfg: Cfg, ns: Nodes, ml: bool)
    requires AllFormed(ns)
  {
    j.prog.rec ==> AllNumbered(ns) && forall k: nat, a: nat, e: nat :: AllSpan(ns, ml, j.x, cfg, k, a, e) ==>
      (k, a, e) in j.spans
  }

  lemma ScopedBody(j: Job, cfg: Cfg, n: Node, ml: bool)
    requires Formed(n) && Scoped(j, cfg, n, ml)
    ensures n.List? || n.Alt? ==> AllScoped(j, cfg, n.items, ml)
    ensures n.Quant? ==> Scoped(j, cfg, n.target, ml)
    ensures n.OptionNode? ==> Scoped(j, cfg, n.body, n.ml)
    ensures n.Atomic? || n.Look? ==> Scoped(j, cfg, n.body, ml)
  {
    hide GroupsOf, Ends;
  }

  lemma ScopedList(j: Job, cfg: Cfg, ns: Nodes, ml: bool)
    requires AllFormed(ns) && AllScoped(j, cfg, ns, ml)
    ensures Scoped(j, cfg, ns.left, ml) && (ns.Cons? ==> AllScoped(j, cfg, ns.right, ml))
  {
    hide GroupSpan, GroupsOf;
  }

  /** The spans a group may have. */
  ghost predicate SpanFrom(j: Job, cfg: Cfg, k: nat, b: Node, ml: bool, s: nat)
    requires Formed(b) && s <= |j.x.text|
  {
    j.prog.rec ==> forall e :: e in Ends(b, ml, j.x, cfg, s) ==> (k, s, e) in j.spans
  }

  lemma ScopedGroup(j: Job, cfg: Cfg, k: nat, b: Node, ml: bool)
    requires Formed(Group(k, b)) && Scoped(j, cfg, Group(k, b), ml)
    ensures Scoped(Inner(j, k), cfg, b, ml)
    ensures forall s: nat :: s <= |j.x.text| ==> SpanFrom(j, cfg, k, b, ml, s)
  {
    hide Ends, GroupsOf;
    if j.prog.rec {
      forall m: nat, a: nat, e: nat | GroupSpan(b, ml, j.x, cfg, m, a, e) ensures (m, a, e) in j.spans {
        assert GroupSpan(Group(k, b), ml, j.x, cfg, m, a, e);
      }
      SpannedInner(b, ml, j.x, cfg, j.spans, k);
      forall s: nat, e | s <= |j.x.text| && e in Ends(b, ml, j.x, cfg, s) ensures (k, s, e) in j.spans {
        assert GroupSpan(Group(k, b), ml, j.x, cfg, k, s, e);
      }
    }
  }

  /** All spans the tree allows. */
  ghost function SpansOf(n: Node, ml: bool, x: Subject, cfg: Cfg): iset<(nat, nat, nat)>
    requires Formed(n)
  {
    iset t: (nat, nat, nat) | GroupSpan(n, ml, x, cfg, t.0, t.1, t.2)
  }

  // ----- noting a group around what its body notes -----

  /** The frame of a body between the notes of its group. */
  lemma LegalGroup(spans: iset<(nat, nat, nat)>, k: nat, s: nat, fr: Stack, e: nat)
    requires Legal(fr, Without(spans, k)) && (k, s, e) in spans
    ensures Legal([MemStart(k, s)] + fr + [MemEnd(k, e)], spans)
  {
    var a, b := [MemStart(k, s)] + fr, [MemEnd(k, e)];
    forall m: nat ensures WholeIn(NotedIn(a + b, m), m, spans) {
      assert WholeIn(NotedIn(fr, m), m, Without(spans, k));
      NotedConcat([MemStart(k, s)], fr, m);
      assert (a + b)[..|a + b| - 1] == a;
      OneNoted(k, s, m);
    }
  }

  lemma OneNoted(k: nat, s: nat, m: nat)
    ensures NotedIn([MemStart(k, s)], m) == if m == k then Noted(Some(s), None) else UNNOTED
  {
    assert [MemStart(k, s)][..0] == [];
  }
}
