/** What a tree matches: the end positions of all matches from one start, in the order in which
    backtracking tries them. */
module Meaning {
  import opened Regint
  import opened Regparse
  import opened Regcomp
  import opened Machine
  import opened Setup

  /** Copies of the body still owed before a repeat may go on for ever (or has to stop). */
  function Left(q: Rep, k: nat): nat {
    var bound := if Infinite(q.upper) then q.lower else if q.upper < 0 then 0 else q.upper;
    if k < bound then bound - k else 0
  }

  predicate UpperReached(q: Rep, k: nat) { !Infinite(q.upper) && k >= q.upper }

  /** headExact: a PUSH loop does not even try its body unless the next byte is right. */
  predicate Entered(t: Node, q: Rep, x: Subject, cfg: Cfg, s: nat)
    requires Formed(t) && RepOk(q)
  {
    FormOf(t, q, CompileLength(t, cfg)).PushLoop? && q.headExact.Some?
    ==> s < |x.text| && x.text[s] == q.headExact.value[0]
  }

  /** nextHead: a peeking loop only offers to stop where the next node can start. */
  predicate Leavable(t: Node, q: Rep, x: Subject, cfg: Cfg, s: nat)
    requires Formed(t) && RepOk(q)
  {
    var form := FormOf(t, q, CompileLength(t, cfg));
    q.nextHead.Some? ==>
      && (form.AnycharStar? ==> s >= |x.text| || x.text[s] == q.nextHead.value[0])
      && (form.PushLoop? && q.headExact.None? ==> ReadByte(x, s) == q.nextHead.value[0])
  }

  /** The forms whose empty check also watches the iterations the lower bound asks for. */
  predicate ChecksOwed(q: Rep, form: Form, tlen: nat) {
    form.Counter? || ((form.PushLoop? || form.LazyLoop?) && JumpIn(q, tlen))
  }

  predicate NowChecked(t: Node, q: Rep, cfg: Cfg)
    requires Formed(t)
  {
    var tlen := CompileLength(t, cfg);
    q.emptyInfo != IsNotEmpty && ChecksOwed(q, FormOf(t, q, tlen), tlen)
  }

  /** For a tree that is still to be set up: whether it will be so. */
  predicate LaterChecked(t: Node, q: Rep, cfg: Cfg) {
    var n := QuantSetup(SetupTree(t, true), SetRep(t, q, false));
    n.Quant? && Formed(n.target) && NowChecked(n.target, n.q, cfg)
  }

  /** An iteration that began after k others leaves the repeat if it did not move. Copies of the body
      are not checked; a loop past its lower bound always is. */
  predicate Checked(t: Node, q: Rep, cfg: Cfg, k: nat)
    requires Formed(t)
  {
    (Infinite(q.upper) && k >= q.lower) || (if q.raw then LaterChecked(t, q, cfg) else NowChecked(t, q, cfg))
  }

  predicate Bounded(r: seq<nat>, x: Subject) { forall i :: 0 <= i < |r| ==> r[i] <= |x.text| }

  function One(ok: bool, e: nat): (r: seq<nat>) { if ok then [e] else [] }

  predicate AtAnchor(k: AnchorKind, x: Subject, s: nat) {
    match k
    case BeginBuf => s == 0
    case EndBuf => s == |x.text|
    case EndLine => AtAnchorEndLine(x, s)
    case SemiEndBuf => AtAnchorSemiEnd(x, s)
    case BeginPosition => s == x.start
  }

  function Ends(n: Node, ml: bool, x: Subject, cfg: Cfg, s: nat): (r: seq<nat>)
    requires Formed(n) && s <= |x.text|
    ensures Bounded(r, x)
    decreases n, 3, 0, 0, 0, 0
  {
    match n
    case Str(str) => One(HasAt(x, s, str), s + |str|)
    case CClass(bs, neg, _, _) => One(s < |x.text| && (x.text[s] in bs) != neg, s + 1)
    case CType(not) => One(s < |x.text| && IsWord(x.text[s]) != not, s + 1)
    case AnyChar => One(s < |x.text| && (ml || x.text[s] != NEWLINE), s + 1)
    case List(ns) => EndsList(ns, ml, x, cfg, s)
    case Alt(ns) => EndsAlt(ns, ml, x, cfg, s)
    case Quant(t, q) => EndsRep(t, q, ml, x, cfg, 0, s)
    case Group(_, b) => Ends(b, ml, x, cfg, s)
    case OptionNode(ml', b) => Ends(b, ml', x, cfg, s)
    case Atomic(simple, b) =>
      if simple then EndsSimple(b.target, b.q.lower, ml, x, cfg, 0, s)
      else
        var r := Ends(b, ml, x, cfg, s);
        if r == [] then [] else [r[0]]
    case Anchor(k) => One(AtAnchor(k, x, s), s)
    case Look(k, len, b) =>
      match k
      case PrecRead => One(Ends(b, ml, x, cfg, s) != [], s)
      case PrecReadNot => One(Ends(b, ml, x, cfg, s) == [], s)
      case LookBehind => if s < len then [] else Ends(b, ml, x, cfg, s - len)
      case LookBehindNot => if s < len then [s] else One(Ends(b, ml, x, cfg, s - len) == [], s)
  }

  function EndsList(ns: Nodes, ml: bool, x: Subject, cfg: Cfg, s: nat): (r: seq<nat>)
    requires AllFormed(ns) && s <= |x.text|
    ensures Bounded(r, x)
    decreases ns, 0, 0, 0, 0, 0
  {
    match ns
    case Last(n) => Ends(n, ml, x, cfg, s)
    case Cons(n, rest) => EndsListAll(rest, ml, x, cfg, Ends(n, ml, x, cfg, s))
  }

  function EndsListAll(ns: Nodes, ml: bool, x: Subject, cfg: Cfg, from: seq<nat>): (r: seq<nat>)
    requires AllFormed(ns) && Bounded(from, x)
    ensures Bounded(r, x)
    decreases ns, 1, |from|, 0, 0, 0
  {
    if from == [] then []
    else EndsList(ns, ml, x, cfg, from[0]) + EndsListAll(ns, ml, x, cfg, from[1..])
  }

  function EndsAlt(ns: Nodes, ml: bool, x: Subject, cfg: Cfg, s: nat): (r: seq<nat>)
    requires AllFormed(ns) && s <= |x.text|
    ensures Bounded(r, x)
    decreases ns, 0, 0, 0, 0, 0
  {
    match ns
    case Last(n) => Ends(n, ml, x, cfg, s)
    case Cons(n, rest) => Ends(n, ml, x, cfg, s) + EndsAlt(rest, ml, x, cfg, s)
  }

  /** A repeat that has run its body k times and stands at s. */
  function EndsRep(t: Node, q: Rep, ml: bool, x: Subject, cfg: Cfg, k: nat, s: nat): (r: seq<nat>)
    requires Formed(t) && RepOk(q) && s <= |x.text|
    ensures Bounded(r, x)
    decreases t, 5, Left(q, k), |x.text| - s, 1, 0
  {
    if UpperReached(q, k) then [s]
    else if k < q.lower then EndsEach(t, q, ml, x, cfg, k + 1, Ends(t, ml, x, cfg, s), s)
    else if !Entered(t, q, x, cfg, s) then [s]
    else
      var more := EndsEach(t, q, ml, x, cfg, k + 1, Ends(t, ml, x, cfg, s), s);
      if q.greedy then more + One(Leavable(t, q, x, cfg, s), s) else [s] + more
  }

  /** Going on from the ends of the k-th iteration, which began at s. */
  function EndsEach(t: Node, q: Rep, ml: bool, x: Subject, cfg: Cfg, k: nat, es: seq<nat>, s: nat): (r: seq<nat>)
    requires Formed(t) && RepOk(q) && s <= |x.text| && Bounded(es, x) && k > 0 && !UpperReached(q, k - 1)
    ensures Bounded(r, x)
    decreases t, 5, Left(q, k - 1), |x.text| - s, 0, |es|
  {
    if es == [] then []
    else
      (if es[0] <= s && Checked(t, q, cfg, k - 1) then [es[0]] else EndsRep(t, q, ml, x, cfg, k, es[0]))
      + EndsEach(t, q, ml, x, cfg, k, es[1..], s)
  }

  /** (?>X*) for a one-result X: repeat as long as it matches, then stay. */
  function EndsSimple(t: Node, lower: nat, ml: bool, x: Subject, cfg: Cfg, k: nat, s: nat): (r: seq<nat>)
    requires Formed(t) && s <= |x.text|
    ensures Bounded(r, x)
    decreases t, 5, |x.text| - s, 0, 0, 0
  {
    var es := Ends(t, ml, x, cfg, s);
    if es == [] then One(k >= lower, s)
    else if es[0] > s then EndsSimple(t, lower, ml, x, cfg, k + 1, es[0])
    else []
  }

  /** Going on from one end of the k-th iteration. */
  function Onward(t: Node, q: Rep, ml: bool, x: Subject, cfg: Cfg, k: nat, e: nat, s: nat): (r: seq<nat>)
    requires Formed(t) && RepOk(q) && e <= |x.text| && k > 0
    ensures Bounded(r, x)
  {
    if e <= s && Checked(t, q, cfg, k - 1) then [e] else EndsRep(t, q, ml, x, cfg, k, e)
  }

  lemma RepCases(t: Node, q: Rep, ml: bool, x: Subject, cfg: Cfg, k: nat, s: nat)
    requires Formed(t) && RepOk(q) && s <= |x.text|
    ensures EndsRep(t, q, ml, x, cfg, k, s) ==
            if UpperReached(q, k) then [s]
            else
              var more := EndsEach(t, q, ml, x, cfg, k + 1, Ends(t, ml, x, cfg, s), s);
              if k < q.lower then more
              else if !Entered(t, q, x, cfg, s) then [s]
              else if q.greedy then more + One(Leavable(t, q, x, cfg, s), s)
              else [s] + more
  {
    hide Formed, Ends, EndsEach, Entered, Leavable;
  }

  lemma EachSplit(t: Node, q: Rep, ml: bool, x: Subject, cfg: Cfg, k: nat, es: seq<nat>, s: nat)
    requires Formed(t) && RepOk(q) && s <= |x.text| && Bounded(es, x) && k > 0 && !UpperReached(q, k - 1)
    ensures es == [] ==> EndsEach(t, q, ml, x, cfg, k, es, s) == []
    ensures es != [] ==> EndsEach(t, q, ml, x, cfg, k, es, s) ==
                         Onward(t, q, ml, x, cfg, k, es[0], s) + EndsEach(t, q, ml, x, cfg, k, es[1..], s)
  {
    hide Ends, EndsRep, Checked, Formed;
  }

  lemma EachOne(t: Node, q: Rep, ml: bool, x: Subject, cfg: Cfg, k: nat, e: nat, s: nat)
    requires Formed(t) && RepOk(q) && s <= |x.text| && e <= |x.text| && k > 0 && !UpperReached(q, k - 1)
    ensures EndsEach(t, q, ml, x, cfg, k, [e], s) == Onward(t, q, ml, x, cfg, k, e, s)
  {
    hide EndsEach, Onward;
    EachSplit(t, q, ml, x, cfg, k, [e], s);
    EachSplit(t, q, ml, x, cfg, k, [], s);
    assert [e][1..] == [];
  }

  /** An iteration that moved goes on. */
  lemma OnwardMoved(t: Node, q: Rep, ml: bool, x: Subject, cfg: Cfg, k: nat, e: nat, s: nat)
    requires Formed(t) && RepOk(q) && e <= |x.text| && k > 0 && (e > s || !Checked(t, q, cfg, k - 1))
    ensures Onward(t, q, ml, x, cfg, k, e, s) == EndsRep(t, q, ml, x, cfg, k, e)
  {
  }

  /** An iteration that is not checked uses up one of those the bounds leave. */
  lemma LeftFalls(t: Node, q: Rep, cfg: Cfg, k: nat)
    requires Formed(t) && RepOk(q) && !UpperReached(q, k)
    ensures Left(q, k + 1) <= Left(q, k) && (!Checked(t, q, cfg, k) ==> Left(q, k + 1) < Left(q, k))
  {
  }

  /** A one-instruction body has at most one result, behind its start. */
  lemma SimpleAdvances(t: Node, ml: bool, x: Subject, cfg: Cfg, s: nat)
    requires IsSimple(t) && t != Str([]) && s <= |x.text|
    ensures var es := Ends(t, ml, x, cfg, s); es == [] || (|es| == 1 && es[0] > s)
  {
  }
}
