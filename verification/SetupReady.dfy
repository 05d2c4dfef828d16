/** What set-up leaves behind is what the compiler results ask for: lengths are kept, loops that can
    go round empty are checked, repeats inside repeats are marked. */
module SetupReady {
  import opened Regint
  import opened Regparse
  import opened Regcomp
  import opened Machine
  import opened Meaning
  import opened Lengths
  import opened LengthSound
  import opened CodeLayout
  import opened Setup

  // ----- lengths -----

  lemma {:induction false} NextMin(n: Node, next: Node)
    ensures MinLen(NextSetup(n, next)) == MinLen(n)
  {
    if n.Group? { NextMin(n.body, next); }
  }

  lemma ExpandMin(s: seq<byte>, n: nat)
    requires 1 < n <= EXPAND_STRING_MAX_LENGTH && |s| * n <= EXPAND_STRING_MAX_LENGTH
    ensures |s| <= EXPAND_STRING_MAX_LENGTH
    ensures DistanceMultiply(|s|, n) == |s| * n
  {
    MulMono(1, n, |s|);
  }

  lemma QuantMin(t: Node, q: Rep)
    ensures MinLen(QuantSetup(t, q)) == MinLen(Quant(t, q))
  {
    if Expands(t, q) { ExpandMin(t.s, q.lower); }
  }

  /** get_min_match_length is the same before and after. */
  lemma {:induction false} SetupMin(n: Node, inside: bool)
    ensures MinLen(SetupTree(n, inside)) == MinLen(n)
  {
    match n
    case List(ns) => ListMin(ns, inside);
    case Alt(ns) => AltMin(ns, inside);
    case Quant(t, q) =>
      SetupMin(t, true);
      QuantMin(SetupTree(t, true), SetRep(t, q, inside));
    case Group(_, b) => SetupMin(b, inside);
    case OptionNode(_, b) => SetupMin(b, inside);
    case Atomic(_, b) => SetupMin(b, inside);
    case _ =>
  }

  lemma {:induction false} ListMin(ns: Nodes, inside: bool)
    ensures MinLenList(SetupList(ns, inside)) == MinLenList(ns)
  {
    SetupMin(ns.left, inside);
    if ns.Cons? {
      NextMin(SetupTree(ns.left, inside), SetupTree(ns.right.left, inside));
      ListMin(ns.right, inside);
    }
  }

  lemma {:induction false} AltMin(ns: Nodes, inside: bool)
    ensures MinLenAlt(SetupAlt(ns, inside)) == MinLenAlt(ns)
  {
    SetupMin(ns.left, inside);
    if ns.Cons? { AltMin(ns.right, inside); }
  }

  lemma {:induction false} NextChar(n: Node, next: Node, top: bool)
    ensures CharLenTree(NextSetup(n, next), top) == CharLenTree(n, top)
  {
    if n.Group? { NextChar(n.body, next, false); }
  }

  lemma QuantChar(t: Node, q: Rep, top: bool)
    ensures CharLenTree(QuantSetup(t, q), top) == CharLenTree(Quant(t, q), top)
  {
    if Expands(t, q) { ExpandMin(t.s, q.lower); }
  }

  /** And so is get_char_length_tree. */
  lemma {:induction false} SetupChar(n: Node, inside: bool, top: bool)
    ensures CharLenTree(SetupTree(n, inside), top) == CharLenTree(n, top)
  {
    match n
    case List(ns) => ListChar(ns, inside);
    case Alt(ns) => AltChar(ns, inside);
    case Quant(t, q) =>
      SetupChar(t, true, false);
      QuantChar(SetupTree(t, true), SetRep(t, q, inside), top);
    case Group(_, b) => SetupChar(b, inside, false);
    case OptionNode(_, b) => SetupChar(b, inside, false);
    case Atomic(_, b) => SetupChar(b, inside, false);
    case _ =>
  }

  lemma {:induction false} ListChar(ns: Nodes, inside: bool)
    ensures CharLenList(SetupList(ns, inside)) == CharLenList(ns)
  {
    SetupChar(ns.left, inside, false);
    if ns.Cons? {
      NextChar(SetupTree(ns.left, inside), SetupTree(ns.right.left, inside), false);
      ListChar(ns.right, inside);
    }
  }

  lemma {:induction false} AltChar(ns: Nodes, inside: bool)
    ensures CharLenAlt(SetupAlt(ns, inside)) == CharLenAlt(ns)
  {
    SetupChar(ns.left, inside, false);
    if ns.Cons? { AltChar(ns.right, inside); }
  }

  // ----- readiness -----

  /** Strings a repeat stands over are short enough for 32-bit lengths. */
  predicate TopShort(n: Node) {
    match n
    case Quant(t, _) => t.Str? ==> |t.s| < TWO32
    case Group(_, b) => TopShort(b)
    case _ => true
  }

  lemma {:induction false} NextReady(n: Node, next: Node)
    requires Ready(n) && TopShort(n)
    ensures Ready(NextSetup(n, next))
  {
    if n.Group? { NextReady(n.body, next); }
  }

  lemma {:induction false} SetupShort(n: Node, inside: bool)
    requires Parsed(n)
    ensures TopShort(SetupTree(n, inside)) && (SetupTree(n, inside).Str? ==> |SetupTree(n, inside).s| < TWO32)
  {
    match n
    case Quant(t, q) => SetupShort(t, true);
    case Group(_, b) => SetupShort(b, inside);
    case _ =>
  }

  lemma QuantReady(t: Node, q: Rep)
    requires Ready(t) && RepReady(t, q)
    ensures Ready(QuantSetup(t, q))
  {
  }

  lemma SimpleReady(b: Node, inside: bool)
    requires Parsed(b) && Ready(SetupTree(b, inside)) && !EmptyLoop(b) && SimpleAtomic(SetupTree(b, inside))
    ensures SimpleOk(SetupTree(b, inside))
  {
    var b' := SetupTree(b, inside);
    SetupShort(b, inside);
    assert b.Quant?;
    assert b'.target == SetupTree(b.target, true);
  }

  lemma {:induction false} SetupIsReady(n: Node, inside: bool)
    requires Parsed(n)
    ensures Ready(SetupTree(n, inside))
  {
    match n
    case List(ns) => ListReady(ns, inside);
    case Alt(ns) => AltReady(ns, inside);
    case Quant(t, q) =>
      SetupIsReady(t, true);
      SetupMin(t, true);
      QuantReady(SetupTree(t, true), SetRep(t, q, inside));
    case Group(_, b) => SetupIsReady(b, inside);
    case OptionNode(_, b) => SetupIsReady(b, inside);
    case Atomic(_, b) =>
      SetupIsReady(b, inside);
      if SimpleAtomic(SetupTree(b, inside)) { SimpleReady(b, inside); }
    case Look(k, len, b) =>
      SetupIsReady(b, inside);
      SetupChar(b, inside, true);
    case _ =>
  }

  lemma {:induction false} ListReady(ns: Nodes, inside: bool)
    requires AllParsed(ns)
    ensures AllReady(SetupList(ns, inside))
  {
    SetupIsReady(ns.left, inside);
    if ns.Cons? {
      SetupShort(ns.left, inside);
      NextReady(SetupTree(ns.left, inside), SetupTree(ns.right.left, inside));
      ListReady(ns.right, inside);
    }
  }

  lemma {:induction false} AltReady(ns: Nodes, inside: bool)
    requires AllParsed(ns)
    ensures AllReady(SetupAlt(ns, inside))
  {
    SetupIsReady(ns.left, inside);
    if ns.Cons? { AltReady(ns.right, inside); }
  }

  // ----- marks -----

  lemma {:induction false} NextMarked(n: Node, next: Node, inside: bool)
    requires Marked(n, inside)
    ensures Marked(NextSetup(n, next), inside)
  {
    if n.Group? { NextMarked(n.body, next, inside); }
  }

  lemma {:induction false} SetupMarked(n: Node, inside: bool)
    ensures Marked(SetupTree(n, inside), inside)
  {
    match n
    case List(ns) => ListMarked(ns, inside);
    case Alt(ns) => AltMarked(ns, inside);
    case Quant(t, q) => SetupMarked(t, true);
    case Group(_, b) => SetupMarked(b, inside);
    case OptionNode(_, b) => SetupMarked(b, inside);
    case Atomic(_, b) => SetupMarked(b, inside);
    case Look(_, _, b) => SetupMarked(b, inside);
    case _ =>
  }

  lemma {:induction false} ListMarked(ns: Nodes, inside: bool)
    ensures AllMarked(SetupList(ns, inside), inside)
  {
    SetupMarked(ns.left, inside);
    if ns.Cons? {
      NextMarked(SetupTree(ns.left, inside), SetupTree(ns.right.left, inside), inside);
      ListMarked(ns.right, inside);
    }
  }

  lemma {:induction false} AltMarked(ns: Nodes, inside: bool)
    ensures AllMarked(SetupAlt(ns, inside), inside)
  {
    SetupMarked(ns.left, inside);
    if ns.Cons? { AltMarked(ns.right, inside); }
  }

  // ----- when no loop gets a head -----

  /** A greedy loop whose body can match empty has a body without a literal head. */
  predicate HeadFree(n: Node) {
    match n
    case List(ns) => AllHeadFree(ns)
    case Alt(ns) => AllHeadFree(ns)
    case Quant(t, q) =>
      HeadFree(t) && (q.greedy && EmptyInfoOf(t, q) != IsNotEmpty && !SetupTree(t, true).Quant? ==> HeadString(t).None?)
    case Group(_, b) => HeadFree(b)
    case OptionNode(_, b) => HeadFree(b)
    case Atomic(_, b) => HeadFree(b)
    case Look(_, _, b) => HeadFree(b)
    case _ => true
  }

  predicate AllHeadFree(ns: Nodes) {
    match ns
    case Last(n) => HeadFree(n)
    case Cons(n, rest) => HeadFree(n) && AllHeadFree(rest)
  }

  lemma {:induction false} NextHead(n: Node, next: Node, exact: bool)
    requires NoHeads(n)
    ensures NoHeads(NextSetup(n, next)) && Head(NextSetup(n, next), exact) == Head(n, exact)
  {
    if n.Group? { NextHead(n.body, next, exact); }
  }

  lemma {:induction false} RepeatedSome(s: seq<byte>, n: nat)
    requires n > 0
    ensures Repeated(s, n) == [] <==> s == []
  {
    if n > 1 { RepeatedSome(s, n - 1); }
  }

  /** Set-up gives no loop a head exactly when the tree is head-free; heads stay where they are. */
  lemma {:induction false} SetupHeads(n: Node, inside: bool, exact: bool)
    requires Parsed(n)
    ensures NoHeads(SetupTree(n, inside)) <==> HeadFree(n)
    ensures HeadFree(n) ==> Head(SetupTree(n, inside), exact).Some? == Head(n, exact).Some?
    decreases n, 1
  {
    match n
    case List(ns) => ListHeads(ns, inside, exact);
    case Alt(ns) => AltHeads(ns, inside);
    case Quant(t, q) => QuantHeads(t, q, inside, exact);
    case Group(_, b) => SetupHeads(b, inside, exact);
    case OptionNode(_, b) => SetupHeads(b, inside, exact);
    case Atomic(_, b) => SetupHeads(b, inside, exact);
    case Look(_, _, b) => SetupHeads(b, inside, exact);
    case _ =>
  }

  lemma {:induction false} QuantHeads(t: Node, q: Rep, inside: bool, exact: bool)
    requires Parsed(t) && RawRep(q) && ParsedRep(t, q)
    ensures NoHeads(SetupTree(Quant(t, q), inside)) <==> HeadFree(Quant(t, q))
    ensures HeadFree(Quant(t, q)) ==>
            (Head(SetupTree(Quant(t, q), inside), exact).Some? <==> Head(Quant(t, q), exact).Some?)
    decreases t, 2
  {
    hide SetupTree, Head, NoHeads, MinLen, HasMemory, Expands, QuantSetup;
    SetupHeads(t, true, exact);
    SetupHeads(t, true, true);
    SetupMin(t, true);
    QuantHeadsOf(SetupTree(t, true), SetRep(t, q, inside), exact);
    SetupQuant(t, q, inside);
    HeadOfQuant(t, q, exact);
    HeadOfQuant(SetupTree(t, true), SetRep(t, q, inside), exact);
  }

  lemma SetupQuant(t: Node, q: Rep, inside: bool)
    ensures SetupTree(Quant(t, q), inside) == QuantSetup(SetupTree(t, true), SetRep(t, q, inside))
  {
  }

  lemma HeadOfQuant(t: Node, q: Rep, exact: bool)
    requires q.headExact.None?
    ensures Head(Quant(t, q), exact) == if q.lower == 0 then None else Head(t, exact)
  {
  }

  lemma QuantHeadsOf(t: Node, q: Rep, exact: bool)
    requires q.headExact.None? && (q.emptyInfo != IsNotEmpty ==> MinLen(t) == 0)
    ensures NoHeads(QuantSetup(t, q)) <==>
            NoHeads(t) && (q.greedy && q.emptyInfo != IsNotEmpty && !t.Quant? ==> HeadString(t).None?)
    ensures NoHeads(QuantSetup(t, q)) ==> Head(QuantSetup(t, q), exact).Some? == Head(Quant(t, q), exact).Some?
  {
    if Expands(t, q) {
      RepeatedSome(t.s, q.lower);
      ExpandMin(t.s, q.lower);
    }
  }

  lemma {:induction false} ListHeads(ns: Nodes, inside: bool, exact: bool)
    requires AllParsed(ns)
    ensures NoneHeads(SetupList(ns, inside)) <==> AllHeadFree(ns)
    ensures AllHeadFree(ns) ==> Head(SetupList(ns, inside).left, exact).Some? == Head(ns.left, exact).Some?
    decreases ns, 0
  {
    SetupHeads(ns.left, inside, exact);
    if ns.Cons? {
      var n1, next := SetupTree(ns.left, inside), SetupTree(ns.right.left, inside);
      ListHeads(ns.right, inside, exact);
      if NoHeads(n1) { NextHead(n1, next, exact); }
      if NoHeads(NextSetup(n1, next)) { HeadsBefore(n1, next); }
    }
  }

  lemma {:induction false} HeadsBefore(n: Node, next: Node)
    requires NoHeads(NextSetup(n, next))
    ensures NoHeads(n)
  {
    if n.Group? { HeadsBefore(n.body, next); }
  }

  lemma {:induction false} AltHeads(ns: Nodes, inside: bool)
    requires AllParsed(ns)
    ensures NoneHeads(SetupAlt(ns, inside)) <==> AllHeadFree(ns)
    decreases ns, 0
  {
    SetupHeads(ns.left, inside, true);
    if ns.Cons? { AltHeads(ns.right, inside); }
  }

  /** No positive look-ahead, and no sum of lengths that leaves 32 bits. */
  predicate Plainly(n: Node) {
    match n
    case List(ns) => AllPlainly(ns)
    case Alt(ns) => AllPlainly(ns)
    case Quant(t, q) => Plainly(t)
    case Group(_, b) => Plainly(b)
    case OptionNode(_, b) => Plainly(b)
    case Atomic(_, b) => Plainly(b)
    case Look(k, _, b) => !k.PrecRead? && Plainly(b)
    case _ => true
  }

  predicate AllPlainly(ns: Nodes) {
    match ns
    case Last(n) => Plainly(n)
    case Cons(n, rest) => Plainly(n) && AllPlainly(rest) && MinLen(n) + MinLenList(rest) < TWO32
  }

  lemma MultiplyPositive(d: Distance, m: nat)
    requires d > 0 && m > 0
    ensures DistanceMultiply(d, m) > 0
  {
    MulMono(1, d, m);
  }

  /** A tree with a head cannot match empty. */
  lemma {:induction false} HeadMin(n: Node, exact: bool)
    requires Parsed(n) && Plainly(n) && Head(n, exact).Some?
    ensures MinLen(n) > 0
  {
    match n
    case List(ns) => HeadMin(ns.left, exact);
    case Quant(t, q) =>
      HeadMin(t, exact);
      MultiplyPositive(MinLen(t), q.lower);
    case OptionNode(_, b) => HeadMin(b, exact);
    case Group(_, b) => HeadMin(b, exact);
    case Atomic(_, b) => HeadMin(b, exact);
    case _ =>
  }

  /** So only positive look-ahead, or an overflow, can give a loop a head. */
  lemma {:induction false} PlainlyHeadFree(n: Node)
    requires Parsed(n) && Plainly(n)
    ensures HeadFree(n)
    decreases n, 1
  {
    match n
    case List(ns) => AllPlainlyHeadFree(ns);
    case Alt(ns) => AllPlainlyHeadFree(ns);
    case Quant(t, q) =>
      PlainlyHeadFree(t);
      if HeadString(t).Some? { HeadMin(t, true); }
    case Group(_, b) => PlainlyHeadFree(b);
    case OptionNode(_, b) => PlainlyHeadFree(b);
    case Atomic(_, b) => PlainlyHeadFree(b);
    case Look(_, _, b) => PlainlyHeadFree(b);
    case _ =>
  }

  lemma {:induction false} AllPlainlyHeadFree(ns: Nodes)
    requires AllParsed(ns) && AllPlainly(ns)
    ensures AllHeadFree(ns)
    decreases ns, 0
  {
    PlainlyHeadFree(ns.left);
    if ns.Cons? { AllPlainlyHeadFree(ns.right); }
  }
}
