/** Tree set-up (setup_tree and its helpers in Dependencies/oniguruma5/regcomp.c): empty-loop marks,
    expanded strings, simple atomic repeats, automatic possessification and peek-next heads. */
module Setup {
  import opened Regint
  import opened Regparse
  import opened Machine
  import opened Lengths

  const EXPAND_STRING_MAX_LENGTH := 100

  // ----- heads -----

  /** get_head_value_node: a node every match has to start with. */
  function Head(n: Node, exact: bool): (h: Option<Node>)
    ensures h.Some? ==> (h.value.Str? && h.value.s != []) || (!exact && (h.value.CType? || h.value.CClass?))
  {
    match n
    case CType(_) => if exact then None else Some(n)
    case CClass(_, _, _, _) => if exact then None else Some(n)
    case List(ns) => HeadOfFirst(ns, exact)
    case Str(s) => if s == [] then None else Some(n)
    case Quant(t, q) =>
      if q.lower == 0 then None
      else if q.headExact.Some? then (if q.headExact.value == [] then None else Some(Str(q.headExact.value)))
      else Head(t, exact)
    case OptionNode(_, b) => Head(b, exact)
    case Group(_, b) => Head(b, exact)
    case Atomic(_, b) => Head(b, exact)
    case Look(k, _, b) => if k.PrecRead? then Head(b, exact) else None
    case _ => None
  }

  function HeadOfFirst(ns: Nodes, exact: bool): (h: Option<Node>)
    ensures h.Some? ==> (h.value.Str? && h.value.s != []) || (!exact && (h.value.CType? || h.value.CClass?))
  {
    Head(ns.left, exact)
  }

  function HeadString(n: Node): (h: Option<seq<byte>>)
    ensures h.Some? ==> h.value != []
  {
    var h := Head(n, true);
    if h.None? then None else Some(h.value.s)
  }

  predicate InClass(c: Node, b: byte)
    requires c.CClass?
  {
    (b in c.bs) != c.neg
  }

  /** is_not_included: x and y certainly cannot match at the same position. */
  predicate NotIncluded(x: Node, y: Node) {
    if x.CType? && y.CType? then x.not != y.not
    else if x.CClass? && y.CType? then ClassNotType(x, y)
    else if x.CType? && y.CClass? then ClassNotType(y, x)
    else if x.CClass? && y.CClass? then
      && (forall b: byte :: !(InClass(x, b) && InClass(y, b)))
      && ((x.mbuf.None? && !x.neg) || (y.mbuf.None? && !y.neg))
    else if x.Str? && (y.CType? || y.CClass?) then StrNot(x, y)
    else if (x.CType? || x.CClass?) && y.Str? then StrNot(y, x)
    else if x.Str? && y.Str? then
      exists i :: 0 <= i < |x.s| && i < |y.s| && x.s[i] != y.s[i]
    else false
  }

  predicate ClassNotType(x: Node, y: Node)
    requires x.CClass? && y.CType?
  {
    if !y.not then x.mbuf.None? && !x.neg && forall b: byte :: !(b in x.bs && IsWord(b))
    else forall b: byte :: !IsWord(b) ==> !InClass(x, b)
  }

  predicate StrNot(x: Node, y: Node)
    requires x.Str? && (y.CType? || y.CClass?)
  {
    x.s != [] && if y.CType? then IsWord(x.s[0]) == y.not else !InClass(y, x.s[0])
  }

  // ----- next_setup -----

  /** a*b ==> (?>a*)b */
  predicate Possessive(t: Node, q: Rep, next: Node) {
    && q.lower <= 1 && IsSimple(t)
    && Head(t, false).Some? && Head(next, false).Some?
    && NotIncluded(Head(t, false).value, Head(next, false).value)
  }

  /** What a node becomes when next follows it in a list. */
  function NextSetup(n: Node, next: Node): Node {
    match n
    case Quant(t, q) =>
      if !q.greedy || !Infinite(q.upper) then n
      else
        var n' := Quant(t, q.(nextHead := HeadString(next)));
        if Possessive(t, q, next) then Atomic(true, n') else n'
    case Group(k, b) => Group(k, NextSetup(b, next))
    case _ => n
  }

  // ----- setup_tree -----

  /** quantifiers_memory_node_info: a capture outside look-around. */
  predicate HasMemory(n: Node) {
    match n
    case List(ns) => AnyMemory(ns)
    case Alt(ns) => AnyMemory(ns)
    case Quant(t, q) => q.upper != 0 && HasMemory(t)
    case Group(_, _) => true
    case OptionNode(_, b) => HasMemory(b)
    case Atomic(_, b) => HasMemory(b)
    case _ => false
  }

  predicate AnyMemory(ns: Nodes) {
    match ns
    case Last(n) => HasMemory(n)
    case Cons(n, rest) => HasMemory(n) || AnyMemory(rest)
  }

  function EmptyInfoOf(t: Node, q: Rep): EmptyInfo {
    if !(Infinite(q.upper) || q.upper >= 1) || MinLen(t) != 0 then IsNotEmpty
    else if HasMemory(t) then IsEmptyMem
    else IsEmpty
  }

  function SetRep(t: Node, q: Rep, inside: bool): Rep {
    q.(inRepeat := q.inRepeat || inside, emptyInfo := EmptyInfoOf(t, q), raw := false)
  }

  /** A repeated string that is written out. */
  predicate Expands(t: Node, q: Rep) {
    t.Str? && q.lower == q.upper && 1 < q.lower <= EXPAND_STRING_MAX_LENGTH
      && |t.s| * q.lower <= EXPAND_STRING_MAX_LENGTH
  }

  function Repeated(s: seq<byte>, n: nat): (r: seq<byte>)
    ensures |r| == |s| * n
  {
    if n == 0 then [] else s + Repeated(s, n - 1)
  }

  /** The repeat once its target is set up; the head of an inner repeat moves to the outer one. */
  function QuantSetup(t: Node, q: Rep): Node {
    if Expands(t, q) then Str(Repeated(t.s, q.lower))
    else if q.greedy && q.emptyInfo != IsNotEmpty then
      if t.Quant? then
        if t.q.headExact.Some? then Quant(Quant(t.target, t.q.(headExact := None)), q.(headExact := t.q.headExact))
        else Quant(t, q)
      else Quant(t, q.(headExact := HeadString(t)))
    else Quant(t, q)
  }

  predicate SimpleAtomic(b: Node) {
    b.Quant? && Infinite(b.q.upper) && b.q.lower <= 1 && b.q.greedy && IsSimple(b.target)
  }

  /** setup_tree; inside: within a repeat. */
  function SetupTree(n: Node, inside: bool): Node {
    match n
    case List(ns) => List(SetupList(ns, inside))
    case Alt(ns) => Alt(SetupAlt(ns, inside))
    case Quant(t, q) =>
      QuantSetup(SetupTree(t, true), SetRep(t, q, inside))
    case Group(k, b) => Group(k, SetupTree(b, inside))
    case OptionNode(ml, b) => OptionNode(ml, SetupTree(b, inside))
    case Atomic(simple, b) =>
      var b' := SetupTree(b, inside);
      Atomic(simple || SimpleAtomic(b'), b')
    case Look(k, len, b) => Look(k, len, SetupTree(b, inside))
    case _ => n
  }

  /** Each item is set up, then told the item behind it, which is set up by then. */
  function SetupList(ns: Nodes, inside: bool): (r: Nodes)
  {
    match ns
    case Last(n) => Last(SetupTree(n, inside))
    case Cons(n, rest) => Cons(NextSetup(SetupTree(n, inside), SetupTree(rest.left, inside)), SetupList(rest, inside))
  }

  function SetupAlt(ns: Nodes, inside: bool): Nodes {
    match ns
    case Last(n) => Last(SetupTree(n, inside))
    case Cons(n, rest) => Cons(SetupTree(n, inside), SetupAlt(rest, inside))
  }

  // ----- what the parser hands over -----

  predicate RawRep(q: Rep) {
    q.raw && q.emptyInfo == IsNotEmpty && q.headExact.None? && q.nextHead.None? && !q.inRepeat && !q.isRefered
  }

  /** is_invalid_quantifier_target: what the parser refuses to repeat. In a list anything goes. */
  predicate InvalidTarget(n: Node) {
    match n
    case Anchor(_) => true
    case Look(_, _, _) => true
    case OptionNode(_, b) => InvalidTarget(b)
    case Alt(ns) => AnyInvalid(ns)
    case _ => false
  }

  predicate AnyInvalid(ns: Nodes) {
    match ns
    case Last(n) => InvalidTarget(n)
    case Cons(n, rest) => InvalidTarget(n) || AnyInvalid(rest)
  }

  /** A tree as the parser builds it, inside the modelled part: bounds and targets of repeats are checked, a
      repeated body that can match empty holds no capture, (?>X*) is not a loop over the empty string, and a
      look-behind carries the one length of its target (the C field is filled in by
      setup_look_behind, or at compile time). */
  predicate Parsed(n: Node) {
    match n
    case List(ns) => AllParsed(ns)
    case Alt(ns) => AllParsed(ns)
    case Quant(t, q) => Parsed(t) && RawRep(q) && ParsedRep(t, q)
    case Group(_, b) => Parsed(b)
    case OptionNode(_, b) => Parsed(b)
    case Atomic(simple, b) => !simple && Parsed(b) && !EmptyLoop(b)
    case Look(k, len, b) => Parsed(b) && (if k.LookBehind? || k.LookBehindNot? then BehindOk(b, len) else len == 0)
    case Str(s) => |s| < TWO32
    case _ => true
  }

  predicate AllParsed(ns: Nodes) {
    match ns
    case Last(n) => Parsed(n)
    case Cons(n, rest) => Parsed(n) && AllParsed(rest)
  }

  predicate ParsedRep(t: Node, q: Rep) {
    && !InvalidTarget(t)
    && q.lower <= MAX_REPEAT_NUM
    && (Infinite(q.upper) || q.lower <= q.upper <= MAX_REPEAT_NUM)
    && (q.greedy || q.upper != 0)
    && (MinLen(t) > 0 || q.upper == 0 || !HasMemory(t))
  }

  /** (?>(?:)*): the simple repeat would go round for ever. */
  predicate EmptyLoop(b: Node) {
    b.Quant? && Infinite(b.q.upper) && b.q.lower <= 1 && b.q.greedy && SetupTree(b.target, true) == Str([])
  }

  /** The loop round the set-up repeat t takes over a head that t need not match: t may run zero times. A
      bounded loop that may itself run zero times never looks at its head. */
  predicate Misleads(t: Node, q: Rep) {
    && q.greedy && q.emptyInfo != IsNotEmpty && t.Quant? && t.q.headExact.Some? && t.q.lower == 0
    && (Infinite(q.upper) || q.lower > 0)
  }

  /** No loop takes over a head it must not rely on. */
  predicate Unmisled(n: Node) {
    match n
    case List(ns) => AllUnmisled(ns)
    case Alt(ns) => AllUnmisled(ns)
    case Quant(t, q) => Unmisled(t) && !Misleads(SetupTree(t, true), SetRep(t, q, false))
    case Group(_, b) => Unmisled(b)
    case OptionNode(_, b) => Unmisled(b)
    case Atomic(_, b) => Unmisled(b)
    case Look(_, _, b) => Unmisled(b)
    case _ => true
  }

  predicate AllUnmisled(ns: Nodes) {
    match ns
    case Last(n) => Unmisled(n)
    case Cons(n, rest) => Unmisled(n) && AllUnmisled(rest)
  }

  /** What every match has to start with, whatever heads loops have been given. */
  function Lead(n: Node, exact: bool): (h: Option<Node>)
    ensures h.Some? ==> (h.value.Str? && h.value.s != []) || (!exact && (h.value.CType? || h.value.CClass?))
  {
    match n
    case CType(_) => if exact then None else Some(n)
    case CClass(_, _, _, _) => if exact then None else Some(n)
    case List(ns) => LeadOfFirst(ns, exact)
    case Str(s) => if s == [] then None else Some(n)
    case Quant(t, q) => if q.lower == 0 then None else Lead(t, exact)
    case OptionNode(_, b) => Lead(b, exact)
    case Group(_, b) => Lead(b, exact)
    case Atomic(_, b) => Lead(b, exact)
    case Look(k, _, b) => if k.PrecRead? then Lead(b, exact) else None
    case _ => None
  }

  function LeadOfFirst(ns: Nodes, exact: bool): (h: Option<Node>)
    ensures h.Some? ==> (h.value.Str? && h.value.s != []) || (!exact && (h.value.CType? || h.value.CClass?))
  {
    Lead(ns.left, exact)
  }

  /** Every head a loop relies on is one its body has to start with. */
  predicate TrueHeads(n: Node) {
    match n
    case List(ns) => AllTrueHeads(ns)
    case Alt(ns) => AllTrueHeads(ns)
    case Quant(t, q) => TrueHeads(t) && HeadTrue(t, q)
    case Group(_, b) => TrueHeads(b)
    case OptionNode(_, b) => TrueHeads(b)
    case Atomic(_, b) => TrueHeads(b)
    case Look(_, _, b) => TrueHeads(b)
    case _ => true
  }

  predicate AllTrueHeads(ns: Nodes) {
    match ns
    case Last(n) => TrueHeads(n)
    case Cons(n, rest) => TrueHeads(n) && AllTrueHeads(rest)
  }

  predicate HeadTrue(t: Node, q: Rep) {
    q.headExact.Some? ==> Lead(t, true) == Some(Str(q.headExact.value)) || (q.lower == 0 && !Infinite(q.upper))
  }

  /** No loop is given a head of its own (next_head_exact is another matter). */
  predicate NoHeads(n: Node) {
    match n
    case List(ns) => NoneHeads(ns)
    case Alt(ns) => NoneHeads(ns)
    case Quant(t, q) => q.headExact.None? && NoHeads(t)
    case Group(_, b) => NoHeads(b)
    case OptionNode(_, b) => NoHeads(b)
    case Atomic(_, b) => NoHeads(b)
    case Look(_, _, b) => NoHeads(b)
    case _ => true
  }

  predicate NoneHeads(ns: Nodes) {
    match ns
    case Last(n) => NoHeads(n)
    case Cons(n, rest) => NoHeads(n) && NoneHeads(rest)
  }
}
