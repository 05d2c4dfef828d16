/** Match lengths computed at compile time (get_min_match_length, get_char_length_tree1), and what
    tree set-up leaves behind. */
module Lengths {
  import opened Regint
  import opened Regparse
  import opened Regcomp

  const TWO32 := 0x1_0000_0000
  const MAX_REPEAT_NUM := 100000
  const INT_MAX := 0x7fff_ffff

  /** get_min_match_length; list lengths are added in 32 bits, without saturation. */
  function MinLen(n: Node): Distance {
    match n
    case Str(s) => |s| % TWO32
    case CClass(_, _, _, _) => 1
    case CType(_) => 1
    case AnyChar => 1
    case List(ns) => MinLenList(ns)
    case Alt(ns) => MinLenAlt(ns)
    case Quant(t, q) => if q.lower > 0 then DistanceMultiply(MinLen(t), q.lower) else 0
    case Group(_, b) => MinLen(b)
    case OptionNode(_, b) => MinLen(b)
    case Atomic(_, b) => MinLen(b)
    case Anchor(_) => 0
    case Look(_, _, _) => 0
  }

  function MinLenList(ns: Nodes): Distance {
    match ns
    case Last(n) => MinLen(n)
    case Cons(n, rest) => (MinLen(n) + MinLenList(rest)) % TWO32
  }

  function MinLenAlt(ns: Nodes): Distance {
    match ns
    case Last(n) => MinLen(n)
    case Cons(n, rest) => if MinLenAlt(rest) < MinLen(n) then MinLenAlt(rest) else MinLen(n)
  }

  datatype CharLen = Fixed(len: Distance) | VarLen | TopAltVarLen

  datatype AltLen = SameLen(len: Distance) | Differ | Failed

  /** get_char_length_tree1; top: the node is the whole look-behind target. */
  function CharLenTree(n: Node, top: bool): CharLen {
    match n
    case Str(s) => Fixed(if |s| <= INFINITE_DISTANCE then |s| else INFINITE_DISTANCE)
    case CClass(_, _, _, _) => Fixed(1)
    case CType(_) => Fixed(1)
    case AnyChar => Fixed(1)
    case List(ns) => CharLenList(ns)
    case Alt(ns) =>
      (match CharLenAlt(ns)
       case SameLen(d) => Fixed(d)
       case Differ => if top then TopAltVarLen else VarLen
       case Failed => VarLen)
    case Quant(t, q) =>
      if q.lower != q.upper then VarLen
      else
        var c := CharLenTree(t, false);
        if c.Fixed? then Fixed(DistanceMultiply(c.len, q.lower)) else VarLen
    case Group(_, b) => CharLenTree(b, false)
    case OptionNode(_, b) => CharLenTree(b, false)
    case Atomic(_, b) => CharLenTree(b, false)
    case Anchor(_) => Fixed(0)
    case Look(_, _, _) => Fixed(0)
  }

  function CharLenList(ns: Nodes): CharLen {
    match ns
    case Last(n) => CharLenTree(n, false)
    case Cons(n, rest) =>
      var c := CharLenTree(n, false);
      var d := CharLenList(rest);
      if c.Fixed? && d.Fixed? then Fixed(DistanceAdd(c.len, d.len)) else VarLen
  }

  function CharLenAlt(ns: Nodes): AltLen {
    match ns
    case Last(n) => var c := CharLenTree(n, false); if c.Fixed? then SameLen(c.len) else Failed
    case Cons(n, rest) =>
      var c := CharLenTree(n, false);
      var d := CharLenAlt(rest);
      if !c.Fixed? || d.Failed? then Failed
      else if d == SameLen(c.len) then d
      else Differ
  }

  // ----- what the parser and setup_tree leave behind -----

  predicate RepReady(t: Node, q: Rep) {
    && q.lower <= MAX_REPEAT_NUM
    && (Infinite(q.upper) || q.lower <= q.upper <= MAX_REPEAT_NUM)
    && (q.greedy || q.upper != 0)
    && !q.raw && q.emptyInfo != IsEmptyMem
    && (Infinite(q.upper) ==> MinLen(t) > 0 || q.emptyInfo == IsEmpty)
  }

  predicate BehindOk(b: Node, len: int) {
    CharLenTree(b, true).Fixed? && CharLenTree(b, true).len == len && len < INFINITE_DISTANCE
  }

  predicate SimpleOk(b: Node) {
    && b.Quant? && Infinite(b.q.upper) && b.q.lower <= MAX_REPEAT_NUM
    && Ready(b.target) && IsSimple(b.target) && b.target != Str([])
  }

  /** Trees the correctness results speak about: an unbounded loop has a body that cannot match empty,
      or the empty check (not the one that looks at captures); look-behind lengths are the computed
      ones. */
  predicate Ready(n: Node) {
    match n
    case List(ns) => AllReady(ns)
    case Alt(ns) => AllReady(ns)
    case Quant(t, q) => Ready(t) && RepReady(t, q)
    case Group(_, b) => Ready(b)
    case OptionNode(_, b) => Ready(b)
    case Atomic(simple, b) =>
      if simple then SimpleOk(b) else Ready(b)
    case Look(k, len, b) =>
      Ready(b) && (k.LookBehind? ==> BehindOk(b, len))
    case _ => true
  }

  predicate AllReady(ns: Nodes) {
    match ns
    case Last(n) => Ready(n)
    case Cons(n, rest) => Ready(n) && AllReady(rest)
  }
}
