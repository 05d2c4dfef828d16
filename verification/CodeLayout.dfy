/** compile_tree lays code out as module Layout says, for every tree, whether or not the tree's
    loops are ones the correctness results speak about. */
module CodeLayout {
  import opened Regint
  import opened Regparse
  import opened Regcomp
  import opened Machine
  import opened Layout

  /** setup_tree marks every repeat inside another one (NQ_IS_IN_REPEAT). */
  predicate Marked(n: Node, inside: bool) {
    match n
    case List(ns) => AllMarked(ns, inside)
    case Alt(ns) => AllMarked(ns, inside)
    case Quant(t, q) => (inside ==> q.inRepeat) && Marked(t, true)
    case Group(_, b) => Marked(b, inside)
    case OptionNode(_, b) => Marked(b, inside)
    case Atomic(simple, b) => Marked(b, inside)
    case Look(_, _, b) => Marked(b, inside)
    case _ => true
  }

  predicate AllMarked(ns: Nodes, inside: bool) {
    match ns
    case Last(n) => Marked(n, inside)
    case Cons(n, rest) => Marked(n, inside) && AllMarked(rest, inside)
  }

  /** The code appended to r, giving r', is a closed stretch with its own counters. */
  ghost predicate FragOf(g: Image, r: Reg, r': Reg, sg: bool) {
    Frag(g, |r.code|, |r'.code|, |r.ranges|, |r'.ranges|, sg)
  }

  ghost predicate PartOf(g: Image, r: Reg, r': Reg, l: int, h: int, sg: bool) {
    Part(g, |r.code|, |r'.code|, l, h, |r.ranges|, |r'.ranges|, sg)
  }

  predicate Placed(g: Image, r: Reg) { r.code <= g.prog.code }

  lemma PlacedDown(g: Image, r: Reg, r': Reg)
    requires Ext(r, r') && Placed(g, r')
    ensures Placed(g, r) && |r'.code| <= |g.prog.code|
  {
  }

  lemma SeqOf(g: Image, a: Reg, b: Reg, c: Reg, sg: bool)
    requires FragOf(g, a, b, sg) && FragOf(g, b, c, sg)
    ensures FragOf(g, a, c, sg)
  {
    FragSeq(g, |a.code|, |b.code|, |c.code|, |a.ranges|, |b.ranges|, |c.ranges|, sg);
  }

  lemma Seq(g: Image, a: Reg, b: Reg, c: Reg, l: int, h: int, sg: bool)
    requires PartOf(g, a, b, l, h, sg) && PartOf(g, b, c, l, h, sg)
    ensures PartOf(g, a, c, l, h, sg)
  {
    PartSeq(g, |a.code|, |b.code|, |c.code|, l, h, |a.ranges|, |b.ranges|, |c.ranges|, sg);
  }

  lemma Inside(g: Image, a: Reg, b: Reg, l: int, h: int, sg: bool)
    requires FragOf(g, a, b, sg) && 0 <= l <= |a.code| && |b.code| <= h <= |g.prog.code|
             && Boundary(g.prog.code, |b.code|, h)
    ensures PartOf(g, a, b, l, h, sg) && Boundary(g.prog.code, |a.code|, h)
  {
    FragPart(g, |a.code|, |b.code|, l, h, |a.ranges|, |b.ranges|, sg);
  }

  /** Parts that fill a stretch make it a closed one. */
  lemma Close(g: Image, a: Reg, b: Reg, sg: bool)
    requires PartOf(g, a, b, |a.code|, |b.code|, sg) && Boundary(g.prog.code, |a.code|, |b.code|)
    ensures FragOf(g, a, b, sg)
  {
  }

  // ----- leaves -----

  lemma StringFrag(g: Image, s: seq<byte>, r: Reg, sg: bool)
    requires Placed(g, CompileString(s, r))
    ensures FragOf(g, r, CompileString(s, r), sg)
  {
    if s == [] { FragEmpty(g, |r.code|, |r.ranges|, sg); }
    else { PlainFrag(g, r, SelectStr(s), StringLength(|s|), |r.ranges|, sg); }
  }

  lemma CClassFrag(g: Image, n: Node, r: Reg, sg: bool)
    requires n.CClass? && Placed(g, CompileCClass(n, g.cfg, r))
    ensures FragOf(g, r, CompileCClass(n, g.cfg, r), sg)
  {
    PlainFrag(g, r, CClassInstr(n, g.cfg), CClassLength(n, g.cfg), |r.ranges|, sg);
  }

  lemma LeafFrag(g: Image, i: Instr, r: Reg, sg: bool)
    requires (i.OpWord? || i.OpNotWord? || i.OpAnyChar?) && Placed(g, Add(r, i, SIZE_OPCODE))
    ensures FragOf(g, r, Add(r, i, SIZE_OPCODE), sg)
  {
    PlainFrag(g, r, i, SIZE_OPCODE, |r.ranges|, sg);
  }

  lemma AnchorFrag(g: Image, k: AnchorKind, r: Reg, sg: bool)
    requires Placed(g, CompileAnchor(k, r))
    ensures FragOf(g, r, CompileAnchor(k, r), sg)
  {
    PlainFrag(g, r, AnchorInstr(k), SIZE_OPCODE, |r.ranges|, sg);
  }

  // ----- one instruction before and one behind a body -----

  /** Brackets without addresses. */
  lemma Bracket(g: Image, r: Reg, open: Instr, n0: nat, r1: Reg, r2: Reg, close: Instr, n1: nat, r3: Reg, sg: bool)
    requires n0 >= 1 && n1 >= 1 && r1 == Add(r, open, n0) && r3 == Add(r2, close, n1) && Ext(r1, r2)
    requires Placed(g, r3) && Plain(open) && Plain(close) && MemBits(g.cfg, open) && MemBits(g.cfg, close)
    requires FragOf(g, r1, r2, sg)
    ensures FragOf(g, r, r3, sg)
  {
    hide Frag, Plain, MemBits, Add;
    PlacedDown(g, r1, r2);
    PlainFrag(g, r, open, n0, |r.ranges|, sg);
    PlainFrag(g, r2, close, n1, |r2.ranges|, sg);
    SeqOf(g, r, r1, r2, sg);
    SeqOf(g, r, r2, r3, sg);
  }

  /** An opening jump to behind the closing instruction. */
  lemma JumpOver(g: Image, r: Reg, open: Instr, n0: nat, r1: Reg, r2: Reg, close: Instr, n1: nat, r3: Reg, sg: bool)
    requires n0 >= 1 && n1 >= 1 && r1 == Add(r, open, n0) && r3 == Add(r2, close, n1) && Ext(r1, r2)
    requires Placed(g, r3) && Jumps(open) && Target(open, |r.code|) == Some(|r3.code|) && Plain(close)
             && MemBits(g.cfg, close)
    requires FragOf(g, r1, r2, sg)
    ensures FragOf(g, r, r3, sg)
  {
    hide Frag, Plain, MemBits, Add, Part, Target;
    var l, h := |r.code|, |r3.code|;
    PlacedDown(g, r1, r2);
    JumpPart(g, r, open, n0, l, h, |r.ranges|, sg);
    PlainPart(g, r2, close, n1, l, h, |r2.ranges|, sg);
    Inside(g, r1, r2, l, h, sg);
    Seq(g, r, r1, r2, l, h, sg);
    Seq(g, r, r2, r3, l, h, sg);
    Close(g, r, r3, sg);
  }

  /** A jump to the end of the body. */
  lemma JumpPast(g: Image, r: Reg, open: Instr, n0: nat, r1: Reg, r2: Reg, sg: bool)
    requires n0 >= 1 && r1 == Add(r, open, n0) && Ext(r1, r2)
    requires Placed(g, r2) && Jumps(open) && Target(open, |r.code|) == Some(|r2.code|)
    requires FragOf(g, r1, r2, sg)
    ensures FragOf(g, r, r2, sg)
  {
    var l, h := |r.code|, |r2.code|;
    PlacedDown(g, r1, r2);
    JumpPart(g, r, open, n0, l, h, |r.ranges|, sg);
    hide Frag, Add, Part, Target;
    Inside(g, r1, r2, l, h, sg);
    Seq(g, r, r1, r2, l, h, sg);
    Close(g, r, r2, sg);
  }

  // ----- repeats -----

  lemma {:induction false} TimesFrag(g: Image, n: Node, k: nat, ml: bool, r: Reg, sg: bool)
    requires Formed(n) && Marked(n, sg) && Placed(g, CompileTimes(n, k, ml, g.cfg, r))
    ensures FragOf(g, r, CompileTimes(n, k, ml, g.cfg, r), sg)
    decreases n, 2, k
  {
    hide Formed, Marked, CompileTree, CompileLength, FragOf;
    if k == 0 {
      FragEmptyOf(g, r, sg);
    } else {
      var r1 := CompileTree(n, ml, g.cfg, r);
      var r2 := CompileTimes(n, k - 1, ml, g.cfg, r1);
      PlacedDown(g, r1, r2);
      TreeFrag(g, n, ml, r, sg);
      TimesFrag(g, n, k - 1, ml, r1, sg);
      SeqOf(g, r, r1, r2, sg);
    }
  }

  lemma FragEmptyOf(g: Image, r: Reg, sg: bool)
    requires Placed(g, r)
    ensures FragOf(g, r, r, sg)
  {
    FragEmpty(g, |r.code|, |r.ranges|, sg);
  }

  lemma OptionalTarget(tlen: nat, m: nat)
    requires m > 0
    ensures m * tlen + (m - 1) * SIZE_OP_PUSH + SIZE_OP_PUSH == (SIZE_OP_PUSH + tlen) * m
  {
  }

  lemma {:induction false} OptionalPart(g: Image, n: Node, m: nat, ml: bool, r: Reg, l: int, h: int, sg: bool)
    requires Formed(n) && Marked(n, sg) && Placed(g, CompileOptional(n, m, ml, g.cfg, r)) && 0 <= l <= |r.code|
    requires h == |CompileOptional(n, m, ml, g.cfg, r).code|
    ensures PartOf(g, r, CompileOptional(n, m, ml, g.cfg, r), l, h, sg) && Boundary(g.prog.code, |r.code|, h)
    decreases n, 2, m
  {
    hide Formed, Marked, CompileTree, CompileLength, Frag, Part, FragOf, PartOf, Ext, Placed, Add, At, Boundary;
    if m > 0 {
      var tlen := CompileLength(n, g.cfg);
      var i := OpPush(m * tlen + (m - 1) * SIZE_OP_PUSH);
      var r1 := Add(r, i, SIZE_OP_PUSH);
      var r2 := CompileTree(n, ml, g.cfg, r1);
      var r3 := CompileOptional(n, m - 1, ml, g.cfg, r2);
      OptionalTarget(tlen, m);
      PlacedDown(g, r2, r3);
      PlacedDown(g, r1, r2);
      OptionalPart(g, n, m - 1, ml, r2, l, h, sg);
      PushEnd(g, r, i, l, h, sg);
      TreeFrag(g, n, ml, r1, sg);
      Inside(g, r1, r2, l, h, sg);
      Seq(g, r, r1, r2, l, h, sg);
      Seq(g, r, r2, r3, l, h, sg);
    } else {
      NoPart(g, r, l, sg);
    }
  }

  lemma NoPart(g: Image, r: Reg, l: int, sg: bool)
    requires Placed(g, r) && 0 <= l <= |r.code|
    ensures PartOf(g, r, r, l, |r.code|, sg) && Boundary(g.prog.code, |r.code|, |r.code|)
  {
  }

  lemma PushEnd(g: Image, r: Reg, i: Instr, l: int, h: int, sg: bool)
    requires i.OpPush? && Placed(g, Add(r, i, SIZE_OP_PUSH)) && h == |r.code| + SIZE_OP_PUSH + i.addr
    requires 0 <= l <= |r.code| && |r.code| + SIZE_OP_PUSH <= h <= |g.prog.code|
    ensures PartOf(g, r, Add(r, i, SIZE_OP_PUSH), l, h, sg) && Boundary(g.prog.code, |r.code|, h)
  {
    JumpPart(g, r, i, SIZE_OP_PUSH, l, h, |r.ranges|, sg);
  }

  /** A loop body; with an empty check, the closing instruction must be one that can be skipped. */
  lemma CheckPart(g: Image, n: Node, info: EmptyInfo, ml: bool, r: Reg, l: int, h: int)
    requires Formed(n) && Marked(n, true) && Placed(g, CompileEmptyCheck(n, info, ml, g.cfg, r))
    requires var e := |CompileEmptyCheck(n, info, ml, g.cfg, r).code|;
             0 <= l <= |r.code| && e < h <= |g.prog.code| && At(g.prog.code, e) && EmptyExit(g.prog, e, h)
    ensures PartOf(g, r, CompileEmptyCheck(n, info, ml, g.cfg, r), l, h, true) && Boundary(g.prog.code, |r.code|, h)
    decreases n, 2, 0
  {
    hide Formed, Marked, CompileTree, CompileLength, FragOf, PartOf, Boundary, Add, Ext, EmptyExit;
    if info == IsNotEmpty {
      TreeFrag(g, n, ml, r, true);
      AtBoundary(g.prog.code, |CompileTree(n, ml, g.cfg, r).code|, h);
      Inside(g, r, CompileTree(n, ml, g.cfg, r), l, h, true);
    } else {
      var r1 := Add(r, OpNullCheckStart(r.numNull), SIZE_OP_NULL_CHECK_START).(numNull := r.numNull + 1);
      var r2 := CompileTree(n, ml, g.cfg, r1);
      var end := if info == IsEmpty then OpNullCheckEnd(r.numNull) else OpNullCheckEndMemst(r.numNull);
      var r3 := Add(r2, end, SIZE_OP_NULL_CHECK_END);
      PlacedDown(g, r2, r3);
      PlacedDown(g, r1, r2);
      CheckEnd(g, r2, end, l, h);
      CheckStart(g, r, r1, l, h);
      TreeFrag(g, n, ml, r1, true);
      AtBoundary(g.prog.code, |r2.code|, h);
      Inside(g, r1, r2, l, h, true);
      Seq(g, r, r1, r2, l, h, true);
      Seq(g, r, r2, r3, l, h, true);
    }
  }

  lemma AtBoundary(code: Program, a: int, h: int)
    requires At(code, a)
    ensures Boundary(code, a, h)
  {
  }

  lemma CheckEnd(g: Image, r: Reg, i: Instr, l: int, h: int)
    requires i.OpNullCheckEnd? || i.OpNullCheckEndMemst?
    requires Placed(g, Add(r, i, SIZE_OP_NULL_CHECK_END)) && EmptyExit(g.prog, |r.code| + SIZE_OP_NULL_CHECK_END, h)
    requires 0 <= l <= |r.code| && h <= |g.prog.code|
    ensures PartOf(g, r, Add(r, i, SIZE_OP_NULL_CHECK_END), l, h, true) && At(g.prog.code, |r.code|)
  {
    AddCells(g.prog.code, r, i, SIZE_OP_NULL_CHECK_END);
    hide EmptyExit;
    OneCell(g, |r.code|, SIZE_OP_NULL_CHECK_END, l, h, |r.ranges|, |r.ranges|, true);
  }

  lemma CheckStart(g: Image, r: Reg, r1: Reg, l: int, h: int)
    requires r1 == Add(r, OpNullCheckStart(r.numNull), SIZE_OP_NULL_CHECK_START).(numNull := r.numNull + 1)
    requires Placed(g, r1) && 0 <= l <= |r.code| && |r1.code| <= h <= |g.prog.code|
    ensures PartOf(g, r, r1, l, h, true) && Boundary(g.prog.code, |r.code|, h)
  {
    PlainPart(g, r, OpNullCheckStart(r.numNull), SIZE_OP_NULL_CHECK_START, l, h, |r.ranges|, true);
  }

  /** The instruction that closes a loop can be skipped after an empty iteration. */
  lemma ClosingExit(g: Image, r: Reg, i: Instr, size: nat)
    requires size == Size(i) && Placed(g, Add(r, i, size)) && (i.OpJump? || i.OpPush? || CounterInc(i))
    ensures EmptyExit(g.prog, |r.code|, |Add(r, i, size).code|) && At(g.prog.code, |r.code|)
    ensures |Add(r, i, size).code| <= |g.prog.code|
  {
    AddCells(g.prog.code, r, i, size);
  }

  lemma JumpOne(g: Image, r: Reg, i: Instr, size: nat, l: int, h: int)
    requires size >= 1 && Placed(g, Add(r, i, size)) && Jumps(i) && 0 <= l <= |r.code|
             && |r.code| + size <= h <= |g.prog.code|
    requires l <= Target(i, |r.code|).value <= h && Boundary(g.prog.code, Target(i, |r.code|).value, h)
    ensures PartOf(g, r, Add(r, i, size), l, h, true) && At(g.prog.code, |r.code|) && Boundary(g.prog.code, |r.code|, h)
  {
    JumpPart(g, r, i, size, l, h, |r.ranges|, true);
  }

  /** The mandatory copies, or the jump in their place. */
  lemma LowerPart(g: Image, t: Node, q: Rep, skip: nat, ml: bool, r: Reg, h: int)
    requires Formed(t) && Marked(t, true) && Placed(g, CompileLower(t, q, skip, ml, g.cfg, r))
    requires var e := |CompileLower(t, q, skip, ml, g.cfg, r).code|;
             && h <= |g.prog.code| && e + skip <= h && Boundary(g.prog.code, e, h) && Boundary(g.prog.code, e + skip, h)
    ensures PartOf(g, r, CompileLower(t, q, skip, ml, g.cfg, r), |r.code|, h, true)
            && Boundary(g.prog.code, |r.code|, h)
    decreases t, 3, 0
  {
    hide Formed, Marked, CompileTree, CompileTimes, CompileLength, FragOf, PartOf, Boundary, Add, Ext;
    if JumpIn(q, CompileLength(t, g.cfg)) {
      JumpOne(g, r, OpJump(skip), SIZE_OP_JUMP, |r.code|, h);
    } else {
      TimesFrag(g, t, q.lower, ml, r, true);
      Inside(g, r, CompileTimes(t, q.lower, ml, g.cfg, r), |r.code|, h, true);
    }
  }

  lemma PushLoopFrag(g: Image, t: Node, q: Rep, ml: bool, r: Reg)
    requires Formed(t) && RepOk(q) && Marked(t, true) && Placed(g, CompilePushLoop(t, q, ml, g.cfg, r))
    ensures FragOf(g, r, CompilePushLoop(t, q, ml, g.cfg, r), true)
    decreases t, 4, 0
  {
    hide Formed, RepOk, Marked, CompileTree, CompileTimes, CompileLower, CompileEmptyCheck, CompileLength, FragOf;
    hide PartOf, Boundary, Add, Ext, At, EmptyExit, Placed, CompilePushLoop;
    PushLoopIs(t, q, ml, g.cfg, r);
    var modTlen := ModLen(q.emptyInfo, CompileLength(t, g.cfg));
    var head := LoopHead(q, modTlen + SIZE_OP_JUMP);
    var back := OpJump(-(modTlen + SIZE_OP_JUMP + LoopHeadLength(q)));
    var r1 := CompileLower(t, q, LoopHeadLength(q), ml, g.cfg, r);
    var r2 := Add(r1, head, LoopHeadLength(q));
    var r3 := CompileEmptyCheck(t, q.emptyInfo, ml, g.cfg, r2);
    var r4 := Add(r3, back, SIZE_OP_JUMP);
    var l, h := |r.code|, |r4.code|;
    ClosingExit(g, r3, back, SIZE_OP_JUMP);
    PlacedDown(g, r3, r4); PlacedDown(g, r2, r3); PlacedDown(g, r1, r2);
    CheckPart(g, t, q.emptyInfo, ml, r2, l, h);
    EndBoundary(g.prog.code, h);
    JumpOne(g, r1, head, LoopHeadLength(q), l, h);
    JumpOne(g, r3, back, SIZE_OP_JUMP, l, h);
    LowerPart(g, t, q, LoopHeadLength(q), ml, r, h);
    Seq(g, r, r1, r2, l, h, true);
    Seq(g, r, r2, r3, l, h, true);
    Seq(g, r, r3, r4, l, h, true);
    Close(g, r, r4, true);
  }

  lemma EndBoundary(code: Program, h: int)
    ensures Boundary(code, h, h)
  {
  }

  lemma LazyLoopFrag(g: Image, t: Node, q: Rep, ml: bool, r: Reg)
    requires Formed(t) && RepOk(q) && Marked(t, true) && Placed(g, CompileLazyLoop(t, q, ml, g.cfg, r))
    ensures FragOf(g, r, CompileLazyLoop(t, q, ml, g.cfg, r), true)
    decreases t, 4, 0
  {
    hide Formed, RepOk, Marked, CompileTree, CompileTimes, CompileLower, CompileEmptyCheck, CompileLength, FragOf;
    hide PartOf, Boundary, Add, Ext, At, EmptyExit, Placed;
    var modTlen := ModLen(q.emptyInfo, CompileLength(t, g.cfg));
    var back := OpPush(-(modTlen + SIZE_OP_PUSH));
    var r1 := CompileLower(t, q, SIZE_OP_JUMP, ml, g.cfg, r);
    var r2 := Add(r1, OpJump(modTlen), SIZE_OP_JUMP);
    var r3 := CompileEmptyCheck(t, q.emptyInfo, ml, g.cfg, r2);
    var r4 := Add(r3, back, SIZE_OP_PUSH);
    var l, h := |r.code|, |r4.code|;
    ClosingExit(g, r3, back, SIZE_OP_PUSH);
    AtBoundary(g.prog.code, |r3.code|, h);
    PlacedDown(g, r3, r4); PlacedDown(g, r2, r3); PlacedDown(g, r1, r2);
    CheckPart(g, t, q.emptyInfo, ml, r2, l, h);
    JumpOne(g, r1, OpJump(modTlen), SIZE_OP_JUMP, l, h);
    JumpOne(g, r3, back, SIZE_OP_PUSH, l, h);
    LowerPart(g, t, q, SIZE_OP_JUMP, ml, r, h);
    Seq(g, r, r1, r2, l, h, true);
    Seq(g, r, r2, r3, l, h, true);
    Seq(g, r, r3, r4, l, h, true);
    Close(g, r, r4, true);
  }

  // ----- counters -----

  /** The two ends of a counter know each other. */
  lemma CounterEnds(g: Image, q: Rep, r: Reg, r1: Reg, r2: Reg)
    requires r1 == CounterHead(q, |r2.code| - |r1.code| + SIZE_OP_REPEAT_INC, r) && Ext(r1, r2)
    requires Placed(g, Add(r2, RepeatIncInstr(q, |r.ranges|), SIZE_OP_REPEAT_INC))
    ensures var r3 := Add(r2, RepeatIncInstr(q, |r.ranges|), SIZE_OP_REPEAT_INC);
            var l, h := |r.code|, |r3.code|;
            && Closes(g.prog.code, l, |r2.code|) && CounterId(g.prog.code[l].i) == |r.ranges|
            && TableInc(g.prog.code[|r2.code|].i) == !q.inRepeat
            && Operands(g.prog.code, l, SIZE_OP_REPEAT) && Operands(g.prog.code, |r2.code|, SIZE_OP_REPEAT_INC)
            && EmptyExit(g.prog, |r2.code|, h) && h <= |g.prog.code|
  {
    hide Add, EmptyExit;
    var code := g.prog.code;
    var id := |r.ranges|;
    var addr := |r2.code| - |r1.code| + SIZE_OP_REPEAT_INC;
    var open := if q.greedy then OpRepeat(id, addr) else OpRepeatNg(id, addr);
    var inc := RepeatIncInstr(q, id);
    var r0 := Add(r, open, SIZE_OP_REPEAT);
    var r3 := Add(r2, inc, SIZE_OP_REPEAT_INC);
    PlacedDown(g, r2, r3); PlacedDown(g, r1, r2);
    ClosingExit(g, r2, inc, SIZE_OP_REPEAT_INC);
    AddCells(code, r2, inc, SIZE_OP_REPEAT_INC);
    assert r0.code == r1.code;
    AddCells(code, r, open, SIZE_OP_REPEAT);
  }

  /** A counter around a body in which nothing uses the table. */
  ghost predicate Around(g: Image, a: int, c: int, id: nat, r2: nat, sg: bool) {
    && Closes(g.prog.code, a, c) && CounterId(g.prog.code[a].i) == id
    && Operands(g.prog.code, a, SIZE_OP_REPEAT) && Operands(g.prog.code, c, SIZE_OP_REPEAT_INC)
    && (sg ==> !TableInc(g.prog.code[c].i))
    && Part(g, a + SIZE_OP_REPEAT, c, a + SIZE_OP_REPEAT, c + SIZE_OP_REPEAT_INC, id + 1, r2, true)
  }

  /** Its instructions: the two ends and those of the body. */
  lemma AroundSpot(g: Image, a: int, c: int, id: nat, r2: nat, sg: bool, i: int)
    requires Around(g, a, c, id, r2, sg) && a <= i < c + SIZE_OP_REPEAT_INC && At(g.prog.code, i)
    ensures i == a || i == c ||
            (a + SIZE_OP_REPEAT <= i < c
             && CellOk(g, i, a + SIZE_OP_REPEAT, c + SIZE_OP_REPEAT_INC, id + 1, r2, true))
  {
    hide CellOk, Closes, Apart, NoReturn;
  }

  lemma AroundEnds(g: Image, a: int, c: int, id: nat, r2: nat, sg: bool)
    requires Around(g, a, c, id, r2, sg)
    ensures Closes(g.prog.code, a, c) && CounterId(g.prog.code[a].i) == id && id < r2
    ensures c + SIZE_OP_REPEAT_INC <= |g.prog.code| && (sg ==> !TableInc(g.prog.code[c].i))
  {
    hide CellOk, Apart, NoReturn, Operands;
  }

  lemma AroundCell(g: Image, a: int, c: int, id: nat, r2: nat, sg: bool, i: int)
    requires Around(g, a, c, id, r2, sg) && a <= i < c + SIZE_OP_REPEAT_INC && At(g.prog.code, i)
    ensures CellOk(g, i, a, c + SIZE_OP_REPEAT_INC, id, r2, sg)
  {
    hide Around, EmptyExit;
    AroundSpot(g, a, c, id, r2, sg, i);
    AroundEnds(g, a, c, id, r2, sg);
  }

  /** What an opener or a jump inside the body says of itself. */
  lemma AroundApart(g: Image, a: int, c: int, id: nat, r2: nat, sg: bool, i: int, k: int)
    requires Around(g, a, c, id, r2, sg) && a <= i < c + SIZE_OP_REPEAT_INC && a <= k < c + SIZE_OP_REPEAT_INC
    ensures Apart(g.prog.code, i, k)
  {
    if Opener(g.prog.code, i) && Opener(g.prog.code, k) {
      AroundEnds(g, a, c, id, r2, sg);
      AroundSpot(g, a, c, id, r2, sg, i);
      AroundSpot(g, a, c, id, r2, sg, k);
      if i != a && k != a { AroundInner(g, a, c, id, r2, sg, i, k); }
      hide Around, EmptyExit, MemBits;
    }
  }

  lemma AroundInner(g: Image, a: int, c: int, id: nat, r2: nat, sg: bool, i: int, k: int)
    requires Around(g, a, c, id, r2, sg) && a + SIZE_OP_REPEAT <= i < c && a + SIZE_OP_REPEAT <= k < c
    ensures Apart(g.prog.code, i, k)
  {
    hide CellOk, Closes, Apart, NoReturn, Operands, Opener;
  }

  lemma AroundNoReturn(g: Image, a: int, c: int, id: nat, r2: nat, sg: bool, i: int, k: int)
    requires Around(g, a, c, id, r2, sg) && a <= i < c + SIZE_OP_REPEAT_INC && a <= k < c + SIZE_OP_REPEAT_INC
    ensures NoReturn(g.prog.code, i, k)
  {
    hide Around, EmptyExit, MemBits;
    if At(g.prog.code, i) && At(g.prog.code, k) {
      AroundEnds(g, a, c, id, r2, sg);
      AroundSpot(g, a, c, id, r2, sg, i);
      AroundSpot(g, a, c, id, r2, sg, k);
    }
  }

  lemma AroundFrag(g: Image, a: int, c: int, id: nat, r2: nat, sg: bool)
    requires Around(g, a, c, id, r2, sg)
    ensures Frag(g, a, c + SIZE_OP_REPEAT_INC, id, r2, sg)
  {
    hide Around, CellOk, Apart, NoReturn;
    var code, h := g.prog.code, c + SIZE_OP_REPEAT_INC;
    AroundEnds(g, a, c, id, r2, sg);
    forall i | a <= i < h && At(code, i) ensures CellOk(g, i, a, h, id, r2, sg) { AroundCell(g, a, c, id, r2, sg, i); }
    forall i | a <= i < h && Opener(code, i) && !sg ensures Target(code[i].i, i).value <= h {
      AroundCell(g, a, c, id, r2, sg, i); CellInside(g, i, a, h, id, r2, sg);
    }
    forall i, k | a <= i < h && a <= k < h ensures Apart(code, i, k) { AroundApart(g, a, c, id, r2, sg, i, k); }
    forall i, k | a <= i < h && a <= k < h ensures NoReturn(code, i, k) { AroundNoReturn(g, a, c, id, r2, sg, i, k); }
  }

  lemma CellInside(g: Image, a: int, lo: int, hi: int, r0: nat, r1: nat, sg: bool)
    requires At(g.prog.code, a) && CellOk(g, a, lo, hi, r0, r1, sg) && Target(g.prog.code[a].i, a).Some?
    ensures Target(g.prog.code[a].i, a).value <= hi
  {
  }

  lemma CounterFrag(g: Image, t: Node, q: Rep, ml: bool, r: Reg, sg: bool)
    requires Formed(t) && RepOk(q) && Marked(t, true) && (sg ==> q.inRepeat)
             && Placed(g, CompileCounter(t, q, ml, g.cfg, r))
    ensures FragOf(g, r, CompileCounter(t, q, ml, g.cfg, r), sg)
    decreases t, 4, 0
  {
    hide Formed, RepOk, Marked, CompileCounter, CompileTree, CompileEmptyCheck, CompileLength, FragOf, Ext;
    hide RepeatIncInstr, Add, CounterHead, Placed, ModLen;
    var r1 := CounterHead(q, ModLen(q.emptyInfo, CompileLength(t, g.cfg)) + SIZE_OP_REPEAT_INC, r);
    CounterIs(t, q, ml, g.cfg, r);
    CounterParts(g, t, q, ml, r, r1, CompileEmptyCheck(t, q.emptyInfo, ml, g.cfg, r1), sg);
  }

  lemma CounterParts(g: Image, t: Node, q: Rep, ml: bool, r: Reg, r1: Reg, r2: Reg, sg: bool)
    requires Formed(t) && RepOk(q) && Marked(t, true) && (sg ==> q.inRepeat)
    requires r1 == CounterHead(q, ModLen(q.emptyInfo, CompileLength(t, g.cfg)) + SIZE_OP_REPEAT_INC, r)
    requires r2 == CompileEmptyCheck(t, q.emptyInfo, ml, g.cfg, r1)
    requires Placed(g, Add(r2, RepeatIncInstr(q, |r.ranges|), SIZE_OP_REPEAT_INC))
    ensures FragOf(g, r, Add(r2, RepeatIncInstr(q, |r.ranges|), SIZE_OP_REPEAT_INC), sg)
    decreases t, 3, 0
  {
    hide Formed, RepOk, Marked, CompileTree, CompileEmptyCheck, CompileLength, Part, Boundary, Add, Ext, EmptyExit;
    hide Placed, CounterHead, RepeatIncInstr, Operands, Frag;
    var r3 := Add(r2, RepeatIncInstr(q, |r.ranges|), SIZE_OP_REPEAT_INC);
    CounterEnds(g, q, r, r1, r2);
    PlacedDown(g, r2, r3);
    CheckPart(g, t, q.emptyInfo, ml, r1, |r1.code|, |r3.code|);
    AroundFrag(g, |r.code|, |r2.code|, |r.ranges|, |r2.ranges|, sg);
  }

  lemma QuantFrag(g: Image, t: Node, q: Rep, ml: bool, r: Reg, sg: bool)
    requires Formed(t) && RepOk(q) && Marked(t, true) && (sg ==> q.inRepeat)
             && Placed(g, CompileQuant(t, q, ml, g.cfg, r))
    ensures FragOf(g, r, CompileQuant(t, q, ml, g.cfg, r), sg)
    decreases t, 5, 0
  {
    hide Formed, Marked, CompileTree, CompileTimes, CompileOptional, CompileLength, CompilePushLoop, CompileLazyLoop;
    hide CompileCounter, CompileAnycharStar, CompileSkipped, CompileLazyOption, FragOf, Ext, Placed;
    match FormOf(t, q, CompileLength(t, g.cfg))
    case AnycharStar => StarFrag(g, t, q, ml, r, sg);
    case PushLoop => PushLoopFrag(g, t, q, ml, r); AnyOf(g, r, CompilePushLoop(t, q, ml, g.cfg, r), sg);
    case LazyLoop => LazyLoopFrag(g, t, q, ml, r); AnyOf(g, r, CompileLazyLoop(t, q, ml, g.cfg, r), sg);
    case Skipped => SkippedFrag(g, t, ml, r, sg);
    case Copies => CopiesFrag(g, t, q.lower, q.upper - q.lower, ml, r, sg);
    case LazyOption => LazyOptionFrag(g, t, ml, r, sg);
    case Counter => CounterFrag(g, t, q, ml, r, sg);
  }

  lemma AnyOf(g: Image, r: Reg, r': Reg, sg: bool)
    requires FragOf(g, r, r', true)
    ensures FragOf(g, r, r', sg)
  {
    FragAny(g, |r.code|, |r'.code|, |r.ranges|, |r'.ranges|, sg);
  }

  lemma StarFrag(g: Image, t: Node, q: Rep, ml: bool, r: Reg, sg: bool)
    requires Formed(t) && RepOk(q) && Marked(t, true) && Placed(g, CompileAnycharStar(t, q, ml, g.cfg, r))
    ensures FragOf(g, r, CompileAnycharStar(t, q, ml, g.cfg, r), sg)
    decreases t, 4, 0
  {
    var r1 := CompileTimes(t, q.lower, ml, g.cfg, r);
    var r2 := CompileAnycharStar(t, q, ml, g.cfg, r);
    PlacedDown(g, r1, r2);
    if q.nextHead.Some? {
      PlainFrag(g, r1, OpAnyCharStarPeekNext(ml, q.nextHead.value[0]), SIZE_OPCODE + 1, |r1.ranges|, true);
    } else {
      PlainFrag(g, r1, OpAnyCharStar(ml), SIZE_OPCODE, |r1.ranges|, true);
    }
    hide Frag, Formed, Marked, CompileTimes, CompileLength, CompileAnycharStar;
    TimesFrag(g, t, q.lower, ml, r, true);
    SeqOf(g, r, r1, r2, true);
    AnyOf(g, r, r2, sg);
  }

  lemma SkippedFrag(g: Image, t: Node, ml: bool, r: Reg, sg: bool)
    requires Formed(t) && Marked(t, true) && Placed(g, CompileSkipped(t, ml, g.cfg, r))
    ensures FragOf(g, r, CompileSkipped(t, ml, g.cfg, r), sg)
    decreases t, 4, 0
  {
    hide Frag, Formed, Marked, CompileTree, CompileLength, Ext;
    var jump := OpJump(CompileLength(t, g.cfg));
    var r1 := Add(r, jump, SIZE_OP_JUMP);
    var r2 := CompileTree(t, ml, g.cfg, r1);
    PlacedDown(g, r1, r2);
    TreeFrag(g, t, ml, r1, true);
    JumpPast(g, r, jump, SIZE_OP_JUMP, r1, r2, true);
    AnyOf(g, r, r2, sg);
  }

  lemma CopiesFrag(g: Image, t: Node, lower: nat, more: nat, ml: bool, r: Reg, sg: bool)
    requires Formed(t) && Marked(t, true)
    requires Placed(g, CompileOptional(t, more, ml, g.cfg, CompileTimes(t, lower, ml, g.cfg, r)))
    ensures FragOf(g, r, CompileOptional(t, more, ml, g.cfg, CompileTimes(t, lower, ml, g.cfg, r)), sg)
    decreases t, 4, 0
  {
    hide Formed, Marked, CompileTimes, CompileOptional, CompileLength, FragOf, PartOf, Boundary, Ext;
    var r1 := CompileTimes(t, lower, ml, g.cfg, r);
    var r2 := CompileOptional(t, more, ml, g.cfg, r1);
    PlacedDown(g, r1, r2);
    TimesFrag(g, t, lower, ml, r, true);
    OptionalPart(g, t, more, ml, r1, |r1.code|, |r2.code|, true);
    Close(g, r1, r2, true);
    SeqOf(g, r, r1, r2, true);
    AnyOf(g, r, r2, sg);
  }

  lemma LazyOptionFrag(g: Image, t: Node, ml: bool, r: Reg, sg: bool)
    requires Formed(t) && Marked(t, true) && Placed(g, CompileLazyOption(t, ml, g.cfg, r))
    ensures FragOf(g, r, CompileLazyOption(t, ml, g.cfg, r), sg)
    decreases t, 4, 0
  {
    hide Formed, Marked, CompileTree, CompileLength, Frag, Part, FragOf, PartOf, Ext, Placed, Add, At, Boundary;
    var push, jump := OpPush(SIZE_OP_JUMP), OpJump(CompileLength(t, g.cfg));
    var r1 := Add(r, push, SIZE_OP_PUSH);
    var r2 := Add(r1, jump, SIZE_OP_JUMP);
    var r3 := CompileTree(t, ml, g.cfg, r2);
    var l, h := |r.code|, |r3.code|;
    PlacedDown(g, r2, r3); PlacedDown(g, r1, r2);
    TreeFrag(g, t, ml, r2, true);
    EndBoundary(g.prog.code, h);
    Inside(g, r2, r3, l, h, true);
    JumpOne(g, r1, jump, SIZE_OP_JUMP, l, h);
    JumpOne(g, r, push, SIZE_OP_PUSH, l, h);
    Seq(g, r, r1, r2, l, h, true);
    Seq(g, r, r2, r3, l, h, true);
    Close(g, r, r3, true);
    AnyOf(g, r, r3, sg);
  }

  // ----- the other nodes -----

  lemma GroupFrag(g: Image, k: nat, b: Node, ml: bool, r: Reg, sg: bool)
    requires Formed(b) && Marked(b, sg) && Placed(g, CompileGroup(k, b, ml, g.cfg, r))
    ensures FragOf(g, r, CompileGroup(k, b, ml, g.cfg, r), sg)
    decreases b, 4, 0
  {
    hide Formed, Marked, CompileTree, CompileLength, Frag, Part, FragOf, PartOf, Ext, Placed, Add, At;
    var open := if k in g.cfg.btMemStart then OpMemoryStartPush(k) else OpMemoryStart(k);
    var close := if k in g.cfg.btMemEnd then OpMemoryEndPush(k) else OpMemoryEnd(k);
    var r1 := Add(r, open, SIZE_OP_MEMORY_START);
    var r2 := CompileTree(b, ml, g.cfg, r1);
    var r3 := Add(r2, close, SIZE_OP_MEMORY_END);
    PlacedDown(g, r2, r3);
    TreeFrag(g, b, ml, r1, sg);
    Bracket(g, r, open, SIZE_OP_MEMORY_START, r1, r2, close, SIZE_OP_MEMORY_END, r3, sg);
  }

  lemma AtomicFrag(g: Image, b: Node, ml: bool, r: Reg, sg: bool)
    requires Formed(b) && Marked(b, sg) && Placed(g, CompileAtomic(b, ml, g.cfg, r))
    ensures FragOf(g, r, CompileAtomic(b, ml, g.cfg, r), sg)
    decreases b, 4, 0
  {
    hide Formed, Marked, CompileTree, CompileLength, Frag, Part, FragOf, PartOf, Ext, Placed, Add, At;
    var r1 := Add(r, OpPushStopBt, SIZE_OP_PUSH_STOP_BT);
    var r2 := CompileTree(b, ml, g.cfg, r1);
    var r3 := Add(r2, OpPopStopBt, SIZE_OP_POP_STOP_BT);
    PlacedDown(g, r2, r3);
    TreeFrag(g, b, ml, r1, sg);
    Bracket(g, r, OpPushStopBt, SIZE_OP_PUSH_STOP_BT, r1, r2, OpPopStopBt, SIZE_OP_POP_STOP_BT, r3, sg);
  }

  lemma SimpleFrag(g: Image, t: Node, lower: nat, ml: bool, r: Reg, sg: bool)
    requires Formed(t) && Marked(t, true) && Placed(g, CompileSimpleRepeat(t, lower, ml, g.cfg, r))
    ensures FragOf(g, r, CompileSimpleRepeat(t, lower, ml, g.cfg, r), sg)
    decreases t, 4, 0
  {
    hide Formed, Marked, CompileTree, CompileLength, Frag, Part, FragOf, PartOf, Ext, Placed, Add, At, CompileTimes;
    hide Boundary;
    var tlen := CompileLength(t, g.cfg);
    var push := OpPush(tlen + SIZE_OP_POP + SIZE_OP_JUMP);
    var jump := OpJump(-(SIZE_OP_PUSH + tlen + SIZE_OP_POP + SIZE_OP_JUMP));
    var r1 := CompileTimes(t, lower, ml, g.cfg, r);
    var r2 := Add(r1, push, SIZE_OP_PUSH);
    var r3 := CompileTree(t, ml, g.cfg, r2);
    var r4 := Add(r3, OpPop, SIZE_OP_POP);
    var r5 := Add(r4, jump, SIZE_OP_JUMP);
    var l, h := |r1.code|, |r5.code|;
    PlacedDown(g, r4, r5); PlacedDown(g, r3, r4); PlacedDown(g, r2, r3); PlacedDown(g, r1, r2);
    TreeFrag(g, t, ml, r2, true);
    TimesFrag(g, t, lower, ml, r, true);
    PopPart(g, r3, l, h);
    EndBoundary(g.prog.code, h);
    JumpOne(g, r1, push, SIZE_OP_PUSH, l, h);
    JumpOne(g, r4, jump, SIZE_OP_JUMP, l, h);
    Inside(g, r2, r3, l, h, true);
    Seq(g, r1, r2, r3, l, h, true);
    Seq(g, r1, r3, r4, l, h, true);
    Seq(g, r1, r4, r5, l, h, true);
    Close(g, r1, r5, true);
    SeqOf(g, r, r1, r5, true);
    AnyOf(g, r, r5, sg);
  }

  lemma PopPart(g: Image, r: Reg, l: int, h: int)
    requires Placed(g, Add(r, OpPop, SIZE_OP_POP)) && 0 <= l <= |r.code| && |r.code| + SIZE_OP_POP <= h <= |g.prog.code|
    ensures PartOf(g, r, Add(r, OpPop, SIZE_OP_POP), l, h, true) && Boundary(g.prog.code, |r.code|, h)
  {
    PlainPart(g, r, OpPop, SIZE_OP_POP, l, h, |r.ranges|, true);
  }

  lemma PrecReadFrag(g: Image, len: nat, b: Node, ml: bool, r: Reg, sg: bool)
    requires Formed(b) && Marked(b, sg) && Placed(g, CompileLook(PrecRead, len, b, ml, g.cfg, r))
    ensures FragOf(g, r, CompileLook(PrecRead, len, b, ml, g.cfg, r), sg)
    decreases b, 3, 0
  {
    hide Formed, Marked, CompileTree, CompileLength, Frag, Part, FragOf, PartOf, Ext, Placed, Add, At;
    var open := OpPushPos;
    var r1 := Add(r, open, SIZE_OP_PUSH_POS);
    var r2 := CompileTree(b, ml, g.cfg, r1);
    var r3 := Add(r2, OpPopPos, SIZE_OP_POP_POS);
    PlacedDown(g, r2, r3);
    TreeFrag(g, b, ml, r1, sg);
    Bracket(g, r, open, SIZE_OP_PUSH_POS, r1, r2, OpPopPos, SIZE_OP_POP_POS, r3, sg);
  }

  lemma PrecReadNotFrag(g: Image, len: nat, b: Node, ml: bool, r: Reg, sg: bool)
    requires Formed(b) && Marked(b, sg) && Placed(g, CompileLook(PrecReadNot, len, b, ml, g.cfg, r))
    ensures FragOf(g, r, CompileLook(PrecReadNot, len, b, ml, g.cfg, r), sg)
    decreases b, 3, 0
  {
    hide Formed, Marked, CompileTree, CompileLength, Frag, Part, FragOf, PartOf, Ext, Placed, Add, At;
    var open := OpPushPosNot(CompileLength(b, g.cfg) + SIZE_OP_FAIL_POS);
    var r1 := Add(r, open, SIZE_OP_PUSH_POS_NOT);
    var r2 := CompileTree(b, ml, g.cfg, r1);
    var r3 := Add(r2, OpFailPos, SIZE_OP_FAIL_POS);
    PlacedDown(g, r2, r3);
    TreeFrag(g, b, ml, r1, sg);
    JumpOver(g, r, open, SIZE_OP_PUSH_POS_NOT, r1, r2, OpFailPos, SIZE_OP_FAIL_POS, r3, sg);
  }

  lemma LookBehindNotFrag(g: Image, len: nat, b: Node, ml: bool, r: Reg, sg: bool)
    requires Formed(b) && Marked(b, sg) && Placed(g, CompileLook(LookBehindNot, len, b, ml, g.cfg, r))
    ensures FragOf(g, r, CompileLook(LookBehindNot, len, b, ml, g.cfg, r), sg)
    decreases b, 3, 0
  {
    hide Formed, Marked, CompileTree, CompileLength, Frag, Part, FragOf, PartOf, Ext, Placed, Add, At;
    var open := OpPushLookBehindNot(CompileLength(b, g.cfg) + SIZE_OP_FAIL_LOOK_BEHIND_NOT, len);
    var r1 := Add(r, open, SIZE_OP_PUSH_LOOK_BEHIND_NOT);
    var r2 := CompileTree(b, ml, g.cfg, r1);
    var r3 := Add(r2, OpFailLookBehindNot, SIZE_OP_FAIL_LOOK_BEHIND_NOT);
    PlacedDown(g, r2, r3);
    TreeFrag(g, b, ml, r1, sg);
    JumpOver(g, r, open, SIZE_OP_PUSH_LOOK_BEHIND_NOT, r1, r2, OpFailLookBehindNot, SIZE_OP_FAIL_LOOK_BEHIND_NOT, r3,
             sg);
  }

  lemma LookFrag(g: Image, k: LookKind, len: nat, b: Node, ml: bool, r: Reg, sg: bool)
    requires Formed(b) && Marked(b, sg) && Placed(g, CompileLook(k, len, b, ml, g.cfg, r))
    ensures FragOf(g, r, CompileLook(k, len, b, ml, g.cfg, r), sg)
    decreases b, 4, 0
  {
    hide *;
    match k
    case PrecRead => PrecReadFrag(g, len, b, ml, r, sg);
    case PrecReadNot => PrecReadNotFrag(g, len, b, ml, r, sg);
    case LookBehind => LookBehindFrag(g, len, b, ml, r, sg);
    case LookBehindNot => LookBehindNotFrag(g, len, b, ml, r, sg);
  }

  lemma LookBehindFrag(g: Image, len: nat, b: Node, ml: bool, r: Reg, sg: bool)
    requires Formed(b) && Marked(b, sg) && Placed(g, CompileLook(LookBehind, len, b, ml, g.cfg, r))
    ensures FragOf(g, r, CompileLook(LookBehind, len, b, ml, g.cfg, r), sg)
    decreases b, 3, 0
  {
    hide Formed, Marked, CompileTree, CompileLength, Frag, Part, FragOf, PartOf, Ext, Placed, Add, At;
    var open := OpLookBehind(len);
    var r1 := Add(r, open, SIZE_OP_LOOK_BEHIND);
    var r2 := CompileTree(b, ml, g.cfg, r1);
    PlacedDown(g, r1, r2);
    TreeFrag(g, b, ml, r1, sg);
    PlainFrag(g, r, open, SIZE_OP_LOOK_BEHIND, |r.ranges|, sg);
    SeqOf(g, r, r1, r2, sg);
  }

  lemma {:induction false} ListFrag(g: Image, ns: Nodes, ml: bool, r: Reg, sg: bool)
    requires AllFormed(ns) && AllMarked(ns, sg) && Placed(g, CompileList(ns, ml, g.cfg, r))
    ensures FragOf(g, r, CompileList(ns, ml, g.cfg, r), sg)
    decreases ns, 0, 0
  {
    hide Formed, Marked, CompileTree, CompileLength, FragOf, Ext;
    match ns
    case Last(n) => TreeFrag(g, n, ml, r, sg);
    case Cons(n, rest) =>
      var r1 := CompileTree(n, ml, g.cfg, r);
      var r2 := CompileList(rest, ml, g.cfg, r1);
      PlacedDown(g, r1, r2);
      TreeFrag(g, n, ml, r, sg);
      ListFrag(g, rest, ml, r1, sg);
      SeqOf(g, r, r1, r2, sg);
  }

  /** The alternatives from one on: their jumps go to the common end. */
  lemma {:induction false} AltPart(g: Image, ns: Nodes, ml: bool, goal: int, r: Reg, l: int, sg: bool)
    requires AllFormed(ns) && AllMarked(ns, sg) && Placed(g, CompileAlt(ns, ml, g.cfg, goal, r)) && 0 <= l <= |r.code|
    requires goal == |CompileAlt(ns, ml, g.cfg, goal, r).code|
    ensures PartOf(g, r, CompileAlt(ns, ml, g.cfg, goal, r), l, goal, sg) && Boundary(g.prog.code, |r.code|, goal)
    decreases ns, 0, 0
  {
    hide Formed, Marked, CompileTree, CompileLength, FragOf, PartOf, Ext, Boundary;
    match ns
    case Last(n) =>
      TreeFrag(g, n, ml, r, sg);
      EndBoundary(g.prog.code, goal);
      Inside(g, r, CompileTree(n, ml, g.cfg, r), l, goal, sg);
    case Cons(n, rest) =>
      var r3 := CompileBranch(n, ml, g.cfg, goal, r);
      var r4 := CompileAlt(rest, ml, g.cfg, goal, r3);
      PlacedDown(g, r3, r4);
      AltPart(g, rest, ml, goal, r3, l, sg);
      BranchPart(g, n, ml, goal, r, l, sg);
      Seq(g, r, r3, r4, l, goal, sg);
  }

  lemma BranchPart(g: Image, n: Node, ml: bool, goal: int, r: Reg, l: int, sg: bool)
    requires Formed(n) && Marked(n, sg) && Placed(g, CompileBranch(n, ml, g.cfg, goal, r)) && 0 <= l <= |r.code|
    requires var e := |CompileBranch(n, ml, g.cfg, goal, r).code|;
             e <= goal <= |g.prog.code| && Boundary(g.prog.code, e, goal)
    ensures PartOf(g, r, CompileBranch(n, ml, g.cfg, goal, r), l, goal, sg) && Boundary(g.prog.code, |r.code|, goal)
    decreases n, 2, 0
  {
    hide Formed, Marked, CompileTree, CompileLength, FragOf, PartOf, Ext, Boundary, Add;
    var push := OpPush(CompileLength(n, g.cfg) + SIZE_OP_JUMP);
    var r1 := Add(r, push, SIZE_OP_PUSH);
    var r2 := CompileTree(n, ml, g.cfg, r1);
    var jump := OpJump(goal - (|r2.code| + SIZE_OP_JUMP));
    var r3 := Add(r2, jump, SIZE_OP_JUMP);
    PlacedDown(g, r2, r3); PlacedDown(g, r1, r2);
    EndBoundary(g.prog.code, goal);
    ForwardOne(g, r2, jump, SIZE_OP_JUMP, l, goal, sg);
    ForwardOne(g, r, push, SIZE_OP_PUSH, l, goal, sg);
    TreeFrag(g, n, ml, r1, sg);
    Inside(g, r1, r2, l, goal, sg);
    Seq(g, r, r1, r2, l, goal, sg);
    Seq(g, r, r2, r3, l, goal, sg);
  }

  lemma ForwardOne(g: Image, r: Reg, i: Instr, size: nat, l: int, h: int, sg: bool)
    requires size >= 1 && Placed(g, Add(r, i, size)) && Jumps(i) && 0 <= l <= |r.code|
             && |r.code| + size <= h <= |g.prog.code|
    requires |r.code| <= Target(i, |r.code|).value <= h && Boundary(g.prog.code, Target(i, |r.code|).value, h)
    ensures PartOf(g, r, Add(r, i, size), l, h, sg) && Boundary(g.prog.code, |r.code|, h)
  {
    JumpPart(g, r, i, size, l, h, |r.ranges|, sg);
  }

  /** The layout of every compiled tree. */
  lemma {:induction false} TreeFrag(g: Image, n: Node, ml: bool, r: Reg, sg: bool)
    requires Formed(n) && Marked(n, sg) && Placed(g, CompileTree(n, ml, g.cfg, r))
    ensures FragOf(g, r, CompileTree(n, ml, g.cfg, r), sg)
    decreases n, 1, 0
  {
    hide Placed, FragOf, CompileList, CompileAlt, CompileGroup, CompileAtomic, CompileLook, CompileQuant;
    hide CompileSimpleRepeat, CompileString, CompileCClass, CompileAnchor, Ext, CompileLength, AltLength, PartOf, Add,
      Boundary;
    match n
    case Str(s) => StringFrag(g, s, r, sg);
    case CClass(_, _, _, _) => CClassFrag(g, n, r, sg);
    case CType(not) => LeafFrag(g, if not then OpNotWord else OpWord, r, sg);
    case AnyChar => LeafFrag(g, OpAnyChar(ml), r, sg);
    case List(ns) => ListFrag(g, ns, ml, r, sg);
    case Alt(ns) =>
      AltPart(g, ns, ml, |r.code| + AltLength(ns, g.cfg), r, |r.code|, sg);
      Close(g, r, CompileTree(n, ml, g.cfg, r), sg);
    case Quant(t, q) => QuantFrag(g, t, q, ml, r, sg);
    case Group(k, b) => GroupFrag(g, k, b, ml, r, sg);
    case OptionNode(ml', b) => TreeFrag(g, b, ml', r, sg);
    case Atomic(simple, b) =>
      if simple { SimpleFrag(g, b.target, b.q.lower, ml, r, sg); } else { AtomicFrag(g, b, ml, r, sg); }
    case Anchor(k) => AnchorFrag(g, k, r, sg);
    case Look(k, len, b) => LookFrag(g, k, len, b, ml, r, sg);
  }
}
