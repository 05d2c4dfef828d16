/** The compiler as functions: predicted length, emitted code, repeat table
    (Dependencies/oniguruma5/regcomp.c). */
module Regcomp {
  import opened Regint
  import opened Regparse

  /** Fixed for one compilation: groups that need undo entries, the platform switch, and the number of groups. */
  datatype Cfg = Cfg(btMemStart: set<nat>, btMemEnd: set<nat>, unaligned: bool, numMem: nat := 0)

  /** The part of regex_t that compilation extends. reg->num_repeat is |ranges|. */
  datatype Reg = Reg(code: Program, ranges: seq<Range>, numNull: nat)

  ghost predicate Ext(r: Reg, r': Reg) {
    && r.code <= r'.code
    && r.ranges <= r'.ranges
    && r.numNull <= r'.numNull
  }

  lemma ExtTrans(a: Reg, b: Reg, c: Reg)
    requires Ext(a, b) && Ext(b, c)
    ensures Ext(a, c)
  {
  }

  lemma ExtSelf(a: Reg)
    ensures Ext(a, a)
  {
  }

  /** Appends an opcode with operands, size bytes in all. */
  function Add(r: Reg, i: Instr, size: nat): (r': Reg)
    requires size >= 1
    ensures Ext(r, r') && |r'.code| == |r.code| + size
    ensures r'.code[|r.code|] == Op(i) && r'.ranges == r.ranges && r'.numNull == r.numNull
  {
    r.(code := r.code + Emit(i, size))
  }

  // ----- strings and classes -----

  function SelectStr(s: seq<byte>): Instr
    requires s != []
  {
    if |s| == 1 then OpExact1(s[0]) else if |s| <= 5 then OpExactK(s) else OpExactN(s)
  }

  predicate NeedStrLen(strLen: nat) { strLen > 5 }

  function StringLength(strLen: nat): nat {
    if strLen == 0 then 0
    else SIZE_OPCODE + (if NeedStrLen(strLen) then SIZE_LENGTH else 0) + strLen
  }

  function MbPad(cfg: Cfg): nat { if cfg.unaligned then 0 else WORD_ALIGNMENT_SIZE - 1 }

  function CClassInstr(n: Node, cfg: Cfg): Instr
    requires n.CClass?
  {
    if n.share then OpCClassNode(n.bs, n.neg)
    else if n.mbuf.None? then (if n.neg then OpCClassNot(n.bs) else OpCClass(n.bs))
    else
      var tlen := n.mbuf.value + MbPad(cfg);
      if n.bs == {} then (if n.neg then OpCClassMbNot(tlen) else OpCClassMb(tlen))
      else (if n.neg then OpCClassMixNot(n.bs, tlen) else OpCClassMix(n.bs, tlen))
  }

  function CClassLength(n: Node, cfg: Cfg): nat
    requires n.CClass?
  {
    if n.share then SIZE_OPCODE + SIZE_POINTER
    else if n.mbuf.None? then SIZE_OPCODE + SIZE_BITSET
    else
      (if n.bs == {} then SIZE_OPCODE else SIZE_OPCODE + SIZE_BITSET)
      + SIZE_LENGTH + n.mbuf.value + MbPad(cfg)
  }

  function AnchorInstr(k: AnchorKind): Instr {
    match k
    case BeginBuf => OpBeginBuf
    case EndBuf => OpEndBuf
    case EndLine => OpEndLine
    case SemiEndBuf => OpSemiEndBuf
    case BeginPosition => OpBeginPosition
  }

  // ----- quantifier forms -----

  /** The code shapes compile_quantifier_node chooses between. */
  datatype Form =
    | AnycharStar   // ANYCHAR_STAR
    | PushLoop      // PUSH body JUMP
    | LazyLoop      // JUMP body PUSH
    | Skipped       // JUMP over a body that is only called
    | Copies        // the body inline, the optional ones behind PUSH
    | LazyOption    // ??
    | Counter       // OP_REPEAT

  function FormOf(target: Node, q: Rep, tlen: nat): Form {
    if q.greedy && Infinite(q.upper) && target.AnyChar? then AnycharStar
    else if Infinite(q.upper) && (q.lower <= 1 || tlen * q.lower <= QUANTIFIER_EXPAND_LIMIT_SIZE) then
      (if q.greedy then PushLoop else LazyLoop)
    else if q.upper == 0 && q.isRefered then Skipped
    else if !Infinite(q.upper) && q.greedy
         && (q.upper == 1 || (tlen + SIZE_OP_PUSH) * q.upper <= QUANTIFIER_EXPAND_LIMIT_SIZE) then Copies
    else if !q.greedy && q.upper == 1 && q.lower == 0 then LazyOption
    else Counter
  }

  /** {1,} on a long body: jump into the loop instead of copying the body. */
  predicate JumpIn(q: Rep, tlen: nat) {
    q.lower == 1 && tlen > QUANTIFIER_EXPAND_LIMIT_SIZE
  }

  function ModLen(info: EmptyInfo, tlen: nat): nat {
    if info != IsNotEmpty then tlen + (SIZE_OP_NULL_CHECK_START + SIZE_OP_NULL_CHECK_END) else tlen
  }

  /** Bounds in order; set-up stores head nodes with at least one byte, never an empty string. */
  predicate RepOk(q: Rep) {
    && (Infinite(q.upper) || q.lower <= q.upper)
    && (q.headExact.Some? ==> q.headExact.value != [])
    && (q.nextHead.Some? ==> q.nextHead.value != [])
  }

  /** The instruction at the head of a PUSH loop. */
  function LoopHead(q: Rep, addr: int): Instr
    requires RepOk(q)
  {
    if q.headExact.Some? then OpPushOrJumpExact1(addr, q.headExact.value[0])
    else if q.nextHead.Some? then OpPushIfPeekNext(addr, q.nextHead.value[0])
    else OpPush(addr)
  }

  function LoopHeadLength(q: Rep): nat {
    if q.headExact.Some? then SIZE_OP_PUSH_OR_JUMP_EXACT1
    else if q.nextHead.Some? then SIZE_OP_PUSH_IF_PEEK_NEXT
    else SIZE_OP_PUSH
  }

  /** What the parser and tree set-up guarantee of every node. */
  predicate Formed(n: Node) {
    match n
    case List(ns) => AllFormed(ns)
    case Alt(ns) => AllFormed(ns)
    case Quant(t, q) => RepOk(q) && Formed(t)
    case Group(_, b) => Formed(b)
    case OptionNode(_, b) => Formed(b)
    case Atomic(simple, b) => Formed(b) && (simple ==> b.Quant? && Formed(b.target))
    case Look(_, c, b) => Formed(b) && c >= 0
    case _ => true
  }

  predicate AllFormed(ns: Nodes) {
    match ns
    case Last(n) => Formed(n)
    case Cons(n, rest) => Formed(n) && AllFormed(rest)
  }

  // ----- compile_length_tree -----

  function CompileLength(n: Node, cfg: Cfg): nat
    requires Formed(n)
  {
    match n
    case Str(s) => StringLength(|s|)
    case CClass(_, _, _, _) => CClassLength(n, cfg)
    case CType(_) => SIZE_OPCODE
    case AnyChar => SIZE_OPCODE
    case List(ns) => ListLength(ns, cfg)
    case Alt(ns) => AltLength(ns, cfg)
    case Quant(t, q) => QuantLength(t, q, CompileLength(t, cfg))
    case Group(k, b) => SIZE_OP_MEMORY_START + CompileLength(b, cfg) + SIZE_OP_MEMORY_END
    case OptionNode(_, b) => CompileLength(b, cfg)
    case Atomic(simple, b) =>
      if simple then
        var tlen := CompileLength(b.target, cfg);
        tlen * b.q.lower + SIZE_OP_PUSH + tlen + SIZE_OP_POP + SIZE_OP_JUMP
      else SIZE_OP_PUSH_STOP_BT + CompileLength(b, cfg) + SIZE_OP_POP_STOP_BT
    case Anchor(_) => SIZE_OPCODE
    case Look(k, _, b) => LookLength(k, CompileLength(b, cfg))
  }

  function LookLength(k: LookKind, tlen: nat): nat {
    match k
    case PrecRead => SIZE_OP_PUSH_POS + tlen + SIZE_OP_POP_POS
    case PrecReadNot => SIZE_OP_PUSH_POS_NOT + tlen + SIZE_OP_FAIL_POS
    case LookBehind => SIZE_OP_LOOK_BEHIND + tlen
    case LookBehindNot => SIZE_OP_PUSH_LOOK_BEHIND_NOT + tlen + SIZE_OP_FAIL_LOOK_BEHIND_NOT
  }

  function ListLength(ns: Nodes, cfg: Cfg): nat
    requires AllFormed(ns)
  {
    match ns
    case Last(n) => CompileLength(n, cfg)
    case Cons(n, rest) => CompileLength(n, cfg) + ListLength(rest, cfg)
  }

  function AltLength(ns: Nodes, cfg: Cfg): nat
    requires AllFormed(ns)
  {
    match ns
    case Last(n) => CompileLength(n, cfg)
    case Cons(n, rest) => CompileLength(n, cfg) + (SIZE_OP_PUSH + SIZE_OP_JUMP) + AltLength(rest, cfg)
  }

  function LowerLength(q: Rep, tlen: nat): nat {
    if JumpIn(q, tlen) then SIZE_OP_JUMP else tlen * q.lower
  }

  function QuantLength(t: Node, q: Rep, tlen: nat): nat
    requires RepOk(q)
  {
    var modTlen := ModLen(q.emptyInfo, tlen);
    match FormOf(t, q, tlen)
    case AnycharStar => SIZE_OPCODE + (if q.nextHead.Some? then 1 else 0) + tlen * q.lower
    case PushLoop => LowerLength(q, tlen) + LoopHeadLength(q) + modTlen + SIZE_OP_JUMP
    case LazyLoop => LowerLength(q, tlen) + SIZE_OP_JUMP + modTlen + SIZE_OP_PUSH
    case Skipped => SIZE_OP_JUMP + tlen
    case Copies => tlen * q.lower + (SIZE_OP_PUSH + tlen) * (q.upper - q.lower)
    case LazyOption => SIZE_OP_PUSH + SIZE_OP_JUMP + tlen
    case Counter => SIZE_OP_REPEAT_INC + modTlen + SIZE_OPCODE + SIZE_RELADDR + SIZE_MEMNUM
  }

  // ----- compile_tree -----

  function UpperOf(q: Rep): int {
    if Infinite(q.upper) then INT_MAX_REPEAT else q.upper
  }

  function CompileString(s: seq<byte>, r: Reg): (r': Reg)
    ensures Ext(r, r') && |r'.code| == |r.code| + StringLength(|s|)
  {
    if s == [] then r else Add(r, SelectStr(s), StringLength(|s|))
  }

  function CompileCClass(n: Node, cfg: Cfg, r: Reg): (r': Reg)
    requires n.CClass?
    ensures Ext(r, r') && |r'.code| == |r.code| + CClassLength(n, cfg)
  {
    Add(r, CClassInstr(n, cfg), CClassLength(n, cfg))
  }

  function CompileAnchor(k: AnchorKind, r: Reg): (r': Reg)
    ensures Ext(r, r') && |r'.code| == |r.code| + SIZE_OPCODE
  {
    Add(r, AnchorInstr(k), SIZE_OPCODE)
  }

  /** The code of n appended to r. The length clause is the exactness every relative jump relies on. */
  function CompileTree(n: Node, ml: bool, cfg: Cfg, r: Reg): (r': Reg)
    requires Formed(n)
    ensures Ext(r, r') && |r'.code| == |r.code| + CompileLength(n, cfg)
    decreases n, 3, 0
  {
    match n
    case Str(s) => CompileString(s, r)
    case CClass(_, _, _, _) => CompileCClass(n, cfg, r)
    case CType(not) => if not then Add(r, OpNotWord, SIZE_OPCODE) else Add(r, OpWord, SIZE_OPCODE)
    case AnyChar => Add(r, OpAnyChar(ml), SIZE_OPCODE)
    case List(ns) => CompileList(ns, ml, cfg, r)
    case Alt(ns) => CompileAlt(ns, ml, cfg, |r.code| + AltLength(ns, cfg), r)
    case Quant(t, q) => CompileQuant(t, q, ml, cfg, r)
    case Group(k, b) => CompileGroup(k, b, ml, cfg, r)
    case OptionNode(ml', b) => CompileTree(b, ml', cfg, r)
    case Atomic(simple, b) =>
      if simple then CompileSimpleRepeat(b.target, b.q.lower, ml, cfg, r)
      else CompileAtomic(b, ml, cfg, r)
    case Anchor(k) => CompileAnchor(k, r)
    case Look(k, charLen, b) => CompileLook(k, charLen, b, ml, cfg, r)
  }

  function CompileGroup(k: nat, b: Node, ml: bool, cfg: Cfg, r: Reg): (r': Reg)
    requires Formed(b)
    ensures Ext(r, r') && |r'.code| == |r.code| + CompileLength(b, cfg) + SIZE_OP_MEMORY_START + SIZE_OP_MEMORY_END
    decreases b, 4, 0
  {
    var r1 := Add(r, if k in cfg.btMemStart then OpMemoryStartPush(k) else OpMemoryStart(k), SIZE_OP_MEMORY_START);
    var r2 := CompileTree(b, ml, cfg, r1);
    Add(r2, if k in cfg.btMemEnd then OpMemoryEndPush(k) else OpMemoryEnd(k), SIZE_OP_MEMORY_END)
  }

  function CompileAtomic(b: Node, ml: bool, cfg: Cfg, r: Reg): (r': Reg)
    requires Formed(b)
    ensures Ext(r, r') && |r'.code| == |r.code| + CompileLength(b, cfg) + SIZE_OP_PUSH_STOP_BT + SIZE_OP_POP_STOP_BT
    decreases b, 4, 0
  {
    var r1 := Add(r, OpPushStopBt, SIZE_OP_PUSH_STOP_BT);
    var r2 := CompileTree(b, ml, cfg, r1);
    Add(r2, OpPopStopBt, SIZE_OP_POP_STOP_BT)
  }

  function CompileSimpleRepeat(t: Node, lower: nat, ml: bool, cfg: Cfg, r: Reg): (r': Reg)
    requires Formed(t)
    ensures Ext(r, r')
    ensures var tlen := CompileLength(t, cfg);
            |r'.code| == |r.code| + tlen * lower + SIZE_OP_PUSH + tlen + SIZE_OP_POP + SIZE_OP_JUMP
    decreases t, 5, 0
  {
    var tlen := CompileLength(t, cfg);
    var r1 := CompileTimes(t, lower, ml, cfg, r);
    var r2 := Add(r1, OpPush(tlen + SIZE_OP_POP + SIZE_OP_JUMP), SIZE_OP_PUSH);
    var r3 := CompileTree(t, ml, cfg, r2);
    var r4 := Add(r3, OpPop, SIZE_OP_POP);
    Add(r4, OpJump(-(SIZE_OP_PUSH + tlen + SIZE_OP_POP + SIZE_OP_JUMP)), SIZE_OP_JUMP)
  }

  function CompileLook(k: LookKind, charLen: nat, b: Node, ml: bool, cfg: Cfg, r: Reg): (r': Reg)
    requires Formed(b)
    ensures Ext(r, r') && |r'.code| == |r.code| + LookLength(k, CompileLength(b, cfg))
    decreases b, 4, 0
  {
    var tlen := CompileLength(b, cfg);
    match k
    case PrecRead =>
      Add(CompileTree(b, ml, cfg, Add(r, OpPushPos, SIZE_OP_PUSH_POS)), OpPopPos, SIZE_OP_POP_POS)
    case PrecReadNot =>
      Add(CompileTree(b, ml, cfg, Add(r, OpPushPosNot(tlen + SIZE_OP_FAIL_POS), SIZE_OP_PUSH_POS_NOT)),
          OpFailPos, SIZE_OP_FAIL_POS)
    case LookBehind =>
      CompileTree(b, ml, cfg, Add(r, OpLookBehind(charLen), SIZE_OP_LOOK_BEHIND))
    case LookBehindNot =>
      Add(CompileTree(b, ml, cfg, Add(r, OpPushLookBehindNot(tlen + SIZE_OP_FAIL_LOOK_BEHIND_NOT, charLen),
                                   SIZE_OP_PUSH_LOOK_BEHIND_NOT)),
          OpFailLookBehindNot, SIZE_OP_FAIL_LOOK_BEHIND_NOT)
  }

  function CompileList(ns: Nodes, ml: bool, cfg: Cfg, r: Reg): (r': Reg)
    requires AllFormed(ns)
    ensures Ext(r, r') && |r'.code| == |r.code| + ListLength(ns, cfg)
    decreases ns, 0, 0
  {
    match ns
    case Last(n) => CompileTree(n, ml, cfg, r)
    case Cons(n, rest) => CompileList(rest, ml, cfg, CompileTree(n, ml, cfg, r))
  }

  /** goal is the address behind the whole alternation. */
  function CompileAlt(ns: Nodes, ml: bool, cfg: Cfg, goal: int, r: Reg): (r': Reg)
    requires AllFormed(ns)
    ensures Ext(r, r') && |r'.code| == |r.code| + AltLength(ns, cfg)
    decreases ns, 0, 0
  {
    match ns
    case Last(n) => CompileTree(n, ml, cfg, r)
    case Cons(n, rest) => CompileAlt(rest, ml, cfg, goal, CompileBranch(n, ml, cfg, goal, r))
  }

  function CompileBranch(n: Node, ml: bool, cfg: Cfg, goal: int, r: Reg): (r': Reg)
    requires Formed(n)
    ensures Ext(r, r') && |r'.code| == |r.code| + CompileLength(n, cfg) + (SIZE_OP_PUSH + SIZE_OP_JUMP)
    decreases n, 4, 0
  {
    var r1 := Add(r, OpPush(CompileLength(n, cfg) + SIZE_OP_JUMP), SIZE_OP_PUSH);
    var r2 := CompileTree(n, ml, cfg, r1);
    Add(r2, OpJump(goal - (|r2.code| + SIZE_OP_JUMP)), SIZE_OP_JUMP)
  }

  function CompileTimes(n: Node, k: nat, ml: bool, cfg: Cfg, r: Reg): (r': Reg)
    requires Formed(n)
    ensures Ext(r, r') && |r'.code| == |r.code| + CompileLength(n, cfg) * k
    decreases n, 4, k
  {
    if k == 0 then r else CompileTimes(n, k - 1, ml, cfg, CompileTree(n, ml, cfg, r))
  }

  /** The optional copies of {n,m}: m remaining ones, each behind a PUSH to the common end. */
  function CompileOptional(n: Node, m: nat, ml: bool, cfg: Cfg, r: Reg): (r': Reg)
    requires Formed(n)
    ensures Ext(r, r') && |r'.code| == |r.code| + (SIZE_OP_PUSH + CompileLength(n, cfg)) * m
    decreases n, 4, m
  {
    if m == 0 then r
    else
      var tlen := CompileLength(n, cfg);
      var r1 := Add(r, OpPush(m * tlen + (m - 1) * SIZE_OP_PUSH), SIZE_OP_PUSH);
      CompileOptional(n, m - 1, ml, cfg, CompileTree(n, ml, cfg, r1))
  }

  function CompileEmptyCheck(n: Node, info: EmptyInfo, ml: bool, cfg: Cfg, r: Reg): (r': Reg)
    requires Formed(n)
    ensures Ext(r, r') && |r'.code| == |r.code| + ModLen(info, CompileLength(n, cfg))
    decreases n, 4, 0
  {
    if info == IsNotEmpty then CompileTree(n, ml, cfg, r)
    else
      var r1 := Add(r, OpNullCheckStart(r.numNull), SIZE_OP_NULL_CHECK_START).(numNull := r.numNull + 1);
      var r2 := CompileTree(n, ml, cfg, r1);
      Add(r2, if info == IsEmpty then OpNullCheckEnd(r.numNull)
        else OpNullCheckEndMemst(r.numNull), SIZE_OP_NULL_CHECK_END)
  }

  /** The mandatory copies, or the jump that stands in for one. */
  function CompileLower(t: Node, q: Rep, skip: nat, ml: bool, cfg: Cfg, r: Reg): (r': Reg)
    requires Formed(t)
    ensures Ext(r, r') && |r'.code| == |r.code| + LowerLength(q, CompileLength(t, cfg))
    decreases t, 5, 0
  {
    if JumpIn(q, CompileLength(t, cfg)) then Add(r, OpJump(skip), SIZE_OP_JUMP)
    else CompileTimes(t, q.lower, ml, cfg, r)
  }

  function CompilePushLoop(t: Node, q: Rep, ml: bool, cfg: Cfg, r: Reg): (r': Reg)
    requires Formed(t) && RepOk(q)
    ensures Ext(r, r')
    ensures var tlen := CompileLength(t, cfg);
            |r'.code| == |r.code| + LowerLength(q, tlen) + LoopHeadLength(q) + ModLen(q.emptyInfo, tlen) + SIZE_OP_JUMP
    decreases t, 6, 0
  {
    var modTlen := ModLen(q.emptyInfo, CompileLength(t, cfg));
    var r1 := CompileLower(t, q, LoopHeadLength(q), ml, cfg, r);
    var r2 := Add(r1, LoopHead(q, modTlen + SIZE_OP_JUMP), LoopHeadLength(q));
    var r3 := CompileEmptyCheck(t, q.emptyInfo, ml, cfg, r2);
    Add(r3, OpJump(-(modTlen + SIZE_OP_JUMP + LoopHeadLength(q))), SIZE_OP_JUMP)
  }

  function CompileLazyLoop(t: Node, q: Rep, ml: bool, cfg: Cfg, r: Reg): (r': Reg)
    requires Formed(t) && RepOk(q)
    ensures Ext(r, r')
    ensures var tlen := CompileLength(t, cfg);
            |r'.code| == |r.code| + LowerLength(q, tlen) + SIZE_OP_JUMP + ModLen(q.emptyInfo, tlen) + SIZE_OP_PUSH
    decreases t, 6, 0
  {
    var modTlen := ModLen(q.emptyInfo, CompileLength(t, cfg));
    var r1 := CompileLower(t, q, SIZE_OP_JUMP, ml, cfg, r);
    var r2 := Add(r1, OpJump(modTlen), SIZE_OP_JUMP);
    var r3 := CompileEmptyCheck(t, q.emptyInfo, ml, cfg, r2);
    Add(r3, OpPush(-(modTlen + SIZE_OP_PUSH)), SIZE_OP_PUSH)
  }

  /** The opening of a counter and its entry in the table of ranges. */
  function CounterHead(q: Rep, addr: int, r: Reg): (r1: Reg)
    ensures Ext(r, r1) && |r1.code| == |r.code| + SIZE_OPCODE + SIZE_MEMNUM + SIZE_RELADDR
            && |r1.ranges| == |r.ranges| + 1
  {
    var id := |r.ranges|;
    Add(r, if q.greedy then OpRepeat(id, addr) else OpRepeatNg(id, addr), SIZE_OPCODE + SIZE_MEMNUM + SIZE_RELADDR)
    .(ranges := r.ranges + [Range(q.lower, UpperOf(q))])
  }

  function CompileCounter(t: Node, q: Rep, ml: bool, cfg: Cfg, r: Reg): (r': Reg)
    requires Formed(t) && RepOk(q)
    ensures Ext(r, r') && |r'.code| == |r.code| + SIZE_OP_REPEAT_INC + ModLen(q.emptyInfo, CompileLength(t, cfg))
                         + SIZE_OPCODE + SIZE_RELADDR + SIZE_MEMNUM
    decreases t, 6, 0
  {
    var id := |r.ranges|;
    var addr := ModLen(q.emptyInfo, CompileLength(t, cfg)) + SIZE_OP_REPEAT_INC;
    var r2 := CompileEmptyCheck(t, q.emptyInfo, ml, cfg, CounterHead(q, addr, r));
    Add(r2, RepeatIncInstr(q, id), SIZE_OP_REPEAT_INC)
  }

  function RepeatIncInstr(q: Rep, id: nat): Instr
  {
    if q.inRepeat then (if q.greedy then OpRepeatIncSg(id) else OpRepeatIncNgSg(id))
    else (if q.greedy then OpRepeatInc(id) else OpRepeatIncNg(id))
  }

  function CompileAnycharStar(t: Node, q: Rep, ml: bool, cfg: Cfg, r: Reg): (r': Reg)
    requires Formed(t) && RepOk(q)
    ensures Ext(r, r')
    ensures |r'.code| == |r.code| + SIZE_OPCODE + (if q.nextHead.Some? then 1 else 0) + CompileLength(t, cfg) * q.lower
    decreases t, 6, 0
  {
    var r1 := CompileTimes(t, q.lower, ml, cfg, r);
    if q.nextHead.Some? then Add(r1, OpAnyCharStarPeekNext(ml, q.nextHead.value[0]), SIZE_OPCODE + 1)
    else Add(r1, OpAnyCharStar(ml), SIZE_OPCODE)
  }

  function CompileSkipped(t: Node, ml: bool, cfg: Cfg, r: Reg): (r': Reg)
    requires Formed(t)
    ensures Ext(r, r') && |r'.code| == |r.code| + SIZE_OP_JUMP + CompileLength(t, cfg)
    decreases t, 6, 0
  {
    CompileTree(t, ml, cfg, Add(r, OpJump(CompileLength(t, cfg)), SIZE_OP_JUMP))
  }

  function CompileLazyOption(t: Node, ml: bool, cfg: Cfg, r: Reg): (r': Reg)
    requires Formed(t)
    ensures Ext(r, r') && |r'.code| == |r.code| + SIZE_OP_PUSH + SIZE_OP_JUMP + CompileLength(t, cfg)
    decreases t, 6, 0
  {
    CompileTree(t, ml, cfg, Add(Add(r, OpPush(SIZE_OP_JUMP), SIZE_OP_PUSH), OpJump(CompileLength(t, cfg)),
                                SIZE_OP_JUMP))
  }

  function CompileQuant(t: Node, q: Rep, ml: bool, cfg: Cfg, r: Reg): (r': Reg)
    requires Formed(t) && RepOk(q)
    ensures Ext(r, r') && |r'.code| == |r.code| + QuantLength(t, q, CompileLength(t, cfg))
    decreases t, 7, 0
  {
    match FormOf(t, q, CompileLength(t, cfg))
    case AnycharStar => CompileAnycharStar(t, q, ml, cfg, r)
    case PushLoop => CompilePushLoop(t, q, ml, cfg, r)
    case LazyLoop => CompileLazyLoop(t, q, ml, cfg, r)
    case Skipped => CompileSkipped(t, ml, cfg, r)
    case Copies => CompileOptional(t, q.upper - q.lower, ml, cfg, CompileTimes(t, q.lower, ml, cfg, r))
    case LazyOption => CompileLazyOption(t, ml, cfg, r)
    case Counter => CompileCounter(t, q, ml, cfg, r)
  }

  // ----- the forms, one equation each -----

  lemma CompileQuantIs(t: Node, q: Rep, ml: bool, cfg: Cfg, r: Reg)
    requires Formed(t) && RepOk(q)
    ensures var c := CompileQuant(t, q, ml, cfg, r);
            match FormOf(t, q, CompileLength(t, cfg))
            case AnycharStar => c == CompileAnycharStar(t, q, ml, cfg, r)
            case PushLoop => c == CompilePushLoop(t, q, ml, cfg, r)
            case LazyLoop => c == CompileLazyLoop(t, q, ml, cfg, r)
            case Skipped => c == CompileSkipped(t, ml, cfg, r)
            case Copies => q.upper >= q.lower && c == CompileOptional(t, q.upper - q.lower, ml, cfg,
                                                            CompileTimes(t, q.lower, ml, cfg, r))
            case LazyOption => c == CompileLazyOption(t, ml, cfg, r)
            case Counter => c == CompileCounter(t, q, ml, cfg, r)
  {
    hide Formed, CompileLength, CompileTimes, CompileOptional, CompileAnycharStar, CompilePushLoop, CompileLazyLoop;
    hide CompileSkipped, CompileLazyOption, CompileCounter, Ext;
  }

  lemma PushLoopIs(t: Node, q: Rep, ml: bool, cfg: Cfg, r: Reg)
    requires Formed(t) && RepOk(q)
    ensures var modTlen := ModLen(q.emptyInfo, CompileLength(t, cfg));
            var back := OpJump(-(modTlen + SIZE_OP_JUMP + LoopHeadLength(q)));
            var r1 := CompileLower(t, q, LoopHeadLength(q), ml, cfg, r);
            var r2 := Add(r1, LoopHead(q, modTlen + SIZE_OP_JUMP), LoopHeadLength(q));
            CompilePushLoop(t, q, ml, cfg, r) == Add(CompileEmptyCheck(t, q.emptyInfo, ml, cfg, r2), back, SIZE_OP_JUMP)
  {
    hide Formed, CompileTimes, CompileLower, CompileEmptyCheck, CompileLength, Ext, Add;
  }

  lemma CounterIs(t: Node, q: Rep, ml: bool, cfg: Cfg, r: Reg)
    requires Formed(t) && RepOk(q)
    ensures var id := |r.ranges|;
            var r1 := CounterHead(q, ModLen(q.emptyInfo, CompileLength(t, cfg)) + SIZE_OP_REPEAT_INC, r);
            CompileCounter(t, q, ml, cfg, r) ==
            Add(CompileEmptyCheck(t, q.emptyInfo, ml, cfg, r1), RepeatIncInstr(q, id), SIZE_OP_REPEAT_INC)
    ensures var i := RepeatIncInstr(q, |r.ranges|);
            i.OpRepeatInc? || i.OpRepeatIncNg? || i.OpRepeatIncSg? || i.OpRepeatIncNgSg?
  {
    hide Formed, CompileEmptyCheck, CompileLength, Ext;
  }
}
