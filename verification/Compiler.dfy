/** compile_tree and its family as they run: loops over lists, alternations and copies that append to
    the code of one regex_t (Dependencies/oniguruma5/regcomp.c). The functions of Regcomp say what
    each appends. */
module Compiler {
  import opened Regint
  import opened Regparse
  import opened Regcomp

  /** regex_t (re_pattern_buffer) while it is being compiled. */
  class PatternBuffer {
    const cfg: Cfg
    const base: nat               // where the code buffer lies, for alignment
    var code: Program             // p and used
    var ranges: seq<Range>        // repeat_range; num_repeat is its length
    var numNull: nat              // num_null_check
    var ml: bool                  // options

    constructor (cfg: Cfg, base: nat, ml: bool)
      ensures this.cfg == cfg && this.ml == ml && Out() == Reg([], [], 0)
    {
      this.cfg, this.base, this.ml := cfg, base, ml;
      code, ranges, numNull := [], [], 0;
    }

    ghost function Out(): Reg
      reads this
    {
      Reg(code, ranges, numNull)
    }

    // ----- appending -----

    method AddOpcode(i: Instr)
      modifies this`code
      ensures code == old(code) + [Op(i)]
    {
      code := code + [Op(i)];
    }

    /** Operand bytes: addresses, lengths, group numbers, bit sets, string bytes, padding. */
    method AddBytes(n: nat)
      modifies this`code
      ensures code == old(code) + Args(n)
    {
      var i := 0;
      while i < n
        invariant 0 <= i <= n
        invariant code + Args(n - i) == old(code) + Args(n)
      {
        assert code + Args(n - i) == (code + [Arg]) + Args(n - i - 1);
        code := code + [Arg];
        i := i + 1;
      }
      assert code + [] == code;
    }

    /** An opcode and n operand bytes. */
    method AddInstr(i: Instr, n: nat)
      modifies this`code
      ensures Out() == Add(old(Out()), i, SIZE_OPCODE + n)
    {
      ghost var was := code;
      AddOpcode(i);
      AddBytes(n);
      assert (was + [Op(i)]) + Args(n) == was + Emit(i, SIZE_OPCODE + n);
    }

    /** add_multi_byte_cclass: the ranges, at address base + at, are aligned; padding before and behind is
        always the same in all. */
    method AddMultiByteCClass(used: nat) returns (ghost at: nat)
      modifies this`code
      ensures code == old(code) + Args(SIZE_LENGTH + used + MbPad(cfg))
      ensures old(|code|) + SIZE_LENGTH <= at && at + used <= |code|
      ensures !cfg.unaligned ==> (base + at) % WORD_ALIGNMENT_SIZE == 0
    {
      ghost var was := code;
      if cfg.unaligned {
        AddBytes(SIZE_LENGTH);
        at := |code|;
        AddBytes(used);
        ArgsAdd(SIZE_LENGTH, used);
        assert (was + Args(SIZE_LENGTH)) + Args(used) == was + (Args(SIZE_LENGTH) + Args(used));
      } else {
        var addr := base + |code| + SIZE_LENGTH;
        var pad := (WORD_ALIGNMENT_SIZE - addr % WORD_ALIGNMENT_SIZE) % WORD_ALIGNMENT_SIZE;
        AddBytes(SIZE_LENGTH);
        AddBytes(pad);
        at := |code|;
        AddBytes(used);
        AddBytes(WORD_ALIGNMENT_SIZE - 1 - pad);
        PadsAdd(was, SIZE_LENGTH, pad, used, WORD_ALIGNMENT_SIZE - 1 - pad);
      }
    }

    method EntryRepeatRange(lower: nat, upper: int)
      modifies this`ranges
      ensures ranges == old(ranges) + [Range(lower, if Infinite(upper) then INT_MAX_REPEAT else upper)]
    {
      ranges := ranges + [Range(lower, if Infinite(upper) then INT_MAX_REPEAT else upper)];
    }

    // ----- leaves -----

    method CompileString(s: seq<byte>)
      modifies this`code
      ensures Out() == Regcomp.CompileString(s, old(Out()))
    {
      if |s| > 0 {
        if NeedStrLen(|s|) { AddInstr(SelectStr(s), SIZE_LENGTH + |s|); } else { AddInstr(SelectStr(s), |s|); }
      }
    }

    /** compile_cclass_node: an opcode, then a pointer to a shared class, or the bits and the ranges, as far
        as there are any. The byte count is what compile_length_cclass_node counts on. */
    method CompileCClass(n: Node)
      requires n.CClass?
      modifies this`code
      ensures Out() == Regcomp.CompileCClass(n, cfg, old(Out()))
      ensures |code| == old(|code|) + CClassLength(n, cfg)
      ensures var bits := if n.mbuf.Some? && n.bs == {} then 0 else SIZE_BITSET;
              var multi := if n.mbuf.None? then 0
                else SIZE_LENGTH + n.mbuf.value + (if cfg.unaligned then 0 else WORD_ALIGNMENT_SIZE - 1);
              |code| == old(|code|) + SIZE_OPCODE + (if n.share then SIZE_POINTER else bits + multi)
    {
      ghost var was := code;
      var i := CClassInstr(n, cfg);
      AddOpcode(i);
      if n.share {
        AddBytes(SIZE_POINTER);
        AppendAs(was, i, SIZE_POINTER);
      } else if n.mbuf.None? {
        AddBytes(SIZE_BITSET);
        AppendAs(was, i, SIZE_BITSET);
      } else if n.bs == {} {
        ghost var at := AddMultiByteCClass(n.mbuf.value);
        AppendAs(was, i, SIZE_LENGTH + n.mbuf.value + MbPad(cfg));
      } else {
        var rest := SIZE_LENGTH + n.mbuf.value + MbPad(cfg);
        AddBytes(SIZE_BITSET);
        ghost var at := AddMultiByteCClass(n.mbuf.value);
        ArgsAdd(SIZE_BITSET, rest);
        assert ((was + [Op(i)]) + Args(SIZE_BITSET)) + Args(rest) == (was + [Op(i)]) + Args(SIZE_BITSET + rest);
        AppendAs(was, i, SIZE_BITSET + rest);
      }
    }

    // ----- compile_tree -----

    method CompileTree(n: Node)
      requires Formed(n)
      modifies this
      ensures ml == old(ml) && Out() == Regcomp.CompileTree(n, ml, cfg, old(Out()))
      decreases n, 3, 0
    {
      match n
      case List(ns) => CompileList(ns);
      case Alt(ns) => CompileAlt(ns);
      case Str(s) => CompileString(s);
      case CClass(_, _, _, _) => CompileCClass(n);
      case CType(not) => AddInstr(if not then OpNotWord else OpWord, 0);
      case AnyChar => AddInstr(OpAnyChar(ml), 0);
      case Quant(t, q) => CompileQuant(t, q);
      case Group(k, b) => CompileGroup(k, b);
      case OptionNode(option, b) => CompileOption(option, b);
      case Atomic(simple, b) => if simple { CompileSimpleRepeat(b.target, b.q.lower); } else { CompileAtomic(b); }
      case Anchor(k) => AddInstr(AnchorInstr(k), 0);
      case Look(k, charLen, b) => CompileLook(k, charLen, b);
    }

    method CompileList(ns: Nodes)
      requires AllFormed(ns)
      modifies this
      ensures ml == old(ml) && Out() == Regcomp.CompileList(ns, ml, cfg, old(Out()))
      decreases ns, 0, 0
    {
      hide Add, Emit, Args, Ext, CompileLength, Regcomp.CompileTree, Formed;
      var node := ns;
      while node.Cons?
        invariant AllFormed(node) && ml == old(ml) && (ns nonincreases to node)
        invariant Regcomp.CompileList(node, ml, cfg, Out()) == Regcomp.CompileList(ns, ml, cfg, old(Out()))
        decreases node
      {
        CompileTree(node.left);
        node := node.right;
      }
      CompileTree(node.left);
    }

    method CompileAlt(ns: Nodes)
      requires AllFormed(ns)
      modifies this
      ensures ml == old(ml)
      ensures Out() == Regcomp.CompileAlt(ns, ml, cfg, |old(code)| + AltLength(ns, cfg), old(Out()))
      decreases ns, 0, 0
    {
      hide Add, Emit, Args, Ext, CompileLength, Regcomp.CompileTree, Formed;
      var x := ns;
      var len := 0;
      while x.Cons?
        invariant AllFormed(x) && len + AltLength(x, cfg) == AltLength(ns, cfg)
        decreases x
      {
        len := len + CompileLength(x.left, cfg) + (SIZE_OP_PUSH + SIZE_OP_JUMP);
        x := x.right;
      }
      len := len + CompileLength(x.left, cfg);
      var pos := |code| + len;
      var node := ns;
      while node.Cons?
        invariant AllFormed(node) && ml == old(ml) && (ns nonincreases to node)
        invariant Regcomp.CompileAlt(node, ml, cfg, pos, Out()) == Regcomp.CompileAlt(ns, ml, cfg, pos, old(Out()))
        decreases node
      {
        AddInstr(OpPush(CompileLength(node.left, cfg) + SIZE_OP_JUMP), SIZE_RELADDR);
        CompileTree(node.left);
        AddInstr(OpJump(pos - (|code| + SIZE_OP_JUMP)), SIZE_RELADDR);
        node := node.right;
      }
      CompileTree(node.left);
    }

    method CompileGroup(k: nat, b: Node)
      requires Formed(b)
      modifies this
      ensures ml == old(ml) && Out() == Regcomp.CompileGroup(k, b, ml, cfg, old(Out()))
      decreases b, 4, 0
    {
      hide Add, Emit, Args, Ext, CompileLength, Regcomp.CompileTree, Formed;
      AddInstr(if k in cfg.btMemStart then OpMemoryStartPush(k) else OpMemoryStart(k), SIZE_MEMNUM);
      CompileTree(b);
      AddInstr(if k in cfg.btMemEnd then OpMemoryEndPush(k) else OpMemoryEnd(k), SIZE_MEMNUM);
    }

    /** compile_option_node: the options are put back afterwards. */
    method CompileOption(option: bool, b: Node)
      requires Formed(b)
      modifies this
      ensures ml == old(ml) && Out() == Regcomp.CompileTree(b, option, cfg, old(Out()))
      decreases b, 4, 0
    {
      var prev := ml;
      ml := option;
      CompileTree(b);
      ml := prev;
    }

    method CompileAtomic(b: Node)
      requires Formed(b)
      modifies this
      ensures ml == old(ml) && Out() == Regcomp.CompileAtomic(b, ml, cfg, old(Out()))
      decreases b, 4, 0
    {
      hide Add, Emit, Args, Ext, CompileLength, Regcomp.CompileTree, Formed;
      AddInstr(OpPushStopBt, 0);
      CompileTree(b);
      AddInstr(OpPopStopBt, 0);
    }

    method CompileSimpleRepeat(t: Node, lower: nat)
      requires Formed(t)
      modifies this
      ensures ml == old(ml) && Out() == Regcomp.CompileSimpleRepeat(t, lower, ml, cfg, old(Out()))
      decreases t, 5, 0
    {
      hide Add, Emit, Args, Ext, CompileLength, Regcomp.CompileTree, Regcomp.CompileTimes, Formed;
      CompileTimes(t, lower);
      var len := CompileLength(t, cfg);
      AddInstr(OpPush(len + SIZE_OP_POP + SIZE_OP_JUMP), SIZE_RELADDR);
      CompileTree(t);
      AddInstr(OpPop, 0);
      AddInstr(OpJump(-(SIZE_OP_PUSH + len + SIZE_OP_POP + SIZE_OP_JUMP)), SIZE_RELADDR);
    }

    /** (?=...) */
    method CompilePrecRead(ghost charLen: nat, b: Node)
      requires Formed(b)
      modifies this
      ensures ml == old(ml) && Out() == Regcomp.CompileLook(PrecRead, charLen, b, ml, cfg, old(Out()))
      decreases b, 4, 0
    {
      hide Add, Emit, Args, Ext, CompileLength, Regcomp.CompileTree, Formed;
      AddInstr(OpPushPos, 0);
      CompileTree(b);
      AddInstr(OpPopPos, 0);
    }

    /** (?!...) */
    method CompilePrecReadNot(ghost charLen: nat, b: Node)
      requires Formed(b)
      modifies this
      ensures ml == old(ml) && Out() == Regcomp.CompileLook(PrecReadNot, charLen, b, ml, cfg, old(Out()))
      decreases b, 4, 0
    {
      hide Add, Emit, Args, Ext, CompileLength, Regcomp.CompileTree, Formed;
      AddInstr(OpPushPosNot(CompileLength(b, cfg) + SIZE_OP_FAIL_POS), SIZE_RELADDR);
      CompileTree(b);
      AddInstr(OpFailPos, 0);
    }

    /** (?<=...) */
    method CompileLookBehind(charLen: nat, b: Node)
      requires Formed(b)
      modifies this
      ensures ml == old(ml) && Out() == Regcomp.CompileLook(LookBehind, charLen, b, ml, cfg, old(Out()))
      decreases b, 4, 0
    {
      hide Add, Emit, Args, Ext, CompileLength, Regcomp.CompileTree, Formed;
      AddInstr(OpLookBehind(charLen), SIZE_LENGTH);
      CompileTree(b);
    }

    /** (?<!...) */
    method CompileLookBehindNot(charLen: nat, b: Node)
      requires Formed(b)
      modifies this
      ensures ml == old(ml) && Out() == Regcomp.CompileLook(LookBehindNot, charLen, b, ml, cfg, old(Out()))
      decreases b, 4, 0
    {
      hide Add, Emit, Args, Ext, CompileLength, Regcomp.CompileTree, Formed;
      AddInstr(OpPushLookBehindNot(CompileLength(b, cfg) + SIZE_OP_FAIL_LOOK_BEHIND_NOT, charLen),
               SIZE_RELADDR + SIZE_LENGTH);
      CompileTree(b);
      AddInstr(OpFailLookBehindNot, 0);
    }

    method CompileLook(k: LookKind, charLen: nat, b: Node)
      requires Formed(b)
      modifies this
      ensures ml == old(ml) && Out() == Regcomp.CompileLook(k, charLen, b, ml, cfg, old(Out()))
      decreases b, 5, 0
    {
      hide Add, Emit, Args, Ext, CompileLength, Regcomp.CompileTree, Regcomp.CompileLook, Formed;
      match k
      case PrecRead => CompilePrecRead(charLen, b);
      case PrecReadNot => CompilePrecReadNot(charLen, b);
      case LookBehind => CompileLookBehind(charLen, b);
      case LookBehindNot => CompileLookBehindNot(charLen, b);
    }

    // ----- repeats -----

    method CompileTimes(n: Node, k: nat)
      requires Formed(n)
      modifies this
      ensures ml == old(ml) && Out() == Regcomp.CompileTimes(n, k, ml, cfg, old(Out()))
      decreases n, 4, k
    {
      hide Add, Emit, Args, Ext, CompileLength, Regcomp.CompileTree, Formed;
      var i: nat := 0;
      while i < k
        invariant 0 <= i <= k && ml == old(ml)
        invariant Regcomp.CompileTimes(n, k - i, ml, cfg, Out()) == Regcomp.CompileTimes(n, k, ml, cfg, old(Out()))
      {
        CompileTree(n);
        i := i + 1;
      }
    }

    /** The loop for the copies past the lower bound. */
    method CompileOptional(n: Node, k: nat)
      requires Formed(n)
      modifies this
      ensures ml == old(ml) && Out() == Regcomp.CompileOptional(n, k, ml, cfg, old(Out()))
      decreases n, 4, k
    {
      hide Add, Emit, Args, Ext, CompileLength, Regcomp.CompileTree, Formed;
      var len := CompileLength(n, cfg);
      var i: nat := 0;
      while i < k
        invariant 0 <= i <= k && ml == old(ml)
        invariant Regcomp.CompileOptional(n, k - i, ml, cfg, Out()) ==
                  Regcomp.CompileOptional(n, k, ml, cfg, old(Out()))
      {
        AddInstr(OpPush((k - i) * len + (k - i - 1) * SIZE_OP_PUSH), SIZE_RELADDR);
        CompileTree(n);
        i := i + 1;
      }
    }

    method CompileEmptyCheck(n: Node, info: EmptyInfo)
      requires Formed(n)
      modifies this
      ensures ml == old(ml) && Out() == Regcomp.CompileEmptyCheck(n, info, ml, cfg, old(Out()))
      decreases n, 4, 0
    {
      hide Emit, Args, Ext, CompileLength, Regcomp.CompileTree, Formed;
      var savedNum := numNull;
      if info != IsNotEmpty {
        AddInstr(OpNullCheckStart(numNull), SIZE_MEMNUM);
        numNull := numNull + 1;
      }
      CompileTree(n);
      if info != IsNotEmpty {
        AddInstr(if info == IsEmpty then OpNullCheckEnd(savedNum) else OpNullCheckEndMemst(savedNum), SIZE_MEMNUM);
      }
    }

    /** compile_range_repeat_node */
    method CompileCounter(t: Node, q: Rep)
      requires Formed(t) && RepOk(q)
      modifies this
      ensures ml == old(ml) && Out() == Regcomp.CompileCounter(t, q, ml, cfg, old(Out()))
      decreases t, 6, 0
    {
      hide Add, Emit, Args, Ext, CompileLength, ModLen, Regcomp.CompileTree, Regcomp.CompileEmptyCheck, Formed, RepOk;
      hide Regcomp.CompileCounter;
      CounterIs(t, q, ml, cfg, Out());
      ghost var was := Out();
      var numRepeat := |ranges|;
      var len := ModLen(q.emptyInfo, CompileLength(t, cfg)) + SIZE_OP_REPEAT_INC;
      AddInstr(if q.greedy then OpRepeat(numRepeat, len) else OpRepeatNg(numRepeat, len), SIZE_MEMNUM + SIZE_RELADDR);
      EntryRepeatRange(q.lower, q.upper);
      assert Out() == CounterHead(q, len, was);
      CompileEmptyCheck(t, q.emptyInfo);
      if q.inRepeat {
        AddInstr(if q.greedy then OpRepeatIncSg(numRepeat) else OpRepeatIncNgSg(numRepeat), SIZE_MEMNUM);
      } else {
        AddInstr(if q.greedy then OpRepeatInc(numRepeat) else OpRepeatIncNg(numRepeat), SIZE_MEMNUM);
      }
    }

    /** The mandatory copies of an unbounded repeat, or the jump over the head of its loop. */
    method CompileLower(t: Node, q: Rep)
      requires Formed(t) && RepOk(q)
      modifies this
      ensures ml == old(ml)
      ensures Out() == Regcomp.CompileLower(t, q, if q.greedy then LoopHeadLength(q)
              else SIZE_OP_JUMP, ml, cfg, old(Out()))
      decreases t, 5, 0
    {
      hide Add, Emit, Args, Ext, CompileLength, Regcomp.CompileTree, Regcomp.CompileTimes, Formed;
      if q.lower == 1 && CompileLength(t, cfg) > QUANTIFIER_EXPAND_LIMIT_SIZE {
        var skip := SIZE_OP_JUMP;
        if q.greedy {
          skip := if q.headExact.Some? then SIZE_OP_PUSH_OR_JUMP_EXACT1
                  else if q.nextHead.Some? then SIZE_OP_PUSH_IF_PEEK_NEXT
                  else SIZE_OP_PUSH;
        }
        AddInstr(OpJump(skip), SIZE_RELADDR);
      } else {
        CompileTimes(t, q.lower);
      }
    }

    /** The instruction at the head of a greedy loop, and its size. */
    method AddLoopHead(q: Rep, addr: int) returns (size: nat)
      requires RepOk(q)
      modifies this`code
      ensures size == LoopHeadLength(q) && Out() == Add(old(Out()), LoopHead(q, addr), size)
    {
      hide Add;
      if q.headExact.Some? {
        AddInstr(OpPushOrJumpExact1(addr, q.headExact.value[0]), SIZE_RELADDR + 1);
        size := SIZE_OP_PUSH_OR_JUMP_EXACT1;
      } else if q.nextHead.Some? {
        AddInstr(OpPushIfPeekNext(addr, q.nextHead.value[0]), SIZE_RELADDR + 1);
        size := SIZE_OP_PUSH_IF_PEEK_NEXT;
      } else {
        AddInstr(OpPush(addr), SIZE_RELADDR);
        size := SIZE_OP_PUSH;
      }
    }

    /** The greedy unbounded loop, with whichever head it has. */
    method CompilePushLoop(t: Node, q: Rep)
      requires Formed(t) && RepOk(q) && q.greedy
      modifies this
      ensures ml == old(ml) && Out() == Regcomp.CompilePushLoop(t, q, ml, cfg, old(Out()))
      decreases t, 6, 0
    {
      hide Add, Emit, Args, Ext, CompileLength, Regcomp.CompileTree, Regcomp.CompileEmptyCheck, Regcomp.CompileLower;
      hide Formed, LoopHead, Regcomp.CompilePushLoop, ModLen;
      PushLoopIs(t, q, ml, cfg, Out());
      var modTlen := ModLen(q.emptyInfo, CompileLength(t, cfg));
      CompileLower(t, q);
      var head := AddLoopHead(q, modTlen + SIZE_OP_JUMP);
      CompileEmptyCheck(t, q.emptyInfo);
      AddInstr(OpJump(-(modTlen + SIZE_OP_JUMP + head)), SIZE_RELADDR);
    }

    /** The lazy unbounded loop. */
    method CompileLazyLoop(t: Node, q: Rep)
      requires Formed(t) && RepOk(q) && !q.greedy
      modifies this
      ensures ml == old(ml) && Out() == Regcomp.CompileLazyLoop(t, q, ml, cfg, old(Out()))
      decreases t, 6, 0
    {
      hide Add, Emit, Args, Ext, CompileLength, Regcomp.CompileTree, Regcomp.CompileEmptyCheck, Regcomp.CompileLower;
      hide Formed;
      var modTlen := ModLen(q.emptyInfo, CompileLength(t, cfg));
      CompileLower(t, q);
      AddInstr(OpJump(modTlen), SIZE_RELADDR);
      CompileEmptyCheck(t, q.emptyInfo);
      AddInstr(OpPush(-(modTlen + SIZE_OP_PUSH)), SIZE_RELADDR);
    }

    /** The branch of compile_quantifier_node for .* */
    method CompileAnycharStar(t: Node, q: Rep)
      requires Formed(t) && RepOk(q)
      modifies this
      ensures ml == old(ml) && Out() == Regcomp.CompileAnycharStar(t, q, ml, cfg, old(Out()))
      decreases t, 6, 0
    {
      hide Add, Emit, Args, Ext, CompileLength, Regcomp.CompileTree, Regcomp.CompileTimes, Formed;
      CompileTimes(t, q.lower);
      if q.nextHead.Some? {
        AddInstr(OpAnyCharStarPeekNext(ml, q.nextHead.value[0]), 1);
      } else {
        AddInstr(OpAnyCharStar(ml), 0);
      }
    }

    /** The branch of compile_quantifier_node for a body that is only called. */
    method CompileSkipped(t: Node)
      requires Formed(t)
      modifies this
      ensures ml == old(ml) && Out() == Regcomp.CompileSkipped(t, ml, cfg, old(Out()))
      decreases t, 6, 0
    {
      hide Add, Emit, Args, Ext, CompileLength, Regcomp.CompileTree, Formed;
      AddInstr(OpJump(CompileLength(t, cfg)), SIZE_RELADDR);
      CompileTree(t);
    }

    /** The branch of compile_quantifier_node for ?? */
    method CompileLazyOption(t: Node)
      requires Formed(t)
      modifies this
      ensures ml == old(ml) && Out() == Regcomp.CompileLazyOption(t, ml, cfg, old(Out()))
      decreases t, 6, 0
    {
      hide Add, Emit, Args, Ext, CompileLength, Regcomp.CompileTree, Formed;
      AddInstr(OpPush(SIZE_OP_JUMP), SIZE_RELADDR);
      AddInstr(OpJump(CompileLength(t, cfg)), SIZE_RELADDR);
      CompileTree(t);
    }

    /** The branch of compile_quantifier_node for copies of the body. */
    method CompileCopies(t: Node, q: Rep)
      requires Formed(t) && RepOk(q) && !Infinite(q.upper)
      modifies this
      ensures ml == old(ml)
      ensures Out() == Regcomp.CompileOptional(t, q.upper - q.lower, ml, cfg,
                                               Regcomp.CompileTimes(t, q.lower, ml, cfg, old(Out())))
      decreases t, 6, 0
    {
      CompileTimes(t, q.lower);
      CompileOptional(t, q.upper - q.lower);
    }

    method CompileQuant(t: Node, q: Rep)
      requires Formed(t) && RepOk(q)
      modifies this
      ensures ml == old(ml) && Out() == Regcomp.CompileQuant(t, q, ml, cfg, old(Out()))
      decreases t, 7, 0
    {
      hide Ext, CompileLength, Regcomp.CompileTree, Regcomp.CompileTimes, Regcomp.CompileOptional;
      hide Regcomp.CompileCounter, Formed, Regcomp.CompileQuant, QuantLength, Add;
      hide Regcomp.CompilePushLoop, Regcomp.CompileLazyLoop, Regcomp.CompileAnycharStar, Regcomp.CompileSkipped;
      hide Regcomp.CompileLazyOption;
      CompileQuantIs(t, q, ml, cfg, Out());
      var infinite := Infinite(q.upper);
      var tlen := CompileLength(t, cfg);
      if q.greedy && infinite && t.AnyChar? {
        CompileAnycharStar(t, q);
      } else if infinite && (q.lower <= 1 || tlen * q.lower <= QUANTIFIER_EXPAND_LIMIT_SIZE) {
        if q.greedy { CompilePushLoop(t, q); } else { CompileLazyLoop(t, q); }
      } else if q.upper == 0 && q.isRefered {
        CompileSkipped(t);
      } else if !infinite && q.greedy
        && (q.upper == 1 || (tlen + SIZE_OP_PUSH) * q.upper <= QUANTIFIER_EXPAND_LIMIT_SIZE) {
        CompileCopies(t, q);
      } else if !q.greedy && q.upper == 1 && q.lower == 0 {
        CompileLazyOption(t);
      } else {
        CompileCounter(t, q);
      }
    }
  }

  lemma {:induction false} ArgsAdd(a: nat, b: nat)
    ensures Args(a) + Args(b) == Args(a + b)
  {
    if a > 0 {
      ArgsAdd(a - 1, b);
      assert Args(a) + Args(b) == [Arg] + (Args(a - 1) + Args(b));
    }
  }

  lemma AppendArgs(was: Program, a: nat, b: nat)
    ensures was + Args(a) + Args(b) == was + Args(a + b)
  {
    ArgsAdd(a, b);
  }

  lemma PadsAdd(was: Program, a: nat, b: nat, c: nat, d: nat)
    ensures was + Args(a) + Args(b) + Args(c) + Args(d) == was + Args(a + b + c + d)
  {
    hide Args;
    AppendArgs(was, a, b);
    AppendArgs(was, a + b, c);
    AppendArgs(was, a + b + c, d);
  }

  lemma AppendAs(was: Program, i: Instr, n: nat)
    ensures (was + [Op(i)]) + Args(n) == was + Emit(i, SIZE_OPCODE + n)
  {
  }
}
