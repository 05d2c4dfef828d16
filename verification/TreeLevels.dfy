/** compile_tree keeps levels: in the code of every tree control reaches an address with the same groups open, and
    groups whose start is not undone are opened in a fixed order. */
module TreeLevels {
  import opened Regint
  import opened Regparse
  import opened Regcomp
  import opened Machine
  import opened Layout
  import opened Spans
  import opened Levels

  /** Groups under an alternation, a repeat or a negative look-around have their start undone, but for those of a
      repeat that makes all its rounds. */
  predicate Steady(n: Node, cfg: Cfg)
    requires Formed(n)
  {
    match n
    case List(ns) => AllSteady(ns, cfg)
    case Alt(ns) => AllGroups(ns) <= cfg.btMemStart && AllSteady(ns, cfg)
    case Quant(t, q) => (GroupsOf(t) <= cfg.btMemStart || Repeats(t, q, cfg)) && Steady(t, cfg)
    case Group(_, b) => Steady(b, cfg)
    case OptionNode(_, b) => Steady(b, cfg)
    case Atomic(simple, b) => (simple ==> GroupsOf(b) <= cfg.btMemStart) && Steady(b, cfg)
    case Look(k, _, b) => (k.PrecReadNot? || k.LookBehindNot? ==> GroupsOf(b) <= cfg.btMemStart) && Steady(b, cfg)
    case _ => true
  }

  predicate AllSteady(ns: Nodes, cfg: Cfg)
    requires AllFormed(ns)
  {
    match ns
    case Last(n) => Steady(n, cfg)
    case Cons(n, rest) => Steady(n, cfg) && AllSteady(rest, cfg)
  }

  /** A repeat that makes all its rounds: it is written out, or counts and does not leave at an empty one. */
  predicate Repeats(t: Node, q: Rep, cfg: Cfg)
    requires Formed(t)
  {
    var form := FormOf(t, q, CompileLength(t, cfg));
    q.lower == q.upper && (form.Copies? || (form.Counter? && q.lower >= 1 && q.emptyInfo == IsNotEmpty))
  }

  /** The code from r to r' changes no level. */
  ghost predicate Flat(prog: Prog, r: Reg, r': Reg) {
    LevelsOf(prog, r, r') && LevelOf(prog, r'.code) == LevelOf(prog, r.code)
  }

  /** Behind the code the same groups are open and the same counters running as in front of it. */
  ghost predicate Even(prog: Prog, r: Reg, r': Reg) {
    LevelsOf(prog, r, r') && Rises(LevelOf(prog, r.code), LevelOf(prog, r'.code))
  }

  predicate Rises(l: Level, l': Level) { l'.open == l.open && l'.loops == l.loops && l.passed <= l'.passed }

  /** The groups are not open, and the running counters are among the first. */
  predicate Clear(prog: Prog, groups: set<nat>, r: Reg) {
    var l := LevelOf(prog, r.code);
    groups !! l.open && forall j :: 0 <= j < |l.loops| ==> l.loops[j].id < |r.ranges|
  }

  ghost predicate Kept(prog: Prog, groups: set<nat>, cfg: Cfg, r: Reg, r': Reg) {
    Even(prog, r, r') && (groups <= cfg.btMemStart ==> Flat(prog, r, r'))
  }

  lemma Down(prog: Prog, r: Reg, r': Reg)
    requires Ext(r, r') && Within(prog, r')
    ensures Within(prog, r)
  {
  }

  lemma FlatSeq(prog: Prog, a: Reg, b: Reg, c: Reg)
    requires Flat(prog, a, b) && Flat(prog, b, c)
    ensures Flat(prog, a, c)
  {
    hide LevelsOf;
    LevelsJoin(prog, a, b, c);
  }

  lemma KeptSeq(prog: Prog, cfg: Cfg, g: set<nat>, h: set<nat>, a: Reg, b: Reg, c: Reg)
    requires Kept(prog, g, cfg, a, b) && Kept(prog, h, cfg, b, c)
    ensures Kept(prog, g + h, cfg, a, c)
  {
    hide LevelsOf;
    LevelsJoin(prog, a, b, c);
  }

  lemma FlatKept(prog: Prog, groups: set<nat>, cfg: Cfg, a: Reg, b: Reg)
    requires Flat(prog, a, b)
    ensures Kept(prog, groups, cfg, a, b)
  {
    hide LevelsOf;
  }

  lemma KeptFlat(prog: Prog, groups: set<nat>, cfg: Cfg, a: Reg, b: Reg)
    requires Kept(prog, groups, cfg, a, b) && groups <= cfg.btMemStart
    ensures Flat(prog, a, b)
  {
    hide LevelsOf;
  }

  lemma KeptClear(prog: Prog, groups: set<nat>, cfg: Cfg, r: Reg, r': Reg, g: set<nat>)
    requires Kept(prog, groups, cfg, r, r') && Clear(prog, g, r)
    ensures Clear(prog, g, r')
  {
    hide LevelCell, LevelOf;
  }

  lemma FlatNone(prog: Prog, r: Reg)
    requires Within(prog, r)
    ensures Flat(prog, r, r)
  {
    LevelsNone(prog, r);
  }

  lemma FlatLevel(prog: Prog, r: Reg, r': Reg)
    requires Flat(prog, r, r')
    ensures LevelOf(prog, r'.code) == LevelOf(prog, r.code) && |r.ranges| <= |r'.ranges|
  {
    hide LevelCell, LevelOf;
  }

  lemma PlainFlat(prog: Prog, r: Reg, i: Instr, size: nat)
    requires size >= 1 && size == Size(i) && Within(prog, Add(r, i, size)) && Still(prog, i)
    requires Target(i, 0).None? && !i.OpNullCheckEnd?
    ensures Flat(prog, r, Add(r, i, size))
  {
    PlainLevels(prog, r, i, size);
  }

  lemma JumpFlat(prog: Prog, r: Reg, i: Instr, size: nat, t: Reg)
    requires size >= 1 && size == Size(i) && Within(prog, Add(r, i, size)) && Still(prog, i) && !i.OpNullCheckEnd?
    requires Within(prog, t) && Target(i, |r.code|) == Some(|t.code|) && LevelOf(prog, t.code) == LevelOf(prog, r.code)
    ensures Flat(prog, r, Add(r, i, size))
  {
    JumpLevels(prog, r, i, size, t);
  }

  /** The level behind an instruction that opens and closes no group. */
  lemma SameAfter(prog: Prog, r: Reg, i: Instr, size: nat)
    requires size >= 1 && Still(prog, i)
    ensures LevelOf(prog, Add(r, i, size).code) == LevelOf(prog, r.code)
            && Add(r, i, size).ranges == r.ranges
  {
    OverAdd(prog, r, i, size);
    StillOver(prog, i, |r.code|, LevelOf(prog, r.code));
  }

  // ----- leaves -----

  lemma LeafStill(prog: Prog, cfg: Cfg, n: Node, ml: bool)
    ensures forall s: seq<byte> :: s != [] ==> Still(prog, SelectStr(s))
    ensures n.CClass? ==> Still(prog, CClassInstr(n, cfg))
    ensures Still(prog, OpNotWord) && Still(prog, OpWord) && Still(prog, OpAnyChar(ml))
    ensures n.Anchor? ==> Still(prog, AnchorInstr(n.kind))
  {
  }

  lemma LeafFlat(prog: Prog, cfg: Cfg, n: Node, ml: bool, r: Reg)
    requires (IsSimple(n) || n.Anchor?) && Within(prog, CompileTree(n, ml, cfg, r))
    ensures Flat(prog, r, CompileTree(n, ml, cfg, r))
  {
    hide Flat, LevelsOf, Add, LevelOf, Within, Still;
    LeafStill(prog, cfg, n, ml);
    match n
    case Str(s) =>
      if s == [] { FlatNone(prog, r); } else { PlainFlat(prog, r, SelectStr(s), StringLength(|s|)); }
    case CClass(_, _, _, _) => PlainFlat(prog, r, CClassInstr(n, cfg), CClassLength(n, cfg));
    case CType(not) => PlainFlat(prog, r, if not then OpNotWord else OpWord, SIZE_OPCODE);
    case AnyChar => PlainFlat(prog, r, OpAnyChar(ml), SIZE_OPCODE);
    case Anchor(k) => PlainFlat(prog, r, AnchorInstr(k), SIZE_OPCODE);
  }

  // ----- repeats of a body whose groups are undone -----

  /** The body of a repeat, an alternative or a negative look-around. */
  ghost predicate BodyOk(prog: Prog, cfg: Cfg, t: Node, r: Reg)
    requires Formed(t)
  {
    Numbered(t) && Steady(t, cfg) && GroupsOf(t) <= cfg.btMemStart && Clear(prog, GroupsOf(t), r)
  }

  lemma BodyMoves(prog: Prog, cfg: Cfg, t: Node, r: Reg, r': Reg)
    requires Formed(t) && BodyOk(prog, cfg, t, r) && LevelOf(prog, r'.code) == LevelOf(prog, r.code)
    requires |r.ranges| <= |r'.ranges|
    ensures BodyOk(prog, cfg, t, r')
  {
    hide Formed, Numbered, Steady, GroupsOf, LevelOf;
  }

  lemma BodyFlat(prog: Prog, cfg: Cfg, t: Node, ml: bool, r: Reg)
    requires Formed(t) && BodyOk(prog, cfg, t, r) && Within(prog, CompileTree(t, ml, cfg, r))
    ensures Flat(prog, r, CompileTree(t, ml, cfg, r))
    decreases t, 2, 0
  {
    hide Formed, Numbered, Steady, GroupsOf, LevelOf, LevelsOf, CompileTree, Even, Flat;
    TreeLevels(prog, cfg, t, ml, r);
  }

  lemma {:induction false} TimesFlat(prog: Prog, cfg: Cfg, t: Node, k: nat, ml: bool, r: Reg)
    requires Formed(t) && BodyOk(prog, cfg, t, r) && Within(prog, CompileTimes(t, k, ml, cfg, r))
    ensures Flat(prog, r, CompileTimes(t, k, ml, cfg, r))
    decreases t, 3, k
  {
    hide Formed, BodyOk, Flat, CompileTree, CompileLength, Ext;
    if k == 0 {
      FlatNone(prog, r);
    } else {
      var r1 := CompileTree(t, ml, cfg, r);
      var r2 := CompileTimes(t, k - 1, ml, cfg, r1);
      Down(prog, r1, r2);
      BodyFlat(prog, cfg, t, ml, r);
      FlatLevel(prog, r, r1);
      BodyMoves(prog, cfg, t, r, r1);
      TimesFlat(prog, cfg, t, k - 1, ml, r1);
      FlatSeq(prog, r, r1, r2);
    }
  }

  lemma OptionalTarget(tlen: nat, m: nat)
    requires m > 0
    ensures m * tlen + (m - 1) * SIZE_OP_PUSH + SIZE_OP_PUSH == (SIZE_OP_PUSH + tlen) * m
  {
  }

  /** One optional copy. */
  lemma OptionalOne(prog: Prog, cfg: Cfg, t: Node, addr: int, ml: bool, r: Reg)
    requires Formed(t) && BodyOk(prog, cfg, t, r)
             && Within(prog, CompileTree(t, ml, cfg, Add(r, OpPush(addr), SIZE_OP_PUSH)))
    ensures var r1 := Add(r, OpPush(addr), SIZE_OP_PUSH);
            var r2 := CompileTree(t, ml, cfg, r1);
            && Within(prog, r1) && Flat(prog, r1, r2) && LevelOf(prog, r2.code) == LevelOf(prog, r.code)
            && BodyOk(prog, cfg, t, r2)
    decreases t, 3, 0
  {
    hide Formed, BodyOk, Flat, CompileTree, CompileLength, Ext, Add, LevelOf, Within;
    var r1 := Add(r, OpPush(addr), SIZE_OP_PUSH);
    var r2 := CompileTree(t, ml, cfg, r1);
    Down(prog, r1, r2);
    SameAfter(prog, r, OpPush(addr), SIZE_OP_PUSH);
    BodyMoves(prog, cfg, t, r, r1);
    BodyFlat(prog, cfg, t, ml, r1);
    FlatLevel(prog, r1, r2);
    BodyMoves(prog, cfg, t, r1, r2);
  }

  lemma PushStill(prog: Prog, addr: int)
    ensures Still(prog, OpPush(addr)) && Still(prog, OpJump(addr))
  {
  }

  lemma {:induction false} OptionalFlat(prog: Prog, cfg: Cfg, t: Node, m: nat, ml: bool, r: Reg)
    requires Formed(t) && BodyOk(prog, cfg, t, r) && Within(prog, CompileOptional(t, m, ml, cfg, r))
    ensures Flat(prog, r, CompileOptional(t, m, ml, cfg, r))
    decreases t, 4, m
  {
    hide Formed, BodyOk, Flat, CompileTree, CompileLength, Ext, Add, LevelOf, Within, Still;
    if m == 0 {
      FlatNone(prog, r);
    } else {
      var tlen := CompileLength(t, cfg);
      var i := OpPush(m * tlen + (m - 1) * SIZE_OP_PUSH);
      var r1 := Add(r, i, SIZE_OP_PUSH);
      var r2 := CompileTree(t, ml, cfg, r1);
      var r3 := CompileOptional(t, m - 1, ml, cfg, r2);
      OptionalTarget(tlen, m);
      Down(prog, r2, r3);
      OptionalOne(prog, cfg, t, i.addr, ml, r);
      OptionalFlat(prog, cfg, t, m - 1, ml, r2);
      FlatLevel(prog, r2, r3);
      PushStill(prog, i.addr);
      JumpFlat(prog, r, i, SIZE_OP_PUSH, r3);
      FlatSeq(prog, r, r1, r2);
      FlatSeq(prog, r, r2, r3);
    }
  }

  /** The level behind a loop body, with or without an empty check. */
  lemma CheckSame(prog: Prog, cfg: Cfg, t: Node, info: EmptyInfo, ml: bool, r: Reg)
    requires Formed(t) && BodyOk(prog, cfg, t, r) && Within(prog, CompileEmptyCheck(t, info, ml, cfg, r))
    ensures LevelOf(prog, CompileEmptyCheck(t, info, ml, cfg, r).code) == LevelOf(prog, r.code)
    decreases t, 3, 0
  {
    hide Formed, BodyOk, Flat, CompileTree, CompileLength, Ext, Add, LevelOf;
    if info == IsNotEmpty {
      BodyFlat(prog, cfg, t, ml, r);
      FlatLevel(prog, r, CompileTree(t, ml, cfg, r));
    } else {
      var r0 := Add(r, OpNullCheckStart(r.numNull), SIZE_OP_NULL_CHECK_START);
      var r1 := r0.(numNull := r.numNull + 1);
      var r2 := CompileTree(t, ml, cfg, r1);
      var end := if info == IsEmpty then OpNullCheckEnd(r.numNull) else OpNullCheckEndMemst(r.numNull);
      Down(prog, r2, Add(r2, end, SIZE_OP_NULL_CHECK_END));
      SameAfter(prog, r, OpNullCheckStart(r.numNull), SIZE_OP_NULL_CHECK_START);
      BodyMoves(prog, cfg, t, r, r1);
      BodyFlat(prog, cfg, t, ml, r1);
      FlatLevel(prog, r1, r2);
      SameAfter(prog, r2, end, SIZE_OP_NULL_CHECK_END);
    }
  }

  /** A loop body; t is behind the instruction that an empty iteration skips. */
  lemma CheckFlat(prog: Prog, cfg: Cfg, n: Node, info: EmptyInfo, ml: bool, r: Reg, t: Reg)
    requires Formed(n) && BodyOk(prog, cfg, n, r) && Within(prog, CompileEmptyCheck(n, info, ml, cfg, r))
    requires SkipLoopEnd(prog, |CompileEmptyCheck(n, info, ml, cfg, r).code|) == Some(|t.code|)
    requires Within(prog, t) && Quits(prog, LevelOf(prog, r.code), LevelOf(prog, t.code))
    ensures Flat(prog, r, CompileEmptyCheck(n, info, ml, cfg, r))
    decreases n, 3, 0
  {
    hide Formed, BodyOk, CompileTree, CompileLength, Ext, Add, LevelOf, SkipLoopEnd, LevelsOf, Quits;
    if info == IsNotEmpty {
      BodyFlat(prog, cfg, n, ml, r);
    } else {
      var r0 := Add(r, OpNullCheckStart(r.numNull), SIZE_OP_NULL_CHECK_START);
      var r1 := r0.(numNull := r.numNull + 1);
      var r2 := CompileTree(n, ml, cfg, r1);
      var end := if info == IsEmpty then OpNullCheckEnd(r.numNull) else OpNullCheckEndMemst(r.numNull);
      Down(prog, r2, Add(r2, end, SIZE_OP_NULL_CHECK_END));
      Down(prog, r1, r2);
      PlainFlat(prog, r, OpNullCheckStart(r.numNull), SIZE_OP_NULL_CHECK_START);
      FlatNumbered(prog, r, r0, r1);
      BodyMoves(prog, cfg, n, r, r1);
      BodyFlat(prog, cfg, n, ml, r1);
      CheckLevels(prog, r2, end, t);
      FlatSeq(prog, r, r1, r2);
      FlatSeq(prog, r, r2, Add(r2, end, SIZE_OP_NULL_CHECK_END));
    }
  }

  /** Only the code counts. */
  lemma FlatNumbered(prog: Prog, r: Reg, r0: Reg, r1: Reg)
    requires Flat(prog, r, r0) && r1.code == r0.code && r0.ranges <= r1.ranges <= prog.ranges
    ensures Flat(prog, r, r1)
  {
  }

  /** The mandatory copies, or the jump in their place; e is where that jump goes. */
  lemma LowerFlat(prog: Prog, cfg: Cfg, t: Node, q: Rep, skip: nat, ml: bool, r: Reg, e: Reg)
    requires Formed(t) && BodyOk(prog, cfg, t, r) && Within(prog, CompileLower(t, q, skip, ml, cfg, r))
    requires Within(prog, e) && |e.code| == |CompileLower(t, q, skip, ml, cfg, r).code| + skip
             && LevelOf(prog, e.code) == LevelOf(prog, r.code)
    ensures Flat(prog, r, CompileLower(t, q, skip, ml, cfg, r))
    decreases t, 4, 0
  {
    hide Formed, BodyOk, Flat, CompileTree, CompileTimes, CompileLength, Ext, Add, LevelOf;
    if JumpIn(q, CompileLength(t, cfg)) {
      JumpFlat(prog, r, OpJump(skip), SIZE_OP_JUMP, e);
    } else {
      TimesFlat(prog, cfg, t, q.lower, ml, r);
    }
  }

  lemma LowerSame(prog: Prog, cfg: Cfg, t: Node, q: Rep, skip: nat, ml: bool, r: Reg)
    requires Formed(t) && BodyOk(prog, cfg, t, r) && Within(prog, CompileLower(t, q, skip, ml, cfg, r))
    ensures LevelOf(prog, CompileLower(t, q, skip, ml, cfg, r).code) == LevelOf(prog, r.code)
            && |r.ranges| <= |CompileLower(t, q, skip, ml, cfg, r).ranges|
    decreases t, 4, 0
  {
    hide Formed, BodyOk, Flat, CompileTree, CompileTimes, CompileLength, Ext, Add, LevelOf;
    if JumpIn(q, CompileLength(t, cfg)) {
      SameAfter(prog, r, OpJump(skip), SIZE_OP_JUMP);
    } else {
      TimesFlat(prog, cfg, t, q.lower, ml, r);
      FlatLevel(prog, r, CompileTimes(t, q.lower, ml, cfg, r));
    }
  }

  /** A loop of three parts: what comes first, a jump to the closing instruction or behind it, and the body. */
  lemma LoopLevels(prog: Prog, cfg: Cfg, t: Node, q: Rep, skip: nat, head: Instr, hlen: nat, back: Instr, blen: nat,
                   ml: bool, r: Reg)
    requires Formed(t) && BodyOk(prog, cfg, t, r) && hlen >= 1 && blen >= 1 && Still(prog, head) && Still(prog, back)
    requires Within(prog, Add(CompileEmptyCheck(t, q.emptyInfo, ml, cfg,
                 Add(CompileLower(t, q, skip, ml, cfg, r), head, hlen)), back, blen))
    ensures var r1 := CompileLower(t, q, skip, ml, cfg, r);
            var r2 := Add(r1, head, hlen);
            var r3 := CompileEmptyCheck(t, q.emptyInfo, ml, cfg, r2);
            var r4 := Add(r3, back, blen);
            && Within(prog, r1) && Within(prog, r2) && Within(prog, r3)
            && LevelOf(prog, r1.code) == LevelOf(prog, r2.code) == LevelOf(prog, r3.code)
               == LevelOf(prog, r4.code) == LevelOf(prog, r.code)
            && BodyOk(prog, cfg, t, r2)
    decreases t, 5, 0
  {
    hide Formed, BodyOk, CompileTree, CompileTimes, CompileLower, CompileEmptyCheck, CompileLength, Ext, Add, LevelOf;
    var r1 := CompileLower(t, q, skip, ml, cfg, r);
    var r2 := Add(r1, head, hlen);
    var r3 := CompileEmptyCheck(t, q.emptyInfo, ml, cfg, r2);
    var r4 := Add(r3, back, blen);
    Down(prog, r3, r4); Down(prog, r2, r3); Down(prog, r1, r2);
    LowerSame(prog, cfg, t, q, skip, ml, r);
    SameAfter(prog, r1, head, hlen);
    BodyMoves(prog, cfg, t, r, r2);
    CheckSame(prog, cfg, t, q.emptyInfo, ml, r2);
    SameAfter(prog, r3, back, blen);
  }

  /** The closing instruction of a loop can be skipped. */
  lemma SkipsTo(prog: Prog, r: Reg, i: Instr, size: nat)
    requires size == Size(i) && Within(prog, Add(r, i, size)) && (i.OpJump? || i.OpPush? || CounterInc(i))
    ensures SkipLoopEnd(prog, |r.code|) == Some(|Add(r, i, size).code|)
  {
    AddCells(prog.code, r, i, size);
  }

  lemma PushLoopFlat(prog: Prog, cfg: Cfg, t: Node, q: Rep, ml: bool, r: Reg)
    requires Formed(t) && RepOk(q) && BodyOk(prog, cfg, t, r) && Within(prog, CompilePushLoop(t, q, ml, cfg, r))
    ensures Flat(prog, r, CompilePushLoop(t, q, ml, cfg, r))
    decreases t, 6, 0
  {
    hide Formed, RepOk, BodyOk, Flat, CompileTree, CompileTimes, CompileLower, CompileEmptyCheck, CompileLength, Ext;
    hide Add, LevelOf, SkipLoopEnd, Within, Still;
    var modTlen := ModLen(q.emptyInfo, CompileLength(t, cfg));
    HeadStill(prog, q, modTlen + SIZE_OP_JUMP);
    var hlen := LoopHeadLength(q);
    var head := LoopHead(q, modTlen + SIZE_OP_JUMP);
    hide LoopHead, LoopHeadLength;
    var back := OpJump(-(modTlen + SIZE_OP_JUMP + hlen));
    PushStill(prog, back.addr);
    var r1 := CompileLower(t, q, hlen, ml, cfg, r);
    var r2 := Add(r1, head, hlen);
    var r3 := CompileEmptyCheck(t, q.emptyInfo, ml, cfg, r2);
    var r4 := Add(r3, back, SIZE_OP_JUMP);
    LoopLevels(prog, cfg, t, q, hlen, head, hlen, back, SIZE_OP_JUMP, ml, r);
    LowerFlat(prog, cfg, t, q, hlen, ml, r, r2);
    HeadTarget(q, |r1.code|, modTlen + SIZE_OP_JUMP);
    JumpFlat(prog, r1, head, hlen, r4);
    SkipsTo(prog, r3, back, SIZE_OP_JUMP);
    CheckFlat(prog, cfg, t, q.emptyInfo, ml, r2, r4);
    JumpFlat(prog, r3, back, SIZE_OP_JUMP, r1);
    FlatSeq(prog, r, r1, r2);
    FlatSeq(prog, r, r2, r3);
    FlatSeq(prog, r, r3, r4);
  }

  lemma HeadStill(prog: Prog, q: Rep, addr: int)
    requires RepOk(q)
    ensures Still(prog, LoopHead(q, addr)) && LoopHeadLength(q) >= 1 && Size(LoopHead(q, addr)) == LoopHeadLength(q)
            && !LoopHead(q, addr).OpNullCheckEnd?
  {
  }

  lemma HeadTarget(q: Rep, a: int, addr: int)
    requires RepOk(q)
    ensures Target(LoopHead(q, addr), a) == Some(a + LoopHeadLength(q) + addr)
  {
  }

  lemma LazyLoopFlat(prog: Prog, cfg: Cfg, t: Node, q: Rep, ml: bool, r: Reg)
    requires Formed(t) && RepOk(q) && BodyOk(prog, cfg, t, r) && Within(prog, CompileLazyLoop(t, q, ml, cfg, r))
    ensures Flat(prog, r, CompileLazyLoop(t, q, ml, cfg, r))
    decreases t, 6, 0
  {
    hide Formed, RepOk, BodyOk, Flat, CompileTree, CompileTimes, CompileLower, CompileEmptyCheck, CompileLength, Ext;
    hide Add, LevelOf, SkipLoopEnd, Within, Still;
    var modTlen := ModLen(q.emptyInfo, CompileLength(t, cfg));
    var head, back := OpJump(modTlen), OpPush(-(modTlen + SIZE_OP_PUSH));
    PushStill(prog, head.addr); PushStill(prog, back.addr);
    var r1 := CompileLower(t, q, SIZE_OP_JUMP, ml, cfg, r);
    var r2 := Add(r1, head, SIZE_OP_JUMP);
    var r3 := CompileEmptyCheck(t, q.emptyInfo, ml, cfg, r2);
    var r4 := Add(r3, back, SIZE_OP_PUSH);
    LoopLevels(prog, cfg, t, q, SIZE_OP_JUMP, head, SIZE_OP_JUMP, back, SIZE_OP_PUSH, ml, r);
    LowerFlat(prog, cfg, t, q, SIZE_OP_JUMP, ml, r, r2);
    JumpFlat(prog, r1, head, SIZE_OP_JUMP, r3);
    SkipsTo(prog, r3, back, SIZE_OP_PUSH);
    CheckFlat(prog, cfg, t, q.emptyInfo, ml, r2, r4);
    JumpFlat(prog, r3, back, SIZE_OP_PUSH, r2);
    FlatSeq(prog, r, r1, r2);
    FlatSeq(prog, r, r2, r3);
    FlatSeq(prog, r, r3, r4);
  }

  lemma CounterFlat(prog: Prog, cfg: Cfg, t: Node, q: Rep, ml: bool, r: Reg)
    requires Formed(t) && RepOk(q) && BodyOk(prog, cfg, t, r) && Within(prog, CompileCounter(t, q, ml, cfg, r))
    ensures Flat(prog, r, CompileCounter(t, q, ml, cfg, r))
    decreases t, 6, 0
  {
    hide Formed, RepOk, BodyOk, Flat, CompileCounter, Within, Fixed;
    if Fixed(prog, |r.ranges|) {
      hide Kept, Numbered, Steady, Clear, GroupsOf;
      BodyIs(prog, cfg, t, r);
      FixedLevels(prog, cfg, t, q, ml, r);
      KeptFlat(prog, GroupsOf(t), cfg, r, CompileCounter(t, q, ml, cfg, r));
    } else {
      LightCounter(prog, cfg, t, q, ml, r);
    }
  }

  lemma BodyIs(prog: Prog, cfg: Cfg, t: Node, r: Reg)
    requires Formed(t) && BodyOk(prog, cfg, t, r)
    ensures Numbered(t) && Steady(t, cfg) && GroupsOf(t) <= cfg.btMemStart && Clear(prog, GroupsOf(t), r)
  {
    hide Formed, Numbered, Steady, GroupsOf, Clear;
  }

  lemma IsBody(prog: Prog, cfg: Cfg, t: Node, r: Reg)
    requires Formed(t) && Numbered(t) && Steady(t, cfg) && GroupsOf(t) <= cfg.btMemStart && Clear(prog, GroupsOf(t), r)
    ensures BodyOk(prog, cfg, t, r)
  {
    hide Formed, Numbered, Steady, GroupsOf, Clear;
  }

  lemma CounterStill(prog: Prog, q: Rep, id: nat, addr: nat)
    requires !Fixed(prog, id)
    ensures Still(prog, if q.greedy then OpRepeat(id, addr) else OpRepeatNg(id, addr))
            && Still(prog, RepeatIncInstr(q, id))
  {
  }

  /** The levels in a counter whose number of rounds is not fixed. */
  lemma LightSame(prog: Prog, cfg: Cfg, t: Node, q: Rep, addr: nat, ml: bool, r: Reg)
    requires Formed(t) && BodyOk(prog, cfg, t, r) && !Fixed(prog, |r.ranges|)
    requires var r2 := CompileEmptyCheck(t, q.emptyInfo, ml, cfg, CounterHead(q, addr, r));
             Within(prog, Add(r2, RepeatIncInstr(q, |r.ranges|), SIZE_OP_REPEAT_INC))
    ensures var r1 := CounterHead(q, addr, r);
            var r2 := CompileEmptyCheck(t, q.emptyInfo, ml, cfg, r1);
            var r3 := Add(r2, RepeatIncInstr(q, |r.ranges|), SIZE_OP_REPEAT_INC);
            && Within(prog, r1) && Within(prog, r2) && BodyOk(prog, cfg, t, r1)
            && LevelOf(prog, r1.code) == LevelOf(prog, r2.code) == LevelOf(prog, r3.code) == LevelOf(prog, r.code)
    decreases t, 4, 0
  {
    hide Formed, BodyOk, Flat, CompileTree, CompileEmptyCheck, CompileLength, Ext, Add, LevelOf, Still, Fixed, Within;
    var id := |r.ranges|;
    var open := if q.greedy then OpRepeat(id, addr) else OpRepeatNg(id, addr);
    var r1 := CounterHead(q, addr, r);
    var r2 := CompileEmptyCheck(t, q.emptyInfo, ml, cfg, r1);
    Down(prog, r2, Add(r2, RepeatIncInstr(q, id), SIZE_OP_REPEAT_INC)); Down(prog, r1, r2);
    CounterStill(prog, q, id, addr);
    SameAfter(prog, r, open, SIZE_OP_REPEAT);
    BodyMoves(prog, cfg, t, r, r1);
    CheckSame(prog, cfg, t, q.emptyInfo, ml, r1);
    SameAfter(prog, r2, RepeatIncInstr(q, id), SIZE_OP_REPEAT_INC);
  }

  /** A counter whose number of rounds is not fixed. */
  lemma LightCounter(prog: Prog, cfg: Cfg, t: Node, q: Rep, ml: bool, r: Reg)
    requires Formed(t) && RepOk(q) && BodyOk(prog, cfg, t, r) && Within(prog, CompileCounter(t, q, ml, cfg, r))
    requires !Fixed(prog, |r.ranges|)
    ensures Flat(prog, r, CompileCounter(t, q, ml, cfg, r))
    decreases t, 5, 0
  {
    hide Formed, RepOk, BodyOk, Flat, CompileTree, CompileEmptyCheck, CompileLength, Ext, Add, LevelOf, SkipLoopEnd;
    hide Still, Fixed, Within, CounterHead, RepeatIncInstr;
    var id := |r.ranges|;
    var addr := ModLen(q.emptyInfo, CompileLength(t, cfg)) + SIZE_OP_REPEAT_INC;
    var open := if q.greedy then OpRepeat(id, addr) else OpRepeatNg(id, addr);
    var inc := RepeatIncInstr(q, id);
    var r1 := CounterHead(q, addr, r);
    var r2 := CompileEmptyCheck(t, q.emptyInfo, ml, cfg, r1);
    var r3 := Add(r2, inc, SIZE_OP_REPEAT_INC);
    assert r3 == CompileCounter(t, q, ml, cfg, r);
    ExtIs(r1, r2);
    CounterParts(prog, q, addr, r, r2);
    LightSame(prog, cfg, t, q, addr, ml, r);
    CounterStill(prog, q, id, addr);
    JumpFlat(prog, r, open, SIZE_OP_REPEAT, r3);
    FlatNumbered(prog, r, Add(r, open, SIZE_OP_REPEAT), r1);
    SkipsTo(prog, r2, inc, SIZE_OP_REPEAT_INC);
    CheckFlat(prog, cfg, t, q.emptyInfo, ml, r1, r3);
    PlainFlat(prog, r2, inc, SIZE_OP_REPEAT_INC);
    FlatSeq(prog, r, r1, r2);
    FlatSeq(prog, r, r2, r3);
  }

  /** What the three parts of a counter are made of. */
  lemma CounterParts(prog: Prog, q: Rep, addr: nat, r: Reg, r2: Reg)
    requires Within(prog, Add(r2, RepeatIncInstr(q, |r.ranges|), SIZE_OP_REPEAT_INC))
    requires CounterHead(q, addr, r).code <= r2.code && CounterHead(q, addr, r).ranges <= r2.ranges
    ensures var r1 := CounterHead(q, addr, r);
            var open := if q.greedy then OpRepeat(|r.ranges|, addr) else OpRepeatNg(|r.ranges|, addr);
            var r0 := Add(r, open, SIZE_OP_REPEAT);
            && r1.code == r0.code && r0.ranges <= r1.ranges <= prog.ranges && Within(prog, r0)
            && |r1.code| == |r.code| + SIZE_OP_REPEAT
    ensures var inc := RepeatIncInstr(q, |r.ranges|);
            CounterInc(inc) && CounterId(inc) == |r.ranges| && Size(inc) == SIZE_OP_REPEAT_INC
            && Target(inc, 0).None? && !inc.OpNullCheckEnd?
  {
    hide Add;
  }

  // ----- a counter whose number of rounds is fixed -----

  /** The opening instruction and the increment, around a body. */
  lemma FixedCounter(prog: Prog, q: Rep, addr: nat, r: Reg, r1: Reg, r2: Reg, r3: Reg)
    requires var id := |r.ranges|;
             && Fixed(prog, id) && Clear(prog, {}, r) && r1 == CounterHead(q, addr, r)
             && r3 == Add(r2, RepeatIncInstr(q, id), SIZE_OP_REPEAT_INC) && Within(prog, r3)
             && |r1.code| + addr == |r3.code|
    requires Rises(LevelOf(prog, r1.code), LevelOf(prog, r2.code))
             && r1.code <= r2.code && r1.ranges <= r2.ranges
    ensures LevelsOf(prog, r, r1) && LevelsOf(prog, r2, r3) && Rises(LevelOf(prog, r.code), LevelOf(prog, r3.code))
    ensures LevelOf(prog, r2.code) == LevelOf(prog, r1.code) ==>
              && LevelOf(prog, r3.code) == LevelOf(prog, r.code)
              && Quits(prog, LevelOf(prog, r1.code), LevelOf(prog, r3.code))
  {
    HeadLevels(prog, q, addr, r, r1, r2, r3);
    IncLevels(prog, q, |r.ranges|, r2, r3);
    hide LevelOf, LevelAt, LevelCell, Over, IncOf, Add, CounterHead, RepeatIncInstr;
    var l, l1, l2 := LevelOf(prog, r.code), LevelOf(prog, r1.code), LevelOf(prog, r2.code);
    TimesNone(Turns(prog, |r.ranges|));
    assert l2.passed == l1.passed ==> l2.passed - l.passed == multiset{};
    assert l2.loops[..|l2.loops| - 1] == l.loops;
  }

  lemma {:induction false} TimesNone(n: nat)
    ensures Times(n, multiset{}) == multiset{}
  {
    if n > 0 { TimesNone(n - 1); }
  }

  lemma HeadLevels(prog: Prog, q: Rep, addr: nat, r: Reg, r1: Reg, r2: Reg, r3: Reg)
    requires var id := |r.ranges|;
             && Fixed(prog, id) && Clear(prog, {}, r) && r1 == CounterHead(q, addr, r)
             && r3 == Add(r2, RepeatIncInstr(q, id), SIZE_OP_REPEAT_INC) && Within(prog, r3)
             && |r1.code| + addr == |r3.code|
    requires Rises(LevelOf(prog, r1.code), LevelOf(prog, r2.code))
             && r1.code <= r2.code && r1.ranges <= r2.ranges
    ensures LevelsOf(prog, r, r1) && IncOf(prog, |r.code|) == Some(|r2.code|)
    ensures LevelAt(prog, |r2.code|) == LevelOf(prog, r2.code)
    ensures var l := LevelOf(prog, r.code);
            LevelOf(prog, r1.code) == l.(loops := l.loops + [Loop(|r.ranges|, |r.code|, l.passed)])
  {
    var id := |r.ranges|;
    var open := HeadInstr(q, id, addr);
    var r0 := Add(r, open, SIZE_OP_REPEAT);
    hide *;
    HeadIs(q, addr, r);
    HeadOver(prog, q, id, addr, |r.code|, LevelOf(prog, r.code));
    HeadWithin(prog, q, id, r, r0, r1, r2, r3);
    AddOne(prog, r, open, SIZE_OP_REPEAT);
    LevelAtEnd(prog, r2);
    HeadInc(prog, r, q, addr, r2);
    HeadOpening(prog, |r.code|, |r2.code|, id, LevelOf(prog, r.code), LevelOf(prog, r2.code), r);
    HeadCell(prog, q, id, addr, |r.code|);
    OneLevel(prog, r, r0, r1);
  }

  lemma HeadWithin(prog: Prog, q: Rep, id: nat, r: Reg, r0: Reg, r1: Reg, r2: Reg, r3: Reg)
    requires r3 == Add(r2, RepeatIncInstr(q, id), SIZE_OP_REPEAT_INC) && Within(prog, r3)
    requires r1.code == r0.code && r0.ranges == r.ranges <= r1.ranges && r1.code <= r2.code && r1.ranges <= r2.ranges
    ensures Within(prog, r0) && Within(prog, r1) && Within(prog, r2) && |r3.code| == |r2.code| + SIZE_OP_REPEAT_INC
  {
  }

  lemma HeadOpening(prog: Prog, a: int, c: int, id: nat, l: Level, e: Level, r: Reg)
    requires At(prog.code, a) && IncOf(prog, a) == Some(c) && Clear(prog, {}, r) && id == |r.ranges|
    requires l == LevelOf(prog, r.code) == LevelAt(prog, a) && 0 <= c <= |prog.code| && LevelAt(prog, c) == e
    requires Rises(l.(loops := l.loops + [Loop(id, a, l.passed)]), e)
    ensures Opening(prog, a, id)
  {
    hide LevelAt, LevelOf, IncOf;
  }

  /** One instruction, whose cell keeps its level. */
  lemma OneLevel(prog: Prog, r: Reg, r0: Reg, r1: Reg)
    requires |r.code| <= |r0.code| && r1.code == r0.code && r.ranges <= r1.ranges && Within(prog, r1)
    requires forall a :: |r.code| <= a < |r0.code| && At(prog.code, a) ==> a == |r.code|
    requires At(prog.code, |r.code|) && LevelCell(prog, |r.code|)
    ensures LevelsOf(prog, r, r1)
  {
    hide LevelCell;
  }

  function HeadInstr(q: Rep, id: nat, addr: nat): Instr {
    if q.greedy then OpRepeat(id, addr) else OpRepeatNg(id, addr)
  }

  lemma HeadIs(q: Rep, addr: nat, r: Reg)
    ensures var r0 := Add(r, HeadInstr(q, |r.ranges|, addr), SIZE_OP_REPEAT);
            var r1 := CounterHead(q, addr, r);
            r1.code == r0.code && r0.ranges == r.ranges <= r1.ranges && |r0.code| == |r.code| + SIZE_OP_REPEAT
    ensures Size(HeadInstr(q, |r.ranges|, addr)) == SIZE_OP_REPEAT
  {
    hide Add;
  }

  lemma HeadOver(prog: Prog, q: Rep, id: nat, addr: nat, a: int, l: Level)
    requires Fixed(prog, id)
    ensures Over(prog, HeadInstr(q, id, addr), a, l) == l.(loops := l.loops + [Loop(id, a, l.passed)])
  {
  }

  lemma HeadInc(prog: Prog, r: Reg, q: Rep, addr: nat, r2: Reg)
    requires At(prog.code, |r.code|) && prog.code[|r.code|].i == HeadInstr(q, |r.ranges|, addr)
    requires |r.code| + SIZE_OP_REPEAT + addr == |r2.code| + SIZE_OP_REPEAT_INC && Within(prog, r2)
    ensures IncOf(prog, |r.code|) == Some(|r2.code|)
  {
  }

  lemma HeadCell(prog: Prog, q: Rep, id: nat, addr: nat, a: int)
    requires At(prog.code, a) && prog.code[a].i == HeadInstr(q, id, addr) && Fixed(prog, id) && Opening(prog, a, id)
    requires a + SIZE_OP_REPEAT <= |prog.code|
    requires LevelAt(prog, a + SIZE_OP_REPEAT) == Over(prog, HeadInstr(q, id, addr), a, LevelAt(prog, a))
    ensures LevelCell(prog, a)
  {
    hide LevelAt, Opening, Over, Fixed;
  }

  lemma IncLevels(prog: Prog, q: Rep, id: nat, r2: Reg, r3: Reg)
    requires Fixed(prog, id) && r3 == Add(r2, RepeatIncInstr(q, id), SIZE_OP_REPEAT_INC) && Within(prog, r3)
    ensures LevelsOf(prog, r2, r3) && LevelOf(prog, r3.code) == Ended(prog, id, LevelOf(prog, r2.code))
  {
    var i := RepeatIncInstr(q, id);
    hide LevelAt, LevelOf, Ended, Add, Fixed, LevelCell, Over;
    AddOne(prog, r2, i, SIZE_OP_REPEAT_INC);
    IncCell(prog, i, id, |r2.code|);
    assert |r3.code| == |r2.code| + SIZE_OP_REPEAT_INC && r3.ranges == r2.ranges;
  }

  lemma IncCell(prog: Prog, i: Instr, id: nat, a: int)
    requires At(prog.code, a) && prog.code[a].i == i && CounterInc(i) && CounterId(i) == id
    requires a + SIZE_OP_REPEAT_INC <= |prog.code|
    requires LevelAt(prog, a + SIZE_OP_REPEAT_INC) == Over(prog, i, a, LevelAt(prog, a))
    ensures LevelCell(prog, a) && Over(prog, i, a, LevelAt(prog, a)) == Ended(prog, id, LevelAt(prog, a))
  {
    hide LevelAt, Ended, Opening;
  }

  lemma FixedLevels(prog: Prog, cfg: Cfg, t: Node, q: Rep, ml: bool, r: Reg)
    requires Formed(t) && RepOk(q) && Numbered(t) && Steady(t, cfg) && Clear(prog, GroupsOf(t), r)
    requires Within(prog, CompileCounter(t, q, ml, cfg, r)) && Fixed(prog, |r.ranges|)
    requires GroupsOf(t) <= cfg.btMemStart || q.emptyInfo == IsNotEmpty
    ensures Kept(prog, GroupsOf(t), cfg, r, CompileCounter(t, q, ml, cfg, r))
    decreases t, 5, 0
  {
    hide Formed, RepOk, Numbered, Steady, GroupsOf, CompileTree, CompileEmptyCheck, CompileLength, Ext, Add, LevelOf;
    hide SkipLoopEnd, Clear, Kept, Fixed, CounterHead, LevelsOf;
    var addr := ModLen(q.emptyInfo, CompileLength(t, cfg)) + SIZE_OP_REPEAT_INC;
    var inc := RepeatIncInstr(q, |r.ranges|);
    var r1 := CounterHead(q, addr, r);
    var r2 := CompileEmptyCheck(t, q.emptyInfo, ml, cfg, r1);
    var r3 := Add(r2, inc, SIZE_OP_REPEAT_INC);
    assert r3 == CompileCounter(t, q, ml, cfg, r);
    Down(prog, r2, r3); Down(prog, r1, r2);
    ExtIs(r1, r2);
    HeadClear(prog, q, addr, GroupsOf(t), r);
    if GroupsOf(t) <= cfg.btMemStart {
      IsBody(prog, cfg, t, r1);
      CheckSame(prog, cfg, t, q.emptyInfo, ml, r1);
      FixedCounter(prog, q, addr, r, r1, r2, r3);
      SkipsTo(prog, r2, inc, SIZE_OP_REPEAT_INC);
      CheckFlat(prog, cfg, t, q.emptyInfo, ml, r1, r3);
    } else {
      EmptyCheckNone(t, ml, cfg, r1);
      TreeLevels(prog, cfg, t, ml, r1);
      KeptRises(prog, GroupsOf(t), cfg, r1, r2);
      FixedCounter(prog, q, addr, r, r1, r2, r3);
    }
    JoinCounter(prog, GroupsOf(t), cfg, r, r1, r2, r3);
  }

  lemma HeadClear(prog: Prog, q: Rep, addr: nat, groups: set<nat>, r: Reg)
    requires Clear(prog, groups, r) && Within(prog, CounterHead(q, addr, r))
    ensures Clear(prog, groups, CounterHead(q, addr, r)) && Clear(prog, {}, r)
  {
    hide LevelOf, Add;
    OverAdd(prog, r, if q.greedy then OpRepeat(|r.ranges|, addr) else OpRepeatNg(|r.ranges|, addr), SIZE_OP_REPEAT);
  }

  lemma ExtIs(r: Reg, r': Reg)
    requires Ext(r, r')
    ensures r.code <= r'.code && r.ranges <= r'.ranges
  {
  }

  lemma EmptyCheckNone(t: Node, ml: bool, cfg: Cfg, r: Reg)
    requires Formed(t)
    ensures CompileEmptyCheck(t, IsNotEmpty, ml, cfg, r) == CompileTree(t, ml, cfg, r)
  {
    hide Formed, CompileTree, Ext, CompileLength;
  }

  lemma KeptRises(prog: Prog, groups: set<nat>, cfg: Cfg, r: Reg, r': Reg)
    requires Kept(prog, groups, cfg, r, r')
    ensures Rises(LevelOf(prog, r.code), LevelOf(prog, r'.code)) && LevelsOf(prog, r, r')
  {
    hide LevelsOf, LevelOf;
  }

  lemma JoinCounter(prog: Prog, groups: set<nat>, cfg: Cfg, r: Reg, r1: Reg, r2: Reg, r3: Reg)
    requires LevelsOf(prog, r, r1) && LevelsOf(prog, r1, r2) && LevelsOf(prog, r2, r3)
    requires Rises(LevelOf(prog, r.code), LevelOf(prog, r3.code))
    requires groups <= cfg.btMemStart ==> LevelOf(prog, r3.code) == LevelOf(prog, r.code)
    ensures Kept(prog, groups, cfg, r, r3)
  {
    hide LevelsOf, LevelOf;
    LevelsJoin(prog, r, r1, r2);
    LevelsJoin(prog, r, r2, r3);
  }

  lemma StarFlat(prog: Prog, cfg: Cfg, t: Node, q: Rep, ml: bool, r: Reg)
    requires Formed(t) && RepOk(q) && BodyOk(prog, cfg, t, r) && Within(prog, CompileAnycharStar(t, q, ml, cfg, r))
    ensures Flat(prog, r, CompileAnycharStar(t, q, ml, cfg, r))
    decreases t, 6, 0
  {
    hide Formed, BodyOk, Flat, CompileTree, CompileTimes, CompileLength, Ext, Add, LevelOf;
    var r1 := CompileTimes(t, q.lower, ml, cfg, r);
    var i := if q.nextHead.Some? then OpAnyCharStarPeekNext(ml, q.nextHead.value[0]) else OpAnyCharStar(ml);
    var r2 := Add(r1, i, Size(i));
    assert r2 == CompileAnycharStar(t, q, ml, cfg, r);
    Down(prog, r1, r2);
    TimesFlat(prog, cfg, t, q.lower, ml, r);
    PlainFlat(prog, r1, i, Size(i));
    FlatSeq(prog, r, r1, r2);
  }

  lemma SkippedFlat(prog: Prog, cfg: Cfg, t: Node, ml: bool, r: Reg)
    requires Formed(t) && BodyOk(prog, cfg, t, r) && Within(prog, CompileSkipped(t, ml, cfg, r))
    ensures Flat(prog, r, CompileSkipped(t, ml, cfg, r))
    decreases t, 6, 0
  {
    hide Formed, BodyOk, Flat, CompileTree, CompileLength, Ext, Add, LevelOf;
    var jump := OpJump(CompileLength(t, cfg));
    var r1 := Add(r, jump, SIZE_OP_JUMP);
    var r2 := CompileTree(t, ml, cfg, r1);
    Down(prog, r1, r2);
    SameAfter(prog, r, jump, SIZE_OP_JUMP);
    BodyMoves(prog, cfg, t, r, r1);
    BodyFlat(prog, cfg, t, ml, r1);
    FlatLevel(prog, r1, r2);
    JumpFlat(prog, r, jump, SIZE_OP_JUMP, r2);
    FlatSeq(prog, r, r1, r2);
  }

  lemma LazyOptionFlat(prog: Prog, cfg: Cfg, t: Node, ml: bool, r: Reg)
    requires Formed(t) && BodyOk(prog, cfg, t, r) && Within(prog, CompileLazyOption(t, ml, cfg, r))
    ensures Flat(prog, r, CompileLazyOption(t, ml, cfg, r))
    decreases t, 6, 0
  {
    hide Formed, BodyOk, Flat, CompileTree, CompileLength, Ext, Add, LevelOf;
    var push, jump := OpPush(SIZE_OP_JUMP), OpJump(CompileLength(t, cfg));
    var r1 := Add(r, push, SIZE_OP_PUSH);
    var r2 := Add(r1, jump, SIZE_OP_JUMP);
    var r3 := CompileTree(t, ml, cfg, r2);
    Down(prog, r2, r3); Down(prog, r1, r2);
    SameAfter(prog, r, push, SIZE_OP_PUSH);
    SameAfter(prog, r1, jump, SIZE_OP_JUMP);
    BodyMoves(prog, cfg, t, r, r2);
    BodyFlat(prog, cfg, t, ml, r2);
    FlatLevel(prog, r2, r3);
    JumpFlat(prog, r, push, SIZE_OP_PUSH, r2);
    JumpFlat(prog, r1, jump, SIZE_OP_JUMP, r3);
    FlatSeq(prog, r, r1, r2);
    FlatSeq(prog, r, r2, r3);
  }

  lemma CopiesFlat(prog: Prog, cfg: Cfg, t: Node, lower: nat, more: nat, ml: bool, r: Reg)
    requires Formed(t) && BodyOk(prog, cfg, t, r)
    requires Within(prog, CompileOptional(t, more, ml, cfg, CompileTimes(t, lower, ml, cfg, r)))
    ensures Flat(prog, r, CompileOptional(t, more, ml, cfg, CompileTimes(t, lower, ml, cfg, r)))
    decreases t, 6, 0
  {
    hide Formed, BodyOk, Flat, CompileTimes, CompileOptional, CompileLength, Ext, LevelOf;
    var r1 := CompileTimes(t, lower, ml, cfg, r);
    var r2 := CompileOptional(t, more, ml, cfg, r1);
    Down(prog, r1, r2);
    TimesFlat(prog, cfg, t, lower, ml, r);
    FlatLevel(prog, r, r1);
    BodyMoves(prog, cfg, t, r, r1);
    OptionalFlat(prog, cfg, t, more, ml, r1);
    FlatSeq(prog, r, r1, r2);
  }

  lemma QuantFlat(prog: Prog, cfg: Cfg, t: Node, q: Rep, ml: bool, r: Reg)
    requires Formed(t) && RepOk(q) && BodyOk(prog, cfg, t, r) && Within(prog, CompileQuant(t, q, ml, cfg, r))
    ensures Flat(prog, r, CompileQuant(t, q, ml, cfg, r))
    decreases t, 7, 0
  {
    hide *;
    CompileQuantIs(t, q, ml, cfg, r);
    match FormOf(t, q, CompileLength(t, cfg))
    case AnycharStar => StarFlat(prog, cfg, t, q, ml, r);
    case PushLoop => PushLoopFlat(prog, cfg, t, q, ml, r);
    case LazyLoop => LazyLoopFlat(prog, cfg, t, q, ml, r);
    case Skipped => SkippedFlat(prog, cfg, t, ml, r);
    case Copies => CopiesFlat(prog, cfg, t, q.lower, q.upper - q.lower, ml, r);
    case LazyOption => LazyOptionFlat(prog, cfg, t, ml, r);
    case Counter => CounterFlat(prog, cfg, t, q, ml, r);
  }

  // ----- a fixed repeat that is written out -----

  lemma {:induction false} TimesLevels(prog: Prog, cfg: Cfg, t: Node, k: nat, ml: bool, r: Reg)
    requires Formed(t) && Numbered(t) && Steady(t, cfg) && Clear(prog, GroupsOf(t), r)
    requires Within(prog, CompileTimes(t, k, ml, cfg, r))
    ensures Kept(prog, GroupsOf(t), cfg, r, CompileTimes(t, k, ml, cfg, r))
    decreases t, 3, k
  {
    hide Formed, Numbered, Steady, GroupsOf, LevelOf, LevelsOf, CompileTree, CompileLength, Ext;
    if k == 0 {
      FlatNone(prog, r);
      FlatKept(prog, GroupsOf(t), cfg, r, r);
    } else {
      var r1 := CompileTree(t, ml, cfg, r);
      var r2 := CompileTimes(t, k - 1, ml, cfg, r1);
      Down(prog, r1, r2);
      TreeLevels(prog, cfg, t, ml, r);
      KeptClear(prog, GroupsOf(t), cfg, r, r1, GroupsOf(t));
      TimesLevels(prog, cfg, t, k - 1, ml, r1);
      KeptSeq(prog, cfg, GroupsOf(t), GroupsOf(t), r, r1, r2);
      assert GroupsOf(t) + GroupsOf(t) == GroupsOf(t);
    }
  }

  lemma QuantLevels(prog: Prog, cfg: Cfg, t: Node, q: Rep, ml: bool, r: Reg)
    requires Formed(t) && RepOk(q) && Numbered(t) && Steady(Quant(t, q), cfg) && Clear(prog, GroupsOf(t), r)
    requires Within(prog, CompileQuant(t, q, ml, cfg, r))
    ensures Kept(prog, GroupsOf(t), cfg, r, CompileQuant(t, q, ml, cfg, r))
    decreases t, 8, 0
  {
    assert Formed(Quant(t, q));
    hide Formed, Numbered, GroupsOf, LevelOf, LevelsOf, CompileTree, CompileLength, Ext, CompileQuant, CompileTimes;
    hide Kept;
    if GroupsOf(t) <= cfg.btMemStart {
      QuantFlat(prog, cfg, t, q, ml, r);
      FlatKept(prog, GroupsOf(t), cfg, r, CompileQuant(t, q, ml, cfg, r));
    } else {
      CompileQuantIs(t, q, ml, cfg, r);
      var form := FormOf(t, q, CompileLength(t, cfg));
      hide FormOf;
      if form.Copies? {
        TimesLevels(prog, cfg, t, q.lower, ml, r);
      } else {
        CounterFixed(prog, t, q, ml, cfg, r);
        FixedLevels(prog, cfg, t, q, ml, r);
      }
    }
  }

  lemma CounterFixed(prog: Prog, t: Node, q: Rep, ml: bool, cfg: Cfg, r: Reg)
    requires Formed(t) && RepOk(q) && q.lower == q.upper >= 1 && Within(prog, CompileCounter(t, q, ml, cfg, r))
    ensures Fixed(prog, |r.ranges|)
  {
    hide Formed, CompileLength, CompileTree, Add;
    var addr := ModLen(q.emptyInfo, CompileLength(t, cfg)) + SIZE_OP_REPEAT_INC;
    var r1 := CounterHead(q, addr, r);
    assert r1.ranges <= CompileCounter(t, q, ml, cfg, r).ranges <= prog.ranges;
    assert r1.ranges[|r.ranges|] == Range(q.lower, UpperOf(q));
  }

  // ----- the other nodes -----

  lemma GroupLevels(prog: Prog, cfg: Cfg, k: nat, b: Node, ml: bool, r: Reg)
    requires Formed(b) && Numbered(Group(k, b)) && Steady(b, cfg) && Clear(prog, {k} + GroupsOf(b), r)
    requires Within(prog, CompileGroup(k, b, ml, cfg, r))
    ensures Kept(prog, {k} + GroupsOf(b), cfg, r, CompileGroup(k, b, ml, cfg, r))
    decreases b, 5, 0
  {
    hide Formed, Steady, GroupsOf, LevelOf, LevelsOf, CompileTree, CompileLength, Ext, Add;
    var open := if k in cfg.btMemStart then OpMemoryStartPush(k) else OpMemoryStart(k);
    var close := if k in cfg.btMemEnd then OpMemoryEndPush(k) else OpMemoryEnd(k);
    var r1 := Add(r, open, SIZE_OP_MEMORY_START);
    var r2 := CompileTree(b, ml, cfg, r1);
    var r3 := Add(r2, close, SIZE_OP_MEMORY_END);
    Down(prog, r2, r3); Down(prog, r1, r2);
    MemLevels(prog, r, open, SIZE_OP_MEMORY_START);
    TreeLevels(prog, cfg, b, ml, r1);
    MemLevels(prog, r2, close, SIZE_OP_MEMORY_END);
    LevelsJoin(prog, r, r1, r2);
    LevelsJoin(prog, r, r2, r3);
    assert LevelOf(prog, r.code).open + {k} - {k} == LevelOf(prog, r.code).open;
  }

  /** One instruction in front of a body and one behind it. */
  lemma Bracket(prog: Prog, cfg: Cfg, b: Node, ml: bool, r: Reg, open: Instr, n0: nat, close: Instr, n1: nat)
    requires Formed(b) && Numbered(b) && Steady(b, cfg) && Clear(prog, GroupsOf(b), r)
    requires n0 >= 1 && n0 == Size(open) && n1 >= 1 && n1 == Size(close) && Still(prog, open) && Still(prog, close)
    requires Target(open, 0).None? && Target(close, 0).None? && !open.OpNullCheckEnd? && !close.OpNullCheckEnd?
    requires Within(prog, Add(CompileTree(b, ml, cfg, Add(r, open, n0)), close, n1))
    ensures Kept(prog, GroupsOf(b), cfg, r, Add(CompileTree(b, ml, cfg, Add(r, open, n0)), close, n1))
    decreases b, 3, 0
  {
    hide Formed, Numbered, Steady, GroupsOf, LevelOf, LevelsOf, CompileTree, CompileLength, Ext, Add, Target, Kept;
    var r1 := Add(r, open, n0);
    var r2 := CompileTree(b, ml, cfg, r1);
    var r3 := Add(r2, close, n1);
    Down(prog, r2, r3); Down(prog, r1, r2);
    PlainFlat(prog, r, open, n0);
    FlatKept(prog, {}, cfg, r, r1);
    TreeLevels(prog, cfg, b, ml, r1);
    PlainFlat(prog, r2, close, n1);
    FlatKept(prog, {}, cfg, r2, r3);
    KeptSeq(prog, cfg, {}, GroupsOf(b), r, r1, r2);
    KeptSeq(prog, cfg, {} + GroupsOf(b), {}, r, r2, r3);
    assert {} + GroupsOf(b) + {} == GroupsOf(b);
  }

  /** A negative look-around: the opening instruction knows the way on. */
  lemma NotLevels(prog: Prog, cfg: Cfg, b: Node, ml: bool, r: Reg, open: Instr, n0: nat, close: Instr, n1: nat)
    requires Formed(b) && BodyOk(prog, cfg, b, r) && n0 >= 1 && n0 == Size(open) && n1 >= 1 && n1 == Size(close)
    requires Still(prog, open) && Still(prog, close) && Target(close, 0).None?
    requires !open.OpNullCheckEnd? && !close.OpNullCheckEnd?
    requires var r3 := Add(CompileTree(b, ml, cfg, Add(r, open, n0)), close, n1);
             Within(prog, r3) && Target(open, |r.code|) == Some(|r3.code|)
    ensures Flat(prog, r, Add(CompileTree(b, ml, cfg, Add(r, open, n0)), close, n1))
    decreases b, 3, 0
  {
    hide Formed, BodyOk, LevelOf, Flat, CompileTree, CompileLength, Ext, Add, Target;
    var r1 := Add(r, open, n0);
    var r2 := CompileTree(b, ml, cfg, r1);
    var r3 := Add(r2, close, n1);
    Down(prog, r2, r3); Down(prog, r1, r2);
    SameAfter(prog, r, open, n0);
    BodyMoves(prog, cfg, b, r, r1);
    BodyFlat(prog, cfg, b, ml, r1);
    FlatLevel(prog, r1, r2);
    SameAfter(prog, r2, close, n1);
    JumpFlat(prog, r, open, n0, r3);
    PlainFlat(prog, r2, close, n1);
    FlatSeq(prog, r, r1, r2);
    FlatSeq(prog, r, r2, r3);
  }

  lemma LookLevels(prog: Prog, cfg: Cfg, k: LookKind, len: nat, b: Node, ml: bool, r: Reg)
    requires Formed(b) && Numbered(b) && Steady(b, cfg) && Clear(prog, GroupsOf(b), r)
    requires k.PrecReadNot? || k.LookBehindNot? ==> BodyOk(prog, cfg, b, r)
    requires Within(prog, CompileLook(k, len, b, ml, cfg, r))
    ensures Kept(prog, GroupsOf(b), cfg, r, CompileLook(k, len, b, ml, cfg, r))
    decreases b, 4, 0
  {
    hide *;
    match k
    case PrecRead => AheadLevels(prog, cfg, len, b, ml, r);
    case PrecReadNot => AheadNotLevels(prog, cfg, len, b, ml, r);
    case LookBehind => BehindLevels(prog, cfg, len, b, ml, r);
    case LookBehindNot => BehindNotLevels(prog, cfg, len, b, ml, r);
  }

  lemma AheadLevels(prog: Prog, cfg: Cfg, len: nat, b: Node, ml: bool, r: Reg)
    requires Formed(b) && Numbered(b) && Steady(b, cfg) && Clear(prog, GroupsOf(b), r)
    requires Within(prog, CompileLook(PrecRead, len, b, ml, cfg, r))
    ensures Kept(prog, GroupsOf(b), cfg, r, CompileLook(PrecRead, len, b, ml, cfg, r))
    decreases b, 3, 1
  {
    hide Formed, Numbered, Steady, GroupsOf, LevelOf, CompileTree, CompileLength, Ext, Add, Kept;
    Bracket(prog, cfg, b, ml, r, OpPushPos, SIZE_OP_PUSH_POS, OpPopPos, SIZE_OP_POP_POS);
  }

  lemma AheadNotLevels(prog: Prog, cfg: Cfg, len: nat, b: Node, ml: bool, r: Reg)
    requires Formed(b) && BodyOk(prog, cfg, b, r) && Within(prog, CompileLook(PrecReadNot, len, b, ml, cfg, r))
    ensures Kept(prog, GroupsOf(b), cfg, r, CompileLook(PrecReadNot, len, b, ml, cfg, r))
    decreases b, 3, 1
  {
    hide Formed, BodyOk, GroupsOf, LevelOf, CompileTree, CompileLength, Ext, Add, Kept, Flat;
    NotLevels(prog, cfg, b, ml, r, OpPushPosNot(CompileLength(b, cfg) + SIZE_OP_FAIL_POS), SIZE_OP_PUSH_POS_NOT,
              OpFailPos, SIZE_OP_FAIL_POS);
    FlatKept(prog, GroupsOf(b), cfg, r, CompileLook(PrecReadNot, len, b, ml, cfg, r));
  }

  lemma BehindLevels(prog: Prog, cfg: Cfg, len: nat, b: Node, ml: bool, r: Reg)
    requires Formed(b) && Numbered(b) && Steady(b, cfg) && Clear(prog, GroupsOf(b), r)
    requires Within(prog, CompileLook(LookBehind, len, b, ml, cfg, r))
    ensures Kept(prog, GroupsOf(b), cfg, r, CompileLook(LookBehind, len, b, ml, cfg, r))
    decreases b, 3, 1
  {
    hide Formed, Numbered, Steady, GroupsOf, LevelOf, CompileTree, CompileLength, Ext, Add, Kept, Flat;
    var r1 := Add(r, OpLookBehind(len), SIZE_OP_LOOK_BEHIND);
    var r2 := CompileTree(b, ml, cfg, r1);
    Down(prog, r1, r2);
    PlainFlat(prog, r, OpLookBehind(len), SIZE_OP_LOOK_BEHIND);
    FlatLevel(prog, r, r1);
    FlatKept(prog, {}, cfg, r, r1);
    TreeLevels(prog, cfg, b, ml, r1);
    KeptSeq(prog, cfg, {}, GroupsOf(b), r, r1, r2);
    assert {} + GroupsOf(b) == GroupsOf(b);
  }

  lemma BehindNotLevels(prog: Prog, cfg: Cfg, len: nat, b: Node, ml: bool, r: Reg)
    requires Formed(b) && BodyOk(prog, cfg, b, r) && Within(prog, CompileLook(LookBehindNot, len, b, ml, cfg, r))
    ensures Kept(prog, GroupsOf(b), cfg, r, CompileLook(LookBehindNot, len, b, ml, cfg, r))
    decreases b, 3, 1
  {
    hide Formed, BodyOk, GroupsOf, LevelOf, CompileTree, CompileLength, Ext, Add, Kept, Flat;
    NotLevels(prog, cfg, b, ml, r, OpPushLookBehindNot(CompileLength(b, cfg) + SIZE_OP_FAIL_LOOK_BEHIND_NOT, len),
              SIZE_OP_PUSH_LOOK_BEHIND_NOT, OpFailLookBehindNot, SIZE_OP_FAIL_LOOK_BEHIND_NOT);
    FlatKept(prog, GroupsOf(b), cfg, r, CompileLook(LookBehindNot, len, b, ml, cfg, r));
  }

  /** (?>X*) for a one-instruction X: there is no group in it. */
  lemma SimpleLevels(prog: Prog, cfg: Cfg, t: Node, lower: nat, ml: bool, r: Reg)
    requires Formed(t) && BodyOk(prog, cfg, t, r) && Within(prog, CompileSimpleRepeat(t, lower, ml, cfg, r))
    ensures Flat(prog, r, CompileSimpleRepeat(t, lower, ml, cfg, r))
    decreases t, 6, 0
  {
    hide Formed, BodyOk, LevelOf, Flat, CompileTree, CompileTimes, CompileLength, Ext, Add;
    var r1 := CompileTimes(t, lower, ml, cfg, r);
    SimpleExt(t, lower, ml, cfg, r);
    Down(prog, r1, CompileSimpleRepeat(t, lower, ml, cfg, r));
    TimesFlat(prog, cfg, t, lower, ml, r);
    FlatLevel(prog, r, r1);
    BodyMoves(prog, cfg, t, r, r1);
    SimpleLoop(prog, cfg, t, ml, r1);
    FlatSeq(prog, r, r1, CompileSimpleRepeat(t, lower, ml, cfg, r));
  }

  lemma SimpleExt(t: Node, lower: nat, ml: bool, cfg: Cfg, r: Reg)
    requires Formed(t)
    ensures Ext(CompileTimes(t, lower, ml, cfg, r), CompileSimpleRepeat(t, lower, ml, cfg, r))
  {
    hide Formed, CompileTree, CompileTimes, CompileLength, Add, Ext;
    var tlen := CompileLength(t, cfg);
    var r1 := CompileTimes(t, lower, ml, cfg, r);
    var r2 := Add(r1, OpPush(tlen + SIZE_OP_POP + SIZE_OP_JUMP), SIZE_OP_PUSH);
    var r3 := CompileTree(t, ml, cfg, r2);
    var r4 := Add(r3, OpPop, SIZE_OP_POP);
    ExtTrans(r1, r2, r3);
    ExtTrans(r1, r3, r4);
    ExtTrans(r1, r4, CompileSimpleRepeat(t, lower, ml, cfg, r));
  }

  /** PUSH X POP JUMP */
  lemma SimpleLoop(prog: Prog, cfg: Cfg, t: Node, ml: bool, r1: Reg)
    requires Formed(t) && BodyOk(prog, cfg, t, r1)
    requires var tlen := CompileLength(t, cfg);
             var r2 := Add(r1, OpPush(tlen + SIZE_OP_POP + SIZE_OP_JUMP), SIZE_OP_PUSH);
             var r4 := Add(CompileTree(t, ml, cfg, r2), OpPop, SIZE_OP_POP);
             Within(prog, Add(r4, OpJump(-(SIZE_OP_PUSH + tlen + SIZE_OP_POP + SIZE_OP_JUMP)), SIZE_OP_JUMP))
    ensures var tlen := CompileLength(t, cfg);
            var r2 := Add(r1, OpPush(tlen + SIZE_OP_POP + SIZE_OP_JUMP), SIZE_OP_PUSH);
            var r4 := Add(CompileTree(t, ml, cfg, r2), OpPop, SIZE_OP_POP);
            Flat(prog, r1, Add(r4, OpJump(-(SIZE_OP_PUSH + tlen + SIZE_OP_POP + SIZE_OP_JUMP)), SIZE_OP_JUMP))
    decreases t, 5, 0
  {
    hide Formed, BodyOk, LevelOf, Flat, CompileTree, CompileLength, Ext, Add;
    var tlen := CompileLength(t, cfg);
    var push := OpPush(tlen + SIZE_OP_POP + SIZE_OP_JUMP);
    var jump := OpJump(-(SIZE_OP_PUSH + tlen + SIZE_OP_POP + SIZE_OP_JUMP));
    var r2 := Add(r1, push, SIZE_OP_PUSH);
    var r3 := CompileTree(t, ml, cfg, r2);
    var r4 := Add(r3, OpPop, SIZE_OP_POP);
    var r5 := Add(r4, jump, SIZE_OP_JUMP);
    Down(prog, r4, r5); Down(prog, r3, r4); Down(prog, r2, r3); Down(prog, r1, r2);
    SameAfter(prog, r1, push, SIZE_OP_PUSH);
    BodyMoves(prog, cfg, t, r1, r2);
    BodyFlat(prog, cfg, t, ml, r2);
    FlatLevel(prog, r2, r3);
    SameAfter(prog, r3, OpPop, SIZE_OP_POP);
    SameAfter(prog, r4, jump, SIZE_OP_JUMP);
    JumpFlat(prog, r1, push, SIZE_OP_PUSH, r5);
    PlainFlat(prog, r3, OpPop, SIZE_OP_POP);
    JumpFlat(prog, r4, jump, SIZE_OP_JUMP, r1);
    FlatSeq(prog, r1, r2, r3);
    FlatSeq(prog, r1, r3, r4);
    FlatSeq(prog, r1, r4, r5);
  }

  lemma {:induction false} ListLevels(prog: Prog, cfg: Cfg, ns: Nodes, ml: bool, r: Reg)
    requires AllFormed(ns) && AllNumbered(ns) && AllSteady(ns, cfg) && Clear(prog, AllGroups(ns), r)
    requires Within(prog, CompileList(ns, ml, cfg, r))
    ensures Kept(prog, AllGroups(ns), cfg, r, CompileList(ns, ml, cfg, r))
    decreases ns, 0, 0
  {
    hide Formed, Numbered, Steady, GroupsOf, LevelOf, LevelsOf, CompileTree, CompileLength, Ext;
    match ns
    case Last(n) => TreeLevels(prog, cfg, n, ml, r);
    case Cons(n, rest) =>
      var r1 := CompileTree(n, ml, cfg, r);
      var r2 := CompileList(rest, ml, cfg, r1);
      Down(prog, r1, r2);
      TreeLevels(prog, cfg, n, ml, r);
      KeptClear(prog, GroupsOf(n), cfg, r, r1, AllGroups(rest));
      ListLevels(prog, cfg, rest, ml, r1);
      KeptSeq(prog, cfg, GroupsOf(n), AllGroups(rest), r, r1, r2);
  }

  /** The alternatives from one on; e is the common end. */
  lemma {:induction false} AltFlat(prog: Prog, cfg: Cfg, ns: Nodes, ml: bool, r: Reg, e: Reg)
    requires AllFormed(ns) && AllNumbered(ns) && AllSteady(ns, cfg) && Clear(prog, AllGroups(ns), r)
    requires AllGroups(ns) <= cfg.btMemStart && Within(prog, CompileAlt(ns, ml, cfg, |e.code|, r))
    requires Within(prog, e) && LevelOf(prog, e.code) == LevelOf(prog, r.code)
    ensures Flat(prog, r, CompileAlt(ns, ml, cfg, |e.code|, r))
    decreases ns, 0, 0
  {
    hide Formed, Numbered, Steady, GroupsOf, LevelOf, LevelsOf, CompileTree, CompileLength, Ext, Flat, CompileBranch;
    match ns
    case Last(n) => BodyFlat(prog, cfg, n, ml, r);
    case Cons(n, rest) =>
      var r3 := CompileBranch(n, ml, cfg, |e.code|, r);
      var r4 := CompileAlt(rest, ml, cfg, |e.code|, r3);
      Down(prog, r3, r4);
      BranchFlat(prog, cfg, n, ml, r, e);
      FlatLevel(prog, r, r3);
      AltFlat(prog, cfg, rest, ml, r3, e);
      FlatSeq(prog, r, r3, r4);
  }

  lemma BranchFlat(prog: Prog, cfg: Cfg, n: Node, ml: bool, r: Reg, e: Reg)
    requires Formed(n) && BodyOk(prog, cfg, n, r) && Within(prog, CompileBranch(n, ml, cfg, |e.code|, r))
    requires Within(prog, e) && LevelOf(prog, e.code) == LevelOf(prog, r.code)
    ensures Flat(prog, r, CompileBranch(n, ml, cfg, |e.code|, r))
    decreases n, 4, 0
  {
    hide Formed, BodyOk, LevelOf, Flat, CompileTree, CompileLength, Ext, Add;
    var push := OpPush(CompileLength(n, cfg) + SIZE_OP_JUMP);
    var r1 := Add(r, push, SIZE_OP_PUSH);
    var r2 := CompileTree(n, ml, cfg, r1);
    var jump := OpJump(|e.code| - (|r2.code| + SIZE_OP_JUMP));
    var r3 := Add(r2, jump, SIZE_OP_JUMP);
    Down(prog, r2, r3);
    OptionalOne(prog, cfg, n, push.addr, ml, r);
    PushStill(prog, push.addr); PushStill(prog, jump.addr);
    hide Still, Within;
    SameAfter(prog, r2, jump, SIZE_OP_JUMP);
    JumpFlat(prog, r, push, SIZE_OP_PUSH, r3);
    JumpFlat(prog, r2, jump, SIZE_OP_JUMP, e);
    FlatSeq(prog, r, r1, r2);
    FlatSeq(prog, r, r2, r3);
  }

  /** The level behind an alternation. */
  lemma {:induction false} AltSame(prog: Prog, cfg: Cfg, ns: Nodes, ml: bool, goal: int, r: Reg)
    requires AllFormed(ns) && AllNumbered(ns) && AllSteady(ns, cfg) && Clear(prog, AllGroups(ns), r)
    requires AllGroups(ns) <= cfg.btMemStart && Within(prog, CompileAlt(ns, ml, cfg, goal, r))
    ensures LevelOf(prog, CompileAlt(ns, ml, cfg, goal, r).code) == LevelOf(prog, r.code)
    decreases ns, 0, 0
  {
    hide Formed, Numbered, Steady, GroupsOf, LevelOf, LevelsOf, CompileTree, CompileLength, Ext, Flat, CompileBranch;
    match ns
    case Last(n) =>
      BodyFlat(prog, cfg, n, ml, r);
      FlatLevel(prog, r, CompileTree(n, ml, cfg, r));
    case Cons(n, rest) =>
      var r3 := CompileBranch(n, ml, cfg, goal, r);
      Down(prog, r3, CompileAlt(rest, ml, cfg, goal, r3));
      BranchSame(prog, cfg, n, ml, goal, r);
      AltSame(prog, cfg, rest, ml, goal, r3);
  }

  lemma BranchSame(prog: Prog, cfg: Cfg, n: Node, ml: bool, goal: int, r: Reg)
    requires Formed(n) && BodyOk(prog, cfg, n, r) && Within(prog, CompileBranch(n, ml, cfg, goal, r))
    ensures LevelOf(prog, CompileBranch(n, ml, cfg, goal, r).code) == LevelOf(prog, r.code)
            && |r.ranges| <= |CompileBranch(n, ml, cfg, goal, r).ranges|
    decreases n, 3, 0
  {
    hide Formed, BodyOk, LevelOf, Flat, CompileTree, CompileLength, Ext, Add;
    var push := OpPush(CompileLength(n, cfg) + SIZE_OP_JUMP);
    var r1 := Add(r, push, SIZE_OP_PUSH);
    var r2 := CompileTree(n, ml, cfg, r1);
    var jump := OpJump(goal - (|r2.code| + SIZE_OP_JUMP));
    Down(prog, r2, Add(r2, jump, SIZE_OP_JUMP));
    SameAfter(prog, r, push, SIZE_OP_PUSH);
    BodyMoves(prog, cfg, n, r, r1);
    BodyFlat(prog, cfg, n, ml, r1);
    FlatLevel(prog, r1, r2);
    SameAfter(prog, r2, jump, SIZE_OP_JUMP);
  }

  lemma AltLevels(prog: Prog, cfg: Cfg, ns: Nodes, ml: bool, r: Reg)
    requires AllFormed(ns) && AllNumbered(ns) && AllSteady(ns, cfg) && Clear(prog, AllGroups(ns), r)
    requires AllGroups(ns) <= cfg.btMemStart
    requires Within(prog, CompileAlt(ns, ml, cfg, |r.code| + AltLength(ns, cfg), r))
    ensures Kept(prog, AllGroups(ns), cfg, r, CompileAlt(ns, ml, cfg, |r.code| + AltLength(ns, cfg), r))
    decreases ns, 1, 0
  {
    hide AllFormed, AllNumbered, AllSteady, AllGroups, LevelOf, LevelsOf, CompileLength, Ext, Flat, Kept, CompileAlt;
    hide AltLength;
    var e := CompileAlt(ns, ml, cfg, |r.code| + AltLength(ns, cfg), r);
    AltSame(prog, cfg, ns, ml, |e.code|, r);
    AltFlat(prog, cfg, ns, ml, r, e);
    FlatKept(prog, AllGroups(ns), cfg, r, e);
  }

  lemma {:induction false} TreeLevels(prog: Prog, cfg: Cfg, n: Node, ml: bool, r: Reg)
    requires Formed(n) && Numbered(n) && Steady(n, cfg) && Clear(prog, GroupsOf(n), r)
    requires Within(prog, CompileTree(n, ml, cfg, r))
    ensures Kept(prog, GroupsOf(n), cfg, r, CompileTree(n, ml, cfg, r))
    decreases n, 1, 0
  {
    hide LevelOf, Kept, Flat, CompileList, CompileAlt, CompileGroup, CompileAtomic, CompileLook, CompileQuant, Ext;
    hide CompileSimpleRepeat, CompileLength;
    match n
    case List(ns) => ListLevels(prog, cfg, ns, ml, r);
    case Alt(ns) => AltLevels(prog, cfg, ns, ml, r);
    case Quant(t, q) => QuantLevels(prog, cfg, t, q, ml, r);
    case Group(k, b) => GroupLevels(prog, cfg, k, b, ml, r);
    case OptionNode(ml', b) => TreeLevels(prog, cfg, b, ml', r);
    case Atomic(simple, b) => AtomicLevels(prog, cfg, simple, b, ml, r);
    case Look(k, len, b) => LookLevels(prog, cfg, k, len, b, ml, r);
    case _ =>
      LeafFlat(prog, cfg, n, ml, r);
      FlatKept(prog, GroupsOf(n), cfg, r, CompileTree(n, ml, cfg, r));
  }

  lemma SimpleBody(prog: Prog, cfg: Cfg, b: Node, r: Reg)
    requires Formed(Atomic(true, b)) && Numbered(b) && Steady(Atomic(true, b), cfg) && Clear(prog, GroupsOf(b), r)
    ensures BodyOk(prog, cfg, b.target, r)
  {
    hide LevelOf;
  }

  lemma AtomicIs(simple: bool, b: Node, ml: bool, cfg: Cfg, r: Reg)
    requires Formed(Atomic(simple, b))
    ensures CompileTree(Atomic(simple, b), ml, cfg, r) ==
            if simple then CompileSimpleRepeat(b.target, b.q.lower, ml, cfg, r)
            else
              var r2 := CompileTree(b, ml, cfg, Add(r, OpPushStopBt, SIZE_OP_PUSH_STOP_BT));
              Add(r2, OpPopStopBt, SIZE_OP_POP_STOP_BT)
  {
    hide CompileLength, Add, Ext, CompileSimpleRepeat, CompileList, CompileAlt, CompileGroup, CompileLook, CompileQuant;
  }

  lemma AtomicLevels(prog: Prog, cfg: Cfg, simple: bool, b: Node, ml: bool, r: Reg)
    requires var n := Atomic(simple, b);
             && Formed(n) && Numbered(b) && Steady(n, cfg) && Clear(prog, GroupsOf(b), r)
             && Within(prog, CompileTree(n, ml, cfg, r))
    ensures Kept(prog, GroupsOf(b), cfg, r, CompileTree(Atomic(simple, b), ml, cfg, r))
    decreases b, 8, 0
  {
    hide *;
    AtomicIs(simple, b, ml, cfg, r);
    AtomicParts(simple, b, cfg);
    if simple {
      SimpleBody(prog, cfg, b, r);
      SimpleLevels(prog, cfg, b.target, b.q.lower, ml, r);
      FlatKept(prog, GroupsOf(b), cfg, r, CompileTree(Atomic(simple, b), ml, cfg, r));
    } else {
      StopStill(prog);
      Bracket(prog, cfg, b, ml, r, OpPushStopBt, SIZE_OP_PUSH_STOP_BT, OpPopStopBt, SIZE_OP_POP_STOP_BT);
    }
  }

  lemma AtomicParts(simple: bool, b: Node, cfg: Cfg)
    requires Formed(Atomic(simple, b)) && Steady(Atomic(simple, b), cfg)
    ensures Formed(b) && Steady(b, cfg) && (simple ==> b.Quant? && Formed(b.target))
  {
  }

  lemma StopStill(prog: Prog)
    ensures Still(prog, OpPushStopBt) && Size(OpPushStopBt) == SIZE_OP_PUSH_STOP_BT && Target(OpPushStopBt, 0).None?
    ensures Still(prog, OpPopStopBt) && Size(OpPopStopBt) == SIZE_OP_POP_STOP_BT && Target(OpPopStopBt, 0).None?
  {
  }
}
