/** What compiled code looks like, instruction by instruction: relative addresses land on
    instructions of the same fragment or on its end, empty checks are followed by the instruction
    that closes their loop, capture opcodes agree with the undo bits, and the counters that use the
    index table (rather than a search of the stack) are in no loop. */
module Layout {
  import opened Regint
  import opened Regparse
  import opened Regcomp
  import opened Machine
  import opened Fragments

  datatype Image = Image(prog: Prog, cfg: Cfg)

  /** The address an instruction at a may transfer control to, besides the next one. */
  function Target(i: Instr, a: int): Option<int> {
    match i
    case OpJump(addr) => Some(a + SIZE_OP_JUMP + addr)
    case OpPush(addr) => Some(a + SIZE_OP_PUSH + addr)
    case OpPushOrJumpExact1(addr, _) => Some(a + SIZE_OP_PUSH_OR_JUMP_EXACT1 + addr)
    case OpPushIfPeekNext(addr, _) => Some(a + SIZE_OP_PUSH_IF_PEEK_NEXT + addr)
    case OpRepeat(_, addr) => Some(a + SIZE_OP_REPEAT + addr)
    case OpRepeatNg(_, addr) => Some(a + SIZE_OP_REPEAT + addr)
    case OpPushPosNot(addr) => Some(a + SIZE_OP_PUSH_POS_NOT + addr)
    case OpPushLookBehindNot(addr, _) => Some(a + SIZE_OP_PUSH_LOOK_BEHIND_NOT + addr)
    case _ => None
  }

  const SIZE_OP_REPEAT := SIZE_OPCODE + SIZE_MEMNUM + SIZE_RELADDR

  predicate OpensCounter(i: Instr) { i.OpRepeat? || i.OpRepeatNg? }

  /** The increments that read the index table. */
  predicate TableInc(i: Instr) { i.OpRepeatInc? || i.OpRepeatIncNg? }

  predicate CounterInc(i: Instr) { TableInc(i) || i.OpRepeatIncSg? || i.OpRepeatIncNgSg? }

  function CounterId(i: Instr): nat
    requires OpensCounter(i) || CounterInc(i)
  {
    match i
    case OpRepeat(id, _) => id
    case OpRepeatNg(id, _) => id
    case OpRepeatInc(id) => id
    case OpRepeatIncNg(id) => id
    case OpRepeatIncSg(id) => id
    case OpRepeatIncNgSg(id) => id
  }

  predicate MemBits(cfg: Cfg, i: Instr) {
    match i
    case OpMemoryStart(k) => k !in cfg.btMemStart
    case OpMemoryStartPush(k) => k in cfg.btMemStart
    case OpMemoryEnd(k) => k !in cfg.btMemEnd
    case OpMemoryEndPush(k) => k in cfg.btMemEnd
    case _ => true
  }

  predicate At(code: Program, a: int) { 0 <= a < |code| && code[a].Op? }

  /** The increment at c belongs to the counter opened at a. */
  predicate Closes(code: Program, a: int, c: int) {
    && At(code, a) && At(code, c) && a + SIZE_OP_REPEAT <= c
    && OpensCounter(code[a].i) && CounterInc(code[c].i) && CounterId(code[a].i) == CounterId(code[c].i)
    && Target(code[a].i, a) == Some(c + SIZE_OP_REPEAT_INC)
  }

  /** An instruction begins at t, or the fragment ending at hi ends there. */
  predicate Boundary(code: Program, t: int, hi: int) { t == hi || At(code, t) }

  ghost predicate CellOk(g: Image, a: int, lo: int, hi: int, r0: nat, r1: nat, sg: bool)
    requires At(g.prog.code, a)
  {
    var code := g.prog.code;
    var i := code[a].i;
    && (Target(i, a).Some? ==> lo <= Target(i, a).value <= hi && Boundary(code, Target(i, a).value, hi))
    && MemBits(g.cfg, i)
    && (OpensCounter(i) ==> r0 <= CounterId(i) < r1 && Closes(code, a, Target(i, a).value - SIZE_OP_REPEAT_INC))
    && (CounterInc(i) ==> exists b :: Closes(code, b, a))
    && (TableInc(i) || TableCounter(code, a) ==> !sg)
    && (i.OpNullCheckEnd? || i.OpNullCheckEndMemst? ==> EmptyExit(g.prog, a + SIZE_OP_NULL_CHECK_END, hi))
  }

  /** Behind an empty iteration the matcher can skip the instruction at a. */
  predicate EmptyExit(prog: Prog, a: int, hi: int) {
    var t := SkipLoopEnd(prog, a);
    t.Some? && a < t.value <= hi && Boundary(prog.code, t.value, hi)
  }

  /** The counter opened at a is closed by an increment that reads the index table. */
  predicate TableCounter(code: Program, a: int) {
    && At(code, a) && OpensCounter(code[a].i)
    && var c := Target(code[a].i, a).value - SIZE_OP_REPEAT_INC;
       At(code, c) && TableInc(code[c].i)
  }

  predicate Opener(code: Program, a: int) { At(code, a) && OpensCounter(code[a].i) }

  /** Two counters have different numbers, and one that uses the table is not inside another one. */
  predicate Apart(code: Program, a: int, b: int) {
    Opener(code, a) && Opener(code, b) ==>
      && (CounterId(code[a].i) == CounterId(code[b].i) ==> a == b)
      && (TableCounter(code, b) && a < b ==> Target(code[a].i, a).value - SIZE_OP_REPEAT_INC <= b)
  }

  /** From b control cannot get back to a. */
  predicate NoReturn(code: Program, a: int, b: int) {
    TableCounter(code, a) && At(code, b) && a < b && Target(code[b].i, b).Some? ==> Target(code[b].i, b).value > a
  }

  /** A stretch of code whose addresses stay between l and h. */
  ghost predicate Part(g: Image, lo: int, hi: int, l: int, h: int, r0: nat, r1: nat, sg: bool) {
    var code := g.prog.code;
    && 0 <= l <= lo <= hi <= h <= |code| && r0 <= r1
    && (forall a :: lo <= a < hi && At(code, a) ==> CellOk(g, a, if sg then l else lo, h, r0, r1, sg))
    && (forall a :: lo <= a < hi && Opener(code, a) && !sg ==> Target(code[a].i, a).value <= hi)
    && (forall a, b :: lo <= a < hi && lo <= b < hi ==> Apart(code, a, b))
    && (forall a, b :: lo <= a < hi && lo <= b < hi ==> NoReturn(code, a, b))
  }

  /** A closed stretch. sg: nothing in it reads the index table. */
  ghost predicate Frag(g: Image, lo: int, hi: int, r0: nat, r1: nat, sg: bool) {
    Part(g, lo, hi, lo, hi, r0, r1, sg) && Boundary(g.prog.code, lo, hi)
  }

  lemma PartSeq(g: Image, lo: int, mid: int, hi: int, l: int, h: int, r0: nat, r1: nat, r2: nat, sg: bool)
    requires Part(g, lo, mid, l, h, r0, r1, sg) && Part(g, mid, hi, l, h, r1, r2, sg)
    ensures Part(g, lo, hi, l, h, r0, r2, sg)
  {
    var code := g.prog.code;
    forall a | lo <= a < hi && At(code, a) ensures CellOk(g, a, if sg then l else lo, h, r0, r2, sg) {
      if a < mid {
        assert CellOk(g, a, if sg then l else lo, h, r0, r1, sg);
      } else {
        assert CellOk(g, a, if sg then l else mid, h, r1, r2, sg);
      }
    }
    forall a, b | lo <= a < hi && lo <= b < hi ensures Apart(code, a, b) {
      PartCell(g, lo, mid, hi, l, h, r0, r1, r2, sg, a);
      PartCell(g, lo, mid, hi, l, h, r0, r1, r2, sg, b);
    }
    forall a, b | lo <= a < hi && lo <= b < hi ensures NoReturn(code, a, b) {
      if a < mid <= b && TableCounter(code, a) && At(code, b) {
        assert CellOk(g, a, if sg then l else lo, h, r0, r1, sg);
        assert CellOk(g, b, if sg then l else mid, h, r1, r2, sg);
      }
    }
  }

  /** The counters of consecutive parts are different ones. */
  lemma PartCell(g: Image, lo: int, mid: int, hi: int, l: int, h: int, r0: nat, r1: nat, r2: nat, sg: bool, a: int)
    requires Part(g, lo, mid, l, h, r0, r1, sg) && Part(g, mid, hi, l, h, r1, r2, sg)
    requires lo <= a < hi
    ensures At(g.prog.code, a) && OpensCounter(g.prog.code[a].i) ==>
            && (if a < mid then r0 <= CounterId(g.prog.code[a].i) < r1 else r1 <= CounterId(g.prog.code[a].i) < r2)
            && (sg ==> !TableCounter(g.prog.code, a))
  {
    if At(g.prog.code, a) {
      if a < mid {
        assert CellOk(g, a, if sg then l else lo, h, r0, r1, sg);
      } else {
        assert CellOk(g, a, if sg then l else mid, h, r1, r2, sg);
      }
    }
  }

  /** A closed stretch inside a larger one. */
  lemma FragPart(g: Image, lo: int, hi: int, l: int, h: int, r0: nat, r1: nat, sg: bool)
    requires Frag(g, lo, hi, r0, r1, sg) && 0 <= l <= lo && hi <= h <= |g.prog.code| && Boundary(g.prog.code, hi, h)
    ensures Part(g, lo, hi, l, h, r0, r1, sg)
  {
    var code := g.prog.code;
    forall a | lo <= a < hi && At(code, a) ensures CellOk(g, a, if sg then l else lo, h, r0, r1, sg) {
      assert CellOk(g, a, lo, hi, r0, r1, sg);
    }
  }

  /** Nothing that reads the index table is needed where none is asked for. */
  lemma FragAny(g: Image, lo: int, hi: int, r0: nat, r1: nat, sg: bool)
    requires Frag(g, lo, hi, r0, r1, true)
    ensures Frag(g, lo, hi, r0, r1, sg)
  {
    var code := g.prog.code;
    forall a | lo <= a < hi && At(code, a) ensures CellOk(g, a, lo, hi, r0, r1, sg) {
      assert CellOk(g, a, lo, hi, r0, r1, true);
    }
  }

  lemma FragEmpty(g: Image, lo: int, r0: nat, sg: bool)
    requires 0 <= lo <= |g.prog.code|
    ensures Frag(g, lo, lo, r0, r0, sg)
  {
  }

  /** Closed stretches in a row. */
  lemma FragSeq(g: Image, lo: int, mid: int, hi: int, r0: nat, r1: nat, r2: nat, sg: bool)
    requires Frag(g, lo, mid, r0, r1, sg) && Frag(g, mid, hi, r1, r2, sg)
    ensures Frag(g, lo, hi, r0, r2, sg)
  {
    hide CellOk;
    FragPart(g, lo, mid, lo, hi, r0, r1, sg);
    FragPart(g, mid, hi, lo, hi, r1, r2, sg);
    PartSeq(g, lo, mid, hi, lo, hi, r0, r1, r2, sg);
  }

  /** The operand bytes behind an opcode. */
  predicate Operands(code: Program, a: int, size: int) {
    0 <= a && a + size <= |code| && forall b :: a < b < a + size ==> code[b] == Arg
  }

  lemma ArgsAre(n: nat)
    ensures forall i :: 0 <= i < n ==> Args(n)[i] == Arg
  {
  }

  lemma AddCells(code: Program, r: Reg, i: Instr, size: nat)
    requires size >= 1 && Add(r, i, size).code <= code
    ensures At(code, |r.code|) && code[|r.code|].i == i && Operands(code, |r.code|, size)
  {
    ArgsAre(size - 1);
    var c := Add(r, i, size).code;
    forall b | |r.code| < b < |r.code| + size ensures code[b] == Arg {
      assert c[b] == Args(size - 1)[b - |r.code| - 1];
    }
  }

  /** A single instruction. */
  lemma OneCell(g: Image, a: int, size: int, l: int, h: int, r0: nat, r1: nat, sg: bool)
    requires At(g.prog.code, a) && Operands(g.prog.code, a, size) && size >= 1
    requires 0 <= l <= a && a + size <= h <= |g.prog.code| && r0 <= r1
    requires CellOk(g, a, if sg then l else a, h, r0, r1, sg) && (OpensCounter(g.prog.code[a].i) ==> sg)
    ensures Part(g, a, a + size, l, h, r0, r1, sg)
  {
    hide CellOk;
  }

  /** An instruction without addresses, counters or checks. */
  predicate Plain(i: Instr) {
    Target(i, 0).None? && !OpensCounter(i) && !CounterInc(i) && !i.OpNullCheckEnd? && !i.OpNullCheckEndMemst?
  }

  lemma PlainTarget(i: Instr, a: int)
    ensures Target(i, a).None? == Target(i, 0).None?
  {
  }

  lemma PlainPart(g: Image, r: Reg, i: Instr, size: nat, l: int, h: int, r0: nat, sg: bool)
    requires size >= 1 && Add(r, i, size).code <= g.prog.code && Plain(i) && MemBits(g.cfg, i)
    requires 0 <= l <= |r.code| && |r.code| + size <= h <= |g.prog.code|
    ensures Part(g, |r.code|, |r.code| + size, l, h, r0, r0, sg) && At(g.prog.code, |r.code|)
  {
    AddCells(g.prog.code, r, i, size);
    PlainTarget(i, |r.code|);
    hide Target;
    OneCell(g, |r.code|, size, l, h, r0, r0, sg);
  }

  lemma PlainFrag(g: Image, r: Reg, i: Instr, size: nat, r0: nat, sg: bool)
    requires size >= 1 && Add(r, i, size).code <= g.prog.code && Plain(i) && MemBits(g.cfg, i)
    ensures Frag(g, |r.code|, |r.code| + size, r0, r0, sg)
  {
    PlainPart(g, r, i, size, |r.code|, |r.code| + size, r0, sg);
  }

  /** Instructions that only carry an address. */
  predicate Jumps(i: Instr) {
    i.OpJump? || i.OpPush? || i.OpPushOrJumpExact1? || i.OpPushIfPeekNext? || i.OpPushPosNot? || i.OpPushLookBehindNot?
  }

  lemma JumpPart(g: Image, r: Reg, i: Instr, size: nat, l: int, h: int, r0: nat, sg: bool)
    requires size >= 1 && Add(r, i, size).code <= g.prog.code && Jumps(i)
    requires 0 <= l <= |r.code| && |r.code| + size <= h <= |g.prog.code|
    requires var t := Target(i, |r.code|).value; (if sg then l else |r.code|) <= t <= h && Boundary(g.prog.code, t, h)
    ensures Part(g, |r.code|, |r.code| + size, l, h, r0, r0, sg) && At(g.prog.code, |r.code|)
  {
    AddCells(g.prog.code, r, i, size);
    OneCell(g, |r.code|, size, l, h, r0, r0, sg);
  }
}
