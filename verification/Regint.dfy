/** Byte-code layout shared by the compiler and the matcher: operation codes, their sizes, and
    the saturating length arithmetic (Dependencies/oniguruma5/regint.h). */
module Regint {

  datatype Option<+T> = None | Some(value: T)

  type byte = x: int | 0 <= x < 256

  const NEWLINE: byte := 0x0a

  const REPEAT_INFINITE := -1
  const INT_MAX_REPEAT := 0x7fff_ffff      // the upper bound stored for an infinite repeat

  const SIZE_OPCODE := 1
  const SIZE_RELADDR := 4
  const SIZE_LENGTH := 4
  const SIZE_MEMNUM := 2
  const SIZE_BITSET := 32
  const SIZE_POINTER := 8
  const WORD_ALIGNMENT_SIZE := 4

  const SIZE_OP_JUMP := 5
  const SIZE_OP_PUSH := 5
  const SIZE_OP_POP := 1
  const SIZE_OP_PUSH_OR_JUMP_EXACT1 := 6
  const SIZE_OP_PUSH_IF_PEEK_NEXT := 6
  const SIZE_OP_REPEAT_INC := 3
  const SIZE_OP_NULL_CHECK_START := 3
  const SIZE_OP_NULL_CHECK_END := 3
  const SIZE_OP_MEMORY_START := 3
  const SIZE_OP_MEMORY_END := 3
  const SIZE_OP_PUSH_POS := 1
  const SIZE_OP_POP_POS := 1
  const SIZE_OP_PUSH_POS_NOT := 5
  const SIZE_OP_FAIL_POS := 1
  const SIZE_OP_PUSH_STOP_BT := 1
  const SIZE_OP_POP_STOP_BT := 1
  const SIZE_OP_LOOK_BEHIND := 5
  const SIZE_OP_PUSH_LOOK_BEHIND_NOT := 9
  const SIZE_OP_FAIL_LOOK_BEHIND_NOT := 1

  const QUANTIFIER_EXPAND_LIMIT_SIZE := 50

  /** Instructions with their operands. */
  datatype Instr =
    | OpFinish | OpEnd
    | OpExact1(c: byte) | OpExactK(s: seq<byte>) | OpExactN(s: seq<byte>)
    | OpCClass(bs: set<byte>) | OpCClassNot(bs: set<byte>)
    | OpCClassMb(tlen: nat) | OpCClassMbNot(tlen: nat)
    | OpCClassMix(bs: set<byte>, tlen: nat) | OpCClassMixNot(bs: set<byte>, tlen: nat)
    | OpCClassNode(bs: set<byte>, neg: bool)
    | OpAnyChar(ml: bool)
    | OpAnyCharStar(ml: bool)
    | OpAnyCharStarPeekNext(ml: bool, c: byte)
    | OpWord | OpNotWord
    | OpBeginBuf | OpEndBuf | OpEndLine | OpSemiEndBuf | OpBeginPosition
    | OpMemoryStart(num: nat) | OpMemoryStartPush(num: nat)
    | OpMemoryEnd(num: nat) | OpMemoryEndPush(num: nat)
    | OpJump(addr: int) | OpPush(addr: int) | OpPop
    | OpPushOrJumpExact1(addr: int, c: byte) | OpPushIfPeekNext(addr: int, c: byte)
    | OpRepeat(id: nat, addr: int) | OpRepeatNg(id: nat, addr: int)
    | OpRepeatInc(id: nat) | OpRepeatIncNg(id: nat)
    | OpRepeatIncSg(id: nat) | OpRepeatIncNgSg(id: nat)
    | OpNullCheckStart(id: nat) | OpNullCheckEnd(id: nat) | OpNullCheckEndMemst(id: nat)
    | OpPushPos | OpPopPos | OpPushPosNot(addr: int) | OpFailPos
    | OpPushStopBt | OpPopStopBt
    | OpLookBehind(len: nat) | OpPushLookBehindNot(addr: int, len: nat) | OpFailLookBehindNot

  /** Bytes an instruction occupies, operands included. */
  function Size(i: Instr): (n: nat)
    ensures n >= 1
  {
    match i
    case OpExact1(_) => SIZE_OPCODE + 1
    case OpExactK(s) => SIZE_OPCODE + |s|
    case OpExactN(s) => SIZE_OPCODE + SIZE_LENGTH + |s|
    case OpCClass(_) => SIZE_OPCODE + SIZE_BITSET
    case OpCClassNot(_) => SIZE_OPCODE + SIZE_BITSET
    case OpCClassMb(t) => SIZE_OPCODE + SIZE_LENGTH + t
    case OpCClassMbNot(t) => SIZE_OPCODE + SIZE_LENGTH + t
    case OpCClassMix(_, t) => SIZE_OPCODE + SIZE_BITSET + SIZE_LENGTH + t
    case OpCClassMixNot(_, t) => SIZE_OPCODE + SIZE_BITSET + SIZE_LENGTH + t
    case OpCClassNode(_, _) => SIZE_OPCODE + SIZE_POINTER
    case OpAnyCharStarPeekNext(_, _) => SIZE_OPCODE + 1
    case OpMemoryStart(_) => SIZE_OPCODE + SIZE_MEMNUM
    case OpMemoryStartPush(_) => SIZE_OPCODE + SIZE_MEMNUM
    case OpMemoryEnd(_) => SIZE_OPCODE + SIZE_MEMNUM
    case OpMemoryEndPush(_) => SIZE_OPCODE + SIZE_MEMNUM
    case OpJump(_) => SIZE_OPCODE + SIZE_RELADDR
    case OpPush(_) => SIZE_OPCODE + SIZE_RELADDR
    case OpPushOrJumpExact1(_, _) => SIZE_OPCODE + SIZE_RELADDR + 1
    case OpPushIfPeekNext(_, _) => SIZE_OPCODE + SIZE_RELADDR + 1
    case OpRepeat(_, _) => SIZE_OPCODE + SIZE_MEMNUM + SIZE_RELADDR
    case OpRepeatNg(_, _) => SIZE_OPCODE + SIZE_MEMNUM + SIZE_RELADDR
    case OpRepeatInc(_) => SIZE_OPCODE + SIZE_MEMNUM
    case OpRepeatIncNg(_) => SIZE_OPCODE + SIZE_MEMNUM
    case OpRepeatIncSg(_) => SIZE_OPCODE + SIZE_MEMNUM
    case OpRepeatIncNgSg(_) => SIZE_OPCODE + SIZE_MEMNUM
    case OpNullCheckStart(_) => SIZE_OPCODE + SIZE_MEMNUM
    case OpNullCheckEnd(_) => SIZE_OPCODE + SIZE_MEMNUM
    case OpNullCheckEndMemst(_) => SIZE_OPCODE + SIZE_MEMNUM
    case OpPushPosNot(_) => SIZE_OPCODE + SIZE_RELADDR
    case OpLookBehind(_) => SIZE_OPCODE + SIZE_LENGTH
    case OpPushLookBehindNot(_, _) => SIZE_OPCODE + SIZE_RELADDR + SIZE_LENGTH
    case _ => SIZE_OPCODE
  }

  /** One byte of code: the first byte of an instruction, or one of its operand bytes. */
  datatype Cell = Op(i: Instr) | Arg

  type Program = seq<Cell>

  /** An opcode and its operands, size bytes in all. */
  function Emit(i: Instr, size: nat): (c: Program)
    requires size >= 1
    ensures |c| == size && c[0] == Op(i)
  {
    [Op(i)] + Args(size - 1)
  }

  function Args(n: nat): (c: Program)
    ensures |c| == n
  {
    if n == 0 then [] else [Arg] + Args(n - 1)
  }

  /** Repeat bounds as OP_REPEAT_INC reads them. */
  datatype Range = Range(lower: nat, upper: int)

  // ----- OnigDistance -----

  const INFINITE_DISTANCE: nat := 0xffff_ffff

  type Distance = d: nat | d <= INFINITE_DISTANCE

  function DistanceAdd(d1: Distance, d2: Distance): Distance
  {
    if d1 == INFINITE_DISTANCE || d2 == INFINITE_DISTANCE then INFINITE_DISTANCE
    else if d1 <= INFINITE_DISTANCE - d2 then d1 + d2
    else INFINITE_DISTANCE
  }

  lemma MulBelow(d: nat, m: nat)
    requires m > 0 && d < INFINITE_DISTANCE / m
    ensures d * m < INFINITE_DISTANCE
  {
    var q := INFINITE_DISTANCE / m;
    assert q * m <= INFINITE_DISTANCE;
    MulMono(d, q - 1, m);
    assert (q - 1) * m == q * m - m;
  }

  lemma MulMono(a: nat, b: nat, m: nat)
    requires a <= b
    ensures a * m <= b * m
  {
  }

  function DistanceMultiply(d: Distance, m: nat): Distance
  {
    if m == 0 then 0
    else if d < INFINITE_DISTANCE / m then
      MulBelow(d, m);
      d * m
    else INFINITE_DISTANCE
  }
}
