/** The control part of match_at: code position, text position and backtrack stack
    (Dependencies/oniguruma5/regexec.c). Capture positions and the repeat index table, which no
    modelled instruction lets steer the control flow, are added in module Matcher.

    A STACK_POP is split into one step per entry. Stuck stands for everything compiled code must
    never run into: a position that holds no instruction, a scan that runs off the stack, OP_POP
    dropping anything but a choice point, the unexpected-bytecode error, the capture-aware null check,
    and a lazy counter that is incremented past its upper bound. */
module Machine {
  import opened Regint

  /** The text, the byte that happens to lie behind it, and the match arguments that are read. */
  datatype Subject = Subject(text: seq<byte>, atEnd: byte, start: nat, notEol: bool)

  function ReadByte(x: Subject, s: nat): byte {
    if s < |x.text| then x.text[s] else x.atEnd
  }

  datatype Entry =
    | StkAlt(pcode: int, pstr: nat)
    | StkPosNot(pcode: int, pstr: nat)
    | StkLookBehindNot(pcode: int, pstr: nat)
    | MemStart(num: nat, pstr: nat) | MemEnd(num: nat, pstr: nat)
    | RepeatInc(si: nat)
    | NullCheckStart(num: nat, pstr: nat)
    | Pos(pstr: nat)
    | StopBt
    | Repeat(count: int, pcode: int, num: nat)
    | Void

  type Stack = seq<Entry>

  /** STK_MASK_POP_USED */
  predicate PopUsed(e: Entry) { e.StkAlt? || e.StkPosNot? || e.StkLookBehindNot? }

  predicate NoMem(e: Entry) { !e.MemStart? && !e.MemEnd? }

  /** STK_MASK_TO_VOID_TARGET */
  predicate ToVoidTarget(e: Entry) { PopUsed(e) || e.NullCheckStart? }

  /** rec: an ideal machine that also notes on the stack where groups without undo bits open and close. The code
      runs on the machine that does not. */
  datatype Prog = Prog(code: Program, ranges: seq<Range>, rec: bool := false)

  datatype State =
    | Run(p: int, s: nat, stk: Stack)
    | Fail(stk: Stack)
    | Accept(s: nat, stk: Stack)      // OP_END
    | Finished                        // OP_FINISH: no alternative left
    | Stuck

  /** Address of the one-instruction program below the bottom choice point. */
  const FINISH_CODE: int := -1

  function Fetch(prog: Prog, p: int): Option<Instr> {
    if p == FINISH_CODE then Some(OpFinish)
    else if 0 <= p < |prog.code| && prog.code[p].Op? then Some(prog.code[p].i)
    else None
  }

  // ----- scans from the top of the stack -----

  function FindRepeat(stk: Stack, id: nat): (r: Option<nat>)
    ensures r.Some? ==> r.value < |stk| && stk[r.value].Repeat? && stk[r.value].num == id
  {
    if stk == [] then None
    else
      var e := stk[|stk| - 1];
      if e.Repeat? && e.num == id then Some(|stk| - 1) else FindRepeat(stk[..|stk| - 1], id)
  }

  function FindNullCheck(stk: Stack, id: nat): Option<nat> {
    if stk == [] then None
    else
      var e := stk[|stk| - 1];
      if e.NullCheckStart? && e.num == id then Some(e.pstr) else FindNullCheck(stk[..|stk| - 1], id)
  }

  datatype Mark = MarkPos | MarkStopBt | MarkPosNot | MarkLookBehindNot

  predicate IsMark(e: Entry, m: Mark) {
    match m
    case MarkPos => e.Pos?
    case MarkStopBt => e.StopBt?
    case MarkPosNot => e.StkPosNot?
    case MarkLookBehindNot => e.StkLookBehindNot?
  }

  /** STACK_POS_END, STACK_STOP_BT_END: the stack with the mark and every choice point above it
      blanked, and the mark that was found. */
  function VoidTo(stk: Stack, m: Mark): Option<(Stack, Entry)> {
    if stk == [] then None
    else
      var e := stk[|stk| - 1];
      var below := stk[..|stk| - 1];
      if ToVoidTarget(e) then
        var r := VoidTo(below, m);
        if r.None? then None else Some((r.value.0 + [Void], r.value.1))
      else if IsMark(e, m) then Some((below + [Void], e))
      else
        var r := VoidTo(below, m);
        if r.None? then None else Some((r.value.0 + [e], r.value.1))
  }

  /** What popping one entry does to the rest of the stack. */
  function Undo(e: Entry, below: Stack): Option<Stack> {
    if e.RepeatInc? then
      if e.si < |below| && below[e.si].Repeat? then
        Some(below[e.si := below[e.si].(count := below[e.si].count - 1)])
      else None
    else Some(below)
  }

  /** STACK_POP_TIL_POS_NOT, STACK_POP_TIL_LOOK_BEHIND_NOT */
  function PopTil(stk: Stack, m: Mark): Option<Stack>
    decreases |stk|
  {
    if stk == [] then None
    else
      var e := stk[|stk| - 1];
      var below := stk[..|stk| - 1];
      if IsMark(e, m) then Some(below)
      else
        var u := Undo(e, below);
        if u.None? then None else PopTil(u.value, m)
  }

  // ----- single instructions -----

  predicate HasAt(x: Subject, s: nat, str: seq<byte>) {
    s + |str| <= |x.text| && x.text[s..s + |str|] == str
  }

  predicate IsWord(b: byte) {
    0x30 <= b <= 0x39 || 0x41 <= b <= 0x5a || b == 0x5f || 0x61 <= b <= 0x7a
  }

  /** A one-byte matcher: succeed and advance, or fail. */
  function Advance(ok: bool, q: int, s: nat, stk: Stack): State {
    if ok then Run(q, s + 1, stk) else Fail(stk)
  }

  function Stay(ok: bool, q: int, s: nat, stk: Stack): State {
    if ok then Run(q, s, stk) else Fail(stk)
  }

  predicate AtAnchorEndLine(x: Subject, s: nat) {
    if s == |x.text| then !x.notEol else s < |x.text| && x.text[s] == NEWLINE
  }

  predicate AtAnchorSemiEnd(x: Subject, s: nat) {
    if s == |x.text| then !x.notEol else s < |x.text| && x.text[s] == NEWLINE && s + 1 == |x.text|
  }

  /** OP_ANYCHAR_STAR and its peeking variant: one instruction, a loop inside. */
  function StarLoop(x: Subject, ml: bool, peek: Option<byte>, q: int, s: nat, stk: Stack): State
    decreases |x.text| - s
  {
    if s < |x.text| then
      var stk' := if peek.None? || peek.value == x.text[s] then stk + [StkAlt(q, s)] else stk;
      if !ml && x.text[s] == NEWLINE then Fail(stk')
      else StarLoop(x, ml, peek, q, s + 1, stk')
    else Run(q, s, stk)
  }

  function IncGreedy(r: Range, k: nat, q: int, s: nat, stk: Stack): State
    requires k < |stk| && stk[k].Repeat?
  {
    var e := stk[k].(count := stk[k].count + 1);
    var stk1 := stk[k := e];
    if e.count >= r.upper then Run(q, s, stk1 + [RepeatInc(k)])
    else if e.count >= r.lower then Run(e.pcode, s, stk1 + [StkAlt(q, s), RepeatInc(k)])
    else Run(e.pcode, s, stk1 + [RepeatInc(k)])
  }

  function IncLazy(r: Range, k: nat, q: int, s: nat, stk: Stack): State
    requires k < |stk| && stk[k].Repeat?
  {
    var e := stk[k].(count := stk[k].count + 1);
    var stk1 := stk[k := e];
    if e.count < r.upper then
      if e.count >= r.lower then Run(q, s, stk1 + [RepeatInc(k), StkAlt(e.pcode, s)])
      else Run(e.pcode, s, stk1 + [RepeatInc(k)])
    else if e.count == r.upper then Run(q, s, stk1 + [RepeatInc(k)])
    else Stuck
  }

  function ExecInc(prog: Prog, id: nat, greedy: bool, q: int, s: nat, stk: Stack): State {
    var k := FindRepeat(stk, id);
    if k.None? || id >= |prog.ranges| then Stuck
    else if greedy then IncGreedy(prog.ranges[id], k.value, q, s, stk)
    else IncLazy(prog.ranges[id], k.value, q, s, stk)
  }

  function ExecRepeat(prog: Prog, id: nat, greedy: bool, addr: int, q: int, s: nat, stk: Stack): State {
    var stk1 := stk + [Repeat(0, q, id)];
    if id >= |prog.ranges| then Stuck
    else if prog.ranges[id].lower != 0 then Run(q, s, stk1)
    else if greedy then Run(q, s, stk1 + [StkAlt(q + addr, s)])
    else Run(q + addr, s, stk1 + [StkAlt(q, s)])
  }

  /** Behind an empty iteration the next instruction, which closes the loop, is skipped. */
  function SkipLoopEnd(prog: Prog, q: int): Option<int> {
    var i := Fetch(prog, q);
    if i.None? then None
    else match i.value
      case OpJump(_) => Some(q + SIZE_OP_JUMP)
      case OpPush(_) => Some(q + SIZE_OP_PUSH)
      case OpRepeatInc(_) => Some(q + SIZE_OP_REPEAT_INC)
      case OpRepeatIncNg(_) => Some(q + SIZE_OP_REPEAT_INC)
      case OpRepeatIncSg(_) => Some(q + SIZE_OP_REPEAT_INC)
      case OpRepeatIncNgSg(_) => Some(q + SIZE_OP_REPEAT_INC)
      case _ => None
  }

  function ExecNullCheckEnd(prog: Prog, id: nat, q: int, s: nat, stk: Stack): State {
    var at := FindNullCheck(stk, id);
    if at.None? then Stuck
    else if at.value != s then Run(q, s, stk)
    else
      var q' := SkipLoopEnd(prog, q);
      if q'.None? then Stuck else Run(q'.value, s, stk)
  }

  /** One instruction; q is the address behind it. */
  function Exec(prog: Prog, x: Subject, i: Instr, q: int, s: nat, stk: Stack): State {
    match i
    case OpFinish => Finished
    case OpEnd => Accept(s, stk)
    case OpExact1(c) =>
      if ReadByte(x, s) != c then Fail(stk) else Advance(s + 1 <= |x.text|, q, s, stk)
    case OpExactK(str) => if HasAt(x, s, str) then Run(q, s + |str|, stk) else Fail(stk)
    case OpExactN(str) => if HasAt(x, s, str) then Run(q, s + |str|, stk) else Fail(stk)
    case OpCClass(bs) => Advance(s < |x.text| && x.text[s] in bs, q, s, stk)
    case OpCClassNot(bs) => Advance(s < |x.text| && x.text[s] !in bs, q, s, stk)
    case OpCClassMb(_) => Fail(stk)                        // no single byte heads a multi-byte character
    case OpCClassMbNot(_) => Advance(s < |x.text|, q, s, stk)
    case OpCClassMix(bs, _) => Advance(s < |x.text| && x.text[s] in bs, q, s, stk)
    case OpCClassMixNot(bs, _) => Advance(s < |x.text| && x.text[s] !in bs, q, s, stk)
    case OpCClassNode(bs, neg) => Advance(s < |x.text| && (x.text[s] in bs) != neg, q, s, stk)
    case OpAnyChar(ml) => Advance(s < |x.text| && (ml || x.text[s] != NEWLINE), q, s, stk)
    case OpAnyCharStar(ml) => StarLoop(x, ml, None, q, s, stk)
    case OpAnyCharStarPeekNext(ml, c) => StarLoop(x, ml, Some(c), q, s, stk)
    case OpWord => Advance(s < |x.text| && IsWord(x.text[s]), q, s, stk)
    case OpNotWord => Advance(s < |x.text| && !IsWord(x.text[s]), q, s, stk)
    case OpBeginBuf => Stay(s == 0, q, s, stk)
    case OpEndBuf => Stay(s == |x.text|, q, s, stk)
    case OpEndLine => Stay(AtAnchorEndLine(x, s), q, s, stk)
    case OpSemiEndBuf => Stay(AtAnchorSemiEnd(x, s), q, s, stk)
    case OpBeginPosition => Stay(s == x.start, q, s, stk)
    case OpMemoryStart(n) => Run(q, s, if prog.rec then stk + [MemStart(n, s)] else stk)
    case OpMemoryStartPush(n) => Run(q, s, stk + [MemStart(n, s)])
    case OpMemoryEnd(n) => Run(q, s, if prog.rec then stk + [MemEnd(n, s)] else stk)
    case OpMemoryEndPush(n) => Run(q, s, stk + [MemEnd(n, s)])
    case OpJump(addr) => Run(q + addr, s, stk)
    case OpPush(addr) => Run(q, s, stk + [StkAlt(q + addr, s)])
    case OpPop => if stk == [] || !stk[|stk| - 1].StkAlt? then Stuck else Run(q, s, stk[..|stk| - 1])
    case OpPushOrJumpExact1(addr, c) =>
      if ReadByte(x, s) == c && s + 1 <= |x.text| then Run(q, s, stk + [StkAlt(q + addr, s)])
      else Run(q + addr, s, stk)
    case OpPushIfPeekNext(addr, c) =>
      if ReadByte(x, s) == c then Run(q, s, stk + [StkAlt(q + addr, s)]) else Run(q, s, stk)
    case OpRepeat(id, addr) => ExecRepeat(prog, id, true, addr, q, s, stk)
    case OpRepeatNg(id, addr) => ExecRepeat(prog, id, false, addr, q, s, stk)
    case OpRepeatInc(id) => ExecInc(prog, id, true, q, s, stk)
    case OpRepeatIncSg(id) => ExecInc(prog, id, true, q, s, stk)
    case OpRepeatIncNg(id) => ExecInc(prog, id, false, q, s, stk)
    case OpRepeatIncNgSg(id) => ExecInc(prog, id, false, q, s, stk)
    case OpNullCheckStart(id) => Run(q, s, stk + [NullCheckStart(id, s)])
    case OpNullCheckEnd(id) => ExecNullCheckEnd(prog, id, q, s, stk)
    case OpNullCheckEndMemst(_) => Stuck                   // not modelled
    case OpPushPos => Run(q, s, stk + [Pos(s)])
    case OpPopPos =>
      var r := VoidTo(stk, MarkPos);
      if r.None? then Stuck else if r.value.1.Pos? then Run(q, r.value.1.pstr, r.value.0) else Stuck
    case OpPushPosNot(addr) => Run(q, s, stk + [StkPosNot(q + addr, s)])
    case OpFailPos =>
      var r := PopTil(stk, MarkPosNot);
      if r.None? then Stuck else Fail(r.value)
    case OpPushStopBt => Run(q, s, stk + [StopBt])
    case OpPopStopBt =>
      var r := VoidTo(stk, MarkStopBt);
      if r.None? then Stuck else Run(q, s, r.value.0)
    case OpLookBehind(n) => if s < n then Fail(stk) else Run(q, s - n, stk)
    case OpPushLookBehindNot(addr, n) =>
      if s < n then Run(q + addr, s, stk) else Run(q, s - n, stk + [StkLookBehindNot(q + addr, s)])
    case OpFailLookBehindNot =>
      var r := PopTil(stk, MarkLookBehindNot);
      if r.None? then Stuck else Fail(r.value)
  }

  function PopOne(stk: Stack): State {
    if stk == [] then Stuck
    else
      var e := stk[|stk| - 1];
      var below := stk[..|stk| - 1];
      if PopUsed(e) then Run(e.pcode, e.pstr, below)
      else
        var u := Undo(e, below);
        if u.None? then Stuck else Fail(u.value)
  }

  function Step(prog: Prog, x: Subject, st: State): State {
    match st
    case Run(p, s, stk) =>
      var i := Fetch(prog, p);
      if i.None? then Stuck else Exec(prog, x, i.value, p + Size(i.value), s, stk)
    case Fail(stk) => PopOne(stk)
    case _ => st
  }

  function Steps(prog: Prog, x: Subject, st: State, n: nat): State
    decreases n
  {
    if n == 0 then st else Steps(prog, x, Step(prog, x, st), n - 1)
  }
}
