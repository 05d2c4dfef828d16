/** stack_pop_level: what a program without counters, or without capture undo, never pushes. */
module PopLevels {
  import opened Regint
  import opened Regcomp
  import opened Machine
  import opened Undoing
  import opened Layout
  import opened Tables

  datatype PopLevel = PopFree | PopMemStart | PopAll

  /** The choice onig_compile makes. */
  function PopLevelOf(numRepeat: nat, btMemStart: set<nat>, btMemEnd: set<nat>): PopLevel {
    if numRepeat != 0 || btMemEnd != {} then PopAll
    else if btMemStart != {} then PopMemStart
    else PopFree
  }

  /** Entries that STACK_POP at this level need not look for. */
  predicate Expected(level: PopLevel, e: Entry) {
    match level
    case PopAll => true
    case PopMemStart => !e.RepeatInc? && !e.MemEnd?
    case PopFree => !e.RepeatInc? && !e.MemEnd? && !e.MemStart?
  }

  ghost predicate StackKinds(level: PopLevel, stk: Stack) { forall i :: 0 <= i < |stk| ==> Expected(level, stk[i]) }

  ghost predicate KindsOk(level: PopLevel, st: State) {
    match st
    case Run(_, _, stk) => StackKinds(level, stk)
    case Fail(stk) => StackKinds(level, stk)
    case Accept(_, stk) => StackKinds(level, stk)
    case _ => true
  }

  predicate InstrKind(level: PopLevel, i: Instr) {
    && (level.PopAll? || (!CounterInc(i) && !i.OpMemoryEndPush?))
    && (level.PopFree? ==> !i.OpMemoryStartPush?)
  }

  /** The layout theorem, read for the pop level. */
  lemma LevelInstr(g: Image, a: int)
    requires ProgOk(g) && At(g.prog.code, a)
    ensures InstrKind(PopLevelOf(|g.prog.ranges|, g.cfg.btMemStart, g.cfg.btMemEnd), g.prog.code[a].i)
  {
    CellAt(g, a);
    if CounterInc(g.prog.code[a].i) {
      var b := OpenedBy(g, a);
      CellAt(g, b);
    }
  }

  lemma PushKinds(level: PopLevel, stk: Stack, e: Entry)
    requires StackKinds(level, stk) && Expected(level, e)
    ensures StackKinds(level, stk + [e])
  {
  }

  lemma ReducedKinds(level: PopLevel, a: Stack, b: Stack)
    requires StackKinds(level, a) && Reduces(a, b)
    ensures StackKinds(level, b)
  {
    forall i | 0 <= i < |b| ensures Expected(level, b[i]) { assert Expected(level, a[i]) && Reduced(a[i], b[i]); }
  }

  lemma PushedKind(level: PopLevel, i: Instr, q: int, s: nat)
    requires InstrKind(level, i)
    ensures Pushed(false, i, q, s).Some? ==> Expected(level, Pushed(false, i, q, s).value)
  {
  }

  lemma PlainKinds(prog: Prog, x: Subject, level: PopLevel, i: Instr, q: int, s: nat, stk: Stack)
    requires StackKinds(level, stk) && InstrKind(level, i) && !Reworks(i) && !prog.rec
    ensures KindsOk(level, Exec(prog, x, i, q, s, stk))
  {
    ExecPushes(prog, x, i, q, s, stk);
    PushedKind(level, i, q, s);
    hide Exec, StackKinds, Reworks, InstrKind, Expected;
    var e := Pushed(false, i, q, s);
    hide Pushed;
    if e.Some? { PushKinds(level, stk, e.value); }
  }

  lemma {:induction false} StarKinds(x: Subject, level: PopLevel, ml: bool, peek: Option<byte>, q: int, s: nat,
                                     stk: Stack)
    requires StackKinds(level, stk)
    ensures KindsOk(level, StarLoop(x, ml, peek, q, s, stk))
    decreases |x.text| - s
  {
    hide StackKinds;
    if s < |x.text| {
      PushKinds(level, stk, StkAlt(q, s));
      var stk' := if peek.None? || peek.value == x.text[s] then stk + [StkAlt(q, s)] else stk;
      if ml || x.text[s] != NEWLINE { StarKinds(x, level, ml, peek, q, s + 1, stk'); }
    }
  }

  lemma RepeatKinds(prog: Prog, level: PopLevel, id: nat, greedy: bool, addr: int, q: int, s: nat, stk: Stack)
    requires StackKinds(level, stk)
    ensures KindsOk(level, ExecRepeat(prog, id, greedy, addr, q, s, stk))
  {
    hide StackKinds;
    var b := stk + [Repeat(0, q, id)];
    PushKinds(level, stk, Repeat(0, q, id));
    PushKinds(level, b, StkAlt(q + addr, s));
    PushKinds(level, b, StkAlt(q, s));
  }

  lemma ReworkKinds(prog: Prog, x: Subject, level: PopLevel, i: Instr, q: int, s: nat, stk: Stack)
    requires StackKinds(level, stk) && InstrKind(level, i) && Reworks(i) && !CounterInc(i)
    ensures KindsOk(level, Exec(prog, x, i, q, s, stk))
  {
    hide StackKinds, VoidTo, PopTil, StarLoop, ExecInc, ExecRepeat, Reduces;
    match i
    case OpAnyCharStar(ml) => StarKinds(x, level, ml, None, q, s, stk);
    case OpAnyCharStarPeekNext(ml, c) => StarKinds(x, level, ml, Some(c), q, s, stk);
    case OpPop => if stk != [] { DropKinds(level, stk, stk[..|stk| - 1]); }
    case OpRepeat(id, addr) => RepeatKinds(prog, level, id, true, addr, q, s, stk);
    case OpRepeatNg(id, addr) => RepeatKinds(prog, level, id, false, addr, q, s, stk);
    case OpPopPos => VoidKinds(level, stk, MarkPos);
    case OpPopStopBt => VoidKinds(level, stk, MarkStopBt);
    case OpFailPos => TilKinds(level, stk, MarkPosNot);
    case OpFailLookBehindNot => TilKinds(level, stk, MarkLookBehindNot);
  }

  lemma DropKinds(level: PopLevel, stk: Stack, b: Stack)
    requires StackKinds(level, stk) && |b| <= |stk| && b == stk[..|b|]
    ensures StackKinds(level, b)
  {
  }

  lemma VoidKinds(level: PopLevel, stk: Stack, m: Mark)
    requires StackKinds(level, stk)
    ensures VoidTo(stk, m).Some? ==> StackKinds(level, VoidTo(stk, m).value.0)
  {
    if VoidTo(stk, m).Some? {
      VoidReduces(stk, m);
      ReducedKinds(level, stk, VoidTo(stk, m).value.0);
    }
  }

  lemma TilKinds(level: PopLevel, stk: Stack, m: Mark)
    requires StackKinds(level, stk)
    ensures PopTil(stk, m).Some? ==> StackKinds(level, PopTil(stk, m).value)
  {
    if PopTil(stk, m).Some? {
      PopTilReduces(stk, m);
      ReducedKinds(level, stk, PopTil(stk, m).value);
    }
  }

  lemma FailKinds(level: PopLevel, stk: Stack)
    requires StackKinds(level, stk)
    ensures KindsOk(level, PopOne(stk))
  {
    if stk != [] {
      var n := |stk| - 1;
      UndoReduces(stk);
      DropKinds(level, stk, stk[..n]);
      var u := Undo(stk[n], stk[..n]);
      if u.Some? { ReducedKinds(level, stk, u.value); }
    }
  }

  /** One step of a compiled program pushes nothing its pop level does not look for. */
  lemma StepKinds(g: Image, x: Subject, st: State)
    requires ProgOk(g) && !g.prog.rec
    requires KindsOk(PopLevelOf(|g.prog.ranges|, g.cfg.btMemStart, g.cfg.btMemEnd), st)
    ensures KindsOk(PopLevelOf(|g.prog.ranges|, g.cfg.btMemStart, g.cfg.btMemEnd), Step(g.prog, x, st))
  {
    var level := PopLevelOf(|g.prog.ranges|, g.cfg.btMemStart, g.cfg.btMemEnd);
    if level == PopAll { return; }
    hide StackKinds, ProgOk, Exec, PopOne, Reworks, InstrKind, CounterInc, PopLevelOf;
    match st
    case Run(p, s, stk) =>
      var f := Fetch(g.prog, p);
      if p == FINISH_CODE {
        FinishExec(g.prog, x, p + Size(OpFinish), s, stk);
      } else if f.Some? {
        LevelInstr(g, p);
        NoInc(level, f.value);
        if Reworks(f.value) {
          ReworkKinds(g.prog, x, level, f.value, p + Size(f.value), s, stk);
        } else {
          PlainKinds(g.prog, x, level, f.value, p + Size(f.value), s, stk);
        }
      }
    case Fail(stk) => FailKinds(level, stk);
    case _ =>
  }

  lemma NoInc(level: PopLevel, i: Instr)
    requires InstrKind(level, i) && level != PopAll
    ensures !CounterInc(i)
  {
  }

  /** At every level, popping an entry has the effect of the full undo. */
  lemma LevelPops(level: PopLevel, stk: Stack)
    requires StackKinds(level, stk) && stk != [] && level != PopAll
    ensures Undo(stk[|stk| - 1], stk[..|stk| - 1]) == Some(stk[..|stk| - 1])
  {
    assert Expected(level, stk[|stk| - 1]);
  }
}
