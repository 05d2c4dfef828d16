/** (?>X*) as PUSH X POP JUMP: with nothing for X the three instructions go round for ever. */
module EmptyLoops {
  import opened Regint
  import opened Regparse
  import opened Regcomp
  import opened Machine
  import opened Setup
  import opened Meaning
  import opened Lengths
  import opened Enumeration
  import opened Fragments
  import opened CompilerCorrect
  import opened ProgramCorrect
  import opened SetupMeaning
  import opened SetupReady
  import opened SetupCorrect

  function Circle(q: Rep): Node { Atomic(true, Quant(Str([]), q)) }

  const PUSH_AT := 0
  const POP_AT := PUSH_AT + SIZE_OP_PUSH
  const JUMP_AT := POP_AT + SIZE_OP_POP

  lemma {:induction false} NoCopies(m: nat, ml: bool, cfg: Cfg, r: Reg)
    ensures CompileTimes(Str([]), m, ml, cfg, r) == r
  {
    if m > 0 { NoCopies(m - 1, ml, cfg, r); }
  }

  /** The program is PUSH, POP, JUMP back, END. */
  lemma CircleCode(q: Rep, ml: bool, cfg: Cfg)
    requires Formed(Circle(q))
    ensures var p := ProgramOf(Circle(q), ml, cfg);
            && Fetch(p, PUSH_AT) == Some(OpPush(SIZE_OP_POP + SIZE_OP_JUMP))
            && Fetch(p, POP_AT) == Some(OpPop)
            && Fetch(p, JUMP_AT) == Some(OpJump(-(SIZE_OP_PUSH + SIZE_OP_POP + SIZE_OP_JUMP)))
  {
    var j := Job(ProgramOf(Circle(q), ml, cfg), Subject([], 0, 0, false));
    var push := OpPush(SIZE_OP_POP + SIZE_OP_JUMP);
    var jump := OpJump(-(SIZE_OP_PUSH + SIZE_OP_POP + SIZE_OP_JUMP));
    var r1 := Add(NOTHING, push, SIZE_OP_PUSH);
    var r2 := Add(r1, OpPop, SIZE_OP_POP);
    var r3 := Add(r2, jump, SIZE_OP_JUMP);
    NoCopies(q.lower, ml, cfg, NOTHING);
    CircleIs(q, ml, cfg);
    assert Fits(j, Add(r3, OpEnd, SIZE_OPCODE));
    AddAt(j, r3, OpEnd, SIZE_OPCODE);
    AddAt(j, r2, jump, SIZE_OP_JUMP);
    AddAt(j, r1, OpPop, SIZE_OP_POP);
    AddAt(j, NOTHING, push, SIZE_OP_PUSH);
  }

  lemma CircleIs(q: Rep, ml: bool, cfg: Cfg)
    requires Formed(Circle(q)) && CompileTimes(Str([]), q.lower, ml, cfg, NOTHING) == NOTHING
    ensures CompileTree(Circle(q), ml, cfg, NOTHING) ==
            Add(Add(Add(NOTHING, OpPush(SIZE_OP_POP + SIZE_OP_JUMP), SIZE_OP_PUSH), OpPop, SIZE_OP_POP),
                OpJump(-(SIZE_OP_PUSH + SIZE_OP_POP + SIZE_OP_JUMP)), SIZE_OP_JUMP)
  {
    hide Add, CompileTimes;
    var push := OpPush(SIZE_OP_POP + SIZE_OP_JUMP);
    assert CompileLength(Str([]), cfg) == 0;
    assert CompileTree(Str([]), ml, cfg, Add(NOTHING, push, SIZE_OP_PUSH)) == Add(NOTHING, push, SIZE_OP_PUSH);
  }

  /** The states of the circle, at the same text position with the same stack. */
  function OnCircle(s: nat, k: nat): State {
    if k % 3 == 0 then StartState(s)
    else if k % 3 == 1 then Run(POP_AT, s, [BOTTOM] + [StkAlt(JUMP_AT + SIZE_OP_JUMP, s)])
    else Run(JUMP_AT, s, [BOTTOM])
  }

  lemma CircleStep(q: Rep, ml: bool, cfg: Cfg, x: Subject, s: nat, k: nat)
    requires Formed(Circle(q))
    ensures Step(ProgramOf(Circle(q), ml, cfg), x, OnCircle(s, k)) == OnCircle(s, k + 1)
  {
    hide ProgramOf, Formed, Fetch, Exec, Step, Circle;
    CircleCode(q, ml, cfg);
    var j := Job(ProgramOf(Circle(q), ml, cfg), x);
    var alt := StkAlt(JUMP_AT + SIZE_OP_JUMP, s);
    StepPush(j, PUSH_AT, SIZE_OP_POP + SIZE_OP_JUMP, s, [BOTTOM]);
    StepPop(j, POP_AT, s, [BOTTOM], alt);
    StepJump(j, JUMP_AT, -(SIZE_OP_PUSH + SIZE_OP_POP + SIZE_OP_JUMP), s, [BOTTOM]);
    assert (k + 1) % 3 == if k % 3 == 2 then 0 else k % 3 + 1;
  }

  lemma StepPop(j: Job, p: int, e: nat, base: Stack, alt: Entry)
    requires Fetch(j.prog, p) == Some(OpPop) && alt.StkAlt?
    ensures Step(j.prog, j.x, Run(p, e, base + [alt])) == Run(p + SIZE_OP_POP, e, base)
  {
    var stk := base + [alt];
    assert stk[..|stk| - 1] == base;
    StepAt(j, p, OpPop, e, stk);
  }

  lemma {:induction false} CircleRun(q: Rep, ml: bool, cfg: Cfg, x: Subject, s: nat, i: nat, k: nat)
    requires Formed(Circle(q))
    ensures Steps(ProgramOf(Circle(q), ml, cfg), x, OnCircle(s, i), k) == OnCircle(s, i + k)
    decreases k
  {
    hide ProgramOf, Formed, Step, OnCircle;
    if k > 0 {
      CircleStep(q, ml, cfg, x, s, i);
      CircleRun(q, ml, cfg, x, s, i + 1, k - 1);
    }
  }

  /** The simple repeat of the empty string never stops. */
  lemma NeverHalts(q: Rep, ml: bool, cfg: Cfg, x: Subject, s: nat, k: nat)
    requires Formed(Circle(q))
    ensures !Halted(Steps(ProgramOf(Circle(q), ml, cfg), x, StartState(s), k))
  {
    CircleRun(q, ml, cfg, x, s, 0, k);
    hide ProgramOf, Formed, Step;
  }

  ghost predicate Halts(n: Node, ml: bool, cfg: Cfg, x: Subject, s: nat)
    requires Formed(n)
  {
    exists k: nat :: Halted(Steps(ProgramOf(n, ml, cfg), x, StartState(s), k))
  }

  lemma ReadyHalts(n: Node, ml: bool, cfg: Cfg, x: Subject, s: nat)
    requires Formed(n) && Ready(n) && TextOk(x) && s <= |x.text|
    ensures Halts(n, ml, cfg, x, s)
  {
    hide Formed, Ready, Ends, ProgramOf, Step;
    var k := ProgramHalts(n, ml, cfg, x, s);
    assert Halted(Steps(ProgramOf(n, ml, cfg), x, StartState(s), k));
  }

  lemma CircleNever(q: Rep, ml: bool, cfg: Cfg, x: Subject, s: nat)
    requires Formed(Circle(q))
    ensures !Halts(Circle(q), ml, cfg, x, s)
  {
    hide ProgramOf, Step, Formed, Halted, Circle;
    forall k: nat ensures !Halted(Steps(ProgramOf(Circle(q), ml, cfg), x, StartState(s), k)) {
      NeverHalts(q, ml, cfg, x, s, k);
    }
  }

  /** A simple repeat stops, on every text, exactly when its body is not the empty string. */
  lemma SimpleHalts(t: Node, q: Rep, ml: bool, cfg: Cfg, x: Subject, s: nat)
    requires IsSimple(t) && RepOk(q) && Infinite(q.upper) && q.lower <= MAX_REPEAT_NUM
    requires TextOk(x) && s <= |x.text|
    ensures Formed(Atomic(true, Quant(t, q)))
    ensures Halts(Atomic(true, Quant(t, q)), ml, cfg, x, s) <==> t != Str([])
  {
    assert Formed(t) && Ready(t) && Formed(Quant(t, q));
    if t == Str([]) {
      CircleNever(q, ml, cfg, x, s);
    } else {
      ReadyHalts(Atomic(true, Quant(t, q)), ml, cfg, x, s);
    }
  }

  /** (?>b) as the parser builds it stops after set-up exactly when b is not a greedy loop, with no lower
      bound past 1, round nothing; the reference has a result in both cases. */
  lemma AtomicHalts(b: Node, ml: bool, cfg: Cfg, x: Subject, s: nat)
    requires Parsed(b) && TextOk(x) && s <= |x.text|
    ensures var n := SetupTree(Atomic(false, b), false); Formed(n) && (Halts(n, ml, cfg, x, s) <==> !EmptyLoop(b))
  {
    var n := SetupTree(Atomic(false, b), false);
    if EmptyLoop(b) {
      EmptyLoopIs(b);
      SimpleHalts(Str([]), n.body.q, ml, cfg, x, s);
    } else {
      SetupFormed(Atomic(false, b), false);
      SetupIsReady(Atomic(false, b), false);
      ReadyHalts(n, ml, cfg, x, s);
    }
  }

  lemma EmptyLoopIs(b: Node)
    requires Parsed(b) && EmptyLoop(b)
    ensures var n := SetupTree(Atomic(false, b), false);
            n.Atomic? && n.body.Quant? && n == Circle(n.body.q) && RepOk(n.body.q) && Infinite(n.body.q.upper)
              && n.body.q.lower <= MAX_REPEAT_NUM
  {
    hide MinLen, HasMemory;
    assert HeadString(Str([])) == None;
  }
}
