/** Whatever shape compile_quantifier_node chooses, its code implements the repeat. */
module Quantifiers {
  import opened Regint
  import opened Regparse
  import opened Regcomp
  import opened Machine
  import opened Meaning
  import opened Lengths
  import opened LengthSound
  import opened Enumeration
  import opened Fragments
  import opened Loops
  import opened LoopBody
  import opened PushLoops
  import opened Counters

  lemma SkipAt(j: Job, r: Reg, i: Instr, size: nat)
    requires size >= 1 && Fits(j, Add(r, i, size))
    requires i.OpJump? || i.OpPush? || i.OpRepeatInc? || i.OpRepeatIncNg? || i.OpRepeatIncSg? || i.OpRepeatIncNgSg?
    requires size == if i.OpJump? || i.OpPush? then SIZE_OP_JUMP else SIZE_OP_REPEAT_INC
    ensures SkipLoopEnd(j.prog, |r.code|) == Some(|Add(r, i, size).code|)
  {
    AddAt(j, r, i, size);
  }

  // ----- greedy PUSH loop -----

  lemma PushLoopLayout(j: Job, cfg: Cfg, t: Node, q: Rep, ml: bool, r1: Reg, ids: Ids) returns (c: Body, r4: Reg)
    requires LoopOk(j.x, t, q) && Correct(j, cfg, t, ml) && FormOf(t, q, CompileLength(t, cfg)).PushLoop?
    requires Fits(j, CompileLoopTail(t, q, ml, cfg, r1))
    requires Within(IdsOf(r1, CompileLoopTail(t, q, ml, cfg, r1)), ids)
    ensures r4 == CompileLoopTail(t, q, ml, cfg, r1)
    ensures PushLoopAt(j, cfg, t, q, ml, c, |r1.code|, ids) && c.p2 == |r4.code|
  {
    hide Correct, Impl, MinLen, Formed, Ready, BodyAt, CompileEmptyCheck, Fits, Ext, IdsOf, Within, Fetch;
    hide CompileLength, Add;
    var modTlen := ModLen(q.emptyInfo, CompileLength(t, cfg));
    var head := LoopHead(q, modTlen + SIZE_OP_JUMP);
    var r2 := Add(r1, head, LoopHeadLength(q));
    var r3 := CompileEmptyCheck(t, q.emptyInfo, ml, cfg, r2);
    var back := OpJump(-(modTlen + SIZE_OP_JUMP + LoopHeadLength(q)));
    r4 := Add(r3, back, SIZE_OP_JUMP);
    AddAt(j, r3, back, SIZE_OP_JUMP);
    SkipAt(j, r3, back, SIZE_OP_JUMP);
    FitsDown(j, r2, r3);
    AddAt(j, r1, head, LoopHeadLength(q));
    c := BodyLayout(j, cfg, t, ml, q.emptyInfo, r2, |r4.code|);
    InnerIds(r1, r2, r3, r4, c, ids);
  }

  lemma InnerIds(r1: Reg, r2: Reg, r3: Reg, r4: Reg, c: Body, ids: Ids)
    requires Ext(r1, r2) && Ext(r2, r3) && Ext(r3, r4) && Within(IdsOf(r1, r4), ids) && Within(c.a, IdsOf(r2, r3))
    requires c.info == IsEmpty ==> r2.numNull <= c.id < r3.numNull
    ensures Within(c.a, ids) && (c.info == IsEmpty ==> ids.nlo <= c.id < ids.nhi)
  {
  }

  /** The part of a PUSH loop behind its mandatory copies. */
  function CompileLoopTail(t: Node, q: Rep, ml: bool, cfg: Cfg, r1: Reg): (r': Reg)
    requires Formed(t) && RepOk(q)
    ensures Ext(r1, r')
  {
    var modTlen := ModLen(q.emptyInfo, CompileLength(t, cfg));
    var r2 := Add(r1, LoopHead(q, modTlen + SIZE_OP_JUMP), LoopHeadLength(q));
    var r3 := CompileEmptyCheck(t, q.emptyInfo, ml, cfg, r2);
    Add(r3, OpJump(-(modTlen + SIZE_OP_JUMP + LoopHeadLength(q))), SIZE_OP_JUMP)
  }

  lemma PushLoopImpl(j: Job, cfg: Cfg, t: Node, q: Rep, ml: bool, r: Reg)
    requires LoopOk(j.x, t, q) && Correct(j, cfg, t, ml) && FormOf(t, q, CompileLength(t, cfg)).PushLoop?
    requires Fits(j, CompilePushLoop(t, q, ml, cfg, r))
    ensures Implements(j, cfg, CRep(t, q, ml, 0), r, CompilePushLoop(t, q, ml, cfg, r))
  {
    hide Correct, Impl, Formed, Ready, MinLen, CompileLength, BodyAt, CompileEmptyCheck, CompileTimes, CompileTree;
    hide Fits, Add;
    var r1 := CompileLower(t, q, LoopHeadLength(q), ml, cfg, r);
    var ids := IdsOf(r, CompilePushLoop(t, q, ml, cfg, r));
    assert CompileLoopTail(t, q, ml, cfg, r1) == CompilePushLoop(t, q, ml, cfg, r);
    var c, r4 := PushLoopLayout(j, cfg, t, q, ml, r1, ids);
    FitsDown(j, r1, r4);
    if JumpIn(q, CompileLength(t, cfg)) {
      AddAt(j, r, OpJump(LoopHeadLength(q)), SIZE_OP_JUMP);
      BackImpl(j, cfg, t, q, ml, c, |r1.code|, ids);
      JumpInGated(j.x, t, q, cfg, c);
      JumpInImpl(j, cfg, t, q, ml, c, |r.code|, LoopHeadLength(q), ids);
    } else {
      HeadImpl(j, cfg, t, q, ml, c, |r1.code|, ids);
      TimesImpl(j, cfg, t, q, ml, 0, q.lower, r, |r4.code|, ids);
    }
  }

  /** A loop that is jumped into checks its first iteration too. */
  lemma JumpInGated(x: Subject, t: Node, q: Rep, cfg: Cfg, c: Body)
    requires LoopOk(x, t, q) && Infinite(q.upper) && c.info == q.emptyInfo && JumpIn(q, CompileLength(t, cfg))
    requires var form := FormOf(t, q, CompileLength(t, cfg)); form.PushLoop? || form.LazyLoop?
    ensures Gated(t, q, cfg, 0, c)
  {
    hide Formed, Ready, MinLen, CompileLength, FormOf, LaterChecked;
  }

  // ----- lazy loop -----

  function CompileLazyTail(t: Node, q: Rep, ml: bool, cfg: Cfg, r1: Reg): (r': Reg)
    requires Formed(t)
    ensures Ext(r1, r')
  {
    var modTlen := ModLen(q.emptyInfo, CompileLength(t, cfg));
    var r2 := Add(r1, OpJump(modTlen), SIZE_OP_JUMP);
    var r3 := CompileEmptyCheck(t, q.emptyInfo, ml, cfg, r2);
    Add(r3, OpPush(-(modTlen + SIZE_OP_PUSH)), SIZE_OP_PUSH)
  }

  lemma LazyLoopLayout(j: Job, cfg: Cfg, t: Node, q: Rep, ml: bool, r1: Reg, ids: Ids) returns (c: Body, r4: Reg)
    requires LoopOk(j.x, t, q) && Correct(j, cfg, t, ml) && FormOf(t, q, CompileLength(t, cfg)).LazyLoop?
    requires Fits(j, CompileLazyTail(t, q, ml, cfg, r1))
    requires Within(IdsOf(r1, CompileLazyTail(t, q, ml, cfg, r1)), ids)
    ensures r4 == CompileLazyTail(t, q, ml, cfg, r1)
    ensures LazyLoopAt(j, cfg, t, q, ml, c, ids) && c.p2 == |r4.code| && c.b == |r1.code| + SIZE_OP_JUMP
    ensures Fetch(j.prog, |r1.code|) == Some(OpJump(c.x2 - c.b))
  {
    hide Correct, Impl, MinLen, Formed, Ready, BodyAt, CompileEmptyCheck, Fits, Ext, IdsOf, Within, Fetch;
    hide CompileLength, Add;
    var modTlen := ModLen(q.emptyInfo, CompileLength(t, cfg));
    var r2 := Add(r1, OpJump(modTlen), SIZE_OP_JUMP);
    var r3 := CompileEmptyCheck(t, q.emptyInfo, ml, cfg, r2);
    var back := OpPush(-(modTlen + SIZE_OP_PUSH));
    r4 := Add(r3, back, SIZE_OP_PUSH);
    AddAt(j, r3, back, SIZE_OP_PUSH);
    SkipAt(j, r3, back, SIZE_OP_PUSH);
    FitsDown(j, r2, r3);
    AddAt(j, r1, OpJump(modTlen), SIZE_OP_JUMP);
    c := BodyLayout(j, cfg, t, ml, q.emptyInfo, r2, |r4.code|);
    InnerIds(r1, r2, r3, r4, c, ids);
  }

  lemma LazyLoopImpl(j: Job, cfg: Cfg, t: Node, q: Rep, ml: bool, r: Reg)
    requires LoopOk(j.x, t, q) && Correct(j, cfg, t, ml) && FormOf(t, q, CompileLength(t, cfg)).LazyLoop?
    requires Fits(j, CompileLazyLoop(t, q, ml, cfg, r))
    ensures Implements(j, cfg, CRep(t, q, ml, 0), r, CompileLazyLoop(t, q, ml, cfg, r))
  {
    hide Correct, Impl, Formed, Ready, MinLen, CompileLength, BodyAt, CompileEmptyCheck, CompileTimes, CompileTree;
    hide Fits, Add;
    var r1 := CompileLower(t, q, SIZE_OP_JUMP, ml, cfg, r);
    var ids := IdsOf(r, CompileLazyLoop(t, q, ml, cfg, r));
    assert CompileLazyTail(t, q, ml, cfg, r1) == CompileLazyLoop(t, q, ml, cfg, r);
    var c, r4 := LazyLoopLayout(j, cfg, t, q, ml, r1, ids);
    FitsDown(j, r1, r4);
    LazyPushImpl(j, cfg, t, q, ml, c, ids);
    if JumpIn(q, CompileLength(t, cfg)) {
      AddAt(j, r, OpJump(SIZE_OP_JUMP), SIZE_OP_JUMP);
      JumpInGated(j.x, t, q, cfg, c);
      JumpInImpl(j, cfg, t, q, ml, c, |r.code|, SIZE_OP_JUMP, ids);
    } else {
      JumpImpl(j, cfg, |r1.code|, c.x2 - c.b, c.p2, CRep(t, q, ml, q.lower), ids);
      TimesImpl(j, cfg, t, q, ml, 0, q.lower, r, |r4.code|, ids);
    }
  }

  // ----- .* -----

  lemma AnycharStarImpl(j: Job, cfg: Cfg, t: Node, q: Rep, ml: bool, r: Reg)
    requires LoopOk(j.x, t, q) && Correct(j, cfg, t, ml) && FormOf(t, q, CompileLength(t, cfg)).AnycharStar?
    requires Fits(j, CompileAnycharStar(t, q, ml, cfg, r))
    ensures Implements(j, cfg, CRep(t, q, ml, 0), r, CompileAnycharStar(t, q, ml, cfg, r))
  {
    hide Correct, Impl, CompileTimes;
    var r1 := CompileTimes(t, q.lower, ml, cfg, r);
    var r2 := CompileAnycharStar(t, q, ml, cfg, r);
    if q.nextHead.Some? {
      AddAt(j, r1, OpAnyCharStarPeekNext(ml, q.nextHead.value[0]), SIZE_OPCODE + 1);
    } else {
      AddAt(j, r1, OpAnyCharStar(ml), SIZE_OPCODE);
    }
    StarImpl(j, cfg, q, ml, |r1.code|, |r2.code|, IdsOf(r, r2));
    TimesImpl(j, cfg, t, q, ml, 0, q.lower, r, |r2.code|, IdsOf(r, r2));
  }

  // ----- OP_REPEAT -----

  lemma CounterLayout(j: Job, cfg: Cfg, t: Node, q: Rep, ml: bool, r: Reg) returns (c: Body, r3: Reg)
    requires LoopOk(j.x, t, q) && Correct(j, cfg, t, ml) && FormOf(t, q, CompileLength(t, cfg)).Counter?
    requires Fits(j, CompileCounter(t, q, ml, cfg, r))
    ensures r3 == CompileCounter(t, q, ml, cfg, r)
    ensures CounterAt(j, cfg, t, q, ml, c, |r.ranges|, IdsOf(r, r3)) && c.p2 == |r3.code|
    ensures c.b == |r.code| + SIZE_OPCODE + SIZE_MEMNUM + SIZE_RELADDR
    ensures Fetch(j.prog, |r.code|) == Some(if q.greedy then OpRepeat(|r.ranges|, c.p2 - c.b)
            else OpRepeatNg(|r.ranges|, c.p2 - c.b))
  {
    hide Correct, Impl, MinLen, Formed, Ready, BodyAt, CompileEmptyCheck, Fits, Ext, IdsOf, Within, Fetch, CounterAt;
    hide CompileLength, FormOf, SkipLoopEnd, UpperOf, CompileTree, LoopOk, CounterHead, CompileCounter, RepeatIncInstr,
      Add;
    LoopFormed(j.x, t, q);
    CounterIs(t, q, ml, cfg, r);
    var id := |r.ranges|;
    var addr := ModLen(q.emptyInfo, CompileLength(t, cfg)) + SIZE_OP_REPEAT_INC;
    var r1 := CounterHead(q, addr, r);
    var r2 := CompileEmptyCheck(t, q.emptyInfo, ml, cfg, r1);
    var close := RepeatIncInstr(q, id);
    r3 := Add(r2, close, SIZE_OP_REPEAT_INC);
    AddAt(j, r2, close, SIZE_OP_REPEAT_INC);
    SkipAt(j, r2, close, SIZE_OP_REPEAT_INC);
    FitsDown(j, r1, r2);
    OpenAt(j, q, addr, r);
    c := BodyLayout(j, cfg, t, ml, q.emptyInfo, r1, |r3.code|);
    CounterIds(r, r1, r2, r3, c);
    CounterAtIs(j, cfg, t, q, ml, c, id, IdsOf(r, r3));
  }

  lemma CounterAtIs(j: Job, cfg: Cfg, t: Node, q: Rep, ml: bool, c: Body, id: nat, ids: Ids)
    requires LoopOk(j.x, t, q) && FormOf(t, q, CompileLength(t, cfg)).Counter?
    requires BodyAt(j, cfg, t, ml, c) && Within(c.a, ids) && (c.info == IsEmpty ==> ids.nlo <= c.id < ids.nhi)
    requires c.info == q.emptyInfo && c.p2 == c.x2 + SIZE_OP_REPEAT_INC && ids.rlo <= id < ids.rhi
             && !(c.a.rlo <= id < c.a.rhi)
    requires id < |j.prog.ranges| && j.prog.ranges[id] == Range(q.lower, UpperOf(q))
    requires Fetch(j.prog, c.x2) == Some(RepeatIncInstr(q, id))
    ensures CounterAt(j, cfg, t, q, ml, c, id, ids)
  {
  }

  lemma OpenAt(j: Job, q: Rep, addr: int, r: Reg)
    requires Fits(j, CounterHead(q, addr, r))
    ensures |r.ranges| < |j.prog.ranges| && j.prog.ranges[|r.ranges|] == Range(q.lower, UpperOf(q))
    ensures Fetch(j.prog, |r.code|) == Some(if q.greedy then OpRepeat(|r.ranges|, addr)
            else OpRepeatNg(|r.ranges|, addr))
  {
    var r1 := CounterHead(q, addr, r);
    var open := if q.greedy then OpRepeat(|r.ranges|, addr) else OpRepeatNg(|r.ranges|, addr);
    var r0 := Add(r, open, SIZE_OPCODE + SIZE_MEMNUM + SIZE_RELADDR);
    RangeAt(j, r, r1, Range(q.lower, UpperOf(q)));
    FitsLess(j, r0, r1);
    AddAt(j, r, open, SIZE_OPCODE + SIZE_MEMNUM + SIZE_RELADDR);
  }

  /** Fitting does not look at the counter of null checks, and less of the repeat table fits too. */
  lemma FitsLess(j: Job, r0: Reg, r1: Reg)
    requires Fits(j, r1) && r0.code == r1.code && r0.ranges <= r1.ranges
    ensures Fits(j, r0)
  {
  }

  lemma CounterIds(r: Reg, r1: Reg, r2: Reg, r3: Reg, c: Body)
    requires Ext(r, r1) && |r1.ranges| == |r.ranges| + 1 && Ext(r1, r2) && Ext(r2, r3) && Within(c.a, IdsOf(r1, r2))
    requires c.info == IsEmpty ==> r1.numNull <= c.id < r2.numNull
    ensures var ids := IdsOf(r, r3); var id := |r.ranges|;
            && Within(c.a, ids) && (c.info == IsEmpty ==> ids.nlo <= c.id < ids.nhi)
            && ids.rlo <= id < ids.rhi && !(c.a.rlo <= id < c.a.rhi)
  {
  }

  lemma RangeAt(j: Job, r: Reg, r1: Reg, range: Range)
    requires Fits(j, r1) && r1.ranges == r.ranges + [range]
    ensures |r.ranges| < |j.prog.ranges| && j.prog.ranges[|r.ranges|] == range
  {
  }

  /** OP_REPEAT starts the counter; with lower bound 0 the loop can be left at once. */
  lemma StartAt(j: Job, cfg: Cfg, t: Node, q: Rep, ml: bool, c: Body, id: nat, ids: Ids, p: int, s: nat, base: Stack)
    requires CounterAt(j, cfg, t, q, ml, c, id, ids) && s <= |j.x.text| && !UpperReached(q, 0)
    requires c.b == p + SIZE_OPCODE + SIZE_MEMNUM + SIZE_RELADDR
    requires Fetch(j.prog, p) == Some(if q.greedy then OpRepeat(id, c.p2 - c.b) else OpRepeatNg(id, c.p2 - c.b))
    ensures Enum(j, Run(p, s, base), base, c.p2, EndsRep(t, q, ml, j.x, cfg, 0, s), Fail(base), ids)
  {
    hide BodyAt, CompileLength, Ends, EndsEach, Enum, Fetch, Formed, Ready, MinLen, RepReady, Exec, Step;
    var S := Stk(c, id, 0, base, []);
    var more := EndsEach(t, q, ml, j.x, cfg, 1, Ends(t, ml, j.x, cfg, s), s);
    StartStep(j, q, id, c.p2 - c.b, p, s, base);
    assert S == base + [Repeat(0, c.b, id)];
    ReachesStep(j, Run(p, s, base));
    StartFrame(j, c, id, |base|, s, ids);
    PopCounter(j, c, id, base);
    if q.lower > 0 {
      IterAt(j, cfg, t, q, ml, c, id, ids, 0, s, base, []);
      EnumEnd(j, Run(c.b, s, S), base, c.p2, more, Fail(S), Fail(base), ids);
      EnumFrom(j, Run(p, s, base), Run(c.b, s, S), base, c.p2, more, Fail(base), ids);
    } else if q.greedy {
      var F := [StkAlt(c.p2, s)];
      var S1 := Stk(c, id, 0, base, F);
      assert S1 == S + F;
      IterAt(j, cfg, t, q, ml, c, id, ids, 0, s, base, F);
      PopAlt(j, S, c.p2, s);
      LeaveAt(j, Fail(S1), c, id, base, s, ids);
      EnumThen(j, Run(c.b, s, S1), base, c.p2, more, Fail(S1), [s], Fail(base), ids);
      EnumFrom(j, Run(p, s, base), Run(c.b, s, S1), base, c.p2, more + [s], Fail(base), ids);
    } else {
      var F := [StkAlt(c.b, s)];
      var S1 := S + F;
      IterAt(j, cfg, t, q, ml, c, id, ids, 0, s, base, []);
      EnumEnd(j, Run(c.b, s, S), base, c.p2, more, Fail(S), Fail(base), ids);
      PopAlt(j, S, c.b, s);
      EnumFrom(j, Fail(S1), Run(c.b, s, S), base, c.p2, more, Fail(base), ids);
      var fr := [Repeat(0, c.b, id), StkAlt(c.b, s)];
      assert base + fr == S1;
      EnumCons(j, Run(p, s, base), base, fr, c.p2, s, more, Fail(base), ids);
    }
  }

  lemma StartStep(j: Job, q: Rep, id: nat, addr: int, p: int, s: nat, base: Stack)
    requires Fetch(j.prog, p) == Some(if q.greedy then OpRepeat(id, addr) else OpRepeatNg(id, addr))
    requires id < |j.prog.ranges| && j.prog.ranges[id].lower == q.lower
    ensures var b := p + SIZE_OPCODE + SIZE_MEMNUM + SIZE_RELADDR;
            var S := base + [Repeat(0, b, id)];
            Step(j.prog, j.x, Run(p, s, base)) ==
            if q.lower > 0 then Run(b, s, S)
            else if q.greedy then Run(b, s, S + [StkAlt(b + addr, s)])
            else Run(b + addr, s, S + [StkAlt(b, s)])
  {
    StepAt(j, p, if q.greedy then OpRepeat(id, addr) else OpRepeatNg(id, addr), s, base);
  }

  lemma StartFrame(j: Job, c: Body, id: nat, h: nat, s: nat, ids: Ids)
    requires ids.rlo <= id < ids.rhi
    ensures LoopFrame(j, c, id, 0, h, [], ids)
    ensures LoopFrame(j, c, id, 0, h, [StkAlt(c.p2, s)], ids)
    ensures FrameIn(j, [Repeat(0, c.b, id), StkAlt(c.b, s)], h, ids)
    ensures FrameIn(j, [Repeat(0, c.b, id)], h, ids)
  {
    assert [Repeat(0, c.b, id)] + [] == [Repeat(0, c.b, id)];
    FrameNone(j, [Repeat(0, c.b, id)], h, ids);
    FrameNone(j, [Repeat(0, c.b, id)] + [StkAlt(c.p2, s)], h, ids);
    FrameNone(j, [Repeat(0, c.b, id), StkAlt(c.b, s)], h, ids);
  }

  lemma PopCounter(j: Job, c: Body, id: nat, base: Stack)
    ensures Reaches(j, Fail(Stk(c, id, 0, base, [])), Fail(base))
  {
    var stk := Stk(c, id, 0, base, []);
    assert stk[..|stk| - 1] == base;
    assert stk[|stk| - 1] == Repeat(0, c.b, id);
    ReachesStep(j, Fail(stk));
  }

  /** Leaving a loop that has not been entered. */
  lemma LeaveAt(j: Job, st: State, c: Body, id: nat, base: Stack, s: nat, ids: Ids)
    requires Reaches(j, st, Run(c.p2, s, Stk(c, id, 0, base, []))) && ids.rlo <= id < ids.rhi
    ensures Enum(j, st, base, c.p2, [s], Fail(base), ids)
  {
    hide Enum;
    var fr := [Repeat(0, c.b, id)];
    assert base + fr == Stk(c, id, 0, base, []);
    StartFrame(j, c, id, |base|, s, ids);
    PopCounter(j, c, id, base);
    EnumOne(j, st, base, fr, c.p2, s, Fail(base), ids);
  }

  lemma CounterImpl(j: Job, cfg: Cfg, t: Node, q: Rep, ml: bool, r: Reg)
    requires LoopOk(j.x, t, q) && Correct(j, cfg, t, ml) && FormOf(t, q, CompileLength(t, cfg)).Counter?
    requires Fits(j, CompileCounter(t, q, ml, cfg, r))
    ensures Implements(j, cfg, CRep(t, q, ml, 0), r, CompileCounter(t, q, ml, cfg, r))
  {
    CounterEnters(j.x, t, q, CompileLength(t, cfg));
    var c, r3 := CounterLayout(j, cfg, t, q, ml, r);
    hide Correct, EndsRep, Enum, Formed, Ready, MinLen, CompileLength, Fetch, CompileCounter, CounterAt, BodyAt, LoopOk;
    forall s: nat, base: Stack | s <= |j.x.text|
      ensures Enum(j, Run(|r.code|, s, base), base, |r3.code|, Of(CRep(t, q, ml, 0), j.x, cfg, s), Fail(base),
                   IdsOf(r, r3))
    {
      StartAt(j, cfg, t, q, ml, c, |r.ranges|, IdsOf(r, r3), |r.code|, s, base);
    }
  }

  /** A counter loop always has room for an iteration. */
  lemma CounterEnters(x: Subject, t: Node, q: Rep, tlen: nat)
    requires LoopOk(x, t, q) && FormOf(t, q, tlen).Counter?
    ensures !UpperReached(q, 0)
  {
    hide Formed, Ready, MinLen;
  }

  lemma LoopFormed(x: Subject, t: Node, q: Rep)
    requires LoopOk(x, t, q)
    ensures Formed(t) && RepOk(q)
    ensures q.emptyInfo != IsEmptyMem
  {
    hide Formed, Ready, MinLen;
  }

  /** compile_quantifier_node is right whichever branch it takes. */
  lemma QuantImpl(j: Job, cfg: Cfg, t: Node, q: Rep, ml: bool, r: Reg)
    requires LoopOk(j.x, t, q) && Correct(j, cfg, t, ml)
    requires Fits(j, CompileQuant(t, q, ml, cfg, r))
    ensures Implements(j, cfg, CRep(t, q, ml, 0), r, CompileQuant(t, q, ml, cfg, r))
  {
    hide *;
    LoopFormed(j.x, t, q);
    var tlen := CompileLength(t, cfg);
    CompileQuantIs(t, q, ml, cfg, r);
    match FormOf(t, q, tlen)
    case AnycharStar => AnycharStarImpl(j, cfg, t, q, ml, r);
    case PushLoop => PushLoopImpl(j, cfg, t, q, ml, r);
    case LazyLoop => LazyLoopImpl(j, cfg, t, q, ml, r);
    case Skipped => SkippedImpl(j, cfg, t, q, ml, r);
    case Copies => CopiesImpl(j, cfg, t, q, ml, r);
    case LazyOption => LazyOptionImpl(j, cfg, t, q, ml, r);
    case Counter => CounterImpl(j, cfg, t, q, ml, r);
  }
}
