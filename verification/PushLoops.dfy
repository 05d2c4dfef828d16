/** Unbounded loops built from PUSH and JUMP, and the one-instruction .* loop. */
module PushLoops {
  import opened Regint
  import opened Regparse
  import opened Regcomp
  import opened Machine
  import opened Meaning
  import opened Lengths
  import opened LengthSound
  import opened Enumeration
  import opened Fragments
  import opened Loops
  import opened LoopBody

  /** An iteration of an unbounded loop that does not leave it has moved. */
  lemma Moved(x: Subject, t: Node, q: Rep, c: Body, s: nat, e: nat)
    requires LoopOk(x, t, q) && Infinite(q.upper) && c.info == q.emptyInfo && s + MinLen(t) <= e && !Exits(c, s, e)
    ensures e > s
  {
    hide Formed, Ready, MinLen;
  }

  /** Past its lower bound an unbounded loop is checked, or always moves. */
  lemma LateGated(x: Subject, t: Node, q: Rep, cfg: Cfg, k: nat, c: Body)
    requires LoopOk(x, t, q) && Infinite(q.upper) && q.lower <= k && c.info == q.emptyInfo
    ensures Gated(t, q, cfg, k, c)
  {
    hide Formed, Ready, MinLen, NowChecked, LaterChecked;
  }

  // ----- greedy: PUSH end; body; JUMP back -----

  ghost predicate PushLoopAt(j: Job, cfg: Cfg, t: Node, q: Rep, ml: bool, c: Body, h: int, ids: Ids) {
    && LoopOk(j.x, t, q) && q.greedy && Infinite(q.upper)
    && FormOf(t, q, CompileLength(t, cfg)).PushLoop?
    && BodyAt(j, cfg, t, ml, c) && Within(c.a, ids) && (c.info == IsEmpty ==> ids.nlo <= c.id < ids.nhi)
    && c.info == q.emptyInfo
    && c.b == h + LoopHeadLength(q) && c.p2 == c.x2 + SIZE_OP_JUMP
    && Fetch(j.prog, h) == Some(LoopHead(q, c.p2 - c.b))
    && Fetch(j.prog, c.x2) == Some(OpJump(h - c.p2))
  }

  lemma HeadStep(j: Job, cfg: Cfg, t: Node, q: Rep, ml: bool, c: Body, h: int, ids: Ids, s: nat, base: Stack)
    requires PushLoopAt(j, cfg, t, q, ml, c, h, ids) && s <= |j.x.text|
    ensures Step(j.prog, j.x, Run(h, s, base)) ==
            if !Entered(t, q, j.x, cfg, s) then Run(c.p2, s, base)
            else if Leavable(t, q, j.x, cfg, s) then Run(c.b, s, base + [StkAlt(c.p2, s)])
            else Run(c.b, s, base)
  {
    hide BodyAt, CompileLength, Formed, Ready, MinLen;
    StepAt(j, h, LoopHead(q, c.p2 - c.b), s, base);
  }

  /** From the head, after at least lower iterations. */
  lemma {:induction false} HeadAt(j: Job, cfg: Cfg, t: Node, q: Rep, ml: bool, c: Body, h: int, ids: Ids, k: nat,
                                  s: nat, base: Stack)
    requires PushLoopAt(j, cfg, t, q, ml, c, h, ids) && s <= |j.x.text| && q.lower <= k
    ensures Enum(j, Run(h, s, base), base, c.p2, EndsRep(t, q, ml, j.x, cfg, k, s), Fail(base), ids)
    decreases |j.x.text| - s, 0
  {
    hide BodyAt, CompileLength, Ends, EndsEach, Enum, Step, Fetch, Formed, Ready, MinLen, RepReady, Entered, Leavable;
    hide Gated, Exits;
    HeadStep(j, cfg, t, q, ml, c, h, ids, s, base);
    ReachesStep(j, Run(h, s, base));
    EnumHere(j, base, c.p2, s, ids);
    if !Entered(t, q, j.x, cfg, s) {
      EnumFrom(j, Run(h, s, base), Run(c.p2, s, base), base, c.p2, [s], Fail(base), ids);
    } else {
      LateGated(j.x, t, q, cfg, k, c);
      forall e: nat, stk: Stack | s + MinLen(t) <= e <= |j.x.text| && !Exits(c, s, e)
        ensures Enum(j, Run(c.x2, e, stk), stk, c.p2, EndsRep(t, q, ml, j.x, cfg, k + 1, e), Fail(stk), ids)
      {
        Moved(j.x, t, q, c, s, e);
        BackAt(j, cfg, t, q, ml, c, h, ids, k + 1, e, stk);
      }
      var more := EndsEach(t, q, ml, j.x, cfg, k + 1, Ends(t, ml, j.x, cfg, s), s);
      if Leavable(t, q, j.x, cfg, s) {
        LoopBodyAt(j, cfg, t, q, ml, k, c, s, base + [StkAlt(c.p2, s)], ids);
        Choice(j, h, c.b, c.p2, s, base, c.p2, more, [s], ids, ids);
      } else {
        LoopBodyAt(j, cfg, t, q, ml, k, c, s, base, ids);
        EnumFrom(j, Run(h, s, base), Run(c.b, s, base), base, c.p2, more, Fail(base), ids);
        assert more + [] == more;
      }
    }
  }

  lemma {:induction false} BackAt(j: Job, cfg: Cfg, t: Node, q: Rep, ml: bool, c: Body, h: int, ids: Ids, k: nat,
                                  s: nat, base: Stack)
    requires PushLoopAt(j, cfg, t, q, ml, c, h, ids) && s <= |j.x.text| && q.lower <= k
    ensures Enum(j, Run(c.x2, s, base), base, c.p2, EndsRep(t, q, ml, j.x, cfg, k, s), Fail(base), ids)
    decreases |j.x.text| - s, 1
  {
    hide BodyAt, CompileLength, EndsRep, Enum, Step, Fetch, Formed, Ready, MinLen, RepReady, LoopHead;
    StepJump(j, c.x2, h - c.p2, s, base);
    ReachesStep(j, Run(c.x2, s, base));
    HeadAt(j, cfg, t, q, ml, c, h, ids, k, s, base);
    EnumFrom(j, Run(c.x2, s, base), Run(h, s, base), base, c.p2, EndsRep(t, q, ml, j.x, cfg, k, s), Fail(base), ids);
  }

  lemma HeadImpl(j: Job, cfg: Cfg, t: Node, q: Rep, ml: bool, c: Body, h: int, ids: Ids)
    requires PushLoopAt(j, cfg, t, q, ml, c, h, ids)
    ensures Impl(j, cfg, h, c.p2, CRep(t, q, ml, q.lower), ids)
  {
    assert ContOk(CRep(t, q, ml, q.lower));
    hide PushLoopAt, EndsRep, Enum, ContOk;
    forall s: nat, base: Stack | s <= |j.x.text|
      ensures Enum(j, Run(h, s, base), base, c.p2, Of(CRep(t, q, ml, q.lower), j.x, cfg, s), Fail(base), ids)
    {
      HeadAt(j, cfg, t, q, ml, c, h, ids, q.lower, s, base);
    }
  }

  /** {1,} on a long body: enter the loop behind its head. */
  lemma JumpInImpl(j: Job, cfg: Cfg, t: Node, q: Rep, ml: bool, c: Body, p: int, back: int, ids: Ids)
    requires LoopOk(j.x, t, q) && q.lower == 1 && Infinite(q.upper)
    requires BodyAt(j, cfg, t, ml, c) && Within(c.a, ids) && (c.info == IsEmpty ==> ids.nlo <= c.id < ids.nhi)
    requires c.info == q.emptyInfo && Gated(t, q, cfg, 0, c)
    requires Fetch(j.prog, p) == Some(OpJump(back)) && c.b == p + SIZE_OP_JUMP + back
    requires Impl(j, cfg, c.x2, c.p2, CRep(t, q, ml, 1), ids)
    ensures Impl(j, cfg, p, c.p2, CRep(t, q, ml, 0), ids)
  {
    hide BodyAt, CompileLength, Ends, EndsEach, Enum, Step, Fetch, Formed, Ready, MinLen, RepReady, Gated, Exits;
    forall s: nat, base: Stack | s <= |j.x.text|
      ensures Enum(j, Run(p, s, base), base, c.p2, Of(CRep(t, q, ml, 0), j.x, cfg, s), Fail(base), ids)
    {
      StepJump(j, p, back, s, base);
      ReachesStep(j, Run(p, s, base));
      var more := EndsEach(t, q, ml, j.x, cfg, 1, Ends(t, ml, j.x, cfg, s), s);
      forall e: nat, stk: Stack | s + MinLen(t) <= e <= |j.x.text| && !Exits(c, s, e)
        ensures Enum(j, Run(c.x2, e, stk), stk, c.p2, EndsRep(t, q, ml, j.x, cfg, 1, e), Fail(stk), ids)
      {
        assert Of(CRep(t, q, ml, 1), j.x, cfg, e) == EndsRep(t, q, ml, j.x, cfg, 1, e);
      }
      LoopBodyAt(j, cfg, t, q, ml, 0, c, s, base, ids);
      EnumFrom(j, Run(p, s, base), Run(c.b, s, base), base, c.p2, more, Fail(base), ids);
    }
  }

  lemma BackImpl(j: Job, cfg: Cfg, t: Node, q: Rep, ml: bool, c: Body, h: int, ids: Ids)
    requires PushLoopAt(j, cfg, t, q, ml, c, h, ids)
    ensures Impl(j, cfg, c.x2, c.p2, CRep(t, q, ml, q.lower), ids)
  {
    assert ContOk(CRep(t, q, ml, q.lower));
    hide PushLoopAt, EndsRep, Enum, ContOk;
    forall s: nat, base: Stack | s <= |j.x.text|
      ensures Enum(j, Run(c.x2, s, base), base, c.p2, Of(CRep(t, q, ml, q.lower), j.x, cfg, s), Fail(base), ids)
    {
      BackAt(j, cfg, t, q, ml, c, h, ids, q.lower, s, base);
    }
  }

  // ----- lazy: JUMP to PUSH; body; PUSH body -----

  ghost predicate LazyLoopAt(j: Job, cfg: Cfg, t: Node, q: Rep, ml: bool, c: Body, ids: Ids) {
    && LoopOk(j.x, t, q) && !q.greedy && Infinite(q.upper)
    && FormOf(t, q, CompileLength(t, cfg)).LazyLoop?
    && BodyAt(j, cfg, t, ml, c) && Within(c.a, ids) && (c.info == IsEmpty ==> ids.nlo <= c.id < ids.nhi)
    && c.info == q.emptyInfo
    && c.p2 == c.x2 + SIZE_OP_PUSH
    && Fetch(j.prog, c.x2) == Some(OpPush(c.b - c.p2))
  }

  /** From the PUSH, after at least lower iterations. */
  lemma {:induction false} LazyPushAt(j: Job, cfg: Cfg, t: Node, q: Rep, ml: bool, c: Body, ids: Ids, k: nat, s: nat,
                                      base: Stack)
    requires LazyLoopAt(j, cfg, t, q, ml, c, ids) && s <= |j.x.text| && q.lower <= k
    ensures Enum(j, Run(c.x2, s, base), base, c.p2, EndsRep(t, q, ml, j.x, cfg, k, s), Fail(base), ids)
    decreases |j.x.text| - s
  {
    hide BodyAt, CompileLength, Ends, EndsEach, Enum, Step, Fetch, Formed, Ready, MinLen, RepReady, Gated, Exits;
    StepPush(j, c.x2, c.b - c.p2, s, base);
    LateGated(j.x, t, q, cfg, k, c);
    forall e: nat, stk: Stack | s + MinLen(t) <= e <= |j.x.text| && !Exits(c, s, e)
      ensures Enum(j, Run(c.x2, e, stk), stk, c.p2, EndsRep(t, q, ml, j.x, cfg, k + 1, e), Fail(stk), ids)
    {
      Moved(j.x, t, q, c, s, e);
      LazyPushAt(j, cfg, t, q, ml, c, ids, k + 1, e, stk);
    }
    LoopBodyAt(j, cfg, t, q, ml, k, c, s, base, ids);
    EnumHere(j, base + [StkAlt(c.b, s)], c.p2, s, ids);
    Choice(j, c.x2, c.p2, c.b, s, base, c.p2, [s],
           EndsEach(t, q, ml, j.x, cfg, k + 1, Ends(t, ml, j.x, cfg, s), s), ids, ids);
  }

  lemma LazyPushImpl(j: Job, cfg: Cfg, t: Node, q: Rep, ml: bool, c: Body, ids: Ids)
    requires LazyLoopAt(j, cfg, t, q, ml, c, ids)
    ensures Impl(j, cfg, c.x2, c.p2, CRep(t, q, ml, q.lower), ids)
  {
    assert ContOk(CRep(t, q, ml, q.lower));
    hide LazyLoopAt, EndsRep, Enum, ContOk;
    forall s: nat, base: Stack | s <= |j.x.text|
      ensures Enum(j, Run(c.x2, s, base), base, c.p2, Of(CRep(t, q, ml, q.lower), j.x, cfg, s), Fail(base), ids)
    {
      LazyPushAt(j, cfg, t, q, ml, c, ids, q.lower, s, base);
    }
  }

  /** A jump in front of code is that code. */
  lemma JumpImpl(j: Job, cfg: Cfg, p: int, addr: int, p2: int, c: Cont, ids: Ids)
    requires ContOk(c) && Fetch(j.prog, p) == Some(OpJump(addr)) && Impl(j, cfg, p + SIZE_OP_JUMP + addr, p2, c, ids)
    ensures Impl(j, cfg, p, p2, c, ids)
  {
    hide Of, Enum, Step, Fetch;
    forall s: nat, base: Stack | s <= |j.x.text|
      ensures Enum(j, Run(p, s, base), base, p2, Of(c, j.x, cfg, s), Fail(base), ids)
    {
      StepJump(j, p, addr, s, base);
      ReachesStep(j, Run(p, s, base));
      EnumFrom(j, Run(p, s, base), Run(p + SIZE_OP_JUMP + addr, s, base), base, p2, Of(c, j.x, cfg, s), Fail(base),
               ids);
    }
  }

  // ----- .* -----

  lemma {:induction false} StarAt(j: Job, cfg: Cfg, q: Rep, ml: bool, p2: int, ids: Ids, k: nat, s: nat, base: Stack)
    requires RepOk(q) && q.greedy && Infinite(q.upper) && s <= |j.x.text| && q.lower <= k
    ensures Enum(j, StarLoop(j.x, ml, if q.nextHead.Some? then Some(q.nextHead.value[0]) else None, p2, s, base),
                 base, p2, EndsRep(AnyChar, q, ml, j.x, cfg, k, s), Fail(base), ids)
    decreases |j.x.text| - s
  {
    hide Enum, EndsEach, Ends, EndsRep, StarLoop, FormOf;
    var peek := if q.nextHead.Some? then Some(q.nextHead.value[0]) else None;
    var st := StarLoop(j.x, ml, peek, p2, s, base);
    StarLoopStep(j.x, ml, peek, p2, s, base);
    if s == |j.x.text| {
      StarEnd(j.x, cfg, q, ml, k);
      EnumHere(j, base, p2, s, ids);
    } else {
      var keep := peek.None? || peek.value == j.x.text[s];
      var base' := if keep then base + [StkAlt(p2, s)] else base;
      var more := if ml || j.x.text[s] != NEWLINE then EndsRep(AnyChar, q, ml, j.x, cfg, k + 1, s + 1) else [];
      StarUnfold(j.x, cfg, q, ml, k, s, more, keep);
      if ml || j.x.text[s] != NEWLINE {
        StarAt(j, cfg, q, ml, p2, ids, k + 1, s + 1, base');
      } else {
        ReachesSelf(j, Fail(base'));
        EnumNone(j, st, base', p2, Fail(base'), ids);
      }
      StarBack(j, st, base, p2, s, keep, more, ids);
    }
  }

  lemma StarLoopStep(x: Subject, ml: bool, peek: Option<byte>, q: int, s: nat, stk: Stack)
    requires s <= |x.text|
    ensures StarLoop(x, ml, peek, q, s, stk) ==
            if s == |x.text| then Run(q, s, stk)
            else
              var stk' := if peek.None? || peek.value == x.text[s] then stk + [StkAlt(q, s)] else stk;
              if ml || x.text[s] != NEWLINE then StarLoop(x, ml, peek, q, s + 1, stk') else Fail(stk')
  {
  }

  lemma StarEnd(x: Subject, cfg: Cfg, q: Rep, ml: bool, k: nat)
    requires RepOk(q) && q.greedy && Infinite(q.upper) && q.lower <= k
    ensures EndsRep(AnyChar, q, ml, x, cfg, k, |x.text|) == [|x.text|]
  {
    var es := Ends(AnyChar, ml, x, cfg, |x.text|);
    assert es == [];
    assert FormOf(AnyChar, q, CompileLength(AnyChar, cfg)).AnycharStar?;
    EachSplit(AnyChar, q, ml, x, cfg, k + 1, es, |x.text|);
  }

  lemma StarUnfold(x: Subject, cfg: Cfg, q: Rep, ml: bool, k: nat, s: nat, more: seq<nat>, keep: bool)
    requires RepOk(q) && q.greedy && Infinite(q.upper) && s < |x.text| && q.lower <= k
    requires keep == (q.nextHead.None? || q.nextHead.value[0] == x.text[s])
    requires more == if ml || x.text[s] != NEWLINE then EndsRep(AnyChar, q, ml, x, cfg, k + 1, s + 1) else []
    ensures EndsRep(AnyChar, q, ml, x, cfg, k, s) == more + One(keep, s)
  {
    var es := Ends(AnyChar, ml, x, cfg, s);
    assert FormOf(AnyChar, q, CompileLength(AnyChar, cfg)).AnycharStar?;
    if ml || x.text[s] != NEWLINE {
      assert es == [s + 1];
      EachOne(AnyChar, q, ml, x, cfg, k + 1, s + 1, s);
      OnwardMoved(AnyChar, q, ml, x, cfg, k + 1, s + 1, s);
    } else {
      assert es == [];
    }
  }

  lemma StarBack(j: Job, st: State, base: Stack, p2: int, s: nat, keep: bool, more: seq<nat>, ids: Ids)
    requires var base' := if keep then base + [StkAlt(p2, s)] else base; Enum(j, st, base', p2, more, Fail(base'), ids)
    ensures Enum(j, st, base, p2, more + One(keep, s), Fail(base), ids)
  {
    if keep {
      var ext := [StkAlt(p2, s)];
      EnumLift(j, st, base, ext, p2, more, Fail(base + ext), ids, ids);
      PopAlt(j, base, p2, s);
      EnumHere(j, base, p2, s, ids);
      EnumFrom(j, Fail(base + ext), Run(p2, s, base), base, p2, [s], Fail(base), ids);
      EnumThen(j, st, base, p2, more, Fail(base + ext), [s], Fail(base), ids);
    } else {
      assert more + One(keep, s) == more;
    }
  }

  lemma StarImpl(j: Job, cfg: Cfg, q: Rep, ml: bool, p: int, p2: int, ids: Ids)
    requires RepOk(q) && q.greedy && Infinite(q.upper)
    requires Fetch(j.prog, p) == Some(if q.nextHead.Some? then OpAnyCharStarPeekNext(ml, q.nextHead.value[0])
             else OpAnyCharStar(ml))
    requires p2 == p + SIZE_OPCODE + (if q.nextHead.Some? then 1 else 0)
    ensures Impl(j, cfg, p, p2, CRep(AnyChar, q, ml, q.lower), ids)
  {
    hide EndsRep, Enum, StarLoop;
    var i := if q.nextHead.Some? then OpAnyCharStarPeekNext(ml, q.nextHead.value[0]) else OpAnyCharStar(ml);
    forall s: nat, base: Stack | s <= |j.x.text|
      ensures Enum(j, Run(p, s, base), base, p2, Of(CRep(AnyChar, q, ml, q.lower), j.x, cfg, s), Fail(base), ids)
    {
      StepAt(j, p, i, s, base);
      ReachesStep(j, Run(p, s, base));
      StarAt(j, cfg, q, ml, p2, ids, q.lower, s, base);
      EnumFrom(j, Run(p, s, base), Step(j.prog, j.x, Run(p, s, base)), base, p2,
               EndsRep(AnyChar, q, ml, j.x, cfg, q.lower, s), Fail(base), ids);
    }
  }
}
