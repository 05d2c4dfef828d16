/** OP_REPEAT loops: a counter on the stack, changed in place by OP_REPEAT_INC and put back by the
    increment entries when they are popped. */
module Counters {
  import opened Regint
  import opened Regparse
  import opened Regcomp
  import opened Machine
  import opened Meaning
  import opened Lengths
  import opened LengthSound
  import opened Enumeration
  import opened Fragments
  import opened Loops
  import opened LoopBody

  ghost predicate CounterAt(j: Job, cfg: Cfg, t: Node, q: Rep, ml: bool, c: Body, id: nat, ids: Ids) {
    && LoopOk(j.x, t, q) && FormOf(t, q, CompileLength(t, cfg)).Counter?
    && BodyAt(j, cfg, t, ml, c) && Within(c.a, ids) && (c.info == IsEmpty ==> ids.nlo <= c.id < ids.nhi)
    && c.info == q.emptyInfo
    && c.p2 == c.x2 + SIZE_OP_REPEAT_INC
    && ids.rlo <= id < ids.rhi && !(c.a.rlo <= id < c.a.rhi)
    && id < |j.prog.ranges| && j.prog.ranges[id] == Range(q.lower, UpperOf(q))
    && Fetch(j.prog, c.x2) == Some(RepeatIncInstr(q, id))
  }

  /** The stack of a running loop: its counter, and what its iterations have left above it. */
  function Stk(c: Body, id: nat, k: nat, base: Stack, F: Stack): Stack {
    base + [Repeat(k, c.b, id)] + F
  }

  ghost predicate LoopFrame(j: Job, c: Body, id: nat, k: nat, h: nat, F: Stack, ids: Ids) {
    && FrameIn(j, [Repeat(k, c.b, id)] + F, h, ids)
    && forall i :: 0 <= i < |F| ==> F[i].Repeat? ==> F[i].num != id
  }

  /** The counter still has room for the next iteration. */
  predicate Room(q: Rep, k: nat, s: nat) {
    !UpperReached(q, k) && (Infinite(q.upper) ==> k <= s)
  }

  /** The empty check is in force for every iteration of a counter. */
  lemma CounterGated(x: Subject, t: Node, q: Rep, cfg: Cfg, k: nat, c: Body)
    requires LoopOk(x, t, q) && FormOf(t, q, CompileLength(t, cfg)).Counter? && c.info == q.emptyInfo
    ensures Gated(t, q, cfg, k, c) && c.info != IsEmptyMem
  {
    hide Formed, Ready, MinLen, LaterChecked, CompileLength;
  }

  /** An iteration that does not leave the loop has moved, or there are only so many. */
  lemma CounterMoved(x: Subject, t: Node, q: Rep, c: Body, s: nat, e: nat)
    requires LoopOk(x, t, q) && c.info == q.emptyInfo && s + MinLen(t) <= e && !Exits(c, s, e)
    ensures e > s || (!Infinite(q.upper) && e == s)
  {
    hide Formed, Ready, MinLen;
  }

  lemma FrameRecount(j: Job, c: Body, id: nat, k: nat, k': nat, h: nat, F: Stack, ids: Ids)
    requires LoopFrame(j, c, id, k, h, F, ids)
    ensures LoopFrame(j, c, id, k', h, F, ids)
  {
    var a := [Repeat(k, c.b, id)] + F;
    var b := [Repeat(k', c.b, id)] + F;
    assert a[0] == Repeat(k, c.b, id) && b[0] == Repeat(k', c.b, id);
    forall i | 0 <= i < |b| ensures EntryOk(b, i, h, ids) {
      assert EntryOk(a, i, h, ids);
      if i > 0 { assert a[i] == b[i]; }
      if b[i].RepeatInc? { var n := b[i].si - h; if n > 0 { assert a[n] == b[n]; } }
    }
    LegalSame(j, a, b);
  }

  lemma FrameMore(j: Job, c: Body, id: nat, k: nat, h: nat, F: Stack, G: Stack, ids: Ids)
    requires LoopFrame(j, c, id, k, h, F, ids) && FrameIn(j, G, h + 1 + |F|, ids)
    requires forall i :: 0 <= i < |G| ==> G[i].Repeat? ==> G[i].num != id
    ensures LoopFrame(j, c, id, k, h, F + G, ids)
  {
    FrameInConcat(j, [Repeat(k, c.b, id)] + F, G, h, ids);
    assert [Repeat(k, c.b, id)] + F + G == [Repeat(k, c.b, id)] + (F + G);
  }

  lemma FrameInc(j: Job, c: Body, id: nat, k: nat, h: nat, F: Stack, ids: Ids)
    requires LoopFrame(j, c, id, k, h, F, ids)
    ensures LoopFrame(j, c, id, k, h, F + [RepeatInc(h)], ids)
  {
    var a := [Repeat(k, c.b, id)] + F;
    var b := [Repeat(k, c.b, id)] + (F + [RepeatInc(h)]);
    assert b == a + [RepeatInc(h)];
    forall i | 0 <= i < |b| ensures EntryOk(b, i, h, ids) {
      if i < |a| { assert EntryOk(a, i, h, ids); }
    }
    if j.prog.rec {
      LegalNone([RepeatInc(h)], j.spans);
      LegalConcat(a, [RepeatInc(h)], j.spans);
    }
  }

  /** Popping an increment entry puts the counter back. */
  lemma PopInc(j: Job, c: Body, id: nat, k: nat, base: Stack, F: Stack)
    ensures Reaches(j, Fail(Stk(c, id, k + 1, base, F + [RepeatInc(|base|)])), Fail(Stk(c, id, k, base, F)))
  {
    var stk := Stk(c, id, k + 1, base, F + [RepeatInc(|base|)]);
    assert stk[..|stk| - 1] == Stk(c, id, k + 1, base, F);
    assert stk[|stk| - 1] == RepeatInc(|base|);
    assert Stk(c, id, k + 1, base, F)[|base| := Repeat(k, c.b, id)] == Stk(c, id, k, base, F);
    ReachesStep(j, Fail(stk));
  }

  lemma IncExec(j: Job, q: Rep, id: nat, p: int, s: nat, stk: Stack)
    requires Fetch(j.prog, p) == Some(RepeatIncInstr(q, id))
    ensures Step(j.prog, j.x, Run(p, s, stk)) == ExecInc(j.prog, id, q.greedy, p + SIZE_OP_REPEAT_INC, s, stk)
  {
    StepAt(j, p, RepeatIncInstr(q, id), s, stk);
  }

  lemma IncStep(j: Job, cfg: Cfg, t: Node, q: Rep, ml: bool, c: Body, id: nat, ids: Ids, k: nat, e: nat, base: Stack,
                F: Stack)
    requires CounterAt(j, cfg, t, q, ml, c, id, ids) && Room(q, k, e) && e <= |j.x.text|
    requires LoopFrame(j, c, id, k, |base|, F, ids)
    ensures var inc := RepeatInc(|base|);
            Step(j.prog, j.x, Run(c.x2, e, Stk(c, id, k, base, F))) ==
            if UpperReached(q, k + 1) then Run(c.p2, e, Stk(c, id, k + 1, base, F + [inc]))
            else if k + 1 < q.lower then Run(c.b, e, Stk(c, id, k + 1, base, F + [inc]))
            else if q.greedy then Run(c.b, e, Stk(c, id, k + 1, base, F + [StkAlt(c.p2, e)] + [inc]))
            else Run(c.p2, e, Stk(c, id, k + 1, base, F + [inc]) + [StkAlt(c.b, e)])
  {
    hide BodyAt, CompileLength, Formed, Ready, MinLen, FrameOk, FormOf, Fetch, Exec, Step, RepeatIncInstr, FindRepeat;
    var stk := Stk(c, id, k, base, F);
    FindRepeatHere(base, Repeat(k, c.b, id), F);
    IncExec(j, q, id, c.x2, e, stk);
    var stk1 := Stk(c, id, k + 1, base, F);
    assert stk[|base| := Repeat(k + 1, c.b, id)] == stk1;
    var inc := RepeatInc(|base|);
    assert stk1 + [inc] == Stk(c, id, k + 1, base, F + [inc]);
    assert stk1 + [StkAlt(c.p2, e), inc] == Stk(c, id, k + 1, base, F + [StkAlt(c.p2, e)] + [inc]);
    assert stk1 + [inc, StkAlt(c.b, e)] == Stk(c, id, k + 1, base, F + [inc]) + [StkAlt(c.b, e)];
  }

  /** From the increment: one more iteration is over. */
  lemma {:induction false} NextAt(j: Job, cfg: Cfg, t: Node, q: Rep, ml: bool, c: Body, id: nat, ids: Ids, k: nat,
                                  e: nat, base: Stack, F: Stack)
    requires CounterAt(j, cfg, t, q, ml, c, id, ids) && Room(q, k, e) && e <= |j.x.text|
             && (Infinite(q.upper) ==> k < e)
    requires LoopFrame(j, c, id, k, |base|, F, ids)
    ensures Enum(j, Run(c.x2, e, Stk(c, id, k, base, F)), base, c.p2, EndsRep(t, q, ml, j.x, cfg, k + 1, e),
                 Fail(Stk(c, id, k, base, F)), ids)
    decreases Left(q, k + 1), |j.x.text| - e, 2
  {
    hide BodyAt, CompileLength, Ends, EndsEach, Enum, Step, Fetch, Formed, Ready, MinLen, RepReady, FrameOk, Stk;
    var st := Run(c.x2, e, Stk(c, id, k, base, F));
    var inc := RepeatInc(|base|);
    IncStep(j, cfg, t, q, ml, c, id, ids, k, e, base, F);
    ReachesStep(j, st);
    FrameRecount(j, c, id, k, k + 1, |base|, F, ids);
    FrameInc(j, c, id, k + 1, |base|, F, ids);
    PopInc(j, c, id, k, base, F);
    if UpperReached(q, k + 1) {
      StopAt(j, c, id, ids, k, e, base, F, st);
    } else {
      var more := EndsEach(t, q, ml, j.x, cfg, k + 2, Ends(t, ml, j.x, cfg, e), e);
      if k + 1 < q.lower {
        IterAt(j, cfg, t, q, ml, c, id, ids, k + 1, e, base, F + [inc]);
        AgainAt(j, c, id, ids, k, e, base, F, st, more);
      } else if q.greedy {
        GreedyFrame(j, c, id, k + 1, |base|, F, StkAlt(c.p2, e), ids);
        IterAt(j, cfg, t, q, ml, c, id, ids, k + 1, e, base, F + [StkAlt(c.p2, e)] + [inc]);
        GreedyAt(j, c, id, ids, k, e, base, F, st, more);
      } else {
        IterAt(j, cfg, t, q, ml, c, id, ids, k + 1, e, base, F + [inc]);
        LazyNextAt(j, c, id, ids, k, e, base, F, st, more);
      }
    }
  }

  lemma GreedyFrame(j: Job, c: Body, id: nat, k: nat, h: nat, F: Stack, alt: Entry, ids: Ids)
    requires LoopFrame(j, c, id, k, h, F, ids) && alt.StkAlt?
    ensures LoopFrame(j, c, id, k, h, F + [alt] + [RepeatInc(h)], ids)
  {
    FrameNone(j, [alt], h + 1 + |F|, ids);
    FrameMore(j, c, id, k, h, F, [alt], ids);
    FrameInc(j, c, id, k, h, F + [alt], ids);
  }

  /** The upper bound is reached: go on behind the loop. */
  lemma StopAt(j: Job, c: Body, id: nat, ids: Ids, k: nat, e: nat, base: Stack, F: Stack, st: State)
    requires LoopFrame(j, c, id, k + 1, |base|, F + [RepeatInc(|base|)], ids)
    requires Reaches(j, st, Run(c.p2, e, Stk(c, id, k + 1, base, F + [RepeatInc(|base|)])))
    ensures Enum(j, st, base, c.p2, [e], Fail(Stk(c, id, k, base, F)), ids)
  {
    hide Enum;
    var F1 := F + [RepeatInc(|base|)];
    var fr := [Repeat(k + 1, c.b, id)] + F1;
    assert base + fr == Stk(c, id, k + 1, base, F1);
    PopInc(j, c, id, k, base, F);
    EnumOne(j, st, base, fr, c.p2, e, Fail(Stk(c, id, k, base, F)), ids);
  }

  /** Below the lower bound: only another iteration. */
  lemma AgainAt(j: Job, c: Body, id: nat, ids: Ids, k: nat, e: nat, base: Stack, F: Stack, st: State, more: seq<nat>)
    requires var S := Stk(c, id, k + 1, base, F + [RepeatInc(|base|)]);
             Reaches(j, st, Run(c.b, e, S)) && Enum(j, Run(c.b, e, S), base, c.p2, more, Fail(S), ids)
    ensures Enum(j, st, base, c.p2, more, Fail(Stk(c, id, k, base, F)), ids)
  {
    hide Enum, Stk;
    var S := Stk(c, id, k + 1, base, F + [RepeatInc(|base|)]);
    PopInc(j, c, id, k, base, F);
    EnumEnd(j, Run(c.b, e, S), base, c.p2, more, Fail(S), Fail(Stk(c, id, k, base, F)), ids);
    EnumFrom(j, st, Run(c.b, e, S), base, c.p2, more, Fail(Stk(c, id, k, base, F)), ids);
  }

  /** Greedy: another iteration, later the exit that was pushed below the increment. */
  lemma GreedyAt(j: Job, c: Body, id: nat, ids: Ids, k: nat, e: nat, base: Stack, F: Stack, st: State, more: seq<nat>)
    requires LoopFrame(j, c, id, k + 1, |base|, F, ids)
    requires var S := Stk(c, id, k + 1, base, F + [StkAlt(c.p2, e)] + [RepeatInc(|base|)]);
             Reaches(j, st, Run(c.b, e, S)) && Enum(j, Run(c.b, e, S), base, c.p2, more, Fail(S), ids)
    ensures Enum(j, st, base, c.p2, more + [e], Fail(Stk(c, id, k, base, F)), ids)
  {
    hide Enum;
    var F1 := F + [StkAlt(c.p2, e)];
    var S := Stk(c, id, k + 1, base, F1 + [RepeatInc(|base|)]);
    var S0 := Stk(c, id, k, base, F);
    PopInc(j, c, id, k, base, F1);
    EnumEnd(j, Run(c.b, e, S), base, c.p2, more, Fail(S), Fail(Stk(c, id, k, base, F1)), ids);
    assert Stk(c, id, k, base, F1) == S0 + [StkAlt(c.p2, e)];
    PopAlt(j, S0, c.p2, e);
    FrameRecount(j, c, id, k + 1, k, |base|, F, ids);
    var fr := [Repeat(k, c.b, id)] + F;
    assert base + fr == S0;
    ReachesSelf(j, Fail(S0));
    EnumOne(j, Fail(Stk(c, id, k, base, F1)), base, fr, c.p2, e, Fail(S0), ids);
    EnumThen(j, Run(c.b, e, S), base, c.p2, more, Fail(Stk(c, id, k, base, F1)), [e], Fail(S0), ids);
    EnumFrom(j, st, Run(c.b, e, S), base, c.p2, more + [e], Fail(S0), ids);
  }

  /** Lazy: the exit first, another iteration when that fails. */
  lemma LazyNextAt(j: Job, c: Body, id: nat, ids: Ids, k: nat, e: nat, base: Stack, F: Stack, st: State, more: seq<nat>)
    requires LoopFrame(j, c, id, k + 1, |base|, F + [RepeatInc(|base|)], ids)
    requires var S := Stk(c, id, k + 1, base, F + [RepeatInc(|base|)]);
             Reaches(j, st, Run(c.p2, e, S + [StkAlt(c.b, e)]))
               && Enum(j, Run(c.b, e, S), base, c.p2, more, Fail(S), ids)
    ensures Enum(j, st, base, c.p2, [e] + more, Fail(Stk(c, id, k, base, F)), ids)
  {
    hide Enum;
    var F1 := F + [RepeatInc(|base|)];
    var S := Stk(c, id, k + 1, base, F1);
    var fin := Fail(Stk(c, id, k, base, F));
    PopInc(j, c, id, k, base, F);
    EnumEnd(j, Run(c.b, e, S), base, c.p2, more, Fail(S), fin, ids);
    PopAlt(j, S, c.b, e);
    var top := S + [StkAlt(c.b, e)];
    EnumFrom(j, Fail(top), Run(c.b, e, S), base, c.p2, more, fin, ids);
    FrameNone(j, [StkAlt(c.b, e)], |base| + 1 + |F1|, ids);
    FrameMore(j, c, id, k + 1, |base|, F1, [StkAlt(c.b, e)], ids);
    var fr := [Repeat(k + 1, c.b, id)] + (F1 + [StkAlt(c.b, e)]);
    assert base + fr == top;
    EnumCons(j, st, base, fr, c.p2, e, more, fin, ids);
  }

  ghost predicate CounterClosing(j: Job, cfg: Cfg, t: Node, q: Rep, ml: bool, c: Body, id: nat, ids: Ids, k: nat,
                                 s: nat, base: Stack)
    requires Formed(t) && RepOk(q)
  {
    forall e: nat, F: Stack ::
      s + MinLen(t) <= e <= |j.x.text| && !Exits(c, s, e) && LoopFrame(j, c, id, k, |base|, F, ids) ==>
      Enum(j, Run(c.x2, e, Stk(c, id, k, base, F)), base, c.p2, EndsRep(t, q, ml, j.x, cfg, k + 1, e),
           Fail(Stk(c, id, k, base, F)), ids)
  }

  /** An iteration from the start of the body, with k done before. */
  lemma {:induction false} IterAt(j: Job, cfg: Cfg, t: Node, q: Rep, ml: bool, c: Body, id: nat, ids: Ids, k: nat,
                                  s: nat, base: Stack, F: Stack)
    requires CounterAt(j, cfg, t, q, ml, c, id, ids) && Room(q, k, s) && s <= |j.x.text|
    requires LoopFrame(j, c, id, k, |base|, F, ids)
    ensures Enum(j, Run(c.b, s, Stk(c, id, k, base, F)), base, c.p2,
                 EndsEach(t, q, ml, j.x, cfg, k + 1, Ends(t, ml, j.x, cfg, s), s), Fail(Stk(c, id, k, base, F)), ids)
    decreases Left(q, k), |j.x.text| - s, 1
  {
    hide BodyAt, CompileLength, Ends, EndsEach, EndsRep, Enum, Step, Fetch, Formed, Ready, MinLen, RepReady, FrameOk;
    hide Stk, LoopFrame, LoopOk, Exits;
    CounterFormed(j, cfg, t, q, ml, c, id, ids);
    forall e: nat, F': Stack
      | s + MinLen(t) <= e <= |j.x.text| && !Exits(c, s, e) && LoopFrame(j, c, id, k, |base|, F', ids)
      ensures Enum(j, Run(c.x2, e, Stk(c, id, k, base, F')), base, c.p2, EndsRep(t, q, ml, j.x, cfg, k + 1, e),
                   Fail(Stk(c, id, k, base, F')), ids)
    {
      CounterMoved(j.x, t, q, c, s, e);
      NextAt(j, cfg, t, q, ml, c, id, ids, k, e, base, F');
    }
    IterBody(j, cfg, t, q, ml, c, id, ids, k, s, base, F);
  }

  lemma IterBody(j: Job, cfg: Cfg, t: Node, q: Rep, ml: bool, c: Body, id: nat, ids: Ids, k: nat, s: nat, base: Stack,
                 F: Stack)
    requires CounterAt(j, cfg, t, q, ml, c, id, ids) && !UpperReached(q, k) && s <= |j.x.text|
    requires LoopFrame(j, c, id, k, |base|, F, ids)
    requires CounterClosing(j, cfg, t, q, ml, c, id, ids, k, s, base)
    ensures Enum(j, Run(c.b, s, Stk(c, id, k, base, F)), base, c.p2,
                 EndsEach(t, q, ml, j.x, cfg, k + 1, Ends(t, ml, j.x, cfg, s), s), Fail(Stk(c, id, k, base, F)), ids)
  {
    hide CompileLength, Ends, EndsEach, EndsRep, Enum, Step, Fetch, Formed, Ready, MinLen, RepReady, FrameOk, Stk;
    hide LoopFrame, Impl, CounterClosing, CheckedAt;
    var es := Ends(t, ml, j.x, cfg, s);
    var S := Stk(c, id, k, base, F);
    var b1 := S + Started(c, s);
    MinLenSound(t, ml, j.x, cfg, s);
    BodyStart(j, cfg, t, ml, c, s, S);
    NodeAt(j, cfg, c.bt, c.x1, t, ml, c.a, s, b1);
    CounterEach(j, cfg, t, q, ml, c, id, ids, k, es, s, base, F, Run(c.bt, s, b1), Fail(b1));
    var r := EndsEach(t, q, ml, j.x, cfg, k + 1, es, s);
    BodyDrop(j, c, s, S);
    EnumEnd(j, Run(c.bt, s, b1), base, c.p2, r, Fail(b1), Fail(S), ids);
    EnumFrom(j, Run(c.b, s, S), Run(c.bt, s, b1), base, c.p2, r, Fail(S), ids);
  }

  lemma {:induction false} CounterEach(j: Job, cfg: Cfg, t: Node, q: Rep, ml: bool, c: Body, id: nat, ids: Ids, k: nat,
                                       es: seq<nat>, s: nat, base: Stack, F: Stack, st: State, fin: State)
    requires CounterAt(j, cfg, t, q, ml, c, id, ids) && !UpperReached(q, k) && s <= |j.x.text| && Bounded(es, j.x)
    requires LoopFrame(j, c, id, k, |base|, F, ids) && AtLeast(es, s + MinLen(t))
    requires CounterClosing(j, cfg, t, q, ml, c, id, ids, k, s, base)
    requires Enum(j, st, Stk(c, id, k, base, F) + Started(c, s), c.x1, es, fin, c.a)
    ensures Enum(j, st, base, c.p2, EndsEach(t, q, ml, j.x, cfg, k + 1, es, s), fin, ids)
    decreases |es|
  {
    hide BodyAt, CompileLength, Ends, EndsRep, Step, Fetch, Formed, Ready, MinLen, RepReady, FrameOk, Stk, LoopFrame;
    hide CounterClosing, FormOf, Enum, EndsEach, Within, LoopOk, CounterAt, RepOk, Started, Reaches, Onward;
    hide Bounded, AtLeast, UpperReached;
    CounterFormed(j, cfg, t, q, ml, c, id, ids);
    EachTail(j.x, es, s + MinLen(t));
    EachSplit(t, q, ml, j.x, cfg, k + 1, es, s);
    var b1 := Stk(c, id, k, base, F) + Started(c, s);
    if es == [] {
      EnumEmpty(j, st, b1, c.x1, fin, c.a, base, c.p2, ids);
    } else {
      var fr := EnumNext(j, st, b1, c.x1, es, fin, c.a);
      CounterEachOne(j, cfg, t, q, ml, c, id, ids, k, es[0], s, base, F, fr, st);
      CounterEach(j, cfg, t, q, ml, c, id, ids, k, es[1..], s, base, F, Fail(b1 + fr), fin);
      EnumThen(j, st, base, c.p2, Onward(t, q, ml, j.x, cfg, k + 1, es[0], s),
               Fail(b1 + fr), EndsEach(t, q, ml, j.x, cfg, k + 1, es[1..], s), fin, ids);
    }
  }

  lemma CounterFormed(j: Job, cfg: Cfg, t: Node, q: Rep, ml: bool, c: Body, id: nat, ids: Ids)
    requires CounterAt(j, cfg, t, q, ml, c, id, ids)
    ensures Formed(t) && RepOk(q) && LoopOk(j.x, t, q) && FormOf(t, q, CompileLength(t, cfg)).Counter?
    ensures BodyAt(j, cfg, t, ml, c) && c.info == q.emptyInfo
    ensures Within(c.a, ids) && (c.info == IsEmpty ==> ids.nlo <= c.id < ids.nhi) && !(c.a.rlo <= id < c.a.rhi)
  {
    hide Formed, Ready, MinLen, CompileLength, BodyAt, Within;
  }

  lemma FrameAll(j: Job, c: Body, id: nat, k: nat, h: nat, F: Stack, ids: Ids)
    requires LoopFrame(j, c, id, k, h, F, ids)
    ensures FrameIn(j, [Repeat(k, c.b, id)] + F, h, ids)
  {
  }

  lemma ClosingAt(j: Job, cfg: Cfg, t: Node, q: Rep, ml: bool, c: Body, id: nat, ids: Ids, k: nat, s: nat,
                  base: Stack, e: nat, F: Stack)
    requires Formed(t) && RepOk(q) && CounterClosing(j, cfg, t, q, ml, c, id, ids, k, s, base)
    requires s + MinLen(t) <= e <= |j.x.text| && !Exits(c, s, e) && LoopFrame(j, c, id, k, |base|, F, ids)
    ensures Enum(j, Run(c.x2, e, Stk(c, id, k, base, F)), base, c.p2, EndsRep(t, q, ml, j.x, cfg, k + 1, e),
                 Fail(Stk(c, id, k, base, F)), ids)
  {
    hide Formed, MinLen, Exits, LoopFrame, Enum, EndsRep, Stk, RepOk;
  }

  lemma EachTail(x: Subject, es: seq<nat>, b: nat)
    requires Bounded(es, x) && AtLeast(es, b)
    ensures es != [] ==> b <= es[0] <= |x.text| && Bounded(es[1..], x) && AtLeast(es[1..], b)
  {
  }

  lemma CounterEachOne(j: Job, cfg: Cfg, t: Node, q: Rep, ml: bool, c: Body, id: nat, ids: Ids, k: nat,
                       e: nat, s: nat, base: Stack, F: Stack, fr: Stack, st: State)
    requires CounterAt(j, cfg, t, q, ml, c, id, ids) && s + MinLen(t) <= e <= |j.x.text|
    requires LoopFrame(j, c, id, k, |base|, F, ids) && FrameIn(j, fr, |Stk(c, id, k, base, F) + Started(c, s)|, c.a)
    requires CounterClosing(j, cfg, t, q, ml, c, id, ids, k, s, base)
    requires Reaches(j, st, Run(c.x1, e, Stk(c, id, k, base, F) + Started(c, s) + fr))
    ensures Enum(j, st, base, c.p2, Onward(t, q, ml, j.x, cfg, k + 1, e, s),
                 Fail(Stk(c, id, k, base, F) + Started(c, s) + fr), ids)
  {
    hide BodyAt, CompileLength, Ends, EndsRep, Enum, Step, Fetch, Formed, Ready, MinLen, RepReady, FormOf;
    hide Onward, Gated, CounterAt, LoopOk, RepOk, Started, LoopFrame, FrameOk, Within, CounterClosing, Reaches;
    CounterFormed(j, cfg, t, q, ml, c, id, ids);
    CounterGated(j.x, t, q, cfg, k, c);
    GatedOnward(t, q, ml, j.x, cfg, k + 1, c, e, s);
    var S := Stk(c, id, k, base, F);
    var stk := S + Started(c, s) + fr;
    var F' := F + Started(c, s) + fr;
    assert stk == Stk(c, id, k, base, F');
    FrameGrow(j, c, id, k, |base|, F, Started(c, s), fr, ids, s);
    BodyExit(j, cfg, t, ml, c, s, e, S, fr, |S + Started(c, s)|);
    if Exits(c, s, e) {
      ReachesTrans(j, st, Run(c.x1, e, stk), Run(c.p2, e, stk));
      ReachesSelf(j, Fail(stk));
      var all := [Repeat(k, c.b, id)] + F';
      assert base + all == stk;
      FrameAll(j, c, id, k, |base|, F', ids);
      EnumOne(j, st, base, all, c.p2, e, Fail(stk), ids);
    } else {
      ReachesTrans(j, st, Run(c.x1, e, stk), Run(c.x2, e, stk));
      ClosingAt(j, cfg, t, q, ml, c, id, ids, k, s, base, e, F');
      EnumFrom(j, st, Run(c.x2, e, stk), base, c.p2, EndsRep(t, q, ml, j.x, cfg, k + 1, e), Fail(stk), ids);
    }
  }

  lemma FrameGrow(j: Job, c: Body, id: nat, k: nat, h: nat, F: Stack, check: Stack, fr: Stack, ids: Ids, s: nat)
    requires LoopFrame(j, c, id, k, h, F, ids) && check == Started(c, s) && FrameIn(j, fr, h + 1 + |F| + |check|, c.a)
    requires Within(c.a, ids) && (c.info == IsEmpty ==> ids.nlo <= c.id < ids.nhi) && !(c.a.rlo <= id < c.a.rhi)
    ensures LoopFrame(j, c, id, k, h, F + check + fr, ids)
  {
    CheckFrame(c, s, h + 1 + |F|, ids);
    FrameNone(j, check, h + 1 + |F|, ids);
    FrameMore(j, c, id, k, h, F, check, ids);
    FrameWiden(fr, h + 1 + |F| + |check|, c.a, ids);
    forall i | 0 <= i < |fr| ensures fr[i].Repeat? ==> fr[i].num != id {
      assert EntryOk(fr, i, h + 1 + |F| + |check|, c.a);
    }
    FrameMore(j, c, id, k, h, F + check, fr, ids);
  }
}
