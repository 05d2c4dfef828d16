/** The code shapes of a repeat that copy the body, or loop with PUSH and JUMP, implement it.
    Each shape comes in two lemmas: what instructions at given addresses do, and that the
    compiler puts those instructions there. */
module Loops {
  import opened Regint
  import opened Regparse
  import opened Regcomp
  import opened Machine
  import opened Meaning
  import opened Lengths
  import opened LengthSound
  import opened Enumeration
  import opened Fragments

  /** What every shape may assume about its body, its bounds and the text. */
  predicate LoopOk(x: Subject, t: Node, q: Rep) {
    && Formed(t) && RepOk(q) && Ready(t) && RepReady(t, q)
    && |x.text| < INT_MAX - MAX_REPEAT_NUM
  }

  /** The mandatory copies are written out and not checked. */
  predicate Inline(t: Node, q: Rep, cfg: Cfg)
    requires Formed(t)
  {
    var tlen := CompileLength(t, cfg);
    !q.raw && !ChecksOwed(q, FormOf(t, q, tlen), tlen)
  }

  lemma InlineFree(t: Node, q: Rep, cfg: Cfg, k: nat)
    requires Formed(t) && Inline(t, q, cfg) && (Infinite(q.upper) ==> k < q.lower)
    ensures !Checked(t, q, cfg, k)
  {
  }

  /** A copy of the body, then the rest of the repeat. */
  lemma BodyThen(j: Job, cfg: Cfg, t: Node, q: Rep, ml: bool, k: nat, p: int, p1: int, p2: int, a: Ids, ids: Ids,
                 s: nat, base: Stack)
    requires LoopOk(j.x, t, q) && s <= |j.x.text| && !UpperReached(q, k)
    requires !Checked(t, q, cfg, k)
    requires Within(a, ids) && Impl(j, cfg, p, p1, CNode(t, ml), a) && Impl(j, cfg, p1, p2, CRep(t, q, ml, k + 1), ids)
    ensures Enum(j, Run(p, s, base), base, p2, EndsEach(t, q, ml, j.x, cfg, k + 1, Ends(t, ml, j.x, cfg, s), s),
                 Fail(base), ids)
  {
    var es := Ends(t, ml, j.x, cfg, s);
    NodeAt(j, cfg, p, p1, t, ml, a, s, base);
    EnumWiden(j, Run(p, s, base), base, p1, es, Fail(base), a, ids);
    EnumBind(j, cfg, Run(p, s, base), base, p1, es, Fail(base), p2, CRep(t, q, ml, k + 1), ids, ids);
    EachIsAll(t, q, ml, j.x, cfg, k + 1, es, s);
  }

  lemma BodyImpl(j: Job, cfg: Cfg, t: Node, ml: bool, r: Reg)
    requires Formed(t) && Correct(j, cfg, t, ml) && Fits(j, CompileTree(t, ml, cfg, r))
    ensures Implements(j, cfg, CNode(t, ml), r, CompileTree(t, ml, cfg, r))
  {
  }

  /** One mandatory copy. */
  lemma CopyImpl(j: Job, cfg: Cfg, t: Node, q: Rep, ml: bool, k: nat, p: int, p1: int, p2: int, a: Ids, ids: Ids)
    requires LoopOk(j.x, t, q) && k < q.lower
    requires !Checked(t, q, cfg, k)
    requires Within(a, ids) && Impl(j, cfg, p, p1, CNode(t, ml), a) && Impl(j, cfg, p1, p2, CRep(t, q, ml, k + 1), ids)
    ensures Impl(j, cfg, p, p2, CRep(t, q, ml, k), ids)
  {
    forall s: nat, base: Stack | s <= |j.x.text|
      ensures Enum(j, Run(p, s, base), base, p2, Of(CRep(t, q, ml, k), j.x, cfg, s), Fail(base), ids)
    {
      BodyThen(j, cfg, t, q, ml, k, p, p1, p2, a, ids, s, base);
    }
  }

  /** m mandatory copies in front of code for the rest of the repeat. */
  lemma {:induction false} TimesImpl(j: Job, cfg: Cfg, t: Node, q: Rep, ml: bool, k: nat, m: nat, r: Reg, p2: int,
                                     ids: Ids)
    requires LoopOk(j.x, t, q) && Correct(j, cfg, t, ml) && k + m == q.lower
    requires Inline(t, q, cfg)
    requires Fits(j, CompileTimes(t, m, ml, cfg, r))
    requires Within(IdsOf(r, CompileTimes(t, m, ml, cfg, r)), ids)
    requires Impl(j, cfg, |CompileTimes(t, m, ml, cfg, r).code|, p2, CRep(t, q, ml, q.lower), ids)
    ensures Impl(j, cfg, |r.code|, p2, CRep(t, q, ml, k), ids)
    decreases m
  {
    hide Impl, Correct, Ready, MinLen, Inline, Checked, FormOf, CompileLength;
    if m > 0 {
      InlineFree(t, q, cfg, k);
      var r1 := CompileTree(t, ml, cfg, r);
      var r2 := CompileTimes(t, m - 1, ml, cfg, r1);
      FitsDown(j, r1, r2);
      BodyImpl(j, cfg, t, ml, r);
      TimesImpl(j, cfg, t, q, ml, k + 1, m - 1, r1, p2, ids);
      CopyImpl(j, cfg, t, q, ml, k, |r.code|, |r1.code|, p2, IdsOf(r, r1), ids);
    }
  }

  /** A repeat whose upper bound is reached needs no code. */
  lemma DoneImpl(j: Job, cfg: Cfg, t: Node, q: Rep, ml: bool, k: nat, p: int, ids: Ids)
    requires Formed(t) && RepOk(q) && UpperReached(q, k)
    ensures Impl(j, cfg, p, p, CRep(t, q, ml, k), ids)
  {
    forall s: nat, base: Stack | s <= |j.x.text|
      ensures Enum(j, Run(p, s, base), base, p, Of(CRep(t, q, ml, k), j.x, cfg, s), Fail(base), ids)
    {
      EnumHere(j, base, p, s, ids);
    }
  }

  /** One optional copy behind its PUSH. */
  lemma OptionImpl(j: Job, cfg: Cfg, t: Node, q: Rep, ml: bool, k: nat, p: int, p1: int, p2: int, a: Ids, ids: Ids)
    requires LoopOk(j.x, t, q) && q.greedy && q.lower <= k && !UpperReached(q, k)
    requires FormOf(t, q, CompileLength(t, cfg)).Copies?
    requires !Checked(t, q, cfg, k)
    requires Fetch(j.prog, p) == Some(OpPush(p2 - (p + SIZE_OP_PUSH)))
    requires Within(a, ids) && Impl(j, cfg, p + SIZE_OP_PUSH, p1, CNode(t, ml), a)
    requires Impl(j, cfg, p1, p2, CRep(t, q, ml, k + 1), ids)
    ensures Impl(j, cfg, p, p2, CRep(t, q, ml, k), ids)
  {
    hide Ends, EndsEach, CompileLength, Ready, Formed, MinLen, Enum, Exec, Step, Fetch;
    forall s: nat, base: Stack | s <= |j.x.text|
      ensures Enum(j, Run(p, s, base), base, p2, Of(CRep(t, q, ml, k), j.x, cfg, s), Fail(base), ids)
    {
      StepPush(j, p, p2 - (p + SIZE_OP_PUSH), s, base);
      BodyThen(j, cfg, t, q, ml, k, p + SIZE_OP_PUSH, p1, p2, a, ids, s, base + [StkAlt(p2, s)]);
      EnumHere(j, base, p2, s, ids);
      Choice(j, p, p + SIZE_OP_PUSH, p2, s, base, p2,
             EndsEach(t, q, ml, j.x, cfg, k + 1, Ends(t, ml, j.x, cfg, s), s), [s], ids, ids);
    }
  }

  lemma PushTarget(tlen: nat, m: nat)
    requires m > 0
    ensures m * tlen + (m - 1) * SIZE_OP_PUSH == tlen + (SIZE_OP_PUSH + tlen) * (m - 1)
  {
  }

  lemma CopiesInline(x: Subject, t: Node, q: Rep, cfg: Cfg)
    requires LoopOk(x, t, q) && FormOf(t, q, CompileLength(t, cfg)).Copies?
    ensures Inline(t, q, cfg)
  {
    hide Formed, Ready, MinLen, CompileLength;
  }

  /** The optional copies of {n,m}. */
  lemma {:induction false} OptionalImpl(j: Job, cfg: Cfg, t: Node, q: Rep, ml: bool, m: nat, r: Reg, ids: Ids)
    requires LoopOk(j.x, t, q) && Correct(j, cfg, t, ml) && !Infinite(q.upper) && q.greedy && m <= q.upper - q.lower
    requires FormOf(t, q, CompileLength(t, cfg)).Copies?
    requires Fits(j, CompileOptional(t, m, ml, cfg, r))
    requires Within(IdsOf(r, CompileOptional(t, m, ml, cfg, r)), ids)
    ensures Impl(j, cfg, |r.code|, |CompileOptional(t, m, ml, cfg, r).code|, CRep(t, q, ml, q.upper - m), ids)
    decreases m
  {
    hide Ext, IdsOf, Within, Fits, Impl, Correct, Ready, RepReady, MinLen, CompileLength, FormOf, Formed, Checked;
    hide CompileTree, Add, Size, Fetch, Inline, ChecksOwed;
    CopiesInline(j.x, t, q, cfg);
    if m == 0 {
      DoneImpl(j, cfg, t, q, ml, q.upper, |r.code|, ids);
    } else {
      var tlen := CompileLength(t, cfg);
      var i := OpPush(m * tlen + (m - 1) * SIZE_OP_PUSH);
      var r1 := Add(r, i, SIZE_OP_PUSH);
      var r2 := CompileTree(t, ml, cfg, r1);
      var r3 := CompileOptional(t, m - 1, ml, cfg, r2);
      PushTarget(tlen, m);
      InlineFree(t, q, cfg, q.upper - m);
      FitsDown(j, r2, r3); FitsDown(j, r1, r2);
      AddAt(j, r, i, SIZE_OP_PUSH);
      BodyImpl(j, cfg, t, ml, r1);
      ExtSelf(r3);
      IdsWithin(r, r1, r2, r3, ids);
      ExtTrans(r, r1, r2);
      IdsWithin(r, r2, r3, r3, ids);
      OptionalImpl(j, cfg, t, q, ml, m - 1, r2, ids);
      OptionImpl(j, cfg, t, q, ml, q.upper - m, |r.code|, |r2.code|, |r3.code|, IdsOf(r1, r2), ids);
    }
  }

  lemma CopiesOk(x: Subject, t: Node, q: Rep, cfg: Cfg)
    requires LoopOk(x, t, q) && FormOf(t, q, CompileLength(t, cfg)).Copies?
    ensures Formed(t) && RepOk(q) && !Infinite(q.upper) && q.greedy && q.lower <= q.upper
  {
    hide Formed, Ready, MinLen, CompileLength;
  }

  lemma IdsSelf(r: Reg, r': Reg)
    ensures Within(IdsOf(r, r'), IdsOf(r, r'))
  {
  }

  lemma CopiesImpl(j: Job, cfg: Cfg, t: Node, q: Rep, ml: bool, r: Reg)
    requires LoopOk(j.x, t, q) && Correct(j, cfg, t, ml) && FormOf(t, q, CompileLength(t, cfg)).Copies?
    requires Fits(j, CompileOptional(t, q.upper - q.lower, ml, cfg, CompileTimes(t, q.lower, ml, cfg, r)))
    ensures var r2 := CompileOptional(t, q.upper - q.lower, ml, cfg, CompileTimes(t, q.lower, ml, cfg, r));
            Implements(j, cfg, CRep(t, q, ml, 0), r, r2)
  {
    hide Impl, Correct, Ready, RepReady, Formed, CompileLength, MinLen, LoopOk, FormOf, RepOk, Ext, IdsOf, Within, Fits;
    hide CompileTimes, CompileOptional, Inline, Checked;
    CopiesInline(j.x, t, q, cfg);
    CopiesOk(j.x, t, q, cfg);
    var r1 := CompileTimes(t, q.lower, ml, cfg, r);
    var r2 := CompileOptional(t, q.upper - q.lower, ml, cfg, r1);
    FitsDown(j, r1, r2);
    ExtSelf(r); ExtSelf(r2); ExtTrans(r, r1, r2);
    IdsSelf(r, r2);
    IdsWithin(r, r1, r2, r2, IdsOf(r, r2));
    IdsWithin(r, r, r1, r2, IdsOf(r, r2));
    OptionalImpl(j, cfg, t, q, ml, q.upper - q.lower, r1, IdsOf(r, r2));
    TimesImpl(j, cfg, t, q, ml, 0, q.lower, r, |r2.code|, IdsOf(r, r2));
  }

  /** PUSH body; JUMP end; body: stop first, try the body later. */
  lemma LazyAt(j: Job, cfg: Cfg, t: Node, q: Rep, ml: bool, p: int, p2: int, ids: Ids)
    requires LoopOk(j.x, t, q) && !q.greedy && q.lower == 0 && q.upper == 1 && !Checked(t, q, cfg, 0)
    requires Fetch(j.prog, p) == Some(OpPush(SIZE_OP_JUMP))
    requires Fetch(j.prog, p + SIZE_OP_PUSH) == Some(OpJump(p2 - (p + SIZE_OP_PUSH + SIZE_OP_JUMP)))
    requires Impl(j, cfg, p + SIZE_OP_PUSH + SIZE_OP_JUMP, p2, CNode(t, ml), ids)
    ensures Impl(j, cfg, p, p2, CRep(t, q, ml, 0), ids)
  {
    hide Ends, EndsEach, CompileLength, Ready, Formed, MinLen, Enum, Exec, Step, Fetch, Checked;
    var p1 := p + SIZE_OP_PUSH;
    var b := p1 + SIZE_OP_JUMP;
    DoneImpl(j, cfg, t, q, ml, 1, p2, ids);
    forall s: nat, base: Stack | s <= |j.x.text|
      ensures Enum(j, Run(p, s, base), base, p2, Of(CRep(t, q, ml, 0), j.x, cfg, s), Fail(base), ids)
    {
      StepPush(j, p, SIZE_OP_JUMP, s, base);
      var up := base + [StkAlt(b, s)];
      StepJump(j, p1, p2 - b, s, up);
      Leaf(j, p1, p2, s, s, true, up, ids);
      BodyThen(j, cfg, t, q, ml, 0, b, p2, p2, ids, ids, s, base);
      Choice(j, p, p1, b, s, base, p2, [s],
             EndsEach(t, q, ml, j.x, cfg, 1, Ends(t, ml, j.x, cfg, s), s), ids, ids);
    }
  }

  lemma LazyOptionImpl(j: Job, cfg: Cfg, t: Node, q: Rep, ml: bool, r: Reg)
    requires LoopOk(j.x, t, q) && Correct(j, cfg, t, ml) && FormOf(t, q, CompileLength(t, cfg)).LazyOption?
    requires Fits(j, CompileLazyOption(t, ml, cfg, r))
    ensures Implements(j, cfg, CRep(t, q, ml, 0), r, CompileLazyOption(t, ml, cfg, r))
  {
    hide Impl, Correct, Ready, MinLen, CompileLength;
    var tlen := CompileLength(t, cfg);
    var r1 := Add(r, OpPush(SIZE_OP_JUMP), SIZE_OP_PUSH);
    var r2 := Add(r1, OpJump(tlen), SIZE_OP_JUMP);
    var r3 := CompileTree(t, ml, cfg, r2);
    FitsDown(j, r2, r3); FitsDown(j, r1, r2);
    AddAt(j, r, OpPush(SIZE_OP_JUMP), SIZE_OP_PUSH);
    AddAt(j, r1, OpJump(tlen), SIZE_OP_JUMP);
    BodyImpl(j, cfg, t, ml, r2);
    LazyAt(j, cfg, t, q, ml, |r.code|, |r3.code|, IdsOf(r, r3));
  }

  lemma SkippedImpl(j: Job, cfg: Cfg, t: Node, q: Rep, ml: bool, r: Reg)
    requires LoopOk(j.x, t, q) && FormOf(t, q, CompileLength(t, cfg)).Skipped?
    requires Fits(j, CompileSkipped(t, ml, cfg, r))
    ensures Implements(j, cfg, CRep(t, q, ml, 0), r, CompileSkipped(t, ml, cfg, r))
  {
    var tlen := CompileLength(t, cfg);
    var r1 := Add(r, OpJump(tlen), SIZE_OP_JUMP);
    var r2 := CompileTree(t, ml, cfg, r1);
    FitsDown(j, r1, r2);
    AddAt(j, r, OpJump(tlen), SIZE_OP_JUMP);
    forall s: nat, base: Stack | s <= |j.x.text|
      ensures Enum(j, Run(|r.code|, s, base), base, |r2.code|, Of(CRep(t, q, ml, 0), j.x, cfg, s), Fail(base),
                   IdsOf(r, r2))
    {
      StepJump(j, |r.code|, tlen, s, base);
      Leaf(j, |r.code|, |r2.code|, s, s, true, base, IdsOf(r, r2));
    }
  }
}
