/** The body of a loop between OP_NULL_CHECK_START and OP_NULL_CHECK_END: an empty iteration
    leaves the loop, any other goes on with the instruction that closes it. */
module LoopBody {
  import opened Regint
  import opened Regparse
  import opened Regcomp
  import opened Machine
  import opened Meaning
  import opened Lengths
  import opened LengthSound
  import opened Enumeration
  import opened Fragments
  import opened Loops

  /** Addresses: b begins the body, bt its tree, x1 ends the tree, x2 closes the loop, p2 is behind it. */
  datatype Body = Body(b: int, bt: int, x1: int, x2: int, p2: int, info: EmptyInfo, id: nat, a: Ids)

  ghost predicate BodyAt(j: Job, cfg: Cfg, t: Node, ml: bool, c: Body)
    requires Formed(t)
  {
    && Impl(j, cfg, c.bt, c.x1, CNode(t, ml), c.a)
    && (c.info == IsNotEmpty ==> c.bt == c.b && c.x2 == c.x1)
    && (c.info == IsEmpty ==> CheckedAt(j, c))
    && c.info != IsEmptyMem
  }

  predicate CheckedAt(j: Job, c: Body) {
    && Fetch(j.prog, c.b) == Some(OpNullCheckStart(c.id)) && c.bt == c.b + SIZE_OP_NULL_CHECK_START
    && Fetch(j.prog, c.x1) == Some(OpNullCheckEnd(c.id)) && c.x2 == c.x1 + SIZE_OP_NULL_CHECK_END
    && SkipLoopEnd(j.prog, c.x2) == Some(c.p2)
    && !(c.a.nlo <= c.id < c.a.nhi)
  }

  /** What the empty check leaves on the stack for one iteration. */
  function Started(c: Body, s: nat): Stack {
    if c.info == IsEmpty then [NullCheckStart(c.id, s)] else []
  }

  lemma BodyStart(j: Job, cfg: Cfg, t: Node, ml: bool, c: Body, s: nat, base: Stack)
    requires Formed(t) && BodyAt(j, cfg, t, ml, c)
    ensures Reaches(j, Run(c.b, s, base), Run(c.bt, s, base + Started(c, s)))
  {
    hide Impl, SkipLoopEnd, Reaches, Formed;
    if c.info == IsEmpty {
      StepAt(j, c.b, OpNullCheckStart(c.id), s, base);
      ReachesStep(j, Run(c.b, s, base));
    } else {
      assert base + [] == base;
      ReachesSelf(j, Run(c.b, s, base));
    }
  }

  lemma BodyDrop(j: Job, c: Body, s: nat, base: Stack)
    ensures Reaches(j, Fail(base + Started(c, s)), Fail(base))
  {
    if c.info == IsEmpty {
      var stk := base + Started(c, s);
      assert stk[..|stk| - 1] == base;
      ReachesStep(j, Fail(stk));
    } else {
      assert base + [] == base;
      ReachesSelf(j, Fail(base));
    }
  }

  lemma CheckFrame(c: Body, s: nat, h: nat, ids: Ids)
    requires c.info == IsEmpty ==> ids.nlo <= c.id < ids.nhi
    ensures FrameOk(Started(c, s), h, ids)
  {
  }

  /** The empty check leaves the loop. */
  predicate Exits(c: Body, s: nat, e: nat) { c.info == IsEmpty && e <= s }

  /** The code checks iteration k as the meaning says, or the body always moves. */
  predicate Gated(t: Node, q: Rep, cfg: Cfg, k: nat, c: Body)
    requires Formed(t)
  {
    (c.info == IsEmpty ==> Checked(t, q, cfg, k)) && (c.info == IsNotEmpty && Checked(t, q, cfg, k) ==> MinLen(t) > 0)
  }

  lemma GatedOnward(t: Node, q: Rep, ml: bool, x: Subject, cfg: Cfg, k: nat, c: Body, e: nat, s: nat)
    requires Formed(t) && RepOk(q) && s + MinLen(t) <= e <= |x.text| && k > 0
    requires Gated(t, q, cfg, k - 1, c) && c.info != IsEmptyMem
    ensures Onward(t, q, ml, x, cfg, k, e, s) == if Exits(c, s, e) then [e] else EndsRep(t, q, ml, x, cfg, k, e)
  {
    hide Checked, EndsRep, MinLen, Formed;
  }

  /** The end of an iteration that began at s. */
  lemma BodyExit(j: Job, cfg: Cfg, t: Node, ml: bool, c: Body, s: nat, e: nat, base: Stack, fr: Stack, h: nat)
    requires Formed(t) && BodyAt(j, cfg, t, ml, c) && FrameOk(fr, h, c.a)
    requires e >= s + MinLen(t)
    ensures var stk := base + Started(c, s) + fr;
            Reaches(j, Run(c.x1, e, stk), Run(if Exits(c, s, e) then c.p2 else c.x2, e, stk))
  {
    var stk := base + Started(c, s) + fr;
    if c.info == IsEmpty {
      forall i | 0 <= i < |fr| ensures fr[i].NullCheckStart? ==> fr[i].num != c.id { assert EntryOk(fr, i, h, c.a); }
      FindNullCheckHere(base, NullCheckStart(c.id, s), fr);
      StepAt(j, c.x1, OpNullCheckEnd(c.id), e, stk);
      ReachesStep(j, Run(c.x1, e, stk));
    } else {
      ReachesSelf(j, Run(c.x1, e, stk));
    }
  }

  /** The instruction at x2 continues the repeat after an iteration that did not leave it. */
  ghost predicate Closing(j: Job, cfg: Cfg, t: Node, q: Rep, ml: bool, k: nat, s: nat, c: Body, ids: Ids)
    requires Formed(t) && RepOk(q)
  {
    forall e: nat, stk: Stack :: s + MinLen(t) <= e <= |j.x.text| && !Exits(c, s, e) ==>
      Enum(j, Run(c.x2, e, stk), stk, c.p2, EndsRep(t, q, ml, j.x, cfg, k, e), Fail(stk), ids)
  }

  lemma {:induction false} EachClosed(j: Job, cfg: Cfg, t: Node, q: Rep, ml: bool, k: nat, c: Body, es: seq<nat>,
                                      s: nat,
                                      st: State, base: Stack, fin: State, ids: Ids)
    requires Formed(t) && RepOk(q) && s <= |j.x.text| && Bounded(es, j.x) && k > 0 && !UpperReached(q, k - 1)
    requires BodyAt(j, cfg, t, ml, c) && Within(c.a, ids) && AtLeast(es, s + MinLen(t))
    requires Enum(j, st, base + Started(c, s), c.x1, es, fin, c.a)
    requires Closing(j, cfg, t, q, ml, k, s, c, ids) && Gated(t, q, cfg, k - 1, c)
    ensures Enum(j, st, base + Started(c, s), c.p2, EndsEach(t, q, ml, j.x, cfg, k, es, s), fin, ids)
    decreases |es|
  {
    hide Ends, EndsRep, EndsEach, CompileLength, Ready, Formed, MinLen, Exec, Step, Fetch, Impl, Enum, BodyAt, Closing;
    hide Onward, Gated;
    EachSplit(t, q, ml, j.x, cfg, k, es, s);
    var b1 := base + Started(c, s);
    if es == [] {
      EnumEmpty(j, st, b1, c.x1, fin, c.a, b1, c.p2, ids);
    } else {
      var fr := EnumNext(j, st, b1, c.x1, es, fin, c.a);
      FrameWiden(fr, |b1|, c.a, ids);
      EachClosedOne(j, cfg, t, q, ml, k, c, es[0], s, st, base, fr, ids);
      EachClosed(j, cfg, t, q, ml, k, c, es[1..], s, Fail(b1 + fr), base, fin, ids);
      EnumThen(j, st, b1, c.p2, Onward(t, q, ml, j.x, cfg, k, es[0], s), Fail(b1 + fr),
               EndsEach(t, q, ml, j.x, cfg, k, es[1..], s), fin, ids);
    }
  }

  lemma EachClosedOne(j: Job, cfg: Cfg, t: Node, q: Rep, ml: bool, k: nat, c: Body, e: nat, s: nat,
                      st: State, base: Stack, fr: Stack, ids: Ids)
    requires Formed(t) && RepOk(q) && s + MinLen(t) <= e <= |j.x.text| && k > 0
    requires BodyAt(j, cfg, t, ml, c) && Within(c.a, ids) && Gated(t, q, cfg, k - 1, c)
    requires FrameOk(fr, |base + Started(c, s)|, c.a) && FrameIn(j, fr, |base + Started(c, s)|, ids)
    requires Reaches(j, st, Run(c.x1, e, base + Started(c, s) + fr))
    requires Closing(j, cfg, t, q, ml, k, s, c, ids)
    ensures Enum(j, st, base + Started(c, s), c.p2, Onward(t, q, ml, j.x, cfg, k, e, s),
                 Fail(base + Started(c, s) + fr), ids)
  {
    hide Ends, EndsRep, CompileLength, Ready, Formed, MinLen, Enum, Exec, Step, Fetch, Impl, Onward, Gated;
    GatedOnward(t, q, ml, j.x, cfg, k, c, e, s);
    var b1 := base + Started(c, s);
    var stk := b1 + fr;
    BodyExit(j, cfg, t, ml, c, s, e, base, fr, |b1|);
    if Exits(c, s, e) {
      ReachesTrans(j, st, Run(c.x1, e, stk), Run(c.p2, e, stk));
      ReachesSelf(j, Fail(stk));
      EnumOne(j, st, b1, fr, c.p2, e, Fail(stk), ids);
    } else {
      var r := EndsRep(t, q, ml, j.x, cfg, k, e);
      ReachesTrans(j, st, Run(c.x1, e, stk), Run(c.x2, e, stk));
      EnumLift(j, Run(c.x2, e, stk), b1, fr, c.p2, r, Fail(stk), ids, ids);
      EnumFrom(j, st, Run(c.x2, e, stk), b1, c.p2, r, Fail(stk), ids);
    }
  }

  /** One pass through the body and whatever follows. */
  lemma LoopBodyAt(j: Job, cfg: Cfg, t: Node, q: Rep, ml: bool, k: nat, c: Body, s: nat, base: Stack, ids: Ids)
    requires LoopOk(j.x, t, q) && s <= |j.x.text| && !UpperReached(q, k)
    requires BodyAt(j, cfg, t, ml, c) && Within(c.a, ids) && (c.info == IsEmpty ==> ids.nlo <= c.id < ids.nhi)
    requires Closing(j, cfg, t, q, ml, k + 1, s, c, ids) && Gated(t, q, cfg, k, c)
    ensures Enum(j, Run(c.b, s, base), base, c.p2, EndsEach(t, q, ml, j.x, cfg, k + 1, Ends(t, ml, j.x, cfg, s), s),
                 Fail(base), ids)
  {
    hide Ends, EndsRep, EndsEach, CompileLength, Ready, MinLen, Enum, Exec, Step, Fetch, Impl, Formed, FrameOk;
    hide CheckedAt, Gated, Closing;
    var es := Ends(t, ml, j.x, cfg, s);
    var r := EndsEach(t, q, ml, j.x, cfg, k + 1, es, s);
    var b1 := base + Started(c, s);
    MinLenSound(t, ml, j.x, cfg, s);
    BodyStart(j, cfg, t, ml, c, s, base);
    NodeAt(j, cfg, c.bt, c.x1, t, ml, c.a, s, b1);
    EachClosed(j, cfg, t, q, ml, k + 1, c, es, s, Run(c.bt, s, b1), base, Fail(b1), ids);
    CheckFrame(c, s, |base|, ids);
    EnumLift(j, Run(c.bt, s, b1), base, Started(c, s), c.p2, r, Fail(b1), ids, ids);
    BodyDrop(j, c, s, base);
    EnumEnd(j, Run(c.bt, s, b1), base, c.p2, r, Fail(b1), Fail(base), ids);
    EnumFrom(j, Run(c.b, s, base), Run(c.bt, s, b1), base, c.p2, r, Fail(base), ids);
  }

  /** compile_tree_empty_check lays the body out like this. */
  lemma BodyLayout(j: Job, cfg: Cfg, t: Node, ml: bool, info: EmptyInfo, r: Reg, p2: int) returns (c: Body)
    requires Formed(t) && Correct(j, cfg, t, ml) && info != IsEmptyMem
    requires Fits(j, CompileEmptyCheck(t, info, ml, cfg, r))
    requires SkipLoopEnd(j.prog, |CompileEmptyCheck(t, info, ml, cfg, r).code|) == Some(p2)
    ensures BodyAt(j, cfg, t, ml, c)
    ensures c.b == |r.code| && c.x2 == |CompileEmptyCheck(t, info, ml, cfg, r).code| && c.p2 == p2 && c.info == info
    ensures Within(c.a, IdsOf(r, CompileEmptyCheck(t, info, ml, cfg, r)))
    ensures info == IsEmpty ==> r.numNull <= c.id < CompileEmptyCheck(t, info, ml, cfg, r).numNull
  {
    hide Correct, Impl, MinLen, CompileLength, Formed;
    if info == IsNotEmpty {
      var r2 := CompileTree(t, ml, cfg, r);
      BodyImpl(j, cfg, t, ml, r);
      c := Body(|r.code|, |r.code|, |r2.code|, |r2.code|, p2, info, 0, IdsOf(r, r2));
    } else {
      var r0 := Add(r, OpNullCheckStart(r.numNull), SIZE_OP_NULL_CHECK_START);
      var r1 := r0.(numNull := r.numNull + 1);
      var r2 := CompileTree(t, ml, cfg, r1);
      var r3 := Add(r2, OpNullCheckEnd(r.numNull), SIZE_OP_NULL_CHECK_END);
      AddAt(j, r2, OpNullCheckEnd(r.numNull), SIZE_OP_NULL_CHECK_END);
      FitsDown(j, r1, r2);
      AddAt(j, r, OpNullCheckStart(r.numNull), SIZE_OP_NULL_CHECK_START);
      BodyImpl(j, cfg, t, ml, r1);
      c := Body(|r.code|, |r1.code|, |r2.code|, |r3.code|, p2, info, r.numNull, IdsOf(r1, r2));
    }
  }
}
