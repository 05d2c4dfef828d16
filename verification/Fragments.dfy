/** Code fragments that implement a tree, the rest of a list, or a repeat in progress. */
module Fragments {
  import opened Regint
  import opened Regparse
  import opened Regcomp
  import opened Machine
  import opened Meaning
  import opened Lengths
  import opened LengthSound
  import opened Enumeration

  datatype Cont =
    | CNode(n: Node, ml: bool)
    | CList(ns: Nodes, ml: bool)
    | CRep(t: Node, q: Rep, ml: bool, k: nat)

  predicate ContOk(c: Cont) {
    match c
    case CNode(n, _) => Formed(n)
    case CList(ns, _) => AllFormed(ns)
    case CRep(t, q, _, _) => Formed(t) && RepOk(q)
  }

  function Of(c: Cont, x: Subject, cfg: Cfg, s: nat): (r: seq<nat>)
    requires ContOk(c) && s <= |x.text|
    ensures Bounded(r, x)
  {
    match c
    case CNode(n, ml) => Ends(n, ml, x, cfg, s)
    case CList(ns, ml) => EndsList(ns, ml, x, cfg, s)
    case CRep(t, q, ml, k) => EndsRep(t, q, ml, x, cfg, k, s)
  }

  /** Results of c from every position of a list, in order. */
  function OfAll(c: Cont, x: Subject, cfg: Cfg, from: seq<nat>): (r: seq<nat>)
    requires ContOk(c) && Bounded(from, x)
    ensures Bounded(r, x)
  {
    if from == [] then [] else Of(c, x, cfg, from[0]) + OfAll(c, x, cfg, from[1..])
  }

  lemma {:induction false} OfAllList(ns: Nodes, ml: bool, x: Subject, cfg: Cfg, from: seq<nat>)
    requires AllFormed(ns) && Bounded(from, x)
    ensures OfAll(CList(ns, ml), x, cfg, from) == EndsListAll(ns, ml, x, cfg, from)
  {
    if from != [] { OfAllList(ns, ml, x, cfg, from[1..]); }
  }

  /** Where every iteration advances, or is not checked, continuing a repeat is running it again
      from every end. */
  lemma {:induction false} EachIsAll(t: Node, q: Rep, ml: bool, x: Subject, cfg: Cfg, k: nat, es: seq<nat>, s: nat)
    requires Formed(t) && RepOk(q) && s <= |x.text| && Bounded(es, x) && k > 0 && !UpperReached(q, k - 1)
    requires AtLeast(es, s + 1) || !Checked(t, q, cfg, k - 1)
    ensures EndsEach(t, q, ml, x, cfg, k, es, s) == OfAll(CRep(t, q, ml, k), x, cfg, es)
    decreases |es|
  {
    hide Ends, EndsRep, EndsEach, Checked, Formed;
    EachSplit(t, q, ml, x, cfg, k, es, s);
    if es != [] {
      OnwardMoved(t, q, ml, x, cfg, k, es[0], s);
      EachIsAll(t, q, ml, x, cfg, k, es[1..], s);
    }
  }
  /** The code from p to q behaves as c says, from every text position and on every stack. */
  ghost predicate Impl(j: Job, cfg: Cfg, p: int, q: int, c: Cont, ids: Ids)
    requires ContOk(c)
  {
    forall s: nat, base: Stack :: s <= |j.x.text| ==>
      Enum(j, Run(p, s, base), base, q, Of(c, j.x, cfg, s), Fail(base), ids)
  }

  lemma NodeAt(j: Job, cfg: Cfg, p: int, q: int, n: Node, ml: bool, ids: Ids, s: nat, base: Stack)
    requires Formed(n) && Impl(j, cfg, p, q, CNode(n, ml), ids) && s <= |j.x.text|
    ensures Enum(j, Run(p, s, base), base, q, Ends(n, ml, j.x, cfg, s), Fail(base), ids)
  {
    assert Of(CNode(n, ml), j.x, cfg, s) == Ends(n, ml, j.x, cfg, s);
  }

  lemma {:induction false} EnumBind(j: Job, cfg: Cfg, st: State, base: Stack, q: int, ends: seq<nat>, fin: State,
                                    q': int, c: Cont, a: Ids, ids: Ids)
    requires ContOk(c) && Bounded(ends, j.x) && Within(a, ids)
    requires Enum(j, st, base, q, ends, fin, ids)
    requires Impl(j, cfg, q, q', c, a)
    ensures Enum(j, st, base, q', OfAll(c, j.x, cfg, ends), fin, ids)
    decreases |ends|
  {
    if ends != [] {
      var fr := EnumNext(j, st, base, q, ends, fin, ids);
      var stk := base + fr;
      EnumLift(j, Run(q, ends[0], stk), base, fr, q', Of(c, j.x, cfg, ends[0]), Fail(stk), a, ids);
      EnumBind(j, cfg, Fail(stk), base, q, ends[1..], fin, q', c, a, ids);
      EnumThen(j, Run(q, ends[0], stk), base, q', Of(c, j.x, cfg, ends[0]), Fail(stk),
               OfAll(c, j.x, cfg, ends[1..]), fin, ids);
      EnumFrom(j, st, Run(q, ends[0], stk), base, q', OfAll(c, j.x, cfg, ends), fin, ids);
    }
  }

  /** One instruction that decides on its own. */
  lemma Leaf(j: Job, p: int, q: int, s: nat, e: nat, ok: bool, base: Stack, ids: Ids)
    requires Step(j.prog, j.x, Run(p, s, base)) == if ok then Run(q, e, base) else Fail(base)
    ensures Enum(j, Run(p, s, base), base, q, One(ok, e), Fail(base), ids)
  {
    ReachesStep(j, Run(p, s, base));
    if ok {
      EnumHere(j, base, q, e, ids);
      EnumFrom(j, Run(p, s, base), Run(q, e, base), base, q, [e], Fail(base), ids);
    } else {
      EnumNone(j, Run(p, s, base), base, q, Fail(base), ids);
    }
  }

  lemma PopAlt(j: Job, base: Stack, p: int, s: nat)
    ensures Reaches(j, Fail(base + [StkAlt(p, s)]), Run(p, s, base))
  {
    var stk := base + [StkAlt(p, s)];
    assert stk[..|stk| - 1] == base;
    ReachesStep(j, Fail(stk));
  }

  /** A choice point: first one way, later the other. */
  lemma Choice(j: Job, p: int, p1: int, p2: int, s: nat, base: Stack, q: int, first: seq<nat>, second: seq<nat>,
               a: Ids, ids: Ids)
    requires Within(a, ids)
    requires Step(j.prog, j.x, Run(p, s, base)) == Run(p1, s, base + [StkAlt(p2, s)])
    requires Enum(j, Run(p1, s, base + [StkAlt(p2, s)]), base + [StkAlt(p2, s)], q, first,
                  Fail(base + [StkAlt(p2, s)]), a)
    requires Enum(j, Run(p2, s, base), base, q, second, Fail(base), ids)
    ensures Enum(j, Run(p, s, base), base, q, first + second, Fail(base), ids)
  {
    var ext := [StkAlt(p2, s)];
    var top := Fail(base + ext);
    EnumLift(j, Run(p1, s, base + ext), base, ext, q, first, top, a, ids);
    PopAlt(j, base, p2, s);
    EnumFrom(j, top, Run(p2, s, base), base, q, second, Fail(base), ids);
    EnumThen(j, Run(p1, s, base + ext), base, q, first, top, second, Fail(base), ids);
    ReachesStep(j, Run(p, s, base));
    EnumFrom(j, Run(p, s, base), Run(p1, s, base + ext), base, q, first + second, Fail(base), ids);
  }

  // ----- where compiled code lies in the program -----

  ghost predicate Fits(j: Job, r: Reg) { r.code <= j.prog.code && r.ranges <= j.prog.ranges }

  lemma FitsDown(j: Job, r: Reg, r': Reg)
    requires Ext(r, r') && Fits(j, r')
    ensures Fits(j, r)
  {
  }

  lemma AddAt(j: Job, r: Reg, i: Instr, size: nat)
    requires size >= 1 && Fits(j, Add(r, i, size))
    ensures Fetch(j.prog, |r.code|) == Some(i)
    ensures Fits(j, r)
  {
  }

  /** Step at an address whose instruction is known. */
  lemma StepAt(j: Job, p: int, i: Instr, s: nat, stk: Stack)
    requires Fetch(j.prog, p) == Some(i)
    ensures Step(j.prog, j.x, Run(p, s, stk)) == Exec(j.prog, j.x, i, p + Size(i), s, stk)
  {
  }

  lemma StepPush(j: Job, p: int, addr: int, s: nat, stk: Stack)
    requires Fetch(j.prog, p) == Some(OpPush(addr))
    ensures Step(j.prog, j.x, Run(p, s, stk)) == Run(p + SIZE_OP_PUSH, s, stk + [StkAlt(p + SIZE_OP_PUSH + addr, s)])
  {
    StepAt(j, p, OpPush(addr), s, stk);
  }

  lemma StepJump(j: Job, p: int, addr: int, s: nat, stk: Stack)
    requires Fetch(j.prog, p) == Some(OpJump(addr))
    ensures Step(j.prog, j.x, Run(p, s, stk)) == Run(p + SIZE_OP_JUMP + addr, s, stk)
  {
    StepAt(j, p, OpJump(addr), s, stk);
  }

  function IdsOf(r: Reg, r': Reg): Ids { Ids(|r.ranges|, |r'.ranges|, r.numNull, r'.numNull) }

  lemma IdsWithin(a: Reg, b: Reg, c: Reg, d: Reg, ids: Ids)
    requires Ext(a, b) && Ext(b, c) && Ext(c, d) && Within(IdsOf(a, d), ids)
    ensures Within(IdsOf(b, c), ids)
  {
  }

  /** The code that compilation appended to r, giving r', behaves as c says. */
  ghost predicate Implements(j: Job, cfg: Cfg, c: Cont, r: Reg, r': Reg)
    requires ContOk(c)
  {
    Impl(j, cfg, |r.code|, |r'.code|, c, IdsOf(r, r'))
  }

  /** Wherever it is put, the compiled tree implements the tree. */
  ghost predicate Correct(j: Job, cfg: Cfg, n: Node, ml: bool)
    requires Formed(n)
  {
    forall r: Reg :: Fits(j, CompileTree(n, ml, cfg, r)) ==>
      Implements(j, cfg, CNode(n, ml), r, CompileTree(n, ml, cfg, r))
  }
}
