/** Compiled trees match what the trees mean: the induction over the tree. */
module TreeCorrect {
  import opened Regint
  import opened Regparse
  import opened Regcomp
  import opened Machine
  import opened Meaning
  import opened Lengths
  import opened LengthSound
  import opened Enumeration
  import opened Fragments
  import opened Loops
  import opened Quantifiers
  import opened Spans
  import opened CompilerCorrect

  /** Two trees with the same results are implemented by the same code. */
  lemma SameResults(j: Job, cfg: Cfg, c: Cont, c': Cont, r: Reg, r': Reg)
    requires ContOk(c) && ContOk(c') && Implements(j, cfg, c, r, r')
    requires forall s: nat :: s <= |j.x.text| ==> Of(c, j.x, cfg, s) == Of(c', j.x, cfg, s)
    ensures Implements(j, cfg, c', r, r')
  {
    hide Of, Enum, ContOk;
  }

  lemma GroupImpl(j: Job, cfg: Cfg, k: nat, b: Node, ml: bool, r: Reg)
    requires Formed(Group(k, b)) && Correct(Inner(j, k), cfg, b, ml) && Fits(j, CompileGroup(k, b, ml, cfg, r))
    requires forall s: nat :: s <= |j.x.text| ==> SpanFrom(j, cfg, k, b, ml, s)
    ensures Implements(j, cfg, CNode(Group(k, b), ml), r, CompileGroup(k, b, ml, cfg, r))
  {
    assert Formed(b);
    hide Formed, CompileTree, CompileLength, Fits, Fetch, Add, Correct, Implements, Ext, SpanFrom;
    var open := if k in cfg.btMemStart then OpMemoryStartPush(k) else OpMemoryStart(k);
    var close := if k in cfg.btMemEnd then OpMemoryEndPush(k) else OpMemoryEnd(k);
    var r1 := Add(r, open, SIZE_OP_MEMORY_START);
    var r2 := CompileTree(b, ml, cfg, r1);
    var r3 := Add(r2, close, SIZE_OP_MEMORY_END);
    AddAt(j, r2, close, SIZE_OP_MEMORY_END);
    FitsDown(j, r1, r2);
    AddAt(j, r, open, SIZE_OP_MEMORY_START);
    SameFits(j, k, r2);
    BodyImpl(Inner(j, k), cfg, b, ml, r1);
    GroupStep(j, cfg, k, b, ml, r, r1, r2, r3);
  }

  lemma SameFits(j: Job, k: nat, r: Reg)
    ensures Fits(Inner(j, k), r) <==> Fits(j, r)
  {
  }

  lemma MarkIds(r: Reg, r1: Reg, r2: Reg, r3: Reg)
    requires Ext(r, r1) && Ext(r1, r2) && Ext(r2, r3)
    ensures Within(IdsOf(r1, r2), IdsOf(r, r3))
  {
  }

  /** A body between two instructions. */
  lemma Bracketed(j: Job, cfg: Cfg, b: Node, ml: bool, r: Reg, open: Instr, n0: nat, close: Instr, n1: nat)
      returns (r1: Reg, r2: Reg, r3: Reg)
    requires Formed(b) && Correct(j, cfg, b, ml) && n0 >= 1 && n1 >= 1
    requires Fits(j, Add(CompileTree(b, ml, cfg, Add(r, open, n0)), close, n1))
    ensures r1 == Add(r, open, n0) && r2 == CompileTree(b, ml, cfg, r1) && r3 == Add(r2, close, n1)
    ensures |r1.code| == |r.code| + n0 && |r2.code| == |r1.code| + CompileLength(b, cfg) && |r3.code| == |r2.code| + n1
    ensures Fetch(j.prog, |r.code|) == Some(open) && Fetch(j.prog, |r2.code|) == Some(close)
    ensures Impl(j, cfg, |r1.code|, |r2.code|, CNode(b, ml), IdsOf(r1, r2)) && Within(IdsOf(r1, r2), IdsOf(r, r3))
  {
    hide Formed, CompileTree, CompileLength, Fits, Fetch, Add, Correct, Enum, Ext, Impl, Within, IdsOf;
    r1 := Add(r, open, n0);
    r2 := CompileTree(b, ml, cfg, r1);
    r3 := Add(r2, close, n1);
    AddAt(j, r2, close, n1);
    FitsDown(j, r1, r2);
    AddAt(j, r, open, n0);
    BodyImpl(j, cfg, b, ml, r1);
    MarkIds(r, r1, r2, r3);
  }

  lemma AtomicEnds(b: Node, ml: bool, x: Subject, cfg: Cfg, s: nat)
    requires Formed(b) && s <= |x.text|
    ensures Of(CNode(Atomic(false, b), ml), x, cfg, s) ==
            if Ends(b, ml, x, cfg, s) == [] then [] else [Ends(b, ml, x, cfg, s)[0]]
  {
  }

  lemma PrecReadEnds(len: nat, b: Node, ml: bool, x: Subject, cfg: Cfg, s: nat)
    requires Formed(b) && s <= |x.text|
    ensures Of(CNode(Look(PrecRead, len, b), ml), x, cfg, s) == One(Ends(b, ml, x, cfg, s) != [], s)
  {
  }

  lemma PrecReadNotEnds(len: nat, b: Node, ml: bool, x: Subject, cfg: Cfg, s: nat)
    requires Formed(b) && s <= |x.text|
    ensures Of(CNode(Look(PrecReadNot, len, b), ml), x, cfg, s) == One(Ends(b, ml, x, cfg, s) == [], s)
  {
  }

  lemma BodyFormed(b: Node, k: LookKind, len: nat)
    ensures Formed(Atomic(false, b)) || Formed(Look(k, len, b)) ==> Formed(b)
  {
  }

  lemma AtomicImpl(j: Job, cfg: Cfg, b: Node, ml: bool, r: Reg)
    requires Formed(Atomic(false, b)) && Correct(j, cfg, b, ml)
    requires Fits(j, CompileAtomic(b, ml, cfg, r))
    ensures Implements(j, cfg, CNode(Atomic(false, b), ml), r, CompileAtomic(b, ml, cfg, r))
  {
    hide Formed, CompileTree, CompileLength, Fits, Fetch, Add, Correct, Enum, Ext, Of, Ends, Within, IdsOf;
    BodyFormed(b, PrecRead, 0);
    var r1, r2, r3 := Bracketed(j, cfg, b, ml, r, OpPushStopBt, SIZE_OP_PUSH_STOP_BT, OpPopStopBt, SIZE_OP_POP_STOP_BT);
    forall s: nat, base: Stack | s <= |j.x.text|
      ensures Enum(j, Run(|r.code|, s, base), base, |r3.code|, Of(CNode(Atomic(false, b), ml), j.x, cfg, s),
                   Fail(base), IdsOf(r, r3))
    {
      AtomicEnds(b, ml, j.x, cfg, s);
      MarkedAt(j, cfg, b, ml, |r.code|, |r2.code|, |r3.code|, StopBt, IdsOf(r1, r2), IdsOf(r, r3), s, base);
    }
  }

  lemma PrecReadImpl(j: Job, cfg: Cfg, len: nat, b: Node, ml: bool, r: Reg)
    requires Formed(Look(PrecRead, len, b)) && Correct(j, cfg, b, ml)
    requires Fits(j, CompileLook(PrecRead, len, b, ml, cfg, r))
    ensures Implements(j, cfg, CNode(Look(PrecRead, len, b), ml), r, CompileLook(PrecRead, len, b, ml, cfg, r))
  {
    hide Formed, CompileTree, CompileLength, Fits, Fetch, Add, Correct, Enum, Ext, Of, Ends, Within, IdsOf;
    BodyFormed(b, PrecRead, len);
    var r1, r2, r3 := Bracketed(j, cfg, b, ml, r, OpPushPos, SIZE_OP_PUSH_POS, OpPopPos, SIZE_OP_POP_POS);
    forall s: nat, base: Stack | s <= |j.x.text|
      ensures Enum(j, Run(|r.code|, s, base), base, |r3.code|, Of(CNode(Look(PrecRead, len, b), ml), j.x, cfg, s),
                   Fail(base), IdsOf(r, r3))
    {
      PrecReadEnds(len, b, ml, j.x, cfg, s);
      MarkedAt(j, cfg, b, ml, |r.code|, |r2.code|, |r3.code|, Pos(s), IdsOf(r1, r2), IdsOf(r, r3), s, base);
    }
  }

  lemma PrecReadNotImpl(j: Job, cfg: Cfg, len: nat, b: Node, ml: bool, r: Reg)
    requires Formed(Look(PrecReadNot, len, b)) && Correct(j, cfg, b, ml)
    requires Fits(j, CompileLook(PrecReadNot, len, b, ml, cfg, r))
    ensures Implements(j, cfg, CNode(Look(PrecReadNot, len, b), ml), r, CompileLook(PrecReadNot, len, b, ml, cfg, r))
  {
    hide Formed, CompileTree, CompileLength, Fits, Fetch, Add, Correct, Enum, Ext, Of, Ends, Within, IdsOf;
    BodyFormed(b, PrecReadNot, len);
    var r1, r2, r3 := Bracketed(j, cfg, b, ml, r, OpPushPosNot(CompileLength(b, cfg) + SIZE_OP_FAIL_POS),
                                SIZE_OP_PUSH_POS_NOT, OpFailPos, SIZE_OP_FAIL_POS);
    forall s: nat, base: Stack | s <= |j.x.text|
      ensures Enum(j, Run(|r.code|, s, base), base, |r3.code|, Of(CNode(Look(PrecReadNot, len, b), ml), j.x, cfg, s),
                   Fail(base), IdsOf(r, r3))
    {
      PrecReadNotEnds(len, b, ml, j.x, cfg, s);
      PrecReadNotAt(j, cfg, b, ml, |r.code|, |r2.code|, |r3.code|, IdsOf(r1, r2), IdsOf(r, r3), s, base);
    }
  }

  lemma LookBehindEnds(len: nat, b: Node, ml: bool, x: Subject, cfg: Cfg, s: nat)
    requires Formed(b) && s <= |x.text|
    ensures Of(CNode(Look(LookBehind, len, b), ml), x, cfg, s) == if s < len then [] else Ends(b, ml, x, cfg, s - len)
    ensures Of(CNode(Look(LookBehindNot, len, b), ml), x, cfg, s) ==
            if s < len then [s] else One(Ends(b, ml, x, cfg, s - len) == [], s)
  {
  }

  lemma LookBehindImpl(j: Job, cfg: Cfg, len: nat, b: Node, ml: bool, r: Reg)
    requires Formed(Look(LookBehind, len, b)) && Correct(j, cfg, b, ml)
             && Fits(j, CompileLook(LookBehind, len, b, ml, cfg, r))
    ensures Implements(j, cfg, CNode(Look(LookBehind, len, b), ml), r, CompileLook(LookBehind, len, b, ml, cfg, r))
  {
    hide Formed, CompileTree, CompileLength, Fits, Fetch, Add, Correct, Enum, Ext, Of, Ends;
    BodyFormed(b, LookBehind, len);
    var open := OpLookBehind(len);
    var r1 := Add(r, open, SIZE_OP_LOOK_BEHIND);
    var r2 := CompileTree(b, ml, cfg, r1);
    FitsDown(j, r1, r2);
    AddAt(j, r, open, SIZE_OP_LOOK_BEHIND);
    BodyImpl(j, cfg, b, ml, r1);
    ExtSelf(r2);
    MarkIds(r, r1, r2, r2);
    forall s: nat, base: Stack | s <= |j.x.text|
      ensures Enum(j, Run(|r.code|, s, base), base, |r2.code|, Of(CNode(Look(LookBehind, len, b), ml), j.x, cfg, s),
                   Fail(base), IdsOf(r, r2))
    {
      LookBehindEnds(len, b, ml, j.x, cfg, s);
      LookBehindAt(j, cfg, len, b, ml, |r.code|, |r2.code|, IdsOf(r1, r2), IdsOf(r, r2), s, base);
    }
  }

  lemma LookBehindNotImpl(j: Job, cfg: Cfg, len: nat, b: Node, ml: bool, r: Reg)
    requires Formed(Look(LookBehindNot, len, b)) && Correct(j, cfg, b, ml)
    requires Fits(j, CompileLook(LookBehindNot, len, b, ml, cfg, r))
    ensures Implements(j, cfg, CNode(Look(LookBehindNot, len, b), ml), r,
                       CompileLook(LookBehindNot, len, b, ml, cfg, r))
  {
    hide Formed, CompileTree, CompileLength, Fits, Fetch, Add, Correct, Enum, Ext, Of, Ends, Within, IdsOf;
    BodyFormed(b, LookBehindNot, len);
    var r1, r2, r3 := Bracketed(j, cfg, b, ml, r,
      OpPushLookBehindNot(CompileLength(b, cfg) + SIZE_OP_FAIL_LOOK_BEHIND_NOT, len), SIZE_OP_PUSH_LOOK_BEHIND_NOT,
        OpFailLookBehindNot, SIZE_OP_FAIL_LOOK_BEHIND_NOT);
    forall s: nat, base: Stack | s <= |j.x.text|
      ensures Enum(j, Run(|r.code|, s, base), base, |r3.code|, Of(CNode(Look(LookBehindNot, len, b), ml), j.x, cfg, s),
                   Fail(base), IdsOf(r, r3))
    {
      LookBehindEnds(len, b, ml, j.x, cfg, s);
      LookBehindNotAt(j, cfg, len, b, ml, |r.code|, |r2.code|, |r3.code|, IdsOf(r1, r2), IdsOf(r, r3), s, base);
    }
  }

  lemma LookImpl(j: Job, cfg: Cfg, k: LookKind, len: nat, b: Node, ml: bool, r: Reg)
    requires Formed(Look(k, len, b)) && Correct(j, cfg, b, ml) && Fits(j, CompileLook(k, len, b, ml, cfg, r))
    ensures Implements(j, cfg, CNode(Look(k, len, b), ml), r, CompileLook(k, len, b, ml, cfg, r))
  {
    hide *;
    match k
    case PrecRead => PrecReadImpl(j, cfg, len, b, ml, r);
    case PrecReadNot => PrecReadNotImpl(j, cfg, len, b, ml, r);
    case LookBehind => LookBehindImpl(j, cfg, len, b, ml, r);
    case LookBehindNot => LookBehindNotImpl(j, cfg, len, b, ml, r);
  }

  lemma BranchLayout(j: Job, cfg: Cfg, n: Node, ml: bool, goal: int, r: Reg) returns (r1: Reg, r2: Reg)
    requires Formed(n) && Fits(j, CompileBranch(n, ml, cfg, goal, r))
    ensures var r3 := CompileBranch(n, ml, cfg, goal, r);
            && Ext(r, r1) && Ext(r1, r2) && Ext(r2, r3)
            && r2 == CompileTree(n, ml, cfg, r1) && Fits(j, r2)
            && |r1.code| == |r.code| + SIZE_OP_PUSH && |r3.code| == |r2.code| + SIZE_OP_JUMP
            && Fetch(j.prog, |r.code|) == Some(OpPush(|r3.code| - |r1.code|))
            && Fetch(j.prog, |r2.code|) == Some(OpJump(goal - |r3.code|))
  {
    hide Formed, CompileTree, CompileLength, Fits, Fetch, Add, Ext;
    var push := OpPush(CompileLength(n, cfg) + SIZE_OP_JUMP);
    r1 := Add(r, push, SIZE_OP_PUSH);
    r2 := CompileTree(n, ml, cfg, r1);
    var jump := OpJump(goal - (|r2.code| + SIZE_OP_JUMP));
    AddAt(j, r2, jump, SIZE_OP_JUMP);
    FitsDown(j, r1, r2);
    AddAt(j, r, push, SIZE_OP_PUSH);
  }

  /** The last alternative ends where the alternation does. */
  lemma LastBranch(j: Job, cfg: Cfg, n: Node, ml: bool, goal: int, r: Reg, r': Reg)
    requires Formed(n) && Implements(j, cfg, CNode(n, ml), r, r') && goal == |r'.code|
    ensures AltImplements(j, cfg, Last(n), ml, goal, r, r')
  {
    hide Enum, Formed, Ends;
    forall s: nat, base: Stack | s <= |j.x.text|
      ensures Enum(j, Run(|r.code|, s, base), base, goal, EndsAlt(Last(n), ml, j.x, cfg, s), Fail(base), IdsOf(r, r'))
    {
      NodeAt(j, cfg, |r.code|, |r'.code|, n, ml, IdsOf(r, r'), s, base);
    }
  }

  lemma LastItem(j: Job, cfg: Cfg, n: Node, ml: bool, r: Reg, r': Reg)
    requires Formed(n) && Implements(j, cfg, CNode(n, ml), r, r')
    ensures Implements(j, cfg, CList(Last(n), ml), r, r')
  {
    hide Ends, Formed, Enum, Implements;
    SameResults(j, cfg, CNode(n, ml), CList(Last(n), ml), r, r');
  }

  lemma AltNode(j: Job, cfg: Cfg, ns: Nodes, ml: bool, r: Reg, r': Reg)
    requires AllFormed(ns) && AltImplements(j, cfg, ns, ml, |r'.code|, r, r')
    ensures Implements(j, cfg, CNode(Alt(ns), ml), r, r')
  {
    hide Enum, AllFormed, EndsAlt;
  }

  lemma {:induction false} ListImpl(j: Job, cfg: Cfg, ns: Nodes, ml: bool, r: Reg)
    requires AllFormed(ns) && AllReady(ns) && TextOk(j.x) && Fits(j, CompileList(ns, ml, cfg, r))
    requires AllScoped(j, cfg, ns, ml)
    ensures Implements(j, cfg, CList(ns, ml), r, CompileList(ns, ml, cfg, r))
    decreases ns, 0
  {
    hide Formed, Ready, Fits, Implements, CompileTree, Ext, CompileLength, ListLength, Scoped, AllScoped;
    ScopedList(j, cfg, ns, ml);
    match ns
    case Last(n) =>
      TreeImpl(j, cfg, n, ml, r);
      LastItem(j, cfg, n, ml, r, CompileTree(n, ml, cfg, r));
    case Cons(n, rest) =>
      var r1 := CompileTree(n, ml, cfg, r);
      var r2 := CompileList(rest, ml, cfg, r1);
      FitsDown(j, r1, r2);
      TreeImpl(j, cfg, n, ml, r);
      ListImpl(j, cfg, rest, ml, r1);
      ListStep(j, cfg, n, rest, ml, r, r1, r2);
  }

  /** The code of the alternatives from one on. */
  lemma AltParts(j: Job, cfg: Cfg, ns: Nodes, ml: bool, goal: int, r: Reg)
    requires AllFormed(ns) && AllReady(ns) && AllScoped(j, cfg, ns, ml)
    ensures Formed(ns.left) && Ready(ns.left) && Scoped(j, cfg, ns.left, ml)
    ensures ns.Last? ==> CompileAlt(ns, ml, cfg, goal, r) == CompileTree(ns.left, ml, cfg, r)
                         && |CompileTree(ns.left, ml, cfg, r).code| == |r.code| + AltLength(ns, cfg)
    ensures ns.Cons? ==>
              && AllFormed(ns.right) && AllReady(ns.right) && AllScoped(j, cfg, ns.right, ml)
              && var r3 := CompileBranch(ns.left, ml, cfg, goal, r);
                 && CompileAlt(ns, ml, cfg, goal, r) == CompileAlt(ns.right, ml, cfg, goal, r3)
                 && |r.code| + AltLength(ns, cfg) == |r3.code| + AltLength(ns.right, cfg)
  {
    hide Scoped, AllScoped, CompileTree, CompileBranch, CompileLength, Ext;
    ScopedList(j, cfg, ns, ml);
  }

  lemma {:induction false} AltImpl(j: Job, cfg: Cfg, ns: Nodes, ml: bool, goal: int, r: Reg)
    requires AllFormed(ns) && AllReady(ns) && TextOk(j.x) && Fits(j, CompileAlt(ns, ml, cfg, goal, r))
    requires goal == |r.code| + AltLength(ns, cfg) && AllScoped(j, cfg, ns, ml)
    ensures AltImplements(j, cfg, ns, ml, goal, r, CompileAlt(ns, ml, cfg, goal, r))
    decreases ns, 0
  {
    hide *;
    AltParts(j, cfg, ns, ml, goal, r);
    match ns
    case Last(n) =>
      TreeImpl(j, cfg, n, ml, r);
      LastBranch(j, cfg, n, ml, goal, r, CompileTree(n, ml, cfg, r));
    case Cons(n, rest) =>
      var r3 := CompileBranch(n, ml, cfg, goal, r);
      var r4 := CompileAlt(rest, ml, cfg, goal, r3);
      FitsDown(j, r3, r4);
      var r1, r2 := BranchLayout(j, cfg, n, ml, goal, r);
      TreeImpl(j, cfg, n, ml, r1);
      AltImpl(j, cfg, rest, ml, goal, r3);
      BranchStep(j, cfg, n, rest, ml, goal, r, r1, r2, r3, r4);
  }

  lemma {:induction false} TreeCorrect(j: Job, cfg: Cfg, n: Node, ml: bool)
    requires Formed(n) && Ready(n) && TextOk(j.x) && Scoped(j, cfg, n, ml)
    ensures Correct(j, cfg, n, ml)
    decreases n, 2
  {
    hide Formed, Ready, Fits, Implements, CompileTree, Scoped;
    forall r: Reg | Fits(j, CompileTree(n, ml, cfg, r))
      ensures Implements(j, cfg, CNode(n, ml), r, CompileTree(n, ml, cfg, r)) {
      TreeImpl(j, cfg, n, ml, r);
    }
  }

  lemma OptionResults(j: Job, cfg: Cfg, ml: bool, ml': bool, b: Node, r: Reg, r': Reg)
    requires Formed(b) && Implements(j, cfg, CNode(b, ml'), r, r')
    ensures Implements(j, cfg, CNode(OptionNode(ml', b), ml), r, r')
  {
    hide Implements;
    SameResults(j, cfg, CNode(b, ml'), CNode(OptionNode(ml', b), ml), r, r');
  }

  lemma ListResults(j: Job, cfg: Cfg, ml: bool, ns: Nodes, r: Reg, r': Reg)
    requires AllFormed(ns) && Implements(j, cfg, CList(ns, ml), r, r')
    ensures Implements(j, cfg, CNode(List(ns), ml), r, r')
  {
    hide Implements;
    SameResults(j, cfg, CList(ns, ml), CNode(List(ns), ml), r, r');
  }

  lemma QuantResults(j: Job, cfg: Cfg, ml: bool, t: Node, q: Rep, r: Reg, r': Reg)
    requires Formed(t) && RepOk(q) && Implements(j, cfg, CRep(t, q, ml, 0), r, r')
    ensures Implements(j, cfg, CNode(Quant(t, q), ml), r, r')
  {
    hide Implements;
    SameResults(j, cfg, CRep(t, q, ml, 0), CNode(Quant(t, q), ml), r, r');
  }

  /** What is assumed of a tree is so of its parts. */
  lemma PartsOk(j: Job, cfg: Cfg, n: Node, ml: bool)
    requires Formed(n) && Ready(n) && Scoped(j, cfg, n, ml)
    ensures n.List? || n.Alt? ==> AllFormed(n.items) && AllReady(n.items) && AllScoped(j, cfg, n.items, ml)
    ensures n.Quant? ==>
              Formed(n.target) && RepOk(n.q) && (TextOk(j.x) ==> LoopOk(j.x, n.target, n.q))
              && Ready(n.target) && Scoped(j, cfg, n.target, ml)
    ensures n.Group? ==>
              && Formed(n.body) && Ready(n.body) && Scoped(Inner(j, n.num), cfg, n.body, ml)
              && forall s: nat :: s <= |j.x.text| ==> SpanFrom(j, cfg, n.num, n.body, ml, s)
    ensures n.OptionNode? ==> Formed(n.body) && Ready(n.body) && Scoped(j, cfg, n.body, n.ml)
    ensures n.Atomic? && n.simple ==> SimpleOk(n.body) && Formed(n.body)
    ensures n.Look? || (n.Atomic? && !n.simple) ==> Formed(n.body) && Ready(n.body) && Scoped(j, cfg, n.body, ml)
    ensures n.Look? ==> n.charLen >= 0
    ensures n.Str? || n.CClass? || n.CType? || n.AnyChar? ==> IsSimple(n)
  {
    hide Scoped, AllScoped, SpanFrom, Inner, MinLen;
    ScopedBody(j, cfg, n, ml);
    if n.Group? { ScopedGroup(j, cfg, n.num, n.body, ml); }
  }

  lemma CodeIs(n: Node, ml: bool, cfg: Cfg, r: Reg)
    requires Formed(n)
    ensures n.List? ==> CompileTree(n, ml, cfg, r) == CompileList(n.items, ml, cfg, r)
    ensures n.Alt? ==>
              CompileTree(n, ml, cfg, r) == CompileAlt(n.items, ml, cfg, |r.code| + AltLength(n.items, cfg), r)
              && |CompileTree(n, ml, cfg, r).code| == |r.code| + AltLength(n.items, cfg)
    ensures n.Quant? ==> CompileTree(n, ml, cfg, r) == CompileQuant(n.target, n.q, ml, cfg, r)
    ensures n.Group? ==> CompileTree(n, ml, cfg, r) == CompileGroup(n.num, n.body, ml, cfg, r)
    ensures n.OptionNode? ==> CompileTree(n, ml, cfg, r) == CompileTree(n.body, n.ml, cfg, r)
    ensures n.Atomic? && n.simple ==>
              CompileTree(n, ml, cfg, r) == CompileSimpleRepeat(n.body.target, n.body.q.lower, ml, cfg, r)
    ensures n.Atomic? && !n.simple ==> CompileTree(n, ml, cfg, r) == CompileAtomic(n.body, ml, cfg, r)
    ensures n.Look? ==> CompileTree(n, ml, cfg, r) == CompileLook(n.look, n.charLen, n.body, ml, cfg, r)
    ensures n.Anchor? ==> CompileTree(n, ml, cfg, r) == CompileAnchor(n.kind, r)
  {
  }

  /** compile_tree is right for every tree: its code produces the tree's results, in order, then
      falls back to the stack it was entered with. */
  lemma {:induction false} TreeImpl(j: Job, cfg: Cfg, n: Node, ml: bool, r: Reg)
    requires Formed(n) && Ready(n) && TextOk(j.x) && Fits(j, CompileTree(n, ml, cfg, r)) && Scoped(j, cfg, n, ml)
    ensures Implements(j, cfg, CNode(n, ml), r, CompileTree(n, ml, cfg, r))
    decreases n, 1
  {
    hide *;
    PartsOk(j, cfg, n, ml);
    CodeIs(n, ml, cfg, r);
    match n
    case List(ns) =>
      ListImpl(j, cfg, ns, ml, r);
      ListResults(j, cfg, ml, ns, r, CompileList(ns, ml, cfg, r));
    case Alt(ns) =>
      AltImpl(j, cfg, ns, ml, |r.code| + AltLength(ns, cfg), r);
      AltNode(j, cfg, ns, ml, r, CompileAlt(ns, ml, cfg, |r.code| + AltLength(ns, cfg), r));
    case Quant(t, q) =>
      TreeCorrect(j, cfg, t, ml);
      QuantImpl(j, cfg, t, q, ml, r);
      QuantResults(j, cfg, ml, t, q, r, CompileQuant(t, q, ml, cfg, r));
    case Group(k, b) =>
      SameText(j, k);
      TreeCorrect(Inner(j, k), cfg, b, ml);
      GroupImpl(j, cfg, k, b, ml, r);
    case OptionNode(ml', b) =>
      TreeImpl(j, cfg, b, ml', r);
      OptionResults(j, cfg, ml, ml', b, r, CompileTree(b, ml', cfg, r));
    case Atomic(simple, b) =>
      if simple {
        SimpleRepeatImpl(j, cfg, b, ml, r);
      } else {
        TreeCorrect(j, cfg, b, ml);
        AtomicImpl(j, cfg, b, ml, r);
      }
    case Look(k, len, b) =>
      TreeCorrect(j, cfg, b, ml);
      LookImpl(j, cfg, k, len, b, ml, r);
    case Anchor(k) => AnchorImpl(j, cfg, k, ml, r);
    case _ => SimpleImpl(j, cfg, n, ml, r);
  }

  lemma SameText(j: Job, k: nat)
    ensures Inner(j, k).x == j.x
  {
  }
}
