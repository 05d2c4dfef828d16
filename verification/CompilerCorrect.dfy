/** Compiled trees match what the trees mean. */
module CompilerCorrect {
  import opened Regint
  import opened Regparse
  import opened Regcomp
  import opened Machine
  import opened Meaning
  import opened Lengths
  import opened LengthSound
  import opened Enumeration
  import opened Fragments
  import opened Loops
  import opened Quantifiers
  import opened Spans

  /** Text lengths the C code can handle with int arithmetic. */
  predicate TextOk(x: Subject) { |x.text| < INT_MAX - MAX_REPEAT_NUM }

  // ----- one-instruction nodes -----

  /** One instruction, at most one result, nothing left on the stack. */
  ghost predicate SingleAt(j: Job, cfg: Cfg, n: Node, ml: bool, p: int, q: int, s: nat, stk: Stack)
    requires Formed(n) && s <= |j.x.text|
  {
    var es := Ends(n, ml, j.x, cfg, s);
    && |es| <= 1
    && Step(j.prog, j.x, Run(p, s, stk)) == if es == [] then Fail(stk) else Run(q, es[0], stk)
  }

  ghost predicate Single(j: Job, cfg: Cfg, n: Node, ml: bool, p: int, q: int)
    requires Formed(n)
  {
    forall s: nat, stk: Stack :: s <= |j.x.text| ==> SingleAt(j, cfg, n, ml, p, q, s, stk)
  }

  lemma SingleImpl(j: Job, cfg: Cfg, n: Node, ml: bool, r: Reg, r': Reg)
    requires Formed(n) && Single(j, cfg, n, ml, |r.code|, |r'.code|)
    ensures Implements(j, cfg, CNode(n, ml), r, r')
  {
    hide Ends, Enum, Step, Formed;
    forall s: nat, base: Stack | s <= |j.x.text|
      ensures Enum(j, Run(|r.code|, s, base), base, |r'.code|, Of(CNode(n, ml), j.x, cfg, s), Fail(base), IdsOf(r, r'))
    {
      var es := Ends(n, ml, j.x, cfg, s);
      assert SingleAt(j, cfg, n, ml, |r.code|, |r'.code|, s, base);
      if es == [] {
        Leaf(j, |r.code|, |r'.code|, s, 0, false, base, IdsOf(r, r'));
      } else {
        Leaf(j, |r.code|, |r'.code|, s, es[0], true, base, IdsOf(r, r'));
        assert es == [es[0]];
      }
    }
  }

  lemma HasAtByte(x: Subject, str: seq<byte>, s: nat)
    requires |str| == 1
    ensures HasAt(x, s, str) == (s < |x.text| && x.text[s] == str[0])
  {
    if s < |x.text| { assert x.text[s..s + 1] == [x.text[s]]; }
    assert str == [str[0]];
  }

  lemma StringSingle(j: Job, cfg: Cfg, str: seq<byte>, ml: bool, r: Reg)
    requires str != [] && Fits(j, CompileString(str, r))
    ensures Single(j, cfg, Str(str), ml, |r.code|, |CompileString(str, r).code|)
  {
    AddAt(j, r, SelectStr(str), StringLength(|str|));
    forall s: nat, stk: Stack | s <= |j.x.text|
      ensures SingleAt(j, cfg, Str(str), ml, |r.code|, |CompileString(str, r).code|, s, stk)
    {
      StepAt(j, |r.code|, SelectStr(str), s, stk);
      if |str| == 1 { HasAtByte(j.x, str, s); }
    }
  }

  lemma CClassSingle(j: Job, cfg: Cfg, n: Node, ml: bool, r: Reg)
    requires n.CClass? && Fits(j, CompileCClass(n, cfg, r))
    ensures Single(j, cfg, n, ml, |r.code|, |CompileCClass(n, cfg, r).code|)
  {
    AddAt(j, r, CClassInstr(n, cfg), CClassLength(n, cfg));
    forall s: nat, stk: Stack | s <= |j.x.text|
      ensures SingleAt(j, cfg, n, ml, |r.code|, |CompileCClass(n, cfg, r).code|, s, stk)
    {
      StepAt(j, |r.code|, CClassInstr(n, cfg), s, stk);
    }
  }

  lemma CharSingle(j: Job, cfg: Cfg, n: Node, ml: bool, r: Reg)
    requires (n.CType? || n.AnyChar?) && Fits(j, CompileTree(n, ml, cfg, r))
    ensures Single(j, cfg, n, ml, |r.code|, |CompileTree(n, ml, cfg, r).code|)
  {
    var i := if n.AnyChar? then OpAnyChar(ml) else if n.not then OpNotWord else OpWord;
    AddAt(j, r, i, SIZE_OPCODE);
    forall s: nat, stk: Stack | s <= |j.x.text|
      ensures SingleAt(j, cfg, n, ml, |r.code|, |CompileTree(n, ml, cfg, r).code|, s, stk)
    {
      StepAt(j, |r.code|, i, s, stk);
    }
  }

  lemma SimpleSingle(j: Job, cfg: Cfg, n: Node, ml: bool, r: Reg)
    requires IsSimple(n) && n != Str([]) && Fits(j, CompileTree(n, ml, cfg, r))
    ensures Single(j, cfg, n, ml, |r.code|, |CompileTree(n, ml, cfg, r).code|)
  {
    hide Single, Fits;
    match n
    case Str(str) => StringSingle(j, cfg, str, ml, r);
    case CClass(_, _, _, _) => CClassSingle(j, cfg, n, ml, r);
    case _ => CharSingle(j, cfg, n, ml, r);
  }

  lemma SimpleImpl(j: Job, cfg: Cfg, n: Node, ml: bool, r: Reg)
    requires IsSimple(n) && Fits(j, CompileTree(n, ml, cfg, r))
    ensures Implements(j, cfg, CNode(n, ml), r, CompileTree(n, ml, cfg, r))
  {
    if n == Str([]) {
      forall s: nat, base: Stack | s <= |j.x.text|
        ensures Enum(j, Run(|r.code|, s, base), base, |r.code|, Of(CNode(n, ml), j.x, cfg, s), Fail(base), IdsOf(r, r))
      {
        assert HasAt(j.x, s, []);
        EnumHere(j, base, |r.code|, s, IdsOf(r, r));
      }
    } else {
      hide *;
      SimpleSingle(j, cfg, n, ml, r);
      SingleImpl(j, cfg, n, ml, r, CompileTree(n, ml, cfg, r));
    }
  }

  lemma AnchorImpl(j: Job, cfg: Cfg, k: AnchorKind, ml: bool, r: Reg)
    requires Fits(j, CompileAnchor(k, r))
    ensures Implements(j, cfg, CNode(Anchor(k), ml), r, CompileAnchor(k, r))
  {
    AddAt(j, r, AnchorInstr(k), SIZE_OPCODE);
    forall s: nat, stk: Stack | s <= |j.x.text|
      ensures SingleAt(j, cfg, Anchor(k), ml, |r.code|, |CompileAnchor(k, r).code|, s, stk)
    {
      StepAt(j, |r.code|, AnchorInstr(k), s, stk);
    }
    SingleImpl(j, cfg, Anchor(k), ml, r, CompileAnchor(k, r));
  }

  // ----- sequences and alternatives -----

  lemma ListStep(j: Job, cfg: Cfg, n: Node, rest: Nodes, ml: bool, r: Reg, r1: Reg, r2: Reg)
    requires Formed(n) && AllFormed(rest) && Ext(r, r1) && Ext(r1, r2)
    requires Implements(j, cfg, CNode(n, ml), r, r1) && Implements(j, cfg, CList(rest, ml), r1, r2)
    ensures Implements(j, cfg, CList(Cons(n, rest), ml), r, r2)
  {
    hide Ends, Enum, Formed;
    var ids := IdsOf(r, r2);
    forall s: nat, base: Stack | s <= |j.x.text|
      ensures Enum(j, Run(|r.code|, s, base), base, |r2.code|, Of(CList(Cons(n, rest), ml), j.x, cfg, s), Fail(base),
                   ids)
    {
      var es := Ends(n, ml, j.x, cfg, s);
      NodeAt(j, cfg, |r.code|, |r1.code|, n, ml, IdsOf(r, r1), s, base);
      EnumWiden(j, Run(|r.code|, s, base), base, |r1.code|, es, Fail(base), IdsOf(r, r1), ids);
      EnumBind(j, cfg, Run(|r.code|, s, base), base, |r1.code|, es, Fail(base), |r2.code|, CList(rest, ml),
               IdsOf(r1, r2), ids);
      OfAllList(rest, ml, j.x, cfg, es);
    }
  }

  /** What an alternation still has to try, from one alternative on. */
  ghost predicate AltImplements(j: Job, cfg: Cfg, ns: Nodes, ml: bool, goal: int, r: Reg, r': Reg)
    requires AllFormed(ns)
  {
    forall s: nat, base: Stack :: s <= |j.x.text| ==>
      Enum(j, Run(|r.code|, s, base), base, goal, EndsAlt(ns, ml, j.x, cfg, s), Fail(base), IdsOf(r, r'))
  }

  lemma BranchIds(r: Reg, r1: Reg, r2: Reg, r3: Reg, r4: Reg)
    requires Ext(r, r1) && Ext(r1, r2) && Ext(r2, r3) && Ext(r3, r4)
    ensures Within(IdsOf(r1, r2), IdsOf(r, r4)) && Within(IdsOf(r3, r4), IdsOf(r, r4))
  {
  }

  lemma BranchStep(j: Job, cfg: Cfg, n: Node, rest: Nodes, ml: bool, goal: int, r: Reg, r1: Reg, r2: Reg, r3: Reg,
                   r4: Reg)
    requires Formed(n) && AllFormed(rest) && Ext(r, r1) && Ext(r1, r2) && Ext(r2, r3) && Ext(r3, r4)
    requires |r1.code| == |r.code| + SIZE_OP_PUSH && |r3.code| == |r2.code| + SIZE_OP_JUMP
    requires Fetch(j.prog, |r.code|) == Some(OpPush(|r3.code| - |r1.code|))
    requires Fetch(j.prog, |r2.code|) == Some(OpJump(goal - |r3.code|))
    requires Implements(j, cfg, CNode(n, ml), r1, r2) && AltImplements(j, cfg, rest, ml, goal, r3, r4)
    ensures AltImplements(j, cfg, Cons(n, rest), ml, goal, r, r4)
  {
    hide Ends, Enum, Formed, Exec, Step, Fetch, Ext, Within;
    var ids := IdsOf(r, r4);
    BranchIds(r, r1, r2, r3, r4);
    forall s: nat, base: Stack | s <= |j.x.text|
      ensures Enum(j, Run(|r.code|, s, base), base, goal, EndsAlt(Cons(n, rest), ml, j.x, cfg, s), Fail(base), ids)
    {
      var es := Ends(n, ml, j.x, cfg, s);
      var b1 := base + [StkAlt(|r3.code|, s)];
      StepPush(j, |r.code|, |r3.code| - |r1.code|, s, base);
      NodeAt(j, cfg, |r1.code|, |r2.code|, n, ml, IdsOf(r1, r2), s, b1);
      forall e: nat, stk: Stack ensures Step(j.prog, j.x, Run(|r2.code|, e, stk)) == Run(goal, e, stk) {
        StepJump(j, |r2.code|, goal - |r3.code|, e, stk);
      }
      EnumMove(j, Run(|r1.code|, s, b1), b1, |r2.code|, goal, es, Fail(b1), IdsOf(r1, r2));
      EnumWiden(j, Run(|r3.code|, s, base), base, goal, EndsAlt(rest, ml, j.x, cfg, s), Fail(base), IdsOf(r3, r4), ids);
      Choice(j, |r.code|, |r1.code|, |r3.code|, s, base, goal, es, EndsAlt(rest, ml, j.x, cfg, s), IdsOf(r1, r2), ids);
    }
  }

  // ----- groups, atomic groups, look-around -----

  /** OpenNote and closing a capture changes nothing but the undo entries and what is noted. */
  lemma GroupStep(j: Job, cfg: Cfg, k: nat, b: Node, ml: bool, r: Reg, r1: Reg, r2: Reg, r3: Reg)
    requires Formed(b) && Ext(r, r1) && Ext(r1, r2) && Ext(r2, r3)
    requires |r1.code| == |r.code| + SIZE_OP_MEMORY_START && |r3.code| == |r2.code| + SIZE_OP_MEMORY_END
    requires Fetch(j.prog, |r.code|) == Some(if k in cfg.btMemStart then OpMemoryStartPush(k) else OpMemoryStart(k))
    requires Fetch(j.prog, |r2.code|) == Some(if k in cfg.btMemEnd then OpMemoryEndPush(k) else OpMemoryEnd(k))
    requires Implements(Inner(j, k), cfg, CNode(b, ml), r1, r2)
    requires forall s: nat :: s <= |j.x.text| ==> SpanFrom(j, cfg, k, b, ml, s)
    ensures Implements(j, cfg, CNode(Group(k, b), ml), r, r3)
  {
    assert Formed(Group(k, b));
    ExtSelf(r3);
    hide Enum, Formed, Exec, Step, Fetch, Ext, Within, Ends, SpanFrom;
    var ids := IdsOf(r, r3);
    BranchIds(r, r1, r2, r3, r3);
    forall s: nat, base: Stack | s <= |j.x.text|
      ensures Enum(j, Run(|r.code|, s, base), base, |r3.code|, Of(CNode(Group(k, b), ml), j.x, cfg, s), Fail(base), ids)
    {
      GroupEnds(k, b, ml, j.x, cfg, s);
      assert SpanFrom(j, cfg, k, b, ml, s);
      GroupAt(j, cfg, k, b, ml, |r.code|, |r1.code|, |r2.code|, |r3.code|, IdsOf(r1, r2), ids, s, base);
    }
  }

  lemma GroupEnds(k: nat, b: Node, ml: bool, x: Subject, cfg: Cfg, s: nat)
    requires Formed(b) && s <= |x.text|
    ensures Of(CNode(Group(k, b), ml), x, cfg, s) == Ends(b, ml, x, cfg, s)
  {
  }

  lemma GroupAt(j: Job, cfg: Cfg, k: nat, b: Node, ml: bool, p: int, p1: int, p2: int, p3: int, a: Ids, ids: Ids,
                s: nat, base: Stack)
    requires Formed(b) && s <= |j.x.text| && Within(a, ids)
    requires p1 == p + SIZE_OP_MEMORY_START && p3 == p2 + SIZE_OP_MEMORY_END
    requires Fetch(j.prog, p) == Some(if k in cfg.btMemStart then OpMemoryStartPush(k) else OpMemoryStart(k))
    requires Fetch(j.prog, p2) == Some(if k in cfg.btMemEnd then OpMemoryEndPush(k) else OpMemoryEnd(k))
    requires Impl(Inner(j, k), cfg, p1, p2, CNode(b, ml), a) && SpanFrom(j, cfg, k, b, ml, s)
    ensures Enum(j, Run(p, s, base), base, p3, Ends(b, ml, j.x, cfg, s), Fail(base), ids)
  {
    hide Enum, Formed, Exec, Step, Fetch, Within, Ends, Impl, Reaches, FrameOk;
    var es := Ends(b, ml, j.x, cfg, s);
    var push := k in cfg.btMemStart;
    var ext := OpenNote(j, k, push, s);
    MemStep(j, p, k, push, s, base);
    NodeAt(Inner(j, k), cfg, p1, p2, b, ml, a, s, base + ext);
    EnumClose(j, k, push, k in cfg.btMemEnd, s, Run(p1, s, base + ext), base, p2, p3, es, Fail(base + ext), a, ids);
    PopExt(j, base, ext, ids);
    EnumEnd(j, Run(p1, s, base + ext), base, p3, es, Fail(base + ext), Fail(base), ids);
    EnumFrom(j, Run(p, s, base), Run(p1, s, base + ext), base, p3, es, Fail(base), ids);
  }

  /** What opening and closing a group leaves on the stack. */
  function OpenNote(j: Job, k: nat, push: bool, s: nat): Stack { if push || j.prog.rec then [MemStart(k, s)] else [] }

  function CloseNote(j: Job, k: nat, push: bool, e: nat): Stack { if push || j.prog.rec then [MemEnd(k, e)] else [] }

  lemma MemStep(j: Job, p: int, k: nat, push: bool, s: nat, base: Stack)
    requires Fetch(j.prog, p) == Some(if push then OpMemoryStartPush(k) else OpMemoryStart(k))
    ensures var ext := OpenNote(j, k, push, s);
            && Reaches(j, Run(p, s, base), Run(p + SIZE_OP_MEMORY_START, s, base + ext))
            && forall ids: Ids :: FrameOk(ext, |base|, ids)
  {
    StepAt(j, p, if push then OpMemoryStartPush(k) else OpMemoryStart(k), s, base);
    ReachesStep(j, Run(p, s, base));
    assert base + [] == base;
  }

  lemma PopExt(j: Job, base: Stack, ext: Stack, ids: Ids)
    requires FrameOk(ext, |base|, ids) && forall i :: 0 <= i < |ext| ==> !PopUsed(ext[i])
    ensures Reaches(j, Fail(base + ext), Fail(base))
  {
    PopThrough(j, base, ext, ids);
  }

  /** The closing instruction of a group at every exit of its body. */
  lemma {:induction false} EnumClose(j: Job, k: nat, open: bool, push: bool, s: nat, st: State, base: Stack, q: int,
                                     q': int, ends: seq<nat>, fin: State, a: Ids, ids: Ids)
    requires Fetch(j.prog, q) == Some(if push then OpMemoryEndPush(k) else OpMemoryEnd(k))
             && q' == q + SIZE_OP_MEMORY_END && Within(a, ids)
    requires j.prog.rec ==> forall e :: e in ends ==> (k, s, e) in j.spans
    requires Enum(Inner(j, k), st, base + OpenNote(j, k, open, s), q, ends, fin, a)
    ensures Enum(j, st, base, q', ends, fin, ids)
    decreases |ends|
  {
    hide Enum, Fetch, FrameOk, FrameIn, Reaches, OpenNote, Within;
    var b1 := base + OpenNote(j, k, open, s);
    if ends == [] {
      EnumNil(Inner(j, k), st, b1, q, fin, a);
      SameReach(j, k, st, fin);
      EnumNil(j, st, base, q', fin, ids);
    } else {
      var fr := EnumNext(Inner(j, k), st, b1, q, ends, fin, a);
      var fr' := CloseOne(j, k, open, push, s, st, base, fr, q, q', ends[0], a, ids);
      EnumClose(j, k, open, push, s, Fail(b1 + fr), base, q, q', ends[1..], fin, a, ids);
      EnumFrom(j, Fail(base + fr'), Fail(b1 + fr), base, q', ends[1..], fin, ids);
      EnumCons(j, st, base, fr', q', ends[0], ends[1..], fin, ids);
      assert ends == [ends[0]] + ends[1..];
    }
  }

  /** The same machine, whatever it is to note. */
  lemma SameReach(j: Job, k: nat, a: State, b: State)
    ensures Reaches(Inner(j, k), a, b) <==> Reaches(j, a, b)
  {
    hide Steps;
  }

  /** The closing instruction at one exit. */
  lemma CloseOne(j: Job, k: nat, open: bool, push: bool, s: nat, st: State, base: Stack, fr: Stack, q: int, q': int,
                 e: nat, a: Ids, ids: Ids) returns (fr': Stack)
    requires Fetch(j.prog, q) == Some(if push then OpMemoryEndPush(k) else OpMemoryEnd(k))
             && q' == q + SIZE_OP_MEMORY_END && Within(a, ids)
    requires var b1 := base + OpenNote(j, k, open, s);
             FrameIn(Inner(j, k), fr, |b1|, a) && Reaches(Inner(j, k), st, Run(q, e, b1 + fr))
    requires j.prog.rec ==> (k, s, e) in j.spans
    ensures FrameIn(j, fr', |base|, ids)
    ensures Reaches(j, st, Run(q', e, base + fr'))
    ensures Reaches(j, Fail(base + fr'), Fail(base + OpenNote(j, k, open, s) + fr))
  {
    var first, last := OpenNote(j, k, open, s), CloseNote(j, k, push, e);
    var stk := base + first + fr;
    fr' := first + fr + last;
    assert FrameOk(last, |stk|, ids) && FrameOk(first, |base|, ids);
    FrameWiden(fr, |base + first|, a, ids);
    FrameConcat(first, fr, |base|, ids);
    FrameConcat(first + fr, last, |base|, ids);
    if j.prog.rec { LegalGroup(j.spans, k, s, fr, e); }
    SameReach(j, k, st, Run(q, e, stk));
    hide Fetch, Exec, Reaches, FrameOk;
    StepAt(j, q, if push then OpMemoryEndPush(k) else OpMemoryEnd(k), e, stk);
    CloseExec(j, k, push, q', e, stk);
    ReachesStep(j, Run(q, e, stk));
    ReachesTrans(j, st, Run(q, e, stk), Run(q', e, stk + last));
    PopExt(j, stk, last, ids);
    assert stk + last == base + fr';
  }

  lemma CloseExec(j: Job, k: nat, push: bool, q': int, e: nat, stk: Stack)
    ensures Exec(j.prog, j.x, if push then OpMemoryEndPush(k) else OpMemoryEnd(k), q', e, stk) ==
            Run(q', e, stk + CloseNote(j, k, push, e))
  {
    assert stk + [] == stk;
  }

  /** Closing a mark of kind m: the choice points above it are gone, the undo entries stay, and
      failing later falls through to the stack below. */
  lemma Closed(j: Job, base: Stack, e: Entry, fr: Stack, m: Mark, a: Ids, ids: Ids)
    requires FrameIn(j, fr, |base| + 1, a) && Within(a, ids) && IsMark(e, m) && !ToVoidTarget(e)
    ensures var fr' := [Void] + Blank(fr);
            && VoidTo(base + [e] + fr, m) == Some((base + fr', e))
            && FrameIn(j, fr', |base|, ids)
            && Reaches(j, Fail(base + fr'), Fail(base))
  {
    var fr' := [Void] + Blank(fr);
    VoidToMark(base, e, fr, m, a);
    assert base + [Void] + Blank(fr) == base + fr';
    BlankOk(fr, |base| + 1, a);
    FrameWiden(Blank(fr), |base| + 1, a, ids);
    LegalSame(j, fr, Blank(fr));
    FrameNone(j, [Void], |base|, ids);
    FrameInConcat(j, [Void], Blank(fr), |base|, ids);
    PopThrough(j, base, fr', ids);
  }

  /** Failing with nothing above the mark drops it. */
  lemma DropMark(j: Job, base: Stack, e: Entry)
    requires e.StopBt? || e.Pos?
    ensures Reaches(j, Fail(base + [e]), Fail(base))
  {
    var stk := base + [e];
    assert stk[..|stk| - 1] == base;
    ReachesStep(j, Fail(stk));
  }

  lemma OpenMark(j: Job, p: int, e: Entry, s: nat, base: Stack)
    requires (e == StopBt && Fetch(j.prog, p) == Some(OpPushStopBt))
             || (e == Pos(s) && Fetch(j.prog, p) == Some(OpPushPos))
    ensures Reaches(j, Run(p, s, base), Run(p + 1, s, base + [e]))
  {
    StepAt(j, p, if e == StopBt then OpPushStopBt else OpPushPos, s, base);
    ReachesStep(j, Run(p, s, base));
  }

  /** OP_POP_STOP_BT and OP_POP_POS find the mark they belong to. */
  lemma CloseMark(j: Job, p: int, e: Entry, end: nat, base: Stack, fr: Stack, a: Ids, ids: Ids)
    requires FrameIn(j, fr, |base| + 1, a) && Within(a, ids)
    requires (e == StopBt && Fetch(j.prog, p) == Some(OpPopStopBt)) || (e.Pos? && Fetch(j.prog, p) == Some(OpPopPos))
    ensures var fr' := [Void] + Blank(fr);
            && Reaches(j, Run(p, end, base + [e] + fr), Run(p + 1, if e.Pos? then e.pstr else end, base + fr'))
            && FrameIn(j, fr', |base|, ids)
            && Reaches(j, Fail(base + fr'), Fail(base))
  {
    Closed(j, base, e, fr, if e == StopBt then MarkStopBt else MarkPos, a, ids);
    CloseStep(j, p, e, end, base + [e] + fr, base + ([Void] + Blank(fr)));
  }

  lemma CloseStep(j: Job, p: int, e: Entry, end: nat, stk: Stack, stk': Stack)
    requires VoidTo(stk, if e == StopBt then MarkStopBt else MarkPos) == Some((stk', e))
    requires (e == StopBt && Fetch(j.prog, p) == Some(OpPopStopBt)) || (e.Pos? && Fetch(j.prog, p) == Some(OpPopPos))
    ensures Reaches(j, Run(p, end, stk), Run(p + 1, if e.Pos? then e.pstr else end, stk'))
  {
    hide VoidTo;
    ReachesStep(j, Run(p, end, stk));
    if e == StopBt { StepAt(j, p, OpPopStopBt, end, stk); } else { StepAt(j, p, OpPopPos, end, stk); }
  }

  /** The common part of (?>...) and (?=...): the first result of the body, or none. */
  lemma MarkedAt(j: Job, cfg: Cfg, b: Node, ml: bool, p: int, p1: int, p2: int, e: Entry, a: Ids, ids: Ids, s: nat,
                 base: Stack)
    requires Formed(b) && s <= |j.x.text| && Within(a, ids) && p2 == p1 + 1
    requires || (e == StopBt && Fetch(j.prog, p) == Some(OpPushStopBt) && Fetch(j.prog, p1) == Some(OpPopStopBt))
             || (e == Pos(s) && Fetch(j.prog, p) == Some(OpPushPos) && Fetch(j.prog, p1) == Some(OpPopPos))
    requires Impl(j, cfg, p + 1, p1, CNode(b, ml), a)
    ensures var es := Ends(b, ml, j.x, cfg, s);
            Enum(j, Run(p, s, base), base, p2, if es == [] then [] else [if e.Pos? then s else es[0]], Fail(base), ids)
  {
    hide Impl, Formed, Fetch, Exec, Step, Ends;
    var es := Ends(b, ml, j.x, cfg, s);
    var b1 := base + [e];
    NodeAt(j, cfg, p + 1, p1, b, ml, a, s, b1);
    var st := Run(p + 1, s, b1);
    OpenMark(j, p, e, s, base);
    if es == [] {
      assert Reaches(j, st, Fail(b1));
      DropMark(j, base, e);
      ReachesTrans(j, Run(p, s, base), st, Fail(b1));
      ReachesTrans(j, Run(p, s, base), Fail(b1), Fail(base));
    } else {
      var fr := EnumNext(j, st, b1, p1, es, Fail(b1), a);
      hide Enum, Blank, FrameOk, FrameIn;
      CloseMark(j, p1, e, es[0], base, fr, a, ids);
      var fr' := [Void] + Blank(fr);
      var end := if e.Pos? then s else es[0];
      ReachesTrans(j, Run(p, s, base), st, Run(p1, es[0], b1 + fr));
      ReachesTrans(j, Run(p, s, base), Run(p1, es[0], b1 + fr), Run(p2, end, base + fr'));
      EnumOne(j, Run(p, s, base), base, fr', p2, end, Fail(base), ids);
    }
  }

  /** The common part of (?!...) and (?<!...): a mark that is also the way on when the body fails. */
  lemma NotAt(j: Job, st0: State, st: State, p1: int, p2: int, e: Entry, m: Mark, es: seq<nat>, a: Ids, ids: Ids,
              s: nat, base: Stack)
    requires e == if m.MarkPosNot? then StkPosNot(p2, s) else StkLookBehindNot(p2, s)
    requires m.MarkPosNot? || m.MarkLookBehindNot?
    requires Fetch(j.prog, p1) == Some(if m.MarkPosNot? then OpFailPos else OpFailLookBehindNot)
    requires Reaches(j, st0, st) && Enum(j, st, base + [e], p1, es, Fail(base + [e]), a)
    ensures Enum(j, st0, base, p2, One(es == [], s), Fail(base), ids)
  {
    hide Enum, Fetch, Exec, Step, FrameOk, Reaches, PopTil;
    var b1 := base + [e];
    if es == [] {
      EnumNil(j, st, b1, p1, Fail(b1), a);
      NotFalls(j, p2, e, s, base);
      ReachesStep(j, Fail(b1));
      ReachesTrans(j, st0, st, Fail(b1));
      ReachesTrans(j, st0, Fail(b1), Run(p2, s, base));
      EnumHere(j, base, p2, s, ids);
      EnumFrom(j, st0, Run(p2, s, base), base, p2, [s], Fail(base), ids);
    } else {
      var fr := EnumNext(j, st, b1, p1, es, Fail(b1), a);
      PopTilMark(base, e, fr, m, a);
      NotFails(j, p1, m, es[0], b1 + fr, base);
      ReachesStep(j, Run(p1, es[0], b1 + fr));
      ReachesTrans(j, st0, st, Run(p1, es[0], b1 + fr));
      ReachesTrans(j, st0, Run(p1, es[0], b1 + fr), Fail(base));
      EnumNone(j, st0, base, p2, Fail(base), ids);
    }
  }

  lemma NotFalls(j: Job, p2: int, e: Entry, s: nat, base: Stack)
    requires e == StkPosNot(p2, s) || e == StkLookBehindNot(p2, s)
    ensures Step(j.prog, j.x, Fail(base + [e])) == Run(p2, s, base)
  {
    var b1 := base + [e];
    assert b1[..|b1| - 1] == base;
  }

  lemma NotFails(j: Job, p1: int, m: Mark, s: nat, stk: Stack, base: Stack)
    requires m.MarkPosNot? || m.MarkLookBehindNot?
    requires Fetch(j.prog, p1) == Some(if m.MarkPosNot? then OpFailPos else OpFailLookBehindNot)
    requires PopTil(stk, m) == Some(base)
    ensures Step(j.prog, j.x, Run(p1, s, stk)) == Fail(base)
  {
    hide PopTil, Fetch;
    StepAt(j, p1, if m.MarkPosNot? then OpFailPos else OpFailLookBehindNot, s, stk);
  }

  lemma PrecReadNotAt(j: Job, cfg: Cfg, b: Node, ml: bool, p: int, p1: int, p2: int, a: Ids, ids: Ids, s: nat,
                      base: Stack)
    requires Formed(b) && s <= |j.x.text| && p2 == p1 + SIZE_OP_FAIL_POS
    requires Fetch(j.prog, p) == Some(OpPushPosNot(p2 - (p + SIZE_OP_PUSH_POS_NOT)))
             && Fetch(j.prog, p1) == Some(OpFailPos)
    requires Impl(j, cfg, p + SIZE_OP_PUSH_POS_NOT, p1, CNode(b, ml), a)
    ensures Enum(j, Run(p, s, base), base, p2, One(Ends(b, ml, j.x, cfg, s) == [], s), Fail(base), ids)
  {
    hide Enum, Ends, Fetch, Formed;
    hide Impl;
    var b1 := base + [StkPosNot(p2, s)];
    NodeAt(j, cfg, p + SIZE_OP_PUSH_POS_NOT, p1, b, ml, a, s, b1);
    StepAt(j, p, OpPushPosNot(p2 - (p + SIZE_OP_PUSH_POS_NOT)), s, base);
    ReachesStep(j, Run(p, s, base));
    NotAt(j, Run(p, s, base), Run(p + SIZE_OP_PUSH_POS_NOT, s, b1), p1, p2, StkPosNot(p2, s), MarkPosNot,
          Ends(b, ml, j.x, cfg, s), a, ids, s, base);
  }

  lemma LookBehindStep(j: Job, len: nat, p: int, s: nat, base: Stack)
    requires Fetch(j.prog, p) == Some(OpLookBehind(len))
    ensures Step(j.prog, j.x, Run(p, s, base)) ==
            if s < len then Fail(base) else Run(p + SIZE_OP_LOOK_BEHIND, s - len, base)
  {
    StepAt(j, p, OpLookBehind(len), s, base);
  }

  lemma LookBehindAt(j: Job, cfg: Cfg, len: nat, b: Node, ml: bool, p: int, p1: int, a: Ids, ids: Ids, s: nat,
                     base: Stack)
    requires Formed(b) && s <= |j.x.text| && Within(a, ids)
    requires Fetch(j.prog, p) == Some(OpLookBehind(len))
    requires Impl(j, cfg, p + SIZE_OP_LOOK_BEHIND, p1, CNode(b, ml), a)
    ensures Enum(j, Run(p, s, base), base, p1, if s < len then [] else Ends(b, ml, j.x, cfg, s - len), Fail(base), ids)
  {
    hide Enum, Impl, Ends, Fetch, Step, Formed, Reaches;
    LookBehindStep(j, len, p, s, base);
    ReachesStep(j, Run(p, s, base));
    if s < len {
      EnumNone(j, Run(p, s, base), base, p1, Fail(base), ids);
    } else {
      var es := Ends(b, ml, j.x, cfg, s - len);
      NodeAt(j, cfg, p + SIZE_OP_LOOK_BEHIND, p1, b, ml, a, s - len, base);
      EnumWiden(j, Run(p + SIZE_OP_LOOK_BEHIND, s - len, base), base, p1, es, Fail(base), a, ids);
      EnumFrom(j, Run(p, s, base), Run(p + SIZE_OP_LOOK_BEHIND, s - len, base), base, p1, es, Fail(base), ids);
    }
  }

  lemma LookBehindNotAt(j: Job, cfg: Cfg, len: nat, b: Node, ml: bool, p: int, p1: int, p2: int, a: Ids, ids: Ids,
                        s: nat, base: Stack)
    requires Formed(b) && s <= |j.x.text| && p2 == p1 + SIZE_OP_FAIL_LOOK_BEHIND_NOT
    requires Fetch(j.prog, p) == Some(OpPushLookBehindNot(p2 - (p + SIZE_OP_PUSH_LOOK_BEHIND_NOT), len))
    requires Fetch(j.prog, p1) == Some(OpFailLookBehindNot)
    requires Impl(j, cfg, p + SIZE_OP_PUSH_LOOK_BEHIND_NOT, p1, CNode(b, ml), a)
    ensures Enum(j, Run(p, s, base), base, p2, if s < len then [s]
            else One(Ends(b, ml, j.x, cfg, s - len) == [], s), Fail(base), ids)
  {
    hide Enum, Ends, Fetch, Formed;
    StepAt(j, p, OpPushLookBehindNot(p2 - (p + SIZE_OP_PUSH_LOOK_BEHIND_NOT), len), s, base);
    ReachesStep(j, Run(p, s, base));
    if s < len {
      EnumHere(j, base, p2, s, ids);
      EnumFrom(j, Run(p, s, base), Run(p2, s, base), base, p2, [s], Fail(base), ids);
    } else {
      var b1 := base + [StkLookBehindNot(p2, s)];
      NodeAt(j, cfg, p + SIZE_OP_PUSH_LOOK_BEHIND_NOT, p1, b, ml, a, s - len, b1);
      hide Impl;
      NotAt(j, Run(p, s, base), Run(p + SIZE_OP_PUSH_LOOK_BEHIND_NOT, s - len, b1), p1, p2, StkLookBehindNot(p2, s),
            MarkLookBehindNot,
            Ends(b, ml, j.x, cfg, s - len), a, ids, s, base);
    }
  }

  // ----- (?>X*) for a one-instruction X -----

  lemma SingleGo(j: Job, cfg: Cfg, t: Node, ml: bool, p: int, q: int, s: nat, stk: Stack)
    requires Formed(t) && IsSimple(t) && t != Str([]) && TextOk(j.x)
    requires Single(j, cfg, t, ml, p, q) && s <= |j.x.text|
    ensures var es := Ends(t, ml, j.x, cfg, s);
            Reaches(j, Run(p, s, stk), if es == [] then Fail(stk) else Run(q, es[0], stk))
    ensures var es := Ends(t, ml, j.x, cfg, s); es != [] ==> es[0] > s
  {
    SimpleAdvances(t, ml, j.x, cfg, s);
    assert SingleAt(j, cfg, t, ml, p, q, s, stk);
    hide Ends, Formed, Ready, MinLen, Single, Step;
    ReachesStep(j, Run(p, s, stk));
  }

  /** OP_POP drops the entry its OP_PUSH pushed. */
  lemma StepPopAlt(j: Job, p: int, e: nat, base: Stack, alt: Entry)
    requires Fetch(j.prog, p) == Some(OpPop) && alt.StkAlt?
    ensures Reaches(j, Run(p, e, base + [alt]), Run(p + SIZE_OP_POP, e, base))
  {
    var stk := base + [alt];
    assert stk[..|stk| - 1] == base;
    StepAt(j, p, OpPop, e, stk);
    ReachesStep(j, Run(p, e, stk));
  }

  /** Addresses of PUSH X POP JUMP. */
  ghost predicate SimpleLoopAt(j: Job, cfg: Cfg, t: Node, ml: bool, p: int, p1: int, p2: int)
    requires Formed(t)
  {
    && p2 == p1 + SIZE_OP_POP + SIZE_OP_JUMP
    && Fetch(j.prog, p) == Some(OpPush(p2 - (p + SIZE_OP_PUSH)))
    && Single(j, cfg, t, ml, p + SIZE_OP_PUSH, p1)
    && Fetch(j.prog, p1) == Some(OpPop)
    && Fetch(j.prog, p1 + SIZE_OP_POP) == Some(OpJump(p - p2))
  }

  lemma {:induction false} SimpleLoopRuns(j: Job, cfg: Cfg, t: Node, lower: nat, ml: bool, p: int, p1: int, p2: int,
                                          k: nat, ids: Ids, s: nat, base: Stack)
    requires Formed(t) && IsSimple(t) && t != Str([]) && TextOk(j.x) && s <= |j.x.text| && k >= lower
    requires SimpleLoopAt(j, cfg, t, ml, p, p1, p2)
    ensures Enum(j, Run(p, s, base), base, p2, EndsSimple(t, lower, ml, j.x, cfg, k, s), Fail(base), ids)
    decreases |j.x.text| - s
  {
    hide Ends, Formed, IsSimple, Single, Step, Exec, Fetch, Enum;
    var alt := StkAlt(p2, s);
    var up := base + [alt];
    var es := Ends(t, ml, j.x, cfg, s);
    StepPush(j, p, p2 - (p + SIZE_OP_PUSH), s, base);
    ReachesStep(j, Run(p, s, base));
    SingleGo(j, cfg, t, ml, p + SIZE_OP_PUSH, p1, s, up);
    if es == [] {
      ReachesTrans(j, Run(p, s, base), Run(p + SIZE_OP_PUSH, s, up), Fail(up));
      PopAlt(j, base, p2, s);
      ReachesTrans(j, Run(p, s, base), Fail(up), Run(p2, s, base));
      EnumHere(j, base, p2, s, ids);
      EnumFrom(j, Run(p, s, base), Run(p2, s, base), base, p2, [s], Fail(base), ids);
    } else {
      var e := es[0];
      var jump := Run(p1 + SIZE_OP_POP, e, base);
      ReachesTrans(j, Run(p, s, base), Run(p + SIZE_OP_PUSH, s, up), Run(p1, e, up));
      StepPopAlt(j, p1, e, base, alt);
      ReachesTrans(j, Run(p, s, base), Run(p1, e, up), jump);
      StepJump(j, p1 + SIZE_OP_POP, p - p2, e, base);
      ReachesStep(j, jump);
      ReachesTrans(j, Run(p, s, base), jump, Run(p, e, base));
      SimpleLoopRuns(j, cfg, t, lower, ml, p, p1, p2, k + 1, ids, e, base);
      EnumFrom(j, Run(p, s, base), Run(p, e, base), base, p2, EndsSimple(t, lower, ml, j.x, cfg, k + 1, e), Fail(base),
               ids);
    }
  }

  lemma OneCopy(j: Job, cfg: Cfg, t: Node, m: nat, ml: bool, r: Reg, r1: Reg, s: nat, base: Stack)
    requires Formed(t) && IsSimple(t) && t != Str([]) && TextOk(j.x) && s <= |j.x.text| && m > 0
    requires Fits(j, CompileTimes(t, m, ml, cfg, r)) && r1 == CompileTree(t, ml, cfg, r)
    ensures var es := Ends(t, ml, j.x, cfg, s);
            && Reaches(j, Run(|r.code|, s, base), if es == [] then Fail(base) else Run(|r1.code|, es[0], base))
            && (es != [] ==> es[0] > s)
  {
    hide Ends, Formed, Ready, MinLen, Single, CompileTree, CompileLength, Fits, IsSimple, CompileTimes, Reaches;
    TimesStep(t, m, ml, cfg, r);
    FitsDown(j, r1, CompileTimes(t, m - 1, ml, cfg, r1));
    SimpleSingle(j, cfg, t, ml, r);
    SingleGo(j, cfg, t, ml, |r.code|, |r1.code|, s, base);
  }

  lemma TimesStep(t: Node, m: nat, ml: bool, cfg: Cfg, r: Reg)
    requires Formed(t)
    ensures CompileTimes(t, m, ml, cfg, r) == if m == 0 then r
            else CompileTimes(t, m - 1, ml, cfg, CompileTree(t, ml, cfg, r))
  {
  }

  lemma SimpleUnfold(t: Node, lower: nat, ml: bool, x: Subject, cfg: Cfg, k: nat, s: nat)
    requires Formed(t) && s <= |x.text|
    ensures var es := Ends(t, ml, x, cfg, s);
            EndsSimple(t, lower, ml, x, cfg, k, s) ==
            if es == [] then One(k >= lower, s)
            else if es[0] > s then EndsSimple(t, lower, ml, x, cfg, k + 1, es[0])
            else []
  {
  }

  lemma SimpleResults(b: Node, ml: bool, x: Subject, cfg: Cfg, s: nat)
    requires Formed(Atomic(true, b)) && s <= |x.text|
    ensures Of(CNode(Atomic(true, b), ml), x, cfg, s) == EndsSimple(b.target, b.q.lower, ml, x, cfg, 0, s)
  {
  }

  /** The mandatory copies in front of the loop. */
  lemma {:induction false} SimpleTimesRuns(j: Job, cfg: Cfg, t: Node, lower: nat, m: nat, ml: bool, r: Reg, p: int,
                                           p1: int, p2: int, ids: Ids, s: nat, base: Stack)
    requires Formed(t) && IsSimple(t) && t != Str([]) && TextOk(j.x) && s <= |j.x.text| && m <= lower
    requires Fits(j, CompileTimes(t, m, ml, cfg, r)) && p == |CompileTimes(t, m, ml, cfg, r).code|
    requires SimpleLoopAt(j, cfg, t, ml, p, p1, p2)
    ensures Enum(j, Run(|r.code|, s, base), base, p2, EndsSimple(t, lower, ml, j.x, cfg, lower - m, s), Fail(base), ids)
    decreases m
  {
    hide Ends, Formed, Ready, MinLen, Single, Step, Exec, Fetch, Enum, CompileTree, CompileLength, Fits, Ext, Reaches;
    hide SimpleLoopAt, IsSimple, EndsSimple, CompileTimes;
    TimesStep(t, m, ml, cfg, r);
    if m == 0 {
      SimpleLoopRuns(j, cfg, t, lower, ml, p, p1, p2, lower, ids, s, base);
    } else {
      var r1 := CompileTree(t, ml, cfg, r);
      OneCopy(j, cfg, t, m, ml, r, r1, s, base);
      var es := Ends(t, ml, j.x, cfg, s);
      SimpleUnfold(t, lower, ml, j.x, cfg, lower - m, s);
      if es == [] {
        EnumNone(j, Run(|r.code|, s, base), base, p2, Fail(base), ids);
      } else {
        SimpleTimesRuns(j, cfg, t, lower, m - 1, ml, r1, p, p1, p2, ids, es[0], base);
        EnumFrom(j, Run(|r.code|, s, base), Run(|r1.code|, es[0], base), base, p2,
                 EndsSimple(t, lower, ml, j.x, cfg, lower - m + 1, es[0]), Fail(base), ids);
      }
    }
  }

  lemma SimpleLoopLayout(j: Job, cfg: Cfg, t: Node, lower: nat, ml: bool, r: Reg, r1: Reg) returns (p1: int)
    requires Formed(t) && IsSimple(t) && t != Str([])
    requires Fits(j, CompileSimpleRepeat(t, lower, ml, cfg, r)) && r1 == CompileTimes(t, lower, ml, cfg, r)
    ensures SimpleLoopAt(j, cfg, t, ml, |r1.code|, p1, |CompileSimpleRepeat(t, lower, ml, cfg, r).code|)
    ensures Fits(j, r1)
  {
    hide Formed, CompileTree, CompileLength, Single, Fits, Fetch, Add, IsSimple, Ext;
    var tlen := CompileLength(t, cfg);
    var push := OpPush(tlen + SIZE_OP_POP + SIZE_OP_JUMP);
    var jump := OpJump(-(SIZE_OP_PUSH + tlen + SIZE_OP_POP + SIZE_OP_JUMP));
    var r2 := Add(r1, push, SIZE_OP_PUSH);
    var r3 := CompileTree(t, ml, cfg, r2);
    var r4 := Add(r3, OpPop, SIZE_OP_POP);
    AddAt(j, r4, jump, SIZE_OP_JUMP);
    AddAt(j, r3, OpPop, SIZE_OP_POP);
    FitsDown(j, r2, r3);
    SimpleSingle(j, cfg, t, ml, r2);
    AddAt(j, r1, push, SIZE_OP_PUSH);
    p1 := |r3.code|;
  }

  lemma SimpleRepeatImpl(j: Job, cfg: Cfg, b: Node, ml: bool, r: Reg)
    requires SimpleOk(b) && Formed(Atomic(true, b)) && TextOk(j.x)
    requires Fits(j, CompileSimpleRepeat(b.target, b.q.lower, ml, cfg, r))
    ensures Implements(j, cfg, CNode(Atomic(true, b), ml), r, CompileSimpleRepeat(b.target, b.q.lower, ml, cfg, r))
  {
    var t, lower := b.target, b.q.lower;
    var r1 := CompileTimes(t, lower, ml, cfg, r);
    var r5 := CompileSimpleRepeat(t, lower, ml, cfg, r);
    var p1 := SimpleLoopLayout(j, cfg, t, lower, ml, r, r1);
    hide Formed, Ready, MinLen, SimpleLoopAt, Fits, Enum, CompileTimes, CompileSimpleRepeat, EndsSimple;
    hide CompileLength, IsSimple, Ends, Of, Ext;
    forall s: nat, base: Stack | s <= |j.x.text|
      ensures Enum(j, Run(|r.code|, s, base), base, |r5.code|, Of(CNode(Atomic(true, b), ml), j.x, cfg, s), Fail(base),
                   IdsOf(r, r5))
    {
      SimpleResults(b, ml, j.x, cfg, s);
      SimpleTimesRuns(j, cfg, t, lower, lower, ml, r, |r1.code|, p1, |r5.code|, IdsOf(r, r5), s, base);
    }
  }
}
