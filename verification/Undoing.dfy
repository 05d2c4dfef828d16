/** Counters on the backtrack stack: whatever program runs, and however it backtracks, a STK_REPEAT
    entry's count is the number of STK_REPEAT_INC entries on the stack that point at it. */
module Undoing {
  import opened Regint
  import opened Machine

  /** Increment entries for the counter at index k. */
  function Incs(stk: Stack, k: nat): nat {
    if stk == [] then 0
    else Incs(stk[..|stk| - 1], k) + if stk[|stk| - 1] == RepeatInc(k) then 1 else 0
  }

  ghost predicate Counted(stk: Stack, k: nat)
    requires k < |stk|
  {
    match stk[k]
    case Repeat(count, _, _) => count == Incs(stk, k)
    case RepeatInc(si) => si < k && stk[si].Repeat?
    case _ => true
  }

  ghost predicate StackOk(stk: Stack) { forall k :: 0 <= k < |stk| ==> Counted(stk, k) }

  ghost predicate StateOk(st: State) {
    match st
    case Run(_, _, stk) => StackOk(stk)
    case Fail(stk) => StackOk(stk)
    case Accept(_, stk) => StackOk(stk)
    case _ => true
  }

  /** Entries that are neither a counter nor an increment. */
  predicate Neutral(e: Entry) { !e.Repeat? && !e.RepeatInc? }

  lemma IncsPush(stk: Stack, e: Entry, k: nat)
    ensures Incs(stk + [e], k) == Incs(stk, k) + if e == RepeatInc(k) then 1 else 0
  {
    var s := stk + [e];
    assert s[..|s| - 1] == stk;
  }

  /** Increments point downwards, so nothing points at the top. */
  lemma {:induction false} IncsAbove(stk: Stack, k: nat)
    requires forall i :: 0 <= i < |stk| && stk[i].RepeatInc? ==> stk[i].si < i
    requires k >= |stk|
    ensures Incs(stk, k) == 0
  {
    if stk != [] { IncsAbove(stk[..|stk| - 1], k); }
  }

  /** Incs only looks at increments. */
  lemma {:induction false} IncsSame(a: Stack, b: Stack, k: nat)
    requires |a| == |b| && forall i :: 0 <= i < |a| ==> (a[i].RepeatInc? || b[i].RepeatInc?) ==> a[i] == b[i]
    ensures Incs(a, k) == Incs(b, k)
  {
    if a != [] { IncsSame(a[..|a| - 1], b[..|b| - 1], k); }
  }

  lemma PushNeutral(stk: Stack, e: Entry)
    requires StackOk(stk) && Neutral(e)
    ensures StackOk(stk + [e])
  {
    forall k | 0 <= k < |stk + [e]| ensures Counted(stk + [e], k) {
      IncsPush(stk, e, k);
      if k < |stk| { assert Counted(stk, k); }
    }
  }

  lemma PushCounter(stk: Stack, pcode: int, num: nat)
    requires StackOk(stk)
    ensures StackOk(stk + [Repeat(0, pcode, num)])
  {
    var e := Repeat(0, pcode, num);
    forall k | 0 <= k < |stk + [e]| ensures Counted(stk + [e], k) {
      IncsPush(stk, e, k);
      if k < |stk| {
        assert Counted(stk, k);
      } else {
        forall i | 0 <= i < |stk| && stk[i].RepeatInc? ensures stk[i].si < i { assert Counted(stk, i); }
        IncsAbove(stk, k);
      }
    }
  }

  /** Changing a counter's count, nothing else. */
  function SetCount(stk: Stack, k: nat, count: int): (r: Stack)
    requires k < |stk| && stk[k].Repeat?
    ensures |r| == |stk| && forall i :: 0 <= i < |stk| && i != k ==> r[i] == stk[i]
  {
    stk[k := stk[k].(count := count)]
  }

  /** The stack between counting up and pushing the increment: only counter k is off, by one. */
  lemma CountUp(stk: Stack, k: nat)
    requires k < |stk| && stk[k].Repeat? && StackOk(stk)
    ensures StackOk(SetCount(stk, k, stk[k].count + 1) + [RepeatInc(k)])
  {
    var a := SetCount(stk, k, stk[k].count + 1);
    var b := a + [RepeatInc(k)];
    forall i | 0 <= i < |b| ensures Counted(b, i) {
      IncsPush(a, RepeatInc(k), i);
      IncsSame(stk, a, i);
      if i < |stk| { assert Counted(stk, i); }
    }
  }

  lemma CountUpAlt(stk: Stack, k: nat, alt: Entry)
    requires k < |stk| && stk[k].Repeat? && StackOk(stk) && Neutral(alt)
    ensures StackOk(SetCount(stk, k, stk[k].count + 1) + [alt, RepeatInc(k)])
  {
    PushNeutral(stk, alt);
    var a := SetCount(stk, k, stk[k].count + 1);
    CountUp(stk + [alt], k);
    assert SetCount(stk + [alt], k, stk[k].count + 1) + [RepeatInc(k)] == a + [alt, RepeatInc(k)];
  }

  lemma PopTop(stk: Stack)
    requires StackOk(stk) && stk != [] && Neutral(stk[|stk| - 1])
    ensures StackOk(stk[..|stk| - 1])
  {
    var a := stk[..|stk| - 1];
    var e := stk[|stk| - 1];
    assert a + [e] == stk;
    forall k | 0 <= k < |a| ensures Counted(a, k) {
      assert Counted(stk, k);
      IncsPush(a, e, k);
    }
  }

  /** Backtracking over an entry takes its effect back; it never fails. */
  lemma UndoKeeps(stk: Stack)
    requires StackOk(stk) && stk != []
    ensures var u := Undo(stk[|stk| - 1], stk[..|stk| - 1]);
            u.Some? && |u.value| == |stk| - 1 && StackOk(u.value)
  {
    var n := |stk| - 1;
    var e := stk[n];
    var a := stk[..n];
    assert a + [e] == stk;
    assert Counted(stk, n);
    if e.RepeatInc? {
      var b := SetCount(a, e.si, a[e.si].count - 1);
      forall k | 0 <= k < |b| ensures Counted(b, k) {
        assert Counted(stk, k);
        IncsPush(a, e, k);
        IncsSame(a, b, k);
      }
    } else {
      forall k | 0 <= k < |a| ensures Counted(a, k) {
        assert Counted(stk, k);
        IncsPush(a, e, k);
      }
    }
  }

  /** Blanking touches neither counters nor increments. */
  lemma {:induction false} VoidKeepsEntries(stk: Stack, m: Mark)
    requires VoidTo(stk, m).Some? && (m.MarkPos? || m.MarkStopBt?)
    ensures var v := VoidTo(stk, m).value.0;
            |v| == |stk| && forall i :: 0 <= i < |stk| ==> v[i] == stk[i] || (v[i] == Void && Neutral(stk[i]))
  {
    var n := |stk| - 1;
    var e := stk[n];
    if ToVoidTarget(e) {
      VoidKeepsEntries(stk[..n], m);
    } else if !IsMark(e, m) {
      VoidKeepsEntries(stk[..n], m);
    }
  }

  lemma VoidKeeps(stk: Stack, m: Mark)
    requires StackOk(stk) && VoidTo(stk, m).Some? && (m.MarkPos? || m.MarkStopBt?)
    ensures StackOk(VoidTo(stk, m).value.0)
  {
    VoidKeepsEntries(stk, m);
    var v := VoidTo(stk, m).value.0;
    forall k | 0 <= k < |v| ensures Counted(v, k) {
      assert Counted(stk, k);
      IncsSame(stk, v, k);
    }
  }

  lemma {:induction false} PopTilKeeps(stk: Stack, m: Mark)
    requires StackOk(stk) && PopTil(stk, m).Some?
    requires m.MarkPosNot? || m.MarkLookBehindNot?
    ensures StackOk(PopTil(stk, m).value)
    decreases |stk|
  {
    var n := |stk| - 1;
    if IsMark(stk[n], m) {
      PopTop(stk);
    } else {
      UndoKeeps(stk);
      PopTilKeeps(Undo(stk[n], stk[..n]).value, m);
    }
  }

  lemma {:induction false} StarKeeps(x: Subject, ml: bool, peek: Option<byte>, q: int, s: nat, stk: Stack)
    requires StackOk(stk)
    ensures StateOk(StarLoop(x, ml, peek, q, s, stk))
    decreases |x.text| - s
  {
    if s < |x.text| {
      PushNeutral(stk, StkAlt(q, s));
      var stk' := if peek.None? || peek.value == x.text[s] then stk + [StkAlt(q, s)] else stk;
      if ml || x.text[s] != NEWLINE { StarKeeps(x, ml, peek, q, s + 1, stk'); }
    }
  }

  lemma IncKeeps(prog: Prog, id: nat, greedy: bool, q: int, s: nat, stk: Stack)
    requires StackOk(stk)
    ensures StateOk(ExecInc(prog, id, greedy, q, s, stk))
  {
    var f := FindRepeat(stk, id);
    if f.Some? && id < |prog.ranges| {
      var k := f.value;
      var stk1 := SetCount(stk, k, stk[k].count + 1);
      hide StackOk;
      CountUp(stk, k);
      if greedy {
        CountUpAlt(stk, k, StkAlt(q, s));
      } else {
        var alt := StkAlt(stk[k].pcode, s);
        PushNeutral(stk1 + [RepeatInc(k)], alt);
        assert stk1 + [RepeatInc(k)] + [alt] == stk1 + [RepeatInc(k), alt];
      }
    }
  }

  lemma RepeatKeeps(prog: Prog, id: nat, greedy: bool, addr: int, q: int, s: nat, stk: Stack)
    requires StackOk(stk)
    ensures StateOk(ExecRepeat(prog, id, greedy, addr, q, s, stk))
  {
    hide StackOk;
    var stk1 := stk + [Repeat(0, q, id)];
    PushCounter(stk, q, id);
    PushNeutral(stk1, StkAlt(q + addr, s));
    PushNeutral(stk1, StkAlt(q, s));
  }

  /** The entry an instruction pushes, if pushing is all it does to the stack. */
  function Pushed(rec: bool, i: Instr, q: int, s: nat): Option<Entry> {
    match i
    case OpMemoryStart(n) => if rec then Some(MemStart(n, s)) else None
    case OpMemoryStartPush(n) => Some(MemStart(n, s))
    case OpMemoryEnd(n) => if rec then Some(MemEnd(n, s)) else None
    case OpMemoryEndPush(n) => Some(MemEnd(n, s))
    case OpPush(addr) => Some(StkAlt(q + addr, s))
    case OpPushOrJumpExact1(addr, _) => Some(StkAlt(q + addr, s))
    case OpPushIfPeekNext(addr, _) => Some(StkAlt(q + addr, s))
    case OpNullCheckStart(id) => Some(NullCheckStart(id, s))
    case OpPushPos => Some(Pos(s))
    case OpPushPosNot(addr) => Some(StkPosNot(q + addr, s))
    case OpPushStopBt => Some(StopBt)
    case OpPushLookBehindNot(addr, _) => Some(StkLookBehindNot(q + addr, s))
    case _ => None
  }

  /** Instructions that do more to the stack than pushing one entry. */
  predicate Reworks(i: Instr) {
    match i
    case OpAnyCharStar(_) => true
    case OpAnyCharStarPeekNext(_, _) => true
    case OpPop => true
    case OpRepeat(_, _) => true
    case OpRepeatNg(_, _) => true
    case OpRepeatInc(_) => true
    case OpRepeatIncSg(_) => true
    case OpRepeatIncNg(_) => true
    case OpRepeatIncNgSg(_) => true
    case OpPopPos => true
    case OpFailPos => true
    case OpPopStopBt => true
    case OpFailLookBehindNot => true
    case _ => false
  }

  predicate StackIs(st: State, stk: Stack) {
    match st
    case Run(_, _, stk') => stk' == stk
    case Fail(stk') => stk' == stk
    case Accept(_, stk') => stk' == stk
    case _ => true
  }

  lemma ExecPushes(prog: Prog, x: Subject, i: Instr, q: int, s: nat, stk: Stack)
    requires !Reworks(i)
    ensures var st := Exec(prog, x, i, q, s, stk);
            var e := Pushed(prog.rec, i, q, s);
            StackIs(st, stk) || (e.Some? && StackIs(st, stk + [e.value]))
    ensures Pushed(prog.rec, i, q, s).Some? ==> Neutral(Pushed(prog.rec, i, q, s).value)
  {
  }

  lemma ExecKeeps(prog: Prog, x: Subject, i: Instr, q: int, s: nat, stk: Stack)
    requires StackOk(stk)
    ensures StateOk(Exec(prog, x, i, q, s, stk))
  {
    hide StackOk, VoidTo, PopTil, StarLoop, ExecInc, ExecRepeat;
    if !Reworks(i) {
      ExecPushes(prog, x, i, q, s, stk);
      hide Exec;
      var e := Pushed(prog.rec, i, q, s);
      if e.Some? { PushNeutral(stk, e.value); }
    } else {
      ReworkKeeps(prog, x, i, q, s, stk);
    }
  }

  lemma ReworkKeeps(prog: Prog, x: Subject, i: Instr, q: int, s: nat, stk: Stack)
    requires StackOk(stk) && Reworks(i)
    ensures StateOk(Exec(prog, x, i, q, s, stk))
  {
    hide StackOk, VoidTo, PopTil, StarLoop, ExecInc, ExecRepeat;
    match i
    case OpAnyCharStar(ml) => StarKeeps(x, ml, None, q, s, stk);
    case OpAnyCharStarPeekNext(ml, c) => StarKeeps(x, ml, Some(c), q, s, stk);
    case OpPop => if stk != [] && stk[|stk| - 1].StkAlt? { PopTop(stk); }
    case OpRepeat(id, addr) => RepeatKeeps(prog, id, true, addr, q, s, stk);
    case OpRepeatNg(id, addr) => RepeatKeeps(prog, id, false, addr, q, s, stk);
    case OpRepeatInc(id) => IncKeeps(prog, id, true, q, s, stk);
    case OpRepeatIncSg(id) => IncKeeps(prog, id, true, q, s, stk);
    case OpRepeatIncNg(id) => IncKeeps(prog, id, false, q, s, stk);
    case OpRepeatIncNgSg(id) => IncKeeps(prog, id, false, q, s, stk);
    case OpPopPos => if VoidTo(stk, MarkPos).Some? { VoidKeeps(stk, MarkPos); }
    case OpPopStopBt => if VoidTo(stk, MarkStopBt).Some? { VoidKeeps(stk, MarkStopBt); }
    case OpFailPos => if PopTil(stk, MarkPosNot).Some? { PopTilKeeps(stk, MarkPosNot); }
    case OpFailLookBehindNot => if PopTil(stk, MarkLookBehindNot).Some? { PopTilKeeps(stk, MarkLookBehindNot); }
  }

  /** One step of any program keeps every count exact. */
  lemma StepKeeps(prog: Prog, x: Subject, st: State)
    requires StateOk(st)
    ensures StateOk(Step(prog, x, st))
  {
    hide StackOk, Exec;
    match st
    case Run(p, s, stk) =>
      var i := Fetch(prog, p);
      if i.Some? { ExecKeeps(prog, x, i.value, p + Size(i.value), s, stk); }
    case Fail(stk) =>
      if stk != [] {
        UndoKeeps(stk);
        if PopUsed(stk[|stk| - 1]) { PopTop(stk); }
      }
    case _ =>
  }

  /** Every reachable state of every program: counts are exact. */
  lemma {:induction false} RunKeeps(prog: Prog, x: Subject, st: State, n: nat)
    requires StateOk(st)
    ensures StateOk(Steps(prog, x, st, n))
    decreases n
  {
    if n > 0 {
      StepKeeps(prog, x, st);
      RunKeeps(prog, x, Step(prog, x, st), n - 1);
    }
  }
}
