/** match_at with its own state: stack entries with capture undo data, the table of counter
    positions, the capture cells and the pop level. Every method does what the control machine
    does and keeps the tables right. */
module Matcher {
  import opened Regint
  import opened Regcomp
  import opened Machine
  import opened Layout
  import opened Tables
  import opened PopLevels
  import opened Captures
  import opened Unwinding
  import opened CaptureCells
  import opened ProgramCorrect

  /** Instructions that only look at the text. */
  predicate Straight(i: Instr) {
    match i
    case OpFinish => true
    case OpEnd => true
    case OpExact1(_) => true
    case OpExactK(_) => true
    case OpExactN(_) => true
    case OpCClass(_) => true
    case OpCClassNot(_) => true
    case OpCClassMb(_) => true
    case OpCClassMbNot(_) => true
    case OpCClassMix(_, _) => true
    case OpCClassMixNot(_, _) => true
    case OpCClassNode(_, _) => true
    case OpAnyChar(_) => true
    case OpWord => true
    case OpNotWord => true
    case OpBeginBuf => true
    case OpEndBuf => true
    case OpEndLine => true
    case OpSemiEndBuf => true
    case OpBeginPosition => true
    case _ => false
  }

  lemma JumpExec(prog: Prog, x: Subject, i: Instr, q: int, s: nat, stk: Stack)
    ensures i.OpJump? ==> Exec(prog, x, i, q, s, stk) == Run(q + i.addr, s, stk)
    ensures i.OpPush? ==> Exec(prog, x, i, q, s, stk) == Run(q, s, stk + [StkAlt(q + i.addr, s)])
    ensures i.OpPushOrJumpExact1? ==>
              Exec(prog, x, i, q, s, stk) ==
              if ReadByte(x, s) == i.c && s + 1 <= |x.text| then Run(q, s, stk + [StkAlt(q + i.addr, s)])
              else Run(q + i.addr, s, stk)
    ensures i.OpPushIfPeekNext? ==>
              Exec(prog, x, i, q, s, stk) ==
              if ReadByte(x, s) == i.c then Run(q, s, stk + [StkAlt(q + i.addr, s)]) else Run(q, s, stk)
  {
  }

  lemma AheadExec(prog: Prog, x: Subject, i: Instr, q: int, s: nat, stk: Stack)
    ensures i.OpPushPos? ==> Exec(prog, x, i, q, s, stk) == Run(q, s, stk + [Pos(s)])
    ensures i.OpPushPosNot? ==> Exec(prog, x, i, q, s, stk) == Run(q, s, stk + [StkPosNot(q + i.addr, s)])
    ensures i.OpPopPos? && Exec(prog, x, i, q, s, stk) != Stuck ==>
              var v := VoidTo(stk, MarkPos);
              && v.Some? && v.value.1.Pos?
              && Exec(prog, x, i, q, s, stk) == Run(q, v.value.1.pstr, v.value.0)
    ensures i.OpFailPos? && Exec(prog, x, i, q, s, stk) != Stuck ==>
              PopTil(stk, MarkPosNot).Some? && Exec(prog, x, i, q, s, stk) == Fail(PopTil(stk, MarkPosNot).value)
  {
    hide VoidTo, PopTil;
  }

  lemma MemstStuck(prog: Prog, x: Subject, i: Instr, q: int, s: nat, stk: Stack)
    ensures i.OpNullCheckEndMemst? ==> Exec(prog, x, i, q, s, stk) == Stuck
  {
  }

  lemma BehindExec(prog: Prog, x: Subject, i: Instr, q: int, s: nat, stk: Stack)
    ensures i.OpLookBehind? ==> Exec(prog, x, i, q, s, stk) == if s < i.len then Fail(stk) else Run(q, s - i.len, stk)
    ensures i.OpPushLookBehindNot? ==>
              Exec(prog, x, i, q, s, stk) ==
              if s < i.len then Run(q + i.addr, s, stk) else Run(q, s - i.len, stk + [StkLookBehindNot(q + i.addr, s)])
    ensures i.OpFailLookBehindNot? && Exec(prog, x, i, q, s, stk) != Stuck ==>
              PopTil(stk, MarkLookBehindNot).Some?
              && Exec(prog, x, i, q, s, stk) == Fail(PopTil(stk, MarkLookBehindNot).value)
  {
    hide PopTil;
  }

  lemma Untouched(i: Instr)
    ensures Straight(i) || OpensCounter(i) || CounterInc(i) ==> !TouchesCells(i)
  {
  }

  lemma StraightCells(i: Instr, s: nat, c: Cells)
    requires Straight(i)
    ensures c == AfterInstr(i, s, c, Entries(c.stk))
  {
    Untouched(i);
    hide Straight, TouchesCells, AfterInstr, Entries;
    RefillsSelf(c.stk);
    Refilled(i, s, c, c);
  }

  lemma LastingMore(was: seq<Moment>, now: seq<Moment>)
    requires was <= now
    ensures Lasting(was, now)
  {
  }

  class Matcher {
    const prog: Prog
    const cfg: Cfg
    const x: Subject
    const popLevel: PopLevel
    var p: int
    var s: nat
    var stk: seq<Slot>
    var repeatStk: map<nat, nat>
    var memStart: map<nat, Ref>
    var memEnd: map<nat, Ref>
    ghost var moments: seq<Moment>  // the capture cells at the push of each stack entry

    ghost function Control(): State
      reads this
    {
      Run(p, s, Entries(stk))
    }

    ghost function Failing(): State
      reads this
    {
      Fail(Entries(stk))
    }

    /** The capture cells and what the stack has saved of them. */
    ghost function NowCells(): Cells
      reads this
    {
      Cells(stk, memStart, memEnd)
    }

    ghost function After(failed: bool): State
      reads this
    {
      if failed then Failing() else Control()
    }

    /** The capture cells are what the stack says, and under every entry the stack says what they were when
        it was pushed. */
    ghost predicate Mem()
      reads this`stk, this`moments, this`memStart, this`memEnd
    {
      AllMem(stk, memStart, memEnd, Groups()) && Recorded(stk, moments, Groups())
    }

    /** The groups whose start and end are both undone. */
    ghost function Groups(): set<nat> { cfg.btMemStart * cfg.btMemEnd }

    constructor (prog: Prog, cfg: Cfg, x: Subject)
      ensures this.prog == prog && this.cfg == cfg && this.x == x
      ensures popLevel == PopLevelOf(|prog.ranges|, cfg.btMemStart, cfg.btMemEnd)
    {
      this.prog, this.cfg, this.x := prog, cfg, x;
      popLevel := PopLevelOf(|prog.ranges|, cfg.btMemStart, cfg.btMemEnd);
      p, s, stk, repeatStk, memStart, memEnd, moments := 0, 0, [], map[], map[], map[], [];
    }

    /** The beginning of match_at: cleared capture cells and the bottom entry. */
    method Start(s0: nat)
      requires Wired()
      modifies this
      ensures Valid() && Control() == StartState(s0)
      ensures NowCells() == Cells([Slot(BOTTOM, Invalid, Invalid)], map[], map[])
    {
      p, s := 0, s0;
      stk, repeatStk, memStart, memEnd, moments := [], map[], map[], map[], [];
      AllEmpty(memStart, memEnd, Groups());
      assert Mem() && Entries(stk) == [];
      BottomTabled(popLevel, prog.code);
      hide Mem, Wired, TableInv, KindsOk, Entries;
      Push(BOTTOM);
    }

    // ----- STACK_PUSH and its variants -----

    method Push(e: Entry)
      requires NoMem(e) && Mem()
      modifies this`stk, this`moments
      ensures Entries(stk) == old(Entries(stk)) + [e] && Mem()
      ensures stk == old(stk) + [Slot(e, Invalid, Invalid)] && moments == old(moments) + [Moment(memStart, memEnd)]
      ensures Refills(old(stk), stk)
      ensures Lasting(old(moments), moments)
    {
      var slot := Slot(e, Invalid, Invalid);
      EntriesPush(stk, slot);
      RecordPush(stk, slot, moments, memStart, memEnd, Groups());
      moments := moments + [Moment(memStart, memEnd)];
      AllPush(stk, slot, memStart, memEnd, Groups());
      stk := stk + [slot];
    }

    method PushMemStart(num: nat)
      requires Mem()
      modifies this`stk, this`moments, this`memStart, this`memEnd
      ensures Entries(stk) == old(Entries(stk)) + [MemStart(num, s)] && Mem()
      ensures NowCells() == AfterInstr(OpMemoryStartPush(num), s, old(NowCells()), Entries(stk))
      ensures moments == old(moments) + [Moment(old(memStart), old(memEnd))]
    {
      hide AllMem, Recorded, Entries;
      var slot := Slot(MemStart(num, s), Get(memStart, num), Get(memEnd, num));
      EntriesPush(stk, slot);
      AllPushStart(stk, num, s, memStart, memEnd, Groups());
      RecordPush(stk, slot, moments, memStart, memEnd, Groups());
      moments := moments + [Moment(memStart, memEnd)];
      memStart, memEnd := memStart[num := StackIndex(|stk|)], memEnd[num := Invalid];
      stk := stk + [slot];
    }

    method PushMemEnd(num: nat)
      requires Mem()
      modifies this`stk, this`moments, this`memEnd
      ensures Entries(stk) == old(Entries(stk)) + [MemEnd(num, s)] && Mem()
      ensures NowCells() == AfterInstr(OpMemoryEndPush(num), s, old(NowCells()), Entries(stk))
      ensures moments == old(moments) + [Moment(old(memStart), old(memEnd))]
    {
      hide AllMem, Recorded, Entries;
      var slot := Slot(MemEnd(num, s), Get(memStart, num), Get(memEnd, num));
      EntriesPush(stk, slot);
      AllPushEnd(stk, num, s, memStart, memEnd, Groups());
      RecordPush(stk, slot, moments, memStart, memEnd, Groups());
      moments := moments + [Moment(memStart, memEnd)];
      memEnd := memEnd[num := StackIndex(|stk|)];
      stk := stk + [slot];
    }

    /** Changes an entry in place; captures are not touched. */
    method SetEntry(k: nat, e: Entry)
      requires k < |stk| && NoMem(stk[k].e) && NoMem(e) && Mem()
      modifies this`stk
      ensures stk == old(stk)[k := old(stk)[k].(e := e)] && Mem() && Refills(old(stk), stk)
      ensures Entries(stk) == old(Entries(stk))[k := e]
    {
      ghost var was := stk;
      stk := stk[k := stk[k].(e := e)];
      AllSame(was, stk, memStart, memEnd, Groups());
      RecordSame(was, stk, moments, Groups());
      assert Entries(stk) == Entries(was)[k := e];
    }

    // ----- taking entries off -----

    /** Drops the top entry, and puts back what it has saved of a group. */
    method Drop()
      requires Mem() && stk != []
      modifies this`stk, this`moments, this`memStart, this`memEnd
      ensures Mem() && |stk| <= |old(moments)| && moments == old(moments)[..|stk|]
      ensures NowCells() == DropTop(old(NowCells()))
    {
      assert |moments| == |stk|;
      hide AllMem, Recorded;
      var t := stk[|stk| - 1];
      AllPop(stk, memStart, memEnd, Groups());
      RecordTake(stk, moments, |stk| - 1, Groups());
      stk, moments := stk[..|stk| - 1], moments[..|stk| - 1];
      if t.e.MemStart? || t.e.MemEnd? {
        memStart := memStart[t.e.num := t.start];
        memEnd := memEnd[t.e.num := t.end];
      }
    }

    method CountDown(k: nat)
      requires Mem() && k < |stk| && stk[k].e.Repeat?
      modifies this`stk
      ensures stk == old(stk)[k := old(stk[k]).(e := old(stk[k].e).(count := old(stk[k].e).count - 1))] && Mem()
    {
      CounterSlot(k, p, s, stk);
      hide *;
      SetEntry(k, stk[k].e.(count := stk[k].e.count - 1));
    }

    /** Drops the top entry and undoes what it records, as the pop macros do at level ALL. */
    method DropUndo()
      requires Mem() && Undoable(stk)
      modifies this`stk, this`moments, this`memStart, this`memEnd
      ensures stk == UndoSlots(old(stk)) && moments == old(moments)[..|stk|] && Mem()
      ensures NowCells() == Undone(old(NowCells()), Entries(stk))
    {
      UndoneSlots(NowCells());
      UndoSlotsIs(stk);
      DroppedStk(NowCells());
      hide Mem, Undone, Refills, Entries, UndoSlots, Undoable, DropTop;
      var t := stk[|stk| - 1].e;
      Drop();
      if t.RepeatInc? { CountDown(t.si); }
    }

    /** One round of STACK_POP: what the level looks for is undone, and nothing else needs to be. */
    method Unwind()
      requires Wired() && Mem() && Undoable(stk) && StackKinds(popLevel, Entries(stk))
      modifies this`stk, this`moments, this`memStart, this`memEnd
      ensures stk == UndoSlots(old(stk)) && moments == old(moments)[..|stk|] && Mem()
      ensures NowCells() == Undone(old(NowCells()), Entries(stk))
    {
      UndoneSlots(NowCells());
      assert Expected(popLevel, Entries(stk)[|stk| - 1]);
      match popLevel {
        case PopFree =>
          AllPop(stk, memStart, memEnd, Groups());
          RecordTake(stk, moments, |stk| - 1, Groups());
          stk, moments := stk[..|stk| - 1], moments[..|stk| - 1];
        case PopMemStart =>
          var t := stk[|stk| - 1];
          AllPop(stk, memStart, memEnd, Groups());
          RecordTake(stk, moments, |stk| - 1, Groups());
          stk, moments := stk[..|stk| - 1], moments[..|stk| - 1];
          if t.e.MemStart? {
            memStart := memStart[t.e.num := t.start];
            memEnd := memEnd[t.e.num := t.end];
          }
        case PopAll => DropUndo();
      }
    }

    ghost predicate Wired() {
      ProgOk(Image(prog, cfg)) && !prog.rec && popLevel == PopLevelOf(|prog.ranges|, cfg.btMemStart, cfg.btMemEnd)
    }

    /** The tables agree with a control state. */
    ghost predicate Tabled(st: State)
      reads this
    {
      TableInv(prog.code, st, repeatStk) && KindsOk(popLevel, st)
    }

    ghost predicate Valid()
      reads this
    {
      Wired() && Mem() && Tabled(Control())
    }

    lemma PopTabled()
      requires Wired() && Tabled(Failing())
      ensures Tabled(PopOne(Entries(stk))) && StackKinds(popLevel, Entries(stk))
    {
      var st := Failing();
      StepTable(Image(prog, cfg), x, st, repeatStk);
      StepKinds(Image(prog, cfg), x, st);
    }

    /** The loop of STACK_POP. */
    method UnwindToChoice(ghost n: nat, ghost goal: State) returns (ghost n': nat)
      requires Wired() && Mem() && Tabled(Failing())
      requires Steps(prog, x, Failing(), n) == goal && !goal.Stuck? && !goal.Fail?
      modifies this`stk, this`moments, this`memStart, this`memEnd
      ensures Mem() && Tabled(Failing()) && n' <= n && Steps(prog, x, Failing(), n') == goal
      ensures stk != [] && PopUsed(stk[|stk| - 1].e) && Unwound(old(stk), stk)
      ensures |stk| <= |old(moments)| && moments == old(moments)[..|stk|]
      ensures Follows(prog, x, old(Failing()), old(NowCells()), n - n', Failing(), NowCells())
    {
      hide Steps, Step, TableInv, KindsOk, AllMem, Recorded, Unwound, Entries, UndoSlots, Undoable, Wired, Undone;
      hide CellsSteps, CellsStep, Follows;
      n' := n;
      ghost var was := stk;
      FollowsNone(prog, x, Failing(), NowCells());
      UnwoundSelf(stk);
      RecordLen(stk, moments, Groups());
      PopsOn(prog, x, Entries(stk), n', goal);
      while !PopUsed(stk[|stk| - 1].e)
        invariant stk != [] && Mem() && Tabled(Failing()) && Unwound(was, stk)
        invariant 0 < n' <= n && Steps(prog, x, Failing(), n') == goal
        invariant |stk| <= |old(moments)| && moments == old(moments)[..|stk|]
        invariant Follows(prog, x, old(Failing()), old(NowCells()), n - n', Failing(), NowCells())
        decreases n'
      {
        PopsOn(prog, x, Entries(stk), n', goal);
        PopTabled();
        PopsUndo(stk);
        UnwoundMore(was, stk);
        ghost var st, c := Failing(), NowCells();
        Unwind();
        FollowsFail(prog, x, st.stk, c, Failing(), NowCells());
        FollowsTrans(prog, x, old(Failing()), old(NowCells()), n - n', st, c, 1, Failing(), NowCells());
        n' := n' - 1;
        PopsOn(prog, x, Entries(stk), n', goal);
      }
    }

    /** STACK_POP: back to the last choice point, whose height is h. The capture cells of a group
        with both undo bits get the values they had when that choice point was pushed. */
    method StackPop(ghost n: nat, ghost goal: State) returns (ghost h: nat, ghost n': nat)
      requires Wired() && Mem() && Tabled(Failing())
      requires Steps(prog, x, Failing(), n) == goal && !goal.Stuck? && !goal.Fail?
      modifies this`p, this`s, this`stk, this`moments, this`memStart, this`memEnd
      ensures Valid() && n' < n && Steps(prog, x, Control(), n') == goal
      ensures h < old(|stk|) && PopUsed(old(stk)[h].e) && forall i :: h < i < old(|stk|) ==> !PopUsed(old(stk)[i].e)
      ensures |stk| == h && p == old(stk)[h].e.pcode && s == old(stk)[h].e.pstr
      ensures |old(moments)| == old(|stk|) && moments == old(moments)[..h]
      ensures Follows(prog, x, old(Failing()), old(NowCells()), n - n', Control(), NowCells())
      ensures forall k :: k in Groups() ==>
                Get(memStart, k) == Get(old(moments)[h].start, k) && Get(memEnd, k) == Get(old(moments)[h].end, k)
    {
      hide Steps, Step, TableInv, KindsOk, AllMem, Recorded, Wired, Entries, Unwound, PopOne, LastMem, Follows;
      hide CellsSteps, CellsStep, Undone;
      ghost var was := stk;
      n' := UnwindToChoice(n, goal);
      ghost var st, c := Failing(), NowCells();
      ChoiceCells(prog, x, NowCells());
      h := |stk| - 1;
      PopTabled();
      PopsOn(prog, x, Entries(stk), n', goal);
      ChoiceIs(stk);
      AllPop(stk, memStart, memEnd, Groups());
      EntriesTake(stk, h);
      UnwoundTop(was, stk);
      var top := stk[|stk| - 1].e;
      RecordTake(stk, moments, h, Groups());
      p, s, stk, moments := top.pcode, top.pstr, stk[..|stk| - 1], moments[..h];
      FollowsTrans(prog, x, old(Failing()), old(NowCells()), n - n', st, c, 1, Control(), NowCells());
      n' := n' - 1;
      RestoredMem(was, h);
      RecordAt(was, old(moments), h, Groups());
    }

    /** STACK_POP_TIL_POS_NOT, STACK_POP_TIL_LOOK_BEHIND_NOT: undo down to the mark, at every level. */
    method PopTilMark(m: Mark)
      requires Mem() && PopTil(Entries(stk), m).Some?
      modifies this`stk, this`moments, this`memStart, this`memEnd
      ensures Entries(stk) == PopTil(old(Entries(stk)), m).value && Mem()
      ensures NowCells() == Undone(old(NowCells()), Entries(stk))
      ensures Lasting(old(moments), moments)
    {
      ghost var was := NowCells();
      UndoneNone(was);
      SameWhole(stk);
      hide AllMem, Recorded, PopTil, Undoable, UndoSlots, Entries, Undone, DropTo, SameMem, Refill, Refills;
      RecordLen(stk, moments, Groups());
      TilStep(stk, m);
      while !IsMark(stk[|stk| - 1].e, m)
        invariant |stk| <= |old(moments)| && moments == old(moments)[..|stk|]
        invariant stk != [] && Mem() && PopTil(Entries(stk), m) == PopTil(old(Entries(stk)), m)
        invariant |stk| <= |was.stk| && SameMem(stk, was.stk[..|stk|]) && NowCells() == Undone(was, Entries(stk))
        decreases |stk|
      {
        TilStep(stk, m);
        ghost var mid := NowCells();
        DropUndo();
        UndoneMore(was, mid, Entries(stk));
        SameBelow(was.stk, mid.stk);
        TilStep(stk, m);
      }
      TilStep(stk, m);
      AllPop(stk, memStart, memEnd, Groups());
      assert NoMem(stk[|stk| - 1].e);
      RecordTake(stk, moments, |stk| - 1, Groups());
      ghost var mid := NowCells();
      UndoneMore(was, mid, Entries(stk[..|stk| - 1]));
      UndoneMark(mid);
      stk, moments := stk[..|stk| - 1], moments[..|stk| - 1];
    }

    /** STACK_POS_END, STACK_STOP_BT_END: blanks the mark and the choice points above it in place. */
    method VoidToMark(m: Mark) returns (mark: Entry)
      requires Mem() && VoidTo(Entries(stk), m).Some? && (m.MarkPos? || m.MarkStopBt?)
      modifies this`stk
      ensures Some((Entries(stk), mark)) == VoidTo(old(Entries(stk)), m) && Mem() && Refills(old(stk), stk)
    {
      ghost var was := Entries(stk);
      ghost var goal := VoidTo(was, m).value;
      ScanStart(was, m, goal);
      RefillsSelf(stk);
      hide VoidTo, AllMem, Recorded, Entries, Scan, Refills;
      var k := |stk| - 1;
      while ToVoidTarget(stk[k].e) || !IsMark(stk[k].e, m)
        invariant 0 <= k < |stk| == old(|stk|) && Mem() && Scan(was, Entries(stk), m, goal, k)
        invariant Refills(old(stk), stk)
        decreases k
      {
        ghost var now, mid := Entries(stk), stk;
        if ToVoidTarget(stk[k].e) {
          SetEntry(k, Void);
          RefillsTrans(old(stk), mid, stk);
        }
        ScanStep(was, now, Entries(stk), m, goal, k);
        k := k - 1;
      }
      mark := stk[k].e;
      ScanEnd(was, Entries(stk), m, goal, k);
      ghost var mid := stk;
      SetEntry(k, Void);
      RefillsTrans(old(stk), mid, stk);
    }

    // ----- searches of the stack -----

    /** STACK_GET_REPEAT */
    method GetRepeat(id: nat) returns (k: nat)
      requires FindRepeat(Entries(stk), id).Some?
      ensures Some(k) == FindRepeat(Entries(stk), id)
    {
      hide FindRepeat, FindNullCheck, Entries;
      ghost var es := Entries(stk);
      assert es[..|stk|] == es;
      FindNone(es, id);
      k := |stk| - 1;
      FindStep(es, id, k);
      while !stk[k].e.Repeat? || stk[k].e.num != id
        invariant k < |stk| && FindRepeat(es[..k + 1], id) == FindRepeat(es, id)
        invariant FindRepeat(es[..k + 1], id) == if es[k].Repeat? && es[k].num == id then Some(k)
                  else FindRepeat(es[..k], id)
        decreases k
      {
        k := k - 1;
        FindStep(es, id, k);
      }
    }

    /** STACK_NULL_CHECK */
    method NullCheck(id: nat) returns (isnull: bool)
      requires FindNullCheck(Entries(stk), id).Some?
      ensures isnull == (FindNullCheck(Entries(stk), id).value == s)
    {
      hide FindRepeat, FindNullCheck, Entries;
      ghost var es := Entries(stk);
      assert es[..|stk|] == es;
      FindNone(es, id);
      var k: nat := |stk| - 1;
      FindStep(es, id, k);
      while !stk[k].e.NullCheckStart? || stk[k].e.num != id
        invariant k < |stk| && FindNullCheck(es[..k + 1], id) == FindNullCheck(es, id)
        invariant FindNullCheck(es[..k + 1], id) ==
                  if es[k].NullCheckStart? && es[k].num == id then Some(es[k].pstr) else FindNullCheck(es[..k], id)
        decreases k
      {
        k := k - 1;
        FindStep(es, id, k);
      }
      isnull := stk[k].e.pstr == s;
    }

    // ----- the instructions; p is already behind the operands -----

    /** The comparison loop of OP_EXACTN. */
    method MatchString(str: seq<byte>) returns (failed: bool)
      requires s + |str| <= |x.text|
      modifies this`s
      ensures failed == !HasAt(x, old(s), str) && (!failed ==> s == old(s) + |str|)
    {
      ghost var from := s;
      var k := 0;
      failed := false;
      while k < |str|
        invariant k <= |str| && s == from + k && x.text[from..from + k] == str[..k]
      {
        if str[k] != x.text[s] {
          assert x.text[from..from + |str|][k] == x.text[s];
          failed := true;
          return;
        }
        assert x.text[from..from + k + 1] == x.text[from..from + k] + [str[k]] && str[..k + 1] == str[..k] + [str[k]];
        k, s := k + 1, s + 1;
      }
      assert str[..k] == str;
    }

    method ExecString(i: Instr) returns (failed: bool)
      requires i.OpExact1? || i.OpExactK? || i.OpExactN?
      modifies this`s
      ensures After(failed) == Exec(prog, x, i, p, old(s), Entries(stk))
    {
      if i.OpExact1? {
        if ReadByte(x, s) != i.c { failed := true; return; }
        s := s + 1;
        failed := s > |x.text|;
      } else {
        if s + |i.s| > |x.text| { failed := true; return; }
        failed := MatchString(i.s);
      }
    }

    /** OP_CCLASS and its variants, OP_ANYCHAR, OP_WORD, OP_NOT_WORD. */
    method ExecChar(i: Instr) returns (failed: bool)
      requires i.OpCClass? || i.OpCClassNot? || i.OpCClassMb? || i.OpCClassMbNot? || i.OpCClassMix?
               || i.OpCClassMixNot? || i.OpCClassNode?
            || i.OpAnyChar? || i.OpWord? || i.OpNotWord?
      modifies this`s
      ensures After(failed) == Exec(prog, x, i, p, old(s), Entries(stk))
    {
      if s >= |x.text| { failed := true; return; }
      var c := x.text[s];
      match i {
        case OpCClass(bs) => failed := c !in bs;
        case OpCClassNot(bs) => failed := c in bs;
        case OpCClassMb(_) => failed := true;
        case OpCClassMbNot(_) => failed := false;
        case OpCClassMix(bs, _) => failed := c !in bs;
        case OpCClassMixNot(bs, _) => failed := c in bs;
        case OpCClassNode(bs, neg) => failed := (c in bs) == neg;
        case OpAnyChar(ml) => failed := !ml && c == NEWLINE;
        case OpWord => failed := !IsWord(c);
        case OpNotWord => failed := IsWord(c);
      }
      if !failed { s := s + 1; }
    }

    method ExecAnchor(i: Instr) returns (failed: bool)
      requires i.OpBeginBuf? || i.OpEndBuf? || i.OpEndLine? || i.OpSemiEndBuf? || i.OpBeginPosition?
      ensures After(failed) == Exec(prog, x, i, p, s, Entries(stk))
    {
      match i {
        case OpBeginBuf => failed := s != 0;
        case OpEndBuf => failed := s != |x.text|;
        case OpEndLine =>
          if s == |x.text| { failed := x.notEol; }
          else { failed := s > |x.text| || x.text[s] != NEWLINE; }
        case OpSemiEndBuf =>
          if s == |x.text| { failed := x.notEol; }
          else { failed := s > |x.text| || x.text[s] != NEWLINE || s + 1 != |x.text|; }
        case OpBeginPosition => failed := s != x.start;
      }
    }

    method ExecMem(i: Instr)
      requires Mem() && MemBits(cfg, i) && !prog.rec
      requires i.OpMemoryStart? || i.OpMemoryStartPush? || i.OpMemoryEnd? || i.OpMemoryEndPush?
      modifies this`stk, this`moments, this`memStart, this`memEnd
      ensures Control() == Exec(prog, x, i, p, s, old(Entries(stk))) && Mem()
      ensures NowCells() == AfterInstr(i, s, old(NowCells()), Entries(stk))
      ensures Lasting(old(moments), moments)
    {
      match i {
        case OpMemoryStartPush(n) => PushMemStart(n);
        case OpMemoryEndPush(n) => PushMemEnd(n);
        case OpMemoryStart(n) =>
          AllRaw(stk, n, Position(s), memStart, memEnd, Groups());
          memStart := memStart[n := Position(s)];
        case OpMemoryEnd(n) =>
          AllRaw(stk, n, Position(s), memStart, memEnd, Groups());
          memEnd := memEnd[n := Position(s)];
      }
    }

    method ExecJump(i: Instr)
      requires Mem() && (i.OpJump? || i.OpPush? || i.OpPushOrJumpExact1? || i.OpPushIfPeekNext?)
      modifies this`p, this`stk, this`moments
      ensures Control() == Exec(prog, x, i, old(p), s, old(Entries(stk))) && Mem() && Refills(old(stk), stk)
      ensures Lasting(old(moments), moments)
    {
      hide AllMem, Recorded, Lasting, Entries;
      LastingSelf(moments);
      JumpExec(prog, x, i, p, s, Entries(stk));
      hide Exec;
      match i {
        case OpJump(addr) => p := p + addr;
        case OpPush(addr) => Push(StkAlt(p + addr, s));
        case OpPushOrJumpExact1(addr, c) =>
          if ReadByte(x, s) == c && s + 1 <= |x.text| {
            Push(StkAlt(p + addr, s));
          } else {
            p := p + addr;
          }
        case OpPushIfPeekNext(addr, c) =>
          if ReadByte(x, s) == c { Push(StkAlt(p + addr, s)); }
      }
    }

    /** OP_POP */
    method PopChoice()
      requires Mem() && stk != [] && stk[|stk| - 1].e.StkAlt?
      modifies this`stk, this`moments
      ensures Entries(stk) == old(Entries(stk))[..old(|stk|) - 1] && Mem() && Refills(old(stk), stk)
      ensures Lasting(old(moments), moments)
    {
      EntriesTake(stk, |stk| - 1);
      AllPop(stk, memStart, memEnd, Groups());
      RecordTake(stk, moments, |stk| - 1, Groups());
      stk, moments := stk[..|stk| - 1], moments[..|stk| - 1];
    }

    /** OP_ANYCHAR_STAR, OP_ANYCHAR_STAR_PEEK_NEXT */
    method ExecStar(ml: bool, peek: Option<byte>) returns (failed: bool)
      requires Mem()
      modifies this`s, this`stk, this`moments
      ensures After(failed) == StarLoop(x, ml, peek, p, old(s), old(Entries(stk))) && Mem() && Refills(old(stk), stk)
      ensures Lasting(old(moments), moments)
    {
      hide AllMem, Recorded, Entries;
      while s < |x.text|
        invariant old(moments) <= moments && old(|stk|) <= |stk| && Refills(old(stk), stk)
        invariant Mem() && StarLoop(x, ml, peek, p, s, Entries(stk)) ==
                  StarLoop(x, ml, peek, p, old(s), old(Entries(stk)))
        decreases |x.text| - s
      {
        if peek.None? || peek.value == x.text[s] { Push(StkAlt(p, s)); }
        if !ml && x.text[s] == NEWLINE { failed := true; return; }
        s := s + 1;
      }
      failed := false;
    }

    /** OP_REPEAT, OP_REPEAT_NG */
    method ExecRepeat(id: nat, greedy: bool, addr: int)
      requires Mem() && id < |prog.ranges|
      modifies this`p, this`stk, this`moments, this`repeatStk
      ensures Control() == Machine.ExecRepeat(prog, id, greedy, addr, old(p), s, old(Entries(stk))) && Mem()
      ensures Refills(old(stk), stk)
      ensures repeatStk == old(repeatStk)[id := old(|stk|)]
      ensures Lasting(old(moments), moments)
    {
      hide AllMem, Recorded, Entries;
      repeatStk := repeatStk[id := |stk|];
      Push(Repeat(0, p, id));
      if prog.ranges[id].lower == 0 {
        if greedy {
          Push(StkAlt(p + addr, s));
        } else {
          Push(StkAlt(p, s));
          p := p + addr;
        }
      }
    }

    method PushOne(e: Entry)
      requires NoMem(e) && Mem()
      modifies this`stk, this`moments
      ensures Entries(stk) == old(Entries(stk)) + [e] && Mem()
      ensures Refills(old(stk), stk) && old(moments) <= moments
    {
      hide *;
      Push(e);
    }

    method CountUp(k: nat)
      requires Mem() && k < |stk| && stk[k].e.Repeat?
      modifies this`stk
      ensures CounterAt(old(Entries(stk)), k) && Entries(stk) == Upped(old(Entries(stk)), k) && Mem()
      ensures |stk| == |old(stk)|
      ensures Refills(old(stk), stk)
    {
      CounterSlot(k, p, s, stk);
      hide *;
      SetEntry(k, stk[k].e.(count := stk[k].e.count + 1));
    }

    method PushBoth(a: Entry, b: Entry)
      requires NoMem(a) && NoMem(b) && Mem()
      modifies this`stk, this`moments
      ensures Entries(stk) == old(Entries(stk)) + [a] + [b] && Mem()
      ensures Refills(old(stk), stk) && old(moments) <= moments
    {
      hide *;
      Push(a);
      ghost var was := stk;
      Push(b);
      RefillsTrans(old(stk), was, stk);
    }

    /** The common part of the greedy increments; k is the index of the counter. */
    method RepeatGreedy(id: nat, k: nat)
      requires Mem() && id < |prog.ranges| && k < |stk| && stk[k].e.Repeat?
      modifies this`p, this`stk, this`moments
      ensures Control() == IncGreedy(prog.ranges[id], k, old(p), s, old(Entries(stk))) && Mem()
      ensures Refills(old(stk), stk)
      ensures Lasting(old(moments), moments)
    {
      CounterSlot(k, p, s, stk);
      var count, back := stk[k].e.count, stk[k].e.pcode;
      GreedyIs(prog.ranges[id], k, p, s, Entries(stk), count, back);
      hide IncGreedy, IncLazy, Entries, Refills, Lasting, NoMem, Mem, Upped, CounterAt;
      CountUp(k);
      ghost var was := stk;
      if count + 1 >= prog.ranges[id].upper {
        PushOne(RepeatInc(k));
      } else if count + 1 >= prog.ranges[id].lower {
        var q := p;
        p := back;
        PushBoth(StkAlt(q, s), RepeatInc(k));
      } else {
        p := back;
        PushOne(RepeatInc(k));
      }
      RefillsTrans(old(stk), was, stk);
      LastingMore(old(moments), moments);
    }

    /** The common part of the lazy increments. */
    method RepeatLazy(id: nat, k: nat)
      requires Mem() && id < |prog.ranges| && k < |stk| && stk[k].e.Repeat?
      requires IncLazy(prog.ranges[id], k, p, s, Entries(stk)) != Stuck
      modifies this`p, this`stk, this`moments
      ensures Control() == IncLazy(prog.ranges[id], k, old(p), s, old(Entries(stk))) && Mem()
      ensures Refills(old(stk), stk)
      ensures Lasting(old(moments), moments)
    {
      CounterSlot(k, stk[k].e.pcode, s, stk);
      var count, back := stk[k].e.count, stk[k].e.pcode;
      LazyIs(prog.ranges[id], k, p, s, Entries(stk), count, back);
      hide IncGreedy, IncLazy, Entries, Refills, Lasting, NoMem, Mem, Upped, CounterAt;
      CountUp(k);
      ghost var was := stk;
      if count + 1 < prog.ranges[id].upper {
        if count + 1 >= prog.ranges[id].lower {
          PushBoth(RepeatInc(k), StkAlt(back, s));
        } else {
          p := back;
          PushOne(RepeatInc(k));
        }
      } else if count + 1 == prog.ranges[id].upper {
        PushOne(RepeatInc(k));
      }
      RefillsTrans(old(stk), was, stk);
      LastingMore(old(moments), moments);
    }

    /** OP_REPEAT_INC and its variants: the counter comes from the table, or from a search (SG). */
    method ExecInc(i: Instr, ghost at: int)
      requires Mem() && CounterInc(i) && Wired() && At(prog.code, at) && prog.code[at].i == i
      requires TableStk(prog.code, Entries(stk), repeatStk)
      requires Machine.ExecInc(prog, CounterId(i), i.OpRepeatInc? || i.OpRepeatIncSg?, p, s, Entries(stk)) != Stuck
      modifies this`p, this`stk, this`moments
      ensures Control() == Machine.ExecInc(prog, CounterId(i), i.OpRepeatInc?
              || i.OpRepeatIncSg?, old(p), s, old(Entries(stk))) && Mem() && Refills(old(stk), stk)
      ensures Lasting(old(moments), moments)
    {
      hide AllMem, Recorded, FindRepeat, ProgOk, TableStk;
      var id := CounterId(i);
      var k: nat;
      if TableInc(i) {
        TableFinds(Image(prog, cfg), at, Entries(stk), repeatStk);
        k := repeatStk[id];
      } else {
        k := GetRepeat(id);
      }
      if i.OpRepeatInc? || i.OpRepeatIncSg? { RepeatGreedy(id, k); } else { RepeatLazy(id, k); }
    }

    method ExecNullEnd(id: nat)
      requires Mem() && ExecNullCheckEnd(prog, id, p, s, Entries(stk)) != Stuck
      modifies this`p
      ensures Control() == ExecNullCheckEnd(prog, id, old(p), s, Entries(stk))
    {
      hide FindNullCheck, Entries;
      var isnull := NullCheck(id);
      if isnull {
        match Fetch(prog, p).value {
          case OpJump(_) => p := p + SIZE_OP_JUMP;
          case OpPush(_) => p := p + SIZE_OP_PUSH;
          case OpRepeatInc(_) => p := p + SIZE_OP_REPEAT_INC;
          case OpRepeatIncNg(_) => p := p + SIZE_OP_REPEAT_INC;
          case OpRepeatIncSg(_) => p := p + SIZE_OP_REPEAT_INC;
          case OpRepeatIncNgSg(_) => p := p + SIZE_OP_REPEAT_INC;
        }
      }
    }

    /** Look-ahead: opening, and closing by blanking or undoing. */
    method ExecAhead(i: Instr) returns (failed: bool)
      requires Mem() && Exec(prog, x, i, p, s, Entries(stk)) != Stuck
      requires i.OpPushPos? || i.OpPopPos? || i.OpPushPosNot? || i.OpFailPos?
      modifies this`s, this`stk, this`moments, this`memStart, this`memEnd
      ensures After(failed) == Exec(prog, x, i, p, old(s), old(Entries(stk))) && Mem()
      ensures NowCells() == AfterInstr(i, old(s), old(NowCells()), Entries(stk))
      ensures Lasting(old(moments), moments)
    {
      hide AllMem, Recorded, Lasting, Entries, VoidTo, PopTil, Undone, Refill;
      LastingSelf(moments);
      AheadExec(prog, x, i, p, s, Entries(stk));
      hide Exec;
      failed := false;
      match i {
        case OpPushPos => Push(Pos(s));
        case OpPopPos =>
          var mark := VoidToMark(MarkPos);
          s := mark.pstr;
        case OpPushPosNot(addr) => Push(StkPosNot(p + addr, s));
        case OpFailPos =>
          PopTilMark(MarkPosNot);
          failed := true;
          return;
      }
      RefillIs(old(stk), stk);
    }

    method ExecAtomic(i: Instr)
      requires Mem() && Exec(prog, x, i, p, s, Entries(stk)) != Stuck && (i.OpPushStopBt? || i.OpPopStopBt?)
      modifies this`stk, this`moments
      ensures Control() == Exec(prog, x, i, p, s, old(Entries(stk))) && Mem() && Refills(old(stk), stk)
      ensures Lasting(old(moments), moments)
    {
      hide AllMem, Recorded, Lasting, Entries, VoidTo;
      LastingSelf(moments);
      if i.OpPushStopBt? {
        Push(StopBt);
      } else {
        var mark := VoidToMark(MarkStopBt);
      }
    }

    method ExecBehind(i: Instr) returns (failed: bool)
      requires Mem() && Exec(prog, x, i, p, s, Entries(stk)) != Stuck
      requires i.OpLookBehind? || i.OpPushLookBehindNot? || i.OpFailLookBehindNot?
      modifies this`p, this`s, this`stk, this`moments, this`memStart, this`memEnd
      ensures After(failed) == Exec(prog, x, i, old(p), old(s), old(Entries(stk))) && Mem()
      ensures NowCells() == AfterInstr(i, old(s), old(NowCells()), Entries(stk))
      ensures Lasting(old(moments), moments)
    {
      BehindExec(prog, x, i, p, s, Entries(stk));
      hide AllMem, Recorded, Lasting, Entries, PopTil, Undone, Refill, Exec;
      LastingSelf(moments);
      failed := false;
      match i {
        case OpLookBehind(n) =>
          if s < n {
            failed := true;
          } else {
            s := s - n;
          }
        case OpPushLookBehindNot(addr, n) =>
          if s < n {
            p := p + addr;
          } else {
            Push(StkLookBehindNot(p + addr, s));
            s := s - n;
          }
        case OpFailLookBehindNot =>
          PopTilMark(MarkLookBehindNot);
          failed := true;
          return;
      }
      RefillIs(old(stk), stk);
    }

    // ----- the switch -----

    method ExecStraight(i: Instr) returns (failed: bool)
      requires Straight(i) && i != OpEnd && i != OpFinish && Mem()
      modifies this`s
      ensures Mem()
      ensures After(failed) == Exec(prog, x, i, p, old(s), Entries(stk))
      ensures NowCells() == AfterInstr(i, old(s), old(NowCells()), Entries(stk))
    {
      StraightCells(i, s, NowCells());
      hide Exec, Straight, AfterInstr, After, Entries;
      failed := ExecText(i);
    }

    method ExecText(i: Instr) returns (failed: bool)
      requires Straight(i) && i != OpEnd && i != OpFinish
      modifies this`s
      ensures After(failed) == Exec(prog, x, i, p, old(s), Entries(stk))
    {
      hide Exec, Entries;
      if i.OpExact1? || i.OpExactK? || i.OpExactN? {
        failed := ExecString(i);
      } else if i.OpBeginBuf? || i.OpEndBuf? || i.OpEndLine? || i.OpSemiEndBuf? || i.OpBeginPosition? {
        failed := ExecAnchor(i);
      } else {
        failed := ExecChar(i);
      }
    }

    method ExecDot(i: Instr) returns (failed: bool)
      requires Mem() && (i.OpAnyCharStar? || i.OpAnyCharStarPeekNext?)
      modifies this`s, this`stk, this`moments
      ensures After(failed) == Exec(prog, x, i, p, old(s), old(Entries(stk))) && Mem() && Refills(old(stk), stk)
      ensures Lasting(old(moments), moments)
    {
      hide AllMem, Recorded, Lasting, Entries, StarLoop;
      failed := ExecStar(i.ml, if i.OpAnyCharStar? then None else Some(i.c));
    }

    method ExecNull(i: Instr)
      requires Mem() && (i.OpNullCheckStart? || i.OpNullCheckEnd? || i.OpPop?)
      requires Exec(prog, x, i, p, s, Entries(stk)) != Stuck
      modifies this`p, this`stk, this`moments
      ensures Control() == Exec(prog, x, i, old(p), s, old(Entries(stk))) && Mem() && Refills(old(stk), stk)
      ensures Lasting(old(moments), moments)
    {
      hide AllMem, Recorded, Lasting, Entries, FindNullCheck;
      LastingSelf(moments);
      match i {
        case OpNullCheckStart(id) => Push(NullCheckStart(id, s));
        case OpNullCheckEnd(id) => ExecNullEnd(id);
        case OpPop => PopChoice();
      }
    }

    method ExecCounter(i: Instr, ghost at: int)
      requires Wired() && Mem() && At(prog.code, at) && prog.code[at].i == i
               && TableStk(prog.code, Entries(stk), repeatStk)
      requires Exec(prog, x, i, p, s, Entries(stk)) != Stuck && (OpensCounter(i) || CounterInc(i))
      modifies this`p, this`stk, this`moments, this`repeatStk
      ensures After(false) == Exec(prog, x, i, old(p), old(s), old(Entries(stk))) && Mem()
      ensures NowCells() == AfterInstr(i, old(s), old(NowCells()), Entries(stk))
      ensures repeatStk == if OpensCounter(i) then old(repeatStk)[CounterId(i) := old(|stk|)] else old(repeatStk)
      ensures Lasting(old(moments), moments)
    {
      Untouched(i);
      hide AllMem, Recorded, Lasting, Entries, TableStk, FindRepeat, ProgOk, IncGreedy, IncLazy, Refill, Refills;
      hide AfterInstr;
      ghost var c := NowCells();
      if OpensCounter(i) {
        ExecRepeat(i.id, i.OpRepeat?, i.addr);
      } else {
        ExecInc(i, at);
      }
      Refilled(i, s, c, NowCells());
    }

    /** One round of the main loop, up to a goto fail. */
    method ExecInstr(i: Instr, ghost at: int) returns (failed: bool)
      requires Wired() && Mem() && At(prog.code, at) && prog.code[at].i == i
               && TableStk(prog.code, Entries(stk), repeatStk)
      requires Exec(prog, x, i, p, s, Entries(stk)) != Stuck && i != OpEnd && i != OpFinish
      modifies this`p, this`s, this`stk, this`moments, this`memStart, this`memEnd, this`repeatStk
      ensures After(failed) == Exec(prog, x, i, old(p), old(s), old(Entries(stk))) && Mem()
      ensures NowCells() == AfterInstr(i, old(s), old(NowCells()), Entries(stk))
      ensures repeatStk == if OpensCounter(i) then old(repeatStk)[CounterId(i) := old(|stk|)] else old(repeatStk)
      ensures Lasting(old(moments), moments)
    {
      MemBitsAt(at);
      MemstStuck(prog, x, i, p, s, Entries(stk));
      NotNoting();
      hide *;
      if OpensCounter(i) || CounterInc(i) {
        ExecCounter(i, at);
        failed := false;
      } else {
        failed := ExecPlain(i);
      }
    }

    /** The instructions other than counters. */
    method ExecPlain(i: Instr) returns (failed: bool)
      requires Mem() && MemBits(cfg, i) && !prog.rec
      requires !OpensCounter(i) && !CounterInc(i) && !i.OpNullCheckEndMemst?
      requires Exec(prog, x, i, p, s, Entries(stk)) != Stuck && i != OpEnd && i != OpFinish
      modifies this`p, this`s, this`stk, this`moments, this`memStart, this`memEnd
      ensures After(failed) == Exec(prog, x, i, old(p), old(s), old(Entries(stk))) && Mem()
      ensures NowCells() == AfterInstr(i, old(s), old(NowCells()), Entries(stk))
      ensures Lasting(old(moments), moments)
    {
      hide *;
      LastingSelf(moments);
      if Straight(i) { failed := ExecStraight(i); } else { failed := ExecOther(i); }
    }

    /** The instructions that rework the stack, other than counters. */
    method ExecOther(i: Instr) returns (failed: bool)
      requires Mem() && MemBits(cfg, i) && !prog.rec
      requires !Straight(i) && !OpensCounter(i) && !CounterInc(i) && !i.OpNullCheckEndMemst?
      requires Exec(prog, x, i, p, s, Entries(stk)) != Stuck && i != OpEnd && i != OpFinish
      modifies this`p, this`s, this`stk, this`moments, this`memStart, this`memEnd
      ensures After(failed) == Exec(prog, x, i, old(p), old(s), old(Entries(stk))) && Mem()
      ensures NowCells() == AfterInstr(i, old(s), old(NowCells()), Entries(stk))
      ensures Lasting(old(moments), moments)
    {
      hide AllMem, Recorded, Lasting, Entries, Exec, MemBits, AfterInstr, Refill, Refills;
      LastingSelf(moments);
      failed := false;
      if i.OpAnyCharStar? || i.OpAnyCharStarPeekNext? {
        failed := ExecDot(i);
        Refilled(i, old(s), old(NowCells()), NowCells());
      } else if i.OpMemoryStart? || i.OpMemoryStartPush? || i.OpMemoryEnd? || i.OpMemoryEndPush? {
        ExecMem(i);
      } else if i.OpNullCheckStart? || i.OpNullCheckEnd? || i.OpPop? {
        ExecNull(i);
        Refilled(i, old(s), old(NowCells()), NowCells());
      } else if i.OpPushPos? || i.OpPopPos? || i.OpPushPosNot? || i.OpFailPos? {
        failed := ExecAhead(i);
      } else if i.OpPushStopBt? || i.OpPopStopBt? {
        ExecAtomic(i);
        Refilled(i, old(s), old(NowCells()), NowCells());
      } else if i.OpLookBehind? || i.OpPushLookBehindNot? || i.OpFailLookBehindNot? {
        failed := ExecBehind(i);
      } else {
        ExecJump(i);
        Refilled(i, old(s), old(NowCells()), NowCells());
      }
    }

    /** What one instruction leaves behind, tables included. */
    lemma NextTabled(i: Instr, k: nat, goal: State)
      requires Wired() && Tabled(Control()) && Fetch(prog, p) == Some(i) && i != OpFinish
      requires Steps(prog, x, Control(), k) == goal && k > 0 && !goal.Stuck?
      ensures At(prog.code, p) && prog.code[p].i == i && TableStk(prog.code, Entries(stk), repeatStk)
      ensures var st := Exec(prog, x, i, p + Size(i), s, Entries(stk));
              && st != Stuck && Steps(prog, x, st, k - 1) == goal && KindsOk(popLevel, st)
              && TableInv(prog.code, st, if OpensCounter(i) then repeatStk[CounterId(i) := |stk|] else repeatStk)
    {
      hide TableStk, TableAt, StackKinds, ProgOk, Exec, Steps, PopLevelOf, KindsOk, Entries;
      var st := Control();
      RunsOn(prog, x, st, k, goal);
      StepTable(Image(prog, cfg), x, st, repeatStk);
      StepKinds(Image(prog, cfg), x, st);
    }

    /** One round of the main loop, with the backtracking a failure calls for. */
    method Round(i: Instr, ghost k: nat, ghost goal: State) returns (ghost k': nat)
      requires Valid() && Fetch(prog, p) == Some(i) && i != OpEnd && i != OpFinish
      requires Steps(prog, x, Control(), k) == goal && k > 0 && !goal.Stuck? && !goal.Fail?
      modifies this`p, this`s, this`stk, this`moments, this`memStart, this`memEnd, this`repeatStk
      ensures Valid() && k' < k && Steps(prog, x, Control(), k') == goal
      ensures Follows(prog, x, old(Control()), old(NowCells()), k - k', Control(), NowCells())
      ensures Lasting(old(moments), moments)
    {
      hide AllMem, Recorded, Entries, TableInv, KindsOk, TableStk, Exec, Steps, Wired, Fetch, Size, At, OpensCounter,
        CounterId, Follows, AfterInstr, CellsStep, CellsSteps, Undone;
      ghost var at := p;
      ghost var st, c := Control(), NowCells();
      NextTabled(i, k, goal);
      p := p + Size(i);
      var failed := ExecInstr(i, at);
      FollowsInstr(prog, x, i, st.p, st.s, c, After(failed), NowCells());
      k' := k - 1;
      if failed {
        ghost var h;
        ghost var mid, fail := NowCells(), Failing();
        h, k' := StackPop(k', goal);
        FollowsTrans(prog, x, st, c, 1, fail, mid, k - 1 - k', Control(), NowCells());
      }
    }

    /** OP_END copies the positions of the groups whose end cell is set. */
    method CopyRegion(s0: nat) returns (region: Region)
      ensures RegionIs(cfg, NowCells(), s0, s, region)
    {
      hide Lead, Get;
      ghost var c := NowCells();
      region := map[0 := (s0, s)];
      var k := 1;
      while k <= cfg.numMem
        invariant 1 <= k <= cfg.numMem + 1 && 0 in region && region[0] == (s0, s)
        invariant forall j: nat :: 1 <= j < k ==> RegionAt(cfg, c, region, j)
        invariant forall j: nat :: j >= k ==> j !in region
      {
        if Get(memEnd, k) != Invalid {
          var beg := Lead(k in cfg.btMemStart, stk, Get(memStart, k));
          var end := Lead(k in cfg.btMemEnd, stk, Get(memEnd, k));
          if beg.Some? && end.Some? {
            var next := region[k := (beg.value, end.value)];
            forall j: nat | 1 <= j < k ensures RegionAt(cfg, c, next, j) {
              RegionKeeps(cfg, c, region, k, (beg.value, end.value), j);
            }
            region := next;
          }
        }
        k := k + 1;
      }
    }

    lemma NotNoting()
      requires Wired()
      ensures !prog.rec
    {
    }

    lemma MemBitsAt(at: int)
      requires Wired() && At(prog.code, at)
      ensures MemBits(cfg, prog.code[at].i)
    {
      CellAt(Image(prog, cfg), at);
    }

    lemma RestoredMem(was: seq<Slot>, h: nat)
      requires Mem() && h == |stk| && h < |was| && Unwound(was[..h], stk)
      ensures forall k :: k in Groups() ==> (Get(memStart, k), Get(memEnd, k)) == LastMem(was[..h], k)
    {
      forall k | k in Groups() ensures (Get(memStart, k), Get(memEnd, k)) == LastMem(was[..h], k) {
        assert stk[..h] == stk && was[..h][..h] == was[..h];
        UnwoundMem(was[..h], stk, h, Get(memStart, k), Get(memEnd, k), k);
      }
    }
  }

  lemma UndoSlotsIs(stk: seq<Slot>)
    requires Undoable(stk)
    ensures var n := |stk| - 1;
            var e := stk[n].e;
            && stk != []
            && (e.RepeatInc? ==>
                  && e.si < n && stk[e.si].e.Repeat? && NoMem(stk[e.si].e)
                  && UndoSlots(stk) == stk[..n][e.si := stk[e.si].(e := stk[e.si].e.(count := stk[e.si].e.count - 1))])
            && (!e.RepeatInc? ==> UndoSlots(stk) == stk[..n])
  {
    EntriesTake(stk, |stk| - 1);
  }

  lemma BottomTabled(level: PopLevel, code: Program)
    ensures [] + [BOTTOM] == [BOTTOM] && NoMem(BOTTOM)
    ensures forall s: nat :: TableInv(code, Run(0, s, [BOTTOM]), map[]) && KindsOk(level, Run(0, s, [BOTTOM]))
  {
  }

  lemma DroppedStk(c: Cells)
    requires c.stk != []
    ensures DropTop(c).stk == c.stk[..|c.stk| - 1]
    ensures c.stk[|c.stk| - 1].e.RepeatInc? ==> DropTop(c) == c.(stk := c.stk[..|c.stk| - 1])
  {
  }

  lemma SameWhole(stk: seq<Slot>)
    ensures SameMem(stk, stk[..|stk|])
  {
    assert stk[..|stk|] == stk;
  }

  /** The mark itself has saved nothing. */
  lemma UndoneMark(c: Cells)
    requires c.stk != [] && NoMem(c.stk[|c.stk| - 1].e)
    ensures var below := c.stk[..|c.stk| - 1];
            Undone(c, Entries(below)) == c.(stk := below)
  {
    var below := c.stk[..|c.stk| - 1];
    UndoneOne(c, Entries(below));
    RefillIs(c.stk, below);
  }

  lemma CounterSlot(k: nat, p: int, s: nat, stk: seq<Slot>)
    requires k < |stk| && stk[k].e.Repeat?
    ensures NoMem(stk[k].e) && Entries(stk)[k] == stk[k].e && |Entries(stk)| == |stk|
    ensures NoMem(stk[k].e.(count := stk[k].e.count + 1)) && NoMem(RepeatInc(k)) && NoMem(StkAlt(p, s))
  {
  }

  predicate CounterAt(es: Stack, k: nat) { k < |es| && es[k].Repeat? }

  function Upped(es: Stack, k: nat): Stack
    requires CounterAt(es, k)
  {
    es[k := es[k].(count := es[k].count + 1)]
  }

  /** The two increments. */
  lemma GreedyIs(r: Range, k: nat, q: int, s: nat, es: Stack, count: int, back: int)
    requires CounterAt(es, k) && es[k].count == count && es[k].pcode == back
    ensures IncGreedy(r, k, q, s, es) ==
            if count + 1 >= r.upper then Run(q, s, Upped(es, k) + [RepeatInc(k)])
            else if count + 1 >= r.lower then Run(back, s, Upped(es, k) + [StkAlt(q, s)] + [RepeatInc(k)])
            else Run(back, s, Upped(es, k) + [RepeatInc(k)])
  {
    var es1 := Upped(es, k);
    assert es1 + [StkAlt(q, s), RepeatInc(k)] == es1 + [StkAlt(q, s)] + [RepeatInc(k)];
  }

  lemma LazyIs(r: Range, k: nat, q: int, s: nat, es: Stack, count: int, back: int)
    requires CounterAt(es, k) && es[k].count == count && es[k].pcode == back
    ensures IncLazy(r, k, q, s, es) ==
            if count + 1 < r.upper then
              if count + 1 >= r.lower then Run(q, s, Upped(es, k) + [RepeatInc(k)] + [StkAlt(back, s)])
              else Run(back, s, Upped(es, k) + [RepeatInc(k)])
            else if count + 1 == r.upper then Run(q, s, Upped(es, k) + [RepeatInc(k)])
            else Stuck
  {
    var es1 := Upped(es, k);
    assert es1 + [RepeatInc(k), StkAlt(back, s)] == es1 + [RepeatInc(k)] + [StkAlt(back, s)];
  }

  lemma UndoneSlots(c: Cells)
    requires Undoable(c.stk)
    ensures Undone(c, Entries(UndoSlots(c.stk))) == DropTop(c).(stk := UndoSlots(c.stk))
  {
    UndoneOne(c, Entries(UndoSlots(c.stk)));
    RefillIs(c.stk, UndoSlots(c.stk));
  }

  lemma SameBelow(was: seq<Slot>, stk: seq<Slot>)
    requires |stk| <= |was| && SameMem(stk, was[..|stk|]) && Undoable(stk)
    ensures SameMem(UndoSlots(stk), was[..|stk| - 1])
  {
    var n := |stk| - 1;
    forall i | 0 <= i < n
      ensures UndoSlots(stk)[i] == was[..n][i] || (NoMem(UndoSlots(stk)[i].e) && NoMem(was[..n][i].e))
    {
      assert stk[i] == was[..|stk|][i] || (NoMem(stk[i].e) && NoMem(was[..|stk|][i].e));
    }
  }

  lemma ChoiceIs(stk: seq<Slot>)
    requires stk != [] && PopUsed(stk[|stk| - 1].e)
    ensures PopOne(Entries(stk)) == Run(stk[|stk| - 1].e.pcode, stk[|stk| - 1].e.pstr, Entries(stk[..|stk| - 1]))
  {
    hide Entries;
    EntriesTake(stk, |stk| - 1);
  }

  /** The entries up to k, searched from the top. */
  lemma FindStep(es: Stack, id: nat, k: nat)
    requires k < |es|
    ensures FindRepeat(es[..k + 1], id) == if es[k].Repeat? && es[k].num == id then Some(k) else FindRepeat(es[..k], id)
    ensures FindNullCheck(es[..k + 1], id) ==
            if es[k].NullCheckStart? && es[k].num == id then Some(es[k].pstr) else FindNullCheck(es[..k], id)
  {
    assert es[..k + 1][..k] == es[..k];
  }

  lemma FindNone(es: Stack, id: nat)
    ensures FindRepeat(es[..0], id) == None && FindNullCheck(es[..0], id) == None
  {
  }

  /** One round of the blanking scan. */
  lemma VoidStep(was: Stack, m: Mark, goal: (Stack, Entry), k: nat)
    requires k < |was| == |goal.0| && VoidTo(was[..k + 1], m) == Some((goal.0[..k + 1], goal.1))
    ensures var e := was[k];
            if ToVoidTarget(e) || !IsMark(e, m) then
              && k > 0 && VoidTo(was[..k], m) == Some((goal.0[..k], goal.1))
              && goal.0[k] == if ToVoidTarget(e) then Void else e
            else goal.0[..k] == was[..k] && goal.0[k] == Void && goal.1 == e
  {
    var stk := was[..k + 1];
    assert stk[..k] == was[..k];
    assert goal.0[..k + 1][..k] == goal.0[..k];
    assert goal.0[..k + 1][k] == goal.0[k];
    var e := was[k];
    var r := VoidTo(was[..k], m);
    if ToVoidTarget(e) || !IsMark(e, m) {
      assert r.Some?;
      assert goal.0[..k + 1] == r.value.0 + [if ToVoidTarget(e) then Void else e];
      VoidLength(was[..k], m);
      assert (r.value.0 + [if ToVoidTarget(e) then Void else e])[..k] == r.value.0;
    } else {
      assert (was[..k] + [Void])[..k] == was[..k];
    }
  }

  /** The blanking scan at height k: below nothing has changed, above everything is as it will be. */
  ghost predicate Scan(was: Stack, now: Stack, m: Mark, goal: (Stack, Entry), k: int) {
    && 0 <= k < |was| && |now| == |was| == |goal.0|
    && now[..k + 1] == was[..k + 1] && now[k + 1..] == goal.0[k + 1..]
    && VoidTo(was[..k + 1], m) == Some((goal.0[..k + 1], goal.1))
  }

  lemma ScanStart(was: Stack, m: Mark, goal: (Stack, Entry))
    requires VoidTo(was, m) == Some(goal)
    ensures Scan(was, was, m, goal, |was| - 1)
  {
    VoidLength(was, m);
    assert was[..|was|] == was && goal.0[..|was|] == goal.0;
  }

  lemma SameAt(a: Stack, b: Stack, k: nat)
    requires k < |a| == |b| && a[..k + 1] == b[..k + 1]
    ensures a[k] == b[k] && a[..k] == b[..k]
  {
    assert a[..k + 1][k] == a[k] && b[..k + 1][k] == b[k];
    assert a[..k + 1][..k] == a[..k] && b[..k + 1][..k] == b[..k];
  }

  lemma ScanStep(was: Stack, now: Stack, next: Stack, m: Mark, goal: (Stack, Entry), k: nat)
    requires Scan(was, now, m, goal, k) && (ToVoidTarget(now[k]) || !IsMark(now[k], m))
    requires next == if ToVoidTarget(now[k]) then now[k := Void] else now
    ensures k > 0 && Scan(was, next, m, goal, k - 1)
  {
    SameAt(now, was, k);
    VoidStep(was, m, goal, k);
    hide VoidTo;
    assert next[k + 1..] == now[k + 1..];
    assert next[k..] == [next[k]] + next[k + 1..] && goal.0[k..] == [goal.0[k]] + goal.0[k + 1..];
    assert next[..k] == now[..k];
  }

  lemma ScanEnd(was: Stack, now: Stack, m: Mark, goal: (Stack, Entry), k: nat)
    requires Scan(was, now, m, goal, k) && IsMark(now[k], m) && !ToVoidTarget(now[k])
    ensures now[k] == goal.1 && now[k := Void] == goal.0
  {
    SameAt(now, was, k);
    VoidStep(was, m, goal, k);
    hide VoidTo;
    var next := now[k := Void];
    assert next == now[..k] + [Void] + now[k + 1..];
    assert goal.0 == goal.0[..k] + [goal.0[k]] + goal.0[k + 1..];
  }

  lemma {:induction false} VoidLength(stk: Stack, m: Mark)
    requires VoidTo(stk, m).Some?
    ensures |VoidTo(stk, m).value.0| == |stk| && stk != []
  {
    VoidReduces(stk, m);
  }
}
