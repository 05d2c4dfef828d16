/** Popping, undoing and blanking stack entries that carry capture data. */
module Unwinding {
  import opened Regint
  import opened Machine
  import opened Tables
  import opened Captures
  import opened ProgramCorrect

  /** A run that will halt does not get stuck. */
  lemma RunsOn(prog: Prog, x: Subject, st: State, n: nat, goal: State)
    requires Steps(prog, x, st, n) == goal && (n > 0 || goal != st) && !goal.Stuck?
    ensures n > 0 && Step(prog, x, st) != Stuck && Steps(prog, x, Step(prog, x, st), n - 1) == goal
  {
    if n > 0 { FinalStays(prog, x, Stuck, n - 1); }
  }

  lemma PopsOn(prog: Prog, x: Subject, stk: Stack, n: nat, goal: State)
    requires Steps(prog, x, Fail(stk), n) == goal && !goal.Stuck? && !goal.Fail?
    ensures n > 0 && stk != [] && PopOne(stk) != Stuck && Steps(prog, x, PopOne(stk), n - 1) == goal
  {
    RunsOn(prog, x, Fail(stk), n, goal);
  }

  ghost predicate Undoable(stk: seq<Slot>) {
    stk != [] && Undo(stk[|stk| - 1].e, Entries(stk[..|stk| - 1])).Some?
  }

  /** The stack without its top entry, whose effect is taken back. */
  ghost function UndoSlots(stk: seq<Slot>): seq<Slot>
    requires Undoable(stk)
  {
    var n := |stk| - 1;
    var e := stk[n].e;
    if e.RepeatInc? then
      stk[..n][e.si := stk[e.si].(e := stk[e.si].e.(count := stk[e.si].e.count - 1))]
    else stk[..n]
  }

  lemma UndoEntries(stk: seq<Slot>)
    requires Undoable(stk)
    ensures Undo(stk[|stk| - 1].e, Entries(stk[..|stk| - 1])) == Some(Entries(UndoSlots(stk)))
  {
    var n := |stk| - 1;
    var e := stk[n].e;
    if e.RepeatInc? {
      var below := stk[..n];
      assert Entries(UndoSlots(stk)) == Entries(below)[e.si := UndoSlots(stk)[e.si].e];
    }
  }

  /** What is left of a stack when entries have been popped and undone: choice points and capture
      entries as they were, and none of the popped entries was a choice point. */
  ghost predicate Unwound(was: seq<Slot>, stk: seq<Slot>) {
    && |stk| <= |was| && SameMem(stk, was[..|stk|])
    && (forall i :: 0 <= i < |stk| ==> Kept(was[i].e, stk[i].e))
    && (forall i :: |stk| <= i < |was| ==> !PopUsed(was[i].e))
  }

  predicate Kept(a: Entry, b: Entry) { PopUsed(a) || PopUsed(b) ==> a == b }

  lemma UnwoundSelf(stk: seq<Slot>)
    ensures Unwound(stk, stk)
  {
    assert stk[..|stk|] == stk;
  }

  lemma UnwoundTop(was: seq<Slot>, stk: seq<Slot>)
    requires Unwound(was, stk) && stk != [] && PopUsed(stk[|stk| - 1].e)
    ensures var h := |stk| - 1;
            |was| > h && was[h].e == stk[h].e && Unwound(was[..h], stk[..h]) && forall i :: h < i < |was| ==>
              !PopUsed(was[i].e)
  {
    var h := |stk| - 1;
    assert Kept(was[h].e, stk[h].e);
    forall i | 0 <= i < h ensures Kept(was[..h][i].e, stk[..h][i].e) { assert Kept(was[i].e, stk[i].e); }
    forall i | 0 <= i < h ensures stk[..h][i] == was[..h][i] || (NoMem(stk[i].e) && NoMem(was[i].e)) {
      assert stk[i] == was[..|stk|][i] || (NoMem(stk[i].e) && NoMem(was[..|stk|][i].e));
    }
    assert was[..h][..h] == was[..h];
  }

  lemma UnwoundMore(was: seq<Slot>, stk: seq<Slot>)
    requires Unwound(was, stk) && Undoable(stk) && !PopUsed(stk[|stk| - 1].e)
    ensures Unwound(was, UndoSlots(stk))
  {
    var n := |stk| - 1;
    var b := UndoSlots(stk);
    forall i | 0 <= i < n ensures Kept(was[i].e, b[i].e) { assert Kept(was[i].e, stk[i].e); }
    forall i | n <= i < |was| ensures !PopUsed(was[i].e) { assert i == n ==> Kept(was[n].e, stk[n].e); }
    forall i | 0 <= i < n ensures b[i] == was[..n][i] || (NoMem(b[i].e) && NoMem(was[..n][i].e)) {
      assert stk[i] == was[..|stk|][i] || (NoMem(stk[i].e) && NoMem(was[..|stk|][i].e));
    }
  }

  /** Capture cells that agree with the unwound stack agree with the old one, cut at that height. */
  lemma UnwoundMem(was: seq<Slot>, stk: seq<Slot>, h: nat, start: Ref, end: Ref, k: nat)
    requires Unwound(was, stk) && h <= |stk| && MemInv(stk[..h], start, end, k)
    ensures (start, end) == LastMem(was[..h], k)
  {
    forall i | 0 <= i < h ensures MemSlot(stk[i].e, k) || MemSlot(was[i].e, k) ==> stk[i] == was[i] {
      assert stk[i] == was[..|stk|][i] || (NoMem(stk[i].e) && NoMem(was[..|stk|][i].e));
    }
    LastMemSame(stk[..h], was[..h], k);
  }

  /** One round of the pop down to a mark. */
  lemma TilStep(stk: seq<Slot>, m: Mark)
    requires PopTil(Entries(stk), m).Some?
    ensures stk != []
    ensures if IsMark(stk[|stk| - 1].e, m) then PopTil(Entries(stk), m) == Some(Entries(stk[..|stk| - 1]))
            else
              && Undoable(stk) && |UndoSlots(stk)| == |stk| - 1
              && PopTil(Entries(UndoSlots(stk)), m) == PopTil(Entries(stk), m)
  {
    EntriesTake(stk, |stk| - 1);
    if !IsMark(stk[|stk| - 1].e, m) { UndoEntries(stk); }
  }

  lemma PopsUndo(stk: seq<Slot>)
    requires stk != [] && !PopUsed(stk[|stk| - 1].e) && PopOne(Entries(stk)) != Stuck
    ensures Undoable(stk) && PopOne(Entries(stk)) == Fail(Entries(UndoSlots(stk)))
  {
    EntriesTake(stk, |stk| - 1);
    UndoEntries(stk);
  }
}
