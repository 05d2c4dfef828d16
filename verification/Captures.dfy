/** Capture positions and their undo entries. mem_start_stk and mem_end_stk are functions of the
    stack for every group whose two undo bits are set, so taking entries off the stack puts back
    the values they had when those entries were pushed. */
module Captures {
  import opened Regint
  import opened Machine

  /** A cell of mem_start_stk or mem_end_stk: the C code stores stack indexes and text pointers
      there, and INVALID_STACK_INDEX. */
  datatype Ref = Invalid | StackIndex(i: nat) | Position(s: nat)

  /** A stack entry with the cells that STK_MEM_START and STK_MEM_END save. */
  datatype Slot = Slot(e: Entry, start: Ref, end: Ref)

  function Entries(stk: seq<Slot>): (r: Stack)
    ensures |r| == |stk| && forall i :: 0 <= i < |stk| ==> r[i] == stk[i].e
  {
    if stk == [] then [] else Entries(stk[..|stk| - 1]) + [stk[|stk| - 1].e]
  }

  lemma EntriesPush(stk: seq<Slot>, e: Slot)
    ensures Entries(stk + [e]) == Entries(stk) + [e.e]
  {
    assert (stk + [e])[..|stk|] == stk;
  }

  lemma EntriesTake(stk: seq<Slot>, n: nat)
    requires n <= |stk|
    ensures Entries(stk[..n]) == Entries(stk)[..n]
  {
  }

  predicate MemSlot(e: Entry, k: nat) { !NoMem(e) && e.num == k }

  /** Start and end of group k as the stack tells them. */
  function LastMem(stk: seq<Slot>, k: nat): (Ref, Ref) {
    if stk == [] then (Invalid, Invalid)
    else
      var n := |stk| - 1;
      match stk[n].e
      case MemStart(num, _) => if num == k then (StackIndex(n), Invalid) else LastMem(stk[..n], k)
      case MemEnd(num, _) => if num == k then (stk[n].start, StackIndex(n)) else LastMem(stk[..n], k)
      case _ => LastMem(stk[..n], k)
  }

  /** An undo entry holds the values from before it was pushed. */
  ghost predicate Saved(stk: seq<Slot>, i: int, k: nat)
    requires 0 <= i < |stk|
  {
    MemSlot(stk[i].e, k) ==> (stk[i].start, stk[i].end) == LastMem(stk[..i], k)
  }

  ghost predicate MemInv(stk: seq<Slot>, start: Ref, end: Ref, k: nat) {
    && (start, end) == LastMem(stk, k)
    && forall i :: 0 <= i < |stk| ==> Saved(stk, i, k)
  }

  /** LastMem looks at nothing but the group's own entries. */
  lemma {:induction false} LastMemSame(a: seq<Slot>, b: seq<Slot>, k: nat)
    requires |a| == |b| && forall i :: 0 <= i < |a| ==> MemSlot(a[i].e, k) || MemSlot(b[i].e, k) ==> a[i] == b[i]
    ensures LastMem(a, k) == LastMem(b, k)
    decreases |a|
  {
    if a != [] {
      var n := |a| - 1;
      assert a[n] == b[n] || (!MemSlot(a[n].e, k) && !MemSlot(b[n].e, k));
      LastMemSame(a[..n], b[..n], k);
    }
  }

  lemma MemSame(a: seq<Slot>, b: seq<Slot>, start: Ref, end: Ref, k: nat)
    requires MemInv(a, start, end, k)
    requires |a| == |b| && forall i :: 0 <= i < |a| ==> MemSlot(a[i].e, k) || MemSlot(b[i].e, k) ==> a[i] == b[i]
    ensures MemInv(b, start, end, k)
  {
    LastMemSame(a, b, k);
    forall i | 0 <= i < |b| ensures Saved(b, i, k) {
      assert Saved(a, i, k);
      LastMemSame(a[..i], b[..i], k);
    }
  }

  /** Pushing an entry of the group, or another one. */
  lemma MemPush(stk: seq<Slot>, e: Slot, start: Ref, end: Ref, k: nat)
    requires MemInv(stk, start, end, k) && (MemSlot(e.e, k) ==> e.start == start && e.end == end)
    ensures var i := StackIndex(|stk|);
            if MemSlot(e.e, k) && e.e.MemStart? then MemInv(stk + [e], i, Invalid, k)
            else if MemSlot(e.e, k) then MemInv(stk + [e], start, i, k)
            else MemInv(stk + [e], start, end, k)
  {
    var b := stk + [e];
    assert b[..|stk|] == stk;
    forall i | 0 <= i < |b| ensures Saved(b, i, k) {
      if i < |stk| { assert b[..i] == stk[..i] && Saved(stk, i, k); }
    }
  }

  /** Popping an entry and undoing it. */
  lemma MemPop(stk: seq<Slot>, start: Ref, end: Ref, k: nat)
    requires stk != [] && MemInv(stk, start, end, k)
    ensures var t := stk[|stk| - 1];
            var below := stk[..|stk| - 1];
            if MemSlot(t.e, k) then MemInv(below, t.start, t.end, k) else MemInv(below, start, end, k)
  {
    var n := |stk| - 1;
    var below := stk[..n];
    assert Saved(stk, n, k);
    forall i | 0 <= i < n ensures Saved(below, i, k) { assert below[..i] == stk[..i] && Saved(stk, i, k); }
  }

  // ----- all groups at once -----

  function Get(m: map<nat, Ref>, k: nat): Ref { if k in m then m[k] else Invalid }

  /** The groups whose start and end are both undone. */
  ghost predicate AllMem(stk: seq<Slot>, ms: map<nat, Ref>, me: map<nat, Ref>, both: set<nat>) {
    forall k :: k in both ==> MemInv(stk, Get(ms, k), Get(me, k), k)
  }

  /** Changes that no capture entry takes part in. */
  predicate SameMem(a: seq<Slot>, b: seq<Slot>) {
    |a| == |b| && forall i :: 0 <= i < |a| ==> a[i] == b[i] || (NoMem(a[i].e) && NoMem(b[i].e))
  }

  lemma AllSame(a: seq<Slot>, b: seq<Slot>, ms: map<nat, Ref>, me: map<nat, Ref>, both: set<nat>)
    requires AllMem(a, ms, me, both) && SameMem(a, b)
    ensures AllMem(b, ms, me, both)
  {
    forall k | k in both ensures MemInv(b, Get(ms, k), Get(me, k), k) { MemSame(a, b, Get(ms, k), Get(me, k), k); }
  }

  lemma AllPush(stk: seq<Slot>, e: Slot, ms: map<nat, Ref>, me: map<nat, Ref>, both: set<nat>)
    requires AllMem(stk, ms, me, both) && NoMem(e.e)
    ensures AllMem(stk + [e], ms, me, both)
  {
    forall k | k in both ensures MemInv(stk + [e], Get(ms, k), Get(me, k), k) {
      MemPush(stk, e, Get(ms, k), Get(me, k), k);
    }
  }

  /** STACK_PUSH_MEM_START */
  lemma AllPushStart(stk: seq<Slot>, num: nat, s: nat, ms: map<nat, Ref>, me: map<nat, Ref>, both: set<nat>)
    requires AllMem(stk, ms, me, both)
    ensures AllMem(stk + [Slot(MemStart(num, s), Get(ms, num), Get(me, num))], ms[num := StackIndex(|stk|)],
                   me[num := Invalid], both)
  {
    var e := Slot(MemStart(num, s), Get(ms, num), Get(me, num));
    forall k | k in both
      ensures MemInv(stk + [e], Get(ms[num := StackIndex(|stk|)], k), Get(me[num := Invalid], k), k) {
      MemPush(stk, e, Get(ms, k), Get(me, k), k);
    }
  }

  /** STACK_PUSH_MEM_END */
  lemma AllPushEnd(stk: seq<Slot>, num: nat, s: nat, ms: map<nat, Ref>, me: map<nat, Ref>, both: set<nat>)
    requires AllMem(stk, ms, me, both)
    ensures AllMem(stk + [Slot(MemEnd(num, s), Get(ms, num), Get(me, num))], ms, me[num := StackIndex(|stk|)], both)
  {
    var e := Slot(MemEnd(num, s), Get(ms, num), Get(me, num));
    forall k | k in both ensures MemInv(stk + [e], Get(ms, k), Get(me[num := StackIndex(|stk|)], k), k) {
      MemPush(stk, e, Get(ms, k), Get(me, k), k);
    }
  }

  /** What the pop macros restore for a capture entry. */
  lemma AllPop(stk: seq<Slot>, ms: map<nat, Ref>, me: map<nat, Ref>, both: set<nat>)
    requires stk != [] && AllMem(stk, ms, me, both)
    ensures var t := stk[|stk| - 1];
            var below := stk[..|stk| - 1];
            if NoMem(t.e) then AllMem(below, ms, me, both)
            else AllMem(below, ms[t.e.num := t.start], me[t.e.num := t.end], both)
  {
    var n := |stk| - 1;
    var t := stk[n];
    forall k | k in both
      ensures if NoMem(t.e) then MemInv(stk[..n], Get(ms, k), Get(me, k), k)
              else MemInv(stk[..n], Get(ms[t.e.num := t.start], k), Get(me[t.e.num := t.end], k), k)
    {
      MemPop(stk, Get(ms, k), Get(me, k), k);
    }
  }

  /** Writing the cells of a group that is not undone. */
  lemma AllRaw(stk: seq<Slot>, num: nat, r: Ref, ms: map<nat, Ref>, me: map<nat, Ref>, both: set<nat>)
    requires AllMem(stk, ms, me, both) && num !in both
    ensures AllMem(stk, ms[num := r], me, both) && AllMem(stk, ms, me[num := r], both)
  {
    forall k | k in both ensures MemInv(stk, Get(ms[num := r], k), Get(me[num := r], k), k) {
      assert MemInv(stk, Get(ms, k), Get(me, k), k);
    }
    forall k | k in both ensures MemInv(stk, Get(ms[num := r], k), Get(me, k), k) {
      assert MemInv(stk, Get(ms, k), Get(me, k), k);
    }
    forall k | k in both ensures MemInv(stk, Get(ms, k), Get(me[num := r], k), k) {
      assert MemInv(stk, Get(ms, k), Get(me, k), k);
    }
  }

  lemma AllEmpty(ms: map<nat, Ref>, me: map<nat, Ref>, both: set<nat>)
    requires ms == map[] && me == map[]
    ensures AllMem([], ms, me, both)
  {
  }

  // ----- the cells at the time of a push -----

  /** The capture cells as they were when a stack entry was pushed. */
  datatype Moment = Moment(start: map<nat, Ref>, end: map<nat, Ref>)

  predicate HeldAt(stk: seq<Slot>, m: Moment, k: nat) { (Get(m.start, k), Get(m.end, k)) == LastMem(stk, k) }

  /** Under every entry the stack still tells what the cells held when the entry was pushed. */
  ghost predicate Recorded(stk: seq<Slot>, moments: seq<Moment>, both: set<nat>) {
    && |moments| == |stk|
    && forall i, k :: 0 <= i < |stk| && k in both ==> HeldAt(stk[..i], moments[i], k)
  }

  lemma RecordPush(stk: seq<Slot>, e: Slot, moments: seq<Moment>, ms: map<nat, Ref>, me: map<nat, Ref>, both: set<nat>)
    requires AllMem(stk, ms, me, both) && Recorded(stk, moments, both)
    ensures Recorded(stk + [e], moments + [Moment(ms, me)], both)
  {
    var b, now := stk + [e], moments + [Moment(ms, me)];
    forall i, k | 0 <= i < |b| && k in both ensures HeldAt(b[..i], now[i], k) {
      if i < |stk| {
        assert b[..i] == stk[..i] && HeldAt(stk[..i], moments[i], k);
      } else {
        assert b[..i] == stk && MemInv(stk, Get(ms, k), Get(me, k), k);
      }
    }
  }

  lemma RecordTake(stk: seq<Slot>, moments: seq<Moment>, n: nat, both: set<nat>)
    requires Recorded(stk, moments, both) && n <= |stk|
    ensures Recorded(stk[..n], moments[..n], both)
  {
    forall i, k | 0 <= i < n && k in both ensures HeldAt(stk[..n][..i], moments[..n][i], k) {
      assert stk[..n][..i] == stk[..i] && HeldAt(stk[..i], moments[i], k);
    }
  }

  /** Counting, blanking and undoing a count do not touch what is recorded. */
  lemma RecordSame(a: seq<Slot>, b: seq<Slot>, moments: seq<Moment>, both: set<nat>)
    requires Recorded(a, moments, both) && SameMem(a, b)
    ensures Recorded(b, moments, both)
  {
    forall i, k | 0 <= i < |b| && k in both ensures HeldAt(b[..i], moments[i], k) {
      assert HeldAt(a[..i], moments[i], k);
      LastMemSame(a[..i], b[..i], k);
    }
  }

  lemma RecordAt(stk: seq<Slot>, moments: seq<Moment>, i: nat, both: set<nat>)
    requires Recorded(stk, moments, both) && i < |stk|
    ensures |moments| == |stk| && forall k :: k in both ==> HeldAt(stk[..i], moments[i], k)
  {
  }

  lemma RecordLen(stk: seq<Slot>, moments: seq<Moment>, both: set<nat>)
    requires Recorded(stk, moments, both)
    ensures |moments| == |stk|
  {
  }

  /** What is recorded for an entry stays as long as the entry does. */
  predicate Lasting(was: seq<Moment>, now: seq<Moment>) { was <= now || now <= was }

  lemma LastingSelf(moments: seq<Moment>)
    ensures Lasting(moments, moments)
  {
  }
}
