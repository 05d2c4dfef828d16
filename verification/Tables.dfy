/** Two shortcuts of the matcher and why they are safe for compiled code. OP_REPEAT_INC finds its
    counter through the table repeat_stk instead of searching the stack; and a program without
    counters or capture undo pops its stack without looking for them. */
module Tables {
  import opened Regint
  import opened Regparse
  import opened Regcomp
  import opened Machine
  import opened Undoing
  import opened Layout

  /** The layout of a whole program. */
  ghost predicate ProgOk(g: Image) { Frag(g, 0, |g.prog.code|, 0, |g.prog.ranges|, false) }

  lemma CellAt(g: Image, a: int)
    requires ProgOk(g) && At(g.prog.code, a)
    ensures CellOk(g, a, 0, |g.prog.code|, 0, |g.prog.ranges|, false)
  {
  }

  lemma Pairs(g: Image, a: int, b: int)
    requires ProgOk(g) && At(g.prog.code, a) && At(g.prog.code, b)
    ensures Apart(g.prog.code, a, b) && NoReturn(g.prog.code, a, b)
  {
  }

  lemma OpenedBy(g: Image, p: int) returns (b: int)
    requires ProgOk(g) && At(g.prog.code, p) && CounterInc(g.prog.code[p].i)
    ensures Closes(g.prog.code, b, p)
  {
    CellAt(g, p);
    b :| Closes(g.prog.code, b, p);
  }

  // ----- the repeat table -----

  predicate HasCode(e: Entry) { PopUsed(e) || e.Repeat? }

  function OpenerOf(e: Entry): int
    requires HasCode(e)
  {
    e.pcode - SIZE_OP_REPEAT
  }

  /** A counter entry remembers the OP_REPEAT that pushed it. */
  predicate Opened(code: Program, e: Entry) {
    e.Repeat? ==> Opener(code, OpenerOf(e)) && CounterId(code[OpenerOf(e)].i) == e.num
  }

  predicate TableEntry(code: Program, e: Entry) { e.Repeat? && TableCounter(code, OpenerOf(e)) }

  ghost predicate EntryTabled(code: Program, stk: Stack, rs: map<nat, nat>, i: int)
    requires 0 <= i < |stk|
  {
    && Opened(code, stk[i])
    && (TableEntry(code, stk[i]) ==> stk[i].num in rs && rs[stk[i].num] == i)
  }

  /** Code addresses above a table counter lie behind its OP_REPEAT. */
  ghost predicate Above(code: Program, stk: Stack, i: int, m: int)
    requires 0 <= i < m < |stk|
  {
    TableEntry(code, stk[i]) && HasCode(stk[m]) ==> stk[m].pcode > OpenerOf(stk[i])
  }

  ghost predicate TableStk(code: Program, stk: Stack, rs: map<nat, nat>) {
    && (forall i :: 0 <= i < |stk| ==> EntryTabled(code, stk, rs, i))
    && (forall i, m :: 0 <= i < m < |stk| ==> Above(code, stk, i, m))
  }

  ghost predicate Past(code: Program, p: int, e: Entry) { TableEntry(code, e) ==> p > OpenerOf(e) }

  /** Control is behind the OP_REPEAT of every table counter on the stack. */
  ghost predicate TableAt(code: Program, p: int, stk: Stack) {
    forall i :: 0 <= i < |stk| ==> Past(code, p, stk[i])
  }

  ghost predicate TableInv(code: Program, st: State, rs: map<nat, nat>) {
    match st
    case Run(p, s, stk) => TableStk(code, stk, rs) && TableAt(code, p, stk)
    case Fail(stk) => TableStk(code, stk, rs)
    case Accept(_, stk) => TableStk(code, stk, rs)
    case _ => true
  }

  predicate Reduced(a: Entry, b: Entry) {
    b == a || b == Void || (a.Repeat? && b.Repeat? && a.pcode == b.pcode && a.num == b.num)
  }

  /** What popping, blanking and counting do to a stack. */
  predicate Reduces(a: Stack, b: Stack) {
    && |b| <= |a|
    && forall i :: 0 <= i < |b| ==> Reduced(a[i], b[i])
  }

  lemma ReducedTable(code: Program, a: Stack, b: Stack, rs: map<nat, nat>)
    requires TableStk(code, a, rs) && Reduces(a, b)
    ensures TableStk(code, b, rs)
  {
    forall i | 0 <= i < |b| ensures EntryTabled(code, b, rs, i) { assert EntryTabled(code, a, rs, i); }
    forall i, m | 0 <= i < m < |b| ensures Above(code, b, i, m) { assert Above(code, a, i, m); }
  }

  lemma ReducedAt(code: Program, p: int, a: Stack, b: Stack)
    requires TableAt(code, p, a) && Reduces(a, b)
    ensures TableAt(code, p, b)
  {
    forall i | 0 <= i < |b| ensures Past(code, p, b[i]) { assert Past(code, p, a[i]); }
  }

  lemma PushTable(code: Program, stk: Stack, e: Entry, rs: map<nat, nat>)
    requires TableStk(code, stk, rs) && !e.Repeat? && (HasCode(e) ==> TableAt(code, e.pcode, stk))
    ensures TableStk(code, stk + [e], rs)
  {
    var b := stk + [e];
    forall i | 0 <= i < |b| ensures EntryTabled(code, b, rs, i) {
      if i < |stk| { assert EntryTabled(code, stk, rs, i); }
    }
    forall i, m | 0 <= i < m < |b| ensures Above(code, b, i, m) {
      if m < |stk| { assert Above(code, stk, i, m); } else if HasCode(e) { assert Past(code, e.pcode, stk[i]); }
    }
  }

  lemma PushAt(code: Program, p: int, stk: Stack, e: Entry)
    requires TableAt(code, p, stk) && !e.Repeat?
    ensures TableAt(code, p, stk + [e])
  {
  }

  lemma Further(code: Program, p: int, p': int, stk: Stack)
    requires TableAt(code, p, stk) && p' >= p
    ensures TableAt(code, p', stk)
  {
    forall i | 0 <= i < |stk| ensures Past(code, p', stk[i]) { assert Past(code, p, stk[i]); }
  }

  /** No address leads back over a table counter. */
  lemma TargetTable(g: Image, p: int, stk: Stack, rs: map<nat, nat>)
    requires ProgOk(g) && At(g.prog.code, p) && TableStk(g.prog.code, stk, rs) && TableAt(g.prog.code, p, stk)
    requires Target(g.prog.code[p].i, p).Some?
    ensures TableAt(g.prog.code, Target(g.prog.code[p].i, p).value, stk)
  {
    var code := g.prog.code;
    var t := Target(code[p].i, p).value;
    forall i | 0 <= i < |stk| ensures Past(code, t, stk[i]) {
      if TableEntry(code, stk[i]) {
        assert Past(code, p, stk[i]);
        Pairs(g, OpenerOf(stk[i]), p);
      }
    }
  }

  /** Going round a loop does not lead back over a table counter either: those are in no loop. */
  lemma RoundTable(g: Image, p: int, stk: Stack, rs: map<nat, nat>, k: nat)
    requires ProgOk(g) && At(g.prog.code, p) && TableStk(g.prog.code, stk, rs) && TableAt(g.prog.code, p, stk)
    requires CounterInc(g.prog.code[p].i) && k < |stk| && stk[k].Repeat? && stk[k].num == CounterId(g.prog.code[p].i)
    ensures TableAt(g.prog.code, stk[k].pcode, stk)
  {
    var code := g.prog.code;
    var b := OpenedBy(g, p);
    assert EntryTabled(code, stk, rs, k);
    Pairs(g, b, OpenerOf(stk[k]));
    forall i | 0 <= i < |stk| ensures Past(code, stk[k].pcode, stk[i]) {
      if TableEntry(code, stk[i]) {
        assert Past(code, p, stk[i]);
        Pairs(g, b, OpenerOf(stk[i]));
      }
    }
  }

  /** Starting a counter: none with its number can be live. */
  lemma StartTable(g: Image, p: int, stk: Stack, rs: map<nat, nat>)
    requires ProgOk(g) && Opener(g.prog.code, p) && TableStk(g.prog.code, stk, rs) && TableAt(g.prog.code, p, stk)
    ensures var id := CounterId(g.prog.code[p].i);
            var q := p + SIZE_OP_REPEAT;
            var b := stk + [Repeat(0, q, id)];
            TableStk(g.prog.code, b, rs[id := |stk|]) && TableAt(g.prog.code, q, b)
  {
    var code := g.prog.code;
    var id := CounterId(code[p].i);
    var q := p + SIZE_OP_REPEAT;
    var e := Repeat(0, q, id);
    var b := stk + [e];
    var rs' := rs[id := |stk|];
    forall i | 0 <= i < |b| ensures EntryTabled(code, b, rs', i) && Past(code, q, b[i]) {
      if i < |stk| {
        assert EntryTabled(code, stk, rs, i) && Past(code, p, stk[i]);
        if TableEntry(code, stk[i]) { Pairs(g, p, OpenerOf(stk[i])); }
      }
    }
    forall i, m | 0 <= i < m < |b| ensures Above(code, b, i, m) {
      if m < |stk| { assert Above(code, stk, i, m); } else { assert Past(code, p, stk[i]); }
    }
  }

  lemma EntryAt(code: Program, stk: Stack, rs: map<nat, nat>, k: nat)
    requires TableStk(code, stk, rs) && k < |stk|
    ensures EntryTabled(code, stk, rs, k)
  {
  }

  /** A counter whose increment reads the table is in the table. */
  lemma Tabled(g: Image, p: int, stk: Stack, rs: map<nat, nat>, k: nat)
    requires ProgOk(g) && At(g.prog.code, p) && TableInc(g.prog.code[p].i) && TableStk(g.prog.code, stk, rs)
    requires k < |stk| && stk[k].Repeat? && stk[k].num == CounterId(g.prog.code[p].i)
    ensures stk[k].num in rs && rs[stk[k].num] == k
  {
    hide ProgOk, TableStk;
    var code := g.prog.code;
    var b := OpenedBy(g, p);
    EntryAt(code, stk, rs, k);
    var a := OpenerOf(stk[k]);
    Pairs(g, b, a);
    hide NoReturn;
    assert a == b;
    assert TableCounter(code, b);
  }

  /** OP_REPEAT_INC: the table holds what a search of the stack would find. */
  lemma TableFinds(g: Image, p: int, stk: Stack, rs: map<nat, nat>)
    requires ProgOk(g) && At(g.prog.code, p) && TableInc(g.prog.code[p].i) && TableStk(g.prog.code, stk, rs)
    ensures var id := CounterId(g.prog.code[p].i);
            FindRepeat(stk, id).Some? ==> id in rs && rs[id] == FindRepeat(stk, id).value
  {
    var f := FindRepeat(stk, CounterId(g.prog.code[p].i));
    hide ProgOk, TableStk, FindRepeat;
    if f.Some? { Tabled(g, p, stk, rs, f.value); }
  }

  /** The table behind one step: OP_REPEAT is the only instruction that writes it. */
  function TableAfter(prog: Prog, st: State, rs: map<nat, nat>): map<nat, nat> {
    if st.Run? && Fetch(prog, st.p).Some? && OpensCounter(Fetch(prog, st.p).value)
    then rs[CounterId(Fetch(prog, st.p).value) := |st.stk|] else rs
  }

  /** Where an instruction that does not rework the stack can go. */
  lemma ExecGoes(prog: Prog, x: Subject, i: Instr, p: int, s: nat, stk: Stack)
    requires !Reworks(i)
    ensures var st := Exec(prog, x, i, p + Size(i), s, stk);
            st.Run? ==> st.p > p || Some(st.p) == Target(i, p)
  {
  }

  lemma PushedGoes(rec: bool, i: Instr, p: int, s: nat)
    ensures var e := Pushed(rec, i, p + Size(i), s);
            e.Some? ==> !e.value.Repeat? && (HasCode(e.value) ==> Some(e.value.pcode) == Target(i, p))
  {
  }

  lemma PlainTable(g: Image, x: Subject, i: Instr, p: int, s: nat, stk: Stack, rs: map<nat, nat>)
    requires ProgOk(g) && At(g.prog.code, p) && g.prog.code[p].i == i && !Reworks(i)
    requires TableStk(g.prog.code, stk, rs) && TableAt(g.prog.code, p, stk)
    ensures TableInv(g.prog.code, Exec(g.prog, x, i, p + Size(i), s, stk), rs)
  {
    hide Exec, TableStk, TableAt, ProgOk, Reworks;
    hide Pushed, Target;
    var q := p + Size(i);
    var st := Exec(g.prog, x, i, q, s, stk);
    ExecPushes(g.prog, x, i, q, s, stk);
    ExecGoes(g.prog, x, i, p, s, stk);
    PushedGoes(g.prog.rec, i, p, s);
    var e := Pushed(g.prog.rec, i, q, s);
    if Target(i, p).Some? { TargetTable(g, p, stk, rs); }
    if e.Some? { PushTable(g.prog.code, stk, e.value, rs); }
    if st.Run? {
      if st.p > p { Further(g.prog.code, p, st.p, stk); }
      if e.Some? { PushAt(g.prog.code, st.p, stk, e.value); }
    }
  }

  lemma {:induction false} StarTable(code: Program, x: Subject, ml: bool, peek: Option<byte>, q: int, s: nat,
                                     stk: Stack, rs: map<nat, nat>)
    requires TableStk(code, stk, rs) && TableAt(code, q, stk)
    ensures TableInv(code, StarLoop(x, ml, peek, q, s, stk), rs)
    decreases |x.text| - s
  {
    hide TableStk, TableAt;
    if s < |x.text| {
      PushTable(code, stk, StkAlt(q, s), rs);
      PushAt(code, q, stk, StkAlt(q, s));
      var stk' := if peek.None? || peek.value == x.text[s] then stk + [StkAlt(q, s)] else stk;
      if ml || x.text[s] != NEWLINE { StarTable(code, x, ml, peek, q, s + 1, stk', rs); }
    }
  }

  lemma PushTwo(code: Program, p: int, stk: Stack, a: Entry, b: Entry, rs: map<nat, nat>)
    requires TableStk(code, stk, rs) && TableAt(code, p, stk) && !a.Repeat? && !b.Repeat?
    requires (HasCode(a) ==> TableAt(code, a.pcode, stk)) && (HasCode(b) ==> TableAt(code, b.pcode, stk))
    ensures TableStk(code, stk + [a, b], rs) && TableAt(code, p, stk + [a, b])
  {
    hide TableStk, TableAt;
    PushTable(code, stk, a, rs);
    PushAt(code, p, stk, a);
    if HasCode(b) { PushAt(code, b.pcode, stk, a); }
    PushTable(code, stk + [a], b, rs);
    PushAt(code, p, stk + [a], b);
    assert stk + [a] + [b] == stk + [a, b];
  }

  lemma CountedTable(code: Program, stk: Stack, k: nat, rs: map<nat, nat>, q: int, back: int)
    requires k < |stk| && stk[k].Repeat? && TableStk(code, stk, rs) && TableAt(code, q, stk) && TableAt(code, back, stk)
    ensures var stk1 := stk[k := stk[k].(count := stk[k].count + 1)];
            TableStk(code, stk1, rs) && TableAt(code, q, stk1) && TableAt(code, back, stk1)
  {
    var stk1 := stk[k := stk[k].(count := stk[k].count + 1)];
    assert Reduces(stk, stk1);
    ReducedTable(code, stk, stk1, rs);
    ReducedAt(code, q, stk, stk1);
    ReducedAt(code, back, stk, stk1);
  }

  lemma IncTable(g: Image, greedy: bool, p: int, s: nat, stk: Stack, rs: map<nat, nat>)
    requires ProgOk(g) && At(g.prog.code, p) && CounterInc(g.prog.code[p].i)
    requires TableStk(g.prog.code, stk, rs) && TableAt(g.prog.code, p, stk)
    ensures TableInv(g.prog.code, ExecInc(g.prog, CounterId(g.prog.code[p].i), greedy, p + SIZE_OP_REPEAT_INC, s, stk),
                     rs)
  {
    hide TableStk, TableAt, ProgOk, FindRepeat;
    var code := g.prog.code;
    var id := CounterId(code[p].i);
    var q := p + SIZE_OP_REPEAT_INC;
    var f := FindRepeat(stk, id);
    if f.Some? && id < |g.prog.ranges| {
      var k := f.value;
      RoundTable(g, p, stk, rs, k);
      Further(code, p, q, stk);
      RoundPush(code, greedy, g.prog.ranges[id], k, q, s, stk, rs);
    }
  }

  lemma RoundPush(code: Program, greedy: bool, r: Range, k: nat, q: int, s: nat, stk: Stack, rs: map<nat, nat>)
    requires k < |stk| && stk[k].Repeat? && TableStk(code, stk, rs) && TableAt(code, q, stk)
             && TableAt(code, stk[k].pcode, stk)
    ensures TableInv(code, if greedy then IncGreedy(r, k, q, s, stk) else IncLazy(r, k, q, s, stk), rs)
  {
    hide TableStk, TableAt;
    var back := stk[k].pcode;
    var stk1 := stk[k := stk[k].(count := stk[k].count + 1)];
    CountedTable(code, stk, k, rs, q, back);
    PushTable(code, stk1, RepeatInc(k), rs);
    PushAt(code, q, stk1, RepeatInc(k));
    PushAt(code, back, stk1, RepeatInc(k));
    if greedy {
      PushTwo(code, back, stk1, StkAlt(q, s), RepeatInc(k), rs);
    } else {
      PushTwo(code, q, stk1, RepeatInc(k), StkAlt(back, s), rs);
    }
  }

  lemma RepeatTable(g: Image, greedy: bool, p: int, s: nat, stk: Stack, rs: map<nat, nat>)
    requires ProgOk(g) && Opener(g.prog.code, p) && TableStk(g.prog.code, stk, rs) && TableAt(g.prog.code, p, stk)
    ensures var i := g.prog.code[p].i;
            TableInv(g.prog.code, ExecRepeat(g.prog, CounterId(i), greedy, i.addr, p + SIZE_OP_REPEAT, s, stk),
                     rs[CounterId(i) := |stk|])
  {
    hide TableStk, TableAt, ProgOk;
    var code := g.prog.code;
    var i := code[p].i;
    var id := CounterId(i);
    var q := p + SIZE_OP_REPEAT;
    var t := q + i.addr;
    var rs' := rs[id := |stk|];
    var b := stk + [Repeat(0, q, id)];
    StartTable(g, p, stk, rs);
    OpenerForward(g, p);
    Further(code, q, t, b);
    hide Opener, At;
    PushTable(code, b, StkAlt(t, s), rs');
    PushAt(code, q, b, StkAlt(t, s));
    PushTable(code, b, StkAlt(q, s), rs');
    PushAt(code, t, b, StkAlt(q, s));
  }

  lemma OpenerCloses(g: Image, p: int)
    requires ProgOk(g) && Opener(g.prog.code, p)
    ensures Target(g.prog.code[p].i, p).Some?
    ensures Closes(g.prog.code, p, Target(g.prog.code[p].i, p).value - SIZE_OP_REPEAT_INC)
  {
    CellAt(g, p);
    hide ProgOk, EmptyExit, Boundary, MemBits, TableCounter, Closes;
  }

  lemma OpenerForward(g: Image, p: int)
    requires ProgOk(g) && Opener(g.prog.code, p)
    ensures g.prog.code[p].i.addr >= 0
  {
    hide ProgOk;
    OpenerCloses(g, p);
    var i := g.prog.code[p].i;
    assert Target(i, p) == Some(p + SIZE_OP_REPEAT + i.addr);
  }

  lemma {:induction false} VoidReduces(stk: Stack, m: Mark)
    requires VoidTo(stk, m).Some?
    ensures |VoidTo(stk, m).value.0| == |stk| && Reduces(stk, VoidTo(stk, m).value.0)
  {
    var n := |stk| - 1;
    if ToVoidTarget(stk[n]) || !IsMark(stk[n], m) {
      VoidReduces(stk[..n], m);
      var w := VoidTo(stk[..n], m).value.0;
      forall i | 0 <= i < n ensures Reduced(stk[i], w[i]) { assert Reduced(stk[..n][i], w[i]); }
    }
  }

  lemma ReducesTrans(a: Stack, b: Stack, c: Stack)
    requires Reduces(a, b) && Reduces(b, c)
    ensures Reduces(a, c)
  {
    forall i | 0 <= i < |c| ensures Reduced(a[i], c[i]) { assert Reduced(a[i], b[i]) && Reduced(b[i], c[i]); }
  }

  lemma UndoReduces(stk: Stack)
    requires stk != []
    ensures var u := Undo(stk[|stk| - 1], stk[..|stk| - 1]); u.Some? ==> |u.value| < |stk| && Reduces(stk, u.value)
  {
  }

  lemma {:induction false} PopTilReduces(stk: Stack, m: Mark)
    requires PopTil(stk, m).Some?
    ensures Reduces(stk, PopTil(stk, m).value)
    decreases |stk|
  {
    var n := |stk| - 1;
    if !IsMark(stk[n], m) {
      UndoReduces(stk);
      var u := Undo(stk[n], stk[..n]).value;
      PopTilReduces(u, m);
      ReducesTrans(stk, u, PopTil(u, m).value);
    }
  }

  lemma ReworkTable(g: Image, x: Subject, i: Instr, p: int, s: nat, stk: Stack, rs: map<nat, nat>)
    requires ProgOk(g) && At(g.prog.code, p) && g.prog.code[p].i == i && Reworks(i)
    requires TableStk(g.prog.code, stk, rs) && TableAt(g.prog.code, p, stk)
    ensures TableInv(g.prog.code, Exec(g.prog, x, i, p + Size(i), s, stk), if OpensCounter(i) then
            rs[CounterId(i) := |stk|] else rs)
  {
    hide TableStk, TableAt, ProgOk, VoidTo, PopTil, StarLoop, ExecInc, ExecRepeat, Reduces;
    var code := g.prog.code;
    Further(code, p, p + Size(i), stk);
    match i
    case OpAnyCharStar(ml) => StarTable(code, x, ml, None, p + Size(i), s, stk, rs);
    case OpAnyCharStarPeekNext(ml, c) => StarTable(code, x, ml, Some(c), p + Size(i), s, stk, rs);
    case OpPop => if stk != [] { DropTable(code, p + Size(i), stk, stk[..|stk| - 1], rs); }
    case OpRepeat(id, addr) => RepeatTable(g, true, p, s, stk, rs);
    case OpRepeatNg(id, addr) => RepeatTable(g, false, p, s, stk, rs);
    case OpRepeatInc(id) => IncTable(g, true, p, s, stk, rs);
    case OpRepeatIncSg(id) => IncTable(g, true, p, s, stk, rs);
    case OpRepeatIncNg(id) => IncTable(g, false, p, s, stk, rs);
    case OpRepeatIncNgSg(id) => IncTable(g, false, p, s, stk, rs);
    case OpPopPos => VoidTable(code, p + Size(i), stk, MarkPos, rs);
    case OpPopStopBt => VoidTable(code, p + Size(i), stk, MarkStopBt, rs);
    case OpFailPos => TilTable(code, stk, MarkPosNot, rs);
    case OpFailLookBehindNot => TilTable(code, stk, MarkLookBehindNot, rs);
  }

  lemma DropTable(code: Program, q: int, stk: Stack, b: Stack, rs: map<nat, nat>)
    requires TableStk(code, stk, rs) && TableAt(code, q, stk) && |b| <= |stk| && b == stk[..|b|]
    ensures TableStk(code, b, rs) && TableAt(code, q, b)
  {
    assert Reduces(stk, b);
    ReducedTable(code, stk, b, rs);
    ReducedAt(code, q, stk, b);
  }

  lemma VoidTable(code: Program, q: int, stk: Stack, m: Mark, rs: map<nat, nat>)
    requires TableStk(code, stk, rs) && TableAt(code, q, stk)
    ensures var v := VoidTo(stk, m); v.Some? ==> TableStk(code, v.value.0, rs) && TableAt(code, q, v.value.0)
  {
    if VoidTo(stk, m).Some? {
      VoidReduces(stk, m);
      ReducedTable(code, stk, VoidTo(stk, m).value.0, rs);
      ReducedAt(code, q, stk, VoidTo(stk, m).value.0);
    }
  }

  lemma TilTable(code: Program, stk: Stack, m: Mark, rs: map<nat, nat>)
    requires TableStk(code, stk, rs)
    ensures var v := PopTil(stk, m); v.Some? ==> TableStk(code, v.value, rs)
  {
    if PopTil(stk, m).Some? {
      PopTilReduces(stk, m);
      ReducedTable(code, stk, PopTil(stk, m).value, rs);
    }
  }

  lemma FailTable(code: Program, stk: Stack, rs: map<nat, nat>)
    requires TableStk(code, stk, rs)
    ensures TableInv(code, PopOne(stk), rs)
  {
    if stk != [] {
      var n := |stk| - 1;
      var e := stk[n];
      if PopUsed(e) {
        forall i | 0 <= i < n ensures Past(code, e.pcode, stk[i]) { assert Above(code, stk, i, n); }
        assert Reduces(stk, stk[..n]);
        ReducedTable(code, stk, stk[..n], rs);
      } else {
        UndoReduces(stk);
        var u := Undo(e, stk[..n]);
        if u.Some? { ReducedTable(code, stk, u.value, rs); }
      }
    }
  }

  /** One step of a compiled program keeps the table right. */
  lemma StepTable(g: Image, x: Subject, st: State, rs: map<nat, nat>)
    requires ProgOk(g) && TableInv(g.prog.code, st, rs)
    ensures TableInv(g.prog.code, Step(g.prog, x, st), TableAfter(g.prog, st, rs))
  {
    hide TableStk, TableAt, ProgOk, Exec, PopOne, Reworks;
    match st
    case Run(p, s, stk) =>
      var f := Fetch(g.prog, p);
      if p == FINISH_CODE {
        FinishExec(g.prog, x, p + Size(OpFinish), s, stk);
      } else if f.Some? {
        if Reworks(f.value) {
          ReworkTable(g, x, f.value, p, s, stk, rs);
        } else {
          NotOpener(f.value);
          PlainTable(g, x, f.value, p, s, stk, rs);
        }
      }
    case Fail(stk) => FailTable(g.prog.code, stk, rs);
    case _ =>
  }

  lemma NotOpener(i: Instr)
    requires !Reworks(i)
    ensures !OpensCounter(i)
  {
  }

  lemma FinishExec(prog: Prog, x: Subject, q: int, s: nat, stk: Stack)
    ensures Exec(prog, x, OpFinish, q, s, stk) == Finished
  {
  }
}
