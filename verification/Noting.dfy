/** The machine that notes every group runs the same way as the one that does not: without the extra entries its
    stack is that of the other. */
module Noting {
  import opened Regint
  import opened Regcomp
  import opened Machine
  import opened Layout
  import opened Levels

  /** The matcher pushes this entry too. */
  predicate Stays(cfg: Cfg, e: Entry) {
    match e
    case MemStart(k, _) => k in cfg.btMemStart
    case MemEnd(k, _) => k in cfg.btMemEnd
    case _ => true
  }

  function Count(cfg: Cfg, path: Stack): nat {
    if path == [] then 0 else Count(cfg, path[..|path| - 1]) + if Stays(cfg, path[|path| - 1]) then 1 else 0
  }

  /** An increment entry knows its counter by index. */
  function Moved(cfg: Cfg, e: Entry, below: Stack): Entry {
    if e.RepeatInc? && e.si <= |below| then RepeatInc(Count(cfg, below[..e.si])) else e
  }

  /** The stack without the entries that are only notes. */
  function Strip(cfg: Cfg, path: Stack): (r: Stack)
    ensures |r| == Count(cfg, path)
  {
    if path == [] then []
    else
      var below := path[..|path| - 1];
      var e := path[|path| - 1];
      if Stays(cfg, e) then Strip(cfg, below) + [Moved(cfg, e, below)] else Strip(cfg, below)
  }

  lemma StripPush(cfg: Cfg, path: Stack, e: Entry)
    ensures Strip(cfg, path + [e]) == Strip(cfg, path) + if Stays(cfg, e) then [Moved(cfg, e, path)] else []
    ensures Count(cfg, path + [e]) == Count(cfg, path) + if Stays(cfg, e) then 1 else 0
  {
    assert (path + [e])[..|path|] == path;
  }

  lemma {:induction false} StripAt(cfg: Cfg, path: Stack, i: nat)
    requires i < |path| && Stays(cfg, path[i])
    ensures Count(cfg, path[..i]) < Count(cfg, path)
    ensures Strip(cfg, path)[Count(cfg, path[..i])] == Moved(cfg, path[i], path[..i])
    decreases |path|
  {
    var n := |path| - 1;
    if i < n {
      StripAt(cfg, path[..n], i);
      assert path[..n][..i] == path[..i];
    }
  }

  /** Which entries stay depends on nothing but the kinds of the entries. */
  lemma {:induction false} SamePattern(cfg: Cfg, a: Stack, b: Stack, n: nat)
    requires |a| == |b| && n <= |a| && forall i :: 0 <= i < |a| ==> Stays(cfg, a[i]) == Stays(cfg, b[i])
    ensures Count(cfg, a[..n]) == Count(cfg, b[..n])
    decreases n
  {
    if n > 0 {
      assert a[..n][..n - 1] == a[..n - 1] && b[..n][..n - 1] == b[..n - 1];
      SamePattern(cfg, a, b, n - 1);
    }
  }

  /** A counter or a blanked entry changes in place. */
  lemma {:induction false} StripPut(cfg: Cfg, path: Stack, i: nat, e: Entry)
    requires i < |path| && NoMem(path[i]) && NoMem(e) && !path[i].RepeatInc? && !e.RepeatInc?
    ensures Count(cfg, path[..i]) < Count(cfg, path)
    ensures Strip(cfg, path[i := e]) == Strip(cfg, path)[Count(cfg, path[..i]) := e]
    decreases |path|
  {
    StripAt(cfg, path, i);
    var n := |path| - 1;
    var below := path[..n];
    if i == n {
      assert path[i := e][..n] == below;
    } else {
      var below' := below[i := e];
      assert path[i := e][..n] == below';
      assert path[..i] == below[..i];
      StripPut(cfg, below, i, e);
      var top := path[n];
      if top.RepeatInc? && top.si <= n { SamePattern(cfg, below, below', top.si); }
      assert path[i := e][n] == top;
    }
  }

  // ----- scans -----

  lemma {:induction false} FindRepeatStrip(cfg: Cfg, path: Stack, id: nat)
    ensures FindRepeat(Strip(cfg, path), id) ==
            match FindRepeat(path, id) { case None => None case Some(k) => Some(Count(cfg, path[..k])) }
    decreases |path|
  {
    if path != [] {
      var n := |path| - 1;
      FindRepeatStrip(cfg, path[..n], id);
      var s := Strip(cfg, path);
      if Stays(cfg, path[n]) { assert s[..|s| - 1] == Strip(cfg, path[..n]); }
      var r := FindRepeat(path[..n], id);
      if r.Some? { assert path[..n][..r.value] == path[..r.value]; }
    }
  }

  lemma {:induction false} FindNullCheckStrip(cfg: Cfg, path: Stack, id: nat)
    ensures FindNullCheck(Strip(cfg, path), id) == FindNullCheck(path, id)
    decreases |path|
  {
    if path != [] {
      var n := |path| - 1;
      FindNullCheckStrip(cfg, path[..n], id);
      var s := Strip(cfg, path);
      if Stays(cfg, path[n]) { assert s[..|s| - 1] == Strip(cfg, path[..n]); }
    }
  }

  lemma {:induction false} VoidPattern(cfg: Cfg, path: Stack, m: Mark)
    requires VoidTo(path, m).Some?
    ensures var r := VoidTo(path, m).value.0;
            |r| == |path| && forall i :: 0 <= i < |r| ==> r[i] == path[i] || (NoMem(r[i]) && NoMem(path[i]))
    decreases |path|
  {
    var n := |path| - 1;
    if ToVoidTarget(path[n]) || !IsMark(path[n], m) { VoidPattern(cfg, path[..n], m); }
  }

  lemma StripTop(cfg: Cfg, path: Stack)
    requires path != [] && Stays(cfg, path[|path| - 1])
    ensures var s := Strip(cfg, path);
            var below := path[..|path| - 1];
            s != [] && s[..|s| - 1] == Strip(cfg, below) && s[|s| - 1] == Moved(cfg, path[|path| - 1], below)
  {
    var s := Strip(cfg, path);
    assert s[..|s| - 1] == Strip(cfg, path[..|path| - 1]);
  }

  /** Moving an entry changes nothing that a scan looks at. */
  lemma MovedKind(cfg: Cfg, e: Entry, below: Stack, m: Mark)
    ensures ToVoidTarget(Moved(cfg, e, below)) == ToVoidTarget(e) && IsMark(Moved(cfg, e, below), m) == IsMark(e, m)
    ensures ToVoidTarget(e) || IsMark(e, m) ==> Moved(cfg, e, below) == e
  {
  }

  /** The top entry on the way to the mark. */
  lemma VoidTop(cfg: Cfg, path: Stack, m: Mark, r: (Stack, Entry))
    requires path != [] && Stays(cfg, path[|path| - 1]) && VoidTo(path[..|path| - 1], m) == Some(r)
    requires ToVoidTarget(path[|path| - 1]) || !IsMark(path[|path| - 1], m)
    requires VoidTo(Strip(cfg, path[..|path| - 1]), m) == Some((Strip(cfg, r.0), r.1))
    requires Moved(cfg, path[|path| - 1], path[..|path| - 1]) == Moved(cfg, path[|path| - 1], r.0)
    ensures VoidTo(path, m).Some?
    ensures VoidTo(Strip(cfg, path), m) == Some((Strip(cfg, VoidTo(path, m).value.0), VoidTo(path, m).value.1))
  {
    hide *;
    var e := path[|path| - 1];
    var s := Strip(cfg, path);
    StripTop(cfg, path);
    MovedKind(cfg, e, path[..|path| - 1], m);
    VoidUnfold(path, m);
    VoidUnfold(s, m);
    StripPush(cfg, r.0, if ToVoidTarget(e) then Void else e);
    VoidStays(cfg, r.0);
  }

  lemma VoidStays(cfg: Cfg, below: Stack)
    ensures Stays(cfg, Void) && Moved(cfg, Void, below) == Void
  {
  }

  lemma VoidUnfold(stk: Stack, m: Mark)
    requires stk != []
    ensures var e := stk[|stk| - 1];
            var r := VoidTo(stk[..|stk| - 1], m);
            && (ToVoidTarget(e) && r.Some? ==> VoidTo(stk, m) == Some((r.value.0 + [Void], r.value.1)))
            && (!ToVoidTarget(e) && !IsMark(e, m) && r.Some? ==> VoidTo(stk, m) == Some((r.value.0 + [e], r.value.1)))
  {
  }

  lemma {:induction false} VoidToStrip(cfg: Cfg, path: Stack, m: Mark)
    requires VoidTo(path, m).Some?
    ensures var r := VoidTo(path, m).value;
            VoidTo(Strip(cfg, path), m) == Some((Strip(cfg, r.0), r.1))
    decreases |path|
  {
    var n := |path| - 1;
    var e, below := path[n], path[..n];
    var s := Strip(cfg, path);
    if ToVoidTarget(e) || !IsMark(e, m) {
      var r := VoidTo(below, m).value;
      VoidToStrip(cfg, below, m);
      VoidPattern(cfg, below, m);
      if e.RepeatInc? && e.si <= n { SamePattern(cfg, below, r.0, e.si); }
      if Stays(cfg, e) {
        StripTop(cfg, path);
        VoidTop(cfg, path, m, r);
      } else {
        StripPush(cfg, r.0, e);
      }
    } else {
      StripTop(cfg, path);
      StripPush(cfg, below, Void);
    }
  }

  lemma UndoStrip(cfg: Cfg, e: Entry, below: Stack)
    requires Undo(e, below).Some? && Stays(cfg, e)
    ensures Undo(Moved(cfg, e, below), Strip(cfg, below)) == Some(Strip(cfg, Undo(e, below).value))
  {
    if e.RepeatInc? {
      var r := below[e.si];
      StripAt(cfg, below, e.si);
      StripPut(cfg, below, e.si, r.(count := r.count - 1));
    }
  }

  lemma {:induction false} PopTilStrip(cfg: Cfg, path: Stack, m: Mark)
    requires PopTil(path, m).Some?
    ensures PopTil(Strip(cfg, path), m) == Some(Strip(cfg, PopTil(path, m).value))
    decreases |path|
  {
    var n := |path| - 1;
    var e, below := path[n], path[..n];
    var s := Strip(cfg, path);
    if Stays(cfg, e) { assert s[..|s| - 1] == Strip(cfg, below); }
    if !IsMark(e, m) {
      if Stays(cfg, e) { UndoStrip(cfg, e, below); }
      PopTilStrip(cfg, Undo(e, below).value, m);
    }
  }

  // ----- single steps -----

  function StripState(cfg: Cfg, st: State): State {
    match st
    case Run(p, s, stk) => Run(p, s, Strip(cfg, stk))
    case Fail(stk) => Fail(Strip(cfg, stk))
    case Accept(s, stk) => Accept(s, Strip(cfg, stk))
    case _ => st
  }

  lemma PushOne(cfg: Cfg, path: Stack, e: Entry)
    requires NoMem(e) && !e.RepeatInc?
    ensures Strip(cfg, path + [e]) == Strip(cfg, path) + [e]
  {
    StripPush(cfg, path, e);
  }

  lemma {:induction false} StarStrip(cfg: Cfg, x: Subject, ml: bool, peek: Option<byte>, q: int, s: nat, path: Stack)
    ensures StarLoop(x, ml, peek, q, s, Strip(cfg, path)) == StripState(cfg, StarLoop(x, ml, peek, q, s, path))
    decreases |x.text| - s
  {
    if s < |x.text| {
      PushOne(cfg, path, StkAlt(q, s));
      var path' := if peek.None? || peek.value == x.text[s] then path + [StkAlt(q, s)] else path;
      if ml || x.text[s] != NEWLINE { StarStrip(cfg, x, ml, peek, q, s + 1, path'); }
    }
  }

  /** Counting up, and noting that. */
  lemma CountUp(cfg: Cfg, path: Stack, k: nat)
    requires k < |path| && path[k].Repeat?
    ensures var e := path[k].(count := path[k].count + 1);
            var j := Count(cfg, path[..k]);
            && j < |Strip(cfg, path)| && Strip(cfg, path)[j] == path[k]
            && Strip(cfg, path[k := e]) == Strip(cfg, path)[j := e]
            && Count(cfg, path[k := e][..k]) == j
  {
    StripAt(cfg, path, k);
    StripPut(cfg, path, k, path[k].(count := path[k].count + 1));
    assert path[k := path[k].(count := path[k].count + 1)][..k] == path[..k];
  }

  lemma IncStrip(cfg: Cfg, prog: Prog, id: nat, greedy: bool, q: int, s: nat, path: Stack)
    requires ExecInc(prog, id, greedy, q, s, path) != Stuck
    ensures ExecInc(prog, id, greedy, q, s, Strip(cfg, path)) ==
            StripState(cfg, ExecInc(prog, id, greedy, q, s, path))
  {
    FindRepeatStrip(cfg, path, id);
    var k := FindRepeat(path, id).value;
    CountUp(cfg, path, k);
    var r := prog.ranges[id];
    if greedy { GreedyStrip(cfg, r, k, q, s, path); } else { LazyStrip(cfg, r, k, q, s, path); }
  }

  lemma GreedyStrip(cfg: Cfg, r: Range, k: nat, q: int, s: nat, path: Stack)
    requires k < |path| && path[k].Repeat?
    ensures Count(cfg, path[..k]) < |Strip(cfg, path)| && Strip(cfg, path)[Count(cfg, path[..k])].Repeat?
    ensures IncGreedy(r, Count(cfg, path[..k]), q, s, Strip(cfg, path)) == StripState(cfg, IncGreedy(r, k, q, s, path))
  {
    hide Strip, Count;
    CountUp(cfg, path, k);
    var stk1 := path[k := path[k].(count := path[k].count + 1)];
    var alt := StkAlt(q, s);
    StripPush(cfg, stk1, RepeatInc(k));
    PushOne(cfg, stk1, alt);
    StripPush(cfg, stk1 + [alt], RepeatInc(k));
    assert (stk1 + [alt])[..k] == stk1[..k];
    assert stk1 + [alt] + [RepeatInc(k)] == stk1 + [alt, RepeatInc(k)];
    assert Strip(cfg, stk1) + [alt] + [RepeatInc(Count(cfg, path[..k]))] ==
           Strip(cfg, stk1) + [alt, RepeatInc(Count(cfg, path[..k]))];
  }

  lemma LazyStrip(cfg: Cfg, r: Range, k: nat, q: int, s: nat, path: Stack)
    requires k < |path| && path[k].Repeat? && IncLazy(r, k, q, s, path) != Stuck
    ensures Count(cfg, path[..k]) < |Strip(cfg, path)| && Strip(cfg, path)[Count(cfg, path[..k])].Repeat?
    ensures IncLazy(r, Count(cfg, path[..k]), q, s, Strip(cfg, path)) == StripState(cfg, IncLazy(r, k, q, s, path))
  {
    hide Strip, Count, Stays, Moved;
    CountUp(cfg, path, k);
    var e := path[k].(count := path[k].count + 1);
    var stk1 := path[k := e];
    var alt := StkAlt(e.pcode, s);
    StripPush(cfg, stk1, RepeatInc(k));
    IncStays(cfg, stk1, k);
    PushOne(cfg, stk1 + [RepeatInc(k)], alt);
    assert stk1 + [RepeatInc(k)] + [alt] == stk1 + [RepeatInc(k), alt];
  }

  lemma IncStays(cfg: Cfg, stk: Stack, k: nat)
    requires k <= |stk|
    ensures Stays(cfg, RepeatInc(k)) && Moved(cfg, RepeatInc(k), stk) == RepeatInc(Count(cfg, stk[..k]))
  {
  }

  lemma RepeatStrip(cfg: Cfg, prog: Prog, id: nat, greedy: bool, addr: int, q: int, s: nat, path: Stack)
    ensures ExecRepeat(prog, id, greedy, addr, q, s, Strip(cfg, path)) ==
            StripState(cfg, ExecRepeat(prog, id, greedy, addr, q, s, path))
  {
    hide Strip;
    var stk1 := path + [Repeat(0, q, id)];
    PushOne(cfg, path, Repeat(0, q, id));
    PushOne(cfg, stk1, StkAlt(q + addr, s));
    PushOne(cfg, stk1, StkAlt(q, s));
  }

  /** The two machines. */
  function Noter(prog: Prog): Prog { prog.(rec := true) }

  lemma NullStrip(cfg: Cfg, prog: Prog, id: nat, q: int, s: nat, path: Stack)
    requires ExecNullCheckEnd(Noter(prog), id, q, s, path) != Stuck
    ensures ExecNullCheckEnd(prog, id, q, s, Strip(cfg, path)) ==
            StripState(cfg, ExecNullCheckEnd(Noter(prog), id, q, s, path))
  {
    FindNullCheckStrip(cfg, path, id);
  }

  lemma PopStrip(cfg: Cfg, path: Stack)
    requires path != [] && path[|path| - 1].StkAlt?
    ensures var s := Strip(cfg, path);
            s != [] && s[|s| - 1].StkAlt? && s[..|s| - 1] == Strip(cfg, path[..|path| - 1])
  {
    var s := Strip(cfg, path);
    assert s[..|s| - 1] == Strip(cfg, path[..|path| - 1]);
  }

  ghost predicate SameExec(cfg: Cfg, prog: Prog, x: Subject, i: Instr, q: int, s: nat, path: Stack) {
    Exec(prog, x, i, q, s, Strip(cfg, path)) == StripState(cfg, Exec(Noter(prog), x, i, q, s, path))
  }

  predicate StarInstr(i: Instr) { i.OpAnyCharStar? || i.OpAnyCharStarPeekNext? }

  predicate MarkInstr(i: Instr) { i.OpPopPos? || i.OpFailPos? || i.OpPopStopBt? || i.OpFailLookBehindNot? }

  lemma StarExec(cfg: Cfg, prog: Prog, x: Subject, i: Instr, q: int, s: nat, path: Stack)
    requires StarInstr(i)
    ensures SameExec(cfg, prog, x, i, q, s, path)
  {
    hide Strip, StarLoop;
    StarStrip(cfg, x, i.ml, if i.OpAnyCharStar? then None else Some(i.c), q, s, path);
  }

  lemma CounterExec(cfg: Cfg, prog: Prog, x: Subject, i: Instr, q: int, s: nat, path: Stack)
    requires OpensCounter(i) || CounterInc(i)
    requires Exec(Noter(prog), x, i, q, s, path) != Stuck
    ensures SameExec(cfg, prog, x, i, q, s, path)
  {
    hide Strip, ExecInc, ExecRepeat;
    SameInc(prog, q, s, path);
    if OpensCounter(i) {
      RepeatStrip(cfg, prog, i.id, i.OpRepeat?, i.addr, q, s, path);
    } else {
      IncStrip(cfg, prog, CounterId(i), i.OpRepeatInc? || i.OpRepeatIncSg?, q, s, path);
    }
  }

  lemma SameInc(prog: Prog, q: int, s: nat, path: Stack)
    ensures forall id, greedy, addr ::
              ExecRepeat(Noter(prog), id, greedy, addr, q, s, path) == ExecRepeat(prog, id, greedy, addr, q, s, path)
    ensures forall id, greedy ::
              ExecInc(Noter(prog), id, greedy, q, s, path) == ExecInc(prog, id, greedy, q, s, path)
  {
    hide FindRepeat, IncGreedy, IncLazy;
  }

  lemma MarkExec(cfg: Cfg, prog: Prog, x: Subject, i: Instr, q: int, s: nat, path: Stack)
    requires MarkInstr(i) && Exec(Noter(prog), x, i, q, s, path) != Stuck
    ensures SameExec(cfg, prog, x, i, q, s, path)
  {
    hide Strip, VoidTo, PopTil;
    match i {
      case OpPopPos => VoidToStrip(cfg, path, MarkPos);
      case OpPopStopBt => VoidToStrip(cfg, path, MarkStopBt);
      case OpFailPos => PopTilStrip(cfg, path, MarkPosNot);
      case OpFailLookBehindNot => PopTilStrip(cfg, path, MarkLookBehindNot);
    }
  }

  lemma OtherExec(cfg: Cfg, prog: Prog, x: Subject, i: Instr, q: int, s: nat, path: Stack)
    requires i.OpNullCheckEnd? || i.OpPop?
    requires Exec(Noter(prog), x, i, q, s, path) != Stuck
    ensures SameExec(cfg, prog, x, i, q, s, path)
  {
    hide Strip, ExecNullCheckEnd;
    if i.OpPop? { PopStrip(cfg, path); } else { NullStrip(cfg, prog, i.id, q, s, path); }
  }

  /** Instructions that push one entry. */
  predicate PushInstr(i: Instr) {
    !NoGroup(i) || i.OpPush? || i.OpPushOrJumpExact1? || i.OpPushIfPeekNext? || i.OpNullCheckStart? || i.OpPushPos?
      || i.OpPushPosNot? || i.OpPushStopBt? || i.OpPushLookBehindNot?
  }

  lemma PushExec(cfg: Cfg, prog: Prog, x: Subject, i: Instr, q: int, s: nat, path: Stack)
    requires PushInstr(i) && NoGroup(i)
    ensures SameExec(cfg, prog, x, i, q, s, path)
  {
    var e := PushedBy(i, q, s);
    PushOne(cfg, path, e);
    PushesOne(prog, x, i, q, s, Strip(cfg, path));
    PushesOne(Noter(prog), x, i, q, s, path);
    hide Strip, Exec, PushedBy;
  }

  function PushedBy(i: Instr, q: int, s: nat): Entry
    requires PushInstr(i) && NoGroup(i)
  {
    match i
    case OpPush(addr) => StkAlt(q + addr, s)
    case OpPushOrJumpExact1(addr, _) => StkAlt(q + addr, s)
    case OpPushIfPeekNext(addr, _) => StkAlt(q + addr, s)
    case OpNullCheckStart(id) => NullCheckStart(id, s)
    case OpPushPos => Pos(s)
    case OpPushPosNot(addr) => StkPosNot(q + addr, s)
    case OpPushStopBt => StopBt
    case OpPushLookBehindNot(addr, _) => StkLookBehindNot(q + addr, s)
  }

  /** Where such an instruction goes, whatever the stack. */
  function GoesTo(x: Subject, i: Instr, q: int, s: nat): (int, int, bool)
    requires PushInstr(i) && NoGroup(i)
  {
    match i
    case OpPushOrJumpExact1(addr, c) =>
      if ReadByte(x, s) == c && s + 1 <= |x.text| then (q, s, true) else (q + addr, s, false)
    case OpPushIfPeekNext(_, c) => (q, s, ReadByte(x, s) == c)
    case OpPushLookBehindNot(addr, n) => if s < n then (q + addr, s, false) else (q, s - n, true)
    case _ => (q, s, true)
  }

  lemma PushesOne(prog: Prog, x: Subject, i: Instr, q: int, s: nat, stk: Stack)
    requires PushInstr(i) && NoGroup(i)
    ensures var g := GoesTo(x, i, q, s);
            && NoMem(PushedBy(i, q, s)) && !PushedBy(i, q, s).RepeatInc? && g.1 >= 0
            && Exec(prog, x, i, q, s, stk) == Run(g.0, g.1, if g.2 then stk + [PushedBy(i, q, s)] else stk)
  {
  }

  lemma MemExec(cfg: Cfg, prog: Prog, x: Subject, i: Instr, q: int, s: nat, path: Stack)
    requires !NoGroup(i) && !prog.rec && MemBits(cfg, i)
    ensures SameExec(cfg, prog, x, i, q, s, path)
  {
    hide Strip;
    StripPush(cfg, path, MemStart(i.num, s));
    StripPush(cfg, path, MemEnd(i.num, s));
  }

  /** The others look at the text only. */
  lemma TextExec(cfg: Cfg, prog: Prog, x: Subject, i: Instr, q: int, s: nat, path: Stack)
    requires !StarInstr(i) && !OpensCounter(i) && !CounterInc(i) && !MarkInstr(i) && !i.OpNullCheckEnd? && !i.OpPop?
    requires !PushInstr(i)
    ensures SameExec(cfg, prog, x, i, q, s, path)
  {
    hide Strip, HasAt, IsWord, ReadByte, AtAnchorEndLine, AtAnchorSemiEnd;
  }

  /** One instruction on both machines. */
  lemma ExecStrip(cfg: Cfg, prog: Prog, x: Subject, i: Instr, q: int, s: nat, path: Stack)
    requires !prog.rec && MemBits(cfg, i) && Exec(Noter(prog), x, i, q, s, path) != Stuck
    ensures Exec(prog, x, i, q, s, Strip(cfg, path)) == StripState(cfg, Exec(Noter(prog), x, i, q, s, path))
  {
    hide Exec, Strip, MemBits, StarInstr, OpensCounter, CounterInc, MarkInstr, PushInstr, NoGroup;
    if StarInstr(i) {
      StarExec(cfg, prog, x, i, q, s, path);
    } else if OpensCounter(i) || CounterInc(i) {
      CounterExec(cfg, prog, x, i, q, s, path);
    } else if MarkInstr(i) {
      MarkExec(cfg, prog, x, i, q, s, path);
    } else if i.OpNullCheckEnd? || i.OpPop? {
      OtherExec(cfg, prog, x, i, q, s, path);
    } else if !NoGroup(i) {
      MemExec(cfg, prog, x, i, q, s, path);
    } else if PushInstr(i) {
      PushExec(cfg, prog, x, i, q, s, path);
    } else {
      TextExec(cfg, prog, x, i, q, s, path);
    }
  }

  /** Popping an entry: one that is only a note makes no difference. */
  lemma PopOneStrip(cfg: Cfg, path: Stack)
    requires PopOne(path) != Stuck
    ensures if Stays(cfg, path[|path| - 1]) then PopOne(Strip(cfg, path)) == StripState(cfg, PopOne(path))
            else PopOne(path) == Fail(path[..|path| - 1]) && Strip(cfg, path[..|path| - 1]) == Strip(cfg, path)
  {
    var n := |path| - 1;
    var e, below := path[n], path[..n];
    var s := Strip(cfg, path);
    if Stays(cfg, e) {
      assert s[..|s| - 1] == Strip(cfg, below);
      if !PopUsed(e) { UndoStrip(cfg, e, below); }
    }
  }
}
