/** What the noting machine has noted agrees with the level of the address it is at, and under every choice point
    with the level of the address that is kept there. */
module PathLevels {
  import opened Regint
  import opened Regcomp
  import opened Machine
  import opened Enumeration
  import opened Layout
  import opened Levels
  import opened Tables
  import Undoing

  /** How often a path opens group k. */
  function Opens(path: Stack, k: nat): nat {
    if path == [] then 0
    else Opens(path[..|path| - 1], k) + if path[|path| - 1].MemStart? && path[|path| - 1].num == k then 1 else 0
  }

  predicate IsOpen(m: Noted) { m.start.Some? && m.end.None? }

  /** The rounds that the topmost counter of this number has made. */
  function Rounds(path: Stack, id: nat): nat {
    var f := FindRepeat(path, id);
    if f.Some? then Undoing.Incs(path, f.value) else 0
  }

  /** How often group k has been opened in the rounds that running counters have made. */
  function Owed(prog: Prog, path: Stack, loops: seq<Loop>, k: nat): nat {
    if loops == [] then 0
    else
      var p := loops[|loops| - 1];
      Owed(prog, path, loops[..|loops| - 1], k) + Rounds(path, p.id) * Weight(prog, p)[k]
  }

  ghost predicate AgreesOn(cfg: Cfg, prog: Prog, l: Level, path: Stack, k: nat) {
    && (k in l.open <==> IsOpen(NotedIn(path, k)))
    && (NotedIn(path, k).end.Some? ==> NotedIn(path, k).start.Some?)
    && (k !in cfg.btMemStart ==> l.passed[k] + Owed(prog, path, l.loops, k) == Opens(path, k))
  }

  /** A running counter has rounds to make. */
  ghost predicate Running(prog: Prog, path: Stack, loops: seq<Loop>) {
    forall j :: 0 <= j < |loops| ==> Rounds(path, loops[j].id) < Turns(prog, loops[j].id)
  }

  ghost predicate Agrees(cfg: Cfg, prog: Prog, l: Level, path: Stack) {
    (forall k: nat :: AgreesOn(cfg, prog, l, path, k)) && Running(prog, path, l.loops)
  }

  /** The address a is where a path like this one may go on. */
  ghost predicate Fitting(cfg: Cfg, prog: Prog, a: int, path: Stack) {
    a == FINISH_CODE || (0 <= a <= |prog.code| && Agrees(cfg, prog, LevelAt(prog, a), path))
  }

  ghost predicate EntryLeveled(cfg: Cfg, prog: Prog, path: Stack, i: nat)
    requires i < |path|
  {
    && (PopUsed(path[i]) ==> Fitting(cfg, prog, path[i].pcode, path[..i]))
    && Opened(prog.code, path[i])
  }

  ghost predicate StackLeveled(cfg: Cfg, prog: Prog, path: Stack) {
    forall i: nat :: i < |path| ==> EntryLeveled(cfg, prog, path, i)
  }

  ghost predicate StateLeveled(cfg: Cfg, prog: Prog, st: State) {
    match st
    case Run(p, _, path) => Fitting(cfg, prog, p, path) && StackLeveled(cfg, prog, path)
    case Fail(path) => StackLeveled(cfg, prog, path)
    case _ => true
  }

  // ----- changes of the path -----

  /** What popping, blanking and counting do to a path: no note is touched, and no choice point comes about. */
  predicate Left(a: Entry, b: Entry) {
    b == a || (NoMem(a) && NoMem(b) && !PopUsed(b) && !a.RepeatInc? && !b.RepeatInc? && a.Repeat? == b.Repeat?
               && (b.Repeat? ==> a.pcode == b.pcode && a.num == b.num))
  }

  predicate Leaves(a: Stack, b: Stack) { |b| <= |a| && forall i :: 0 <= i < |b| ==> Left(a[i], b[i]) }

  lemma {:induction false} OpensSame(a: Stack, b: Stack, k: nat)
    requires |a| == |b| && Leaves(a, b)
    ensures Opens(a, k) == Opens(b, k)
    decreases |a|
  {
    if a != [] {
      assert Left(a[|a| - 1], b[|a| - 1]);
      OpensSame(a[..|a| - 1], b[..|a| - 1], k);
    }
  }

  lemma {:induction false} FindSame(a: Stack, b: Stack, id: nat)
    requires |a| == |b| && Leaves(a, b)
    ensures FindRepeat(a, id) == FindRepeat(b, id)
    decreases |a|
  {
    if a != [] {
      assert Left(a[|a| - 1], b[|a| - 1]);
      FindSame(a[..|a| - 1], b[..|b| - 1], id);
    }
  }

  lemma RoundsSame(a: Stack, b: Stack, id: nat)
    requires |a| == |b| && Leaves(a, b)
    ensures Rounds(a, id) == Rounds(b, id)
  {
    FindSame(a, b, id);
    hide FindRepeat;
    forall i | 0 <= i < |a| && (a[i].RepeatInc? || b[i].RepeatInc?) ensures a[i] == b[i] { assert Left(a[i], b[i]); }
    if FindRepeat(a, id).Some? { Undoing.IncsSame(a, b, FindRepeat(a, id).value); }
  }

  /** Only the rounds of counters with a fixed number of them count. */
  ghost predicate SameRounds(prog: Prog, a: Stack, b: Stack) {
    forall id: nat :: Fixed(prog, id) ==> Rounds(a, id) == Rounds(b, id)
  }

  predicate AllFixed(prog: Prog, loops: seq<Loop>) { forall j :: 0 <= j < |loops| ==> Fixed(prog, loops[j].id) }

  lemma {:induction false} LoopsFixed(prog: Prog, code: Program)
    ensures AllFixed(prog, LevelOf(prog, code).loops)
    decreases |code|
  {
    if code != [] {
      var n := |code| - 1;
      LoopsFixed(prog, code[..n]);
      if code[n].Op? { OverFixed(prog, code[n].i, n, LevelOf(prog, code[..n])); }
    }
  }

  lemma OverFixed(prog: Prog, i: Instr, a: int, l: Level)
    requires AllFixed(prog, l.loops)
    ensures AllFixed(prog, Over(prog, i, a, l).loops)
  {
  }

  lemma {:induction false} OwedSame(prog: Prog, a: Stack, b: Stack, loops: seq<Loop>, k: nat)
    requires forall j :: 0 <= j < |loops| ==> Rounds(a, loops[j].id) == Rounds(b, loops[j].id)
    ensures Owed(prog, a, loops, k) == Owed(prog, b, loops, k)
    decreases |loops|
  {
    hide Rounds, Weight;
    if loops != [] { OwedSame(prog, a, b, loops[..|loops| - 1], k); }
  }

  /** A path with the same notes and the same rounds. */
  lemma FittingMoved(cfg: Cfg, prog: Prog, p: int, a: Stack, b: Stack)
    requires Fitting(cfg, prog, p, a) && SameRounds(prog, a, b)
    requires forall k: nat :: NotedIn(a, k) == NotedIn(b, k) && Opens(a, k) == Opens(b, k)
    ensures Fitting(cfg, prog, p, b)
  {
    hide LevelOf, NotedIn, Opens, Rounds, Owed, Fixed;
    if p != FINISH_CODE {
      var l := LevelAt(prog, p);
      LoopsFixed(prog, prog.code[..p]);
      forall k: nat ensures AgreesOn(cfg, prog, l, b, k) {
        assert AgreesOn(cfg, prog, l, a, k);
        OwedSame(prog, a, b, l.loops, k);
      }
    }
  }

  lemma FittingSame(cfg: Cfg, prog: Prog, p: int, a: Stack, b: Stack)
    requires |a| == |b| && Leaves(a, b) && Fitting(cfg, prog, p, a)
    ensures Fitting(cfg, prog, p, b)
  {
    hide NotedIn, Opens, Rounds, Fitting, Fixed;
    forall i | 0 <= i < |a| ensures a[i] == b[i] || (NoMem(a[i]) && NoMem(b[i])) { assert Left(a[i], b[i]); }
    forall k: nat ensures NotedIn(a, k) == NotedIn(b, k) && Opens(a, k) == Opens(b, k) {
      NotedSame(a, b, k);
      OpensSame(a, b, k);
    }
    forall id: nat ensures Rounds(a, id) == Rounds(b, id) { RoundsSame(a, b, id); }
    FittingMoved(cfg, prog, p, a, b);
  }

  lemma LeavesTake(a: Stack, b: Stack, n: nat)
    requires Leaves(a, b) && n <= |b|
    ensures Leaves(a[..n], b[..n])
  {
  }

  lemma LeveledLeft(cfg: Cfg, prog: Prog, a: Stack, b: Stack)
    requires StackLeveled(cfg, prog, a) && Leaves(a, b)
    ensures StackLeveled(cfg, prog, b)
  {
    hide Fitting;
    forall i: nat | i < |b| ensures EntryLeveled(cfg, prog, b, i) {
      assert EntryLeveled(cfg, prog, a, i) && Left(a[i], b[i]);
      if PopUsed(b[i]) {
        LeavesTake(a, b, i);
        FittingSame(cfg, prog, b[i].pcode, a[..i], b[..i]);
      }
    }
  }

  lemma LeveledPush(cfg: Cfg, prog: Prog, path: Stack, e: Entry)
    requires StackLeveled(cfg, prog, path) && Opened(prog.code, e)
    requires PopUsed(e) ==> Fitting(cfg, prog, e.pcode, path)
    ensures StackLeveled(cfg, prog, path + [e])
  {
    hide Fitting, Opened;
    var b := path + [e];
    forall i: nat | i < |b| ensures EntryLeveled(cfg, prog, b, i) {
      if i < |path| {
        assert EntryLeveled(cfg, prog, path, i) && b[..i] == path[..i];
      } else {
        assert b[..i] == path;
      }
    }
  }

  /** An entry that is neither a note nor a counter or a round of one that has a fixed number of them. */
  ghost predicate Silent(prog: Prog, path: Stack, e: Entry) { NoMem(e) && SameRounds(prog, path, path + [e]) }

  lemma RoundsPush(path: Stack, e: Entry, id: nat)
    requires !(e.Repeat? && e.num == id) && (e.RepeatInc? ==> FindRepeat(path, id) != Some(e.si))
    ensures Rounds(path + [e], id) == Rounds(path, id)
  {
    assert (path + [e])[..|path|] == path;
    var f := FindRepeat(path, id);
    if f.Some? { Undoing.IncsPush(path, e, f.value); }
  }

  lemma NeutralSilent(prog: Prog, path: Stack, e: Entry)
    requires NoMem(e) && Undoing.Neutral(e)
    ensures Silent(prog, path, e)
  {
    hide Rounds, Fixed;
    forall id: nat ensures Rounds(path, id) == Rounds(path + [e], id) { RoundsPush(path, e, id); }
  }

  /** Counters whose number of rounds is not fixed. */
  lemma LightSilent(prog: Prog, path: Stack, e: Entry)
    requires || (e.Repeat? && !Fixed(prog, e.num))
             || (e.RepeatInc? && e.si < |path| && path[e.si].Repeat? && !Fixed(prog, path[e.si].num))
    ensures Silent(prog, path, e)
  {
    hide Rounds, Fixed;
    forall id: nat | Fixed(prog, id) ensures Rounds(path, id) == Rounds(path + [e], id) { RoundsPush(path, e, id); }
  }

  lemma FittingPush(cfg: Cfg, prog: Prog, a: int, path: Stack, e: Entry)
    requires Fitting(cfg, prog, a, path) && Silent(prog, path, e)
    ensures Fitting(cfg, prog, a, path + [e])
  {
    hide Fitting, SameRounds, Opens, NotedIn;
    forall k: nat ensures NotedIn(path, k) == NotedIn(path + [e], k) && Opens(path, k) == Opens(path + [e], k) {
      PushSilent(path, e, k);
    }
    FittingMoved(cfg, prog, a, path, path + [e]);
  }

  lemma PushSilent(path: Stack, e: Entry, k: nat)
    requires NoMem(e)
    ensures NotedIn(path, k) == NotedIn(path + [e], k) && Opens(path, k) == Opens(path + [e], k)
  {
    assert (path + [e])[..|path|] == path;
  }

  lemma {:induction false} VoidLeaves(path: Stack, m: Mark)
    requires VoidTo(path, m).Some?
    ensures |VoidTo(path, m).value.0| == |path| && Leaves(path, VoidTo(path, m).value.0)
    decreases |path|
  {
    var n := |path| - 1;
    if ToVoidTarget(path[n]) || !IsMark(path[n], m) { VoidLeaves(path[..n], m); }
  }

  lemma UndoLeaves(e: Entry, below: Stack)
    requires Undo(e, below).Some?
    ensures |Undo(e, below).value| == |below| && Leaves(below, Undo(e, below).value)
  {
  }

  lemma {:induction false} PopTilLeaves(path: Stack, m: Mark)
    requires PopTil(path, m).Some?
    ensures Leaves(path, PopTil(path, m).value)
    decreases |path|
  {
    var n := |path| - 1;
    if !IsMark(path[n], m) {
      UndoLeaves(path[n], path[..n]);
      var u := Undo(path[n], path[..n]).value;
      PopTilLeaves(u, m);
      var r := PopTil(u, m).value;
      forall i | 0 <= i < |r| ensures Left(path[i], r[i]) { assert Left(path[..n][i], u[i]) && Left(u[i], r[i]); }
    }
  }

  // ----- how often a group will be opened -----

  /** The openings still owed when every running counter is in its last round. */
  function Due(prog: Prog, loops: seq<Loop>, k: nat): nat {
    if loops == [] then 0
    else
      var p := loops[|loops| - 1];
      var n := Turns(prog, p.id);
      Due(prog, loops[..|loops| - 1], k) + (if n > 0 then n - 1 else 0) * Weight(prog, p)[k]
  }

  function Peak(prog: Prog, l: Level, k: nat): nat { l.passed[k] + Due(prog, l.loops, k) }

  lemma TimesLess(a: nat, b: nat, w: nat)
    requires a <= b
    ensures a * w <= b * w
  {
  }

  lemma {:induction false} OwedDue(prog: Prog, path: Stack, loops: seq<Loop>, k: nat)
    requires Running(prog, path, loops)
    ensures Owed(prog, path, loops, k) <= Due(prog, loops, k)
    decreases |loops|
  {
    hide Rounds, Turns, Weight;
    if loops != [] {
      var p := loops[|loops| - 1];
      OwedDue(prog, path, loops[..|loops| - 1], k);
      TimesLess(Rounds(path, p.id), Turns(prog, p.id) - 1, Weight(prog, p)[k]);
    }
  }

  /** Where the levels agree no group has been opened more often than the code ever will. */
  lemma OpensPeak(cfg: Cfg, prog: Prog, a: int, path: Stack, k: nat)
    requires Fitting(cfg, prog, a, path) && 0 <= a <= |prog.code| && k !in cfg.btMemStart
    ensures Opens(path, k) <= Peak(prog, LevelAt(prog, a), k)
  {
    FittingAgrees(cfg, prog, a, path);
    var l := LevelAt(prog, a);
    assert AgreesOn(cfg, prog, l, path, k);
    hide LevelAt, AgreesOn, Opens, NotedIn;
    OwedDue(prog, path, l.loops, k);
  }

  lemma PeakBegun(prog: Prog, id: nat, a: int, l: Level, k: nat)
    ensures Peak(prog, l, k) <= Peak(prog, Begun(prog, id, a, l), k)
  {
    var l' := Begun(prog, id, a, l);
    if l' != l { assert l'.loops[..|l'.loops| - 1] == l.loops; }
  }

  lemma PeakEnded(prog: Prog, id: nat, a: int, l: Level, body: Level, inc: Level, out: Level, k: nat)
    requires Rounded(prog, id, a, l, body, inc, out) && Fixed(prog, id)
    ensures Peak(prog, inc, k) == Peak(prog, out, k)
  {
    var w := inc.passed - l.passed;
    assert inc.loops[..|inc.loops| - 1] == l.loops && inc.loops[|inc.loops| - 1] == Loop(id, a, l.passed);
    TimesAt(Turns(prog, id), w, k);
    OneMore(Turns(prog, id), w[k]);
    assert inc.passed[k] == l.passed[k] + w[k];
    hide Weight, Times;
  }

  /** Behind an instruction it is as much, or more: one more behind OP_MEMORY_START. */
  lemma PeakNext(g: Image, p: int, i: Instr, k: nat)
    requires CodeLeveled(g) && At(g.prog.code, p) && g.prog.code[p].i == i
    ensures 0 <= p && p + Size(i) <= |g.prog.code|
    ensures Peak(g.prog, LevelAt(g.prog, p), k)
            + (if i.OpMemoryStart? && i.num == k then 1 else 0) <= Peak(g.prog, LevelAt(g.prog, p + Size(i)), k)
  {
    hide CodeLeveled, LevelCell, LevelAt, Peak, Size;
    CellLevel(g, p);
    CellOver(g.prog, p, i);
    if OpensCounter(i) {
      PeakBegun(g.prog, CounterId(i), p, LevelAt(g.prog, p), k);
    } else if CounterInc(i) {
      IncPeak(g, p, i, k);
    } else {
      PlainPeak(g.prog, i, p, LevelAt(g.prog, p), k);
    }
  }

  lemma CellOver(prog: Prog, p: int, i: Instr)
    requires At(prog.code, p) && prog.code[p].i == i && LevelCell(prog, p)
    ensures 0 <= p && p + Size(i) <= |prog.code| && LevelAt(prog, p + Size(i)) == Over(prog, i, p, LevelAt(prog, p))
    ensures OpensCounter(i) ==> LevelAt(prog, p + Size(i)) == Begun(prog, CounterId(i), p, LevelAt(prog, p))
    ensures CounterInc(i) ==> LevelAt(prog, p + Size(i)) == Ended(prog, CounterId(i), LevelAt(prog, p))
  {
    hide LevelAt, Begun, Ended, Opening;
  }

  lemma PlainPeak(prog: Prog, i: Instr, p: int, l: Level, k: nat)
    requires !OpensCounter(i) && !CounterInc(i)
    ensures Peak(prog, l, k) + (if i.OpMemoryStart? && i.num == k then 1 else 0) <= Peak(prog, Over(prog, i, p, l), k)
  {
    hide Due;
  }

  lemma IncPeak(g: Image, p: int, i: Instr, k: nat)
    requires CodeLeveled(g) && At(g.prog.code, p) && g.prog.code[p].i == i && CounterInc(i)
    requires 0 <= p && p + Size(i) <= |g.prog.code|
    requires LevelAt(g.prog, p + Size(i)) == Ended(g.prog, CounterId(i), LevelAt(g.prog, p))
    ensures Peak(g.prog, LevelAt(g.prog, p), k) <= Peak(g.prog, LevelAt(g.prog, p + Size(i)), k)
  {
    var id := CounterId(i);
    IncIsAt(g.prog.code, p, i);
    EndedLight(g.prog, id, LevelAt(g.prog, p));
    hide *;
    if Fixed(g.prog, id) {
      LeveledIs(g);
      IncCounts(g.prog.code, p, id);
      var b := OpenedBy(g, p);
      ClosesIs(g.prog.code, b, p);
      ClosesWith(g.prog.code, b, p, id);
      RoundLevels(g, p, b, id);
      PeakEnded(g.prog, id, b, LevelAt(g.prog, b), LevelAt(g.prog, b + SIZE_OP_REPEAT), LevelAt(g.prog, p),
                LevelAt(g.prog, p + SIZE_OP_REPEAT_INC), k);
    }
  }

  lemma EndedLight(prog: Prog, id: nat, l: Level)
    ensures !Fixed(prog, id) ==> Ended(prog, id, l) == l
  {
  }

  lemma IncCounts(code: Program, p: int, id: nat)
    requires IncAt(code, p, id)
    ensures At(code, p) && CounterInc(code[p].i)
  {
  }

  lemma ClosesWith(code: Program, b: int, p: int, id: nat)
    requires Closes(code, b, p) && IncAt(code, p, id)
    ensures OpenerWith(code, b, id)
  {
  }

  lemma {:induction false} PeakGrows(g: Image, a: int, b: int, k: nat)
    requires CodeLeveled(g) && 0 <= a <= b <= |g.prog.code|
    ensures Peak(g.prog, LevelAt(g.prog, a), k) <= Peak(g.prog, LevelAt(g.prog, b), k)
    decreases b
  {
    hide CodeLeveled, LevelAt, Peak;
    if a < b {
      PeakGrows(g, a, b - 1, k);
      PeakStep(g, b - 1, k);
    }
  }

  /** From one byte of the code to the next. */
  lemma PeakStep(g: Image, a: int, k: nat)
    requires CodeLeveled(g) && 0 <= a < |g.prog.code|
    ensures Peak(g.prog, LevelAt(g.prog, a), k) <= Peak(g.prog, LevelAt(g.prog, a + 1), k)
  {
    var code := g.prog.code;
    assert code[..a + 1][..a] == code[..a];
    if code[a].Op? {
      var i := code[a].i;
      var l := LevelAt(g.prog, a);
      assert LevelAt(g.prog, a + 1) == Over(g.prog, i, a, l);
      hide CodeLeveled, LevelOf;
      PeakNext(g, a, i, k);
      CellLevel(g, a);
      CellOver(g.prog, a, i);
    }
  }

  // ----- steps -----

  /** The code is that of a compiled program, and control keeps its levels. */
  ghost predicate CodeLeveled(g: Image) {
    ProgOk(g) && forall a :: At(g.prog.code, a) ==> LevelCell(g.prog, a)
  }

  lemma CellLevel(g: Image, a: int)
    requires CodeLeveled(g) && At(g.prog.code, a)
    ensures LevelCell(g.prog, a) && MemBits(g.cfg, g.prog.code[a].i)
  {
    CellAt(g, a);
    hide LevelCell, ProgOk;
  }

  /** Behind an instruction that opens and closes no group and no counter the level is the same. */
  lemma GoesOn(g: Image, i: Instr, p: int, path: Stack)
    requires CodeLeveled(g) && At(g.prog.code, p) && g.prog.code[p].i == i && Still(g.prog, i)
    requires Fitting(g.cfg, g.prog, p, path)
    ensures Fitting(g.cfg, g.prog, p + Size(i), path)
  {
    hide *;
    AtInside(g.prog.code, p);
    CellLevel(g, p);
    CellNext(g.prog, i, p);
    FittingAlike(g.cfg, g.prog, p, p + Size(i), path);
  }

  lemma AtInside(code: Program, p: int)
    requires At(code, p)
    ensures 0 <= p < |code|
  {
  }

  lemma CellNext(prog: Prog, i: Instr, p: int)
    requires At(prog.code, p) && prog.code[p].i == i && LevelCell(prog, p) && Still(prog, i)
    ensures 0 <= p && p + Size(i) <= |prog.code| && LevelAt(prog, p) == LevelAt(prog, p + Size(i))
  {
    StillOver(prog, i, p, LevelAt(prog, p));
    hide LevelAt, Target, SkipLoopEnd, Size, Over, Opening, Still;
  }

  /** So it is where it jumps. */
  lemma GoesTo(g: Image, i: Instr, p: int, t: int, path: Stack)
    requires CodeLeveled(g) && At(g.prog.code, p) && g.prog.code[p].i == i && Fitting(g.cfg, g.prog, p, path)
    requires (Target(i, p) == Some(t) && !OpensFixed(g.prog, i))
             || (i.OpNullCheckEnd? && SkipLoopEnd(g.prog, p + SIZE_OP_NULL_CHECK_END) == Some(t))
    ensures Fitting(g.cfg, g.prog, t, path)
  {
    CellLevel(g, p);
    hide LevelAt, CodeLeveled, SkipLoopEnd, Agrees, Target, OpensFixed, Opening, Over, Quits;
    if !(Target(i, p) == Some(t) && !OpensFixed(g.prog, i)) && p != FINISH_CODE {
      QuitsAgrees(g.cfg, g.prog, LevelAt(g.prog, p), LevelAt(g.prog, t), path);
    }
  }

  /** Behind an empty round of a counter whose rounds pass nothing. */
  lemma QuitsAgrees(cfg: Cfg, prog: Prog, l: Level, l': Level, path: Stack)
    requires Agrees(cfg, prog, l, path) && Quits(prog, l, l')
    ensures Agrees(cfg, prog, l', path)
  {
    hide NotedIn, Opens, Rounds, Weight;
    forall k: nat ensures AgreesOn(cfg, prog, l', path, k) { assert AgreesOn(cfg, prog, l, path, k); }
  }

  lemma {:induction false} StarLeveled(cfg: Cfg, prog: Prog, x: Subject, ml: bool, peek: Option<byte>, q: int,
                                       s: nat, path: Stack)
    requires Fitting(cfg, prog, q, path) && StackLeveled(cfg, prog, path)
    ensures StateLeveled(cfg, prog, StarLoop(x, ml, peek, q, s, path))
    decreases |x.text| - s
  {
    hide Fitting, StackLeveled, Silent;
    if s < |x.text| {
      var alt := StkAlt(q, s);
      LeveledPush(cfg, prog, path, alt);
      NeutralSilent(prog, path, alt);
      FittingPush(cfg, prog, q, path, alt);
      var path' := if peek.None? || peek.value == x.text[s] then path + [alt] else path;
      if ml || x.text[s] != NEWLINE { StarLeveled(cfg, prog, x, ml, peek, q, s + 1, path'); }
    }
  }

  lemma TwoPushes(cfg: Cfg, prog: Prog, p: int, path: Stack, a: Entry, b: Entry)
    requires StackLeveled(cfg, prog, path) && Fitting(cfg, prog, p, path)
    requires Silent(prog, path, a) && Silent(prog, path + [a], b) && Opened(prog.code, a) && Opened(prog.code, b)
    requires (PopUsed(a) ==> Fitting(cfg, prog, a.pcode, path)) && (PopUsed(b) ==> Fitting(cfg, prog, b.pcode, path))
    ensures StackLeveled(cfg, prog, path + [a, b]) && Fitting(cfg, prog, p, path + [a, b])
  {
    hide Fitting, StackLeveled, Opened, Silent;
    LeveledPush(cfg, prog, path, a);
    FittingPush(cfg, prog, p, path, a);
    if PopUsed(b) { FittingPush(cfg, prog, b.pcode, path, a); }
    LeveledPush(cfg, prog, path + [a], b);
    FittingPush(cfg, prog, p, path + [a], b);
    assert path + [a] + [b] == path + [a, b];
  }

  lemma OnePush(cfg: Cfg, prog: Prog, p: int, path: Stack, e: Entry)
    requires StackLeveled(cfg, prog, path) && Fitting(cfg, prog, p, path) && Silent(prog, path, e)
    requires Opened(prog.code, e) && (PopUsed(e) ==> Fitting(cfg, prog, e.pcode, path))
    ensures StackLeveled(cfg, prog, path + [e]) && Fitting(cfg, prog, p, path + [e])
  {
    hide Fitting, StackLeveled, Opened, Silent;
    LeveledPush(cfg, prog, path, e);
    FittingPush(cfg, prog, p, path, e);
  }

  lemma ClosesIs(code: Program, a: int, c: int)
    requires Closes(code, a, c)
    ensures Opener(code, a) && CounterId(code[a].i) == CounterId(code[c].i)
            && Target(code[a].i, a) == Some(c + SIZE_OP_REPEAT_INC)
  {
  }

  lemma SameOpener(code: Program, a: int, b: int)
    requires Apart(code, a, b) && Opener(code, a) && Opener(code, b) && CounterId(code[a].i) == CounterId(code[b].i)
    ensures a == b
  {
  }

  lemma OpenerLevel(prog: Prog, a: int)
    requires Opener(prog.code, a) && LevelCell(prog, a) && Target(prog.code[a].i, a).Some?
    requires !OpensFixed(prog, prog.code[a].i)
    ensures var t := Target(prog.code[a].i, a).value;
            && 0 <= t <= |prog.code| && 0 <= a + SIZE_OP_REPEAT <= |prog.code|
            && LevelAt(prog, a + SIZE_OP_REPEAT) == LevelAt(prog, t)
  {
    hide LevelAt, Opening, Fixed;
  }

  lemma FittingAlike(cfg: Cfg, prog: Prog, a: int, b: int, path: Stack)
    requires Fitting(cfg, prog, a, path) && 0 <= a <= |prog.code| && 0 <= b <= |prog.code|
             && LevelAt(prog, a) == LevelAt(prog, b)
    ensures Fitting(cfg, prog, b, path)
  {
    hide LevelAt, Agrees;
  }

  lemma LeveledIs(g: Image)
    requires CodeLeveled(g)
    ensures ProgOk(g)
  {
    hide ProgOk, LevelCell;
  }

  lemma OpenedIs(code: Program, e: Entry)
    requires e.Repeat? && Opened(code, e)
    ensures OpenerWith(code, e.pcode - SIZE_OP_REPEAT, e.num)
  {
  }

  lemma OpenerAt(code: Program, a: int)
    requires Opener(code, a)
    ensures At(code, a) && OpensCounter(code[a].i)
  {
  }

  predicate IncAt(code: Program, p: int, id: nat) { At(code, p) && CounterInc(code[p].i) && CounterId(code[p].i) == id }

  predicate OpenerWith(code: Program, a: int, id: nat) { Opener(code, a) && CounterId(code[a].i) == id }

  /** The opener with the number of an increment is the one the increment belongs to: behind it, where the body
      begins, the level is that behind the increment. */
  lemma OwnOpener(g: Image, p: int, a: int, id: nat)
    requires ProgOk(g) && IncAt(g.prog.code, p, id) && OpenerWith(g.prog.code, a, id)
    ensures Target(g.prog.code[a].i, a) == Some(p + SIZE_OP_REPEAT_INC)
  {
    hide ProgOk, Closes, Apart, Target, CounterId, OpensCounter, CounterInc, At;
    var b := OpenedBy(g, p);
    ClosesIs(g.prog.code, b, p);
    OpenerAt(g.prog.code, a);
    OpenerAt(g.prog.code, b);
    Pairs(g, a, b);
    SameOpener(g.prog.code, a, b);
  }

  lemma BodyLevel(g: Image, p: int, a: int, id: nat)
    requires CodeLeveled(g) && IncAt(g.prog.code, p, id) && OpenerWith(g.prog.code, a, id) && !Fixed(g.prog, id)
    ensures 0 <= p + SIZE_OP_REPEAT_INC <= |g.prog.code| && 0 <= a + SIZE_OP_REPEAT <= |g.prog.code|
    ensures LevelAt(g.prog, a + SIZE_OP_REPEAT) == LevelAt(g.prog, p + SIZE_OP_REPEAT_INC)
  {
    LeveledIs(g);
    OwnOpener(g, p, a, id);
    hide CodeLeveled, ProgOk, LevelCell, Target, CounterInc, CounterId, LevelAt, Fixed;
    CellLevel(g, a);
    OpenerLevel(g.prog, a);
  }

  /** A counter goes back to where its body begins. */
  lemma BackLevel(g: Image, p: int, id: nat, e: Entry, path: Stack)
    requires CodeLeveled(g) && IncAt(g.prog.code, p, id) && e.Repeat? && e.num == id && Opened(g.prog.code, e)
    requires Fitting(g.cfg, g.prog, p + SIZE_OP_REPEAT_INC, path) && !Fixed(g.prog, id)
    ensures Fitting(g.cfg, g.prog, e.pcode, path)
  {
    hide *;
    var code, a, q := g.prog.code, e.pcode - SIZE_OP_REPEAT, p + SIZE_OP_REPEAT_INC;
    OpenedIs(code, e);
    BodyLevel(g, p, a, id);
    FittingAlike(g.cfg, g.prog, q, a + SIZE_OP_REPEAT, path);
  }

  /** A round of a counter whose number of rounds is not fixed. */
  lemma IncLeveled(g: Image, id: nat, greedy: bool, p: int, s: nat, path: Stack)
    requires CodeLeveled(g) && IncAt(g.prog.code, p, id) && StackLeveled(g.cfg, g.prog, path) && !Fixed(g.prog, id)
    requires Fitting(g.cfg, g.prog, p + SIZE_OP_REPEAT_INC, path)
    ensures StateLeveled(g.cfg, g.prog, ExecInc(g.prog, id, greedy, p + SIZE_OP_REPEAT_INC, s, path))
  {
    hide CodeLeveled, Fitting, IncAt, IncGreedy, IncLazy, Opened, Fixed;
    var q := p + SIZE_OP_REPEAT_INC;
    var f := FindRepeat(path, id);
    if f.Some? && id < |g.prog.ranges| {
      var k := f.value;
      assert EntryLeveled(g.cfg, g.prog, path, k);
      BackLevel(g, p, id, path[k], path);
      RoundLeveled(g.cfg, g.prog, greedy, g.prog.ranges[id], k, q, s, path);
    }
  }

  /** A round has been counted. */
  function Counted(path: Stack, k: nat): Stack
    requires k < |path| && path[k].Repeat?
  {
    path[k := path[k].(count := path[k].count + 1)]
  }

  lemma CountedLeveled(cfg: Cfg, prog: Prog, path: Stack, k: nat)
    requires k < |path| && path[k].Repeat? && StackLeveled(cfg, prog, path)
    ensures StackLeveled(cfg, prog, Counted(path, k)) && |Counted(path, k)| == |path| && Leaves(path, Counted(path, k))
  {
    assert Leaves(path, Counted(path, k));
    hide StackLeveled;
    LeveledLeft(cfg, prog, path, Counted(path, k));
  }

  lemma RoundLeveled(cfg: Cfg, prog: Prog, greedy: bool, r: Range, k: nat, q: int, s: nat, path: Stack)
    requires k < |path| && path[k].Repeat? && StackLeveled(cfg, prog, path) && !Fixed(prog, path[k].num)
    requires Fitting(cfg, prog, q, path) && Fitting(cfg, prog, path[k].pcode, path)
    ensures StateLeveled(cfg, prog, if greedy then IncGreedy(r, k, q, s, path) else IncLazy(r, k, q, s, path))
  {
    var back := path[k].pcode;
    var stk1 := Counted(path, k);
    CountedLeveled(cfg, prog, path, k);
    hide Fitting, StackLeveled, Leaves, Silent, Fixed;
    FittingSame(cfg, prog, q, path, stk1);
    FittingSame(cfg, prog, back, path, stk1);
    LightSilent(prog, stk1, RepeatInc(k));
    OnePush(cfg, prog, q, stk1, RepeatInc(k));
    OnePush(cfg, prog, back, stk1, RepeatInc(k));
    if greedy {
      NeutralSilent(prog, stk1, StkAlt(q, s));
      LightSilent(prog, stk1 + [StkAlt(q, s)], RepeatInc(k));
      TwoPushes(cfg, prog, back, stk1, StkAlt(q, s), RepeatInc(k));
    } else {
      NeutralSilent(prog, stk1 + [RepeatInc(k)], StkAlt(back, s));
      TwoPushes(cfg, prog, q, stk1, RepeatInc(k), StkAlt(back, s));
    }
  }

  // ----- counters with a fixed number of rounds -----

  /** The levels around such a counter: where it is opened, where its body begins, at its increment, and behind. */
  ghost predicate Rounded(prog: Prog, id: nat, a: int, l: Level, body: Level, inc: Level, out: Level) {
    var p := Loop(id, a, l.passed);
    && (forall j :: 0 <= j < |l.loops| ==> l.loops[j].id != id)
    && body == l.(loops := l.loops + [p]) && inc.loops == body.loops && inc.open == l.open && l.passed <= inc.passed
    && Weight(prog, p) == inc.passed - l.passed
    && out == Level(l.open, l.passed + Times(Turns(prog, id), inc.passed - l.passed), l.loops)
  }

  /** p: where the counter opened at a is counted up. */
  lemma RoundLevels(g: Image, p: int, a: int, id: nat)
    requires CodeLeveled(g) && IncAt(g.prog.code, p, id) && OpenerWith(g.prog.code, a, id) && Fixed(g.prog, id)
    ensures && 0 <= a < a + SIZE_OP_REPEAT <= |g.prog.code| && 0 <= p < p + SIZE_OP_REPEAT_INC <= |g.prog.code|
            && Rounded(g.prog, id, a, LevelAt(g.prog, a), LevelAt(g.prog, a + SIZE_OP_REPEAT), LevelAt(g.prog, p),
                       LevelAt(g.prog, p + SIZE_OP_REPEAT_INC))
  {
    LeveledIs(g);
    OwnOpener(g, p, a, id);
    OpenerAt(g.prog.code, a);
    CounterAt(g.prog.code, p, id);
    hide *;
    AtInside(g.prog.code, p);
    CellLevel(g, p);
    CellLevel(g, a);
    CellBegun(g.prog, a, id);
    CellEnded(g.prog, p, id);
    AroundIs(g.prog, p, a, id);
  }

  lemma CounterAt(code: Program, p: int, id: nat)
    requires IncAt(code, p, id)
    ensures At(code, p)
  {
  }

  lemma AroundIs(prog: Prog, p: int, a: int, id: nat)
    requires OpenerWith(prog.code, a, id) && Target(prog.code[a].i, a) == Some(p + SIZE_OP_REPEAT_INC)
    requires 0 <= a <= a + SIZE_OP_REPEAT <= |prog.code| && 0 <= p <= p + SIZE_OP_REPEAT_INC <= |prog.code|
    requires Opening(prog, a, id) && Fixed(prog, id)
    requires LevelAt(prog, a + SIZE_OP_REPEAT) == Begun(prog, id, a, LevelAt(prog, a))
    requires LevelAt(prog, p + SIZE_OP_REPEAT_INC) == Ended(prog, id, LevelAt(prog, p))
    ensures Rounded(prog, id, a, LevelAt(prog, a), LevelAt(prog, a + SIZE_OP_REPEAT), LevelAt(prog, p),
                    LevelAt(prog, p + SIZE_OP_REPEAT_INC))
  {
    hide LevelAt, Times, Turns;
    assert IncOf(prog, a) == Some(p);
    hide IncOf, Fixed;
    var l, e := LevelAt(prog, a), LevelAt(prog, p);
    assert e.loops == l.loops + [Loop(id, a, l.passed)];
    assert e.loops[..|e.loops| - 1] == l.loops;
  }

  lemma CellBegun(prog: Prog, a: int, id: nat)
    requires OpenerWith(prog.code, a, id) && Fixed(prog, id) && LevelCell(prog, a)
    ensures 0 <= a && a + SIZE_OP_REPEAT <= |prog.code| && Opening(prog, a, id)
    ensures LevelAt(prog, a + SIZE_OP_REPEAT) == Begun(prog, id, a, LevelAt(prog, a))
  {
    hide LevelAt, Opening, Fixed;
  }

  lemma CellEnded(prog: Prog, p: int, id: nat)
    requires IncAt(prog.code, p, id) && LevelCell(prog, p)
    ensures 0 <= p && p + SIZE_OP_REPEAT_INC <= |prog.code|
    ensures LevelAt(prog, p + SIZE_OP_REPEAT_INC) == Ended(prog, id, LevelAt(prog, p))
  {
    hide LevelAt, Fixed;
  }

  /** The counter begins. */
  lemma BegunAgrees(cfg: Cfg, prog: Prog, id: nat, a: int, l: Level, path: Stack, q: int)
    requires Agrees(cfg, prog, l, path) && Undoing.StackOk(path) && Fixed(prog, id)
    requires forall j :: 0 <= j < |l.loops| ==> l.loops[j].id != id
    ensures Agrees(cfg, prog, Begun(prog, id, a, l), path + [Repeat(0, q, id)])
  {
    var e := Repeat(0, q, id);
    var path' := path + [e];
    var l' := Begun(prog, id, a, l);
    RoundsBegin(path, q, id);
    forall j | 0 <= j < |l.loops| ensures Rounds(path', l.loops[j].id) == Rounds(path, l.loops[j].id) {
      RoundsPush(path, e, l.loops[j].id);
    }
    hide Rounds, NotedIn, Opens, Weight, Undoing.StackOk, AgreesOn, Owed;
    forall k: nat ensures AgreesOn(cfg, prog, l', path', k) {
      PushSilent(path, e, k);
      OwedSame(prog, path, path', l.loops, k);
      BegunOn(cfg, prog, id, a, l, path, path', k);
    }
  }

  lemma BegunOn(cfg: Cfg, prog: Prog, id: nat, a: int, l: Level, path: Stack, path': Stack, k: nat)
    requires AgreesOn(cfg, prog, l, path, k) && Fixed(prog, id) && Rounds(path', id) == 0
    requires Owed(prog, path', l.loops, k) == Owed(prog, path, l.loops, k)
    requires NotedIn(path', k) == NotedIn(path, k) && Opens(path', k) == Opens(path, k)
    ensures AgreesOn(cfg, prog, Begun(prog, id, a, l), path', k)
  {
    hide Rounds, NotedIn, Opens, Weight, Fixed;
    var l' := Begun(prog, id, a, l);
    assert l'.loops[..|l'.loops| - 1] == l.loops;
  }

  lemma RoundsBegin(path: Stack, q: int, id: nat)
    requires Undoing.StackOk(path)
    ensures Rounds(path + [Repeat(0, q, id)], id) == 0
  {
    var path' := path + [Repeat(0, q, id)];
    assert path'[..|path|] == path && FindRepeat(path', id) == Some(|path|);
    forall i | 0 <= i < |path| && path[i].RepeatInc? ensures path[i].si < i { assert Undoing.Counted(path, i); }
    Undoing.IncsPush(path, Repeat(0, q, id), |path|);
    Undoing.IncsAbove(path, |path|);
  }

  /** A round has been made: there are more, or it was the last. */
  lemma RoundAgrees(cfg: Cfg, prog: Prog, id: nat, a: int, l: Level, body: Level, inc: Level, out: Level, path: Stack,
                    path': Stack)
    requires Rounded(prog, id, a, l, body, inc, out) && Agrees(cfg, prog, inc, path)
             && Rounds(path', id) == Rounds(path, id) + 1
    requires forall i: nat :: i != id ==> Rounds(path', i) == Rounds(path, i)
    requires forall k: nat :: NotedIn(path', k) == NotedIn(path, k) && Opens(path', k) == Opens(path, k)
    ensures Rounds(path, id) < Turns(prog, id)
    ensures Agrees(cfg, prog, if Rounds(path', id) < Turns(prog, id) then body else out, path')
  {
    hide Rounds, NotedIn, Opens, Weight, Turns, Times;
    var w := inc.passed - l.passed;
    var n, c := Turns(prog, id), Rounds(path, id);
    assert inc.loops[|inc.loops| - 1].id == id && inc.loops[..|inc.loops| - 1] == l.loops;
    forall j | 0 <= j < |l.loops|
      ensures Rounds(path', l.loops[j].id) == Rounds(path, l.loops[j].id) < Turns(prog, l.loops[j].id)
    {
      assert inc.loops[j] == l.loops[j];
    }
    var next := if c + 1 < n then body else out;
    forall k: nat ensures AgreesOn(cfg, prog, next, path', k) {
      assert AgreesOn(cfg, prog, inc, path, k);
      OwedSame(prog, path, path', l.loops, k);
      TimesAt(n, w, k);
      OneMore(c + 1, w[k]);
      assert inc.passed[k] == l.passed[k] + w[k];
    }
  }

  lemma RoundsOne(path: Stack, k: nat, id: nat)
    requires FindRepeat(path, id) == Some(k)
    ensures forall i: nat :: Rounds(path + [RepeatInc(k)], i) == Rounds(path, i) + if i == id then 1 else 0
  {
    var path' := path + [RepeatInc(k)];
    assert path'[..|path|] == path;
    hide Rounds;
    forall i: nat ensures Rounds(path', i) == Rounds(path, i) + if i == id then 1 else 0 {
      if i == id { RoundsMore(path, k, id); } else { RoundsPush(path, RepeatInc(k), i); }
    }
  }

  lemma RoundsMore(path: Stack, k: nat, id: nat)
    requires FindRepeat(path, id) == Some(k)
    ensures Rounds(path + [RepeatInc(k)], id) == Rounds(path, id) + 1
  {
    assert (path + [RepeatInc(k)])[..|path|] == path;
    Undoing.IncsPush(path, RepeatInc(k), k);
  }

  /** The path behind a round. */
  lemma RoundPath(path: Stack, k: nat, id: nat)
    requires FindRepeat(path, id) == Some(k) && Undoing.StackOk(path)
    ensures var path' := Counted(path, k) + [RepeatInc(k)];
            && Rounds(path, id) == path[k].count && Rounds(path', id) == Rounds(path, id) + 1
            && (forall i: nat :: i != id ==> Rounds(path', i) == Rounds(path, i))
            && forall j: nat :: NotedIn(path', j) == NotedIn(path, j) && Opens(path', j) == Opens(path, j)
  {
    var mid := Counted(path, k);
    assert Leaves(path, mid) && Undoing.Counted(path, k);
    hide Rounds, NotedIn, Opens, Undoing.StackOk, Leaves;
    RoundsCount(path, k, id);
    FindSame(path, mid, id);
    RoundsOne(mid, k, id);
    forall i: nat ensures Rounds(path, i) == Rounds(mid, i) { RoundsSame(path, mid, i); }
    forall j: nat
      ensures NotedIn(mid + [RepeatInc(k)], j) == NotedIn(path, j) && Opens(mid + [RepeatInc(k)], j) == Opens(path, j)
    {
      PushSilent(mid, RepeatInc(k), j);
      MidNoted(path, mid, j);
    }
  }

  lemma RoundsCount(path: Stack, k: nat, id: nat)
    requires FindRepeat(path, id) == Some(k) && Undoing.Counted(path, k)
    ensures Rounds(path, id) == path[k].count
  {
    hide FindRepeat, Undoing.Incs;
  }

  lemma MidNoted(a: Stack, b: Stack, k: nat)
    requires |a| == |b| && Leaves(a, b)
    ensures NotedIn(a, k) == NotedIn(b, k) && Opens(a, k) == Opens(b, k)
  {
    forall i | 0 <= i < |a| ensures a[i] == b[i] || (NoMem(a[i]) && NoMem(b[i])) { assert Left(a[i], b[i]); }
    NotedSame(a, b, k);
    OpensSame(a, b, k);
  }

  /** A round of a counter with a fixed number of them goes back until it is the last. */
  lemma FixedExec(prog: Prog, id: nat, greedy: bool, q: int, s: nat, path: Stack, k: nat)
    requires FindRepeat(path, id) == Some(k) && Fixed(prog, id) && path[k].count < Turns(prog, id)
    ensures ExecInc(prog, id, greedy, q, s, path) ==
            Run(if path[k].count + 1 < Turns(prog, id) then path[k].pcode else q, s, Counted(path, k) + [RepeatInc(k)])
  {
    hide FindRepeat;
  }

  lemma FixedLeveled(g: Image, id: nat, greedy: bool, p: int, s: nat, path: Stack)
    requires CodeLeveled(g) && IncAt(g.prog.code, p, id) && StackLeveled(g.cfg, g.prog, path) && Fixed(g.prog, id)
    requires Fitting(g.cfg, g.prog, p, path) && Undoing.StackOk(path)
    ensures StateLeveled(g.cfg, g.prog, ExecInc(g.prog, id, greedy, p + SIZE_OP_REPEAT_INC, s, path))
  {
    hide *;
    var f := FindRepeat(path, id);
    if f.Some? {
      FixedRound(g, id, greedy, p, s, path, f.value);
    } else {
      NoCounter(g.cfg, g.prog, id, greedy, p + SIZE_OP_REPEAT_INC, s, path);
    }
  }

  lemma NoCounter(cfg: Cfg, prog: Prog, id: nat, greedy: bool, q: int, s: nat, path: Stack)
    requires FindRepeat(path, id).None?
    ensures StateLeveled(cfg, prog, ExecInc(prog, id, greedy, q, s, path))
  {
    hide FindRepeat;
  }

  lemma FixedRound(g: Image, id: nat, greedy: bool, p: int, s: nat, path: Stack, k: nat)
    requires CodeLeveled(g) && IncAt(g.prog.code, p, id) && StackLeveled(g.cfg, g.prog, path) && Fixed(g.prog, id)
    requires Fitting(g.cfg, g.prog, p, path) && Undoing.StackOk(path) && FindRepeat(path, id) == Some(k)
    ensures StateLeveled(g.cfg, g.prog, ExecInc(g.prog, id, greedy, p + SIZE_OP_REPEAT_INC, s, path))
  {
    var prog, q, a := g.prog, p + SIZE_OP_REPEAT_INC, path[k].pcode - SIZE_OP_REPEAT;
    var path' := Counted(path, k) + [RepeatInc(k)];
    assert EntryLeveled(g.cfg, prog, path, k);
    OpenedIs(prog.code, path[k]);
    RoundLevels(g, p, a, id);
    RoundPath(path, k, id);
    FittingAgrees(g.cfg, prog, p, path);
    CountedLeveled(g.cfg, prog, path, k);
    hide *;
    RoundAgrees(g.cfg, prog, id, a, LevelAt(prog, a), LevelAt(prog, a + SIZE_OP_REPEAT), LevelAt(prog, p),
                LevelAt(prog, q), path, path');
    FixedExec(prog, id, greedy, q, s, path, k);
    AgreesFitting(g.cfg, prog, if Rounds(path', id) < Turns(prog, id) then a + SIZE_OP_REPEAT else q, path');
    IncPushed(g.cfg, prog, Counted(path, k), k);
    RunLeveled(g.cfg, prog, if Rounds(path', id) < Turns(prog, id) then a + SIZE_OP_REPEAT else q, s, path');
  }

  lemma RunLeveled(cfg: Cfg, prog: Prog, p: int, s: nat, path: Stack)
    requires Fitting(cfg, prog, p, path) && StackLeveled(cfg, prog, path)
    ensures StateLeveled(cfg, prog, Run(p, s, path))
  {
    hide Fitting, StackLeveled;
  }

  lemma IncPushed(cfg: Cfg, prog: Prog, path: Stack, k: nat)
    requires StackLeveled(cfg, prog, path)
    ensures StackLeveled(cfg, prog, path + [RepeatInc(k)])
  {
    hide StackLeveled;
    LeveledPush(cfg, prog, path, RepeatInc(k));
  }

  lemma FittingAgrees(cfg: Cfg, prog: Prog, a: int, path: Stack)
    requires Fitting(cfg, prog, a, path) && 0 <= a <= |prog.code|
    ensures Agrees(cfg, prog, LevelAt(prog, a), path)
  {
    hide LevelAt, Agrees;
  }

  lemma AgreesFitting(cfg: Cfg, prog: Prog, a: int, path: Stack)
    requires 0 <= a <= |prog.code| && Agrees(cfg, prog, LevelAt(prog, a), path)
    ensures Fitting(cfg, prog, a, path)
  {
    hide LevelAt, Agrees;
  }

  /** OP_REPEAT of such a counter. */
  lemma BeginLeveled(g: Image, id: nat, greedy: bool, addr: int, p: int, s: nat, path: Stack)
    requires CodeLeveled(g) && OpenerWith(g.prog.code, p, id) && Fixed(g.prog, id) && Undoing.StackOk(path)
    requires Opened(g.prog.code, Repeat(0, p + SIZE_OP_REPEAT, id))
    requires Fitting(g.cfg, g.prog, p, path) && StackLeveled(g.cfg, g.prog, path)
    ensures StateLeveled(g.cfg, g.prog, ExecRepeat(g.prog, id, greedy, addr, p + SIZE_OP_REPEAT, s, path))
  {
    var e := Repeat(0, p + SIZE_OP_REPEAT, id);
    OpenerAt(g.prog.code, p);
    AtInside(g.prog.code, p);
    CellLevel(g, p);
    assert ExecRepeat(g.prog, id, greedy, addr, p + SIZE_OP_REPEAT, s, path) == Run(p + SIZE_OP_REPEAT, s, path + [e]);
    CellBegun(g.prog, p, id);
    NotRunning(g.prog, p, id);
    hide *;
    FittingAgrees(g.cfg, g.prog, p, path);
    BegunAgrees(g.cfg, g.prog, id, p, LevelAt(g.prog, p), path, p + SIZE_OP_REPEAT);
    AgreesFitting(g.cfg, g.prog, p + SIZE_OP_REPEAT, path + [e]);
    CounterPushed(g.cfg, g.prog, path, e);
    RunLeveled(g.cfg, g.prog, p + SIZE_OP_REPEAT, s, path + [e]);
  }

  lemma CounterPushed(cfg: Cfg, prog: Prog, path: Stack, e: Entry)
    requires StackLeveled(cfg, prog, path) && e.Repeat? && Opened(prog.code, e)
    ensures StackLeveled(cfg, prog, path + [e])
  {
    hide StackLeveled, Opened;
    LeveledPush(cfg, prog, path, e);
  }

  lemma NotRunning(prog: Prog, a: int, id: nat)
    requires At(prog.code, a) && Opening(prog, a, id)
    ensures forall j :: 0 <= j < |LevelAt(prog, a).loops| ==> LevelAt(prog, a).loops[j].id != id
  {
    hide LevelAt;
  }

  lemma OpenedHere(code: Program, p: int, i: Instr, id: nat, addr: int)
    requires At(code, p) && code[p].i == i && (i == OpRepeat(id, addr) || i == OpRepeatNg(id, addr))
    ensures Opened(code, Repeat(0, p + Size(i), id)) && NoGroup(i) && Target(i, p) == Some(p + Size(i) + addr)
  {
  }

  lemma RepeatLeveled(g: Image, i: Instr, id: nat, greedy: bool, addr: int, p: int, s: nat, path: Stack)
    requires CodeLeveled(g) && At(g.prog.code, p) && g.prog.code[p].i == i && Still(g.prog, i) && !OpensFixed(g.prog, i)
    requires Target(i, p) == Some(p + Size(i) + addr) && Opened(g.prog.code, Repeat(0, p + Size(i), id))
    requires Fitting(g.cfg, g.prog, p, path) && StackLeveled(g.cfg, g.prog, path) && !Fixed(g.prog, id)
    ensures StateLeveled(g.cfg, g.prog, ExecRepeat(g.prog, id, greedy, addr, p + Size(i), s, path))
  {
    hide *;
    GoesOn(g, i, p, path);
    GoesTo(g, i, p, p + Size(i) + addr, path);
    RepeatPushes(g.cfg, g.prog, id, greedy, addr, p + Size(i), s, path);
  }

  lemma LightStill(prog: Prog, i: Instr)
    requires OpensCounter(i) && !Fixed(prog, CounterId(i))
    ensures Still(prog, i) && !OpensFixed(prog, i)
  {
  }

  lemma OpenLeveled(g: Image, x: Subject, i: Instr, p: int, s: nat, path: Stack)
    requires CodeLeveled(g) && At(g.prog.code, p) && g.prog.code[p].i == i && OpensCounter(i)
    requires Fitting(g.cfg, g.prog, p, path) && StackLeveled(g.cfg, g.prog, path) && Undoing.StackOk(path)
    ensures StateLeveled(g.cfg, g.prog, Exec(g.prog, x, i, p + Size(i), s, path))
  {
    hide CodeLeveled, Fitting, StackLeveled, StateLeveled, Exec, Target, NoGroup, Opened, ExecRepeat, Fixed;
    hide Still, OpensFixed, Undoing.StackOk;
    var id, greedy, addr := CounterId(i), i.OpRepeat?, i.addr;
    OpenedHere(g.prog.code, p, i, id, addr);
    RepeatIs(g.prog, x, i, p + Size(i), s, path);
    if Fixed(g.prog, id) {
      BeginLeveled(g, id, greedy, addr, p, s, path);
    } else {
      LightStill(g.prog, i);
      RepeatLeveled(g, i, id, greedy, addr, p, s, path);
    }
  }

  lemma RepeatPushes(cfg: Cfg, prog: Prog, id: nat, greedy: bool, addr: int, q: int, s: nat, path: Stack)
    requires StackLeveled(cfg, prog, path) && Fitting(cfg, prog, q, path)
    requires Fitting(cfg, prog, q + addr, path) && Opened(prog.code, Repeat(0, q, id)) && !Fixed(prog, id)
    ensures StateLeveled(cfg, prog, ExecRepeat(prog, id, greedy, addr, q, s, path))
  {
    var e := Repeat(0, q, id);
    AltOpened(prog.code);
    LightSilent(prog, path, e);
    NeutralSilent(prog, path + [e], StkAlt(q + addr, s));
    NeutralSilent(prog, path + [e], StkAlt(q, s));
    hide Fitting, StackLeveled, Opened, Silent, Fixed;
    OnePush(cfg, prog, q, path, e);
    OnePush(cfg, prog, q + addr, path, e);
    OnePush(cfg, prog, q, path + [e], StkAlt(q + addr, s));
    OnePush(cfg, prog, q + addr, path + [e], StkAlt(q, s));
  }

  lemma AltOpened(code: Program)
    ensures forall p: int, s: nat :: Opened(code, StkAlt(p, s))
  {
  }

  /** Opening and closing a group is noted. */
  lemma MemLeveled(g: Image, x: Subject, p: int, s: nat, path: Stack)
    requires CodeLeveled(g) && At(g.prog.code, p) && !NoGroup(g.prog.code[p].i) && g.prog.rec
    requires Fitting(g.cfg, g.prog, p, path) && StackLeveled(g.cfg, g.prog, path)
    ensures var i := g.prog.code[p].i;
            StateLeveled(g.cfg, g.prog, Exec(g.prog, x, i, p + Size(i), s, path))
  {
    var i := g.prog.code[p].i;
    var e := if i.OpMemoryStart? || i.OpMemoryStartPush? then MemStart(i.num, s) else MemEnd(i.num, s);
    CellLevel(g, p);
    LeveledPush(g.cfg, g.prog, path, e);
    NotedLevel(g.cfg, g.prog, LevelAt(g.prog, p), i, p, path, e);
    assert Exec(g.prog, x, i, p + Size(i), s, path) == Run(p + Size(i), s, path + [e]);
    hide LevelAt, Exec, CodeLeveled, StackLeveled, Agrees, Opening;
  }

  lemma NotedLevel(cfg: Cfg, prog: Prog, l: Level, i: Instr, a: int, path: Stack, e: Entry)
    requires Agrees(cfg, prog, l, path) && MemBits(cfg, i)
    requires || ((i.OpMemoryStart? || i.OpMemoryStartPush?) && e.MemStart? && e.num == i.num && i.num !in l.open)
             || ((i.OpMemoryEnd? || i.OpMemoryEndPush?) && e.MemEnd? && e.num == i.num && i.num in l.open)
    ensures Agrees(cfg, prog, Over(prog, i, a, l), path + [e])
  {
    hide Rounds, Turns, Owed, Over, AgreesOn, MemBits;
    forall id: nat ensures Rounds(path, id) == Rounds(path + [e], id) { RoundsPush(path, e, id); }
    MemOver(prog, i, a, l);
    forall k: nat ensures AgreesOn(cfg, prog, Over(prog, i, a, l), path + [e], k) {
      OwedSame(prog, path, path + [e], l.loops, k);
      NotedOn(cfg, prog, l, i, a, path, e, k);
    }
  }

  lemma MemOver(prog: Prog, i: Instr, a: int, l: Level)
    requires !NoGroup(i)
    ensures Over(prog, i, a, l).loops == l.loops
  {
  }

  lemma NotedOn(cfg: Cfg, prog: Prog, l: Level, i: Instr, a: int, path: Stack, e: Entry, k: nat)
    requires AgreesOn(cfg, prog, l, path, k) && MemBits(cfg, i)
    requires Owed(prog, path + [e], l.loops, k) == Owed(prog, path, l.loops, k)
    requires || ((i.OpMemoryStart? || i.OpMemoryStartPush?) && e.MemStart? && e.num == i.num && i.num !in l.open)
             || ((i.OpMemoryEnd? || i.OpMemoryEndPush?) && e.MemEnd? && e.num == i.num && i.num in l.open)
    ensures AgreesOn(cfg, prog, Over(prog, i, a, l), path + [e], k)
  {
    hide Owed;
    assert (path + [e])[..|path|] == path;
  }

  /** Where an instruction that does not rework the stack can go. */
  lemma ExecTo(prog: Prog, x: Subject, i: Instr, p: int, s: nat, path: Stack)
    requires !Undoing.Reworks(i)
    ensures var st := Exec(prog, x, i, p + Size(i), s, path);
            st.Run? ==>
              || st.p == p + Size(i) || Some(st.p) == Target(i, p)
              || (i.OpNullCheckEnd? && Some(st.p) == SkipLoopEnd(prog, p + Size(i)))
  {
    hide *;
    if Target(i, p).None? && !i.OpNullCheckEnd? {
      TextTo(prog, x, i, p, s, path);
    } else {
      JumpTo(prog, x, i, p, s, path);
    }
  }

  lemma TextTo(prog: Prog, x: Subject, i: Instr, p: int, s: nat, path: Stack)
    requires !Undoing.Reworks(i) && Target(i, p).None? && !i.OpNullCheckEnd?
    ensures var st := Exec(prog, x, i, p + Size(i), s, path); st.Run? ==> st.p == p + Size(i)
  {
    hide HasAt, IsWord, AtAnchorEndLine, AtAnchorSemiEnd, Size;
  }

  lemma JumpTo(prog: Prog, x: Subject, i: Instr, p: int, s: nat, path: Stack)
    requires !Undoing.Reworks(i) && (Target(i, p).Some? || i.OpNullCheckEnd?)
    ensures var st := Exec(prog, x, i, p + Size(i), s, path);
            st.Run? ==>
              || st.p == p + Size(i) || Some(st.p) == Target(i, p)
              || (i.OpNullCheckEnd? && Some(st.p) == SkipLoopEnd(prog, p + Size(i)))
  {
    hide SkipLoopEnd, FindNullCheck, HasAt, IsWord, AtAnchorEndLine, AtAnchorSemiEnd;
  }

  lemma PlainLeveled(g: Image, x: Subject, i: Instr, p: int, s: nat, path: Stack)
    requires CodeLeveled(g) && At(g.prog.code, p) && g.prog.code[p].i == i && NoGroup(i) && !Undoing.Reworks(i)
    requires Fitting(g.cfg, g.prog, p, path) && StackLeveled(g.cfg, g.prog, path)
    ensures StateLeveled(g.cfg, g.prog, Exec(g.prog, x, i, p + Size(i), s, path))
  {
    var q := p + Size(i);
    var e := Undoing.Pushed(g.prog.rec, i, q, s);
    var st := Exec(g.prog, x, i, q, s, path);
    hide *;
    ExecTo(g.prog, x, i, p, s, path);
    PlainStack(g.prog, x, i, q, s, path);
    PushedGoes(g.prog.rec, i, p, s);
    PushedPlain(g.prog.rec, i, q, s, g.prog.code);
    PlainStill(g.prog, i);
    CheckSize(i);
    if st.Run? {
      if st.p == q { GoesOn(g, i, p, path); } else { GoesTo(g, i, p, st.p, path); }
    }
    if e.Some? {
      if PopUsed(e.value) {
        CodeUsed(e.value);
        GoesTo(g, i, p, e.value.pcode, path);
      }
      LeveledPush(g.cfg, g.prog, path, e.value);
      NeutralSilent(g.prog, path, e.value);
      if st.Run? { FittingPush(g.cfg, g.prog, st.p, path, e.value); }
    }
    StateIs(g.cfg, g.prog, st);
  }

  lemma PlainStack(prog: Prog, x: Subject, i: Instr, q: int, s: nat, path: Stack)
    requires !Undoing.Reworks(i)
    ensures var st := Exec(prog, x, i, q, s, path);
            var e := Undoing.Pushed(prog.rec, i, q, s);
            st.Run? || st.Fail? ==> st.stk == path || (e.Some? && st.stk == path + [e.value])
  {
    hide Exec, Undoing.Pushed, Undoing.Reworks;
    Undoing.ExecPushes(prog, x, i, q, s, path);
  }

  lemma CheckSize(i: Instr)
    ensures i.OpNullCheckEnd? ==> Size(i) == SIZE_OP_NULL_CHECK_END
  {
  }

  lemma CodeUsed(e: Entry)
    requires PopUsed(e)
    ensures HasCode(e) && (e.StkAlt? || e.StkPosNot? || e.StkLookBehindNot?)
  {
  }

  lemma StateIs(cfg: Cfg, prog: Prog, st: State)
    requires st.Run? ==> Fitting(cfg, prog, st.p, st.stk) && StackLeveled(cfg, prog, st.stk)
    requires st.Fail? ==> StackLeveled(cfg, prog, st.stk)
    ensures StateLeveled(cfg, prog, st)
  {
    hide Fitting, StackLeveled;
  }

  lemma PlainStill(prog: Prog, i: Instr)
    requires NoGroup(i) && !Undoing.Reworks(i)
    ensures Still(prog, i) && !OpensFixed(prog, i)
  {
  }

  lemma PushedPlain(rec: bool, i: Instr, q: int, s: nat, code: Program)
    requires NoGroup(i)
    ensures var e := Undoing.Pushed(rec, i, q, s);
            e.Some? ==> NoMem(e.value) && Undoing.Neutral(e.value) && Opened(code, e.value)
  {
  }

  lemma ReworkLeveled(g: Image, x: Subject, i: Instr, p: int, s: nat, path: Stack)
    requires CodeLeveled(g) && At(g.prog.code, p) && g.prog.code[p].i == i && Undoing.Reworks(i) && NoGroup(i)
    requires Fitting(g.cfg, g.prog, p, path) && StackLeveled(g.cfg, g.prog, path) && Undoing.StackOk(path)
    ensures StateLeveled(g.cfg, g.prog, Exec(g.prog, x, i, p + Size(i), s, path))
  {
    hide Exec, Fitting, StackLeveled, CodeLeveled, Target, Undoing.Reworks, StateLeveled, Fixed, Undoing.StackOk,
      Opened;
    var q := p + Size(i);
    Reworking(i);
    if OpensCounter(i) {
      hide OpensCounter;
      OpenLeveled(g, x, i, p, s, path);
    } else if CounterInc(i) {
      hide CounterInc, CounterId, OpensCounter;
      CountLeveled(g, x, i, p, s, path);
    } else {
      GoesOn(g, i, p, path);
      hide OpensCounter, CounterInc, CounterId, NoGroup, Still;
      if i.OpAnyCharStar? || i.OpAnyCharStarPeekNext? {
        StarLeveled(g.cfg, g.prog, x, i.ml, if i.OpAnyCharStar? then None else Some(i.c), q, s, path);
        StarIs(g.prog, x, i, q, s, path);
      } else {
        MarkLeveled(g.cfg, g.prog, x, i, q, s, path);
      }
    }
  }

  lemma CountLeveled(g: Image, x: Subject, i: Instr, p: int, s: nat, path: Stack)
    requires CodeLeveled(g) && At(g.prog.code, p) && g.prog.code[p].i == i && CounterInc(i)
    requires Fitting(g.cfg, g.prog, p, path) && StackLeveled(g.cfg, g.prog, path) && Undoing.StackOk(path)
    ensures StateLeveled(g.cfg, g.prog, Exec(g.prog, x, i, p + Size(i), s, path))
  {
    hide *;
    var id, greedy := CounterId(i), i.OpRepeatInc? || i.OpRepeatIncSg?;
    IncIsAt(g.prog.code, p, i);
    IncIs(g.prog, x, i, p + Size(i), s, path);
    if Fixed(g.prog, id) {
      FixedLeveled(g, id, greedy, p, s, path);
    } else {
      IncStill(g.prog, i);
      GoesOn(g, i, p, path);
      IncLeveled(g, id, greedy, p, s, path);
    }
  }

  lemma IncStill(prog: Prog, i: Instr)
    requires CounterInc(i) && !Fixed(prog, CounterId(i))
    ensures Still(prog, i)
  {
  }

  lemma Reworking(i: Instr)
    requires Undoing.Reworks(i)
    ensures || i.OpAnyCharStar? || i.OpAnyCharStarPeekNext? || OpensCounter(i) || CounterInc(i) || i.OpPop?
            || i.OpPopPos? || i.OpPopStopBt? || i.OpFailPos? || i.OpFailLookBehindNot?
  {
  }

  lemma IncIsAt(code: Program, p: int, i: Instr)
    requires At(code, p) && code[p].i == i && CounterInc(i)
    ensures IncAt(code, p, CounterId(i)) && Size(i) == SIZE_OP_REPEAT_INC
  {
  }

  lemma StarIs(prog: Prog, x: Subject, i: Instr, q: int, s: nat, path: Stack)
    requires i.OpAnyCharStar? || i.OpAnyCharStarPeekNext?
    ensures Exec(prog, x, i, q, s, path) ==
            StarLoop(x, i.ml, if i.OpAnyCharStar? then None else Some(i.c), q, s, path)
  {
    hide StarLoop;
  }

  lemma RepeatIs(prog: Prog, x: Subject, i: Instr, q: int, s: nat, path: Stack)
    requires OpensCounter(i)
    ensures Exec(prog, x, i, q, s, path) == ExecRepeat(prog, CounterId(i), i.OpRepeat?, i.addr, q, s, path)
  {
    hide ExecRepeat;
  }

  lemma IncIs(prog: Prog, x: Subject, i: Instr, q: int, s: nat, path: Stack)
    requires CounterInc(i)
    ensures Exec(prog, x, i, q, s, path) ==
            ExecInc(prog, CounterId(i), i.OpRepeatInc? || i.OpRepeatIncSg?, q, s, path)
  {
    hide ExecInc;
  }

  /** The instructions that close a mark or drop a choice point. */
  lemma MarkLeveled(cfg: Cfg, prog: Prog, x: Subject, i: Instr, q: int, s: nat, path: Stack)
    requires i.OpPop? || i.OpPopPos? || i.OpPopStopBt? || i.OpFailPos? || i.OpFailLookBehindNot?
    requires Fitting(cfg, prog, q, path) && StackLeveled(cfg, prog, path)
    ensures StateLeveled(cfg, prog, Exec(prog, x, i, q, s, path))
  {
    hide Fitting, StackLeveled, VoidTo, PopTil;
    match i
    case OpPop => if path != [] { PopLeveled(cfg, prog, q, path); }
    case OpPopPos => if VoidTo(path, MarkPos).Some? { VoidLeveled(cfg, prog, q, path, MarkPos); }
    case OpPopStopBt => if VoidTo(path, MarkStopBt).Some? { VoidLeveled(cfg, prog, q, path, MarkStopBt); }
    case OpFailPos => if PopTil(path, MarkPosNot).Some? { TilLeveled(cfg, prog, path, MarkPosNot); }
    case OpFailLookBehindNot =>
      if PopTil(path, MarkLookBehindNot).Some? { TilLeveled(cfg, prog, path, MarkLookBehindNot); }
  }

  lemma VoidLeveled(cfg: Cfg, prog: Prog, q: int, path: Stack, m: Mark)
    requires Fitting(cfg, prog, q, path) && StackLeveled(cfg, prog, path) && VoidTo(path, m).Some?
    ensures Fitting(cfg, prog, q, VoidTo(path, m).value.0) && StackLeveled(cfg, prog, VoidTo(path, m).value.0)
  {
    hide Fitting, StackLeveled, VoidTo, Leaves;
    VoidLeaves(path, m);
    FittingSame(cfg, prog, q, path, VoidTo(path, m).value.0);
    LeveledLeft(cfg, prog, path, VoidTo(path, m).value.0);
  }

  lemma TilLeveled(cfg: Cfg, prog: Prog, path: Stack, m: Mark)
    requires StackLeveled(cfg, prog, path) && PopTil(path, m).Some?
    ensures StackLeveled(cfg, prog, PopTil(path, m).value)
  {
    PopTilLeaves(path, m);
    LeveledLeft(cfg, prog, path, PopTil(path, m).value);
  }

  /** OP_POP drops a choice point. */
  lemma PopLeveled(cfg: Cfg, prog: Prog, q: int, path: Stack)
    requires path != [] && Fitting(cfg, prog, q, path) && StackLeveled(cfg, prog, path)
    ensures path[|path| - 1].StkAlt? ==> Fitting(cfg, prog, q, path[..|path| - 1])
    ensures StackLeveled(cfg, prog, path[..|path| - 1])
  {
    var n := |path| - 1;
    assert Leaves(path, path[..n]);
    LeveledLeft(cfg, prog, path, path[..n]);
    if path[n].StkAlt? { DropFitting(cfg, prog, q, path); }
  }

  lemma DropFitting(cfg: Cfg, prog: Prog, q: int, path: Stack)
    requires path != [] && path[|path| - 1].StkAlt? && Fitting(cfg, prog, q, path)
    ensures Fitting(cfg, prog, q, path[..|path| - 1])
  {
    var n := |path| - 1;
    var e, b := path[n], path[..n];
    assert b + [e] == path;
    hide Fitting, NotedIn, Opens, Rounds, Fixed;
    forall k: nat ensures NotedIn(b, k) == NotedIn(path, k) && Opens(b, k) == Opens(path, k) { PushSilent(b, e, k); }
    forall id: nat ensures Rounds(b, id) == Rounds(path, id) { RoundsPush(b, e, id); }
    FittingMoved(cfg, prog, q, path, b);
  }

  lemma FailLeveled(cfg: Cfg, prog: Prog, path: Stack)
    requires StackLeveled(cfg, prog, path)
    ensures StateLeveled(cfg, prog, PopOne(path))
  {
    if path != [] {
      var n := |path| - 1;
      var e := path[n];
      if PopUsed(e) {
        assert EntryLeveled(cfg, prog, path, n);
        assert Leaves(path, path[..n]);
        LeveledLeft(cfg, prog, path, path[..n]);
      } else {
        var u := Undo(e, path[..n]);
        if u.Some? {
          UndoLeaves(e, path[..n]);
          assert Leaves(path, u.value);
          LeveledLeft(cfg, prog, path, u.value);
        }
      }
    }
  }

  /** Every step keeps the levels. */
  lemma StepLeveled(g: Image, x: Subject, st: State)
    requires CodeLeveled(g) && g.prog.rec && StateLeveled(g.cfg, g.prog, st) && Undoing.StateOk(st)
    ensures StateLeveled(g.cfg, g.prog, Step(g.prog, x, st))
  {
    hide CodeLeveled, Fitting, StackLeveled, Exec, PopOne, NoGroup, Undoing.Reworks;
    match st
    case Run(p, s, path) =>
      if p == FINISH_CODE {
        FinishExec(g.prog, x, p + Size(OpFinish), s, path);
      } else if Fetch(g.prog, p).Some? {
        if !NoGroup(g.prog.code[p].i) {
          MemLeveled(g, x, p, s, path);
        } else if Undoing.Reworks(g.prog.code[p].i) {
          ReworkLeveled(g, x, g.prog.code[p].i, p, s, path);
        } else {
          PlainLeveled(g, x, g.prog.code[p].i, p, s, path);
        }
      }
    case Fail(path) => FailLeveled(g.cfg, g.prog, path);
    case _ =>
  }
}
