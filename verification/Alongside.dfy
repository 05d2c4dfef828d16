/** The matcher and the noting machine step by step: the cells of the one go on telling what the other has noted. */
module Alongside {
  import opened Regint
  import opened Regcomp
  import opened Machine
  import opened Enumeration
  import opened Layout
  import opened Levels
  import opened Captures
  import opened CaptureCells
  import opened Noting
  import opened PathLevels
  import opened CaptureTruth
  import opened ProgramCorrect
  import Undoing

  /** A program, its configuration and the number of openings it makes of each group without undo entry. */
  datatype Setting = Setting(prog: Prog, cfg: Cfg, total: multiset<nat>)

  ghost predicate SettingOk(z: Setting) {
    && !z.prog.rec && CodeLeveled(Image(Noter(z.prog), z.cfg))
    && forall a, k: nat :: 0 <= a <= |z.prog.code| ==> Peak(Noter(z.prog), LevelAt(Noter(z.prog), a), k) <= z.total[k]
  }

  /** st is where the noting machine is, c what the cells hold. */
  ghost predicate Together(z: Setting, st: State, c: Cells) {
    && (st.Run? || st.Fail?)
    && Undoing.StateOk(st) && StateLeveled(z.cfg, Noter(z.prog), st) && Faithful(z.cfg, z.total, StackOf(st), c)
  }

  // ----- one instruction -----

  lemma PeakBound(z: Setting, a: int, k: nat)
    requires SettingOk(z) && 0 <= a <= |z.prog.code|
    ensures Peak(Noter(z.prog), LevelAt(Noter(z.prog), a), k) <= z.total[k]
  {
    hide LevelAt, CodeLeveled, Peak;
  }

  lemma MemReadyAt(z: Setting, i: Instr, p: int, path: Stack)
    requires SettingOk(z) && At(z.prog.code, p) && z.prog.code[p].i == i && !NoGroup(i)
    requires Fitting(z.cfg, Noter(z.prog), p, path)
    ensures MemReady(z.cfg, z.total, i, path)
  {
    var g := Image(Noter(z.prog), z.cfg);
    hide SettingOk, CodeLeveled, LevelAt, LevelCell, Opens, NotedIn, Agrees, Peak;
    SettingIs(z);
    AtInside(z.prog.code, p);
    CellLevel(g, p);
    MemCell(g.prog, i, p);
    PeakNext(g, p, i, i.num);
    PeakBound(z, p, i.num);
    PeakBound(z, p + Size(i), i.num);
    if i.num !in z.cfg.btMemStart { OpensPeak(z.cfg, g.prog, p, path, i.num); }
    OpenAgrees(z.cfg, g.prog, p, path, i.num);
    if NotedIn(path, i.num).start.Some? { NotedOpens(path, i.num); }
  }

  lemma OpenAgrees(cfg: Cfg, prog: Prog, p: int, path: Stack, k: nat)
    requires Fitting(cfg, prog, p, path) && 0 <= p <= |prog.code|
    ensures k in LevelAt(prog, p).open <==> IsOpen(NotedIn(path, k))
    ensures NotedIn(path, k).end.Some? ==> NotedIn(path, k).start.Some?
  {
    FittingAgrees(cfg, prog, p, path);
    assert AgreesOn(cfg, prog, LevelAt(prog, p), path, k);
    hide LevelAt, NotedIn, Opens, Owed;
  }

  lemma MemCell(prog: Prog, i: Instr, p: int)
    requires At(prog.code, p) && prog.code[p].i == i && LevelCell(prog, p) && !NoGroup(i)
    ensures 0 <= p && p + Size(i) <= |prog.code|
    ensures if i.OpMemoryStart? || i.OpMemoryStartPush? then i.num !in LevelAt(prog, p).open
            else i.num in LevelAt(prog, p).open
  {
    hide LevelAt, Target, SkipLoopEnd, Opening, Over;
  }

  lemma NoteExec(prog: Prog, x: Subject, i: Instr, q: int, s: nat, path: Stack)
    requires prog.rec && !NoGroup(i)
    ensures Exec(prog, x, i, q, s, path) == Run(q, s, path + [Note(i, s)])
  {
  }

  lemma MemTogether(z: Setting, x: Subject, i: Instr, p: int, s: nat, path: Stack, c: Cells, es: Stack)
    requires SettingOk(z) && At(z.prog.code, p) && z.prog.code[p].i == i && !NoGroup(i)
    requires Fitting(z.cfg, Noter(z.prog), p, path) && Faithful(z.cfg, z.total, path, c)
    ensures Faithful(z.cfg, z.total, StackOf(Exec(Noter(z.prog), x, i, p + Size(i), s, path)), AfterInstr(i, s, c, es))
  {
    hide SettingOk, Faithful, Fitting, AfterInstr, NoGroup, Note;
    MemReadyAt(z, i, p, path);
    NoteExec(Noter(z.prog), x, i, p + Size(i), s, path);
    FaithfulMem(z.cfg, z.total, i, s, path, c, es);
  }

  /** OP_POP drops a choice point, and saves nothing. */
  lemma PopTogether(z: Setting, s: nat, path: Stack, c: Cells)
    requires path != [] && path[|path| - 1].StkAlt? && Faithful(z.cfg, z.total, path, c)
    ensures Faithful(z.cfg, z.total, path[..|path| - 1], AfterInstr(OpPop, s, c, Strip(z.cfg, path[..|path| - 1])))
  {
    ChoiceStays(z.cfg, path[|path| - 1]);
    SameEntries(z, path, c);
    hide *;
    FaithfulTop(z.cfg, z.total, path, c);
    DropChoice(z.cfg, s, path, c);
  }

  lemma ChoiceStays(cfg: Cfg, e: Entry)
    requires e.StkAlt?
    ensures Stays(cfg, e) && NoMem(e)
  {
  }

  lemma SameEntries(z: Setting, path: Stack, c: Cells)
    requires Faithful(z.cfg, z.total, path, c)
    ensures Entries(c.stk) == Strip(z.cfg, path)
  {
    hide Truth, Strip, Entries;
  }

  lemma DropChoice(cfg: Cfg, s: nat, path: Stack, c: Cells)
    requires path != [] && c.stk != [] && Stays(cfg, path[|path| - 1]) && NoMem(path[|path| - 1])
    requires Entries(c.stk) == Strip(cfg, path)
    ensures AfterInstr(OpPop, s, c, Strip(cfg, path[..|path| - 1])) == DropTop(c)
  {
    TopIs(cfg, path, c);
    var n := |c.stk| - 1;
    StripTop(cfg, path);
    EntriesTake(c.stk, n);
    RefillIs(c.stk, c.stk[..n]);
    hide Strip, Refill, Entries;
  }

  /** A negative look-around fails: the stack is undone down to its mark. */
  lemma FailTogether(z: Setting, s: nat, path: Stack, c: Cells, i: Instr, m: Mark)
    requires PopTil(path, m).Some? && Faithful(z.cfg, z.total, path, c) && (i.OpFailPos? || i.OpFailLookBehindNot?)
    ensures var left := PopTil(path, m).value;
            Faithful(z.cfg, z.total, left, AfterInstr(i, s, c, Strip(z.cfg, left)))
  {
    hide Faithful, PopTil, Strip, Undone, Leaves;
    PopTilLeaves(path, m);
    FaithfulLeft(z.cfg, z.total, path, c, PopTil(path, m).value);
  }

  lemma ShapedTogether(z: Setting, x: Subject, i: Instr, q: int, s: nat, path: Stack, c: Cells)
    requires NoGroup(i) && !TouchesCells(i) && !i.OpPop? && Faithful(z.cfg, z.total, path, c)
    requires var st := Exec(Noter(z.prog), x, i, q, s, path); st.Run? || st.Fail?
    ensures var after := StackOf(Exec(Noter(z.prog), x, i, q, s, path));
            Faithful(z.cfg, z.total, after, AfterInstr(i, s, c, Strip(z.cfg, after)))
  {
    hide Exec, Faithful, Strip, Refill, Undone, NoGroup;
    var st := Exec(Noter(z.prog), x, i, q, s, path);
    var mid, more := Shape(Noter(z.prog), x, i, q, s, path);
    FaithfulShaped(z.cfg, z.total, path, c, st, mid, more);
  }

  lemma MarkFails(prog: Prog, x: Subject, i: Instr, q: int, s: nat, path: Stack)
    requires i.OpFailPos? || i.OpFailLookBehindNot?
    requires Exec(prog, x, i, q, s, path) != Stuck
    ensures var m := if i.OpFailPos? then MarkPosNot else MarkLookBehindNot;
            PopTil(path, m).Some? && Exec(prog, x, i, q, s, path) == Fail(PopTil(path, m).value)
  {
    hide PopTil;
  }

  lemma PopIs(prog: Prog, x: Subject, q: int, s: nat, path: Stack)
    requires Exec(prog, x, OpPop, q, s, path) != Stuck
    ensures path != [] && path[|path| - 1].StkAlt?
            && Exec(prog, x, OpPop, q, s, path) == Run(q, s, path[..|path| - 1])
  {
  }

  lemma Sorted(i: Instr)
    ensures TouchesCells(i) ==> !NoGroup(i) || i.OpFailPos? || i.OpFailLookBehindNot?
  {
  }

  /** One instruction on both sides. */
  lemma InstrTogether(z: Setting, x: Subject, i: Instr, p: int, s: nat, path: Stack, c: Cells)
    requires SettingOk(z) && At(z.prog.code, p) && z.prog.code[p].i == i
    requires Fitting(z.cfg, Noter(z.prog), p, path) && Faithful(z.cfg, z.total, path, c)
    requires var st := Exec(Noter(z.prog), x, i, p + Size(i), s, path); st.Run? || st.Fail?
    ensures var after := StackOf(Exec(Noter(z.prog), x, i, p + Size(i), s, path));
            Faithful(z.cfg, z.total, after, AfterInstr(i, s, c, Strip(z.cfg, after)))
  {
    Sorted(i);
    hide SettingOk, Faithful, Fitting, AfterInstr, NoGroup, TouchesCells, Exec, Strip, PopTil, Size;
    var q := p + Size(i);
    if !NoGroup(i) {
      var after := StackOf(Exec(Noter(z.prog), x, i, q, s, path));
      MemTogether(z, x, i, p, s, path, c, Strip(z.cfg, after));
    } else if i.OpPop? {
      PopIs(Noter(z.prog), x, q, s, path);
      PopTogether(z, s, path, c);
    } else if i.OpFailPos? || i.OpFailLookBehindNot? {
      MarkFails(Noter(z.prog), x, i, q, s, path);
      FailTogether(z, s, path, c, i, if i.OpFailPos? then MarkPosNot else MarkLookBehindNot);
    } else {
      ShapedTogether(z, x, i, q, s, path, c);
    }
  }

  // ----- one step -----

  lemma StripStack(cfg: Cfg, st: State)
    requires st.Run? || st.Fail?
    ensures StackOf(StripState(cfg, st)) == Strip(cfg, StackOf(st))
  {
  }

  lemma RunIs(prog: Prog, x: Subject, i: Instr, p: int, s: nat, stk: Stack, c: Cells)
    requires Fetch(prog, p) == Some(i)
    ensures Step(prog, x, Run(p, s, stk)) == Exec(prog, x, i, p + Size(i), s, stk)
    ensures CellsStep(prog, x, Run(p, s, stk), c) ==
            AfterInstr(i, s, c, StackOf(Exec(prog, x, i, p + Size(i), s, stk)))
  {
    hide Exec, AfterInstr, Fetch, Size;
  }

  lemma SameCode(z: Setting, p: int)
    ensures Fetch(Noter(z.prog), p) == Fetch(z.prog, p) && Noter(z.prog).code == z.prog.code
  {
  }

  lemma RunTogether(z: Setting, x: Subject, p: int, s: nat, path: Stack, c: Cells)
    requires SettingOk(z) && Together(z, Run(p, s, path), c)
    requires var st := Step(Noter(z.prog), x, Run(p, s, path)); st.Run? || st.Fail?
    ensures var st := Step(Noter(z.prog), x, Run(p, s, path));
            var now := StripState(z.cfg, Run(p, s, path));
            && Faithful(z.cfg, z.total, StackOf(st), CellsStep(z.prog, x, now, c))
            && Step(z.prog, x, now) == StripState(z.cfg, st)
  {
    hide *;
    SameCode(z, p);
    TogetherRun(z, p, s, path, c);
    NotFinish(Noter(z.prog), x, p, s, path);
    SettingBits(z, p);
    StripRun(z.cfg, p, s, path);
    var i := Fetch(Noter(z.prog), p).value;
    var q := p + Size(i);
    RunIs(Noter(z.prog), x, i, p, s, path, c);
    RunIs(z.prog, x, i, p, s, Strip(z.cfg, path), c);
    ExecStrip(z.cfg, z.prog, x, i, q, s, path);
    StripStack(z.cfg, Exec(Noter(z.prog), x, i, q, s, path));
    InstrTogether(z, x, i, p, s, path, c);
  }

  lemma TogetherRun(z: Setting, p: int, s: nat, path: Stack, c: Cells)
    requires Together(z, Run(p, s, path), c)
    ensures Fitting(z.cfg, Noter(z.prog), p, path) && Faithful(z.cfg, z.total, path, c)
  {
    hide Fitting, StackLeveled, Faithful;
  }

  lemma SettingBits(z: Setting, p: int)
    requires SettingOk(z) && At(z.prog.code, p)
    ensures !z.prog.rec && MemBits(z.cfg, z.prog.code[p].i)
  {
    CellLevel(Image(Noter(z.prog), z.cfg), p);
    hide CodeLeveled, LevelCell, LevelAt;
  }

  lemma StripRun(cfg: Cfg, p: int, s: nat, path: Stack)
    ensures StripState(cfg, Run(p, s, path)) == Run(p, s, Strip(cfg, path))
  {
  }

  lemma NotFinish(prog: Prog, x: Subject, p: int, s: nat, path: Stack)
    requires var st := Step(prog, x, Run(p, s, path)); st.Run? || st.Fail?
    ensures Fetch(prog, p).Some? && At(prog.code, p) && prog.code[p].i == Fetch(prog, p).value
  {
  }

  /** Popping one entry. */
  lemma PoppedTogether(z: Setting, x: Subject, path: Stack, c: Cells)
    requires Faithful(z.cfg, z.total, path, c) && PopOne(path) != Stuck
    ensures var st := PopOne(path);
            && (st.Run? || st.Fail?)
            && (if Stays(z.cfg, path[|path| - 1]) then
                  && Faithful(z.cfg, z.total, StackOf(st), CellsStep(z.prog, x, Fail(Strip(z.cfg, path)), c))
                  && Step(z.prog, x, Fail(Strip(z.cfg, path))) == StripState(z.cfg, st)
                else Faithful(z.cfg, z.total, StackOf(st), c) && StripState(z.cfg, st) == Fail(Strip(z.cfg, path)))
  {
    PopOneStrip(z.cfg, path);
    var n := |path| - 1;
    if Stays(z.cfg, path[n]) {
      PopOneLeaves(path);
      hide Faithful, Strip, PopOne, Undone, Leaves;
      FaithfulLeft(z.cfg, z.total, path, c, StackOf(PopOne(path)));
    } else {
      FaithfulTop(z.cfg, z.total, path, c);
    }
  }

  lemma PopOneLeaves(path: Stack)
    requires PopOne(path) != Stuck
    ensures var st := PopOne(path); (st.Run? || st.Fail?) && Leaves(path, StackOf(st))
  {
    var n := |path| - 1;
    if !PopUsed(path[n]) { UndoLeaves(path[n], path[..n]); }
  }

  /** One step of the noting machine is one step of the matcher, or none. */
  lemma StepTogether(z: Setting, x: Subject, st: State, c: Cells) returns (m: nat, c': Cells)
    requires SettingOk(z) && Together(z, st, c)
    requires var st' := Step(Noter(z.prog), x, st); st'.Run? || st'.Fail?
    ensures var st' := Step(Noter(z.prog), x, st);
            && Together(z, st', c')
            && Follows(z.prog, x, StripState(z.cfg, st), c, m, StripState(z.cfg, st'), c')
  {
    hide SettingOk, Faithful, StateLeveled, CellsStep, Strip, Follows, Stays, CodeLeveled;
    var now := StripState(z.cfg, st);
    SettingIs(z);
    StepLeveled(Image(Noter(z.prog), z.cfg), x, st);
    Undoing.StepKeeps(Noter(z.prog), x, st);
    FollowsOne(z.prog, x, now, c);
    FollowsNone(z.prog, x, now, c);
    match st {
      case Run(p, s, path) =>
        RunTogether(z, x, p, s, path, c);
        m, c' := 1, CellsStep(z.prog, x, now, c);
      case Fail(path) =>
        hide PopOne;
        PoppedTogether(z, x, path, c);
        if Stays(z.cfg, path[|path| - 1]) {
          m, c' := 1, CellsStep(z.prog, x, now, c);
        } else {
          m, c' := 0, c;
        }
    }
  }

  lemma SettingIs(z: Setting)
    requires SettingOk(z)
    ensures CodeLeveled(Image(Noter(z.prog), z.cfg)) && Noter(z.prog).rec && Noter(z.prog).code == z.prog.code
  {
    hide CodeLeveled;
  }

  /** A whole run. */
  lemma {:induction false} RunsTogether(z: Setting, x: Subject, st: State, c: Cells, n: nat, goal: State)
      returns (m: int, c': Cells)
    requires SettingOk(z) && Together(z, st, c) && Steps(Noter(z.prog), x, st, n) == goal && goal.Run?
    ensures Together(z, goal, c') && Follows(z.prog, x, StripState(z.cfg, st), c, m, StripState(z.cfg, goal), c')
    decreases n
  {
    hide SettingOk, Together, Step, Follows;
    if n == 0 {
      m, c' := 0, c;
      FollowsNone(z.prog, x, StripState(z.cfg, st), c);
    } else {
      var next := Step(Noter(z.prog), x, st);
      if !next.Run? && !next.Fail? { FinalStays(Noter(z.prog), x, next, n - 1); }
      var m1, c1 := StepTogether(z, x, st, c);
      m, c' := RunsTogether(z, x, next, c1, n - 1, goal);
      FollowsTrans(z.prog, x, StripState(z.cfg, st), c, m1, StripState(z.cfg, next), c1, m, StripState(z.cfg, goal),
                   c');
      m := m1 + m;
    }
  }
}
