/** The captures of a match: what a compiled program notes of its groups, and what the matcher's cells make of it
    when it arrives at OP_END (Dependencies/oniguruma5/regexec.c). */
module Regions {
  import opened Regint
  import opened Regparse
  import opened Regcomp
  import opened Machine
  import opened Meaning
  import opened Lengths
  import opened LengthSound
  import opened Enumeration
  import opened Spans
  import opened CompilerCorrect
  import opened ProgramCorrect
  import opened Layout
  import opened CodeLayout
  import opened ProgramLayout
  import opened Levels
  import opened TreeLevels
  import opened Tables
  import opened Captures
  import opened CaptureCells
  import opened Noting
  import opened PathLevels
  import opened CaptureTruth
  import opened Alongside
  import opened Unwinding

  // ----- a compiled program keeps its levels -----

  function SettingOf(n: Node, ml: bool, cfg: Cfg): Setting
    requires Formed(n)
  {
    var prog := ProgramOf(n, ml, cfg);
    Setting(prog, cfg, LevelOf(Noter(prog), prog.code).passed)
  }

  lemma ProgramCells(n: Node, ml: bool, cfg: Cfg)
    requires Formed(n) && Numbered(n) && Steady(n, cfg)
    ensures var prog := Noter(ProgramOf(n, ml, cfg));
            && (forall a :: At(prog.code, a) ==> LevelCell(prog, a))
            && LevelAt(prog, CompileLength(n, cfg)) == Level({}, LevelOf(prog, prog.code).passed)
            && LevelOf(prog, prog.code) == Level({}, LevelOf(prog, prog.code).passed)
  {
    hide Formed, Numbered, Steady, CompileTree, CompileLength, Add, TreeLevels.Kept;
    hide Clear;
    var prog := Noter(ProgramOf(n, ml, cfg));
    var r := CompileTree(n, ml, cfg, NOTHING);
    NothingClear(prog, GroupsOf(n));
    assert prog.code == Add(r, OpEnd, SIZE_OPCODE).code && prog.ranges == Add(r, OpEnd, SIZE_OPCODE).ranges;
    AddKeeps(r, OpEnd, SIZE_OPCODE);
    TreeLevels.TreeLevels(prog, cfg, n, ml, NOTHING);
    EndCells(prog, cfg, GroupsOf(n), r);
  }

  lemma NothingClear(prog: Prog, groups: set<nat>)
    ensures Clear(prog, groups, NOTHING) && LevelOf(prog, NOTHING.code) == GROUND
  {
  }

  lemma AddKeeps(r: Reg, i: Instr, size: nat)
    requires size >= 1
    ensures r.code <= Add(r, i, size).code && r.ranges == Add(r, i, size).ranges
  {
  }

  /** OP_END behind the code of a tree. */
  lemma EndCells(prog: Prog, cfg: Cfg, groups: set<nat>, r: Reg)
    requires var r' := Add(r, OpEnd, SIZE_OPCODE); prog.code == r'.code && prog.ranges == r'.ranges
    requires TreeLevels.Kept(prog, groups, cfg, NOTHING, r) && LevelOf(prog, NOTHING.code) == GROUND
    ensures forall a :: At(prog.code, a) ==> LevelCell(prog, a)
    ensures |r.code| <= |prog.code| && LevelAt(prog, |r.code|) == LevelOf(prog, prog.code)
            == Level({}, LevelOf(prog, prog.code).passed)
  {
    var r' := Add(r, OpEnd, SIZE_OPCODE);
    hide LevelCell, LevelOf, Add;
    AddKeeps(r, OpEnd, SIZE_OPCODE);
    PlainLevels(prog, r, OpEnd, SIZE_OPCODE);
    LevelsJoin(prog, NOTHING, r, r');
    LevelAtEnd(prog, r);
    hide LevelAt;
  }

  /** The conditions under which cells and notes agree are met by every compiled tree. */
  lemma SettingMeets(n: Node, ml: bool, cfg: Cfg)
    requires Formed(n) && Marked(n, false) && Numbered(n) && Steady(n, cfg)
    ensures SettingOk(SettingOf(n, ml, cfg))
  {
    var z := SettingOf(n, ml, cfg);
    var g := Image(Noter(z.prog), cfg);
    WholeImage(g, n, ml);
    ProgramCells(n, ml, cfg);
    hide Formed, Marked, Numbered, Steady, LevelCell, ProgOk, ProgramOf, LevelOf, CompileLength;
    assert g.prog.code[..|g.prog.code|] == g.prog.code;
    forall a, k: nat | 0 <= a <= |z.prog.code| ensures Peak(g.prog, LevelAt(g.prog, a), k) <= z.total[k] {
      PeakGrows(g, a, |g.prog.code|, k);
    }
  }

  lemma BottomNothing(k: nat)
    ensures NotedIn([BOTTOM], k) == UNNOTED && Opens([BOTTOM], k) == 0
  {
    assert [BOTTOM][..0] == [];
  }

  const CLEARED := Cells([Slot(BOTTOM, Invalid, Invalid)], map[], map[])

  /** The beginning of match_at. */
  lemma StartTogether(z: Setting, s: nat)
    requires SettingOk(z)
    ensures Together(z, StartState(s), CLEARED) && StripState(z.cfg, StartState(s)) == StartState(s)
  {
    assert [BOTTOM][..0] == [];
    assert CLEARED.stk[..0] == [];
    assert z.prog.code[..0] == [];
    forall k: nat
      ensures Truth(z.cfg, z.total, [BOTTOM], CLEARED.stk, Get(CLEARED.start, k), Get(CLEARED.end, k), k)
              && AgreesOn(z.cfg, Noter(z.prog), LevelAt(Noter(z.prog), 0), [BOTTOM], k)
    {
      BottomNothing(k);
      assert Truth(z.cfg, z.total, [], [], Invalid, Invalid, k);
    }
  }

  // ----- captures -----

  /** The captures of a match from s0 to e on a path: for every group noted there its last span, in which its body
      matches, and nothing for the others. */
  ghost predicate Captured(n: Node, ml: bool, x: Subject, cfg: Cfg, s0: nat, e: nat, path: Stack, region: Region)
    requires Formed(n)
  {
    && 0 in region && region[0] == (s0, e)
    && forall k: nat :: 1 <= k <= cfg.numMem ==> CaptureOf(n, ml, x, cfg, path, region, k)
  }

  ghost predicate CaptureOf(n: Node, ml: bool, x: Subject, cfg: Cfg, path: Stack, region: Region, k: nat)
    requires Formed(n)
  {
    var m := NotedIn(path, k);
    if k in region then
      && m == Noted(Some(region[k].0), Some(region[k].1)) && region[k].0 <= region[k].1
      && GroupSpan(n, ml, x, cfg, k, region[k].0, region[k].1)
    else m == UNNOTED
  }

  /** What the noting machine has at OP_END is what the region says. */
  lemma RegionCaptures(n: Node, ml: bool, x: Subject, cfg: Cfg, path: Stack, c: Cells, s0: nat, e: nat,
                       region: Region)
    requires Formed(n) && Ready(n) && |x.text| <= INT_MAX && Numbered(n) && Steady(n, cfg)
    requires var z := SettingOf(n, ml, cfg);
             Together(z, Run(CompileLength(n, cfg), e, path), c)
    requires Legal(path, SpansOf(n, ml, x, cfg)) && RegionIs(cfg, c, s0, e, region)
    ensures Captured(n, ml, x, cfg, s0, e, path, region)
  {
    var z := SettingOf(n, ml, cfg);
    var q := CompileLength(n, cfg);
    ProgramCells(n, ml, cfg);
    TogetherRun(z, q, e, path, c);
    hide Formed, Ready, Numbered, Steady, Together, LevelCell, SettingOf, Truth, GroupSpan, Compiled, CompileLength,
      RegionAt, CaptureOf, LevelAt, LevelOf, Told, WholeIn;
    forall k: nat | 1 <= k <= cfg.numMem ensures CaptureOf(n, ml, x, cfg, path, region, k) {
      FaithfulAt(cfg, z.total, path, c, k);
      TruthTold(cfg, z.total, path, c.stk, Get(c.start, k), Get(c.end, k), k);
      FittingAgrees(cfg, Noter(z.prog), q, path);
      assert AgreesOn(cfg, Noter(z.prog), LevelAt(Noter(z.prog), q), path, k);
      assert WholeIn(NotedIn(path, k), k, SpansOf(n, ml, x, cfg));
      assert RegionAt(cfg, c, region, k);
      CaptureAt(n, ml, x, cfg, Noter(z.prog), z.total, path, c, region, k);
    }
  }

  lemma CaptureAt(n: Node, ml: bool, x: Subject, cfg: Cfg, prog: Prog, total: multiset<nat>, path: Stack, c: Cells,
                  region: Region, k: nat)
    requires Formed(n) && Ready(n) && |x.text| <= INT_MAX
    requires Told(cfg, total, path, c.stk, Get(c.start, k), Get(c.end, k), k)
    requires AgreesOn(cfg, prog, Level({}, total), path, k) && RegionAt(cfg, c, region, k)
    requires WholeIn(NotedIn(path, k), k, SpansOf(n, ml, x, cfg))
    ensures CaptureOf(n, ml, x, cfg, path, region, k)
  {
    hide NotedIn, Opens, GroupSpan, Formed, Ready;
    var m := NotedIn(path, k);
    OpensNoted(path, k);
    if m != UNNOTED { SpanOrder(n, ml, x, cfg, k, m.start.value, m.end.value); }
  }

  lemma {:induction false} OpensNoted(path: Stack, k: nat)
    ensures Opens(path, k) > 0 <==> NotedIn(path, k).start.Some?
    decreases |path|
  {
    if path != [] { OpensNoted(path[..|path| - 1], k); }
  }

  // ----- how the noting machine gets there -----

  /** From st the run arrives at q, the address of OP_END, at text position e. */
  ghost predicate Gets(prog: Prog, x: Subject, q: int, st: State, e: nat, path: Stack) {
    Reaches(Job(prog, x), st, Run(q, e, path))
  }

  /** Where the noting machine is when it has arrived d times and failed there. */
  ghost predicate After(prog: Prog, x: Subject, q: int, s0: nat, d: nat, st: State)
    decreases d
  {
    if d == 0 then st == StartState(s0)
    else exists was: State, e: nat, path: Stack ::
      Gets(prog, x, q, was, e, path) && After(prog, x, q, s0, d - 1, was) && st == Fail(path)
  }

  /** Its arrival number d, at text position e. */
  ghost predicate Arrives(prog: Prog, x: Subject, q: int, s0: nat, d: nat, e: nat, path: Stack) {
    exists was: State :: After(prog, x, q, s0, d, was) && Gets(prog, x, q, was, e, path)
  }

  /** Where the matcher's machine is, and what its cells hold, when it has arrived d times and failed there. */
  ghost predicate Landed(prog: Prog, x: Subject, q: int, s0: nat, d: nat, st: State, c: Cells)
    decreases d
  {
    if d == 0 then st == StartState(s0) && c == CLEARED
    else exists was: State, cw: Cells, n: int, e: nat ::
      && Follows(prog, x, was, cw, n, Run(q, e, Entries(c.stk)), c) && Landed(prog, x, q, s0, d - 1, was, cw)
      && st == Fail(Entries(c.stk))
  }

  /** Its arrival number d, at text position e, with these cells. */
  ghost predicate Lands(prog: Prog, x: Subject, q: int, s0: nat, d: nat, e: nat, c: Cells) {
    exists was: State, cw: Cells, n: int ::
      Follows(prog, x, was, cw, n, Run(q, e, Entries(c.stk)), c) && Landed(prog, x, q, s0, d, was, cw)
  }

  /** The region is what the cells say at the arrival with this result. */
  ghost predicate Filled(n: Node, ml: bool, cfg: Cfg, x: Subject, s0: nat, len: int, region: Region)
    requires Formed(n) && s0 <= |x.text|
  {
    exists d: nat, c: Cells :: FilledBy(n, ml, cfg, x, s0, len, region, d, c)
  }

  ghost predicate FilledBy(n: Node, ml: bool, cfg: Cfg, x: Subject, s0: nat, len: int, region: Region, d: nat, c: Cells)
    requires Formed(n) && s0 <= |x.text|
  {
    && d < |Ends(n, ml, x, cfg, s0)| && Ends(n, ml, x, cfg, s0)[d] == s0 + len
    && Lands(ProgramOf(n, ml, cfg), x, CompileLength(n, cfg), s0, d, s0 + len, c)
    && RegionIs(cfg, c, s0, s0 + len, region)
  }

  lemma LandedNext(prog: Prog, x: Subject, q: int, s0: nat, d: nat, e: nat, c: Cells)
    requires Lands(prog, x, q, s0, d, e, c)
    ensures Landed(prog, x, q, s0, d + 1, Fail(Entries(c.stk)), c)
  {
    hide Follows;
    var was: State, cw: Cells, n: int :|
      Follows(prog, x, was, cw, n, Run(q, e, Entries(c.stk)), c) && Landed(prog, x, q, s0, d, was, cw);
  }

  /** The noting machine on a tree. */
  ghost function NotingJob(n: Node, ml: bool, cfg: Cfg, x: Subject): Job
    requires Formed(n)
  {
    Job(Noter(ProgramOf(n, ml, cfg)), x, SpansOf(n, ml, x, cfg))
  }

  lemma NotingEnum(n: Node, ml: bool, cfg: Cfg, x: Subject, s: nat)
    requires Formed(n) && Ready(n) && TextOk(x) && s <= |x.text| && Numbered(n)
    ensures Enum(NotingJob(n, ml, cfg, x), StartState(s), [BOTTOM], CompileLength(n, cfg), Ends(n, ml, x, cfg, s),
                 Fail([BOTTOM]), IdsOfProgram(n, ml, cfg))
  {
    hide Formed, Ready, Enum, Ends, Numbered, GroupSpan, CompileLength, ProgramOf, IdsOfProgram;
    JobEnum(NotingJob(n, ml, cfg, x), n, ml, cfg, s);
  }

  /** The noting machine follows the matcher: both began the present leg together, and d results are behind
      them. */
  ghost predicate Shadows(n: Node, ml: bool, cfg: Cfg, x: Subject, s0: nat, d: nat, st: State, c0: Cells, steps: int,
                          now: State, c: Cells, left: seq<nat>)
    requires Formed(n)
  {
    var z := SettingOf(n, ml, cfg);
    var q := CompileLength(n, cfg);
    && Together(z, st, c0) && Follows(z.prog, x, StripState(cfg, st), c0, steps, now, c)
    && Enum(NotingJob(n, ml, cfg, x), st, [BOTTOM], q, left, Fail([BOTTOM]), IdsOfProgram(n, ml, cfg))
    && After(Noter(z.prog), x, q, s0, d, st)
  }

  /** A result has been taken: where the noting machine is then. */
  ghost predicate Result(n: Node, ml: bool, cfg: Cfg, x: Subject, s0: nat, d: nat, e: nat, c: Cells, path: Stack,
                         left: seq<nat>)
    requires Formed(n)
  {
    var z := SettingOf(n, ml, cfg);
    var q := CompileLength(n, cfg);
    && Together(z, Run(q, e, path), c) && Legal(path, SpansOf(n, ml, x, cfg))
    && Arrives(Noter(z.prog), x, q, s0, d, e, path)
    && Enum(NotingJob(n, ml, cfg, x), Fail(path), [BOTTOM], q, left, Fail([BOTTOM]), IdsOfProgram(n, ml, cfg))
  }

  lemma ShadowStart(n: Node, ml: bool, cfg: Cfg, x: Subject, s0: nat)
    requires Formed(n) && Ready(n) && Marked(n, false) && TextOk(x) && s0 <= |x.text| && Numbered(n) && Steady(n, cfg)
    ensures Shadows(n, ml, cfg, x, s0, 0, StartState(s0), CLEARED, 0, StartState(s0), CLEARED, Ends(n, ml, x, cfg, s0))
  {
    hide Formed, Ready, Marked, Numbered, Steady, Together, Follows, Enum, Ends, SettingOf, CompileLength;
    SettingMeets(n, ml, cfg);
    NotingEnum(n, ml, cfg, x, s0);
    var z := SettingOf(n, ml, cfg);
    StartTogether(z, s0);
    FollowsNone(z.prog, x, StartState(s0), CLEARED);
  }

  /** The matcher goes on. */
  lemma ShadowMore(n: Node, ml: bool, cfg: Cfg, x: Subject, s0: nat, d: nat, st: State, c0: Cells, steps: int,
                   now: State, c: Cells, left: seq<nat>, more: int, now': State, c': Cells)
    requires Formed(n) && Shadows(n, ml, cfg, x, s0, d, st, c0, steps, now, c, left)
    requires Follows(ProgramOf(n, ml, cfg), x, now, c, more, now', c')
    ensures Shadows(n, ml, cfg, x, s0, d, st, c0, steps + more, now', c', left)
  {
    hide Formed, Together, Follows, Enum, CompileLength, After, ProgramOf, LevelOf;
    FollowsTrans(ProgramOf(n, ml, cfg), x, StripState(cfg, st), c0, steps, now, c, more, now', c');
  }

  /** A run arrives at OP_END once only. */
  lemma SameArrival(prog: Prog, x: Subject, st: State, c: Cells, q: int, m: int, a: State, ca: Cells, n: int, b: State,
                    cb: Cells)
    requires Fetch(prog, q) == Some(OpEnd) && a.Run? && a.p == q && b.Run? && b.p == q
    requires Follows(prog, x, st, c, m, a, ca) && Follows(prog, x, st, c, n, b, cb)
    ensures a == b && ca == cb
  {
    hide Fetch, CellsStep;
    if m < n { Ended(prog, x, st, q, m, a, n, b); } else if n < m { Ended(prog, x, st, q, n, b, m, a); }
  }

  lemma Ended(prog: Prog, x: Subject, st: State, q: int, m: nat, a: State, n: nat, b: State)
    requires Fetch(prog, q) == Some(OpEnd) && a.Run? && a.p == q && m < n
    requires Steps(prog, x, st, m) == a && Steps(prog, x, st, n) == b
    ensures !b.Run?
  {
    hide Fetch;
    var j := Job(prog, x);
    StepsAdd(j, st, m, n - m);
    RunIs(prog, x, OpEnd, q, a.s, a.stk, CLEARED);
    FinalStays(prog, x, Step(prog, x, a), n - m - 1);
  }

  /** Arrived at OP_END, the cells tell what the noting machine has noted. */
  lemma ShadowResult(n: Node, ml: bool, cfg: Cfg, x: Subject, s0: nat, d: nat, st: State, c0: Cells, steps: int,
                     e: nat, c: Cells, left: seq<nat>) returns (path: Stack)
    requires Formed(n) && Marked(n, false) && Numbered(n) && Steady(n, cfg) && left != []
    requires Fetch(ProgramOf(n, ml, cfg), CompileLength(n, cfg)) == Some(OpEnd)
    requires Shadows(n, ml, cfg, x, s0, d, st, c0, steps, Run(CompileLength(n, cfg), e, Entries(c.stk)), c, left)
    ensures Result(n, ml, cfg, x, s0, d, e, c, path, left[1..])
  {
    hide Formed, Marked, Numbered, Steady, Together, Follows, SettingOk, CompileLength, Enum, After, ProgramOf, LevelOf,
      Reaches, Legal, Fetch, GroupSpan;
    var z := SettingOf(n, ml, cfg);
    var q := CompileLength(n, cfg);
    var j := NotingJob(n, ml, cfg, x);
    SettingMeets(n, ml, cfg);
    var fr := EnumNext(j, st, [BOTTOM], q, left, Fail([BOTTOM]), IdsOfProgram(n, ml, cfg));
    path := [BOTTOM] + fr;
    var k := StepsTo(j, st, Run(q, left[0], path));
    var m, c' := RunsTogether(z, x, st, c0, k, Run(q, left[0], path));
    SameArrival(z.prog, x, StripState(cfg, st), c0, q, steps, Run(q, e, Entries(c.stk)), c, m,
                Run(q, left[0], Strip(cfg, path)), c');
    LegalPath(fr, j.spans);
    JobOnly(j, st, Run(q, e, path));
    assert Gets(Noter(z.prog), x, q, st, e, path);
  }

  lemma StepsTo(j: Job, a: State, b: State) returns (n: nat)
    requires Reaches(j, a, b)
    ensures Steps(j.prog, j.x, a, n) == b
  {
    n :| Steps(j.prog, j.x, a, n) == b;
  }

  lemma JobOnly(j: Job, a: State, b: State)
    requires Reaches(j, a, b)
    ensures Reaches(Job(j.prog, j.x), a, b)
  {
    hide Steps;
  }

  lemma LegalPath(fr: Stack, spans: iset<(nat, nat, nat)>)
    requires Legal(fr, spans)
    ensures Legal([BOTTOM] + fr, spans)
  {
    LegalNone([BOTTOM], spans);
    LegalConcat([BOTTOM], fr, spans);
  }

  /** Made to fail there, both begin the next leg. */
  lemma ShadowNext(n: Node, ml: bool, cfg: Cfg, x: Subject, s0: nat, d: nat, e: nat, c: Cells, path: Stack,
                   left: seq<nat>)
    requires Formed(n) && Result(n, ml, cfg, x, s0, d, e, c, path, left)
    ensures Shadows(n, ml, cfg, x, s0, d + 1, Fail(path), c, 0, Fail(Entries(c.stk)), c, left)
  {
    hide Formed, Together, Follows, Enum, CompileLength, ProgramOf, LevelOf, Strip, Gets;
    var z := SettingOf(n, ml, cfg);
    var q := CompileLength(n, cfg);
    EndTogether(z, q, e, path, c);
    SameEntries(z, path, c);
    FollowsNone(z.prog, x, Fail(Entries(c.stk)), c);
    var was: State :| After(Noter(z.prog), x, q, s0, d, was) && Gets(Noter(z.prog), x, q, was, e, path);
    assert After(Noter(z.prog), x, q, s0, d + 1, Fail(path));
  }

  lemma EndTogether(z: Setting, q: int, e: nat, path: Stack, c: Cells)
    requires Together(z, Run(q, e, path), c)
    ensures Together(z, Fail(path), c) && Faithful(z.cfg, z.total, path, c)
  {
    hide Fitting, StackLeveled, Faithful;
  }
}
