/** What one step of match_at does to the capture cells mem_start_stk and mem_end_stk and to the values its stack
    entries have saved (Dependencies/oniguruma5/regexec.c). */
module CaptureCells {
  import opened Regint
  import opened Regcomp
  import opened Machine
  import opened Captures

  /** The stack with what its entries have saved, and the two cells of every group. */
  datatype Cells = Cells(stk: seq<Slot>, start: map<nat, Ref>, end: map<nat, Ref>)

  /** Entries that stay keep what they have saved, and new ones have saved nothing. */
  predicate Refills(a: seq<Slot>, b: seq<Slot>) {
    forall i :: 0 <= i < |b| ==>
      if i < |a| then b[i].start == a[i].start && b[i].end == a[i].end
      else b[i].start == Invalid && b[i].end == Invalid
  }

  function Refill(stk: seq<Slot>, es: Stack): (r: seq<Slot>)
    ensures Refills(stk, r) && Entries(r) == es
  {
    var r := seq(|es|, i requires 0 <= i < |es| =>
      if i < |stk| then stk[i].(e := es[i]) else Slot(es[i], Invalid, Invalid));
    assert Entries(r) == es;
    r
  }

  lemma RefillIs(a: seq<Slot>, b: seq<Slot>)
    requires Refills(a, b)
    ensures b == Refill(a, Entries(b))
  {
    var r := Refill(a, Entries(b));
    assert |r| == |Entries(r)| == |b|;
    forall i | 0 <= i < |b| ensures r[i] == b[i] { assert Entries(r)[i] == b[i].e; }
  }

  /** Nothing is lost on the way. */
  lemma RefillsTrans(a: seq<Slot>, b: seq<Slot>, c: seq<Slot>)
    requires Refills(a, b) && Refills(b, c) && (|a| <= |b| || |c| <= |b|)
    ensures Refills(a, c)
  {
  }

  /** The top entry is taken off: one of a group puts back what it has saved. */
  function DropTop(c: Cells): Cells
    requires c.stk != []
  {
    var n := |c.stk| - 1;
    var t := c.stk[n];
    if NoMem(t.e) then c.(stk := c.stk[..n])
    else Cells(c.stk[..n], c.start[t.e.num := t.start], c.end[t.e.num := t.end])
  }

  /** The entries above height h are taken off. */
  function DropTo(c: Cells, h: nat): Cells
    decreases |c.stk|
  {
    if |c.stk| <= h then c else DropTo(DropTop(c), h)
  }

  /** Entries are taken off and undone, down to the stack es. */
  function Undone(c: Cells, es: Stack): Cells { DropTo(c, |es|).(stk := Refill(c.stk, es)) }

  /** One instruction at text position s, after which the stack is es. */
  function AfterInstr(i: Instr, s: nat, c: Cells, es: Stack): Cells {
    match i
    case OpMemoryStart(n) => c.(start := c.start[n := Position(s)])
    case OpMemoryStartPush(n) =>
      Cells(c.stk + [Slot(MemStart(n, s), Get(c.start, n), Get(c.end, n))], c.start[n := StackIndex(|c.stk|)],
            c.end[n := Invalid])
    case OpMemoryEnd(n) => c.(end := c.end[n := Position(s)])
    case OpMemoryEndPush(n) =>
      Cells(c.stk + [Slot(MemEnd(n, s), Get(c.start, n), Get(c.end, n))], c.start, c.end[n := StackIndex(|c.stk|)])
    case OpFailPos => Undone(c, es)
    case OpFailLookBehindNot => Undone(c, es)
    case _ => c.(stk := Refill(c.stk, es))
  }

  function StackOf(st: State): Stack {
    match st
    case Run(_, _, stk) => stk
    case Fail(stk) => stk
    case Accept(_, stk) => stk
    case _ => []
  }

  /** The cells after one step of the machine. */
  function CellsStep(prog: Prog, x: Subject, st: State, c: Cells): Cells {
    var es := StackOf(Step(prog, x, st));
    match st
    case Run(p, s, _) =>
      var i := Fetch(prog, p);
      if i.Some? then AfterInstr(i.value, s, c, es) else c
    case Fail(_) => Undone(c, es)
    case _ => c
  }

  function CellsSteps(prog: Prog, x: Subject, st: State, c: Cells, n: nat): Cells
    decreases n
  {
    if n == 0 then c else CellsSteps(prog, x, Step(prog, x, st), CellsStep(prog, x, st, c), n - 1)
  }

  /** n steps lead from one state and its cells to another. */
  ghost predicate Follows(prog: Prog, x: Subject, st: State, c: Cells, n: int, st': State, c': Cells) {
    n >= 0 && Steps(prog, x, st, n) == st' && CellsSteps(prog, x, st, c, n) == c'
  }

  lemma FollowsNone(prog: Prog, x: Subject, st: State, c: Cells)
    ensures Follows(prog, x, st, c, 0, st, c)
  {
  }

  lemma {:induction false} FollowsTrans(prog: Prog, x: Subject, st0: State, c0: Cells, m: int, st1: State, c1: Cells,
                                        n: int, st2: State, c2: Cells)
    requires Follows(prog, x, st0, c0, m, st1, c1) && Follows(prog, x, st1, c1, n, st2, c2)
    ensures Follows(prog, x, st0, c0, m + n, st2, c2)
    decreases m
  {
    hide Step, CellsStep;
    if m > 0 {
      FollowsTrans(prog, x, Step(prog, x, st0), CellsStep(prog, x, st0, c0), m - 1, st1, c1, n, st2, c2);
    }
  }

  lemma FollowsOne(prog: Prog, x: Subject, st: State, c: Cells)
    ensures Follows(prog, x, st, c, 1, Step(prog, x, st), CellsStep(prog, x, st, c))
  {
    hide Step, CellsStep;
    assert Steps(prog, x, Step(prog, x, st), 0) == Step(prog, x, st);
    assert CellsSteps(prog, x, Step(prog, x, st), CellsStep(prog, x, st, c), 0) == CellsStep(prog, x, st, c);
  }

  /** A step that takes the top entry off and goes on failing. */
  lemma FollowsFail(prog: Prog, x: Subject, stk: Stack, c: Cells, st: State, c': Cells)
    requires PopOne(stk) == st && st.Fail? && c' == Undone(c, st.stk)
    ensures Follows(prog, x, Fail(stk), c, 1, st, c')
  {
    hide PopOne, Undone;
    FollowsOne(prog, x, Fail(stk), c);
  }

  lemma FollowsInstr(prog: Prog, x: Subject, i: Instr, p: int, s: nat, c: Cells, st: State, c': Cells)
    requires Fetch(prog, p) == Some(i) && st == Exec(prog, x, i, p + Size(i), s, Entries(c.stk))
    requires c' == AfterInstr(i, s, c, StackOf(st))
    ensures Follows(prog, x, Run(p, s, Entries(c.stk)), c, 1, st, c')
  {
    hide Exec, AfterInstr, Fetch, Entries;
    FollowsOne(prog, x, Run(p, s, Entries(c.stk)), c);
  }

  /** The step that resumes a choice point. */
  lemma ChoiceCells(prog: Prog, x: Subject, c: Cells)
    requires c.stk != [] && PopUsed(c.stk[|c.stk| - 1].e)
    ensures var n := |c.stk| - 1;
            var e := c.stk[n].e;
            Follows(prog, x, Fail(Entries(c.stk)), c, 1, Run(e.pcode, e.pstr, Entries(c.stk[..n])),
                    Cells(c.stk[..n], c.start, c.end))
  {
    hide Undone, Refill;
    var n := |c.stk| - 1;
    EntriesTake(c.stk, n);
    UndoneOne(c, Entries(c.stk[..n]));
    RefillIs(c.stk, c.stk[..n]);
    FollowsOne(prog, x, Fail(Entries(c.stk)), c);
  }

  lemma UndoneOne(c: Cells, es: Stack)
    requires |es| + 1 == |c.stk|
    ensures Undone(c, es) == DropTop(c).(stk := Refill(c.stk, es))
  {
    assert DropTo(DropTop(c), |es|) == DropTop(c);
  }

  lemma UndoneNone(c: Cells)
    ensures Undone(c, Entries(c.stk)) == c
  {
    RefillIs(c.stk, c.stk);
  }

  lemma {:induction false} DropToStep(c: Cells, h: nat)
    requires h < |c.stk|
    ensures |DropTo(c, h + 1).stk| == h + 1 && DropTo(c, h + 1).stk == c.stk[..h + 1]
    ensures DropTo(c, h) == DropTop(DropTo(c, h + 1))
    decreases |c.stk|
  {
    if |c.stk| == h + 1 {
      assert c.stk[..h + 1] == c.stk;
      assert DropTo(DropTop(c), h) == DropTop(c);
    } else {
      DropToStep(DropTop(c), h);
      assert DropTop(c).stk[..h + 1] == c.stk[..h + 1];
    }
  }

  /** One entry more. */
  lemma UndoneMore(was: Cells, mid: Cells, now: Stack)
    requires |now| + 1 == |mid.stk| <= |was.stk| && SameMem(mid.stk, was.stk[..|mid.stk|])
    requires mid == Undone(was, Entries(mid.stk))
    ensures Undone(mid, now) == Undone(was, now)
  {
    var h := |now|;
    UndoneOne(mid, now);
    DropToStep(was, h);
    var top := was.stk[..h + 1][h];
    assert mid.stk[h] == top || (NoMem(mid.stk[h].e) && NoMem(top.e));
    assert Refills(was.stk, mid.stk);
    RefillsTrans(was.stk, mid.stk, Refill(mid.stk, now));
    RefillIs(was.stk, Refill(mid.stk, now));
  }

  lemma RefillsSelf(stk: seq<Slot>)
    ensures Refills(stk, stk)
  {
  }

  predicate TouchesCells(i: Instr) {
    i.OpMemoryStart? || i.OpMemoryStartPush? || i.OpMemoryEnd? || i.OpMemoryEndPush?
      || i.OpFailPos? || i.OpFailLookBehindNot?
  }

  /** All other instructions leave the cells and what is saved. */
  lemma Refilled(i: Instr, s: nat, c: Cells, c': Cells)
    requires !TouchesCells(i) && Refills(c.stk, c'.stk) && c'.start == c.start && c'.end == c.end
    ensures c' == AfterInstr(i, s, c, Entries(c'.stk))
  {
    RefillIs(c.stk, c'.stk);
  }

  // ----- the copy to the region -----

  /** Where a cell leads: through the stack if the group has the undo bit. */
  function Lead(bit: bool, stk: seq<Slot>, r: Ref): Option<nat> {
    if bit then
      if r.StackIndex? && r.i < |stk| && !NoMem(stk[r.i].e) then Some(stk[r.i].e.pstr) else None
    else if r.Position? then Some(r.s)
    else None
  }

  type Region = map<nat, (nat, nat)>

  /** The region that is copied from the cells: NOTPOS for groups whose end cell is cleared. */
  ghost predicate RegionIs(cfg: Cfg, c: Cells, s0: nat, e: nat, region: Region) {
    && 0 in region && region[0] == (s0, e)
    && forall k: nat :: 1 <= k <= cfg.numMem ==> RegionAt(cfg, c, region, k)
  }

  ghost predicate RegionAt(cfg: Cfg, c: Cells, region: Region, k: nat) {
    var a := Lead(k in cfg.btMemStart, c.stk, Get(c.start, k));
    var b := Lead(k in cfg.btMemEnd, c.stk, Get(c.end, k));
    if Get(c.end, k) != Invalid && a.Some? && b.Some? then k in region && region[k] == (a.value, b.value)
    else k !in region
  }

  /** Other groups are not affected. */
  lemma RegionKeeps(cfg: Cfg, c: Cells, region: Region, k: nat, v: (nat, nat), j: nat)
    requires RegionAt(cfg, c, region, j) && j != k
    ensures RegionAt(cfg, c, region[k := v], j)
  {
    hide Lead;
  }
}
