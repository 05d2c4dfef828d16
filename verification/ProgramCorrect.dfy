/** A whole regular expression: its program, started above the bottom entry, finds exactly what the
    tree means and always stops. */
module ProgramCorrect {
  import opened Regint
  import opened Regparse
  import opened Regcomp
  import opened Machine
  import opened Meaning
  import opened Lengths
  import opened LengthSound
  import opened Enumeration
  import opened Fragments
  import opened Spans
  import opened CompilerCorrect
  import opened TreeCorrect

  const NOTHING := Reg([], [], 0)

  /** onig_compile, from the finished tree on: compile_tree, then OP_END. */
  function Compiled(n: Node, ml: bool, cfg: Cfg): (r: Reg)
    requires Formed(n)
    ensures |r.code| == CompileLength(n, cfg) + 1
  {
    Add(CompileTree(n, ml, cfg, NOTHING), OpEnd, SIZE_OPCODE)
  }

  function ProgramOf(n: Node, ml: bool, cfg: Cfg): Prog
    requires Formed(n)
  {
    var r := Compiled(n, ml, cfg);
    Prog(r.code, r.ranges)
  }

  const BOTTOM: Entry := StkAlt(FINISH_CODE, 0)

  function StartState(s: nat): State { Run(0, s, [BOTTOM]) }

  function IdsOfProgram(n: Node, ml: bool, cfg: Cfg): Ids
    requires Formed(n)
  {
    IdsOf(NOTHING, CompileTree(n, ml, cfg, NOTHING))
  }

  /** Started at s the program reaches OP_END once for every result of the tree, in order; each
      time it is made to fail there it goes on with the next one, and after the last one it is
      back at the bottom entry. */
  lemma ProgramEnum(n: Node, ml: bool, cfg: Cfg, x: Subject, s: nat)
    requires Formed(n) && Ready(n) && TextOk(x) && s <= |x.text|
    ensures var j := Job(ProgramOf(n, ml, cfg), x);
            && Enum(j, StartState(s), [BOTTOM], CompileLength(n, cfg), Ends(n, ml, x, cfg, s), Fail([BOTTOM]),
                    IdsOfProgram(n, ml, cfg))
            && Fetch(j.prog, CompileLength(n, cfg)) == Some(OpEnd)
  {
    hide Formed, Ready, Fetch, Enum, Ends, CompileTree, CompileLength;
    JobEnum(Job(ProgramOf(n, ml, cfg), x), n, ml, cfg, s);
  }

  /** So it does on the machine that notes all groups. */
  lemma JobEnum(j: Job, n: Node, ml: bool, cfg: Cfg, s: nat)
    requires Formed(n) && Ready(n) && TextOk(j.x) && s <= |j.x.text| && Scoped(j, cfg, n, ml)
    requires j.prog == ProgramOf(n, ml, cfg).(rec := j.prog.rec)
    ensures Enum(j, StartState(s), [BOTTOM], CompileLength(n, cfg), Ends(n, ml, j.x, cfg, s), Fail([BOTTOM]),
                 IdsOfProgram(n, ml, cfg))
    ensures Fetch(j.prog, CompileLength(n, cfg)) == Some(OpEnd)
  {
    hide Formed, Ready, Fetch, Enum, Ends, CompileTree, CompileLength, Scoped;
    var r := CompileTree(n, ml, cfg, NOTHING);
    assert Fits(j, Add(r, OpEnd, SIZE_OPCODE));
    AddAt(j, r, OpEnd, SIZE_OPCODE);
    TreeImpl(j, cfg, n, ml, NOTHING);
    NodeAt(j, cfg, 0, |r.code|, n, ml, IdsOf(NOTHING, r), s, [BOTTOM]);
  }

  /** Backtracking from the bottom entry ends the match. */
  lemma BottomFinishes(j: Job)
    ensures Reaches(j, Fail([BOTTOM]), Finished)
  {
    PopAlt(j, [], FINISH_CODE, 0);
    assert [] + [BOTTOM] == [BOTTOM];
    var st := Run(FINISH_CODE, 0, []);
    StepAt(j, FINISH_CODE, OpFinish, 0, []);
    ReachesStep(j, st);
    ReachesTrans(j, Fail([BOTTOM]), st, Finished);
  }

  /** The final states of match_at. */
  predicate Halted(st: State) { st.Accept? || st.Finished? }

  /** Every run stops: at OP_END with the first result if there is one, at OP_FINISH otherwise. */
  lemma ProgramHalts(n: Node, ml: bool, cfg: Cfg, x: Subject, s: nat) returns (steps: nat)
    requires Formed(n) && Ready(n) && TextOk(x) && s <= |x.text|
    ensures var st := Steps(ProgramOf(n, ml, cfg), x, StartState(s), steps);
            var es := Ends(n, ml, x, cfg, s);
            if es == [] then st == Finished else st.Accept? && st.s == es[0]
  {
    hide Formed, Ready, Fetch, Ends, CompileTree, CompileLength, Step;
    var j := Job(ProgramOf(n, ml, cfg), x);
    var q := CompileLength(n, cfg);
    var es := Ends(n, ml, x, cfg, s);
    ProgramEnum(n, ml, cfg, x, s);
    if es == [] {
      assert Reaches(j, StartState(s), Fail([BOTTOM]));
      BottomFinishes(j);
      ReachesTrans(j, StartState(s), Fail([BOTTOM]), Finished);
      steps :| Steps(j.prog, x, StartState(s), steps) == Finished;
    } else {
      var fr := EnumNext(j, StartState(s), [BOTTOM], q, es, Fail([BOTTOM]), IdsOfProgram(n, ml, cfg));
      var stk := [BOTTOM] + fr;
      hide Enum;
      StepAt(j, q, OpEnd, es[0], stk);
      ReachesStep(j, Run(q, es[0], stk));
      ReachesTrans(j, StartState(s), Run(q, es[0], stk), Accept(es[0], stk));
      steps :| Steps(j.prog, x, StartState(s), steps) == Accept(es[0], stk);
    }
  }

  lemma {:induction false} FinalStays(prog: Prog, x: Subject, st: State, n: nat)
    requires st.Accept? || st.Finished? || st.Stuck?
    ensures Steps(prog, x, st, n) == st
  {
    if n > 0 { FinalStays(prog, x, st, n - 1); }
  }

  /** No run of a compiled program gets stuck: every fetch hits an instruction, every scan finds
      its entry above the bottom, OP_POP meets a choice point, the unexpected-bytecode error is
      unreachable, and so is popping the empty stack. */
  lemma NeverStuck(n: Node, ml: bool, cfg: Cfg, x: Subject, s: nat, k: nat)
    requires Formed(n) && Ready(n) && TextOk(x) && s <= |x.text|
    ensures Steps(ProgramOf(n, ml, cfg), x, StartState(s), k) != Stuck
  {
    hide *;
    var steps := ProgramHalts(n, ml, cfg, x, s);
    var j := Job(ProgramOf(n, ml, cfg), x);
    if k <= steps { StuckBefore(j, StartState(s), k, steps); } else { StuckAfter(j, StartState(s), steps, k); }
  }

  /** A run that gets stuck stays stuck. */
  lemma StuckBefore(j: Job, a: State, k: nat, steps: nat)
    requires k <= steps && Steps(j.prog, j.x, a, steps) != Stuck
    ensures Steps(j.prog, j.x, a, k) != Stuck
  {
    hide Step, Steps;
    StepsAdd(j, a, k, steps - k);
    if Steps(j.prog, j.x, a, k) == Stuck { FinalStays(j.prog, j.x, Stuck, steps - k); }
  }

  /** A run that has ended stays where it is. */
  lemma StuckAfter(j: Job, a: State, steps: nat, k: nat)
    requires steps <= k && var st := Steps(j.prog, j.x, a, steps); st.Accept? || st.Finished?
    ensures Steps(j.prog, j.x, a, k) != Stuck
  {
    hide Step, Steps;
    StepsAdd(j, a, steps, k - steps);
    FinalStays(j.prog, j.x, Steps(j.prog, j.x, a, steps), k - steps);
  }
}
