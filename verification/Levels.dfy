/** Which capture groups are open at an address of compiled code, how often it has opened each group whose start is
    not undone, and which counters with a fixed number of rounds are running: control keeps to all three, wherever
    it goes. */
module Levels {
  import opened Regint
  import opened Regparse
  import opened Regcomp
  import opened Machine
  import opened Layout
  import opened Spans

  /** A running counter: its number, where it was opened, and what had been passed there. */
  datatype Loop = Loop(id: nat, at: int, mark: multiset<nat>)

  /** open: groups opened and not closed; passed: openings of groups without undo entries, those of a finished counter
      as often as its body was run; loops: the running counters, outermost first. */
  datatype Level = Level(open: set<nat>, passed: multiset<nat>, loops: seq<Loop> := [])

  const GROUND := Level({}, multiset{})

  /** A counter with a fixed number of rounds. */
  predicate Fixed(prog: Prog, id: nat) {
    id < |prog.ranges| && prog.ranges[id].lower == prog.ranges[id].upper >= 1
  }

  function Turns(prog: Prog, id: nat): nat {
    if Fixed(prog, id) then prog.ranges[id].upper else 0
  }

  function Times(n: nat, m: multiset<nat>): multiset<nat> { if n == 0 then multiset{} else m + Times(n - 1, m) }

  lemma {:induction false} TimesAt(n: nat, m: multiset<nat>, k: nat)
    ensures Times(n, m)[k] == n * m[k]
  {
    if n > 0 {
      TimesAt(n - 1, m, k);
      OneMore(n, m[k]);
    }
  }

  lemma OneMore(n: nat, v: nat)
    requires n > 0
    ensures n * v == v + (n - 1) * v
  {
  }

  /** A counter begins, or has made its rounds. */
  function Begun(prog: Prog, id: nat, a: int, l: Level): Level {
    if Fixed(prog, id) then l.(loops := l.loops + [Loop(id, a, l.passed)]) else l
  }

  function Ended(prog: Prog, id: nat, l: Level): Level {
    if Fixed(prog, id) && l.loops != [] then
      var p := l.loops[|l.loops| - 1];
      Level(l.open, p.mark + Times(Turns(prog, id), l.passed - p.mark), l.loops[..|l.loops| - 1])
    else l
  }

  /** The level behind an instruction at address a. */
  function Over(prog: Prog, i: Instr, a: int, l: Level): Level {
    match i
    case OpMemoryStart(k) => Level(l.open + {k}, l.passed + multiset{k}, l.loops)
    case OpMemoryStartPush(k) => Level(l.open + {k}, l.passed, l.loops)
    case OpMemoryEnd(k) => Level(l.open - {k}, l.passed, l.loops)
    case OpMemoryEndPush(k) => Level(l.open - {k}, l.passed, l.loops)
    case OpRepeat(id, _) => Begun(prog, id, a, l)
    case OpRepeatNg(id, _) => Begun(prog, id, a, l)
    case OpRepeatInc(id) => Ended(prog, id, l)
    case OpRepeatIncNg(id) => Ended(prog, id, l)
    case OpRepeatIncSg(id) => Ended(prog, id, l)
    case OpRepeatIncNgSg(id) => Ended(prog, id, l)
    case _ => l
  }

  /** The level behind a stretch of the program's code, read from its beginning. */
  function LevelOf(prog: Prog, code: Program): Level {
    if code == [] then GROUND
    else
      var below := LevelOf(prog, code[..|code| - 1]);
      match code[|code| - 1]
      case Op(i) => Over(prog, i, |code| - 1, below)
      case Arg => below
  }

  function LevelAt(prog: Prog, a: int): Level
    requires 0 <= a <= |prog.code|
  {
    LevelOf(prog, prog.code[..a])
  }

  /** Where the counter opened at a is counted up. */
  function IncOf(prog: Prog, a: int): Option<int> {
    if Opener(prog.code, a) then
      var c := Target(prog.code[a].i, a).value - SIZE_OP_REPEAT_INC;
      if 0 <= c <= |prog.code| then Some(c) else None
    else None
  }

  /** What one round of a running counter passes. */
  function Weight(prog: Prog, p: Loop): multiset<nat> {
    var c := IncOf(prog, p.at);
    if c.Some? then LevelAt(prog, c.value).passed - p.mark else multiset{}
  }

  /** A counter with a fixed number of rounds is not running yet, and runs up to its increment. */
  predicate Opening(prog: Prog, a: int, id: nat)
    requires At(prog.code, a)
  {
    var l := LevelAt(prog, a);
    && (forall j :: 0 <= j < |l.loops| ==> l.loops[j].id != id)
    && IncOf(prog, a).Some?
    && var e := LevelAt(prog, IncOf(prog, a).value);
       e.loops == l.loops + [Loop(id, a, l.passed)] && e.open == l.open && l.passed <= e.passed
  }

  predicate OpensFixed(prog: Prog, i: Instr) { OpensCounter(i) && Fixed(prog, CounterId(i)) }

  /** Behind an empty round: the level is the same, or a counter is left whose rounds pass nothing. */
  predicate Quits(prog: Prog, l: Level, to: Level) {
    || to == l
    || (l.loops != [] && to == l.(loops := l.loops[..|l.loops| - 1])
        && Weight(prog, l.loops[|l.loops| - 1]) == multiset{})
  }

  /** Nothing an instruction does leaves the level: only its own opening or closing of a group or a counter changes
      it. */
  ghost predicate LevelCell(prog: Prog, a: int)
    requires At(prog.code, a)
  {
    var code := prog.code;
    var i := code[a].i;
    && a + Size(i) <= |code| && LevelAt(prog, a + Size(i)) == Over(prog, i, a, LevelAt(prog, a))
    && (i.OpMemoryStart? || i.OpMemoryStartPush? ==> i.num !in LevelAt(prog, a).open)
    && (i.OpMemoryEnd? || i.OpMemoryEndPush? ==> i.num in LevelAt(prog, a).open)
    && (OpensFixed(prog, i) ==> Opening(prog, a, CounterId(i)))
    && (Target(i, a).Some? && !OpensFixed(prog, i) ==>
          && 0 <= Target(i, a).value <= |code|
          && LevelAt(prog, Target(i, a).value) == LevelAt(prog, a))
    && (i.OpNullCheckEnd? ==>
          var t := SkipLoopEnd(prog, a + SIZE_OP_NULL_CHECK_END);
          t.Some? ==> 0 <= t.value <= |code| && Quits(prog, LevelAt(prog, a), LevelAt(prog, t.value)))
  }

  /** What lies in the program: its code and its counters. */
  ghost predicate Within(prog: Prog, r: Reg) { r.code <= prog.code && r.ranges <= prog.ranges }

  /** The code appended to r, giving r'. */
  ghost predicate LevelsOf(prog: Prog, r: Reg, r': Reg) {
    && |r.code| <= |r'.code| && |r.ranges| <= |r'.ranges| && Within(prog, r')
    && forall a :: |r.code| <= a < |r'.code| && At(prog.code, a) ==> LevelCell(prog, a)
  }

  lemma LevelsJoin(prog: Prog, r0: Reg, r1: Reg, r2: Reg)
    requires LevelsOf(prog, r0, r1) && LevelsOf(prog, r1, r2)
    ensures LevelsOf(prog, r0, r2)
  {
    hide LevelCell;
  }

  lemma LevelsNone(prog: Prog, r: Reg)
    requires Within(prog, r)
    ensures LevelsOf(prog, r, r)
  {
  }

  // ----- single instructions -----

  lemma {:induction false} OverArgs(prog: Prog, code: Program, n: nat)
    ensures LevelOf(prog, code + Args(n)) == LevelOf(prog, code)
    decreases n
  {
    if n == 0 {
      assert code + Args(0) == code;
    } else {
      ArgsAre(n); ArgsAre(n - 1);
      var all := code + Args(n);
      assert all[..|all| - 1] == code + Args(n - 1);
      OverArgs(prog, code, n - 1);
    }
  }

  lemma OverAdd(prog: Prog, r: Reg, i: Instr, size: nat)
    requires size >= 1
    ensures LevelOf(prog, Add(r, i, size).code) == Over(prog, i, |r.code|, LevelOf(prog, r.code))
  {
    var one := r.code + [Op(i)];
    assert one[..|one| - 1] == r.code;
    assert Add(r, i, size).code == one + Args(size - 1);
    OverArgs(prog, one, size - 1);
  }

  lemma LevelAtEnd(prog: Prog, r: Reg)
    requires Within(prog, r)
    ensures LevelAt(prog, |r.code|) == LevelOf(prog, r.code)
  {
    assert prog.code[..|r.code|] == r.code;
  }

  /** An instruction stands where it was appended, and at no other address of its bytes. */
  lemma AddOne(prog: Prog, r: Reg, i: Instr, size: nat)
    requires size >= 1 && Within(prog, Add(r, i, size))
    ensures At(prog.code, |r.code|) && prog.code[|r.code|].i == i
    ensures forall a :: |r.code| <= a < |r.code| + size && At(prog.code, a) ==> a == |r.code|
    ensures LevelAt(prog, |r.code|) == LevelOf(prog, r.code)
    ensures LevelAt(prog, |r.code| + size) == LevelOf(prog, Add(r, i, size).code)
            == Over(prog, i, |r.code|, LevelOf(prog, r.code))
  {
    AddCells(prog.code, r, i, size);
    OverAdd(prog, r, i, size);
    LevelAtEnd(prog, r);
    LevelAtEnd(prog, Add(r, i, size));
  }

  /** Instructions that open and close no group. */
  predicate NoGroup(i: Instr) {
    !i.OpMemoryStart? && !i.OpMemoryStartPush? && !i.OpMemoryEnd? && !i.OpMemoryEndPush?
  }

  /** Instructions that leave the level as it is. */
  predicate Still(prog: Prog, i: Instr) {
    NoGroup(i) && (OpensCounter(i) || CounterInc(i) ==> !Fixed(prog, CounterId(i)))
  }

  lemma PlainLevels(prog: Prog, r: Reg, i: Instr, size: nat)
    requires size >= 1 && size == Size(i) && Within(prog, Add(r, i, size)) && Still(prog, i)
    requires Target(i, 0).None? && !i.OpNullCheckEnd?
    ensures LevelsOf(prog, r, Add(r, i, size)) && LevelOf(prog, Add(r, i, size).code) == LevelOf(prog, r.code)
  {
    hide LevelAt, LevelOf, Target, Opening, Add, Over, Still, SkipLoopEnd, Quits;
    AddOne(prog, r, i, size);
    PlainTarget(i, |r.code|);
    StillOver(prog, i, |r.code|, LevelOf(prog, r.code));
    StillGroups(prog, i);
  }

  /** A jump to a place of the same level. */
  lemma JumpLevels(prog: Prog, r: Reg, i: Instr, size: nat, t: Reg)
    requires size >= 1 && size == Size(i) && Within(prog, Add(r, i, size)) && Still(prog, i) && !i.OpNullCheckEnd?
    requires Within(prog, t) && Target(i, |r.code|) == Some(|t.code|) && LevelOf(prog, t.code) == LevelOf(prog, r.code)
    ensures LevelsOf(prog, r, Add(r, i, size)) && LevelOf(prog, Add(r, i, size).code) == LevelOf(prog, r.code)
  {
    hide LevelAt, LevelOf, Target, Opening, Add, Over, Still, SkipLoopEnd, Quits;
    AddOne(prog, r, i, size);
    LevelAtEnd(prog, t);
    StillOver(prog, i, |r.code|, LevelOf(prog, r.code));
    StillGroups(prog, i);
  }

  lemma StillGroups(prog: Prog, i: Instr)
    requires Still(prog, i)
    ensures NoGroup(i)
  {
  }

  lemma StillOver(prog: Prog, i: Instr, a: int, l: Level)
    requires Still(prog, i)
    ensures Over(prog, i, a, l) == l && !OpensFixed(prog, i)
  {
  }

  lemma CheckStays(prog: Prog, i: Instr, a: int)
    requires i.OpNullCheckEnd? || i.OpNullCheckEndMemst?
    ensures Target(i, a).None? && Still(prog, i) && Size(i) == SIZE_OP_NULL_CHECK_END
  {
  }

  lemma CheckLevels(prog: Prog, r: Reg, i: Instr, t: Reg)
    requires i.OpNullCheckEnd? || i.OpNullCheckEndMemst?
    requires Within(prog, Add(r, i, SIZE_OP_NULL_CHECK_END)) && Within(prog, t)
    requires SkipLoopEnd(prog, |r.code| + SIZE_OP_NULL_CHECK_END) == Some(|t.code|)
             && Quits(prog, LevelOf(prog, r.code), LevelOf(prog, t.code))
    ensures LevelsOf(prog, r, Add(r, i, SIZE_OP_NULL_CHECK_END))
    ensures LevelOf(prog, Add(r, i, SIZE_OP_NULL_CHECK_END).code) == LevelOf(prog, r.code)
  {
    hide LevelAt, LevelOf, SkipLoopEnd, Quits, Over, Opening, Target, Add, OpensFixed;
    AddOne(prog, r, i, SIZE_OP_NULL_CHECK_END);
    LevelAtEnd(prog, t);
    StillOver(prog, i, |r.code|, LevelOf(prog, r.code));
    CheckStays(prog, i, |r.code|);
  }

  lemma MemLevels(prog: Prog, r: Reg, i: Instr, size: nat)
    requires size == Size(i) && Within(prog, Add(r, i, size)) && !NoGroup(i)
    requires if i.OpMemoryStart? || i.OpMemoryStartPush? then i.num !in LevelOf(prog, r.code).open
             else i.num in LevelOf(prog, r.code).open
    ensures LevelsOf(prog, r, Add(r, i, size))
            && LevelOf(prog, Add(r, i, size).code) == Over(prog, i, |r.code|, LevelOf(prog, r.code))
  {
    hide LevelAt, LevelOf;
    AddOne(prog, r, i, size);
  }
}
