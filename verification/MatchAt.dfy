/** match_at as a whole: which of a tree's results it returns. */
module MatchAt {
  import opened Regint
  import opened Regparse
  import opened Regcomp
  import opened Machine
  import opened Meaning
  import opened Lengths
  import opened LengthSound
  import opened Enumeration
  import opened CompilerCorrect
  import opened ProgramCorrect
  import opened Layout
  import opened CodeLayout
  import opened Tables
  import opened PopLevels
  import opened Captures
  import opened Unwinding
  import opened Matcher
  import opened ProgramLayout
  import opened CaptureCells
  import opened Spans
  import opened TreeLevels
  import opened Levels
  import opened Noting
  import opened Alongside
  import opened Regions

  const MISMATCH := -1

  /** ONIG_OPTION_FIND_LONGEST, ONIG_OPTION_FIND_NOT_EMPTY */
  datatype Options = Options(findLongest: bool, findNotEmpty: bool)

  /** best_len of one call and of the whole search. */
  datatype Best = Best(len: int, search: int)

  /** What OP_END does to the best lengths at a result of length n. */
  function Improve(b: Best, n: int, opt: Options): Best {
    if n <= b.len then b
    else if !opt.findLongest then b.(len := n)
    else if n > b.search then Best(n, n)
    else b
  }

  /** match_at on the remaining results. */
  function Outcome(ends: seq<nat>, s0: nat, size: nat, opt: Options, b: Best): Best {
    if ends == [] then b
    else
      var b1 := Improve(b, ends[0] - s0, opt);
      if opt.findNotEmpty && ends[0] == s0 then Outcome(ends[1..], s0, size, opt, b1.(len := MISMATCH))
      else if opt.findLongest && ends[0] < size then Outcome(ends[1..], s0, size, opt, b1)
      else b1
  }

  const FIRST := Options(false, false)
  const NOT_EMPTY := Options(false, true)
  const LONGEST := Options(true, false)
  const BOTH := Options(true, true)

  ghost predicate FromTo(ends: seq<nat>, s0: nat, size: nat) { forall i :: 0 <= i < |ends| ==> s0 <= ends[i] <= size }

  /** Without options: the length of the first result. */
  lemma FirstOutcome(ends: seq<nat>, s0: nat, size: nat, search: int)
    requires FromTo(ends, s0, size)
    ensures Outcome(ends, s0, size, FIRST, Best(MISMATCH, search)).len == if ends == [] then MISMATCH else ends[0] - s0
  {
  }

  /** FIND_NOT_EMPTY: the length of the first result that is not empty. */
  lemma {:induction false} NotEmptyOutcome(ends: seq<nat>, s0: nat, size: nat, search: int)
    requires FromTo(ends, s0, size)
    ensures var len := Outcome(ends, s0, size, NOT_EMPTY, Best(MISMATCH, search)).len;
            || (len == MISMATCH && forall i :: 0 <= i < |ends| ==> ends[i] == s0)
            || exists i :: 0 <= i < |ends| && ends[i] - s0 == len > 0 && forall h :: 0 <= h < i ==> ends[h] == s0
    decreases |ends|
  {
    if ends != [] && ends[0] == s0 {
      var rest := ends[1..];
      NotEmptyOutcome(rest, s0, size, search);
      var len := Outcome(rest, s0, size, NOT_EMPTY, Best(MISMATCH, search)).len;
      if len != MISMATCH {
        var i :| 0 <= i < |rest| && rest[i] - s0 == len > 0 && forall h :: 0 <= h < i ==> rest[h] == s0;
        assert ends[i + 1] - s0 == len;
        forall h | 0 <= h < i + 1 ensures ends[h] == s0 { if h > 0 { assert rest[h - 1] == s0; } }
      }
    }
  }

  /** The length of the longest result, MISMATCH if there is none. */
  function Longest(ends: seq<nat>, s0: nat): int {
    if ends == [] then MISMATCH
    else if ends[0] - s0 > Longest(ends[1..], s0) then ends[0] - s0
    else Longest(ends[1..], s0)
  }

  lemma {:induction false} LongestBound(ends: seq<nat>, s0: nat, size: nat)
    requires FromTo(ends, s0, size) && s0 <= size
    ensures MISMATCH <= Longest(ends, s0) <= size - s0
  {
    if ends != [] { LongestBound(ends[1..], s0, size); }
  }

  /** FIND_LONGEST: the longest of all results, if it beats the search so far; the early stop at the
      end of the text loses nothing. */
  lemma {:induction false} LongestOutcome(ends: seq<nat>, s0: nat, size: nat, b: Best)
    requires FromTo(ends, s0, size) && s0 <= size && b.len <= b.search && MISMATCH <= b.search
    ensures var r := Outcome(ends, s0, size, LONGEST, b);
            var m := Longest(ends, s0);
            if m > b.search then r == Best(m, m) else r == b
    decreases |ends|
  {
    if ends != [] {
      LongestBound(ends[1..], s0, size);
      if ends[0] < size { LongestOutcome(ends[1..], s0, size, Improve(b, ends[0] - s0, LONGEST)); }
    }
  }

  /** An empty result is tried after the first longest one. */
  predicate EmptyAfterLongest(ends: seq<nat>, s0: nat) {
    exists i, k :: 0 <= i < k < |ends| && FirstLongest(ends, s0, i) && ends[k] == s0
  }

  predicate FirstLongest(ends: seq<nat>, s0: nat, i: nat)
    requires i < |ends|
  {
    ends[i] - s0 == Longest(ends, s0) && forall h :: 0 <= h < i ==> ends[h] < ends[i]
  }

  /** Both options together: an empty result forgets the best length found so far, so the longest
      non-empty result, if it beats the search so far, is returned exactly when it reaches the end of the
      text or no empty one follows it. The search remembers it all the same. */
  lemma BothOutcome(ends: seq<nat>, s0: nat, size: nat, search: int)
    requires FromTo(ends, s0, size) && s0 <= size && MISMATCH <= search
    ensures var m := Longest(ends, s0);
            var r := Outcome(ends, s0, size, BOTH, Best(MISMATCH, search));
            && r.len == (if m > 0 && m > search && (m == size - s0 || !EmptyAfterLongest(ends, s0)) then m
              else MISMATCH)
            && r.search == if m > search then m else search
  {
    if search < size - s0 || s0 == size {
      BothFrom(ends, s0, size, Best(MISMATCH, search));
    } else {
      LongestBound(ends, s0, size);
    }
    SearchKeeps(ends, s0, size, Best(MISMATCH, search));
  }

  /** The best length of the search grows to the longest result. */
  lemma {:induction false} SearchKeeps(ends: seq<nat>, s0: nat, size: nat, b: Best)
    requires FromTo(ends, s0, size) && s0 <= size && MISMATCH <= b.len <= b.search
    ensures var m := Longest(ends, s0);
            var r := Outcome(ends, s0, size, BOTH, b);
            r.search == (if m > b.search then m else b.search)
              && (m <= b.search && b.len == MISMATCH ==> r.len == MISMATCH)
    decreases |ends|
  {
    if ends != [] {
      var b1 := Improve(b, ends[0] - s0, BOTH);
      LongestBound(ends[1..], s0, size);
      if ends[0] == s0 {
        SearchKeeps(ends[1..], s0, size, b1.(len := MISMATCH));
      } else if ends[0] < size {
        SearchKeeps(ends[1..], s0, size, b1);
      }
    }
  }

  lemma {:induction false} BothFrom(ends: seq<nat>, s0: nat, size: nat, b: Best)
    requires FromTo(ends, s0, size) && s0 <= size && MISMATCH <= b.len <= b.search
             && (b.search < size - s0 || s0 == size)
    requires b.search <= 0 ==> b.len == MISMATCH
    requires s0 == size ==> b.len == MISMATCH
    ensures var m := Longest(ends, s0);
            Outcome(ends, s0, size, BOTH, b).len ==
            if m > 0 && m > b.search then (if m == size - s0 || !EmptyAfterLongest(ends, s0) then m else MISMATCH)
            else if s0 in ends then MISMATCH
            else b.len
    decreases |ends|
  {
    if ends != [] {
      var rest := ends[1..];
      var b1 := Improve(b, ends[0] - s0, BOTH);
      LongestBound(rest, s0, size);
      EmptyAfter(ends, s0);
      if ends[0] == s0 {
        BothFrom(rest, s0, size, b1.(len := MISMATCH));
      } else if ends[0] < size {
        BothFrom(rest, s0, size, b1);
      }
    }
  }

  /** The condition, unfolded by one result. */
  lemma EmptyAfter(ends: seq<nat>, s0: nat)
    requires ends != []
    ensures EmptyAfterLongest(ends, s0) ==
            if ends[0] - s0 == Longest(ends, s0) then s0 in ends[1..] else EmptyAfterLongest(ends[1..], s0)
  {
    var rest := ends[1..];
    var m := Longest(ends, s0);
    LongestIs(ends, s0);
    if ends[0] - s0 == m {
      if s0 in rest {
        var k :| 0 <= k < |rest| && rest[k] == s0;
        assert FirstLongest(ends, s0, 0) && ends[k + 1] == s0;
      }
      if EmptyAfterLongest(ends, s0) {
        var i, k :| 0 <= i < k < |ends| && FirstLongest(ends, s0, i) && ends[k] == s0;
        assert rest[k - 1] == s0;
      }
    } else {
      if EmptyAfterLongest(rest, s0) {
        var i, k :| 0 <= i < k < |rest| && FirstLongest(rest, s0, i) && rest[k] == s0;
        assert FirstLongest(ends, s0, i + 1) && ends[k + 1] == s0;
      }
      if EmptyAfterLongest(ends, s0) {
        var i, k :| 0 <= i < k < |ends| && FirstLongest(ends, s0, i) && ends[k] == s0;
        forall h | 0 <= h < i - 1 ensures rest[h] < rest[i - 1] { assert ends[h + 1] < ends[i]; }
        assert FirstLongest(rest, s0, i - 1) && rest[k - 1] == s0;
      }
    }
  }

  lemma {:induction false} LongestIs(ends: seq<nat>, s0: nat)
    ensures forall i :: 0 <= i < |ends| ==> ends[i] - s0 <= Longest(ends, s0)
  {
    if ends != [] {
      LongestIs(ends[1..], s0);
      forall i | 0 <= i < |ends| ensures ends[i] - s0 <= Longest(ends, s0) {
        if i > 0 { assert ends[i] == ends[1..][i - 1]; }
      }
    }
  }

  /** Where a run goes next: to OP_END with the next result, or to the end. */
  ghost predicate Heads(j: Job, st: State, k: nat, goal: State, left: seq<nat>, q: int, ids: Ids) {
    && Steps(j.prog, j.x, st, k) == goal
    && (left == [] ==> goal == Finished)
    && (left != [] ==> goal.Run? && goal.p == q && goal.s == left[0]
                       && Enum(j, Fail(goal.stk), [BOTTOM], q, left[1..], Fail([BOTTOM]), ids))
  }

  lemma NextGoal(j: Job, st: State, left: seq<nat>, q: int, ids: Ids) returns (k: nat, goal: State)
    requires Enum(j, st, [BOTTOM], q, left, Fail([BOTTOM]), ids)
    ensures Heads(j, st, k, goal, left, q, ids)
  {
    hide Step;
    if left == [] {
      BottomFinishes(j);
      ReachesTrans(j, st, Fail([BOTTOM]), Finished);
      goal := Finished;
      k :| Steps(j.prog, j.x, st, k) == goal;
    } else {
      var fr := EnumNext(j, st, [BOTTOM], q, left, Fail([BOTTOM]), ids);
      goal := Run(q, left[0], [BOTTOM] + fr);
      k :| Steps(j.prog, j.x, st, k) == goal;
    }
  }

  /** At OP_END a run has arrived; at any other instruction it has not. */
  lemma Arrived(j: Job, p: int, s: nat, stk: Stack, k: nat, goal: State, left: seq<nat>, q: int, ids: Ids)
    requires Heads(j, Run(p, s, stk), k, goal, left, q, ids) && Fetch(j.prog, q) == Some(OpEnd)
    ensures var i := Fetch(j.prog, p);
            && i.Some?
            && (i.value == OpEnd ==> left != [] && goal == Run(p, s, stk))
            && (i.value == OpFinish ==> left == [])
            && (i.value != OpEnd && i.value != OpFinish ==>
                  && k > 0 && Exec(j.prog, j.x, i.value, p + Size(i.value), s, stk) != Stuck
                  && Heads(j, Exec(j.prog, j.x, i.value, p + Size(i.value), s, stk), k - 1, goal, left, q, ids))
  {
    var st := Run(p, s, stk);
    var i := Fetch(j.prog, p);
    hide Fetch, Enum;
    if k > 0 {
      RunsOn(j.prog, j.x, st, k, goal);
      EndExec(j.prog, j.x, p + 1, s, stk);
      hide Exec;
      if i.value == OpEnd { FinalStays(j.prog, j.x, Accept(s, stk), k - 1); }
      if i.value == OpFinish { FinalStays(j.prog, j.x, Finished, k - 1); }
    }
  }

  lemma EndExec(prog: Prog, x: Subject, q: int, s: nat, stk: Stack)
    ensures Exec(prog, x, OpEnd, q, s, stk) == Accept(s, stk) && Exec(prog, x, OpFinish, q, s, stk) == Finished
  {
  }

  /** The run goes on after a result: the choice points that are left. */
  lemma Retried(j: Job, st: State, k: nat, goal: State, k': nat, st': State, left: seq<nat>, q: int, ids: Ids)
    requires Heads(j, st, k, goal, left, q, ids) && Steps(j.prog, j.x, st', k') == goal
    ensures Heads(j, st', k', goal, left, q, ids)
  {
  }

  lemma AtEnd(j: Job, st: State, k: nat, goal: State, left: seq<nat>, q: int, ids: Ids, s: nat, stk: Stack)
    requires Heads(j, st, k, goal, left, q, ids) && left != [] && goal.Run? && goal.s == s && goal.stk == stk
    ensures goal.p == q && left[0] == s && Enum(j, Fail(stk), [BOTTOM], q, left[1..], Fail([BOTTOM]), ids)
  {
  }

  /** What a halting run heads for is never a failure. */
  lemma GoalKind(j: Job, st: State, k: nat, goal: State, left: seq<nat>, q: int, ids: Ids)
    requires Heads(j, st, k, goal, left, q, ids)
    ensures Steps(j.prog, j.x, st, k) == goal && !goal.Stuck? && !goal.Fail?
  {
  }

  /** What OP_END takes for an improvement. */
  predicate Improves(b: Best, n: int, opt: Options) { n > b.len && (opt.findLongest ==> n > b.search) }

  lemma ImproveIs(b: Best, n: int, opt: Options)
    ensures Improves(b, n, opt) ==> Improve(b, n, opt).len == n
    ensures !Improves(b, n, opt) ==> Improve(b, n, opt) == b
  {
  }

  /** The captures of a match of this length: those of one of the tree's results, on the path by which the machine
      that notes every group arrives there. */
  ghost predicate Matched(n: Node, ml: bool, cfg: Cfg, x: Subject, s0: nat, len: int, region: Region)
    requires Formed(n) && s0 <= |x.text|
  {
    exists d: nat, path: Stack :: MatchedBy(n, ml, cfg, x, s0, len, region, d, path)
  }

  ghost predicate MatchedBy(n: Node, ml: bool, cfg: Cfg, x: Subject, s0: nat, len: int, region: Region, d: nat,
                            path: Stack)
    requires Formed(n) && s0 <= |x.text|
  {
    && d < |Ends(n, ml, x, cfg, s0)| && Ends(n, ml, x, cfg, s0)[d] == s0 + len
    && Arrives(Noter(ProgramOf(n, ml, cfg)), x, CompileLength(n, cfg), s0, d, s0 + len, path)
    && Captured(n, ml, x, cfg, s0, s0 + len, path, region)
  }

  /** Groups have different numbers, and those that may be opened again or not at all have an undo entry. */
  predicate Tracked(n: Node, cfg: Cfg)
    requires Formed(n)
  {
    Numbered(n) && Steady(n, cfg)
  }

  lemma ResultMatched(n: Node, ml: bool, cfg: Cfg, x: Subject, s0: nat, d: nat, e: nat, c: Cells, path: Stack,
                      region: Region)
    requires Formed(n) && Ready(n) && Tracked(n, cfg) && s0 <= |x.text| <= INT_MAX
    requires d < |Ends(n, ml, x, cfg, s0)| && Ends(n, ml, x, cfg, s0)[d] == e
    requires Result(n, ml, cfg, x, s0, d, e, c, path, Ends(n, ml, x, cfg, s0)[d + 1..])
    requires RegionIs(cfg, c, s0, e, region)
    ensures Matched(n, ml, cfg, x, s0, e - s0, region)
  {
    hide Formed, Ready, Numbered, Steady, Ends, Together, Arrives, Enum, Captured, RegionIs, GroupSpan, CompileLength;
    hide ProgramOf, LevelOf, Legal, SpansOf, IdsOfProgram;
    RegionCaptures(n, ml, x, cfg, path, c, s0, e, region);
    assert MatchedBy(n, ml, cfg, x, s0, e - s0, region, d, path);
  }

  // ----- the noting machine beside the matcher -----

  /** How far the machines have got: results behind them, their states and the cells at the beginning of the leg, and
      the steps of the matcher since. */
  datatype Leg = Leg(d: nat, was: State, base: State, c: Cells, steps: int)

  ghost predicate Walks(n: Node, ml: bool, cfg: Cfg, x: Subject, s0: nat, leg: Leg, now: State, c: Cells,
                        left: seq<nat>)
    requires Formed(n) && s0 <= |x.text|
  {
    && leg.d <= |Ends(n, ml, x, cfg, s0)| && left == Ends(n, ml, x, cfg, s0)[leg.d..]
    && Landed(ProgramOf(n, ml, cfg), x, CompileLength(n, cfg), s0, leg.d, leg.base, leg.c)
    && Follows(ProgramOf(n, ml, cfg), x, leg.base, leg.c, leg.steps, now, c)
    && (Tracked(n, cfg) ==> Shadows(n, ml, cfg, x, s0, leg.d, leg.was, leg.c, leg.steps, now, c, left))
  }

  /** The region, if there is a match so far. */
  ghost predicate Kept(n: Node, ml: bool, cfg: Cfg, x: Subject, s0: nat, len: int, region: Region)
    requires Formed(n) && s0 <= |x.text|
  {
    len != MISMATCH ==>
      && Filled(n, ml, cfg, x, s0, len, region)
      && (Tracked(n, cfg) ==> Matched(n, ml, cfg, x, s0, len, region))
  }

  lemma WalkStart(n: Node, ml: bool, cfg: Cfg, x: Subject, s0: nat, region: Region) returns (leg: Leg)
    requires Formed(n) && Ready(n) && Marked(n, false) && TextOk(x) && s0 <= |x.text|
    ensures Walks(n, ml, cfg, x, s0, leg, StartState(s0), Cells([Slot(BOTTOM, Invalid, Invalid)], map[], map[]),
                  Ends(n, ml, x, cfg, s0))
    ensures Kept(n, ml, cfg, x, s0, MISMATCH, region)
  {
    hide Formed, Ready, Marked, Numbered, Steady, Ends, Shadows, Matched, Follows, ProgramOf, CompileLength, Filled;
    FollowsNone(ProgramOf(n, ml, cfg), x, StartState(s0), CLEARED);
    if Tracked(n, cfg) { ShadowStart(n, ml, cfg, x, s0); }
    leg := Leg(0, StartState(s0), StartState(s0), CLEARED, 0);
  }

  lemma WalkMore(n: Node, ml: bool, cfg: Cfg, x: Subject, s0: nat, leg: Leg, now: State, c: Cells, left: seq<nat>,
                 more: int, now': State, c': Cells) returns (leg': Leg)
    requires Formed(n) && s0 <= |x.text| && Walks(n, ml, cfg, x, s0, leg, now, c, left)
    requires Follows(ProgramOf(n, ml, cfg), x, now, c, more, now', c')
    ensures Walks(n, ml, cfg, x, s0, leg', now', c', left)
  {
    hide Formed, Tracked, Ends, Shadows, Follows, ProgramOf, Landed, CompileLength;
    FollowsTrans(ProgramOf(n, ml, cfg), x, leg.base, leg.c, leg.steps, now, c, more, now', c');
    if Tracked(n, cfg) {
      ShadowMore(n, ml, cfg, x, s0, leg.d, leg.was, leg.c, leg.steps, now, c, left, more, now', c');
    }
    leg' := leg.(steps := leg.steps + more);
  }

  /** A result has been taken. */
  ghost predicate Taken(n: Node, ml: bool, cfg: Cfg, x: Subject, s0: nat, d: nat, e: nat, c: Cells, path: Stack,
                        left: seq<nat>)
    requires Formed(n) && s0 <= |x.text|
  {
    && d < |Ends(n, ml, x, cfg, s0)| && Ends(n, ml, x, cfg, s0)[d] == e
    && left == Ends(n, ml, x, cfg, s0)[d + 1..]
    && Lands(ProgramOf(n, ml, cfg), x, CompileLength(n, cfg), s0, d, e, c)
    && (Tracked(n, cfg) ==> Result(n, ml, cfg, x, s0, d, e, c, path, left))
  }

  lemma WalkResult(n: Node, ml: bool, cfg: Cfg, x: Subject, s0: nat, leg: Leg, p: int, e: nat, c: Cells,
                   left: seq<nat>) returns (path: Stack)
    requires Formed(n) && Marked(n, false) && p == CompileLength(n, cfg) && s0 <= |x.text|
    requires Fetch(ProgramOf(n, ml, cfg), p) == Some(OpEnd) && left != [] && left[0] == e
    requires Walks(n, ml, cfg, x, s0, leg, Run(p, e, Entries(c.stk)), c, left)
    ensures Taken(n, ml, cfg, x, s0, leg.d, e, c, path, left[1..])
  {
    hide Formed, Marked, Numbered, Steady, CompileLength, Fetch, ProgramOf, Shadows, Result, Entries, Ends, Landed,
      Follows;
    path := [];
    if Tracked(n, cfg) {
      path := ShadowResult(n, ml, cfg, x, s0, leg.d, leg.was, leg.c, leg.steps, e, c, left);
    }
  }

  lemma WalkNext(n: Node, ml: bool, cfg: Cfg, x: Subject, s0: nat, d: nat, e: nat, c: Cells, path: Stack,
                 left: seq<nat>) returns (leg: Leg)
    requires Formed(n) && s0 <= |x.text| && Taken(n, ml, cfg, x, s0, d, e, c, path, left)
    ensures Walks(n, ml, cfg, x, s0, leg, Fail(Entries(c.stk)), c, left)
  {
    hide Formed, Tracked, Shadows, Result, Entries, Ends, Landed, Lands, Follows, ProgramOf, CompileLength;
    if Tracked(n, cfg) { ShadowNext(n, ml, cfg, x, s0, d, e, c, path, left); }
    LandedNext(ProgramOf(n, ml, cfg), x, CompileLength(n, cfg), s0, d, e, c);
    FollowsNone(ProgramOf(n, ml, cfg), x, Fail(Entries(c.stk)), c);
    leg := Leg(d + 1, Fail(path), Fail(Entries(c.stk)), c, 0);
  }

  lemma TakenMatched(n: Node, ml: bool, cfg: Cfg, x: Subject, s0: nat, d: nat, e: nat, c: Cells, path: Stack,
                     left: seq<nat>, region: Region)
    requires Formed(n) && Ready(n) && s0 <= |x.text| <= INT_MAX && Taken(n, ml, cfg, x, s0, d, e, c, path, left)
    requires RegionIs(cfg, c, s0, e, region)
    ensures Kept(n, ml, cfg, x, s0, e - s0, region)
  {
    hide Formed, Ready, Tracked, Result, Ends, RegionIs, Matched, Lands, ProgramOf, CompileLength;
    assert FilledBy(n, ml, cfg, x, s0, e - s0, region, d, c);
    if Tracked(n, cfg) { ResultMatched(n, ml, cfg, x, s0, d, e, c, path, region); }
  }

  /** OP_END: the result is taken if it improves, and its captures are copied to the region. */
  method TakeResult(m: Matcher, s0: nat, best: Best, opt: Options, ghost n: Node, ghost ml: bool, ghost leg: Leg,
                    ghost left: seq<nat>, region0: Region) returns (r: Best, region: Region, ghost path: Stack)
    requires Formed(n) && Ready(n) && Marked(n, false) && s0 <= |m.x.text| <= INT_MAX
    requires m.prog == ProgramOf(n, ml, m.cfg) && m.p == CompileLength(n, m.cfg)
    requires Fetch(m.prog, m.p) == Some(OpEnd) && left != [] && left[0] == m.s
    requires Walks(n, ml, m.cfg, m.x, s0, leg, m.Control(), m.NowCells(), left)
    requires Kept(n, ml, m.cfg, m.x, s0, best.len, region0)
    ensures r == Improve(best, m.s - s0, opt)
    ensures Taken(n, ml, m.cfg, m.x, s0, leg.d, m.s, m.NowCells(), path, left[1..])
    ensures Kept(n, ml, m.cfg, m.x, s0, r.len, region)
  {
    hide Formed, Ready, Marked, Improve, Improves, Walks, Taken, Kept, Fetch, ProgramOf, CompileLength, RegionIs,
      Entries;
    ImproveIs(best, m.s - s0, opt);
    path := WalkResult(n, ml, m.cfg, m.x, s0, leg, m.p, m.s, m.NowCells(), left);
    region := region0;
    if Improves(best, m.s - s0, opt) {
      region := m.CopyRegion(s0);
      TakenMatched(n, ml, m.cfg, m.x, s0, leg.d, m.s, m.NowCells(), path, left[1..], region);
    }
    r := Improve(best, m.s - s0, opt);
  }

  /** The beginning: the cells are cleared, and the run heads for the first result. */
  method Begin(m: Matcher, s0: nat, ghost n: Node, ghost ml: bool)
      returns (ghost k: nat, ghost goal: State, ghost leg: Leg)
    requires Formed(n) && Ready(n) && Marked(n, false) && TextOk(m.x) && s0 <= |m.x.text|
    requires m.prog == ProgramOf(n, ml, m.cfg) && m.popLevel ==
             PopLevelOf(|m.prog.ranges|, m.cfg.btMemStart, m.cfg.btMemEnd)
    modifies m
    ensures m.Valid() && Fetch(m.prog, CompileLength(n, m.cfg)) == Some(OpEnd)
    ensures Heads(Job(m.prog, m.x), m.Control(), k, goal, Ends(n, ml, m.x, m.cfg, s0), CompileLength(n, m.cfg),
                  IdsOfProgram(n, ml, m.cfg))
    ensures Walks(n, ml, m.cfg, m.x, s0, leg, m.Control(), m.NowCells(), Ends(n, ml, m.x, m.cfg, s0))
  {
    hide Walks, Formed, Ready, Marked, CompileLength, Ends, Enum, Heads, Fetch, ProgOk, ProgramOf, PopLevelOf;
    hide IdsOfProgram, Matcher.Valid, Matcher.Wired, Kept;
    ProgramEnum(n, ml, m.cfg, m.x, s0);
    WholeProgram(n, ml, m.cfg);
    IsWired(m);
    m.Start(s0);
    k, goal := NextGoal(Job(m.prog, m.x), m.Control(), Ends(n, ml, m.x, m.cfg, s0), CompileLength(n, m.cfg),
                        IdsOfProgram(n, ml, m.cfg));
    leg := WalkStart(n, ml, m.cfg, m.x, s0, map[]);
  }

  /** match_at: compiled from a tree, and started at s0, the matcher returns what Outcome makes of
      the tree's results, and fills the region with the captures of the result it takes. Every fetch, table look-up
      and scan on the way is defined, the loop ends, and the tables stay right. */
  method MatchAt(m: Matcher, s0: nat, opt: Options, search: int, ghost n: Node, ghost ml: bool)
      returns (best: Best, region: Region)
    requires Formed(n) && Ready(n) && Marked(n, false) && TextOk(m.x) && s0 <= |m.x.text|
    requires m.prog == ProgramOf(n, ml, m.cfg) && m.popLevel ==
             PopLevelOf(|m.prog.ranges|, m.cfg.btMemStart, m.cfg.btMemEnd)
    modifies m
    ensures best == Outcome(Ends(n, ml, m.x, m.cfg, s0), s0, |m.x.text|, opt, Best(MISMATCH, search))
    ensures best.len != MISMATCH ==> Filled(n, ml, m.cfg, m.x, s0, best.len, region)
    ensures best.len != MISMATCH && Tracked(n, m.cfg) ==> Matched(n, ml, m.cfg, m.x, s0, best.len, region)
  {
    hide Outcome, Improve, Tracked, Matched, Filled, Walks, Taken, Follows;
    hide Formed, Ready, Marked, CompileTree, CompileLength, Ends, Enum, Heads, Fetch, Exec, Steps, ProgOk, TableInv;
    hide KindsOk, AllMem, ProgramOf, PopLevelOf, IdsOfProgram, Size, Kept, Matcher.Valid, Matcher.Wired;
    ghost var j := Job(m.prog, m.x);
    ghost var q := CompileLength(n, m.cfg);
    ghost var ids := IdsOfProgram(n, ml, m.cfg);
    ghost var all := Ends(n, ml, m.x, m.cfg, s0);
    ghost var left := all;
    best, region := Best(MISMATCH, search), map[];
    ghost var k, goal, leg := Begin(m, s0, n, ml);
    KeptNone(n, ml, m.cfg, m.x, s0, region);
    while true
      invariant m.Valid() && Heads(j, m.Control(), k, goal, left, q, ids)
      invariant Walks(n, ml, m.cfg, m.x, s0, leg, m.Control(), m.NowCells(), left)
      invariant Kept(n, ml, m.cfg, m.x, s0, best.len, region)
      invariant Outcome(left, s0, |m.x.text|, opt, best) == Outcome(all, s0, |m.x.text|, opt, Best(MISMATCH, search))
      decreases |left|, k
    {
      Arrived(j, m.p, m.s, Entries(m.stk), k, goal, left, q, ids);
      var i := Fetch(m.prog, m.p).value;
      if i == OpEnd {
        AtEnd(j, m.Control(), k, goal, left, q, ids, m.s, Entries(m.stk));
        OutcomeStep(left, s0, |m.x.text|, opt, best);
        ghost var path;
        best, region, path := TakeResult(m, s0, best, opt, n, ml, leg, left, region);
        if opt.findNotEmpty && m.s == s0 {
          best := best.(len := MISMATCH);
          KeptNone(n, ml, m.cfg, m.x, s0, region);
        } else if !opt.findLongest || m.s >= |m.x.text| {
          KeptIs(n, ml, m.cfg, m.x, s0, best.len, region);
          return;
        }
        left := left[1..];
        k, goal, leg := TryAgain(m, j, left, q, ids, n, ml, s0, leg.d, path);
      } else if i == OpFinish {
        OutcomeNone(s0, |m.x.text|, opt, best);
        KeptIs(n, ml, m.cfg, m.x, s0, best.len, region);
        return;
      } else {
        k, leg := OneRound(m, i, j, k, goal, left, q, ids, n, ml, s0, leg);
      }
    }
  }

  lemma KeptIs(n: Node, ml: bool, cfg: Cfg, x: Subject, s0: nat, len: int, region: Region)
    requires Formed(n) && s0 <= |x.text| && Kept(n, ml, cfg, x, s0, len, region)
    ensures len != MISMATCH ==> Filled(n, ml, cfg, x, s0, len, region)
    ensures len != MISMATCH && Tracked(n, cfg) ==> Matched(n, ml, cfg, x, s0, len, region)
  {
    hide Filled, Matched, Tracked, Formed;
  }

  lemma KeptNone(n: Node, ml: bool, cfg: Cfg, x: Subject, s0: nat, region: Region)
    requires Formed(n) && s0 <= |x.text|
    ensures Kept(n, ml, cfg, x, s0, MISMATCH, region)
  {
  }

  lemma IsWired(m: Matcher)
    requires ProgOk(Image(m.prog, m.cfg)) && !m.prog.rec
    requires m.popLevel == PopLevelOf(|m.prog.ranges|, m.cfg.btMemStart, m.cfg.btMemEnd)
    ensures m.Wired()
  {
  }

  lemma OutcomeNone(s0: nat, size: nat, opt: Options, b: Best)
    ensures Outcome([], s0, size, opt, b) == b
  {
  }

  lemma OutcomeStep(ends: seq<nat>, s0: nat, size: nat, opt: Options, b: Best)
    requires ends != []
    ensures var b1 := Improve(b, ends[0] - s0, opt);
            Outcome(ends, s0, size, opt, b) ==
            if opt.findNotEmpty && ends[0] == s0 then Outcome(ends[1..], s0, size, opt, b1.(len := MISMATCH))
            else if opt.findLongest && ends[0] < size then Outcome(ends[1..], s0, size, opt, b1)
            else b1
  {
  }

  /** Behind a result the search goes on at the last choice point. */
  method TryAgain(m: Matcher, ghost j: Job, ghost left: seq<nat>, ghost q: int, ghost ids: Ids, ghost n: Node,
                  ghost ml: bool, ghost s0: nat, ghost d: nat, ghost path: Stack)
      returns (ghost k: nat, ghost goal: State, ghost leg: Leg)
    requires m.Valid() && j == Job(m.prog, m.x) && Enum(j, m.Failing(), [BOTTOM], q, left, Fail([BOTTOM]), ids)
    requires Formed(n) && s0 <= |m.x.text| && m.prog == ProgramOf(n, ml, m.cfg)
    requires Taken(n, ml, m.cfg, m.x, s0, d, m.s, m.NowCells(), path, left)
    modifies m
    ensures m.Valid() && Heads(j, m.Control(), k, goal, left, q, ids)
    ensures Walks(n, ml, m.cfg, m.x, s0, leg, m.Control(), m.NowCells(), left)
  {
    hide Enum, Heads, Steps, TableInv, KindsOk, AllMem, ProgOk, Follows, Walks, Taken, Formed, ProgramOf;
    k, goal := NextGoal(j, m.Failing(), left, q, ids);
    GoalKind(j, m.Failing(), k, goal, left, q, ids);
    leg := WalkNext(n, ml, m.cfg, m.x, s0, d, m.s, m.NowCells(), path, left);
    ghost var st, c := m.Failing(), m.NowCells();
    ghost var h, k';
    FailTabled(m);
    h, k' := m.StackPop(k, goal);
    Retried(j, st, k, goal, k', m.Control(), left, q, ids);
    leg := WalkMore(n, ml, m.cfg, m.x, s0, leg, st, c, left, k - k', m.Control(), m.NowCells());
    k := k';
  }

  /** An instruction that does not end the run. */
  method OneRound(m: Matcher, i: Instr, ghost j: Job, ghost k: nat, ghost goal: State, ghost left: seq<nat>,
                  ghost q: int, ghost ids: Ids, ghost n: Node, ghost ml: bool, ghost s0: nat, ghost leg: Leg)
      returns (ghost k': nat, ghost leg': Leg)
    requires m.Valid() && j == Job(m.prog, m.x) && Heads(j, m.Control(), k, goal, left, q, ids)
    requires Fetch(m.prog, m.p) == Some(i) && i != OpEnd && i != OpFinish && k > 0
    requires Formed(n) && s0 <= |m.x.text| && m.prog == ProgramOf(n, ml, m.cfg)
    requires Walks(n, ml, m.cfg, m.x, s0, leg, m.Control(), m.NowCells(), left)
    modifies m
    ensures m.Valid() && k' < k && Heads(j, m.Control(), k', goal, left, q, ids)
    ensures Walks(n, ml, m.cfg, m.x, s0, leg', m.Control(), m.NowCells(), left)
  {
    hide Heads, Steps, Follows, Walks, Formed, ProgramOf, Fetch, Matcher.Valid;
    GoalKind(j, m.Control(), k, goal, left, q, ids);
    ghost var st, c := m.Control(), m.NowCells();
    k' := m.Round(i, k, goal);
    Retried(j, st, k, goal, k', m.Control(), left, q, ids);
    leg' := WalkMore(n, ml, m.cfg, m.x, s0, leg, st, c, left, k - k', m.Control(), m.NowCells());
  }

  lemma FailTabled(m: Matcher)
    requires m.Tabled(m.Control())
    ensures m.Tabled(m.Failing())
  {
  }
}
