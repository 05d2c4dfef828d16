/** From a parse tree to a match and to a search: set-up, compilation, match_at and onig_search
    together. */
module Regex {
  import opened Regint
  import opened Regparse
  import opened Regcomp
  import opened Machine
  import opened Meaning
  import opened Lengths
  import opened LengthSound
  import opened CompilerCorrect
  import opened ProgramCorrect
  import opened Matcher
  import opened MatchAt
  import opened Setup
  import opened SetupMeaning
  import opened SetupCorrect
  import opened SetupReady
  import opened CaptureCells
  import opened Spans
  import opened MemoryBits
  import opened SourceSpans
  import opened Regions
  import opened CodeLayout
  import opened PopLevels
  import opened Optimize
  import opened LostLiterals
  import opened OptimizeSound
  import opened DotStar
  import S = Search
  import L = SearchLongest
  import Compiler

  /** compile_tree on the finished tree, then OP_END; base is where the code buffer lies. */
  method CompileProgram(t: Node, ml: bool, cfg: Cfg, base: nat) returns (prog: Prog)
    requires Formed(t)
    ensures prog == ProgramOf(t, ml, cfg)
  {
    hide Formed, Add, CompileLength, Regcomp.CompileTree, ProgramOf, Ext;
    var reg := new Compiler.PatternBuffer(cfg, base, ml);
    reg.CompileTree(t);
    reg.AddInstr(OpEnd, 0);
    prog := Prog(reg.code, reg.ranges);
    ProgramIs(t, ml, cfg, reg.Out());
  }

  lemma ProgramIs(t: Node, ml: bool, cfg: Cfg, r: Reg)
    requires Formed(t) && r == Add(Regcomp.CompileTree(t, ml, cfg, Reg([], [], 0)), OpEnd, SIZE_OPCODE + 0)
    ensures Prog(r.code, r.ranges) == ProgramOf(t, ml, cfg)
  {
  }

  lemma ExactSome(t: Node, ml: bool)
    ensures InfoOf(t, ml).how.SearchExact? ==> InfoOf(t, ml).how.s != []
  {
    hide OptNode;
  }

  /** What set-up and the analysis hand over. */
  lemma Prepared(n: Node, ml: bool)
    requires Parsed(n)
    ensures var t := SetupTree(n, false);
            var info := InfoOf(t, ml);
            && Formed(n) && Formed(t) && Ready(t) && Marked(t, false)
            && (info.how != SearchRefused ==> S.InfoOk(info)) && (info.how.SearchExact? ==> info.how.s != [])
            && (info.how == SearchRefused <==> Refuses(OptNode(t, ZERO, ml)))
            && (Keeps(n) ==> info.how != SearchRefused)
  {
    hide OptNode, SetupTree, Parsed, Keeps, Refuses;
    var t := SetupTree(n, false);
    ParsedFormed(n);
    SetupFormed(n, false);
    SetupIsReady(n, false);
    SetupMarked(n, false);
    S.InfoIsOk(t, ml);
    ExactSome(t, ml);
    RefusedExactly(t, ml);
    if Keeps(n) { NeverRefused(n, ml); }
  }

  /** Every capture is a place where the body of its group matches. */
  ghost predicate Captures(n: Node, ml: bool, x: Subject, cfg: Cfg, s0: nat, len: int, region: Region)
    requires Formed(n)
  {
    && 0 in region && region[0] == (s0, s0 + len)
    && forall k: nat :: 1 <= k <= cfg.numMem && k in region ==>
         region[k].0 <= region[k].1 && GroupSpan(n, ml, x, cfg, k, region[k].0, region[k].1)
  }

  /** The groups have the bits that set-up asks for, and no repeat of the finished tree may leave early. */
  predicate Traced(n: Node, cfg: Cfg)
    requires Formed(SetupTree(n, false))
  {
    Numbered(n) && StartBits(n, false) <= cfg.btMemStart && NoneQuits(SetupTree(n, false), cfg)
  }

  lemma TracedTracked(n: Node, cfg: Cfg)
    requires Parsed(n) && Formed(SetupTree(n, false)) && Traced(n, cfg)
    ensures Tracked(SetupTree(n, false), cfg)
  {
    SetupSteady(n, cfg);
  }

  lemma MatchedCaptures(n: Node, ml: bool, cfg: Cfg, x: Subject, s0: nat, len: int, region: Region)
    requires Parsed(n) && Unmisled(n) && Formed(n) && Formed(SetupTree(n, false)) && s0 <= |x.text|
    requires Matched(SetupTree(n, false), ml, cfg, x, s0, len, region)
    ensures Captures(n, ml, x, cfg, s0, len, region)
  {
    hide Parsed, Unmisled, Formed, SetupTree, GroupSpan, Arrives, Ends, ProgramOf, CompileLength;
    var t := SetupTree(n, false);
    var d: nat, path: Stack :| MatchedBy(t, ml, cfg, x, s0, len, region, d, path);
    forall k: nat | 1 <= k <= cfg.numMem && k in region
      ensures region[k].0 <= region[k].1 && GroupSpan(n, ml, x, cfg, k, region[k].0, region[k].1)
    {
      assert CaptureOf(t, ml, x, cfg, path, region, k);
      SetupSpan(n, false, ml, x, cfg, k, region[k].0, region[k].1);
    }
  }

  /** Set-up, compilation and match_at together: the outcome of the finished tree's results, and of the
      parse tree's where no loop is misled; and the captures of the match. */
  method Match(n: Node, ml: bool, cfg: Cfg, base: nat, x: Subject, s0: nat, opt: Options, search: int)
    returns (best: Best, region: Region)
    requires Parsed(n) && TextOk(x) && s0 <= |x.text|
    ensures Formed(n) && Formed(SetupTree(n, false))
    ensures best == Outcome(Ends(SetupTree(n, false), ml, x, cfg, s0), s0, |x.text|, opt, Best(MISMATCH, search))
    ensures Unmisled(n) ==> best == Outcome(Ends(n, ml, x, cfg, s0), s0, |x.text|, opt, Best(MISMATCH, search))
    ensures best.len != MISMATCH ==> Filled(SetupTree(n, false), ml, cfg, x, s0, best.len, region)
    ensures best.len != MISMATCH && Traced(n, cfg) ==>
              Matched(SetupTree(n, false), ml, cfg, x, s0, best.len, region)
    ensures best.len != MISMATCH && Traced(n, cfg) && Unmisled(n) ==>
              Captures(n, ml, x, cfg, s0, best.len, region)
  {
    hide *;
    var t := SetupTree(n, false);
    Prepared(n, ml);
    if Unmisled(n) { SetupEnds(n, false, ml, x, cfg, s0); }
    var prog := CompileProgram(t, ml, cfg, base);
    var m := new Matcher(prog, cfg, x);
    best, region := MatchAt.MatchAt(m, s0, opt, search, t, ml);
    if Traced(n, cfg) {
      TracedTracked(n, cfg);
      if best.len != MISMATCH && Unmisled(n) { MatchedCaptures(n, ml, cfg, x, s0, best.len, region); }
    }
  }

  /** onig_new and onig_search, forward to the end of the text: an error exactly if the analysis chose a literal
      whose length is lost, which takes a positive look-ahead and something overlong behind it; otherwise a hit
      or none: whatever the analysis says, the first of the starts it leaves to be tried from which there is a
      match, and the leftmost match where the analysis can be trusted. */
  method Search(n: Node, ml: bool, cfg: Cfg, base: nat, x: Subject, start: nat, opt: Options) returns (r: int)
    requires Parsed(n) && TextOk(x) && !opt.findLongest
    ensures Formed(n) && Formed(SetupTree(n, false))
    ensures r == ONIGERR_MEMORY <==> Refuses(OptNode(SetupTree(n, false), ZERO, ml))
    ensures Keeps(n) ==> r != ONIGERR_MEMORY
    ensures r != MISMATCH && r != ONIGERR_MEMORY ==>
              start <= r <= |x.text| && S.HitAt(SetupTree(n, false), ml, x, cfg, opt, r)
    ensures var t := SetupTree(n, false);
            r != ONIGERR_MEMORY ==> S.FirstTried(t, ml, x, cfg, opt, InfoOf(t, ml), start, r)
    ensures var t := SetupTree(n, false);
            r != ONIGERR_MEMORY && Dependable(t, ml) && Unmisled(n) ==>
              S.Leftmost(n, ml, x, cfg, opt, start, r)
  {
    hide *;
    var t := SetupTree(n, false);
    var info := InfoOf(t, ml);
    Prepared(n, ml);
    if info.how == SearchRefused { return ONIGERR_MEMORY; }
    var prog := CompileProgram(t, ml, cfg, base);
    var m := new Matcher(prog, cfg, x);
    var tables := new S.Tables(info.how);
    MatcherCompiles(m, t, ml);
    r := S.OnigSearch(m, tables, info, start, opt, t, ml);
    if r != MISMATCH { S.TriedHit(t, ml, x, cfg, opt, info, start, r); }
    NotError(start, |x.text|, r);
    if Dependable(t, ml) && Unmisled(n) {
      TextSmall(x);
      S.AnalysisTrusted(t, ml, x, cfg, opt);
      S.TrustedLeftmost(t, ml, x, cfg, opt, info, start, r);
      SameLeftmost(n, ml, x, cfg, opt, start, r);
    }
  }

  /** The same with FIND_LONGEST: the first of the longest matches, from whatever start. FIND_NOT_EMPTY does not
      keep an empty match out: see NotEmptyKept. */
  method SearchLongest(n: Node, ml: bool, cfg: Cfg, base: nat, x: Subject, start: nat, opt: Options) returns (r: int)
    requires Parsed(n) && TextOk(x) && opt.findLongest
    requires Dependable(SetupTree(n, false), ml)
    ensures Formed(n) && Formed(SetupTree(n, false))
    ensures r == ONIGERR_MEMORY <==> Refuses(OptNode(SetupTree(n, false), ZERO, ml))
    ensures Keeps(n) ==> r != ONIGERR_MEMORY
    ensures r != ONIGERR_MEMORY ==> L.LongestPlace(SetupTree(n, false), ml, x, cfg, start, r)
    ensures r != ONIGERR_MEMORY && Unmisled(n) ==> L.LongestPlace(n, ml, x, cfg, start, r)
  {
    hide *;
    var t := SetupTree(n, false);
    var info := InfoOf(t, ml);
    Prepared(n, ml);
    TextSmall(x);
    if info.how == SearchRefused { return ONIGERR_MEMORY; }
    var prog := CompileProgram(t, ml, cfg, base);
    var m := new Matcher(prog, cfg, x);
    var tables := new S.Tables(info.how);
    MatcherCompiles(m, t, ml);
    L.EndsTrusted(t, ml, x, cfg);
    r := L.OnigSearchLongest(m, tables, info, start, opt, t, ml);
    PlaceNotError(t, ml, x, cfg, start, r);
    if Unmisled(n) { SameLongest(n, ml, x, cfg, start, r); }
  }

  lemma PlaceNotError(t: Node, ml: bool, x: Subject, cfg: Cfg, start: nat, r: int)
    requires Formed(t) && L.LongestPlace(t, ml, x, cfg, start, r)
    ensures r != ONIGERR_MEMORY
  {
    hide L.LongestAt, Formed;
  }

  lemma SameLongest(n: Node, ml: bool, x: Subject, cfg: Cfg, start: nat, r: int)
    requires Parsed(n) && Unmisled(n) && Formed(n) && Formed(SetupTree(n, false))
    requires L.LongestPlace(SetupTree(n, false), ml, x, cfg, start, r)
    ensures L.LongestPlace(n, ml, x, cfg, start, r)
  {
    hide Ends, SetupTree, Formed, Parsed, Unmisled;
    forall s: nat | s <= |x.text|
      ensures L.LongestAt(SetupTree(n, false), ml, x, cfg, s) == L.LongestAt(n, ml, x, cfg, s)
    {
      SetupEnds(n, false, ml, x, cfg, s);
    }
  }

  const ONIGERR_MEMORY := -5

  lemma NotError(start: nat, size: nat, r: int)
    requires r != MISMATCH ==> start <= r <= size
    ensures r != ONIGERR_MEMORY
  {
  }

  lemma TextSmall(x: Subject)
    requires TextOk(x)
    ensures |x.text| <= INT_MAX
  {
  }

  lemma MatcherCompiles(m: Matcher, t: Node, ml: bool)
    requires Formed(t) && Ready(t) && Marked(t, false) && TextOk(m.x) && m.prog == ProgramOf(t, ml, m.cfg)
    requires m.popLevel == PopLevelOf(|m.prog.ranges|, m.cfg.btMemStart, m.cfg.btMemEnd)
    ensures S.Compiles(m, t, ml)
  {
  }

  /** Set-up moves no match. */
  lemma SameLeftmost(n: Node, ml: bool, x: Subject, cfg: Cfg, opt: Options, start: nat, r: int)
    requires Parsed(n) && Unmisled(n) && Formed(n) && Formed(SetupTree(n, false))
    requires S.Leftmost(SetupTree(n, false), ml, x, cfg, opt, start, r)
    ensures S.Leftmost(n, ml, x, cfg, opt, start, r)
  {
    hide Ends, SetupTree, Formed, Parsed, Unmisled;
    forall s: nat | s <= |x.text|
      ensures S.HitAt(SetupTree(n, false), ml, x, cfg, opt, s) == S.HitAt(n, ml, x, cfg, opt, s)
    {
      SetupEnds(n, false, ml, x, cfg, s);
    }
  }
}
