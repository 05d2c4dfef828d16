/** onig_search with FIND_LONGEST: no hit ends the search, and the start of the longest match of all is
    returned (Dependencies/oniguruma5/regexec.c). */
module SearchLongest {
  import opened Regint
  import opened Regparse
  import opened Regcomp
  import opened Machine
  import opened Meaning
  import opened Lengths
  import opened LengthSound
  import CodeLayout
  import opened CompilerCorrect
  import ProgramCorrect
  import opened Matcher
  import opened MatchAt
  import opened Optimize
  import opened OptimizeSound
  import opened DotStar
  import opened Searching
  import opened Search

  /** best_len and best_s of the search */
  datatype Record = Record(len: int, at: int)

  const NO_RECORD := Record(MISMATCH, MISMATCH)

  /** The length of the longest match from s, MISMATCH if there is none. */
  ghost function LongestAt(n: Node, ml: bool, x: Subject, cfg: Cfg, s: nat): int
    requires Formed(n) && s <= |x.text|
  {
    Longest(Ends(n, ml, x, cfg, s), s)
  }

  /** The record is the first longest match from the starts in [lo, hi). */
  ghost predicate Leads(n: Node, ml: bool, x: Subject, cfg: Cfg, lo: nat, hi: int, rec: Record)
    requires Formed(n)
  {
    && rec.len >= MISMATCH
    && (forall s: nat :: lo <= s < hi && s <= |x.text| ==> LongestAt(n, ml, x, cfg, s) <= rec.len)
    && (rec.len != MISMATCH ==>
          && lo <= rec.at < hi && rec.at <= |x.text| && LongestAt(n, ml, x, cfg, rec.at) == rec.len
          && forall s: nat :: lo <= s < rec.at ==> LongestAt(n, ml, x, cfg, s) < rec.len)
  }

  lemma LeadsNone(n: Node, ml: bool, x: Subject, cfg: Cfg, lo: nat)
    requires Formed(n)
    ensures Leads(n, ml, x, cfg, lo, lo, NO_RECORD)
  {
  }

  /** Starts that cannot beat the record may be passed over. */
  lemma LeadsOver(n: Node, ml: bool, x: Subject, cfg: Cfg, lo: nat, a: int, b: int, rec: Record)
    requires Formed(n) && Leads(n, ml, x, cfg, lo, a, rec) && a <= b
    requires forall s: nat :: a <= s < b && s <= |x.text| ==> LongestAt(n, ml, x, cfg, s) <= rec.len
    ensures Leads(n, ml, x, cfg, lo, b, rec)
  {
    hide LongestAt, Formed;
  }

  /** One more start. */
  lemma LeadsMore(n: Node, ml: bool, x: Subject, cfg: Cfg, lo: nat, s: nat, rec: Record)
    requires Formed(n) && lo <= s <= |x.text| && Leads(n, ml, x, cfg, lo, s, rec)
    ensures var l := LongestAt(n, ml, x, cfg, s);
            Leads(n, ml, x, cfg, lo, s + 1, if l > rec.len then Record(l, s) else rec)
  {
    hide LongestAt, Formed;
  }

  // ----- what the search relies on -----

  /** A match has the literal or byte, and behind a leading .* its end is also reached from any start that the
      dot reaches it from. */
  ghost predicate TrustedEnds(n: Node, ml: bool, x: Subject, cfg: Cfg, info: Info)
    requires Formed(n)
  {
    && Trusted(n, ml, x, cfg, FIRST, info)
    && (info.star ==> EndsGoBack(n, ml, x, cfg, false))
    && (info.starMl ==> EndsGoBack(n, ml, x, cfg, true))
  }

  ghost predicate EndsGoBack(n: Node, ml: bool, x: Subject, cfg: Cfg, dotAll: bool)
    requires Formed(n)
  {
    forall s: nat, t: nat, e: nat :: t <= |x.text| && DotReaches(dotAll, x, s, t) && e in Ends(n, ml, x, cfg, t) ==>
      e in Ends(n, ml, x, cfg, s)
  }

  lemma EndsTrusted(n: Node, ml: bool, x: Subject, cfg: Cfg)
    requires Formed(n) && Ready(n) && Dependable(n, ml) && |x.text| <= INT_MAX
    requires InfoOf(n, ml).how != SearchRefused
    ensures TrustedEnds(n, ml, x, cfg, InfoOf(n, ml))
  {
    hide OptNode, InfoOf, Formed, Ready, Searchable, Anchored, Trusted, EndsGoBack, Dependable;
    AnalysisTrusted(n, ml, x, cfg, FIRST);
    DependableTrails(n, ml);
    if InfoOf(n, ml).star { FlagEnds(n, ml, x, cfg, false); }
    if InfoOf(n, ml).starMl { FlagEnds(n, ml, x, cfg, true); }
  }

  lemma FlagEnds(n: Node, ml: bool, x: Subject, cfg: Cfg, dotAll: bool)
    requires Formed(n) && Ready(n) && Searchable(n) && Anchored(n, ml) && |x.text| <= INT_MAX
    requires if dotAll then InfoOf(n, ml).starMl else InfoOf(n, ml).star
    ensures EndsGoBack(n, ml, x, cfg, dotAll)
  {
    hide Ends, Formed, Ready, Searchable, OptNode, Honest;
    forall s: nat, t: nat, e: nat | t <= |x.text| && DotReaches(dotAll, x, s, t) && e in Ends(n, ml, x, cfg, t)
      ensures e in Ends(n, ml, x, cfg, s)
    {
      StarBack(n, ZERO, dotAll, ml, x, cfg, s, t, e);
    }
  }

  /** Where nothing is hit there is nothing to record. */
  lemma FreeLeads(n: Node, ml: bool, x: Subject, cfg: Cfg, lo: nat, a: int, b: int, rec: Record)
    requires Formed(n) && Leads(n, ml, x, cfg, lo, a, rec) && HitFree(n, ml, x, cfg, FIRST, a, b) && a <= b
    ensures Leads(n, ml, x, cfg, lo, b, rec)
  {
    hide LongestAt, HitAt, Formed;
    forall s: nat | a <= s < b && s <= |x.text| ensures LongestAt(n, ml, x, cfg, s) <= rec.len {
      HitOrNone(n, ml, x, cfg, s);
    }
    LeadsOver(n, ml, x, cfg, lo, a, b, rec);
  }

  lemma HitOrNone(n: Node, ml: bool, x: Subject, cfg: Cfg, s: nat)
    requires Formed(n) && s <= |x.text|
    ensures HitAt(n, ml, x, cfg, FIRST, s) || LongestAt(n, ml, x, cfg, s) == MISMATCH
  {
    hide Ends, Formed;
    var es := Ends(n, ml, x, cfg, s);
    if es != [] { assert es[0] in es; }
  }

  /** Behind a start, along the dot, only shorter matches begin. */
  lemma LaterShorter(n: Node, ml: bool, x: Subject, cfg: Cfg, dotAll: bool, s: nat, t: nat)
    requires Formed(n) && Ready(n) && EndsGoBack(n, ml, x, cfg, dotAll) && s <= t <= |x.text| <= INT_MAX
    requires DotReaches(dotAll, x, s, t)
    ensures LongestAt(n, ml, x, cfg, t) <= LongestAt(n, ml, x, cfg, s)
  {
    hide Ends, Formed, Ready;
    var es, es' := Ends(n, ml, x, cfg, s), Ends(n, ml, x, cfg, t);
    Behind(n, ml, x, cfg, s);
    Behind(n, ml, x, cfg, t);
    LongestBound(es, s, |x.text|);
    if es' != [] {
      var e := LongestEnd(es', t, |x.text|);
      assert e in es;
      LongestIs(es, s);
    }
  }

  lemma Behind(n: Node, ml: bool, x: Subject, cfg: Cfg, s: nat)
    requires Formed(n) && Ready(n) && s <= |x.text| <= INT_MAX
    ensures FromTo(Ends(n, ml, x, cfg, s), s, |x.text|)
  {
    MinLenSound(n, ml, x, cfg, s);
    hide Ends, MinLen;
    assert Bounded(Ends(n, ml, x, cfg, s), x);
  }

  /** The longest of some results is one of them. */
  lemma {:induction false} LongestEnd(ends: seq<nat>, s0: nat, size: nat) returns (e: nat)
    requires ends != [] && FromTo(ends, s0, size)
    ensures e in ends && e - s0 == Longest(ends, s0)
  {
    var rest := ends[1..];
    if rest == [] || ends[0] - s0 > Longest(rest, s0) {
      e := ends[0];
    } else {
      e := LongestEnd(rest, s0, size);
    }
  }

  // ----- the search -----

  /** match_at at one start, with the best length of the search so far. */
  method TryLongest(m: Matcher, ghost lo: nat, s: nat, rec: Record, opt: Options, ghost n: Node, ghost ml: bool)
    returns (rec': Record)
    requires Compiles(m, n, ml) && lo <= s <= |m.x.text| && opt.findLongest
    requires Formed(n) && Leads(n, ml, m.x, m.cfg, lo, s, rec)
    modifies m
    ensures Leads(n, ml, m.x, m.cfg, lo, s + 1, rec') && rec'.len >= rec.len
  {
    ghost var ends := Ends(n, ml, m.x, m.cfg, s);
    Behind(n, ml, m.x, m.cfg, s);
    LeadsMore(n, ml, m.x, m.cfg, lo, s, rec);
    hide Formed, Ready, CodeLayout.Marked, Ends, ProgramCorrect.ProgramOf, Outcome, Leads;
    var best, _ := MatchAt.MatchAt(m, s, opt, rec.len, n, ml);
    SearchLen(ends, s, |m.x.text|, opt, rec.len);
    LeadsLen(n, ml, m.x, m.cfg, lo, s, rec);
    rec' := if best.search > rec.len then Record(best.search, s) else rec;
  }

  lemma LeadsLen(n: Node, ml: bool, x: Subject, cfg: Cfg, lo: nat, hi: int, rec: Record)
    requires Formed(n) && Leads(n, ml, x, cfg, lo, hi, rec)
    ensures rec.len >= MISMATCH
  {
  }

  /** With FIND_LONGEST the best length of the search grows to the longest result, even if an empty result is
      refused. */
  lemma SearchLen(ends: seq<nat>, s0: nat, size: nat, opt: Options, search: int)
    requires FromTo(ends, s0, size) && s0 <= size && opt.findLongest && MISMATCH <= search
    ensures var m := Longest(ends, s0);
            Outcome(ends, s0, size, opt, Best(MISMATCH, search)).search == if m > search then m else search
  {
    if opt.findNotEmpty {
      assert opt == BOTH;
      BothOutcome(ends, s0, size, search);
    } else {
      assert opt == LONGEST;
      LongestOutcome(ends, s0, size, Best(MISMATCH, search));
    }
  }

  /** Every start in [s, range], the way a search without information goes. */
  method AllLongest(m: Matcher, start: nat, range: nat, opt: Options, ghost n: Node, ghost ml: bool)
    returns (rec: Record)
    requires Compiles(m, n, ml) && start <= range <= |m.x.text| && opt.findLongest
    modifies m
    ensures Formed(n) && Leads(n, ml, m.x, m.cfg, start, range + 1, rec)
  {
    hide *;
    CompilesFormed(m, n, ml);
    rec := NO_RECORD;
    LeadsNone(n, ml, m.x, m.cfg, start);
    var s := start;
    while s <= range
      invariant start <= s <= range + 1 && Leads(n, ml, m.x, m.cfg, start, s, rec)
    {
      rec := TryLongest(m, start, s, rec, opt, n, ml);
      s := s + 1;
    }
  }

  /** The windows one after the other, for a bounded distance. */
  method WindowsLongest(m: Matcher, tables: Search.Tables, info: Info, start: nat, range: nat, schRange: nat,
                        opt: Options, ghost n: Node, ghost ml: bool) returns (rec: Record)
    requires Compiles(m, n, ml) && start < range <= |m.x.text| && opt.findLongest
    requires Formed(n) && TrustedEnds(n, ml, m.x, m.cfg, info)
    requires tables.Valid() && tables.how == info.how && info.how != SearchNone && info.dmax != INFINITE_DISTANCE
    requires InfoOk(info) && schRange <= |m.x.text| && (schRange == |m.x.text| || range + info.dmax <= schRange)
    modifies m
    ensures exists hi: int :: hi >= range && Leads(n, ml, m.x, m.cfg, start, hi, rec)
  {
    ghost var x, cfg := m.x, m.cfg;
    TrustedHits(n, ml, x, cfg, info);
    hide *;
    CompilesFormed(m, n, ml);
    rec := NO_RECORD;
    LeadsNone(n, ml, x, cfg, start);
    var s := start;
    while s < range
      invariant start <= s && Leads(n, ml, x, cfg, start, s, rec)
      decreases range - s
    {
      var window := ForwardSearchRange(tables, info, m.x.text, s, schRange);
      if window.None? {
        NoPlace(n, ml, x, cfg, FIRST, info, s, range, schRange);
        FreeLeads(n, ml, x, cfg, start, s, range, rec);
        return;
      }
      var (low, high) := window.value;
      if s < low {
        WindowSafe(n, ml, x, cfg, FIRST, info, s, low, high + info.dmin);
        FreeLeads(n, ml, x, cfg, start, s, low, rec);
        s := low;
      }
      rec, s := WindowLongest(m, start, s, high, rec, opt, n, ml);
    }
  }

  method WindowLongest(m: Matcher, ghost start: nat, from: nat, high: int, rec0: Record, opt: Options, ghost n: Node,
                       ghost ml: bool) returns (rec: Record, s: nat)
    requires Compiles(m, n, ml) && start <= from && high <= |m.x.text| && opt.findLongest
    requires Formed(n) && Leads(n, ml, m.x, m.cfg, start, from, rec0)
    modifies m
    ensures from <= s && s > high && Leads(n, ml, m.x, m.cfg, start, s, rec)
  {
    hide *;
    rec, s := rec0, from;
    while s <= high
      invariant from <= s && Leads(n, ml, m.x, m.cfg, start, s, rec)
      decreases high - s
    {
      rec := TryLongest(m, start, s, rec, opt, n, ml);
      s := s + 1;
    }
  }

  /** One start on every line, behind a leading .* */
  method LinesLongest(m: Matcher, info: Info, start: nat, range: nat, opt: Options, ghost n: Node, ghost ml: bool)
    returns (rec: Record)
    requires Compiles(m, n, ml) && start < range <= |m.x.text| && opt.findLongest && info.star
    requires Formed(n) && TrustedEnds(n, ml, m.x, m.cfg, info)
    modifies m
    ensures Leads(n, ml, m.x, m.cfg, start, range, rec)
  {
    hide *;
    ghost var x, cfg := m.x, m.cfg;
    StarGoesBack(n, ml, x, cfg, info);
    CompilesReady(m, n, ml);
    rec := NO_RECORD;
    LeadsNone(n, ml, x, cfg, start);
    var s := start;
    while s < range
      invariant start <= s <= range && Leads(n, ml, x, cfg, start, s, rec)
      decreases range - s
    {
      rec := TryLongest(m, start, s, rec, opt, n, ml);
      s := NextLine(m.x, cfg, start, s, range, rec, n, ml);
    }
  }

  /** To the start of the next line, or to the end of the range. */
  method NextLine(x: Subject, ghost cfg: Cfg, ghost start: nat, from: nat, range: nat, ghost rec: Record, ghost n: Node,
                  ghost ml: bool) returns (s: nat)
    requires Formed(n) && Ready(n) && EndsGoBack(n, ml, x, cfg, false) && start <= from < range <= |x.text| <= INT_MAX
    requires Leads(n, ml, x, cfg, start, from + 1, rec)
    ensures from < s <= range && Leads(n, ml, x, cfg, start, s, rec)
  {
    hide *;
    s := from + 1;
    ClearNone(x, from);
    while x.text[s - 1] != NEWLINE && s < range
      invariant from < s <= range && Clear(x, from, s - 1) && Leads(n, ml, x, cfg, start, s, rec)
      decreases range - s
    {
      ClearOne(x, from, s);
      SameLine(n, ml, x, cfg, start, from, s, rec);
      s := s + 1;
    }
  }

  lemma StarGoesBack(n: Node, ml: bool, x: Subject, cfg: Cfg, info: Info)
    requires Formed(n) && TrustedEnds(n, ml, x, cfg, info) && info.star
    ensures EndsGoBack(n, ml, x, cfg, false)
  {
  }

  lemma ClearNone(x: Subject, s: nat)
    ensures Clear(x, s, s)
  {
  }

  lemma ClearOne(x: Subject, from: nat, s: nat)
    requires from < s <= |x.text| && Clear(x, from, s - 1) && x.text[s - 1] != NEWLINE
    ensures Clear(x, from, s)
  {
  }

  lemma CompilesReady(m: Matcher, n: Node, ml: bool)
    requires Compiles(m, n, ml)
    ensures Formed(n) && Ready(n) && |m.x.text| <= INT_MAX
  {
  }

  lemma SameLine(n: Node, ml: bool, x: Subject, cfg: Cfg, start: nat, head: nat, s: nat, rec: Record)
    requires Formed(n) && Ready(n) && EndsGoBack(n, ml, x, cfg, false) && start <= head < s <= |x.text| <= INT_MAX
    requires Clear(x, head, s) && Leads(n, ml, x, cfg, start, s, rec)
    ensures Leads(n, ml, x, cfg, start, s + 1, rec)
  {
    hide LongestAt, Formed, Ready;
    LaterShorter(n, ml, x, cfg, false, head, s);
    LeadsOver(n, ml, x, cfg, start, s, s + 1, rec);
  }

  /** Behind (?m:.*) no start beats the first. */
  lemma RestShorter(n: Node, ml: bool, x: Subject, cfg: Cfg, start: nat, hi: int, rec: Record)
    requires Formed(n) && Ready(n) && EndsGoBack(n, ml, x, cfg, true) && start < hi && start <= |x.text| <= INT_MAX
    requires Leads(n, ml, x, cfg, start, hi, rec)
    ensures hi <= |x.text| + 1 ==> Leads(n, ml, x, cfg, start, |x.text| + 1, rec)
  {
    forall s: nat | hi <= s <= |x.text| ensures LongestAt(n, ml, x, cfg, s) <= rec.len {
      LaterShorter(n, ml, x, cfg, true, start, s);
    }
    hide LongestAt, Formed, Ready;
    if hi <= |x.text| + 1 { LeadsOver(n, ml, x, cfg, start, hi, |x.text| + 1, rec); }
  }

  /** What remains behind the range cannot beat the record. */
  lemma ClosingLeads(n: Node, ml: bool, x: Subject, cfg: Cfg, info: Info, start: nat, hi: int, rec: Record)
    requires Formed(n) && Ready(n) && TrustedEnds(n, ml, x, cfg, info) && start < hi && start <= |x.text| <= INT_MAX
    requires Leads(n, ml, x, cfg, start, hi, rec) && InfoOk(info)
    requires info.starMl || (info.how != SearchNone && hi >= |x.text|) || hi > |x.text|
    ensures Leads(n, ml, x, cfg, start, |x.text| + 1, rec)
  {
    hide LongestAt, Formed, Ready, Leads, Trusted, EndsGoBack, InfoOk, HitFree;
    if hi > |x.text| {
      LeadsDown(n, ml, x, cfg, start, hi, rec);
    } else if info.starMl {
      RestShorter(n, ml, x, cfg, start, hi, rec);
    } else {
      NoRoom(n, ml, x, cfg, FIRST, info, hi);
      FreeLeads(n, ml, x, cfg, start, hi, |x.text| + 1, rec);
    }
  }

  lemma LeadsDown(n: Node, ml: bool, x: Subject, cfg: Cfg, lo: nat, hi: int, rec: Record)
    requires Formed(n) && Leads(n, ml, x, cfg, lo, hi, rec) && hi > |x.text|
    ensures Leads(n, ml, x, cfg, lo, |x.text| + 1, rec)
  {
    hide LongestAt, Formed;
  }

  /** No place at all, or no room for one. */
  lemma NoneLeads(n: Node, ml: bool, x: Subject, cfg: Cfg, start: nat)
    requires Formed(n) && start <= |x.text| && HitFree(n, ml, x, cfg, FIRST, start, |x.text| + 1)
    ensures Leads(n, ml, x, cfg, start, |x.text| + 1, NO_RECORD)
  {
    hide HitFree, Formed, Leads;
    LeadsNone(n, ml, x, cfg, start);
    FreeLeads(n, ml, x, cfg, start, start, |x.text| + 1, NO_RECORD);
  }

  /** The windows, and what is behind them. */
  method Windowed(m: Matcher, tables: Search.Tables, info: Info, start: nat, range: nat, opt: Options, ghost n: Node,
                  ghost ml: bool) returns (rec: Record)
    requires Compiles(m, n, ml) && start < range <= |m.x.text| && opt.findLongest
    requires Formed(n) && TrustedEnds(n, ml, m.x, m.cfg, info) && info.dmax != INFINITE_DISTANCE
    requires tables.Valid() && tables.how == info.how && InfoOk(info) && info.how != SearchNone
    requires range == if info.starMl then start + 1 else |m.x.text|
    modifies m
    ensures Leads(n, ml, m.x, m.cfg, start, |m.x.text| + 1, rec)
  {
    hide *;
    var end := |m.x.text|;
    CompilesReady(m, n, ml);
    var schRange := if info.dmax == 0 then range else if range + info.dmax > end then end else range + info.dmax;
    rec := WindowsLongest(m, tables, info, start, range, schRange, opt, n, ml);
    ghost var hi: int :| hi >= range && Leads(n, ml, m.x, m.cfg, start, hi, rec);
    ClosingLeads(n, ml, m.x, m.cfg, info, start, hi, rec);
  }

  /** The part of a forward search that uses the information. done: it has decided the search. */
  method InformedLongest(m: Matcher, tables: Search.Tables, info: Info, start: nat, range: nat, opt: Options,
                         ghost n: Node, ghost ml: bool) returns (done: bool, rec: Record)
    requires Compiles(m, n, ml) && start < range <= |m.x.text| && opt.findLongest
    requires Formed(n) && TrustedEnds(n, ml, m.x, m.cfg, info)
    requires tables.Valid() && tables.how == info.how && InfoOk(info) && info.how != SearchNone
    requires range == if info.starMl then start + 1 else |m.x.text|
    modifies m
    ensures done ==> Leads(n, ml, m.x, m.cfg, start, |m.x.text| + 1, rec)
  {
    hide *;
    ghost var x, cfg := m.x, m.cfg;
    var end := |m.x.text|;
    CompilesReady(m, n, ml);
    TrustedHits(n, ml, x, cfg, info);
    rec := NO_RECORD;
    if end - start < info.threshold {
      NoRoom(n, ml, x, cfg, FIRST, info, start);
      NoneLeads(n, ml, x, cfg, start);
      return true, rec;
    }
    if info.dmax != INFINITE_DISTANCE {
      rec := Windowed(m, tables, info, start, range, opt, n, ml);
      return true, rec;
    }
    var window := ForwardSearchRange(tables, info, m.x.text, start, end);
    if window.None? {
      NoPlace(n, ml, x, cfg, FIRST, info, start, end + 1, end);
      NoneLeads(n, ml, x, cfg, start);
      return true, rec;
    }
    done := info.star;
    if info.star {
      rec := LinesLongest(m, info, start, range, opt, n, ml);
      ClosingLeads(n, ml, x, cfg, info, start, range, rec);
    }
  }

  lemma TrustedHits(n: Node, ml: bool, x: Subject, cfg: Cfg, info: Info)
    requires Formed(n) && TrustedEnds(n, ml, x, cfg, info)
    ensures Trusted(n, ml, x, cfg, FIRST, info)
  {
  }

  /** Where a search with FIND_LONGEST arrives: at the first of the longest matches, if there is one. */
  ghost predicate LongestPlace(n: Node, ml: bool, x: Subject, cfg: Cfg, start: nat, r: int)
    requires Formed(n)
  {
    if r == MISMATCH then forall s: nat :: start <= s <= |x.text| ==> LongestAt(n, ml, x, cfg, s) == MISMATCH
    else
      && start <= r <= |x.text| && LongestAt(n, ml, x, cfg, r) >= 0
      && (forall s: nat :: start <= s <= |x.text| ==> LongestAt(n, ml, x, cfg, s) <= LongestAt(n, ml, x, cfg, r))
      && (forall s: nat :: start <= s < r ==> LongestAt(n, ml, x, cfg, s) < LongestAt(n, ml, x, cfg, r))
  }

  lemma {:induction false} LongestLow(ends: seq<nat>, s0: nat)
    requires forall i :: 0 <= i < |ends| ==> ends[i] >= s0
    ensures Longest(ends, s0) >= MISMATCH
  {
    if ends != [] { LongestLow(ends[1..], s0); }
  }

  lemma RecordPlace(n: Node, ml: bool, x: Subject, cfg: Cfg, start: nat, rec: Record)
    requires Formed(n) && Ready(n) && |x.text| <= INT_MAX && Leads(n, ml, x, cfg, start, |x.text| + 1, rec)
    ensures LongestPlace(n, ml, x, cfg, start, if rec.len >= 0 then rec.at else MISMATCH)
  {
    forall s: nat | s <= |x.text| ensures LongestAt(n, ml, x, cfg, s) >= MISMATCH {
      Behind(n, ml, x, cfg, s);
      LongestLow(Ends(n, ml, x, cfg, s), s);
    }
    hide LongestAt, Formed, Ready;
  }

  /** With FIND_NOT_EMPTY as well, the start that is returned has a match that is not empty exactly if some start
      has one. */
  lemma NotEmptyKept(n: Node, ml: bool, x: Subject, cfg: Cfg, start: nat, r: int)
    requires Formed(n) && Ready(n) && |x.text| <= INT_MAX && LongestPlace(n, ml, x, cfg, start, r) && r != MISMATCH
    ensures start <= r <= |x.text|
    ensures HitAt(n, ml, x, cfg, BOTH, r) <==>
            exists s: nat :: start <= s <= |x.text| && HitAt(n, ml, x, cfg, BOTH, s)
  {
    forall s: nat | s <= |x.text| ensures HitAt(n, ml, x, cfg, BOTH, s) <==> LongestAt(n, ml, x, cfg, s) > 0 {
      HitLonger(n, ml, x, cfg, s);
    }
    hide LongestAt, HitAt, Formed, Ready;
  }

  lemma HitLonger(n: Node, ml: bool, x: Subject, cfg: Cfg, s: nat)
    requires Formed(n) && Ready(n) && s <= |x.text| <= INT_MAX
    ensures HitAt(n, ml, x, cfg, BOTH, s) <==> LongestAt(n, ml, x, cfg, s) > 0
  {
    hide Ends, Formed, Ready;
    Behind(n, ml, x, cfg, s);
    var es := Ends(n, ml, x, cfg, s);
    LongestIs(es, s);
    if LongestAt(n, ml, x, cfg, s) > 0 { var e := LongestEnd(es, s, |x.text|); }
  }

  /** Forward, from in front of the end of the text. */
  method ForwardLongest(m: Matcher, tables: Search.Tables, info: Info, start: nat, opt: Options, ghost n: Node,
                        ghost ml: bool) returns (rec: Record)
    requires Compiles(m, n, ml) && start < |m.x.text| && opt.findLongest
    requires Formed(n) && TrustedEnds(n, ml, m.x, m.cfg, info)
    requires tables.Valid() && tables.how == info.how && InfoOk(info)
    modifies m
    ensures Leads(n, ml, m.x, m.cfg, start, |m.x.text| + 1, rec)
  {
    hide *;
    CompilesReady(m, n, ml);
    var range := if info.starMl then start + 1 else |m.x.text|;
    if info.how != SearchNone {
      var done: bool;
      done, rec := InformedLongest(m, tables, info, start, range, opt, n, ml);
      if done { return; }
    }
    rec := AllLongest(m, start, range, opt, n, ml);
    ClosingLeads(n, ml, m.x, m.cfg, info, start, range + 1, rec);
  }

  lemma NoStart(n: Node, ml: bool, x: Subject, cfg: Cfg, start: nat)
    requires Formed(n) && start > |x.text|
    ensures LongestPlace(n, ml, x, cfg, start, MISMATCH)
  {
  }

  /** onig_search with FIND_LONGEST and range at the end of the text. */
  method OnigSearchLongest(m: Matcher, tables: Search.Tables, info: Info, start: nat, opt: Options, ghost n: Node,
                           ghost ml: bool) returns (r: int)
    requires Compiles(m, n, ml) && opt.findLongest
    requires Formed(n) && TrustedEnds(n, ml, m.x, m.cfg, info)
    requires tables.Valid() && tables.how == info.how && InfoOk(info)
    modifies m
    ensures LongestPlace(n, ml, m.x, m.cfg, start, r)
  {
    hide *;
    ghost var x, cfg := m.x, m.cfg;
    var end := |m.x.text|;
    CompilesReady(m, n, ml);
    if start > end {
      NoStart(n, ml, x, cfg, start);
      return MISMATCH;
    }
    var rec := NO_RECORD;
    if start < end {
      rec := ForwardLongest(m, tables, info, start, opt, n, ml);
    } else if info.how != SearchNone {
      TrustedHits(n, ml, x, cfg, info);
      NoRoom(n, ml, x, cfg, FIRST, info, start);
      NoneLeads(n, ml, x, cfg, start);
    } else {
      LeadsNone(n, ml, x, cfg, start);
      rec := TryLongest(m, start, start, rec, opt, n, ml);
    }
    RecordPlace(n, ml, x, cfg, start, rec);
    r := if rec.len >= 0 then rec.at else MISMATCH;
  }
}
