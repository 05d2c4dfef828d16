/** onig_search, forward to the end of the text, without and with what optimize_node_left found out:
    the leftmost match, as trying every position would give it (Dependencies/oniguruma5/regexec.c). */
module Search {
  import opened Regint
  import opened Regparse
  import opened Regcomp
  import opened Machine
  import opened Meaning
  import opened Lengths
  import opened LengthSound
  import opened CompilerCorrect
  import opened ProgramCorrect
  import opened CodeLayout
  import opened PopLevels
  import opened Matcher
  import opened MatchAt
  import opened Optimize
  import opened OptimizeSound
  import opened LastRepeat
  import opened DotStar
  import opened Searching

  // ----- the necessary condition -----

  /** The literal, or a byte of the map, stands at p. */
  predicate Here(how: Method, text: Text, p: int) {
    match how
    case SearchNone => true
    case SearchExact(str) => Occurs(text, p, str)
    case SearchMap(bytes) => 0 <= p < |text| && text[p] in bytes
    case SearchRefused => false
  }

  ghost predicate Necessary(info: Info, text: Text, s: nat) {
    info.how != SearchNone ==> exists p: int :: NecessaryAt(info, text, s, p)
  }

  predicate NecessaryAt(info: Info, text: Text, s: nat, p: int) {
    InMml(Mml(info.dmin, info.dmax), p - s) && Here(info.how, text, p)
  }

  /** What set_optimize_info_from_tree keeps is in every match. */
  lemma InfoSound(n: Node, ml: bool, x: Subject, cfg: Cfg, s: nat)
    requires Formed(n) && Ready(n) && Trailing(n) && s <= |x.text| <= INT_MAX && Ends(n, ml, x, cfg, s) != []
    requires InfoOf(n, ml).how != SearchRefused
    ensures Necessary(InfoOf(n, ml), x.text, s)
  {
    hide OptNode, Ends, Formed, Ready, Trailing;
    var e := Ends(n, ml, x, cfg, s)[0];
    var o := OptNode(n, ZERO, ml);
    var span := Span(x, s, s, e);
    TrailSound(n, ZERO, ml, x, cfg, s, s, e);
    ChosenSound(n, ml, o, span);
  }

  lemma ChosenSound(n: Node, ml: bool, o: Opt, p: Span)
    requires o == OptNode(n, ZERO, ml) && OptOk(Drop(o), p) && p.s0 == p.s && InfoOf(n, ml).how != SearchRefused
    ensures Necessary(InfoOf(n, ml), p.x.text, p.s)
  {
    hide OptNode, HasAt, CompExactOrMap;
    var info := InfoOf(n, ml);
    if info.how.SearchMap? {
      var i: nat :| ByteAt(o.byteMap, p, i);
      assert NecessaryAt(info, p.x.text, p.s, i);
    } else if info.how.SearchExact? {
      var a := SelectExact(o.exb, o.exm);
      var i := FoundAt(Off(a), p);
      assert NecessaryAt(info, p.x.text, p.s, i);
    }
  }

  lemma FoundAt(a: Exact, p: Span) returns (i: nat)
    requires a.s != [] && p.s0 == p.s && (ExbOk(a, p) || ExmOk(a, p))
    ensures InMml(a.mmd, i - p.s) && Occurs(p.x.text, i, a.s)
  {
    if ExbOk(a, p) { i := p.s; } else { i :| LiteralAt(a, p, i); }
  }

  predicate InfoOk(info: Info) {
    match info.how
    case SearchNone => info.threshold == 0
    case SearchExact(str) => str != [] && (info.dmin == INFINITE_DISTANCE || info.threshold == info.dmin + |str|)
    case SearchMap(_) => info.dmin == INFINITE_DISTANCE || info.threshold == info.dmin + 1
    case SearchRefused => false
  }

  lemma InfoIsOk(n: Node, ml: bool)
    ensures InfoOf(n, ml).how != SearchRefused ==> InfoOk(InfoOf(n, ml))
  {
    hide OptNode;
  }

  /** A place of the literal or byte lies inside the text, dmin and more behind the start. */
  lemma NecessaryRoom(info: Info, text: Text, s: nat)
    requires InfoOk(info) && info.how != SearchNone && Necessary(info, text, s) && |text| <= INT_MAX
    ensures s < |text| && |text| - s >= info.threshold && info.dmin != INFINITE_DISTANCE
  {
    var p: int :| NecessaryAt(info, text, s, p);
  }

  // ----- forward_search_range -----

  /** The tables of regex_t for one literal: filled in when it is long enough. */
  class Tables {
    const how: Method
    const skip: array<nat>

    ghost predicate Valid()
      reads this, skip
    {
      match how
      case SearchNone => true
      case SearchExact(str) =>
        str != [] && (|str| >= 2 ==> skip.Length == 256 && forall c: byte :: skip[c] == SkipOf(str, |str| - 1, c))
      case SearchMap(_) => true
      case SearchRefused => false
    }

    /** set_optimize_exact_info, set_optimize_map_info */
    constructor (how: Method)
      requires how != SearchRefused && (how.SearchExact? ==> how.s != [])
      ensures Valid() && this.how == how && fresh(skip)
    {
      this.how := how;
      var table := new nat[0];
      if how.SearchExact? && |how.s| >= 2 { table := SetBmSkip(how.s); }
      skip := table;
    }

    /** The first place in [from, range). */
    method FindPlace(text: Text, from: nat, range: int) returns (r: Option<nat>)
      requires Valid() && how != SearchNone && range <= |text|
      ensures r.Some? ==> from <= r.value < range && Here(how, text, r.value) && forall i :: from <= i < r.value ==>
              !Here(how, text, i)
      ensures r.None? ==> forall i :: from <= i < range ==> !Here(how, text, i)
    {
      var lens := seq(|text|, i => 1);
      match how {
        case SearchExact(str) =>
          if |str| >= 2 {
            r := BmSearch(str, skip, text, from, range);
          } else {
            r := SlowSearch(str, text, lens, from, range);
            FirstHeadSingle(str, text, lens, from, range);
          }
          FirstOccLeast(str, text, from, range);
        case SearchMap(bytes) =>
          r := MapSearch(bytes, text, lens, from, range);
          FirstInLeast(bytes, text, lens, from, range);
      }
    }
  }

  /** forward_search_range: the window of starts for the first place behind s. In single-byte text
      the place is never less than dmin behind s, so its retry gate is not taken. */
  method ForwardSearchRange(tables: Tables, info: Info, text: Text, s: nat, range: int)
    returns (window: Option<(int, int)>)
    requires tables.Valid() && tables.how == info.how && info.how != SearchNone && range <= |text|
    ensures window.None? ==> forall p :: s + info.dmin <= p < range ==> !Here(info.how, text, p)
    ensures window.Some? ==>
              var p := window.value.1 + info.dmin;
              && window.value.1 >= s && p < range && Here(info.how, text, p)
              && forall i :: s + info.dmin <= i < p ==> !Here(info.how, text, i)
    ensures window.Some? && info.dmax != INFINITE_DISTANCE ==> window.value.0 == window.value.1 + info.dmin - info.dmax
  {
    var p := tables.FindPlace(text, s + info.dmin, range);
    if p.None? { return None; }
    var low := if info.dmax == INFINITE_DISTANCE then s else p.value - info.dmax;
    window := Some((low, p.value - info.dmin));
  }

  // ----- hits -----

  /** match_at succeeds at s. */
  ghost predicate HitAt(n: Node, ml: bool, x: Subject, cfg: Cfg, opt: Options, s: nat)
    requires Formed(n) && s <= |x.text|
  {
    exists e :: e in Ends(n, ml, x, cfg, s) && (opt.findNotEmpty ==> e != s)
  }

  ghost predicate HitFree(n: Node, ml: bool, x: Subject, cfg: Cfg, opt: Options, lo: int, hi: int)
    requires Formed(n)
  {
    forall s: nat :: lo <= s < hi && s <= |x.text| ==> !HitAt(n, ml, x, cfg, opt, s)
  }

  /** What trying every position from start on gives. */
  ghost predicate Leftmost(n: Node, ml: bool, x: Subject, cfg: Cfg, opt: Options, start: nat, r: int)
    requires Formed(n)
  {
    if r == MISMATCH then HitFree(n, ml, x, cfg, opt, start, |x.text| + 1)
    else start <= r <= |x.text| && HitAt(n, ml, x, cfg, opt, r) && HitFree(n, ml, x, cfg, opt, start, r)
  }

  lemma {:induction false} OutcomeHit(ends: seq<nat>, s: nat, size: nat, opt: Options, b: Best)
    requires !opt.findLongest && b.len == MISMATCH && forall i :: 0 <= i < |ends| ==> ends[i] >= s
    ensures Outcome(ends, s, size, opt, b).len != MISMATCH <==> exists e :: e in ends && (opt.findNotEmpty ==> e != s)
    decreases |ends|
  {
    if ends != [] {
      if opt.findNotEmpty && ends[0] == s {
        OutcomeHit(ends[1..], s, size, opt, Improve(b, ends[0] - s, opt).(len := MISMATCH));
        var rest := ends[1..];
        forall e | e in ends && e != s ensures e in rest {}
        forall e | e in rest ensures e in ends {}
        if exists e :: e in ends && e != s {
          var e :| e in ends && e != s;
          assert e in rest && (opt.findNotEmpty ==> e != s);
        }
      } else {
        assert ends[0] in ends;
      }
    }
  }

  /** What the search relies on: a hit has the literal or byte, and behind a leading .* a hit is also one
      from any start that the dot reaches it from. */
  ghost predicate Trusted(n: Node, ml: bool, x: Subject, cfg: Cfg, opt: Options, info: Info)
    requires Formed(n)
  {
    && (forall s: nat :: s <= |x.text| && HitAt(n, ml, x, cfg, opt, s) ==> Necessary(info, x.text, s))
    && (info.star ==> GoesBack(n, ml, x, cfg, opt, false))
    && (info.starMl ==> GoesBack(n, ml, x, cfg, opt, true))
  }

  ghost predicate GoesBack(n: Node, ml: bool, x: Subject, cfg: Cfg, opt: Options, dotAll: bool)
    requires Formed(n)
  {
    forall s: nat, t: nat :: t <= |x.text| && DotReaches(dotAll, x, s, t) && HitAt(n, ml, x, cfg, opt, t) ==>
      HitAt(n, ml, x, cfg, opt, s)
  }

  lemma DependableTrails(n: Node, ml: bool)
    requires Dependable(n, ml)
    ensures Trailing(n)
    ensures InfoOf(n, ml).star || InfoOf(n, ml).starMl ==> Searchable(n) && Anchored(n, ml)
  {
    hide OptNode, Searchable, Trailing, NoDotStar, Anchored;
    if Searchable(n) { SearchableTrails(n); }
    if NoDotStar(n) { NoFlags(n, ZERO, ml); }
  }

  /** The analysis of optimize_node_left can be trusted. */
  lemma AnalysisTrusted(n: Node, ml: bool, x: Subject, cfg: Cfg, opt: Options)
    requires Formed(n) && Ready(n) && Dependable(n, ml) && |x.text| <= INT_MAX
    requires InfoOf(n, ml).how != SearchRefused
    ensures Trusted(n, ml, x, cfg, opt, InfoOf(n, ml))
  {
    hide Ends, InfoOf, Formed, Ready, Searchable, Trailing, Dependable, Anchored, Necessary;
    DependableTrails(n, ml);
    forall s: nat | s <= |x.text| && HitAt(n, ml, x, cfg, opt, s) ensures Necessary(InfoOf(n, ml), x.text, s) {
      InfoSound(n, ml, x, cfg, s);
    }
    if InfoOf(n, ml).star { FlagGoesBack(n, ml, x, cfg, opt, false); }
    if InfoOf(n, ml).starMl { FlagGoesBack(n, ml, x, cfg, opt, true); }
  }

  lemma FlagGoesBack(n: Node, ml: bool, x: Subject, cfg: Cfg, opt: Options, dotAll: bool)
    requires Formed(n) && Ready(n) && Searchable(n) && Anchored(n, ml) && |x.text| <= INT_MAX
    requires if dotAll then InfoOf(n, ml).starMl else InfoOf(n, ml).star
    ensures GoesBack(n, ml, x, cfg, opt, dotAll)
  {
    hide Ends, Formed, Ready, Searchable, OptNode, Honest;
    forall s: nat, t: nat | t <= |x.text| && DotReaches(dotAll, x, s, t) && HitAt(n, ml, x, cfg, opt, t)
      ensures HitAt(n, ml, x, cfg, opt, s)
    {
      var e :| e in Ends(n, ml, x, cfg, t) && (opt.findNotEmpty ==> e != t);
      StarBack(n, ZERO, dotAll, ml, x, cfg, s, t, e);
      EndsAfter(n, ZERO, ml, x, cfg, t, e);
    }
  }

  lemma HitNecessary(n: Node, ml: bool, x: Subject, cfg: Cfg, opt: Options, info: Info, s: nat)
    requires Formed(n) && Trusted(n, ml, x, cfg, opt, info) && s <= |x.text| && HitAt(n, ml, x, cfg, opt, s)
    ensures Necessary(info, x.text, s)
  {
  }

  /** No place in the window means no hit before its end. */
  lemma NoPlace(n: Node, ml: bool, x: Subject, cfg: Cfg, opt: Options, info: Info, s: int, s': int, bound: int)
    requires Formed(n) && Trusted(n, ml, x, cfg, opt, info) && |x.text| <= INT_MAX && InfoOk(info)
    requires info.how != SearchNone && s >= 0
    requires forall p :: s + info.dmin <= p < bound ==> !Here(info.how, x.text, p)
    requires bound >= |x.text| || (info.dmax != INFINITE_DISTANCE && s' + info.dmax <= bound)
    ensures HitFree(n, ml, x, cfg, opt, s, s')
  {
    hide HitAt, Trusted, Formed;
    forall i: nat | s <= i < s' && i <= |x.text| ensures !HitAt(n, ml, x, cfg, opt, i) {
      if HitAt(n, ml, x, cfg, opt, i) {
        HitNecessary(n, ml, x, cfg, opt, info, i);
      }
    }
  }

  /** match_at at one start. */
  method TryAt(m: Matcher, s: nat, opt: Options, ghost n: Node, ghost ml: bool) returns (hit: bool)
    requires Compiles(m, n, ml) && s <= |m.x.text| && !opt.findLongest
    modifies m
    ensures hit == HitAt(n, ml, m.x, m.cfg, opt, s)
  {
    hide *;
    CompilesAll(m, n, ml);
    var best, _ := MatchAt.MatchAt(m, s, opt, MISMATCH, n, ml);
    hit := best.len != MISMATCH;
    HitOutcome(n, ml, m.x, m.cfg, opt, s);
  }

  lemma CompilesAll(m: Matcher, n: Node, ml: bool)
    requires Compiles(m, n, ml)
    ensures Formed(n) && Ready(n) && Marked(n, false) && TextOk(m.x) && |m.x.text| <= INT_MAX
    ensures m.prog == ProgramOf(n, ml, m.cfg)
    ensures m.popLevel == PopLevelOf(|m.prog.ranges|, m.cfg.btMemStart, m.cfg.btMemEnd)
  {
    hide Formed, Ready, Marked, ProgramOf, PopLevelOf;
  }

  lemma HitOutcome(n: Node, ml: bool, x: Subject, cfg: Cfg, opt: Options, s: nat)
    requires Formed(n) && Ready(n) && s <= |x.text| <= INT_MAX && !opt.findLongest
    ensures HitAt(n, ml, x, cfg, opt, s) <==>
            Outcome(Ends(n, ml, x, cfg, s), s, |x.text|, opt, Best(MISMATCH, MISMATCH)).len != MISMATCH
  {
    MinLenSound(n, ml, x, cfg, s);
    hide Formed, Ready, Ends, Outcome, MinLen;
    OutcomeHit(Ends(n, ml, x, cfg, s), s, |x.text|, opt, Best(MISMATCH, MISMATCH));
  }

  /** The matcher runs the program of the tree. */
  ghost predicate Compiles(m: Matcher, n: Node, ml: bool) {
    && Formed(n) && Ready(n) && Marked(n, false) && TextOk(m.x)
    && m.prog == ProgramOf(n, ml, m.cfg) && m.popLevel == PopLevelOf(|m.prog.ranges|, m.cfg.btMemStart, m.cfg.btMemEnd)
  }

  lemma FreeOne(n: Node, ml: bool, x: Subject, cfg: Cfg, opt: Options, a: int, s: nat)
    requires Formed(n) && s <= |x.text| && HitFree(n, ml, x, cfg, opt, a, s) && !HitAt(n, ml, x, cfg, opt, s)
    ensures HitFree(n, ml, x, cfg, opt, a, s + 1)
  {
  }

  /** Behind a leading .* a miss at s is a miss wherever the dot reaches. */
  lemma MissReaches(n: Node, ml: bool, x: Subject, cfg: Cfg, opt: Options, info: Info, dotAll: bool, s: nat, t: nat)
    requires Formed(n) && Trusted(n, ml, x, cfg, opt, info) && t <= |x.text| && DotReaches(dotAll, x, s, t)
    requires if dotAll then info.starMl else info.star
    requires !HitAt(n, ml, x, cfg, opt, s)
    ensures !HitAt(n, ml, x, cfg, opt, t)
  {
    hide HitAt, Necessary, Formed;
  }

  /** Trying every start in [s, range], the way a search without information goes. */
  method TryAll(m: Matcher, s: nat, range: nat, opt: Options, ghost n: Node, ghost ml: bool) returns (r: int)
    requires Compiles(m, n, ml) && s < range <= |m.x.text| && !opt.findLongest
    modifies m
    ensures if r == MISMATCH then HitFree(n, ml, m.x, m.cfg, opt, s, range + 1)
            else s <= r <= range && HitAt(n, ml, m.x, m.cfg, opt, r) && HitFree(n, ml, m.x, m.cfg, opt, s, r)
  {
    hide Compiles, HitAt, HitFree;
    assert Formed(n) by { CompilesFormed(m, n, ml); }
    var t := s;
    FreeNone(n, ml, m.x, m.cfg, opt, s);
    while t <= range
      invariant s <= t <= range + 1 && HitFree(n, ml, m.x, m.cfg, opt, s, t)
    {
      var hit := TryAt(m, t, opt, n, ml);
      if hit { return t; }
      FreeOne(n, ml, m.x, m.cfg, opt, s, t);
      t := t + 1;
    }
    r := MISMATCH;
  }

  lemma CompilesFormed(m: Matcher, n: Node, ml: bool)
    requires Compiles(m, n, ml)
    ensures Formed(n) && |m.x.text| <= INT_MAX
  {
  }

  lemma FreeNone(n: Node, ml: bool, x: Subject, cfg: Cfg, opt: Options, s: int)
    requires Formed(n)
    ensures HitFree(n, ml, x, cfg, opt, s, s)
  {
  }

  /** Before the window of the first place there is no hit. */
  lemma WindowSafe(n: Node, ml: bool, x: Subject, cfg: Cfg, opt: Options, info: Info, s: nat, low: int, p: int)
    requires Formed(n) && Trusted(n, ml, x, cfg, opt, info) && |x.text| <= INT_MAX && InfoOk(info)
    requires info.how != SearchNone && info.dmax != INFINITE_DISTANCE && low == p - info.dmax
    requires forall i :: s + info.dmin <= i < p ==> !Here(info.how, x.text, i)
    ensures HitFree(n, ml, x, cfg, opt, s, low)
  {
    NoPlace(n, ml, x, cfg, opt, info, s, low, p);
  }

  // ----- which starts a search tries -----

  /** range, as the anchors leave it. */
  function RangeOf(info: Info, start: nat, end: nat): nat { if info.starMl then start + 1 else end }

  /** A place of the literal or of a mapped byte from lo on. */
  ghost predicate SomePlace(info: Info, text: Text, lo: int) { exists p :: lo <= p < |text| && Here(info.how, text, p) }

  /** p is the first place behind start, within the distances. */
  ghost predicate NearPlace(info: Info, text: Text, start: nat, p: int) {
    && start + info.dmin <= p <= start + info.dmax && Here(info.how, text, p)
    && forall i :: start + info.dmin <= i < p ==> !Here(info.how, text, i)
  }

  predicate LineStart(text: Text, start: nat, t: nat)
    requires t <= |text|
  {
    t == start || (t > start && text[t - 1] == NEWLINE)
  }

  /** A forward search from start to the end of the text calls match_at at t, if nothing has hit before. */
  ghost predicate Tried(info: Info, text: Text, start: nat, t: nat) {
    && start <= t <= |text|
    && if info.how == SearchNone then t <= RangeOf(info, start, |text|)
       else if info.dmax != INFINITE_DISTANCE then
         if info.starMl then exists p :: NearPlace(info, text, start, p) && t <= p - info.dmin
         else Necessary(info, text, t)
       else
         && SomePlace(info, text, start + info.dmin)
         && if info.star then t < RangeOf(info, start, |text|) && LineStart(text, start, t)
            else t <= RangeOf(info, start, |text|)
  }

  /** None of the starts tried between lo and hi hits. */
  ghost predicate Missed(n: Node, ml: bool, x: Subject, cfg: Cfg, opt: Options, info: Info, start: nat, lo: int,
                         hi: int)
    requires Formed(n)
  {
    forall t: nat :: lo <= t < hi && t <= |x.text| && Tried(info, x.text, start, t) ==> !HitAt(n, ml, x, cfg, opt, t)
  }

  /** The first of the starts tried that hits. */
  ghost predicate FirstTried(n: Node, ml: bool, x: Subject, cfg: Cfg, opt: Options, info: Info, start: nat, r: int)
    requires Formed(n)
  {
    if r == MISMATCH then Missed(n, ml, x, cfg, opt, info, start, start, |x.text| + 1)
    else
      && start <= r <= |x.text| && Tried(info, x.text, start, r) && HitAt(n, ml, x, cfg, opt, r)
      && Missed(n, ml, x, cfg, opt, info, start, start, r)
  }

  /** With bounded distances, a start that is tried has a place within them. */
  lemma TriedPlace(info: Info, text: Text, start: nat, t: nat)
    requires Tried(info, text, start, t) && info.dmax != INFINITE_DISTANCE
    ensures Necessary(info, text, t)
  {
    hide Here;
    if info.how != SearchNone && info.starMl {
      var p :| NearPlace(info, text, start, p) && t <= p - info.dmin;
      assert NecessaryAt(info, text, t, p);
    }
  }

  lemma TriedHit(n: Node, ml: bool, x: Subject, cfg: Cfg, opt: Options, info: Info, start: nat, r: int)
    requires Formed(n) && FirstTried(n, ml, x, cfg, opt, info, start, r) && r != MISMATCH
    ensures start <= r <= |x.text| && HitAt(n, ml, x, cfg, opt, r) && Tried(info, x.text, start, r)
  {
    hide HitAt, Formed, Tried, Missed;
  }

  lemma MissedJoin(n: Node, ml: bool, x: Subject, cfg: Cfg, opt: Options, info: Info, start: nat, a: int, b: int,
                   c: int)
    requires Formed(n) && Missed(n, ml, x, cfg, opt, info, start, a, b) && Missed(n, ml, x, cfg, opt, info, start, b, c)
    ensures Missed(n, ml, x, cfg, opt, info, start, a, c)
  {
    hide HitAt, Formed, Tried;
  }

  lemma FirstIs(n: Node, ml: bool, x: Subject, cfg: Cfg, opt: Options, info: Info, start: nat, r: int)
    requires Formed(n)
    requires if r == MISMATCH then Missed(n, ml, x, cfg, opt, info, start, start, |x.text| + 1)
             else start <= r <= |x.text| && Tried(info, x.text, start, r) && HitAt(n, ml, x, cfg, opt, r)
                  && Missed(n, ml, x, cfg, opt, info, start, start, r)
    ensures FirstTried(n, ml, x, cfg, opt, info, start, r)
  {
    hide HitAt, Formed, Tried, Missed;
  }

  // ----- the windows -----

  /** A start inside a window has the place of the window within its distances. */
  lemma InWindow(info: Info, text: Text, s: nat, p: int)
    requires Here(info.how, text, p) && s + info.dmin <= p <= s + info.dmax
    ensures Necessary(info, text, s)
  {
    assert NecessaryAt(info, text, s, p);
  }

  /** The window that forward_search_range returned: p is the first place behind s. */
  ghost predicate Window(info: Info, text: Text, s: nat, low: int, high: int) {
    && low == high + info.dmin - info.dmax && high >= s && high + info.dmin < |text|
    && Here(info.how, text, high + info.dmin)
    && forall i :: s + info.dmin <= i < high + info.dmin ==> !Here(info.how, text, i)
  }

  function SchRange(info: Info, range: nat, end: nat): nat {
    if info.dmax == 0 then range else if info.dmax == INFINITE_DISTANCE || range + info.dmax > end then end
    else range + info.dmax
  }

  predicate HasLimits(info: Info) { info.how != SearchNone && info.dmax != INFINITE_DISTANCE }

  /** In front of the window no start is tried, and inside it all are. */
  lemma WindowTried(info: Info, text: Text, start: nat, s: nat, low: int, high: int, t: nat)
    requires HasLimits(info) && start <= s && Window(info, text, s, low, high)
    requires s < RangeOf(info, start, |text|) && high + info.dmin < SchRange(info, RangeOf(info, start, |text|), |text|)
    requires s <= t <= high
    ensures Tried(info, text, start, t) <==> t >= low
  {
    var p := high + info.dmin;
    if t >= low {
      InWindow(info, text, t, p);
      if info.starMl { assert NearPlace(info, text, start, p); }
    }
  }

  /** Behind the window of a search that looks at one start only nothing is tried. */
  lemma WindowOnly(info: Info, text: Text, start: nat, low: int, high: int, t: nat)
    requires HasLimits(info) && info.starMl && Window(info, text, start, low, high) && t > high
    ensures !Tried(info, text, start, t)
  {
    hide Here;
  }

  /** Without a place nothing more is tried. */
  lemma NoWindow(info: Info, text: Text, start: nat, s: nat, t: nat)
    requires HasLimits(info) && InfoOk(info) && start <= s && s < RangeOf(info, start, |text|) && s <= t
    requires forall p :: s + info.dmin <= p < SchRange(info, RangeOf(info, start, |text|), |text|) ==>
               !Here(info.how, text, p)
    ensures !Tried(info, text, start, t)
  {
    if !info.starMl && Tried(info, text, start, t) {
      var q: int :| NecessaryAt(info, text, t, q);
      PlaceInside(info, text, q);
    }
  }

  lemma PlaceInside(info: Info, text: Text, p: int)
    requires InfoOk(info) && info.how != SearchNone && Here(info.how, text, p)
    ensures 0 <= p < |text|
  {
  }

  /** Behind the text nothing is tried. */
  lemma NoneBehind(info: Info, text: Text, start: nat, t: nat)
    requires HasLimits(info) && InfoOk(info) && t >= |text| && start < |text| && |text| <= INT_MAX
    ensures !info.starMl ==> !Tried(info, text, start, t)
  {
    if !info.starMl && Tried(info, text, start, t) { NecessaryRoom(info, text, t); }
  }

  /** The starts of one window. */
  method TryWindow(m: Matcher, from: nat, high: int, opt: Options, ghost n: Node, ghost ml: bool)
    returns (hit: bool, s: nat)
    requires Compiles(m, n, ml) && high <= |m.x.text| && !opt.findLongest
    modifies m
    ensures from <= s && HitFree(n, ml, m.x, m.cfg, opt, from, s)
    ensures if hit then s <= high && HitAt(n, ml, m.x, m.cfg, opt, s) else s > high && (from <= high ==> s == high + 1)
  {
    ghost var x, cfg := m.x, m.cfg;
    CompilesFormed(m, n, ml);
    hide Compiles, HitAt, HitFree, Formed;
    s := from;
    FreeNone(n, ml, x, cfg, opt, from);
    while s <= high
      invariant from <= s && HitFree(n, ml, x, cfg, opt, from, s) && (from <= high ==> s <= high + 1)
      decreases high - s
    {
      hit := TryAt(m, s, opt, n, ml);
      if hit { return; }
      FreeOne(n, ml, x, cfg, opt, from, s);
      s := s + 1;
    }
    hit := false;
  }

  /** A window without a hit. */
  lemma WindowMissed(n: Node, ml: bool, x: Subject, cfg: Cfg, opt: Options, info: Info, start: nat, s: nat, low: int,
                     high: int, s': nat)
    requires Formed(n) && HasLimits(info) && start <= s && Window(info, x.text, s, low, high)
    requires s < RangeOf(info, start, |x.text|)
             && high + info.dmin < SchRange(info, RangeOf(info, start, |x.text|), |x.text|)
    requires (s' <= high + 1 || low > high) && HitFree(n, ml, x, cfg, opt, if s < low then low else s, s')
    ensures Missed(n, ml, x, cfg, opt, info, start, s, s')
  {
    hide HitAt, Formed, Tried;
    forall t: nat | s <= t < s' && t <= |x.text| && Tried(info, x.text, start, t)
      ensures !HitAt(n, ml, x, cfg, opt, t)
    {
      if low > high {
        NoDistance(info, x.text, start, t);
      } else {
        WindowTried(info, x.text, start, s, low, high, t);
      }
    }
  }

  /** No place is within distances that exclude each other. */
  lemma NoDistance(info: Info, text: Text, start: nat, t: nat)
    requires HasLimits(info) && info.dmin > info.dmax
    ensures !Tried(info, text, start, t)
  {
    hide Here;
  }

  /** The windows one after the other, for a bounded distance. */
  method TryWindows(m: Matcher, tables: Tables, info: Info, start: nat, range: nat, schRange: nat, opt: Options,
                    ghost n: Node, ghost ml: bool) returns (r: int)
    requires Compiles(m, n, ml) && start < range <= |m.x.text| && !opt.findLongest
    requires tables.Valid() && tables.how == info.how && HasLimits(info) && InfoOk(info)
    requires range == RangeOf(info, start, |m.x.text|) && schRange == SchRange(info, range, |m.x.text|) <= |m.x.text|
    modifies m
    ensures FirstTried(n, ml, m.x, m.cfg, opt, info, start, r)
  {
    ghost var x, cfg := m.x, m.cfg;
    CompilesFormed(m, n, ml);
    hide *;
    LimitsIs(info);
    var s := start;
    MissedSelf(n, ml, x, cfg, opt, info, start);
    while s < range
      invariant start <= s && Missed(n, ml, x, cfg, opt, info, start, start, s)
      invariant s > start ==> info.starMl ==> forall t: nat :: t >= s ==> !Tried(info, x.text, start, t)
      decreases range - s
    {
      var window := ForwardSearchRange(tables, info, m.x.text, s, schRange);
      if window.None? {
        forall t: nat | s <= t ensures !Tried(info, x.text, start, t) { NoWindow(info, x.text, start, s, t); }
        EndMissed(n, ml, x, cfg, opt, info, start, s);
        return MISMATCH;
      }
      var (low, high) := window.value;
      WindowIs(info, x.text, s, low, high);
      var hit, s' := TryWindow(m, if s < low then low else s, high, opt, n, ml);
      LowInside(info, x.text, s, low, high);
      if hit {
        WindowMissed(n, ml, x, cfg, opt, info, start, s, low, high, s');
        WindowTried(info, x.text, start, s, low, high, s');
        MissedJoin(n, ml, x, cfg, opt, info, start, start, s, s');
        FirstIs(n, ml, x, cfg, opt, info, start, s');
        return s';
      }
      EmptyWindow(s, low, high, s');
      WindowMissed(n, ml, x, cfg, opt, info, start, s, low, high, s');
      MissedJoin(n, ml, x, cfg, opt, info, start, start, s, s');
      OneWindow(info, start, range, |x.text|, s);
      if info.starMl {
        forall t: nat | t >= s' ensures !Tried(info, x.text, start, t) {
          WindowOnly(info, x.text, start, low, high, t);
        }
      }
      s := s';
    }
    RangeEnd(info, start, range, |x.text|, s);
    if !info.starMl {
      forall t: nat | s <= t ensures !Tried(info, x.text, start, t) { NoneBehind(info, x.text, start, t); }
    }
    EndMissed(n, ml, x, cfg, opt, info, start, s);
    r := MISMATCH;
  }

  lemma EmptyWindow(s: nat, low: int, high: int, s': nat)
    requires s <= high && ((if s < low then low else s) <= high ==> s' == high + 1)
    ensures s' <= high + 1 || low > high
  {
  }

  lemma LimitsIs(info: Info)
    requires HasLimits(info)
    ensures info.how != SearchNone && info.dmax != INFINITE_DISTANCE
  {
  }

  lemma MissedSelf(n: Node, ml: bool, x: Subject, cfg: Cfg, opt: Options, info: Info, start: nat)
    requires Formed(n)
    ensures Missed(n, ml, x, cfg, opt, info, start, start, start)
  {
  }

  lemma WindowIs(info: Info, text: Text, s: nat, low: int, high: int)
    requires high >= s && high + info.dmin < |text| && Here(info.how, text, high + info.dmin)
    requires low == high + info.dmin - info.dmax
    requires forall i :: s + info.dmin <= i < high + info.dmin ==> !Here(info.how, text, i)
    ensures Window(info, text, s, low, high)
  {
    hide Here;
  }

  lemma LowInside(info: Info, text: Text, s: nat, low: int, high: int)
    requires Window(info, text, s, low, high)
    ensures s <= high
  {
    hide Here;
  }

  lemma OneWindow(info: Info, start: nat, range: nat, end: nat, s: nat)
    requires range == RangeOf(info, start, end) && start <= s < range
    ensures info.starMl ==> s == start
  {
  }

  lemma RangeEnd(info: Info, start: nat, range: nat, end: nat, s: nat)
    requires range == RangeOf(info, start, end) && s >= range > start
    ensures (info.starMl ==> s > start) && (!info.starMl ==> s >= end)
  {
  }

  lemma EndMissed(n: Node, ml: bool, x: Subject, cfg: Cfg, opt: Options, info: Info, start: nat, s: nat)
    requires Formed(n) && start <= s && Missed(n, ml, x, cfg, opt, info, start, start, s)
    requires forall t: nat :: s <= t ==> !Tried(info, x.text, start, t)
    ensures FirstTried(n, ml, x, cfg, opt, info, start, MISMATCH)
  {
    hide HitAt, Formed, Tried;
  }

  // ----- an unbounded distance -----

  /** One try on every line: behind a miss the rest of the line is passed over. */
  method TryLines(m: Matcher, info: Info, start: nat, range: nat, opt: Options, ghost n: Node, ghost ml: bool)
    returns (r: int)
    requires Compiles(m, n, ml) && start < range <= |m.x.text| && !opt.findLongest && info.star
    requires range == RangeOf(info, start, |m.x.text|) && NoLimits(info, m.x.text, start)
    modifies m
    ensures FirstTried(n, ml, m.x, m.cfg, opt, info, start, r)
  {
    ghost var x, cfg := m.x, m.cfg;
    CompilesFormed(m, n, ml);
    hide *;
    forall t: nat ensures Tried(info, x.text, start, t) <==>
        start <= t <= |x.text| && t < range && LineStart(x.text, start, t)
    {
      LinesTried(info, x.text, start, t);
    }
    var s := start;
    MissedSelf(n, ml, x, cfg, opt, info, start);
    while s < range
      invariant start <= s <= range && Missed(n, ml, x, cfg, opt, info, start, start, s)
      invariant s < range ==> Tried(info, x.text, start, s)
      decreases range - s
    {
      var hit := TryAt(m, s, opt, n, ml);
      if hit {
        FirstIs(n, ml, x, cfg, opt, info, start, s);
        return s;
      }
      var s' := SkipLine(info, m.x.text, start, s, range);
      LineMissed(n, ml, x, cfg, opt, info, start, s, s');
      s := s';
    }
    EndMissed(n, ml, x, cfg, opt, info, start, s);
    r := MISMATCH;
  }

  /** The distance is unbounded, and a place is at hand. */
  ghost predicate NoLimits(info: Info, text: Text, start: nat) {
    info.how != SearchNone && info.dmax == INFINITE_DISTANCE && SomePlace(info, text, start + info.dmin)
  }

  lemma LinesTried(info: Info, text: Text, start: nat, t: nat)
    requires NoLimits(info, text, start) && info.star
    ensures Tried(info, text, start, t) <==>
            start <= t <= |text| && t < RangeOf(info, start, |text|) && LineStart(text, start, t)
  {
    hide Here;
  }

  lemma LineMissed(n: Node, ml: bool, x: Subject, cfg: Cfg, opt: Options, info: Info, start: nat, s: nat, s': nat)
    requires Formed(n) && start <= s < s' && Missed(n, ml, x, cfg, opt, info, start, start, s)
    requires s <= |x.text| && !HitAt(n, ml, x, cfg, opt, s)
    requires forall t: nat :: s < t < s' ==> !Tried(info, x.text, start, t)
    ensures Missed(n, ml, x, cfg, opt, info, start, start, s')
  {
    hide HitAt, Formed, Tried;
  }

  /** To the start of the next line, or to the end of the range. */
  method SkipLine(ghost info: Info, text: Text, ghost start: nat, from: nat, range: nat) returns (s: nat)
    requires start <= from < range <= |text| && range == RangeOf(info, start, |text|)
    requires forall t: nat :: Tried(info, text, start, t) <==>
               start <= t <= |text| && t < range && LineStart(text, start, t)
    ensures from < s <= range && (s < range ==> Tried(info, text, start, s))
    ensures forall t: nat :: from < t < s ==> !Tried(info, text, start, t)
  {
    hide Tried;
    s := from + 1;
    while text[s - 1] != NEWLINE && s < range
      invariant from < s <= range && forall t: nat :: from < t < s ==> !LineStart(text, start, t)
      decreases range - s
    {
      s := s + 1;
    }
  }

  /** With an unbounded distance there is no window, but a place must be there at all. */
  method CheckOnly(tables: Tables, info: Info, text: Text, start: nat) returns (some: bool)
    requires start < |text|
    requires tables.Valid() && tables.how == info.how && InfoOk(info) && info.how != SearchNone
    ensures some <==> SomePlace(info, text, start + info.dmin)
  {
    var window := ForwardSearchRange(tables, info, text, start, |text|);
    some := window.Some?;
    if some { assert Here(info.how, text, window.value.1 + info.dmin); }
  }

  lemma NoRoomTried(info: Info, text: Text, start: nat, t: nat)
    requires InfoOk(info) && info.how != SearchNone && start < |text| <= INT_MAX && |text| - start < info.threshold
    ensures !Tried(info, text, start, t)
  {
    if Tried(info, text, start, t) {
      if info.dmax != INFINITE_DISTANCE && !info.starMl { NecessaryRoom(info, text, t); }
    }
  }

  lemma NoPlaceTried(info: Info, text: Text, start: nat, t: nat)
    requires info.how != SearchNone && info.dmax == INFINITE_DISTANCE && !SomePlace(info, text, start + info.dmin)
    ensures !Tried(info, text, start, t)
  {
    hide SomePlace, Here;
  }

  /** The part of a forward search that uses the information. done: it has decided the search. */
  method SearchInformed(m: Matcher, tables: Tables, info: Info, start: nat, range: nat, opt: Options, ghost n: Node,
                        ghost ml: bool) returns (done: bool, r: int)
    requires Compiles(m, n, ml) && start < range <= |m.x.text| && !opt.findLongest
    requires tables.Valid() && tables.how == info.how && InfoOk(info) && info.how != SearchNone
    requires range == RangeOf(info, start, |m.x.text|)
    modifies m
    ensures done ==> FirstTried(n, ml, m.x, m.cfg, opt, info, start, r)
    ensures !done ==> !info.star && NoLimits(info, m.x.text, start)
  {
    hide *;
    ghost var x, cfg := m.x, m.cfg;
    var end := |m.x.text|;
    CompilesFormed(m, n, ml);
    MissedSelf(n, ml, x, cfg, opt, info, start);
    var schRange := if info.dmax == 0 then range
                    else if info.dmax == INFINITE_DISTANCE || range + info.dmax > end then end
                    else range + info.dmax;
    SchIs(info, range, end);
    if end - start < info.threshold {
      forall t: nat | start <= t ensures !Tried(info, x.text, start, t) { NoRoomTried(info, x.text, start, t); }
      EndMissed(n, ml, x, cfg, opt, info, start, start);
      return true, MISMATCH;
    }
    if info.dmax != INFINITE_DISTANCE {
      AreLimits(info);
      r := TryWindows(m, tables, info, start, range, schRange, opt, n, ml);
      return true, r;
    }
    var some := CheckOnly(tables, info, m.x.text, start);
    if !some {
      forall t: nat | start <= t ensures !Tried(info, x.text, start, t) { NoPlaceTried(info, x.text, start, t); }
      EndMissed(n, ml, x, cfg, opt, info, start, start);
      return true, MISMATCH;
    }
    done, r := info.star, MISMATCH;
    AreNone(info, x.text, start);
    if info.star { r := TryLines(m, info, start, range, opt, n, ml); }
  }

  lemma SchIs(info: Info, range: nat, end: nat)
    requires range <= end
    ensures SchRange(info, range, end) <= end && SchRange(info, range, end) ==
            if info.dmax == 0 then range else if info.dmax == INFINITE_DISTANCE || range + info.dmax > end then end
            else range + info.dmax
  {
  }

  lemma AreLimits(info: Info)
    requires info.how != SearchNone && info.dmax != INFINITE_DISTANCE
    ensures HasLimits(info)
  {
  }

  lemma AreNone(info: Info, text: Text, start: nat)
    requires info.how != SearchNone && info.dmax == INFINITE_DISTANCE && SomePlace(info, text, start + info.dmin)
    ensures NoLimits(info, text, start)
  {
  }

  // ----- the driver -----

  /** The forward part of onig_search, up to the end of the text. */
  method SearchForward(m: Matcher, tables: Tables, info: Info, start: nat, opt: Options, ghost n: Node,
                       ghost ml: bool) returns (r: int)
    requires Compiles(m, n, ml) && start < |m.x.text| && !opt.findLongest
    requires tables.Valid() && tables.how == info.how && InfoOk(info)
    modifies m
    ensures FirstTried(n, ml, m.x, m.cfg, opt, info, start, r)
  {
    hide *;
    ghost var x, cfg := m.x, m.cfg;
    var end := |m.x.text|;
    CompilesFormed(m, n, ml);
    var range := if info.starMl then start + 1 else end;
    RangeIs(info, start, end);
    if info.how != SearchNone {
      var done: bool;
      done, r := SearchInformed(m, tables, info, start, range, opt, n, ml);
      if done { return; }
    }
    forall t: nat ensures Tried(info, x.text, start, t) <==> start <= t <= |x.text| && t <= range {
      AllTried(info, x.text, start, t);
    }
    r := TryAll(m, start, range, opt, n, ml);
    AllMissed(n, ml, x, cfg, opt, info, start, range, r);
  }

  lemma RangeIs(info: Info, start: nat, end: nat)
    requires start < end
    ensures RangeOf(info, start, end) == (if info.starMl then start + 1 else end) <= end
  {
  }

  lemma AllTried(info: Info, text: Text, start: nat, t: nat)
    requires info.how == SearchNone || (!info.star && NoLimits(info, text, start))
    ensures Tried(info, text, start, t) <==> start <= t <= |text| && t <= RangeOf(info, start, |text|)
  {
    hide Here, Necessary, NearPlace;
  }

  lemma AllMissed(n: Node, ml: bool, x: Subject, cfg: Cfg, opt: Options, info: Info, start: nat, range: nat, r: int)
    requires Formed(n) && start < range <= |x.text|
    requires forall t: nat :: Tried(info, x.text, start, t) <==> start <= t <= |x.text| && t <= range
    requires if r == MISMATCH then HitFree(n, ml, x, cfg, opt, start, range + 1)
             else start <= r <= range && HitAt(n, ml, x, cfg, opt, r) && HitFree(n, ml, x, cfg, opt, start, r)
    ensures FirstTried(n, ml, x, cfg, opt, info, start, r)
  {
    hide HitAt, Formed, Tried;
  }

  /** onig_search with range at the end of the text: whatever the information, the first of the starts tried that
      hits. */
  method OnigSearch(m: Matcher, tables: Tables, info: Info, start: nat, opt: Options, ghost n: Node,
                    ghost ml: bool) returns (r: int)
    requires Compiles(m, n, ml) && !opt.findLongest
    requires tables.Valid() && tables.how == info.how && InfoOk(info)
    modifies m
    ensures FirstTried(n, ml, m.x, m.cfg, opt, info, start, r)
  {
    hide *;
    ghost var x, cfg := m.x, m.cfg;
    var end := |m.x.text|;
    CompilesFormed(m, n, ml);
    MissedSelf(n, ml, x, cfg, opt, info, start);
    if start > end {
      forall t: nat | start <= t ensures !Tried(info, x.text, start, t) { PastTried(info, x.text, start, t); }
      EndMissed(n, ml, x, cfg, opt, info, start, start);
      return MISMATCH;
    }
    if start < end {
      r := SearchForward(m, tables, info, start, opt, n, ml);
    } else {
      if info.how != SearchNone {
        forall t: nat | start <= t ensures !Tried(info, x.text, start, t) { PastTried(info, x.text, start, t); }
        EndMissed(n, ml, x, cfg, opt, info, start, start);
        return MISMATCH;
      }
      var hit := TryAt(m, start, opt, n, ml);
      r := if hit then start else MISMATCH;
      OnlyTried(n, ml, x, cfg, opt, info, start, r);
    }
  }

  lemma PastTried(info: Info, text: Text, start: nat, t: nat)
    requires start > |text| || (start == |text| && info.how != SearchNone && InfoOk(info) && |text| <= INT_MAX)
    ensures !Tried(info, text, start, t)
  {
    if Tried(info, text, start, t) {
      if info.dmax != INFINITE_DISTANCE && !info.starMl { NecessaryRoom(info, text, t); }
    }
  }

  lemma OnlyTried(n: Node, ml: bool, x: Subject, cfg: Cfg, opt: Options, info: Info, start: nat, r: int)
    requires Formed(n) && start == |x.text| && info.how == SearchNone
    requires r == if HitAt(n, ml, x, cfg, opt, start) then start as int else MISMATCH
    ensures FirstTried(n, ml, x, cfg, opt, info, start, r)
  {
    hide HitAt, Formed;
  }

  // ----- where the information can be trusted -----

  /** A start that is not tried does not hit, unless one that is tried hits before. */
  lemma UntriedMisses(n: Node, ml: bool, x: Subject, cfg: Cfg, opt: Options, info: Info, start: nat, t: nat)
    requires Formed(n) && Trusted(n, ml, x, cfg, opt, info) && InfoOk(info) && start <= t <= |x.text| <= INT_MAX
    requires Missed(n, ml, x, cfg, opt, info, start, start, t + 1)
    ensures !HitAt(n, ml, x, cfg, opt, t)
  {
    hide HitAt, Formed, Trusted, Tried, Missed;
    if HitAt(n, ml, x, cfg, opt, t) {
      HitNecessary(n, ml, x, cfg, opt, info, t);
      if info.starMl {
        MissReachesBack(n, ml, x, cfg, opt, info, start, t);
        HitNecessary(n, ml, x, cfg, opt, info, start);
        StartTried(info, x.text, start);
        MissedAt(n, ml, x, cfg, opt, info, start, start, t + 1, start);
      } else if info.how != SearchNone && info.dmax == INFINITE_DISTANCE && info.star {
        LineHit(n, ml, x, cfg, opt, info, start, t);
      } else {
        NecessaryTried(info, x.text, start, t);
        MissedAt(n, ml, x, cfg, opt, info, start, start, t + 1, t);
      }
    }
  }

  lemma MissedAt(n: Node, ml: bool, x: Subject, cfg: Cfg, opt: Options, info: Info, start: nat, lo: int, hi: int,
                 t: nat)
    requires Formed(n) && Missed(n, ml, x, cfg, opt, info, start, lo, hi) && lo <= t < hi && t <= |x.text|
    requires Tried(info, x.text, start, t)
    ensures !HitAt(n, ml, x, cfg, opt, t)
  {
    hide HitAt, Formed, Tried;
  }

  lemma MissReachesBack(n: Node, ml: bool, x: Subject, cfg: Cfg, opt: Options, info: Info, s: nat, t: nat)
    requires Formed(n) && Trusted(n, ml, x, cfg, opt, info) && s <= t <= |x.text| && info.starMl
    requires HitAt(n, ml, x, cfg, opt, t)
    ensures HitAt(n, ml, x, cfg, opt, s)
  {
    hide HitAt, Trusted, Formed;
    if !HitAt(n, ml, x, cfg, opt, s) { MissReaches(n, ml, x, cfg, opt, info, true, s, t); }
  }

  /** The start itself is tried if it has what every hit needs. */
  lemma StartTried(info: Info, text: Text, start: nat)
    requires InfoOk(info) && start <= |text| <= INT_MAX && Necessary(info, text, start)
    ensures Tried(info, text, start, start)
  {
    hide Here;
    if info.how != SearchNone {
      NecessaryRoom(info, text, start);
      var p: int :| NecessaryAt(info, text, start, p);
      if info.dmax == INFINITE_DISTANCE {
        PlaceInside(info, text, p);
        assert Here(info.how, text, p);
      } else if info.starMl {
        var q := FirstPlace(info, text, start, p);
      }
    }
  }

  /** Of the places from start on there is a first one. */
  lemma {:induction false} FirstPlace(info: Info, text: Text, start: nat, p: int) returns (q: int)
    requires start + info.dmin <= p <= start + info.dmax && Here(info.how, text, p)
    ensures NearPlace(info, text, start, q)
    decreases p
  {
    hide Here;
    if i :| start + info.dmin <= i < p && Here(info.how, text, i) {
      q := FirstPlace(info, text, start, i);
    } else {
      q := p;
    }
  }

  /** Without the anchors every start that has what a hit needs is tried. */
  lemma NecessaryTried(info: Info, text: Text, start: nat, t: nat)
    requires InfoOk(info) && start <= t <= |text| <= INT_MAX && Necessary(info, text, t) && !info.starMl
    requires info.how == SearchNone || info.dmax != INFINITE_DISTANCE || !info.star
    ensures Tried(info, text, start, t)
  {
    hide Here;
    if info.how != SearchNone && info.dmax == INFINITE_DISTANCE {
      var p: int :| NecessaryAt(info, text, t, p);
      PlaceInside(info, text, p);
      assert Here(info.how, text, p);
    }
  }

  /** Behind a leading .* the start of the line would have hit too. */
  lemma LineHit(n: Node, ml: bool, x: Subject, cfg: Cfg, opt: Options, info: Info, start: nat, t: nat)
    requires Formed(n) && Trusted(n, ml, x, cfg, opt, info) && InfoOk(info) && start <= t <= |x.text| <= INT_MAX
    requires info.how != SearchNone && info.dmax == INFINITE_DISTANCE && info.star && !info.starMl
    requires HitAt(n, ml, x, cfg, opt, t) && Necessary(info, x.text, t)
    ensures !Missed(n, ml, x, cfg, opt, info, start, start, t + 1)
  {
    hide HitAt, Formed, Trusted, Here;
    var s := LineOf(x, start, t);
    if !HitAt(n, ml, x, cfg, opt, s) { MissReaches(n, ml, x, cfg, opt, info, false, s, t); }
    NecessaryRoom(info, x.text, t);
    var p: int :| NecessaryAt(info, x.text, t, p);
    PlaceInside(info, x.text, p);
    assert Here(info.how, x.text, p);
    assert Tried(info, x.text, start, s);
  }

  /** The beginning of the line t lies on, if that is not in front of start. */
  lemma {:induction false} LineOf(x: Subject, start: nat, t: nat) returns (s: nat)
    requires start <= t <= |x.text|
    ensures start <= s <= t && LineStart(x.text, start, s) && Clear(x, s, t)
    decreases t
  {
    if LineStart(x.text, start, t) { s := t; } else { s := LineOf(x, start, t - 1); }
  }

  /** So the first start tried that hits is the first that hits. */
  lemma TrustedLeftmost(n: Node, ml: bool, x: Subject, cfg: Cfg, opt: Options, info: Info, start: nat, r: int)
    requires Formed(n) && Trusted(n, ml, x, cfg, opt, info) && InfoOk(info) && |x.text| <= INT_MAX
    requires FirstTried(n, ml, x, cfg, opt, info, start, r)
    ensures Leftmost(n, ml, x, cfg, opt, start, r)
  {
    hide HitAt, Formed, Trusted, InfoOk;
    forall t: nat | start <= t <= |x.text| && (r == MISMATCH || t < r) ensures !HitAt(n, ml, x, cfg, opt, t) {
      assert Missed(n, ml, x, cfg, opt, info, start, start, t + 1);
      hide Tried, Missed;
      UntriedMisses(n, ml, x, cfg, opt, info, start, t);
    }
  }

  /** A literal or a mapped byte does not fit in what is left. */
  lemma NoRoom(n: Node, ml: bool, x: Subject, cfg: Cfg, opt: Options, info: Info, s: nat)
    requires Formed(n) && Trusted(n, ml, x, cfg, opt, info) && |x.text| <= INT_MAX && InfoOk(info)
    requires info.how != SearchNone
    requires |x.text| - s < info.threshold || s >= |x.text| || info.dmin == INFINITE_DISTANCE
    ensures HitFree(n, ml, x, cfg, opt, s, |x.text| + 1)
  {
    hide HitAt, Trusted, Formed;
    forall i: nat | s <= i <= |x.text| ensures !HitAt(n, ml, x, cfg, opt, i) {
      if HitAt(n, ml, x, cfg, opt, i) {
        HitNecessary(n, ml, x, cfg, opt, info, i);
        NecessaryRoom(info, x.text, i);
      }
    }
  }

  // ----- where it does not look closely -----

  /** Nowhere in the text is there what every hit is taken to need. */
  ghost predicate Absent(info: Info, text: Text) { info.how != SearchNone && forall p :: !Here(info.how, text, p) }

  /** With an unbounded distance and no place of the literal, or one line behind a start that misses. */
  ghost predicate Skims(n: Node, ml: bool, x: Subject, cfg: Cfg, opt: Options, info: Info, start: nat)
    requires Formed(n) && start <= |x.text|
  {
    info.dmax == INFINITE_DISTANCE &&
    (|| Absent(info, x.text)
     || (info.star && !info.starMl && info.how != SearchNone && !HitAt(n, ml, x, cfg, opt, start)
         && Clear(x, start, |x.text|)))
  }

  lemma SkimsMisses(n: Node, ml: bool, x: Subject, cfg: Cfg, opt: Options, info: Info, start: nat, r: int)
    requires Formed(n) && start <= |x.text| && Skims(n, ml, x, cfg, opt, info, start)
    requires FirstTried(n, ml, x, cfg, opt, info, start, r)
    ensures r == MISMATCH
  {
    hide HitAt, Formed, Here;
  }
}
