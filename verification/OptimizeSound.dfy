/** The literal, the byte set and the distances that optimize_node_left finds are in every match. */
module OptimizeSound {
  import opened Regint
  import opened Regparse
  import opened Regcomp
  import opened Machine
  import opened Meaning
  import opened Lengths
  import opened LengthSound
  import opened Optimize

  // ----- members of result lists -----

  /** A result of a list comes from a result of its first item. */
  lemma {:induction false} FromSome(ns: Nodes, ml: bool, x: Subject, cfg: Cfg, from: seq<nat>, e: nat) returns (m: nat)
    requires AllFormed(ns) && Bounded(from, x) && e in EndsListAll(ns, ml, x, cfg, from)
    ensures m in from && m <= |x.text| && e in EndsList(ns, ml, x, cfg, m)
    decreases |from|
  {
    hide EndsList;
    if e in EndsList(ns, ml, x, cfg, from[0]) {
      m := from[0];
    } else {
      m := FromSome(ns, ml, x, cfg, from[1..], e);
    }
  }

  /** How a result of a repeat continues from an end of one iteration. */
  ghost predicate Continues(t: Node, q: Rep, ml: bool, x: Subject, cfg: Cfg, k: nat, s: nat, m: nat, e: nat)
    requires Formed(t) && RepOk(q) && s <= |x.text| && k > 0
  {
    && m <= |x.text| && m in Ends(t, ml, x, cfg, s)
    && e in Onward(t, q, ml, x, cfg, k, m, s)
  }

  lemma {:induction false} EachSome(t: Node, q: Rep, ml: bool, x: Subject, cfg: Cfg, k: nat, es: seq<nat>, s: nat,
                                    e: nat) returns (m: nat)
    requires Formed(t) && RepOk(q) && s <= |x.text| && Bounded(es, x) && k > 0 && !UpperReached(q, k - 1)
    requires (forall i :: 0 <= i < |es| ==> es[i] in Ends(t, ml, x, cfg, s))
             && e in EndsEach(t, q, ml, x, cfg, k, es, s)
    ensures Continues(t, q, ml, x, cfg, k, s, m, e)
    decreases |es|
  {
    hide Ends, EndsRep, EndsEach, Onward;
    EachSplit(t, q, ml, x, cfg, k, es, s);
    if es != [] && e in Onward(t, q, ml, x, cfg, k, es[0], s) {
      m := es[0];
    } else {
      m := EachSome(t, q, ml, x, cfg, k, es[1..], s, e);
    }
  }

  /** A result of a repeat: it stops, or goes on from an end of the body. */
  lemma RepSome(t: Node, q: Rep, ml: bool, x: Subject, cfg: Cfg, k: nat, s: nat, e: nat) returns (m: Option<nat>)
    requires Formed(t) && RepOk(q) && s <= |x.text| && e in EndsRep(t, q, ml, x, cfg, k, s)
    ensures m.None? ==> e == s && k >= q.lower
    ensures m.Some? ==> !UpperReached(q, k) && Continues(t, q, ml, x, cfg, k + 1, s, m.value, e)
  {
    hide Ends, EndsEach;
    if !UpperReached(q, k) && e in EndsEach(t, q, ml, x, cfg, k + 1, Ends(t, ml, x, cfg, s), s) {
      var i := EachSome(t, q, ml, x, cfg, k + 1, Ends(t, ml, x, cfg, s), s, e);
      m := Some(i);
    } else {
      m := None;
    }
  }

  /** After the end m of a round, either the repeat is left there, or it goes on with fewer rounds or less
      text left. */
  lemma GoesOn(t: Node, q: Rep, ml: bool, x: Subject, cfg: Cfg, k: nat, s: nat, m: nat, e: nat) returns (left: bool)
    requires Formed(t) && RepOk(q) && s <= |x.text| && !UpperReached(q, k)
    requires Continues(t, q, ml, x, cfg, k + 1, s, m, e)
    ensures m <= |x.text| && m in Ends(t, ml, x, cfg, s)
    ensures (left <==> m <= s && Checked(t, q, cfg, k)) && (left ==> e == m)
    ensures !left ==> e in EndsRep(t, q, ml, x, cfg, k + 1, m) && Left(q, k + 1) <= Left(q, k)
                      && (m > s || Left(q, k + 1) < Left(q, k))
  {
    hide Ends, EndsRep, Checked, Formed;
    LeftFalls(t, q, cfg, k);
    left := m <= s && Checked(t, q, cfg, k);
  }

  // ----- what the information claims -----

  predicate InMml(m: Mml, d: int) { m.min <= d && (m.max == INFINITE_DISTANCE || d <= m.max) }

  /** A match from s to e, in a whole match that began at s0. */
  datatype Span = Span(x: Subject, s0: nat, s: nat, e: nat)

  /** The literal stands where the node begins. */
  ghost predicate ExbOk(a: Exact, p: Span) {
    && (a.s != [] || a.reachEnd ==> InMml(a.mmd, p.s - p.s0) && HasAt(p.x, p.s, a.s))
    && (a.reachEnd ==> !a.lost && p.e == p.s + |a.s|)
  }

  ghost predicate LiteralAt(a: Exact, p: Span, i: nat) {
    p.s <= i && InMml(a.mmd, i - p.s0) && HasAt(p.x, i, a.s) && (a.reachEnd ==> i + |a.s| == p.e)
  }

  /** The literal stands somewhere in its distance. */
  ghost predicate ExmOk(a: Exact, p: Span) {
    a.s != [] || a.reachEnd ==> exists i: nat :: LiteralAt(a, p, i)
  }

  /** What a look-ahead asks for stands where the node begins or behind. */
  ghost predicate ExprOk(a: Exact, p: Span) {
    a.s != [] ==> !a.reachEnd && exists i: nat :: LiteralAt(a, p, i)
  }

  ghost predicate ByteAt(m: ByteMap, p: Span, i: nat) {
    p.s0 <= i < |p.x.text| && InMml(m.mmd, i - p.s0) && p.x.text[i] in m.bytes
  }

  ghost predicate MapOk(m: ByteMap, p: Span) {
    m.bytes != {} ==> exists i: nat :: ByteAt(m, p, i)
  }

  ghost predicate OptOk(a: Opt, p: Span) {
    p.s0 <= p.s <= p.e && InMml(a.len, p.e - p.s) && ExbOk(a.exb, p) && ExmOk(a.exm, p)
    && ExprOk(a.expr, p) && MapOk(a.byteMap, p)
  }

  // ----- distances -----

  lemma AddIn(a: Mml, b: Mml, d: int, d': int)
    requires InMml(a, d) && InMml(b, d') && d >= 0 && d' >= 0
    ensures InMml(AddMml(a, b), d + d')
  {
  }

  lemma AltIn(a: Mml, b: Mml, d: int)
    requires InMml(a, d) || InMml(b, d)
    ensures InMml(AltMml(a, b), d)
  {
  }

  // ----- literals -----

  lemma HasSplit(x: Subject, s: nat, a: seq<byte>, b: seq<byte>)
    requires HasAt(x, s, a) && HasAt(x, s + |a|, b)
    ensures HasAt(x, s, a + b)
  {
    var c := x.text[s..s + |a + b|];
    assert c == x.text[s..s + |a|] + x.text[s + |a|..s + |a| + |b|];
  }

  lemma HasPrefix(x: Subject, s: nat, a: seq<byte>, b: seq<byte>)
    requires HasAt(x, s, b) && a <= b
    ensures HasAt(x, s, a)
  {
    assert x.text[s..s + |b|][..|a|] == x.text[s..s + |a|];
  }

  /** A literal that ends where the next one begins. */
  lemma ConcatOk(a: Exact, b: Exact, x: Subject, i: nat, m: nat)
    requires HasAt(x, i, a.s) && i + |a.s| == m && HasAt(x, m, b.s)
    ensures HasAt(x, i, ConcatExact(a, b).s)
    ensures ConcatExact(a, b).reachEnd ==> b.reachEnd && |ConcatExact(a, b).s| == |a.s| + |b.s|
  {
    var fit := Fitting(b.s, |a.s|);
    HasPrefix(x, m, fit, b.s);
    HasSplit(x, i, a.s, fit);
  }

  lemma SelectOk(a: Exact, b: Exact, p: Span)
    requires ExmOk(a, p) && (b.s != [] ==> ExmOk(b, p))
    ensures ExmOk(SelectExact(a, b), p)
  {
    hide SelectExact;
  }

  lemma ExbExm(a: Exact, p: Span)
    requires ExbOk(a, p) && p.s0 <= p.s && (a.reachEnd ==> a.s != [])
    ensures ExmOk(a, p)
  {
    if a.s != [] { assert LiteralAt(a, p, p.s); }
  }

  lemma ExmMoves(a: Exact, keep: bool, p: Span, p': Span)
    requires ExmOk(a, p) && p'.x == p.x && p'.s0 == p.s0 && p'.s <= p.s && (keep ==> p'.e == p.e)
    ensures ExmOk(a.(reachEnd := a.reachEnd && keep), p')
  {
    if a.s != [] || a.reachEnd {
      var i: nat :| LiteralAt(a, p, i);
      assert LiteralAt(a.(reachEnd := a.reachEnd && keep), p', i);
    }
  }

  lemma MapMoves(a: ByteMap, p: Span, p': Span)
    requires MapOk(a, p) && p'.x == p.x && p'.s0 == p.s0
    ensures MapOk(a, p')
  {
    if a.bytes != {} {
      var i: nat :| ByteAt(a, p, i);
      assert ByteAt(a, p', i);
    }
  }

  // ----- one after the other -----

  lemma ConcatExm(a: Opt, b: Opt, p: Span, p': Span, p'': Span)
    requires OptOk(a, p) && OptOk(b, p') && p'.s == p.e && p'.x == p.x && p'.s0 == p.s0
    requires p'' == Span(p.x, p.s0, p.s, p'.e)
    ensures ExmOk(ConcatItems(a, b).exm, p'')
  {
    var keep := b.len.max == 0;
    ExmMoves(a.exm, keep, p, p'');
    ExmMoves(b.exm, true, p', p'');
    var joined := Len(b.exb) > 0 && !a.exb.reachEnd && a.exm.reachEnd;
    var exm := if joined then ConcatExact(a.exm, b.exb) else a.exm.(reachEnd := a.exm.reachEnd && keep);
    if joined {
      var i: nat :| LiteralAt(a.exm, p, i);
      ConcatOk(a.exm, b.exb, p.x, i, p.e);
      assert LiteralAt(exm, p'', i);
    }
    var taken := Len(b.exb) > 0 && (a.exb.reachEnd || a.exm.reachEnd);
    var exb' := if taken then NO_EXACT else b.exb;
    var some := exb'.(reachEnd := exb'.reachEnd && exb'.s != []);
    ExbExm(some, p');
    ExmMoves(some, true, p', p'');
    SelectIgnores(exm, exb');
    SelectOk(exm, some, p'');
    SelectOk(SelectExact(exm, some), b.exm, p'');
  }

  /** An empty literal is never selected. */
  lemma SelectIgnores(a: Exact, b: Exact)
    ensures SelectExact(a, b) == SelectExact(a, b.(reachEnd := b.reachEnd && b.s != []))
  {
  }

  /** concat_left_node_opt_info. */
  lemma ConcatSound(a: Opt, b: Opt, p: Span, p': Span)
    requires OptOk(a, p) && OptOk(b, p') && p'.s == p.e && p'.x == p.x && p'.s0 == p.s0
    ensures OptOk(ConcatLeft(a, b), Span(p.x, p.s0, p.s, p'.e))
  {
    hide ConcatItems, Cut, SelectExact, SelectMap, ExbOk, ExmOk, MapOk, ExprOk;
    var p'' := Span(p.x, p.s0, p.s, p'.e);
    var c := ConcatItems(a, b);
    ItemsSound(a, b, p, p', p'');
    ExprMoves(a.expr, p, p'');
    ExprMoves(b.expr, p', p'');
    if Len(a.expr) > 0 && b.len.max > 0 {
      var cut := Cut(a.expr, b.len.max);
      CutOk(a.expr, b.len.max, p'');
      if cut.mmd.max == 0 { SelectExb(c.exb, cut, p''); } else { SelectOk(c.exm, cut, p''); }
    }
  }

  lemma ItemsSound(a: Opt, b: Opt, p: Span, p': Span, p'': Span)
    requires OptOk(a, p) && OptOk(b, p') && p'.s == p.e && p'.x == p.x && p'.s0 == p.s0
    requires p'' == Span(p.x, p.s0, p.s, p'.e)
    ensures var c := ConcatItems(a, b);
            && p.s0 <= p.s <= p'.e && InMml(c.len, p'.e - p.s) && ExbOk(c.exb, p'') && ExmOk(c.exm, p'')
            && MapOk(c.byteMap, p'') && c.expr == a.expr && ExprOk(a.expr, p) && ExprOk(b.expr, p') && p.s <= p'.s
  {
    hide ExprOk, SelectMap, SelectExact;
    AddIn(a.len, b.len, p.e - p.s, p'.e - p'.s);
    ConcatExm(a, b, p, p', p'');
    MapMoves(a.byteMap, p, p'');
    MapMoves(b.byteMap, p', p'');
    MapSelect(a.byteMap, b.byteMap, p'');
    if Len(b.exb) > 0 && a.exb.reachEnd { ConcatOk(a.exb, b.exb, p.x, p.s, p.e); }
  }

  lemma MapSelect(a: ByteMap, b: ByteMap, p: Span)
    requires MapOk(a, p) && MapOk(b, p)
    ensures MapOk(SelectMap(a, b), p)
  {
  }

  lemma ExprMoves(a: Exact, p: Span, p': Span)
    requires ExprOk(a, p) && p'.x == p.x && p'.s0 == p.s0 && p'.s <= p.s
    ensures ExprOk(a, p')
  {
    if a.s != [] {
      var i: nat :| LiteralAt(a, p, i);
      assert LiteralAt(a, p', i);
    }
  }

  /** A look-ahead literal at distance 0 stands where the node begins. */
  lemma CutOk(a: Exact, max: Distance, p: Span)
    requires ExprOk(a, p) && p.s0 <= p.s
    ensures var c := Cut(a, max);
            && ExprOk(c, p) && (c.s != [] ==> ExmOk(c, p))
            && (c.s != [] && c.mmd.max == 0 ==> ExbOk(c, p))
    ensures Cut(a, max).s == [] ==> a.s == [] || max == 0
  {
    var c := Cut(a, max);
    if a.s != [] {
      var i: nat :| LiteralAt(a, p, i);
      HasPrefix(p.x, i, c.s, a.s);
      assert LiteralAt(c, p, i);
    }
  }

  lemma SelectExb(a: Exact, b: Exact, p: Span)
    requires ExbOk(a, p) && (b.s != [] ==> ExbOk(b, p))
    ensures ExbOk(SelectExact(a, b), p)
  {
    hide ExbOk;
  }

  // ----- one or the other -----

  lemma PrefixExm(a: Exact, c: Exact, p: Span)
    requires ExmOk(a, p) && c.mmd == a.mmd && c.s <= a.s && a.s != [] && (c.reachEnd ==> a.reachEnd && c.s == a.s)
    ensures ExmOk(c, p)
  {
    var i: nat :| LiteralAt(a, p, i);
    HasPrefix(p.x, i, c.s, a.s);
    assert LiteralAt(c, p, i);
  }

  /** alt_merge_node_opt_info: what is left is claimed by both alternatives. */
  lemma AltSound(a: Opt, b: Opt, p: Span)
    requires OptOk(a, p) || OptOk(b, p)
    ensures OptOk(AltMerge(a, b), p)
  {
    var c := AltMerge(a, b);
    hide ExbOk, ExmOk, ExprOk, MapOk, AltExact, AltMap;
    AltIn(a.len, b.len, p.e - p.s);
    AltExbSound(a.exb, b.exb, p);
    AltExmSound(a.exm, b.exm, p);
    AltExprSound(a.expr, b.expr, p);
    AltMapSound(a.byteMap, b.byteMap, p);
  }

  lemma AltExbSound(a: Exact, b: Exact, p: Span)
    ensures ExbOk(a, p) || ExbOk(b, p) ==> ExbOk(AltExact(a, b), p)
  {
    var c := AltExact(a, b);
    if a.s != [] && b.s != [] && a.mmd == b.mmd {
      if ExbOk(a, p) { HasPrefix(p.x, p.s, c.s, a.s); }
      if ExbOk(b, p) { HasPrefix(p.x, p.s, c.s, b.s); }
    }
  }

  lemma AltExmSound(a: Exact, b: Exact, p: Span)
    ensures ExmOk(a, p) || ExmOk(b, p) ==> ExmOk(AltExact(a, b), p)
  {
    var c := AltExact(a, b);
    if a.s != [] && b.s != [] && a.mmd == b.mmd {
      if ExmOk(a, p) { PrefixExm(a, c, p); }
      if ExmOk(b, p) { PrefixExm(b, c, p); }
    }
  }

  lemma AltExprSound(a: Exact, b: Exact, p: Span)
    ensures ExprOk(a, p) || ExprOk(b, p) ==> ExprOk(AltExact(a, b), p)
  {
    var c := AltExact(a, b);
    if c.s != [] {
      if ExprOk(a, p) {
        var i: nat :| LiteralAt(a, p, i);
        HasPrefix(p.x, i, c.s, a.s);
        assert LiteralAt(c, p, i);
      }
      if ExprOk(b, p) {
        var i: nat :| LiteralAt(b, p, i);
        HasPrefix(p.x, i, c.s, b.s);
        assert LiteralAt(c, p, i);
      }
    }
  }

  lemma AltMapSound(a: ByteMap, b: ByteMap, p: Span)
    ensures MapOk(a, p) || MapOk(b, p) ==> MapOk(AltMap(a, b), p)
  {
    var c := AltMap(a, b);
    if c.bytes != {} {
      if MapOk(a, p) {
        var i: nat :| ByteAt(a, p, i);
        AltIn(a.mmd, b.mmd, i - p.s0);
        assert ByteAt(c, p, i);
      }
      if MapOk(b, p) {
        var i: nat :| ByteAt(b, p, i);
        AltIn(a.mmd, b.mmd, i - p.s0);
        assert ByteAt(c, p, i);
      }
    }
  }

  // ----- repeats -----

  /** Bounds on one run of the body, from wherever at or behind lo. */
  ghost predicate Spans(t: Node, ml: bool, x: Subject, cfg: Cfg, b: Mml, lo: nat)
    requires Formed(t)
  {
    forall s: nat, m: nat :: lo <= s <= |x.text| && m in Ends(t, ml, x, cfg, s) ==> SpanOk(b, s, m)
  }

  ghost predicate Literally(t: Node, ml: bool, x: Subject, cfg: Cfg, str: seq<byte>, lo: nat)
    requires Formed(t)
  {
    forall s: nat, m: nat :: lo <= s <= |x.text| && m in Ends(t, ml, x, cfg, s) ==> m == s + |str| && HasAt(x, s, str)
  }

  predicate SpanOk(b: Mml, s: nat, m: nat) { s <= m && InMml(b, m - s) }

  function Most(b: Mml, q: Rep, k: nat): int
    requires !Infinite(q.upper)
  {
    if k < q.upper then (q.upper - k) * b.max else 0
  }

  lemma OwedStep(lower: nat, k: nat, c: nat)
    ensures Owed(lower, k) * c <= c + Owed(lower, k + 1) * c
    ensures Owed(lower, k) * c >= Owed(lower, k + 1) * c
  {
    if k < lower { assert Owed(lower, k) == 1 + Owed(lower, k + 1); }
  }

  lemma MostStep(b: Mml, q: Rep, k: nat)
    requires !Infinite(q.upper) && !UpperReached(q, k)
    ensures Most(b, q, k) == b.max + Most(b, q, k + 1)
  {
    assert (q.upper - k) * b.max == b.max + (q.upper - (k + 1)) * b.max;
  }

  predicate RepSpanOk(q: Rep, b: Mml, k: nat, s: int, e: int) {
    && e >= s + Owed(q.lower, k) * b.min
    && (b.max == 0 ==> e == s)
    && (b.max != INFINITE_DISTANCE && !Infinite(q.upper) ==> e <= s + Most(b, q, k))
  }

  lemma RepSpanStep(q: Rep, b: Mml, k: nat, s: nat, m: nat, e: nat)
    requires SpanOk(b, s, m) && !UpperReached(q, k)
    requires (e == m && m <= s) || RepSpanOk(q, b, k + 1, m, e)
    ensures RepSpanOk(q, b, k, s, e)
  {
    OwedStep(q.lower, k, b.min);
    if !Infinite(q.upper) { MostStep(b, q, k); }
    if m <= s { assert b.min == 0 && Owed(q.lower, k) * b.min == 0; }
  }

  lemma SpanAt(t: Node, ml: bool, x: Subject, cfg: Cfg, b: Mml, lo: nat, s: nat, m: nat)
    requires Formed(t) && Spans(t, ml, x, cfg, b, lo) && lo <= s <= |x.text| && m in Ends(t, ml, x, cfg, s)
    ensures SpanOk(b, s, m)
  {
  }

  /** Every copy owed costs at least the minimum; no copy costs more than the maximum. */
  lemma {:induction false} RepSpan(t: Node, q: Rep, ml: bool, x: Subject, cfg: Cfg, b: Mml, lo: nat, k: nat, s: nat,
                                   e: nat)
    requires Formed(t) && RepOk(q) && Spans(t, ml, x, cfg, b, lo) && lo <= s <= |x.text|
             && e in EndsRep(t, q, ml, x, cfg, k, s)
    ensures RepSpanOk(q, b, k, s, e)
    decreases Left(q, k), |x.text| - s
  {
    hide Ends, EndsRep, EndsEach, Formed, SpanOk, Spans, Continues, RepOk, RepSpanOk;
    var m := RepSome(t, q, ml, x, cfg, k, s, e);
    if m.Some? {
      var left := GoesOn(t, q, ml, x, cfg, k, s, m.value, e);
      SpanAt(t, ml, x, cfg, b, lo, s, m.value);
      SpanAfter(b, s, m.value);
      if !left { RepSpan(t, q, ml, x, cfg, b, lo, k + 1, m.value, e); }
      RepSpanStep(q, b, k, s, m.value, e);
    } else {
      NoRounds(q, b, k, s);
    }
  }

  lemma SpanAfter(b: Mml, s: nat, m: nat)
    requires SpanOk(b, s, m)
    ensures s <= m
  {
  }

  lemma NoRounds(q: Rep, b: Mml, k: nat, s: nat)
    requires k >= q.lower
    ensures RepSpanOk(q, b, k, s, s)
  {
  }

  lemma MultiplyMin(d: Distance, m: nat, len: nat)
    requires m <= MAX_REPEAT_NUM && len >= m * d && len <= INT_MAX
    ensures DistanceMultiply(d, m) <= len
  {
    DistanceMultiplyBound(d, m);
    Commute(d, m);
  }

  lemma MultiplyMax(d: Distance, m: nat, len: nat)
    requires len <= m * d
    ensures DistanceMultiply(d, m) == INFINITE_DISTANCE || len <= DistanceMultiply(d, m)
  {
    Commute(d, m);
  }

  lemma QuantLenIn(b: Mml, q: Rep, len: nat)
    requires RepOk(q) && q.lower <= MAX_REPEAT_NUM && len <= INT_MAX
    requires len >= q.lower * b.min && (b.max == 0 ==> len == 0)
    requires b.max != INFINITE_DISTANCE && !Infinite(q.upper) ==> len <= q.upper * b.max
    requires UpperReached(q, 0) ==> len == 0
    ensures InMml(QuantLen(b, q), len)
  {
    hide DistanceMultiply;
    MultiplyMin(b.min, q.lower, len);
    if !Infinite(q.upper) {
      if b.max != INFINITE_DISTANCE { MultiplyMax(b.max, q.upper, len); } else { MultiplyInfinite(q.upper); }
    }
  }

  lemma MultiplyInfinite(m: nat)
    ensures m > 0 ==> DistanceMultiply(INFINITE_DISTANCE, m) == INFINITE_DISTANCE
  {
    if m > 0 { assert INFINITE_DISTANCE / m <= INFINITE_DISTANCE; }
  }

  /** The length of a repeat. */
  lemma QuantSpan(t: Node, q: Rep, ml: bool, x: Subject, cfg: Cfg, b: Mml, s: nat, e: nat)
    requires Formed(t) && RepOk(q) && Spans(t, ml, x, cfg, b, s) && s <= |x.text| <= INT_MAX
             && q.lower <= MAX_REPEAT_NUM
    requires e in EndsRep(t, q, ml, x, cfg, 0, s) && e <= |x.text|
    ensures SpanOk(QuantLen(b, q), s, e)
  {
    hide Ends, EndsRep, Formed, Spans, QuantLen, DistanceMultiply;
    RepSpan(t, q, ml, x, cfg, b, s, 0, s, e);
    if UpperReached(q, 0) { NoRun(t, q, ml, x, cfg, s); }
    QuantLenIn(b, q, e - s);
  }

  lemma NoRun(t: Node, q: Rep, ml: bool, x: Subject, cfg: Cfg, s: nat)
    requires Formed(t) && RepOk(q) && s <= |x.text| && UpperReached(q, 0)
    ensures EndsRep(t, q, ml, x, cfg, 0, s) == [s]
  {
  }

  function Times(s: seq<byte>, n: nat): seq<byte> { if n == 0 then [] else s + Times(s, n - 1) }

  lemma {:induction false} TimesEnd(s: seq<byte>, n: nat)
    ensures Times(s, n + 1) == Times(s, n) + s
  {
    if n > 0 {
      TimesEnd(s, n - 1);
      assert Times(s, n) + s == s + (Times(s, n - 1) + s);
    }
  }

  /** A body that is exactly a literal stands there once for every copy owed. */
  lemma {:induction false} RepLiteral(t: Node, q: Rep, str: seq<byte>, ml: bool, x: Subject, cfg: Cfg, lo: nat, k: nat,
                                      s: nat, e: nat)
    requires Formed(t) && RepOk(q) && str != [] && lo <= s <= |x.text| && e in EndsRep(t, q, ml, x, cfg, k, s)
    requires Literally(t, ml, x, cfg, str, lo)
    ensures HasAt(x, s, Times(str, Owed(q.lower, k)))
    decreases Left(q, k), |x.text| - s
  {
    hide Ends, EndsRep, EndsEach, Formed, RepOk, Continues;
    var m := RepSome(t, q, ml, x, cfg, k, s, e);
    if k < q.lower {
      var left := GoesOn(t, q, ml, x, cfg, k, s, m.value, e);
      RepLiteral(t, q, str, ml, x, cfg, lo, k + 1, m.value, e);
      HasSplit(x, s, str, Times(str, Owed(q.lower, k + 1)));
    } else {
      assert x.text[s..s] == [];
    }
  }

  /** A body that only matches empty takes its repeat nowhere. */
  lemma {:induction false} RepEmpty(t: Node, q: Rep, ml: bool, x: Subject, cfg: Cfg, lo: nat, k: nat, s: nat, e: nat)
    requires Formed(t) && RepOk(q) && lo <= s <= |x.text| && e in EndsRep(t, q, ml, x, cfg, k, s)
    requires Literally(t, ml, x, cfg, [], lo)
    ensures e == s
    decreases Left(q, k), |x.text| - s
  {
    hide Ends, EndsRep, EndsEach, Formed, RepOk, Continues;
    var m := RepSome(t, q, ml, x, cfg, k, s, e);
    if m.Some? {
      var left := GoesOn(t, q, ml, x, cfg, k, s, m.value, e);
      if !left { RepEmpty(t, q, ml, x, cfg, lo, k + 1, m.value, e); }
    }
  }

  /** The loop of optimize_node_left never writes more than lower - 1 copies. */
  lemma {:induction false} CopiedPrefix(a: Exact, body: Exact, i: nat, lower: nat)
    requires 2 <= i <= lower && a.s <= Times(body.s, i - 1) && (|a.s| < OPT_EXACT_MAXLEN ==>
             a.s == Times(body.s, i - 1))
    ensures Copied(a, body, i, lower).s <= Times(body.s, lower - 1) && Copied(a, body, i, lower).mmd == a.mmd
    decreases lower - i
  {
    TimesEnd(body.s, i - 1);
    if i < lower {
      if |a.s| < OPT_EXACT_MAXLEN {
        var fit := Fitting(body.s, |a.s|);
        assert a.s + fit <= a.s + body.s;
        CopiedPrefix(ConcatExact(a, body), body, i + 1, lower);
      } else {
        TimesGrow(body.s, i - 1, lower - 1);
      }
    }
  }

  lemma {:induction false} TimesGrow(s: seq<byte>, a: nat, b: nat)
    requires a <= b
    ensures Times(s, a) <= Times(s, b)
    decreases b
  {
    if a < b {
      TimesGrow(s, a, b - 1);
      TimesEnd(s, b - 1);
    }
  }

  // ----- the tree -----

  predicate Reaches(e: Exact) { Len(e) > 0 && e.reachEnd }

  /** The literal of X{n,n} is taken to reach the end of the repeat, one copy early. */
  predicate Overreaches(body: Exact, q: Rep) {
    q.lower == q.upper && q.lower >= 2 && Reaches(body) && RepeatExact(body, q.lower).reachEnd
  }

  /** Trees the analysis is right for: no anchors, and no X{n,n} whose literal overreaches. */
  predicate Searchable(n: Node) {
    match n
    case List(ns) => AllSearchable(ns)
    case Alt(ns) => AllSearchable(ns)
    case Quant(t, q) => Searchable(t) && q.lower <= MAX_REPEAT_NUM && !Overreaches(OptNode(t, ZERO, false).exb, q)
    case Group(_, b) => Searchable(b)
    case OptionNode(_, b) => Searchable(b)
    case Atomic(simple, b) =>
      if simple then b.Quant? && b.q.greedy && Infinite(b.q.upper) && IsSimple(b.target) && b.target != Str([])
        && b.q.lower <= MAX_REPEAT_NUM
      else Searchable(b)
    case Anchor(_) => false
    case Look(_, _, b) => Searchable(b)
    case _ => true
  }

  predicate AllSearchable(ns: Nodes) {
    match ns
    case Last(n) => Searchable(n)
    case Cons(n, rest) => Searchable(n) && AllSearchable(rest)
  }

  predicate NoDotStar(n: Node) {
    match n
    case List(ns) => AllNoDotStar(ns)
    case Alt(ns) => AllNoDotStar(ns)
    case Quant(t, q) => NoDotStar(t) && !(q.lower == 0 && Infinite(q.upper) && q.greedy && t.AnyChar?)
    case Group(_, b) => NoDotStar(b)
    case OptionNode(_, b) => NoDotStar(b)
    case Atomic(_, b) => NoDotStar(b)
    case _ => true
  }

  predicate AllNoDotStar(ns: Nodes) {
    match ns
    case Last(n) => NoDotStar(n)
    case Cons(n, rest) => NoDotStar(n) && AllNoDotStar(rest)
  }

  /** Without heads the results of a possessive repeat are among those of the plain one. */
  lemma {:induction false} SimpleIn(t: Node, q: Rep, ml: bool, x: Subject, cfg: Cfg, k: nat, s: nat, e: nat)
    requires Formed(t) && RepOk(q) && q.greedy && Infinite(q.upper) && q.headExact.None? && q.nextHead.None?
             && s <= |x.text|
    requires e in EndsSimple(t, q.lower, ml, x, cfg, k, s)
    ensures e in EndsRep(t, q, ml, x, cfg, k, s)
    decreases |x.text| - s
  {
    hide Ends, Formed;
    hide EndsEach;
    var es := Ends(t, ml, x, cfg, s);
    EachSplit(t, q, ml, x, cfg, k + 1, es, s);
    if es != [] && es[0] > s {
      SimpleIn(t, q, ml, x, cfg, k + 1, es[0], e);
      OnwardMoved(t, q, ml, x, cfg, k + 1, es[0], s);
    }
  }

  lemma LeafSound(n: Node, env: Mml, ml: bool, x: Subject, cfg: Cfg, s0: nat, s: nat, e: nat)
    requires n.Str? || n.CClass? || n.CType? || n.AnyChar?
    requires s0 <= s <= |x.text| <= INT_MAX && InMml(env, s - s0) && e in Ends(n, ml, x, cfg, s)
    ensures OptOk(OptNode(n, env, ml), Span(x, s0, s, e))
  {
    var p := Span(x, s0, s, e);
    var o := OptNode(n, env, ml);
    if n.Str? {
      HasPrefix(x, s, Fitting(n.s, 0), n.s);
      if n.s != [] {
        assert x.text[s..s + |n.s|][0] == x.text[s];
        assert ByteAt(o.byteMap, p, s);
      }
    } else {
      if o.byteMap.bytes != {} { assert ByteAt(o.byteMap, p, s); }
    }
  }

  lemma BoundOk(env: Mml, x: Subject, s0: nat, s: nat)
    requires s0 <= s
    ensures OptOk(Bound(env), Span(x, s0, s, s))
  {
  }

  /** The information, with the literal where the node begins reaching its end only if that is so. */
  function Ending(o: Opt, ok: bool): Opt { o.(exb := o.exb.(reachEnd := o.exb.reachEnd && ok)) }

  lemma EndingSame(o: Opt)
    ensures Ending(o, true) == o
  {
  }

  /** The literal of a repeat: copies of the body's, fewer than the lower bound. */
  lemma QuantExb(t: Node, q: Rep, b: Opt, env: Mml, ml: bool, x: Subject, cfg: Cfg, s0: nat, s: nat, m: nat, e: nat)
    requires Formed(t) && RepOk(q) && s0 <= s <= |x.text| && e in EndsRep(t, q, ml, x, cfg, 0, s)
    requires q.lower > 0
    requires ExbOk(b.exb, Span(x, s0, s, m)) && (q.lower == q.upper == 1 ==> e == m)
    requires b.exb.reachEnd ==> Literally(t, ml, x, cfg, b.exb.s, s)
    ensures var exb := RepeatExact(b.exb, q.lower);
            ExbOk(exb.(reachEnd := exb.reachEnd && q.lower == q.upper && !Overreaches(b.exb, q)), Span(x, s0, s, e))
  {
    var str := b.exb.s;
    if b.exb.reachEnd && q.lower >= 2 {
      if str == [] {
        hide EndsRep, Formed, Literally, Ends;
        RepEmpty(t, q, ml, x, cfg, s, 0, s, e);
      } else {
        RepLiteral(t, q, str, ml, x, cfg, s, 0, s, e);
        hide EndsRep, Formed, Literally, Ends;
        assert Times(str, 1) == str + Times(str, 0) == str;
        CopiedPrefix(b.exb, b.exb, 2, q.lower);
        TimesGrow(str, q.lower - 1, q.lower);
        HasPrefix(x, s, RepeatExact(b.exb, q.lower).s, Times(str, q.lower));
      }
    }
  }

  lemma QuantOk(t: Node, q: Rep, b: Opt, env: Mml, ml: bool, x: Subject, cfg: Cfg, s0: nat, s: nat, m: nat, e: nat)
    requires Formed(t) && RepOk(q) && s0 <= s <= |x.text| <= INT_MAX && e in EndsRep(t, q, ml, x, cfg, 0, s)
             && e <= |x.text|
    requires q.lower <= MAX_REPEAT_NUM && InMml(env, s - s0)
    requires q.lower > 0 ==> OptOk(b, Span(x, s0, s, m)) && (q.lower == q.upper == 1 ==> e == m)
    requires b.exb.reachEnd ==> Literally(t, ml, x, cfg, b.exb.s, s)
    requires Spans(t, ml, x, cfg, b.len, s)
    ensures OptOk(Ending(OptQuant(t, q, b, env, ml), !Overreaches(b.exb, q)), Span(x, s0, s, e))
  {
    hide Ends, EndsRep, Formed, Literally, Spans, Overreaches, RepOk;
    QuantSpan(t, q, ml, x, cfg, b.len, s, e);
    var p, p' := Span(x, s0, s, m), Span(x, s0, s, e);
    if q.lower > 0 {
      QuantExb(t, q, b, env, ml, x, cfg, s0, s, m, e);
      ExmMoves(b.exm, q.lower == q.upper && q.lower <= 1, p, p');
      ExprMoves(b.expr, p, p');
      MapMoves(b.byteMap, p, p');
      hide RepeatExact, QuantLen, ExbOk, ExmOk, MapOk, ExprOk;
      assert (b.exm.reachEnd && q.lower == q.upper && q.lower <= 1) ==
             (b.exm.reachEnd && (q.lower == q.upper && q.lower <= 1));
    } else {
      BoundOk(env, x, s0, s);
    }
  }

  lemma FirstRun(t: Node, q: Rep, ml: bool, x: Subject, cfg: Cfg, s: nat, e: nat) returns (m: nat)
    requires Formed(t) && RepOk(q) && s <= |x.text| && e in EndsRep(t, q, ml, x, cfg, 0, s) && q.lower > 0
    ensures m in Ends(t, ml, x, cfg, s) && (q.lower == q.upper == 1 ==> e == m)
  {
    hide Ends, Formed, Checked, Continues;
    var i := RepSome(t, q, ml, x, cfg, 0, s, e);
    m := i.value;
    var left := GoesOn(t, q, ml, x, cfg, 0, s, m, e);
    if q.lower == q.upper == 1 && !left { assert EndsRep(t, q, ml, x, cfg, 1, m) == [m]; }
  }

  // ----- what reaches the end does not depend on the position -----

  predicate SameReach(n: Node, env: Mml, env': Mml, ml: bool, ml': bool) {
    var a, b := OptNode(n, env, ml).exb, OptNode(n, env', ml').exb;
    Reaches(a) == Reaches(b) && (Reaches(a) ==> a.s == b.s && a.mmd == env && b.mmd == env')
  }

  lemma {:induction false} ReachSame(n: Node, env: Mml, env': Mml, ml: bool, ml': bool)
    ensures SameReach(n, env, env', ml, ml')
    decreases n, 1
  {
    hide RepeatExact, QuantLen, OptList, OptAlt;
    match n
    case List(ns) =>
      ListNotReaching(ns, Bound(env), env, ml);
      ListNotReaching(ns, Bound(env'), env', ml');
    case Alt(ns) =>
      ReachSame(ns.left, env, env', ml, ml');
      AltNodeReach(ns, env, env', ml, ml');
    case Quant(t, q) =>
      ReachSame(t, env, env', ml, ml');
      QuantReachSame(OptNode(t, env, ml).exb, OptNode(t, env', ml').exb, q.lower);
    case Group(_, b) => ReachSame(b, env, env', ml, ml');
    case OptionNode(m, b) => ReachSame(b, env, env', m, m);
    case Atomic(_, b) => ReachSame(b, env, env', ml, ml');
    case _ =>
  }

  /** A list never has a literal of its own that reaches its end. */
  lemma {:induction false} ListNotReaching(ns: Nodes, a: Opt, env: Mml, ml: bool)
    requires !a.exb.reachEnd && !a.expr.reachEnd
    ensures !OptList(ns, a, env, ml).exb.reachEnd
    decreases ns
  {
    hide OptNode, SelectExact, SelectMap, ConcatExact;
    var b := OptNode(ns.left, env, ml);
    ExprNotReaching(ns.left, env, ml);
    if ns.Cons? { ListNotReaching(ns.right, ConcatLeft(a, b), AddMml(env, b.len), ml); }
  }

  lemma {:induction false} ExprNotReaching(n: Node, env: Mml, ml: bool)
    ensures !OptNode(n, env, ml).expr.reachEnd
    decreases n, 1
  {
    match n
    case List(ns) => ListExprNotReaching(ns, Bound(env), env, ml);
    case Alt(ns) =>
      ExprNotReaching(ns.left, env, ml);
      if ns.Cons? { AltExprNotReaching(ns.right, OptNode(ns.left, env, ml), env, ml); }
    case Quant(t, q) => ExprNotReaching(t, env, ml);
    case Group(_, b) => ExprNotReaching(b, env, ml);
    case OptionNode(m, b) => ExprNotReaching(b, env, m);
    case Atomic(_, b) => ExprNotReaching(b, env, ml);
    case _ =>
  }

  lemma {:induction false} ListExprNotReaching(ns: Nodes, a: Opt, env: Mml, ml: bool)
    requires !a.expr.reachEnd
    ensures !OptList(ns, a, env, ml).expr.reachEnd
    decreases ns, 0
  {
    hide OptNode, SelectExact, SelectMap, ConcatExact;
    var b := OptNode(ns.left, env, ml);
    ExprNotReaching(ns.left, env, ml);
    if ns.Cons? { ListExprNotReaching(ns.right, ConcatLeft(a, b), AddMml(env, b.len), ml); }
  }

  lemma {:induction false} AltExprNotReaching(ns: Nodes, a: Opt, env: Mml, ml: bool)
    requires !a.expr.reachEnd
    ensures !OptAltFrom(ns, a, env, ml).expr.reachEnd
    decreases ns, 0
  {
    hide OptNode, CommonPrefix;
    ExprNotReaching(ns.left, env, ml);
    if ns.Cons? { AltExprNotReaching(ns.right, AltMerge(a, OptNode(ns.left, env, ml)), env, ml); }
  }

  predicate ReachPair(a: Exact, b: Exact, env: Mml, env': Mml) {
    Reaches(a) == Reaches(b) && (Reaches(a) ==> a.s == b.s && a.mmd == env && b.mmd == env')
  }

  lemma {:induction false} AltReachSame(ns: Nodes, a: Opt, b: Opt, env: Mml, env': Mml, ml: bool, ml': bool)
    requires ReachPair(a.exb, b.exb, env, env')
    ensures ReachPair(OptAltFrom(ns, a, env, ml).exb, OptAltFrom(ns, b, env', ml').exb, env, env')
    decreases ns, 0
  {
    hide OptNode, ReachPair;
    ReachSame(ns.left, env, env', ml, ml');
    var c, d := OptNode(ns.left, env, ml), OptNode(ns.left, env', ml');
    AltPair(a.exb, b.exb, c.exb, d.exb, env, env');
    if ns.Cons? { AltReachSame(ns.right, AltMerge(a, c), AltMerge(b, d), env, env', ml, ml'); }
  }

  lemma {:induction false} AltNodeReach(ns: Nodes, env: Mml, env': Mml, ml: bool, ml': bool)
    requires SameReach(ns.left, env, env', ml, ml')
    ensures SameReach(Alt(ns), env, env', ml, ml')
    decreases ns, 2
  {
    var a, b := OptNode(ns.left, env, ml), OptNode(ns.left, env', ml');
    assert OptNode(Alt(ns), env, ml) == OptAlt(ns, env, ml) && OptNode(Alt(ns), env', ml') == OptAlt(ns, env', ml');
    hide OptNode;
    if ns.Cons? { AltReachSame(ns.right, a, b, env, env', ml, ml'); }
  }

  lemma AltPair(a: Exact, b: Exact, c: Exact, d: Exact, env: Mml, env': Mml)
    requires ReachPair(a, b, env, env') && ReachPair(c, d, env, env')
    ensures ReachPair(AltExact(a, c), AltExact(b, d), env, env')
  {
  }

  lemma QuantReachSame(a: Exact, b: Exact, lower: nat)
    requires Reaches(a) == Reaches(b) && (Reaches(a) ==> a.s == b.s)
    ensures Reaches(RepeatExact(a, lower)) == Reaches(RepeatExact(b, lower))
    ensures Reaches(RepeatExact(a, lower)) ==> RepeatExact(a, lower).s == RepeatExact(b, lower).s
    ensures Reaches(a) ==> RepeatExact(a, lower).mmd == a.mmd && RepeatExact(b, lower).mmd == b.mmd
    ensures Reaches(RepeatExact(a, lower)) ==> Reaches(a)
  {
    if Reaches(a) { CopiedSame(a, b, a, b, 2, lower); }
  }

  lemma {:induction false} CopiedSame(e: Exact, f: Exact, a: Exact, b: Exact, i: nat, lower: nat)
    requires e.s == f.s && e.reachEnd == f.reachEnd && e.lost == f.lost && a.s == b.s && a.reachEnd == b.reachEnd
    ensures var c, d := Copied(e, a, i, lower), Copied(f, b, i, lower);
            c.s == d.s && c.reachEnd == d.reachEnd && c.lost == d.lost && c.mmd == e.mmd && d.mmd == f.mmd
    decreases Max0(lower - i)
  {
    if i < lower && |e.s| < OPT_EXACT_MAXLEN { CopiedSame(ConcatExact(e, a), ConcatExact(f, b), a, b, i + 1, lower); }
  }

  lemma OverreachesSame(t: Node, q: Rep, env: Mml, ml: bool)
    ensures Overreaches(OptNode(t, env, ml).exb, q) == Overreaches(OptNode(t, ZERO, false).exb, q)
  {
    hide OptNode;
    ReachSame(t, env, ZERO, ml, false);
    var a, b := OptNode(t, env, ml).exb, OptNode(t, ZERO, false).exb;
    QuantReachSame(a, b, q.lower);
    if Reaches(a) { CopiedSame(a, b, a, b, 2, q.lower); }
  }

  // ----- the tree, item by item -----

  /** A look-around takes nothing; a positive look-ahead passes on what its target has to contain. */
  lemma LookSound(k: LookKind, o: Opt, env: Mml, x: Subject, s0: nat, s: nat, e: nat)
    requires s0 <= s && InMml(env, s - s0) && (k.PrecRead? ==> OptOk(o, Span(x, s0, s, e)))
    ensures OptOk(OptLook(k, o, env), Span(x, s0, s, s))
  {
    var p, p' := Span(x, s0, s, e), Span(x, s0, s, s);
    if k.PrecRead? {
      if Len(o.exb) > 0 {
        assert LiteralAt(o.exb.(reachEnd := false), p', s);
      } else if Len(o.exm) > 0 {
        var i: nat :| LiteralAt(o.exm, p, i);
        assert LiteralAt(o.exm.(reachEnd := false), p', i);
      }
      MapMoves(o.byteMap, p, p');
    }
  }

  /** Every match has what optimize_node_left says it has. */
  lemma {:induction false} OptSound(n: Node, env: Mml, ml: bool, x: Subject, cfg: Cfg, s0: nat, s: nat, e: nat)
    requires Formed(n) && Ready(n) && Searchable(n) && s0 <= s <= |x.text| <= INT_MAX && InMml(env, s - s0)
             && e in Ends(n, ml, x, cfg, s)
    ensures OptOk(OptNode(n, env, ml), Span(x, s0, s, e))
    decreases n, 1
  {
    hide OptOk, InMml, OptQuant, OptLook, EndsRep, EndsSimple, Overreaches;
    match n
    case List(ns) =>
      BoundOk(env, x, s0, s);
      ListSound(ns, Bound(env), env, ml, x, cfg, s0, s, s, e);
    case Alt(ns) => AltNodeSound(ns, env, ml, x, cfg, s0, s, e);
    case Quant(t, q) =>
      OverreachesSame(t, q, env, ml);
      QuantSound(t, q, env, ml, x, cfg, s0, s, e);
      EndingSame(OptQuant(t, q, OptNode(t, env, ml), env, ml));
    case Group(_, b) => OptSound(b, env, ml, x, cfg, s0, s, e);
    case OptionNode(ml', b) => OptSound(b, env, ml', x, cfg, s0, s, e);
    case Atomic(simple, b) =>
      if simple {
        SimpleSound(b, env, ml, x, cfg, s0, s, e);
      } else {
        OptSound(b, env, ml, x, cfg, s0, s, e);
      }
    case Look(k, len, b) =>
      LookEnds(k, len, b, ml, x, cfg, s, e);
      if k.PrecRead? {
        var m := Ends(b, ml, x, cfg, s)[0];
        OptSound(b, env, ml, x, cfg, s0, s, m);
        LookSound(k, OptNode(b, env, ml), env, x, s0, s, m);
      } else {
        LookSound(k, OptNode(b, env, ml), env, x, s0, s, s);
      }
    case _ => LeafSound(n, env, ml, x, cfg, s0, s, e);
  }

  lemma LookEnds(k: LookKind, len: nat, b: Node, ml: bool, x: Subject, cfg: Cfg, s: nat, e: nat)
    requires Formed(Look(k, len, b)) && Ready(Look(k, len, b)) && s <= |x.text| <= INT_MAX
    requires e in Ends(Look(k, len, b), ml, x, cfg, s)
    ensures e == s && Formed(b) && Ready(b) && (k.PrecRead? ==> Ends(b, ml, x, cfg, s) != [])
  {
    hide CharLenTree, Lengths.MinLen, EndsRep, EndsSimple, EndsList, EndsAlt;
    if k.LookBehind? && s >= len { CharLenSound(b, true, ml, x, cfg, s - len); }
  }

  lemma SimpleSound(b: Node, env: Mml, ml: bool, x: Subject, cfg: Cfg, s0: nat, s: nat, e: nat)
    requires b.Quant? && Formed(b.target) && Formed(b) && IsSimple(b.target) && b.q.greedy && Infinite(b.q.upper)
    requires b.q.lower <= MAX_REPEAT_NUM
    requires s0 <= s <= |x.text| <= INT_MAX && InMml(env, s - s0)
             && e in EndsSimple(b.target, b.q.lower, ml, x, cfg, 0, s)
    ensures OptOk(OptNode(b, env, ml), Span(x, s0, s, e))
    decreases b, 0
  {
    hide OptOk, InMml, EndsRep, EndsSimple;
    var q := b.q.(headExact := None, nextHead := None);
    SimpleIn(b.target, q, ml, x, cfg, 0, s, e);
    QuantSound(b.target, q, env, ml, x, cfg, s0, s, e);
    EndingSame(OptQuant(b.target, q, OptNode(b.target, env, ml), env, ml));
  }

  lemma {:induction false} QuantSound(t: Node, q: Rep, env: Mml, ml: bool, x: Subject, cfg: Cfg, s0: nat, s: nat,
                                      e: nat)
    requires Formed(t) && RepOk(q) && Ready(t) && Searchable(t) && q.lower <= MAX_REPEAT_NUM
    requires s0 <= s <= |x.text| <= INT_MAX && InMml(env, s - s0) && e in EndsRep(t, q, ml, x, cfg, 0, s)
    ensures var b := OptNode(t, env, ml);
            OptOk(Ending(OptQuant(t, q, b, env, ml), !Overreaches(b.exb, q)), Span(x, s0, s, e))
    decreases t, 2
  {
    hide Formed, Ready, Searchable, OptNode, OptQuant, Ends, EndsRep, Overreaches;
    var b := OptNode(t, env, ml);
    forall i: nat, m: nat | s <= i <= |x.text| && m in Ends(t, ml, x, cfg, i)
      ensures SpanOk(b.len, i, m) && (b.exb.reachEnd ==> m == i + |b.exb.s| && HasAt(x, i, b.exb.s))
    {
      OptSound(t, env, ml, x, cfg, i - (s - s0), i, m);
    }
    var m := 0;
    if q.lower > 0 {
      m := FirstRun(t, q, ml, x, cfg, s, e);
      OptSound(t, env, ml, x, cfg, s0, s, m);
    }
    hide OptOk;
    QuantOk(t, q, b, env, ml, x, cfg, s0, s, m, e);
  }

  /** The items from ns on, when those before took the match from s to m. */
  lemma {:induction false} ListSound(ns: Nodes, a: Opt, env: Mml, ml: bool, x: Subject, cfg: Cfg, s0: nat, s: nat,
                                     m: nat, e: nat)
    requires AllFormed(ns) && AllReady(ns) && AllSearchable(ns) && s0 <= s <= m <= |x.text| <= INT_MAX
    requires OptOk(a, Span(x, s0, s, m)) && InMml(env, m - s0) && e in EndsList(ns, ml, x, cfg, m)
    ensures OptOk(OptList(ns, a, env, ml), Span(x, s0, s, e))
    decreases ns, 0
  {
    hide Formed, Ready, Searchable, OptNode, Ends, ConcatLeft, OptOk, InMml;
    var b := OptNode(ns.left, env, ml);
    match ns
    case Last(n) =>
      OptSound(n, env, ml, x, cfg, s0, m, e);
      ConcatSound(a, b, Span(x, s0, s, m), Span(x, s0, m, e));
    case Cons(n, rest) =>
      var i := FromSome(rest, ml, x, cfg, Ends(n, ml, x, cfg, m), e);
      OptSound(n, env, ml, x, cfg, s0, m, i);
      ConcatSound(a, b, Span(x, s0, s, m), Span(x, s0, m, i));
      SpanLen(b, x, s0, m, i);
      AddIn(env, b.len, m - s0, i - m);
      ListSound(rest, ConcatLeft(a, b), AddMml(env, b.len), ml, x, cfg, s0, s, i, e);
  }

  lemma SpanLen(b: Opt, x: Subject, s0: nat, s: nat, e: nat)
    requires OptOk(b, Span(x, s0, s, e))
    ensures s <= e && InMml(b.len, e - s)
  {
  }

  lemma {:induction false} AltNodeSound(ns: Nodes, env: Mml, ml: bool, x: Subject, cfg: Cfg, s0: nat, s: nat, e: nat)
    requires AllFormed(ns) && AllReady(ns) && AllSearchable(ns) && s0 <= s <= |x.text| <= INT_MAX && InMml(env, s - s0)
    requires e in EndsAlt(ns, ml, x, cfg, s)
    ensures OptOk(OptAlt(ns, env, ml), Span(x, s0, s, e))
    decreases ns, 0
  {
    hide Formed, Ready, Searchable, OptNode, Ends, OptOk, InMml, OptAltFrom;
    var n := ns.left;
    var first := e in Ends(n, ml, x, cfg, s);
    if first { OptSound(n, env, ml, x, cfg, s0, s, e); }
    if ns.Cons? { AltFromSound(ns.right, OptNode(n, env, ml), env, ml, x, cfg, s0, s, e); }
  }

  lemma {:induction false} AltFromSound(ns: Nodes, a: Opt, env: Mml, ml: bool, x: Subject, cfg: Cfg, s0: nat, s: nat,
                                        e: nat)
    requires AllFormed(ns) && AllReady(ns) && AllSearchable(ns) && s0 <= s <= |x.text| <= INT_MAX && InMml(env, s - s0)
    requires OptOk(a, Span(x, s0, s, e)) || e in EndsAlt(ns, ml, x, cfg, s)
    ensures OptOk(OptAltFrom(ns, a, env, ml), Span(x, s0, s, e))
    decreases ns, 0
  {
    hide Formed, Ready, Searchable, OptNode, Ends, OptOk, InMml, AltMerge;
    var n := ns.left;
    var o := OptNode(n, env, ml);
    if e in Ends(n, ml, x, cfg, s) { OptSound(n, env, ml, x, cfg, s0, s, e); }
    if OptOk(a, Span(x, s0, s, e)) || OptOk(o, Span(x, s0, s, e)) { AltSound(a, o, Span(x, s0, s, e)); }
    if ns.Cons? { AltFromSound(ns.right, AltMerge(a, o), env, ml, x, cfg, s0, s, e); }
  }
}
