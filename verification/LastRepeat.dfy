/** A repeat whose literal overreaches spoils only what is built on the literal's end. Where nothing follows the
    repeat, the rest of the analysis is right, and the rest is all that a search uses. */
module LastRepeat {
  import opened Regint
  import opened Regparse
  import opened Regcomp
  import opened Machine
  import opened Meaning
  import opened Lengths
  import opened Optimize
  import opened OptimizeSound

  function Off(e: Exact): Exact { e.(reachEnd := false) }

  /** The information without what it says of ends. */
  function Drop(o: Opt): Opt { o.(exb := Off(o.exb), exm := Off(o.exm)) }

  lemma DropOk(o: Opt, p: Span)
    requires OptOk(o, p)
    ensures OptOk(Drop(o), p)
  {
    if o.exm.s != [] {
      var i: nat :| LiteralAt(o.exm, p, i);
      assert LiteralAt(Off(o.exm), p, i);
    }
  }

  lemma SelectOff(a: Exact, b: Exact)
    ensures SelectExact(Off(a), Off(b)) == Off(SelectExact(a, b))
  {
  }

  lemma SelectSame(a: Exact, a': Exact, b: Exact, b': Exact)
    requires Off(a) == Off(a') && Off(b) == Off(b')
    ensures Off(SelectExact(a, b)) == Off(SelectExact(a', b'))
  {
    hide SelectExact;
    SelectOff(a, b);
    SelectOff(a', b');
  }

  // The parts of ConcatItems.

  function KeptExb(a: Opt, b: Opt): Exact {
    if Len(b.exb) > 0 && a.exb.reachEnd then ConcatExact(a.exb, b.exb)
    else a.exb.(reachEnd := a.exb.reachEnd && b.len.max == 0)
  }

  function JoinedExm(a: Opt, b: Opt): Exact {
    if Len(b.exb) > 0 && !a.exb.reachEnd && a.exm.reachEnd then ConcatExact(a.exm, b.exb)
    else a.exm.(reachEnd := a.exm.reachEnd && b.len.max == 0)
  }

  function OwnExb(a: Opt, b: Opt): Exact {
    if Len(b.exb) > 0 && (a.exb.reachEnd || a.exm.reachEnd) then NO_EXACT else b.exb
  }

  lemma ItemsAre(a: Opt, b: Opt)
    ensures var c := ConcatItems(a, b);
            && c.exb == KeptExb(a, b) && c.exm == SelectExact(SelectExact(JoinedExm(a, b), OwnExb(a, b)), b.exm)
            && c.len == AddMml(a.len, b.len) && c.expr == a.expr && c.byteMap == SelectMap(a.byteMap, b.byteMap)
            && c.star == (a.star || (a.len.max == 0 && b.star))
            && c.starMl == (a.starMl || (a.len.max == 0 && b.starMl))
  {
    hide SelectExact, SelectMap, AddMml, ConcatExact;
  }

  lemma PartsSame(a: Opt, b: Opt)
    ensures var d := Drop(b);
            && Off(KeptExb(a, d)) == Off(KeptExb(a, b)) && Off(JoinedExm(a, d)) == Off(JoinedExm(a, b))
            && Off(OwnExb(a, d)) == Off(OwnExb(a, b)) && Off(d.exm) == Off(b.exm)
            && d.len == b.len && d.expr == b.expr && d.byteMap == b.byteMap && d.star == b.star && d.starMl == b.starMl
  {
  }

  lemma DropItems(a: Opt, b: Opt)
    ensures Drop(ConcatItems(a, Drop(b))) == Drop(ConcatItems(a, b))
  {
    ItemsAre(a, b);
    ItemsAre(a, Drop(b));
    PartsSame(a, b);
    SelectSame(JoinedExm(a, Drop(b)), JoinedExm(a, b), OwnExb(a, Drop(b)), OwnExb(a, b));
    SelectSame(SelectExact(JoinedExm(a, Drop(b)), OwnExb(a, Drop(b))), SelectExact(JoinedExm(a, b), OwnExb(a, b)),
               Drop(b).exm, b.exm);
    hide SelectExact, SelectMap, ConcatItems, AddMml, KeptExb, JoinedExm, OwnExb;
  }

  /** Ends of the last item matter to nobody. */
  lemma DropConcat(a: Opt, b: Opt)
    ensures Drop(ConcatLeft(a, Drop(b))) == Drop(ConcatLeft(a, b))
  {
    hide ConcatItems, SelectExact, Cut;
    var c, d := ConcatItems(a, b), ConcatItems(a, Drop(b));
    DropItems(a, b);
    var cut := Cut(a.expr, b.len.max);
    SelectSame(d.exb, c.exb, cut, cut);
    SelectSame(d.exm, c.exm, cut, cut);
  }

  lemma DropMerge(a: Opt, b: Opt)
    ensures Drop(AltMerge(Drop(a), Drop(b))) == Drop(AltMerge(a, b))
  {
  }

  // ----- trees with an overreaching repeat at the end -----

  /** Searchable, but for repeats with nothing behind them. */
  predicate Trailing(n: Node) {
    match n
    case List(ns) => LastTrailing(ns)
    case Alt(ns) => AllTrailing(ns)
    case Quant(t, q) => Searchable(t) && q.lower <= MAX_REPEAT_NUM
    case Group(_, b) => Trailing(b)
    case OptionNode(_, b) => Trailing(b)
    case Atomic(simple, b) => if simple then Searchable(n) else Trailing(b)
    case _ => Searchable(n)
  }

  predicate LastTrailing(ns: Nodes) {
    match ns
    case Last(n) => Trailing(n)
    case Cons(n, rest) => Searchable(n) && LastTrailing(rest)
  }

  predicate AllTrailing(ns: Nodes) {
    match ns
    case Last(n) => Trailing(n)
    case Cons(n, rest) => Trailing(n) && AllTrailing(rest)
  }

  lemma {:induction false} SearchableTrails(n: Node)
    requires Searchable(n)
    ensures Trailing(n)
  {
    match n
    case List(ns) => ListTrails(ns);
    case Alt(ns) => AltTrails(ns);
    case Group(_, b) => SearchableTrails(b);
    case OptionNode(_, b) => SearchableTrails(b);
    case Atomic(simple, b) => if !simple { SearchableTrails(b); }
    case _ =>
  }

  lemma {:induction false} ListTrails(ns: Nodes)
    requires AllSearchable(ns)
    ensures LastTrailing(ns)
  {
    if ns.Cons? { ListTrails(ns.right); } else { SearchableTrails(ns.left); }
  }

  lemma {:induction false} AltTrails(ns: Nodes)
    requires AllSearchable(ns)
    ensures AllTrailing(ns)
  {
    SearchableTrails(ns.left);
    if ns.Cons? { AltTrails(ns.right); }
  }

  /** Every match has what the analysis says, ends of literals apart. */
  lemma {:induction false} TrailSound(n: Node, env: Mml, ml: bool, x: Subject, cfg: Cfg, s0: nat, s: nat, e: nat)
    requires Formed(n) && Ready(n) && Trailing(n) && s0 <= s <= |x.text| <= INT_MAX && InMml(env, s - s0)
             && e in Ends(n, ml, x, cfg, s)
    ensures OptOk(Drop(OptNode(n, env, ml)), Span(x, s0, s, e))
    decreases n, 1
  {
    hide OptOk, InMml, OptQuant, OptLook, EndsRep, EndsSimple, Drop;
    match n
    case List(ns) =>
      BoundOk(env, x, s0, s);
      TrailList(ns, Bound(env), env, ml, x, cfg, s0, s, s, e);
    case Alt(ns) => TrailAlt(ns, env, ml, x, cfg, s0, s, e);
    case Quant(t, q) => TrailQuant(t, q, env, ml, x, cfg, s0, s, e);
    case Group(_, b) => TrailSound(b, env, ml, x, cfg, s0, s, e);
    case OptionNode(ml', b) => TrailSound(b, env, ml', x, cfg, s0, s, e);
    case Atomic(simple, b) =>
      if simple { WholeSound(n, env, ml, x, cfg, s0, s, e); } else { TrailSound(b, env, ml, x, cfg, s0, s, e); }
    case _ => WholeSound(n, env, ml, x, cfg, s0, s, e);
  }

  lemma WholeSound(n: Node, env: Mml, ml: bool, x: Subject, cfg: Cfg, s0: nat, s: nat, e: nat)
    requires Formed(n) && Ready(n) && Searchable(n) && s0 <= s <= |x.text| <= INT_MAX && InMml(env, s - s0)
             && e in Ends(n, ml, x, cfg, s)
    ensures OptOk(Drop(OptNode(n, env, ml)), Span(x, s0, s, e))
    decreases n, 0
  {
    hide OptNode, Ends, Formed, Ready, Searchable, OptOk, InMml, Drop;
    OptSound(n, env, ml, x, cfg, s0, s, e);
    DropOk(OptNode(n, env, ml), Span(x, s0, s, e));
  }

  lemma TrailQuant(t: Node, q: Rep, env: Mml, ml: bool, x: Subject, cfg: Cfg, s0: nat, s: nat, e: nat)
    requires Formed(t) && RepOk(q) && Ready(t) && Searchable(t) && q.lower <= MAX_REPEAT_NUM
    requires s0 <= s <= |x.text| <= INT_MAX && InMml(env, s - s0) && e in EndsRep(t, q, ml, x, cfg, 0, s)
    ensures OptOk(Drop(OptQuant(t, q, OptNode(t, env, ml), env, ml)), Span(x, s0, s, e))
  {
    hide OptNode, OptQuant, EndsRep, Formed, Ready, Searchable, OptOk, InMml, Overreaches;
    QuantSound(t, q, env, ml, x, cfg, s0, s, e);
    var b := OptNode(t, env, ml);
    DropOk(Ending(OptQuant(t, q, b, env, ml), !Overreaches(b.exb, q)), Span(x, s0, s, e));
  }

  lemma {:induction false} TrailList(ns: Nodes, a: Opt, env: Mml, ml: bool, x: Subject, cfg: Cfg, s0: nat, s: nat,
                                     m: nat, e: nat)
    requires AllFormed(ns) && AllReady(ns) && LastTrailing(ns) && s0 <= s <= m <= |x.text| <= INT_MAX
    requires OptOk(a, Span(x, s0, s, m)) && InMml(env, m - s0) && e in EndsList(ns, ml, x, cfg, m)
    ensures OptOk(Drop(OptList(ns, a, env, ml)), Span(x, s0, s, e))
    decreases ns, 0
  {
    hide Formed, Ready, Searchable, Trailing, OptNode, Ends, ConcatLeft, OptOk, InMml, Drop;
    var b := OptNode(ns.left, env, ml);
    match ns
    case Last(n) =>
      TrailSound(n, env, ml, x, cfg, s0, m, e);
      ConcatSound(a, Drop(b), Span(x, s0, s, m), Span(x, s0, m, e));
      DropOk(ConcatLeft(a, Drop(b)), Span(x, s0, s, e));
      DropConcat(a, b);
    case Cons(n, rest) =>
      var i := FromSome(rest, ml, x, cfg, Ends(n, ml, x, cfg, m), e);
      OptSound(n, env, ml, x, cfg, s0, m, i);
      ConcatSound(a, b, Span(x, s0, s, m), Span(x, s0, m, i));
      SpanLen(b, x, s0, m, i);
      AddIn(env, b.len, m - s0, i - m);
      TrailList(rest, ConcatLeft(a, b), AddMml(env, b.len), ml, x, cfg, s0, s, i, e);
  }

  lemma {:induction false} TrailAlt(ns: Nodes, env: Mml, ml: bool, x: Subject, cfg: Cfg, s0: nat, s: nat, e: nat)
    requires AllFormed(ns) && AllReady(ns) && AllTrailing(ns) && s0 <= s <= |x.text| <= INT_MAX && InMml(env, s - s0)
    requires e in EndsAlt(ns, ml, x, cfg, s)
    ensures OptOk(Drop(OptAlt(ns, env, ml)), Span(x, s0, s, e))
    decreases ns, 0
  {
    hide Formed, Ready, Trailing, OptNode, Ends, OptOk, InMml, OptAltFrom, Drop;
    var n := ns.left;
    if e in Ends(n, ml, x, cfg, s) { TrailSound(n, env, ml, x, cfg, s0, s, e); }
    if ns.Cons? { TrailAltFrom(ns.right, OptNode(n, env, ml), env, ml, x, cfg, s0, s, e); }
  }

  lemma {:induction false} TrailAltFrom(ns: Nodes, a: Opt, env: Mml, ml: bool, x: Subject, cfg: Cfg, s0: nat, s: nat,
                                        e: nat)
    requires AllFormed(ns) && AllReady(ns) && AllTrailing(ns) && s0 <= s <= |x.text| <= INT_MAX && InMml(env, s - s0)
    requires OptOk(Drop(a), Span(x, s0, s, e)) || e in EndsAlt(ns, ml, x, cfg, s)
    ensures OptOk(Drop(OptAltFrom(ns, a, env, ml)), Span(x, s0, s, e))
    decreases ns, 0
  {
    hide Formed, Ready, Trailing, OptNode, Ends, OptOk, InMml, AltMerge, Drop;
    var n, p := ns.left, Span(x, s0, s, e);
    var o := OptNode(n, env, ml);
    if e in Ends(n, ml, x, cfg, s) { TrailSound(n, env, ml, x, cfg, s0, s, e); }
    if OptOk(Drop(a), p) || OptOk(Drop(o), p) {
      AltSound(Drop(a), Drop(o), p);
      DropOk(AltMerge(Drop(a), Drop(o)), p);
      DropMerge(a, o);
    }
    if ns.Cons? { TrailAltFrom(ns.right, AltMerge(a, o), env, ml, x, cfg, s0, s, e); }
  }
}
