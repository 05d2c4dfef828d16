/** The lengths computed at compile time say no more than they have to: where get_char_length_tree1 gives up
    there are matches of different lengths, and get_min_match_length is the length of some match. */
module LengthsExact {
  import opened Regint
  import opened Regparse
  import opened Regcomp
  import opened Machine
  import opened Meaning
  import opened Lengths
  import opened LengthSound
  import opened OptimizeSound
  import opened Reduction
  import opened ReductionMeaning
  import opened Declared

  // ----- words a tree matches wherever they stand -----

  ghost predicate Spelled(n: Node, ml: bool, w: seq<byte>) {
    forall x: Subject, s: nat :: HasAt(x, s, w) ==> s <= |x.text| && Matches(n, ml, x, s, s + |w|)
  }

  ghost predicate SpelledAll(ns: Nodes, ml: bool, w: seq<byte>) {
    forall x: Subject, s: nat :: HasAt(x, s, w) ==> s <= |x.text| && MatchesAll(ns, ml, x, s, s + |w|)
  }

  ghost predicate SpelledOne(ns: Nodes, ml: bool, w: seq<byte>) {
    forall x: Subject, s: nat :: HasAt(x, s, w) ==> s <= |x.text| && MatchesOne(ns, ml, x, s, s + |w|)
  }

  lemma HasBoth(x: Subject, s: nat, u: seq<byte>, v: seq<byte>)
    requires HasAt(x, s, u + v)
    ensures HasAt(x, s, u) && HasAt(x, s + |u|, v)
  {
    var all := x.text[s..s + |u + v|];
    assert all[..|u|] == u && all[|u|..] == v;
    assert all[..|u|] == x.text[s..s + |u|] && all[|u|..] == x.text[s + |u|..s + |u| + |v|];
  }

  lemma SpellCons(n: Node, rest: Nodes, ml: bool, u: seq<byte>, v: seq<byte>)
    requires Spelled(n, ml, u) && SpelledAll(rest, ml, v)
    ensures SpelledAll(Cons(n, rest), ml, u + v)
  {
    hide Matches;
    forall x: Subject, s: nat | HasAt(x, s, u + v)
      ensures s <= |x.text| && MatchesAll(Cons(n, rest), ml, x, s, s + |u + v|)
    {
      HasBoth(x, s, u, v);
      assert Matches(n, ml, x, s, s + |u|) && MatchesAll(rest, ml, x, s + |u|, s + |u| + |v|);
    }
  }

  /** k rounds of a word. */
  lemma {:induction false} TimesPath(t: Node, ml: bool, w: seq<byte>, k: nat, x: Subject, s: nat)
    requires Spelled(t, ml, w) && HasAt(x, s, Times(w, k))
    ensures Path(Language(t, ml, x), k, s, s + |Times(w, k)|)
    decreases k
  {
    hide Matches;
    if k > 0 {
      HasBoth(x, s, w, Times(w, k - 1));
      TimesPath(t, ml, w, k - 1, x, s + |w|);
      assert (s, s + |w|) in Language(t, ml, x);
      StepFirst(Language(t, ml, x), k, s, s + |w|, s + |Times(w, k)|);
    }
  }

  lemma SpellTimes(t: Node, q: Rep, ml: bool, w: seq<byte>, k: nat)
    requires Spelled(t, ml, w) && InBounds(q.lower, q.upper, k)
    ensures Spelled(Quant(t, q), ml, Times(w, k))
  {
    hide Spelled;
    var v := Times(w, k);
    forall x: Subject, s: nat | HasAt(x, s, v) ensures s <= |x.text| && Matches(Quant(t, q), ml, x, s, s + |v|) {
      TimesPath(t, ml, w, k, x, s);
      InRep(Language(t, ml, x), q.lower, q.upper, k, s, s + |v|);
      QuantMatch(t, q, ml, x, s, s + |v|);
    }
    SpelledIf(Quant(t, q), ml, v);
  }

  lemma SpelledIf(n: Node, ml: bool, w: seq<byte>)
    requires forall x: Subject, s: nat :: HasAt(x, s, w) ==> s <= |x.text| && Matches(n, ml, x, s, s + |w|)
    ensures Spelled(n, ml, w)
  {
    hide Matches;
  }

  lemma {:induction false} TimesLength(w: seq<byte>, k: nat)
    ensures |Times(w, k)| == |w| * k
  {
    if k > 0 {
      TimesLength(w, k - 1);
      assert |w| * k == |w| + |w| * (k - 1);
    }
  }

  // ----- trees in which every part can match -----

  /** No atomic group, anchor or look-around, and every class takes some byte. */
  predicate Live(n: Node) {
    match n
    case CClass(bs, neg, _, _) => exists b: byte :: (b in bs) != neg
    case List(ns) => AllLive(ns)
    case Alt(ns) => AllLive(ns)
    case Quant(t, _) => Live(t)
    case Group(_, b) => Live(b)
    case OptionNode(_, b) => Live(b)
    case Atomic(_, _) => false
    case Anchor(_) => false
    case Look(_, _, _) => false
    case _ => true
  }

  predicate AllLive(ns: Nodes) {
    match ns
    case Last(n) => Live(n)
    case Cons(n, rest) => Live(n) && AllLive(rest)
  }

  lemma OneByte(n: Node, ml: bool) returns (w: seq<byte>)
    requires Live(n) && (n.CClass? || n.CType? || n.AnyChar?)
    ensures Spelled(n, ml, w) && |w| == 1
  {
    var b: byte;
    match n {
      case CClass(bs, neg, _, _) => b :| (b in bs) != neg;
      case CType(not) => b := if not then 0 else 0x61;
      case AnyChar => b := 0x61;
    }
    w := [b];
    forall x: Subject, s: nat | HasAt(x, s, w) ensures s <= |x.text| && Matches(n, ml, x, s, s + 1) {
      assert x.text[s..s + 1][0] == x.text[s];
    }
  }

  // ----- the character length -----

  /** Nothing saturates, no repeat is of nothing, and none has upper bound 0. */
  predicate Telling(n: Node) {
    && CharLenTree(n, false) != Fixed(INFINITE_DISTANCE)
    && match n
       case List(ns) => AllTelling(ns)
       case Alt(ns) => EachTelling(ns)
       case Quant(t, q) => Telling(t) && q.upper != 0 && (q.lower != q.upper ==> CharLenTree(t, false) != Fixed(0))
       case Group(_, b) => Telling(b)
       case OptionNode(_, b) => Telling(b)
       case _ => true
  }

  predicate AllTelling(ns: Nodes) {
    && CharLenList(ns) != Fixed(INFINITE_DISTANCE) && Telling(ns.left) && (ns.Cons? ==> AllTelling(ns.right))
  }

  predicate EachTelling(ns: Nodes) { Telling(ns.left) && (ns.Cons? ==> EachTelling(ns.right)) }

  /** The length of a word is the computed one. */
  predicate Measures(c: CharLen, w: seq<byte>) { c.Fixed? ==> |w| == c.len }

  /** A word of the tree; of the computed length, if there is one. */
  lemma {:induction false} WordOf(n: Node, ml: bool) returns (w: seq<byte>)
    requires Formed(n) && Live(n) && Telling(n)
    ensures Spelled(n, ml, w) && Measures(CharLenTree(n, false), w)
    decreases n, 1
  {
    hide Spelled;
    match n {
      case Str(s) =>
        w := s;
        SpelledIf(n, ml, w);
      case List(ns) =>
        w := WordOfList(ns, ml);
        ListSpelled(ns, ml, w);
      case Alt(ns) => w := WordOfAlt(ns, ml);
      case Quant(t, q) =>
        var v := WordOf(t, ml);
        w := Times(v, q.lower);
        SpellTimes(t, q, ml, v, q.lower);
        TimesLength(v, q.lower);
      case Group(k, b) =>
        w := WordOf(b, ml);
        BodySpelled(n, b, ml, ml, w);
      case OptionNode(ml', b) =>
        w := WordOf(b, ml');
        BodySpelled(n, b, ml, ml', w);
      case _ => w := OneByte(n, ml);
    }
  }

  lemma BodySpelled(n: Node, b: Node, ml: bool, ml': bool, w: seq<byte>)
    requires Spelled(b, ml', w) && ((n.Group? && ml' == ml) || (n.OptionNode? && ml' == n.ml)) && n.body == b
    ensures Spelled(n, ml, w)
  {
    forall x: Subject, s: nat | HasAt(x, s, w) ensures s <= |x.text| && Matches(n, ml, x, s, s + |w|) {
      assert Matches(b, ml', x, s, s + |w|);
    }
  }

  lemma ListSpelled(ns: Nodes, ml: bool, w: seq<byte>)
    requires SpelledAll(ns, ml, w)
    ensures Spelled(List(ns), ml, w)
  {
    hide MatchesAll;
  }

  lemma {:induction false} WordOfList(ns: Nodes, ml: bool) returns (w: seq<byte>)
    requires AllFormed(ns) && AllLive(ns) && AllTelling(ns)
    ensures SpelledAll(ns, ml, w) && Measures(CharLenList(ns), w)
    decreases ns, 0
  {
    hide Spelled, SpelledAll, Formed, Live, Telling;
    w := WordOf(ns.left, ml);
    if ns.Last? {
      LastSpelled(ns.left, ml, w);
    } else {
      var v := WordOfList(ns.right, ml);
      SpellCons(ns.left, ns.right, ml, w, v);
      w := w + v;
    }
  }

  lemma LastSpelled(n: Node, ml: bool, w: seq<byte>)
    requires Spelled(n, ml, w)
    ensures SpelledAll(Last(n), ml, w) && SpelledOne(Last(n), ml, w)
  {
    hide Matches;
  }

  /** Any alternative's word will do. */
  lemma AltSpelled(ns: Nodes, ml: bool, w: seq<byte>)
    requires SpelledOne(ns, ml, w)
    ensures Spelled(Alt(ns), ml, w)
  {
    hide MatchesOne;
  }

  lemma FirstSpelled(ns: Nodes, ml: bool, w: seq<byte>)
    requires Spelled(ns.left, ml, w)
    ensures SpelledOne(ns, ml, w)
  {
    hide Matches;
  }

  lemma RestSpelled(n: Node, rest: Nodes, ml: bool, w: seq<byte>)
    requires SpelledOne(rest, ml, w)
    ensures SpelledOne(Cons(n, rest), ml, w)
  {
    hide Matches;
  }

  lemma WordOfAlt(ns: Nodes, ml: bool) returns (w: seq<byte>)
    requires AllFormed(ns) && AllLive(ns) && EachTelling(ns)
    ensures Spelled(Alt(ns), ml, w) && Measures(CharLenTree(Alt(ns), false), w)
    decreases ns, 0
  {
    hide Spelled, SpelledOne, Formed, Live, Telling;
    w := WordOf(ns.left, ml);
    FirstSpelled(ns, ml, w);
    AltSpelled(ns, ml, w);
    FirstLength(ns);
  }

  lemma FirstLength(ns: Nodes)
    ensures CharLenAlt(ns).SameLen? ==> CharLenTree(ns.left, false) == Fixed(CharLenAlt(ns).len)
  {
  }

  /** Two words of different lengths. */
  ghost predicate Differs(n: Node, ml: bool, u: seq<byte>, v: seq<byte>) {
    Spelled(n, ml, u) && Spelled(n, ml, v) && |u| != |v|
  }

  /** Where no length is found there are two. */
  lemma {:induction false} TwoLengths(n: Node, ml: bool) returns (u: seq<byte>, v: seq<byte>)
    requires Formed(n) && Live(n) && Telling(n) && !CharLenTree(n, false).Fixed?
    ensures Differs(n, ml, u, v)
    decreases n, 1
  {
    hide Spelled;
    match n {
      case List(ns) =>
        u, v := TwoOfList(ns, ml);
        ListSpelled(ns, ml, u);
        ListSpelled(ns, ml, v);
      case Alt(ns) =>
        u, v := TwoOfAlt(ns, ml);
        AltSpelled(ns, ml, u);
        AltSpelled(ns, ml, v);
      case Quant(t, q) => u, v := TwoOfQuant(t, q, ml);
      case Group(_, b) =>
        u, v := TwoLengths(b, ml);
        BodySpelled(n, b, ml, ml, u);
        BodySpelled(n, b, ml, ml, v);
      case OptionNode(ml', b) =>
        u, v := TwoLengths(b, ml');
        BodySpelled(n, b, ml, ml', u);
        BodySpelled(n, b, ml, ml', v);
      case _ =>
    }
  }

  lemma TwoOfQuant(t: Node, q: Rep, ml: bool) returns (u: seq<byte>, v: seq<byte>)
    requires Formed(t) && RepOk(q) && Live(t) && Telling(t) && q.upper != 0
    requires if q.lower == q.upper then !CharLenTree(t, false).Fixed? else CharLenTree(t, false) != Fixed(0)
    ensures Differs(Quant(t, q), ml, u, v)
    decreases t, 3
  {
    hide Spelled, Formed, Live, Telling;
    if q.lower == q.upper {
      var a, b := TwoLengths(t, ml);
      u, v := Times(a, q.lower), Times(b, q.lower);
      SpellTimes(t, q, ml, a, q.lower);
      SpellTimes(t, q, ml, b, q.lower);
      TimesLength(a, q.lower);
      TimesLength(b, q.lower);
      TimesDiffer(|a|, |b|, q.lower);
    } else {
      var w := SomeBytes(t, ml);
      u, v := Times(w, q.lower), Times(w, q.lower + 1);
      SpellTimes(t, q, ml, w, q.lower);
      SpellTimes(t, q, ml, w, q.lower + 1);
    }
  }

  lemma TimesDiffer(a: nat, b: nat, n: nat)
    requires a != b && n > 0
    ensures a * n != b * n
  {
  }

  /** A word that is not empty. */
  lemma SomeBytes(t: Node, ml: bool) returns (w: seq<byte>)
    requires Formed(t) && Live(t) && Telling(t) && CharLenTree(t, false) != Fixed(0)
    ensures Spelled(t, ml, w) && w != []
    decreases t, 2
  {
    hide Spelled, Formed, Live, Telling;
    if CharLenTree(t, false).Fixed? {
      w := WordOf(t, ml);
    } else {
      var u, v := TwoLengths(t, ml);
      w := if u == [] then v else u;
    }
  }

  lemma {:induction false} TwoOfList(ns: Nodes, ml: bool) returns (u: seq<byte>, v: seq<byte>)
    requires AllFormed(ns) && AllLive(ns) && AllTelling(ns) && !CharLenList(ns).Fixed?
    ensures SpelledAll(ns, ml, u) && SpelledAll(ns, ml, v) && |u| != |v|
    decreases ns, 0
  {
    hide Spelled, SpelledAll, Formed, Live, Telling;
    var n := ns.left;
    if ns.Last? {
      u, v := TwoLengths(n, ml);
      LastSpelled(n, ml, u);
      LastSpelled(n, ml, v);
    } else if CharLenTree(n, false).Fixed? {
      var w := WordOf(n, ml);
      u, v := TwoOfList(ns.right, ml);
      SpellCons(n, ns.right, ml, w, u);
      SpellCons(n, ns.right, ml, w, v);
      u, v := w + u, w + v;
    } else {
      var w := WordOfList(ns.right, ml);
      u, v := TwoLengths(n, ml);
      SpellCons(n, ns.right, ml, u, w);
      SpellCons(n, ns.right, ml, v, w);
      u, v := u + w, v + w;
    }
  }

  lemma {:induction false} TwoOfAlt(ns: Nodes, ml: bool) returns (u: seq<byte>, v: seq<byte>)
    requires AllFormed(ns) && AllLive(ns) && EachTelling(ns) && !CharLenAlt(ns).SameLen?
    ensures SpelledOne(ns, ml, u) && SpelledOne(ns, ml, v) && |u| != |v|
    decreases ns, 0
  {
    hide Spelled, SpelledOne, Formed, Live, Telling;
    var n := ns.left;
    if !CharLenTree(n, false).Fixed? {
      u, v := TwoLengths(n, ml);
      FirstSpelled(ns, ml, u);
      FirstSpelled(ns, ml, v);
    } else if !CharLenAlt(ns.right).SameLen? {
      u, v := TwoOfAlt(ns.right, ml);
      RestSpelled(n, ns.right, ml, u);
      RestSpelled(n, ns.right, ml, v);
    } else {
      u := WordOf(n, ml);
      FirstSpelled(ns, ml, u);
      v := WordOf(ns.right.left, ml);
      FirstLength(ns.right);
      FirstSpelled(ns.right, ml, v);
      RestSpelled(n, ns.right, ml, v);
    }
  }

  // ----- as results -----

  /** The tree has matches of different lengths. */
  ghost predicate Varies(n: Node, ml: bool, cfg: Cfg)
    requires Formed(n)
  {
    exists u: seq<byte>, v: seq<byte> :: WordMatch(n, ml, cfg, u) && WordMatch(n, ml, cfg, v) && |u| != |v|
  }

  /** The whole text is a match. */
  ghost predicate WordMatch(n: Node, ml: bool, cfg: Cfg, w: seq<byte>)
    requires Formed(n)
  {
    |w| in Ends(n, ml, Subject(w, 0, 0, false), cfg, 0)
  }

  lemma SpelledMatch(n: Node, ml: bool, cfg: Cfg, w: seq<byte>)
    requires Formed(n) && Plain(n) && Spelled(n, ml, w)
    ensures WordMatch(n, ml, cfg, w)
  {
    var x := Subject(w, 0, 0, false);
    assert x.text[0..|w|] == w && HasAt(x, 0, w);
    hide Matches;
    EndsAreMatches(n, ml, x, cfg, 0, |w|);
  }

  lemma TopSame(n: Node)
    ensures CharLenTree(n, true).Fixed? <==> CharLenTree(n, false).Fixed?
    ensures CharLenTree(n, true).Fixed? ==> CharLenTree(n, true) == CharLenTree(n, false)
  {
  }

  /** get_char_length_tree finds a length exactly where all matches are equally long; it is their length. */
  lemma CharLenExactly(n: Node, top: bool, ml: bool, cfg: Cfg)
    requires Formed(n) && Ready(n) && Plain(n) && Live(n) && Telling(n)
    ensures CharLenTree(n, top).Fixed? ==>
              forall x: Subject, s: nat :: s <= |x.text| <= INT_MAX ==>
                AllAt(Ends(n, ml, x, cfg, s), s + CharLenTree(n, top).len)
    ensures !CharLenTree(n, top).Fixed? ==> Varies(n, ml, cfg)
  {
    TopSame(n);
    hide Ends, Live, Plain, Ready, Formed;
    if CharLenTree(n, top).Fixed? {
      forall x: Subject, s: nat | s <= |x.text| <= INT_MAX
        ensures AllAt(Ends(n, ml, x, cfg, s), s + CharLenTree(n, top).len)
      {
        CharLenSound(n, top, ml, x, cfg, s);
      }
    } else {
      var u, v := TwoLengths(n, ml);
      SpelledMatch(n, ml, cfg, u);
      SpelledMatch(n, ml, cfg, v);
    }
  }

  predicate EachFixed(ns: Nodes) { CharLenTree(ns.left, false).Fixed? && (ns.Cons? ==> EachFixed(ns.right)) }

  /** All alternatives have one length. */
  predicate AllAlike(ns: Nodes) { exists d: Distance :: EachLength(ns, d) }

  predicate EachLength(ns: Nodes, d: Distance) {
    CharLenTree(ns.left, false) == Fixed(d) && (ns.Cons? ==> EachLength(ns.right, d))
  }

  lemma {:induction false} AltLengths(ns: Nodes)
    ensures !CharLenAlt(ns).Failed? <==> EachFixed(ns)
    ensures forall d: Distance :: CharLenAlt(ns) == SameLen(d) <==> EachLength(ns, d)
  {
    if ns.Cons? { AltLengths(ns.right); }
  }

  /** The special error is that of an alternation at the top whose alternatives each have a length, but not all
      the same one: then setup_look_behind divides. */
  lemma TopAltExactly(n: Node)
    ensures CharLenTree(n, true).TopAltVarLen? <==> n.Alt? && EachFixed(n.items) && !AllAlike(n.items)
  {
    NotTop(n);
    if n.Alt? {
      var ns := n.items;
      AltLengths(ns);
      assert CharLenTree(n, true).TopAltVarLen? <==> CharLenAlt(ns).Differ?;
      if CharLenAlt(ns).SameLen? { assert EachLength(ns, CharLenAlt(ns).len); }
      if AllAlike(ns) {
        var d: Distance :| EachLength(ns, d);
        assert CharLenAlt(ns) == SameLen(d);
      }
    }
  }

  lemma {:induction false} NotTop(n: Node)
    ensures !CharLenTree(n, false).TopAltVarLen?
    ensures !n.Alt? ==> !CharLenTree(n, true).TopAltVarLen?
  {
    match n
    case List(ns) => ListNotTop(ns);
    case Group(_, b) => NotTop(b);
    case OptionNode(_, b) => NotTop(b);
    case Atomic(_, b) => NotTop(b);
    case _ =>
  }

  lemma {:induction false} ListNotTop(ns: Nodes)
    ensures !CharLenList(ns).TopAltVarLen?
  {
    NotTop(ns.left);
  }

  // ----- the minimum length -----

  /** Neither the sums of lists nor the products of repeats reach the end of their range. */
  predicate Unsaturated(n: Node) {
    match n
    case Str(s) => |s| < TWO32
    case List(ns) => AllUnsaturated(ns)
    case Alt(ns) => EachUnsaturated(ns)
    case Quant(t, q) => q.lower == 0 || (Unsaturated(t) && MinLen(t) < INFINITE_DISTANCE / q.lower)
    case Group(_, b) => Unsaturated(b)
    case OptionNode(_, b) => Unsaturated(b)
    case _ => true
  }

  predicate AllUnsaturated(ns: Nodes) {
    Unsaturated(ns.left) && (ns.Cons? ==> AllUnsaturated(ns.right) && MinLen(ns.left) + MinLenList(ns.right) < TWO32)
  }

  predicate EachUnsaturated(ns: Nodes) { Unsaturated(ns.left) && (ns.Cons? ==> EachUnsaturated(ns.right)) }

  /** A shortest word. */
  lemma {:induction false} ShortWord(n: Node, ml: bool) returns (w: seq<byte>)
    requires Formed(n) && Live(n) && Unsaturated(n)
    ensures Spelled(n, ml, w) && |w| == MinLen(n)
  {
    hide Spelled;
    match n {
      case Str(s) =>
        w := s;
        SpelledIf(n, ml, w);
      case List(ns) =>
        w := ShortList(ns, ml);
        ListSpelled(ns, ml, w);
      case Alt(ns) =>
        w := ShortAlt(ns, ml);
        AltSpelled(ns, ml, w);
      case Quant(t, q) =>
        if q.lower == 0 {
          w := [];
          NoRounds(t, q, ml);
        } else {
          var v := ShortWord(t, ml);
          w := Times(v, q.lower);
          SpellTimes(t, q, ml, v, q.lower);
          TimesLength(v, q.lower);
        }
      case Group(k, b) =>
        w := ShortWord(b, ml);
        BodySpelled(n, b, ml, ml, w);
      case OptionNode(ml', b) =>
        w := ShortWord(b, ml');
        BodySpelled(n, b, ml, ml', w);
      case _ => w := OneByte(n, ml);
    }
  }

  lemma NoRounds(t: Node, q: Rep, ml: bool)
    requires q.lower == 0 && RepOk(q)
    ensures Spelled(Quant(t, q), ml, [])
  {
    forall x: Subject, s: nat | HasAt(x, s, []) ensures s <= |x.text| && Matches(Quant(t, q), ml, x, s, s + 0) {
      InRep(Language(t, ml, x), q.lower, q.upper, 0, s, s);
      QuantMatch(t, q, ml, x, s, s);
    }
  }

  lemma {:induction false} ShortList(ns: Nodes, ml: bool) returns (w: seq<byte>)
    requires AllFormed(ns) && AllLive(ns) && AllUnsaturated(ns)
    ensures SpelledAll(ns, ml, w) && |w| == MinLenList(ns)
  {
    hide Spelled, SpelledAll, Formed, Live;
    w := ShortWord(ns.left, ml);
    if ns.Last? {
      LastSpelled(ns.left, ml, w);
    } else {
      var v := ShortList(ns.right, ml);
      SpellCons(ns.left, ns.right, ml, w, v);
      w := w + v;
    }
  }

  lemma {:induction false} ShortAlt(ns: Nodes, ml: bool) returns (w: seq<byte>)
    requires AllFormed(ns) && AllLive(ns) && EachUnsaturated(ns)
    ensures SpelledOne(ns, ml, w) && |w| == MinLenAlt(ns)
  {
    hide Spelled, SpelledOne, Formed, Live;
    if ns.Last? || MinLen(ns.left) <= MinLenAlt(ns.right) {
      w := ShortWord(ns.left, ml);
      FirstSpelled(ns, ml, w);
    } else {
      w := ShortAlt(ns.right, ml);
      RestSpelled(ns.left, ns.right, ml, w);
    }
  }

  /** get_min_match_length is the length of some match. */
  lemma MinLenAttained(n: Node, ml: bool, cfg: Cfg)
    requires Formed(n) && Plain(n) && Live(n) && Unsaturated(n)
    ensures exists w: seq<byte> :: WordMatch(n, ml, cfg, w) && |w| == MinLen(n)
  {
    var w := ShortWord(n, ml);
    SpelledMatch(n, ml, cfg, w);
  }
}
