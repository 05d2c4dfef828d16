/** Look-behind: stepping back by the computed length finds exactly the matches that end here, and
    alternatives of different lengths can be looked for one by one. */
module LookBehinds {
  import opened Regint
  import opened Regparse
  import opened Regcomp
  import opened Machine
  import opened Meaning
  import opened Lengths
  import opened LengthSound

  /** Some match of the tree, from wherever, ends at s. */
  ghost predicate EndsHere(n: Node, ml: bool, x: Subject, cfg: Cfg, s: nat)
    requires Formed(n) && s <= |x.text|
  {
    exists t: nat :: t <= s && s in Ends(n, ml, x, cfg, t)
  }

  predicate AllHere(r: seq<nat>, s: nat) { forall i :: 0 <= i < |r| ==> r[i] == s }

  /** OP_LOOK_BEHIND and OP_PUSH_LOOK_BEHIND_NOT: zero-width, and right about every start. */
  lemma BehindMeans(b: Node, len: nat, ml: bool, x: Subject, cfg: Cfg, s: nat)
    requires Formed(b) && Ready(b) && BehindOk(b, len) && s <= |x.text| <= INT_MAX
    ensures AllHere(Ends(Look(LookBehind, len, b), ml, x, cfg, s), s)
    ensures Ends(Look(LookBehind, len, b), ml, x, cfg, s) != [] <==> EndsHere(b, ml, x, cfg, s)
    ensures Ends(Look(LookBehindNot, len, b), ml, x, cfg, s) == One(!EndsHere(b, ml, x, cfg, s), s)
  {
    hide EndsHere, Ready, CharLenTree, Ends, Formed;
    EndsHereAt(b, len, ml, x, cfg, s);
    if s >= len { CharLenSound(b, true, ml, x, cfg, s - len); }
    BehindEnds(b, len, ml, x, cfg, s);
  }

  lemma BehindEnds(b: Node, len: nat, ml: bool, x: Subject, cfg: Cfg, s: nat)
    requires Formed(b) && s <= |x.text|
    ensures Ends(Look(LookBehind, len, b), ml, x, cfg, s) == if s < len then [] else Ends(b, ml, x, cfg, s - len)
    ensures Ends(Look(LookBehindNot, len, b), ml, x, cfg, s) ==
            if s < len then [s] else One(Ends(b, ml, x, cfg, s - len) == [], s)
  {
  }

  /** A match of fixed length that ends at s began that far back. */
  lemma EndsHereAt(b: Node, len: nat, ml: bool, x: Subject, cfg: Cfg, s: nat)
    requires Formed(b) && Ready(b) && BehindOk(b, len) && s <= |x.text| <= INT_MAX
    ensures EndsHere(b, ml, x, cfg, s) <==> s >= len && Ends(b, ml, x, cfg, s - len) != []
  {
    hide Ends, Ready, Formed, CharLenTree;
    if EndsHere(b, ml, x, cfg, s) {
      var t: nat :| t <= s && s in Ends(b, ml, x, cfg, t);
      CharLenSound(b, true, ml, x, cfg, t);
    }
    if s >= len && Ends(b, ml, x, cfg, s - len) != [] {
      CharLenSound(b, true, ml, x, cfg, s - len);
      assert Ends(b, ml, x, cfg, s - len)[0] == s;
    }
  }

  // ----- divide_look_behind_alternatives -----

  function BehindEach(k: LookKind, ns: Nodes): Nodes
    requires AllFixed(ns)
  {
    match ns
    case Last(n) => Last(Look(k, CharLenTree(n, true).len, n))
    case Cons(n, rest) => Cons(Look(k, CharLenTree(n, true).len, n), BehindEach(k, rest))
  }

  /** (?<=A|B) ==> (?<=A)|(?<=B), (?<!A|B) ==> (?<!A)(?<!B) */
  function Divide(k: LookKind, ns: Nodes): Node
    requires AllFixed(ns)
  {
    if k.LookBehindNot? then List(BehindEach(k, ns)) else Alt(BehindEach(k, ns))
  }

  predicate AllFixed(ns: Nodes) {
    match ns
    case Last(n) => FixedNode(n)
    case Cons(n, rest) => FixedNode(n) && AllFixed(rest)
  }

  predicate FixedNode(n: Node) { CharLenTree(n, true).Fixed? && CharLenTree(n, true).len < INFINITE_DISTANCE }

  /** A fixed length inside a tree is a fixed length at its top. */
  lemma FixedTop(n: Node)
    requires CharLenTree(n, false).Fixed?
    ensures CharLenTree(n, true) == CharLenTree(n, false)
  {
  }

  /** The division is made where the whole target has no length but every alternative has one. */
  lemma {:induction false} DividesFixed(ns: Nodes)
    requires !CharLenAlt(ns).Failed? && AllShort(ns)
    ensures AllFixed(ns)
  {
    FixedTop(ns.left);
    if ns.Cons? { DividesFixed(ns.right); }
  }

  predicate AllShort(ns: Nodes) {
    match ns
    case Last(n) => CharLenTree(n, false).Fixed? ==> CharLenTree(n, false).len < INFINITE_DISTANCE
    case Cons(n, rest) =>
      && (CharLenTree(n, false).Fixed? ==> CharLenTree(n, false).len < INFINITE_DISTANCE)
      && AllShort(rest)
  }

  lemma {:induction false} BehindFormed(k: LookKind, ns: Nodes)
    requires AllFormed(ns) && AllFixed(ns)
    ensures AllFormed(BehindEach(k, ns))
  {
    if ns.Cons? { BehindFormed(k, ns.right); }
  }

  /** Some match of some alternative ends at s. */
  ghost predicate AnyEndsHere(ns: Nodes, ml: bool, x: Subject, cfg: Cfg, s: nat)
    requires AllFormed(ns) && s <= |x.text|
  {
    exists t: nat :: t <= s && s in EndsAlt(ns, ml, x, cfg, t)
  }

  lemma AnySplit(n: Node, rest: Nodes, ml: bool, x: Subject, cfg: Cfg, s: nat)
    requires AllFormed(Cons(n, rest)) && s <= |x.text|
    ensures AnyEndsHere(Cons(n, rest), ml, x, cfg, s) <==>
            EndsHere(n, ml, x, cfg, s) || AnyEndsHere(rest, ml, x, cfg, s)
  {
    hide Ends, Formed;
    forall t: nat | t <= s
      ensures s in EndsAlt(Cons(n, rest), ml, x, cfg, t) <==>
              s in Ends(n, ml, x, cfg, t) || s in EndsAlt(rest, ml, x, cfg, t) {}
    if EndsHere(n, ml, x, cfg, s) {
      var t: nat :| t <= s && s in Ends(n, ml, x, cfg, t);
      assert s in EndsAlt(Cons(n, rest), ml, x, cfg, t);
    }
    if AnyEndsHere(rest, ml, x, cfg, s) {
      var t: nat :| t <= s && s in EndsAlt(rest, ml, x, cfg, t);
      assert s in EndsAlt(Cons(n, rest), ml, x, cfg, t);
    }
    if AnyEndsHere(Cons(n, rest), ml, x, cfg, s) {
      var t: nat :| t <= s && s in EndsAlt(Cons(n, rest), ml, x, cfg, t);
      assert s in Ends(n, ml, x, cfg, t) || s in EndsAlt(rest, ml, x, cfg, t);
    }
  }

  lemma AnyLast(n: Node, ml: bool, x: Subject, cfg: Cfg, s: nat)
    requires Formed(n) && s <= |x.text|
    ensures AnyEndsHere(Last(n), ml, x, cfg, s) <==> EndsHere(n, ml, x, cfg, s)
  {
    hide Ends, Formed;
    forall t: nat | t <= s ensures EndsAlt(Last(n), ml, x, cfg, t) == Ends(n, ml, x, cfg, t) {}
  }

  /** The divided positive form. */
  lemma {:induction false} DivideMeans(ns: Nodes, ml: bool, x: Subject, cfg: Cfg, s: nat)
    requires AllFormed(ns) && AllReady(ns) && AllFixed(ns) && AllFormed(BehindEach(LookBehind, ns))
             && s <= |x.text| <= INT_MAX
    ensures AllHere(EndsAlt(BehindEach(LookBehind, ns), ml, x, cfg, s), s)
    ensures EndsAlt(BehindEach(LookBehind, ns), ml, x, cfg, s) != [] <==> AnyEndsHere(ns, ml, x, cfg, s)
  {
    var n := ns.left;
    BehindMeans(n, CharLenTree(n, true).len, ml, x, cfg, s);
    hide Ends, Ready, Formed, CharLenTree;
    if ns.Cons? {
      DivideMeans(ns.right, ml, x, cfg, s);
      AnySplit(n, ns.right, ml, x, cfg, s);
    } else {
      AnyLast(n, ml, x, cfg, s);
    }
  }

  /** The divided negative form. */
  lemma {:induction false} DivideNotMeans(ns: Nodes, ml: bool, x: Subject, cfg: Cfg, s: nat)
    requires AllFormed(ns) && AllReady(ns) && AllFixed(ns) && AllFormed(BehindEach(LookBehindNot, ns))
    requires s <= |x.text| <= INT_MAX
    ensures EndsList(BehindEach(LookBehindNot, ns), ml, x, cfg, s) == One(!AnyEndsHere(ns, ml, x, cfg, s), s)
  {
    hide Ends, Ready, Formed, CharLenTree, EndsHere, AnyEndsHere;
    var n := ns.left;
    var len := CharLenTree(n, true).len;
    BehindMeans(n, len, ml, x, cfg, s);
    if ns.Cons? {
      DivideNotMeans(ns.right, ml, x, cfg, s);
      AnySplit(n, ns.right, ml, x, cfg, s);
      var rest' := BehindEach(LookBehindNot, ns.right);
      assert EndsListAll(rest', ml, x, cfg, []) == [];
      assert [s][1..] == [];
      assert EndsListAll(rest', ml, x, cfg, [s]) == EndsList(rest', ml, x, cfg, s) + [];
    } else {
      AnyLast(n, ml, x, cfg, s);
    }
  }

  /** divide_look_behind_alternatives keeps the meaning of both forms: a match of one of the
      alternatives ends here, or none does. */
  lemma DivideKeeps(ns: Nodes, ml: bool, x: Subject, cfg: Cfg, s: nat)
    requires AllFormed(ns) && AllReady(ns) && AllFixed(ns) && s <= |x.text| <= INT_MAX
    ensures Formed(Divide(LookBehind, ns)) && Formed(Divide(LookBehindNot, ns))
    ensures var r := Ends(Divide(LookBehind, ns), ml, x, cfg, s);
            AllHere(r, s) && (r != [] <==> EndsHere(Alt(ns), ml, x, cfg, s))
    ensures Ends(Divide(LookBehindNot, ns), ml, x, cfg, s) == One(!EndsHere(Alt(ns), ml, x, cfg, s), s)
  {
    BehindFormed(LookBehind, ns);
    BehindFormed(LookBehindNot, ns);
    DivideMeans(ns, ml, x, cfg, s);
    DivideNotMeans(ns, ml, x, cfg, s);
    forall t: nat | t <= s ensures Ends(Alt(ns), ml, x, cfg, t) == EndsAlt(ns, ml, x, cfg, t) {}
    assert EndsHere(Alt(ns), ml, x, cfg, s) <==> AnyEndsHere(ns, ml, x, cfg, s);
  }
}
