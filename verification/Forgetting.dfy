/** FIND_LONGEST together with FIND_NOT_EMPTY: an alternation with an empty alternative loses its match, and
    a search returns an empty one. */
module Forgetting {
  import opened Regint
  import opened Regparse
  import opened Regcomp
  import opened Machine
  import opened Setup
  import opened Meaning
  import opened Lengths
  import opened CompilerCorrect
  import opened MatchAt
  import opened Optimize
  import opened LostLiterals
  import opened OptimizeSound
  import opened DotStar
  import S = Search
  import L = SearchLongest
  import Regex

  const A: byte := 0x61
  const B: byte := 0x62
  const C: byte := 0x63

  /** a|ab| */
  function OrNothing(): Node { Alt(Cons(Str([A]), Cons(Str([A, B]), Last(Str([]))))) }

  function Abc(): Subject { Subject([A, B, C], 0, 0, false) }

  lemma SetupOfOr()
    ensures Parsed(OrNothing()) && Formed(OrNothing()) && SetupTree(OrNothing(), false) == OrNothing()
  {
    var a, ab, e := Str([A]), Str([A, B]), Str([]);
    assert AllParsed(Last(e)) && AllFormed(Last(e)) && SetupAlt(Last(e), false) == Last(e);
    var rest := Cons(ab, Last(e));
    assert AllParsed(rest) && AllFormed(rest) && SetupAlt(rest, false) == rest;
  }

  lemma OrEnds(ml: bool, cfg: Cfg)
    ensures TextOk(Abc()) && Formed(OrNothing()) && Ends(OrNothing(), ml, Abc(), cfg, 0) == [1, 2, 0]
  {
    var x, a, ab, e := Abc(), Str([A]), Str([A, B]), Str([]);
    SetupOfOr();
    assert x.text[0..1] == [A] && x.text[0..2] == [A, B] && x.text[0..0] == [];
    assert Ends(a, ml, x, cfg, 0) == [1] && Ends(ab, ml, x, cfg, 0) == [2] && Ends(e, ml, x, cfg, 0) == [0];
    hide Ends;
    assert AllFormed(Last(e)) && EndsAlt(Last(e), ml, x, cfg, 0) == [0];
    assert EndsAlt(Cons(ab, Last(e)), ml, x, cfg, 0) == [2, 0];
    assert EndsAlt(Cons(a, Cons(ab, Last(e))), ml, x, cfg, 0) == [1, 2, 0];
    AltEnds(ml, x, cfg);
  }

  lemma AltEnds(ml: bool, x: Subject, cfg: Cfg)
    requires Formed(OrNothing())
    ensures AllFormed(OrNothing().items) && Ends(OrNothing(), ml, x, cfg, 0) ==
            EndsAlt(OrNothing().items, ml, x, cfg, 0)
  {
    hide EndsAlt;
  }

  /** With both options a|ab| does not match abc, though it has a result of length 2. */
  method LosesLongest(ml: bool, cfg: Cfg, base: nat) returns (best: Best)
    ensures Parsed(OrNothing()) && Formed(OrNothing()) && Ends(OrNothing(), ml, Abc(), cfg, 0) == [1, 2, 0]
    ensures best == Best(MISMATCH, 2)
  {
    hide *;
    SetupOfOr();
    OrEnds(ml, cfg);
    var region;
    best, region := Regex.Match(OrNothing(), ml, cfg, base, Abc(), 0, BOTH, MISMATCH);
    OutcomeOfOr();
  }

  lemma OutcomeOfOr()
    ensures Outcome([1, 2, 0], 0, |Abc().text|, BOTH, Best(MISMATCH, MISMATCH)) == Best(MISMATCH, 2)
  {
    assert [1, 2, 0][1..] == [2, 0] && [2, 0][1..] == [0] && [0][1..] == [];
    assert Outcome([], 0, 3, BOTH, Best(MISMATCH, 2)) == Best(MISMATCH, 2);
    assert Outcome([0], 0, 3, BOTH, Best(2, 2)) == Best(MISMATCH, 2);
    assert Outcome([2, 0], 0, 3, BOTH, Best(1, 1)) == Best(MISMATCH, 2);
  }

  // ----- an empty match -----

  function Letter(): Subject { Subject([A], 0, 0, false) }

  /** The empty expression. */
  function Empty(): Node { Str([]) }

  lemma EmptyIs(ml: bool)
    ensures Parsed(Empty()) && Formed(Empty()) && SetupTree(Empty(), false) == Empty()
    ensures Dependable(Empty(), ml) && InfoOf(Empty(), ml).how == SearchNone && TextOk(Letter()) && Unmisled(Empty())
  {
  }

  lemma EmptyEverywhere(ml: bool, cfg: Cfg, s: nat)
    requires Formed(Empty()) && s <= |Letter().text|
    ensures L.LongestAt(Empty(), ml, Letter(), cfg, s) == 0 && !S.HitAt(Empty(), ml, Letter(), cfg, BOTH, s)
  {
    var es := Ends(Empty(), ml, Letter(), cfg, s);
    assert HasAt(Letter(), s, []) && es == [s] && es[1..] == [];
    assert Longest(es, s) == 0;
  }

  /** With both options a search for the empty expression returns 0, where there is only an empty match. */
  method ReturnsEmpty(ml: bool, cfg: Cfg, base: nat) returns (r: int)
    ensures Parsed(Empty()) && Formed(Empty())
    ensures forall s: nat :: s <= 1 ==> !S.HitAt(Empty(), ml, Letter(), cfg, BOTH, s)
    ensures r == 0
  {
    hide *;
    EmptyIs(ml);
    AllEmpty(ml, cfg);
    r := Regex.SearchLongest(Empty(), ml, cfg, base, Letter(), 0, BOTH);
    NotRefused(ml, r);
    FirstIsZero(ml, cfg, r);
  }

  lemma NotRefused(ml: bool, r: int)
    requires InfoOf(Empty(), ml).how == SearchNone
    requires r == Regex.ONIGERR_MEMORY <==> Refuses(OptNode(Empty(), ZERO, ml))
    ensures r != Regex.ONIGERR_MEMORY
  {
    RefusedExactly(Empty(), ml);
  }

  lemma AllEmpty(ml: bool, cfg: Cfg)
    requires Formed(Empty())
    ensures BOTH.findLongest && |Letter().text| == 1
    ensures forall s: nat :: s <= 1 ==> !S.HitAt(Empty(), ml, Letter(), cfg, BOTH, s)
  {
    hide S.HitAt, Empty;
    forall s: nat | s <= 1 ensures !S.HitAt(Empty(), ml, Letter(), cfg, BOTH, s) { EmptyEverywhere(ml, cfg, s); }
  }

  lemma FirstIsZero(ml: bool, cfg: Cfg, r: int)
    requires Formed(Empty()) && L.LongestPlace(Empty(), ml, Letter(), cfg, 0, r)
    ensures r == 0
  {
    EmptyEverywhere(ml, cfg, 0);
    if r > 0 && r <= |Letter().text| { EmptyEverywhere(ml, cfg, r); }
    hide L.LongestAt, Empty;
  }
}
