/** What the capture cells hold agrees with what a path has noted, now and after everything that can be taken
    back. */
module CaptureTruth {
  import opened Regint
  import opened Regcomp
  import opened Machine
  import opened Enumeration
  import opened Layout
  import opened Levels
  import opened Captures
  import opened CaptureCells
  import opened Noting
  import opened PathLevels
  import Undoing

  /** A cell leads to text position v, through the stack if the group has the undo bit. */
  predicate Points(bit: bool, stk: seq<Slot>, r: Ref, v: nat) {
    if bit then r.StackIndex? && r.i < |stk| && !NoMem(stk[r.i].e) && stk[r.i].e.pstr == v
    else r == Position(v)
  }

  /** The cells of a group lead to where the path has noted it. */
  predicate Shows(cfg: Cfg, m: Noted, stk: seq<Slot>, cs: Ref, ce: Ref, k: nat) {
    && (m.start.Some? ==> Points(k in cfg.btMemStart, stk, cs, m.start.value))
    && (m.start.Some? && m.end.Some? ==> Points(k in cfg.btMemEnd, stk, ce, m.end.value))
  }

  /** total: how often the code opens the groups without undo entries. The cells of such a group need not agree
      with the path before its last opening. */
  ghost predicate Told(cfg: Cfg, total: multiset<nat>, path: Stack, stk: seq<Slot>, cs: Ref, ce: Ref, k: nat) {
    var m := NotedIn(path, k);
    if k in cfg.btMemStart then Shows(cfg, m, stk, cs, ce, k) && (m == UNNOTED ==> ce == Invalid)
    else if total[k] == 0 then ce == Invalid
    else Opens(path, k) == total[k] ==> Shows(cfg, m, stk, cs, ce, k)
  }

  ghost predicate Truth(cfg: Cfg, total: multiset<nat>, path: Stack, stk: seq<Slot>, cs: Ref, ce: Ref, k: nat)
    decreases |path|
  {
    && Told(cfg, total, path, stk, cs, ce, k)
    && (path != [] ==>
          var n := |path| - 1;
          var e := path[n];
          if !Stays(cfg, e) then Truth(cfg, total, path[..n], stk, cs, ce, k)
          else
            && stk != []
            && var t := stk[|stk| - 1];
               var low := stk[..|stk| - 1];
               if MemSlot(e, k) then Truth(cfg, total, path[..n], low, t.start, t.end, k)
               else Truth(cfg, total, path[..n], low, cs, ce, k))
  }

  // ----- pushing -----

  lemma NotedPush(path: Stack, e: Entry, k: nat)
    ensures NotedIn(path + [e], k) ==
            if MemSlot(e, k) then (if e.MemStart? then Noted(Some(e.pstr), None)
                                   else Noted(NotedIn(path, k).start, Some(e.pstr)))
            else NotedIn(path, k)
    ensures Opens(path + [e], k) == Opens(path, k) + if MemSlot(e, k) && e.MemStart? then 1 else 0
  {
    assert (path + [e])[..|path|] == path;
  }

  lemma TruthTold(cfg: Cfg, total: multiset<nat>, path: Stack, stk: seq<Slot>, cs: Ref, ce: Ref, k: nat)
    requires Truth(cfg, total, path, stk, cs, ce, k)
    ensures Told(cfg, total, path, stk, cs, ce, k)
  {
  }

  /** An entry of the stack that is none of the group's. */
  lemma TruthPush(cfg: Cfg, total: multiset<nat>, path: Stack, e: Entry, stk: seq<Slot>, t: Slot, cs: Ref, ce: Ref,
                  k: nat)
    requires Truth(cfg, total, path, stk, cs, ce, k) && Stays(cfg, e) && !MemSlot(e, k)
    ensures Truth(cfg, total, path + [e], stk + [t], cs, ce, k)
  {
    TruthTold(cfg, total, path, stk, cs, ce, k);
    hide Stays, MemSlot, NotedIn, Opens;
    assert (path + [e])[..|path|] == path && (stk + [t])[..|stk|] == stk;
    NotedPush(path, e, k);
  }

  /** A note that is none of the group's. */
  lemma TruthNote(cfg: Cfg, total: multiset<nat>, path: Stack, e: Entry, stk: seq<Slot>, cs: Ref, ce: Ref, k: nat)
    requires Truth(cfg, total, path, stk, cs, ce, k) && !Stays(cfg, e) && !MemSlot(e, k)
    ensures Truth(cfg, total, path + [e], stk, cs, ce, k)
  {
    TruthTold(cfg, total, path, stk, cs, ce, k);
    hide Stays, MemSlot, NotedIn, Opens;
    assert (path + [e])[..|path|] == path;
    NotedPush(path, e, k);
  }

  /** The group is opened, with an undo entry. */
  lemma TruthOpen(cfg: Cfg, total: multiset<nat>, path: Stack, s: nat, stk: seq<Slot>, cs: Ref, ce: Ref, k: nat)
    requires Truth(cfg, total, path, stk, cs, ce, k) && k in cfg.btMemStart
    ensures Truth(cfg, total, path + [MemStart(k, s)], stk + [Slot(MemStart(k, s), cs, ce)], StackIndex(|stk|),
                  Invalid, k)
  {
    var e := MemStart(k, s);
    assert (path + [e])[..|path|] == path && (stk + [Slot(e, cs, ce)])[..|stk|] == stk;
    NotedPush(path, e, k);
    hide NotedIn, Opens;
  }

  /** The group is closed, with an undo entry. */
  lemma TruthClose(cfg: Cfg, total: multiset<nat>, path: Stack, s: nat, stk: seq<Slot>, cs: Ref, ce: Ref, k: nat)
    requires Truth(cfg, total, path, stk, cs, ce, k) && k in cfg.btMemEnd && IsOpen(NotedIn(path, k))
    requires k !in cfg.btMemStart ==> 0 < Opens(path, k) <= total[k]
    ensures Truth(cfg, total, path + [MemEnd(k, s)], stk + [Slot(MemEnd(k, s), cs, ce)], cs, StackIndex(|stk|), k)
  {
    var e := MemEnd(k, s);
    TruthTold(cfg, total, path, stk, cs, ce, k);
    assert (path + [e])[..|path|] == path && (stk + [Slot(e, cs, ce)])[..|stk|] == stk;
    NotedPush(path, e, k);
    hide NotedIn, Opens;
  }

  // ----- cells that are written over -----

  /** How many entries of the path the stack has. */
  ghost predicate Lined(cfg: Cfg, path: Stack, stk: seq<Slot>) { |stk| == Count(cfg, path) }

  /** Before the last opening nothing is asked of a group without undo entry. */
  lemma {:induction false} TruthEarly(cfg: Cfg, total: multiset<nat>, path: Stack, stk: seq<Slot>, cs: Ref, ce: Ref,
                                      k: nat)
    requires Lined(cfg, path, stk) && k !in cfg.btMemStart && Opens(path, k) < total[k]
    ensures Truth(cfg, total, path, stk, cs, ce, k)
    decreases |path|
  {
    hide NotedIn, Shows;
    if path != [] {
      var n := |path| - 1;
      var e := path[n];
      if !Stays(cfg, e) {
        TruthEarly(cfg, total, path[..n], stk, cs, ce, k);
      } else {
        var t := stk[|stk| - 1];
        TruthEarly(cfg, total, path[..n], stk[..|stk| - 1], t.start, t.end, k);
        TruthEarly(cfg, total, path[..n], stk[..|stk| - 1], cs, ce, k);
      }
    }
  }

  /** The group is opened, without an undo entry. */
  lemma TruthOpenRaw(cfg: Cfg, total: multiset<nat>, path: Stack, s: nat, stk: seq<Slot>, ce: Ref, k: nat)
    requires Lined(cfg, path, stk) && k !in cfg.btMemStart && Opens(path, k) < total[k]
    ensures Truth(cfg, total, path + [MemStart(k, s)], stk, Position(s), ce, k)
  {
    var e := MemStart(k, s);
    assert (path + [e])[..|path|] == path;
    NotedPush(path, e, k);
    TruthEarly(cfg, total, path, stk, Position(s), ce, k);
    hide NotedIn, Opens;
  }

  /** While a group is open, its end cell says nothing. */
  lemma {:induction false} TruthInside(cfg: Cfg, total: multiset<nat>, path: Stack, stk: seq<Slot>, cs: Ref, ce: Ref,
                                       ce': Ref, k: nat)
    requires Lined(cfg, path, stk) && Truth(cfg, total, path, stk, cs, ce, k) && IsOpen(NotedIn(path, k))
    requires k !in cfg.btMemStart ==> 0 < Opens(path, k) <= total[k]
    ensures Truth(cfg, total, path, stk, cs, ce', k)
    decreases |path|
  {
    if path != [] {
      var n := |path| - 1;
      var e := path[n];
      if MemSlot(e, k) {
        if !Stays(cfg, e) { TruthEarly(cfg, total, path[..n], stk, cs, ce', k); }
      } else if !Stays(cfg, e) {
        TruthInside(cfg, total, path[..n], stk, cs, ce, ce', k);
      } else {
        TruthInside(cfg, total, path[..n], stk[..|stk| - 1], cs, ce, ce', k);
      }
    }
  }

  /** The group is closed, without an undo entry. */
  lemma TruthCloseRaw(cfg: Cfg, total: multiset<nat>, path: Stack, s: nat, stk: seq<Slot>, cs: Ref, ce: Ref, k: nat)
    requires Lined(cfg, path, stk) && Truth(cfg, total, path, stk, cs, ce, k) && IsOpen(NotedIn(path, k))
    requires k !in cfg.btMemEnd && (k !in cfg.btMemStart ==> 0 < Opens(path, k) <= total[k])
    ensures Truth(cfg, total, path + [MemEnd(k, s)], stk, cs, Position(s), k)
  {
    var e := MemEnd(k, s);
    TruthTold(cfg, total, path, stk, cs, ce, k);
    TruthInside(cfg, total, path, stk, cs, ce, Position(s), k);
    assert (path + [e])[..|path|] == path;
    NotedPush(path, e, k);
    hide NotedIn, Opens;
  }

  // ----- changes in place -----

  predicate SameNote(a: Entry, b: Entry) { a == b || (NoMem(a) && NoMem(b)) }

  predicate SameSlot(a: Slot, b: Slot) { a.start == b.start && a.end == b.end && SameNote(a.e, b.e) }

  lemma {:induction false} TruthSame(cfg: Cfg, total: multiset<nat>, a: Stack, b: Stack, stk: seq<Slot>,
                                     now: seq<Slot>, cs: Ref, ce: Ref, k: nat)
    requires Truth(cfg, total, a, stk, cs, ce, k) && |a| == |b| && |stk| == |now|
    requires forall i :: 0 <= i < |a| ==> SameNote(a[i], b[i])
    requires forall i :: 0 <= i < |stk| ==> SameSlot(stk[i], now[i])
    ensures Truth(cfg, total, b, now, cs, ce, k)
    decreases |a|
  {
    hide NotedIn, Opens, Shows;
    NotedSame(a, b, k);
    OpensAlike(a, b, k);
    ShowsSame(cfg, NotedIn(a, k), stk, now, cs, ce, k);
    if a != [] {
      var n := |a| - 1;
      var e := a[n];
      assert SameNote(a[n], b[n]);
      if !Stays(cfg, e) {
        TruthSame(cfg, total, a[..n], b[..n], stk, now, cs, ce, k);
      } else {
        var m := |stk| - 1;
        assert SameSlot(stk[m], now[m]);
        if MemSlot(e, k) {
          TruthSame(cfg, total, a[..n], b[..n], stk[..m], now[..m], stk[m].start, stk[m].end, k);
        } else {
          TruthSame(cfg, total, a[..n], b[..n], stk[..m], now[..m], cs, ce, k);
        }
      }
    }
  }

  lemma ShowsSame(cfg: Cfg, m: Noted, stk: seq<Slot>, now: seq<Slot>, cs: Ref, ce: Ref, k: nat)
    requires |stk| == |now| && forall i :: 0 <= i < |stk| ==> SameSlot(stk[i], now[i])
    ensures Shows(cfg, m, stk, cs, ce, k) ==> Shows(cfg, m, now, cs, ce, k)
  {
    if cs.StackIndex? && cs.i < |stk| { assert SameSlot(stk[cs.i], now[cs.i]); }
    if ce.StackIndex? && ce.i < |stk| { assert SameSlot(stk[ce.i], now[ce.i]); }
  }

  lemma {:induction false} OpensAlike(a: Stack, b: Stack, k: nat)
    requires |a| == |b| && forall i :: 0 <= i < |a| ==> SameNote(a[i], b[i])
    ensures Opens(a, k) == Opens(b, k)
    decreases |a|
  {
    if a != [] {
      assert SameNote(a[|a| - 1], b[|a| - 1]);
      OpensAlike(a[..|a| - 1], b[..|a| - 1], k);
    }
  }

  // ----- all groups -----

  /** The stack is that of the path without its notes, and the cells of every group tell the truth. */
  ghost predicate Faithful(cfg: Cfg, total: multiset<nat>, path: Stack, c: Cells) {
    && Entries(c.stk) == Strip(cfg, path)
    && forall k: nat :: Truth(cfg, total, path, c.stk, Get(c.start, k), Get(c.end, k), k)
  }

  lemma FaithfulAt(cfg: Cfg, total: multiset<nat>, path: Stack, c: Cells, k: nat)
    requires Faithful(cfg, total, path, c)
    ensures Truth(cfg, total, path, c.stk, Get(c.start, k), Get(c.end, k), k) && Lined(cfg, path, c.stk)
  {
    hide Truth;
  }

  lemma TruthTop(cfg: Cfg, total: multiset<nat>, path: Stack, c: Cells, k: nat)
    requires path != [] && Truth(cfg, total, path, c.stk, Get(c.start, k), Get(c.end, k), k)
    requires Stays(cfg, path[|path| - 1]) ==>
               c.stk != [] && var e, t := path[|path| - 1], c.stk[|c.stk| - 1].e; if NoMem(e) then NoMem(t) else t == e
    ensures var below := path[..|path| - 1];
            if Stays(cfg, path[|path| - 1]) then
              c.stk != []
              && var d := DropTop(c); Truth(cfg, total, below, d.stk, Get(d.start, k), Get(d.end, k), k)
            else Truth(cfg, total, below, c.stk, Get(c.start, k), Get(c.end, k), k)
  {
    hide Told, Stays;
  }

  /** The top entry is taken off. */
  lemma FaithfulTop(cfg: Cfg, total: multiset<nat>, path: Stack, c: Cells)
    requires path != [] && Faithful(cfg, total, path, c)
    ensures var below := path[..|path| - 1];
            if Stays(cfg, path[|path| - 1]) then c.stk != [] && Faithful(cfg, total, below, DropTop(c))
            else Faithful(cfg, total, below, c)
  {
    FaithfulLined(cfg, total, path, c);
    if Stays(cfg, path[|path| - 1]) {
      StripTop(cfg, path);
      EntriesTake(c.stk, |c.stk| - 1);
      TopIs(cfg, path, c);
    }
    hide Truth, Strip, Stays, Entries, Count;
    forall k: nat ensures Truth(cfg, total, path, c.stk, Get(c.start, k), Get(c.end, k), k) {}
    forall k: nat
      ensures if Stays(cfg, path[|path| - 1]) then
                c.stk != []
                && var d := DropTop(c);
                   Truth(cfg, total, path[..|path| - 1], d.stk, Get(d.start, k), Get(d.end, k), k)
              else Truth(cfg, total, path[..|path| - 1], c.stk, Get(c.start, k), Get(c.end, k), k)
    {
      TruthTop(cfg, total, path, c, k);
    }
  }

  lemma TopIs(cfg: Cfg, path: Stack, c: Cells)
    requires path != [] && c.stk != [] && Stays(cfg, path[|path| - 1]) && Entries(c.stk) == Strip(cfg, path)
    ensures var e, t := path[|path| - 1], c.stk[|c.stk| - 1].e;
            if NoMem(e) then NoMem(t) else t == e
  {
    StripTop(cfg, path);
    assert Entries(c.stk)[|c.stk| - 1] == c.stk[|c.stk| - 1].e;
  }

  /** Taking entries off, down to height h of the path. */
  lemma {:induction false} FaithfulDrop(cfg: Cfg, total: multiset<nat>, path: Stack, c: Cells, h: nat)
    requires Faithful(cfg, total, path, c) && h <= |path|
    ensures Faithful(cfg, total, path[..h], DropTo(c, Count(cfg, path[..h])))
    decreases |path|
  {
    hide Faithful, DropTop, Strip;
    FaithfulLined(cfg, total, path, c);
    if h == |path| {
      assert path[..h] == path;
    } else {
      var n := |path| - 1;
      FaithfulTop(cfg, total, path, c);
      assert path[..n][..h] == path[..h];
      CountBelow(cfg, path, h);
      FaithfulDrop(cfg, total, path[..n], if Stays(cfg, path[n]) then DropTop(c) else c, h);
    }
  }

  lemma FaithfulLined(cfg: Cfg, total: multiset<nat>, path: Stack, c: Cells)
    requires Faithful(cfg, total, path, c)
    ensures |c.stk| == Count(cfg, path)
  {
    hide Truth;
  }

  lemma {:induction false} CountBelow(cfg: Cfg, path: Stack, h: nat)
    requires h < |path|
    ensures Count(cfg, path[..h]) <= Count(cfg, path[..|path| - 1])
            && Count(cfg, path) == Count(cfg, path[..|path| - 1]) + if Stays(cfg, path[|path| - 1]) then 1 else 0
    decreases |path|
  {
    var below := path[..|path| - 1];
    if h < |below| {
      CountBelow(cfg, below, h);
      assert below[..h] == path[..h];
    } else {
      assert path[..h] == below;
    }
  }

  /** Popping, blanking and counting: the path that is left, with the cells undone down to its height. */
  lemma FaithfulLeft(cfg: Cfg, total: multiset<nat>, path: Stack, c: Cells, left: Stack)
    requires Faithful(cfg, total, path, c) && Leaves(path, left)
    ensures Faithful(cfg, total, left, Undone(c, Strip(cfg, left)))
  {
    var h := |left|;
    var low := path[..h];
    var es := Strip(cfg, left);
    FaithfulDrop(cfg, total, path, c, h);
    FaithfulLined(cfg, total, path, c);
    DropToIs(c, Count(cfg, low));
    LeftStrip(cfg, path, left);
    var d := DropTo(c, Count(cfg, low));
    RefillSame(c.stk, Entries(d.stk), es, Count(cfg, low));
    forall i | 0 <= i < h ensures SameNote(low[i], left[i]) { assert Left(path[i], left[i]); }
    hide Strip, Leaves, DropTo, Truth;
    forall k: nat ensures Truth(cfg, total, left, Refill(c.stk, es), Get(d.start, k), Get(d.end, k), k) {
      FaithfulAt(cfg, total, low, d, k);
      TruthSame(cfg, total, low, left, d.stk, Refill(c.stk, es), Get(d.start, k), Get(d.end, k), k);
    }
  }

  lemma {:induction false} DropToIs(c: Cells, h: nat)
    requires h <= |c.stk|
    ensures DropTo(c, h).stk == c.stk[..h]
    decreases |c.stk|
  {
    if h < |c.stk| {
      DropToIs(DropTop(c), h);
      assert DropTop(c).stk[..h] == c.stk[..h];
    } else {
      assert c.stk[..h] == c.stk;
    }
  }

  /** The stack of what is left differs in entries without notes only. */
  lemma LeftStrip(cfg: Cfg, path: Stack, left: Stack)
    requires Leaves(path, left)
    ensures var low := path[..|left|];
            && Count(cfg, low) == Count(cfg, left) <= Count(cfg, path)
            && forall i :: 0 <= i < Count(cfg, low) ==> SameNote(Strip(cfg, low)[i], Strip(cfg, left)[i])
  {
    var low := path[..|left|];
    forall i | 0 <= i < |low| ensures Stays(cfg, low[i]) == Stays(cfg, left[i]) && SameNote(low[i], left[i]) {
      assert Left(path[i], left[i]);
    }
    SamePattern(cfg, low, left, |low|);
    assert low[..|low|] == low && left[..|left|] == left;
    StripSame(cfg, low, left);
    if |left| < |path| { CountBelow(cfg, path, |left|); } else { assert low == path; }
  }

  lemma {:induction false} StripSame(cfg: Cfg, a: Stack, b: Stack)
    requires |a| == |b| && forall i :: 0 <= i < |a| ==> SameNote(a[i], b[i])
    ensures |Strip(cfg, a)| == |Strip(cfg, b)|
    ensures forall i :: 0 <= i < |Strip(cfg, a)| ==> SameNote(Strip(cfg, a)[i], Strip(cfg, b)[i])
    decreases |a|
  {
    if a != [] {
      assert SameNote(a[|a| - 1], b[|a| - 1]);
      StripSame(cfg, a[..|a| - 1], b[..|a| - 1]);
    }
  }

  lemma RefillSame(stk: seq<Slot>, was: Stack, es: Stack, h: nat)
    requires h <= |stk| && was == Entries(stk[..h]) && |es| == h
    requires forall i :: 0 <= i < h ==> SameNote(was[i], es[i])
    ensures |Refill(stk, es)| == h && forall i :: 0 <= i < h ==> SameSlot(stk[..h][i], Refill(stk, es)[i])
  {
    var r := Refill(stk, es);
    assert |Entries(r)| == |r|;
    forall i | 0 <= i < h ensures SameSlot(stk[..h][i], r[i]) {
      assert SameNote(was[i], es[i]);
      assert Entries(r)[i] == r[i].e && Entries(stk[..h])[i] == stk[..h][i].e;
    }
  }

  // ----- pushing, for all groups -----

  /** Entries without notes are pushed. */
  lemma {:induction false} FaithfulMore(cfg: Cfg, total: multiset<nat>, path: Stack, c: Cells, more: Stack)
    requires Faithful(cfg, total, path, c) && forall i :: 0 <= i < |more| ==> NoMem(more[i])
    ensures Faithful(cfg, total, path + more, c.(stk := Refill(c.stk, Strip(cfg, path + more))))
    decreases |more|
  {
    if more == [] {
      assert path + more == path;
      RefillIs(c.stk, c.stk);
    } else {
      var n := |more| - 1;
      var p1, e := path + more[..n], more[n];
      assert p1 + [e] == path + more;
      FaithfulMore(cfg, total, path, c, more[..n]);
      var c1 := c.(stk := Refill(c.stk, Strip(cfg, p1)));
      FaithfulOne(cfg, total, p1, c1, e);
      FaithfulLined(cfg, total, path, c);
      FaithfulLined(cfg, total, p1, c1);
      CountMore(cfg, path, more[..n]);
      RefillTwice(c.stk, Strip(cfg, p1), Strip(cfg, p1 + [e]));
    }
  }

  lemma {:induction false} CountMore(cfg: Cfg, path: Stack, more: Stack)
    ensures Count(cfg, path) <= Count(cfg, path + more)
    decreases |more|
  {
    if more == [] {
      assert path + more == path;
    } else {
      assert (path + more)[..|path + more| - 1] == path + more[..|more| - 1];
      CountMore(cfg, path, more[..|more| - 1]);
    }
  }

  lemma RefillTwice(stk: seq<Slot>, a: Stack, b: Stack)
    requires |stk| <= |a|
    ensures Refill(Refill(stk, a), b) == Refill(stk, b)
  {
    var r := Refill(stk, a);
    assert |Entries(r)| == |r|;
    RefillsTrans(stk, r, Refill(r, b));
    RefillIs(stk, Refill(r, b));
  }

  lemma FaithfulOne(cfg: Cfg, total: multiset<nat>, path: Stack, c: Cells, e: Entry)
    requires Faithful(cfg, total, path, c) && NoMem(e)
    ensures Faithful(cfg, total, path + [e], c.(stk := Refill(c.stk, Strip(cfg, path + [e]))))
  {
    StripPush(cfg, path, e);
    var t := Slot(Moved(cfg, e, path), Invalid, Invalid);
    var now := c.stk + [t];
    EntriesPush(c.stk, t);
    RefillIs(c.stk, now);
    hide Truth, Strip, Refill;
    forall k: nat ensures Truth(cfg, total, path + [e], now, Get(c.start, k), Get(c.end, k), k) {
      FaithfulAt(cfg, total, path, c, k);
      TruthPush(cfg, total, path, e, c.stk, t, Get(c.start, k), Get(c.end, k), k);
    }
  }

  // ----- opening and closing a group -----

  lemma {:induction false} NotedOpens(path: Stack, k: nat)
    requires NotedIn(path, k).start.Some?
    ensures Opens(path, k) > 0
    decreases |path|
  {
    var n := |path| - 1;
    if !(path[n].MemStart? && path[n].num == k) { NotedOpens(path[..n], k); }
  }

  function Note(i: Instr, s: nat): Entry
    requires !NoGroup(i)
  {
    if i.OpMemoryStart? || i.OpMemoryStartPush? then MemStart(i.num, s) else MemEnd(i.num, s)
  }

  /** What is known where a group is opened or closed. */
  ghost predicate MemReady(cfg: Cfg, total: multiset<nat>, i: Instr, path: Stack)
    requires !NoGroup(i)
  {
    && MemBits(cfg, i)
    && (if i.OpMemoryStart? || i.OpMemoryStartPush? then
          i.num !in cfg.btMemStart ==> Opens(path, i.num) < total[i.num]
        else
          IsOpen(NotedIn(path, i.num))
          && (i.num !in cfg.btMemStart ==> 0 < Opens(path, i.num) <= total[i.num]))
  }

  lemma MemOwn(cfg: Cfg, total: multiset<nat>, i: Instr, s: nat, path: Stack, c: Cells, es: Stack)
    requires !NoGroup(i) && MemReady(cfg, total, i, path) && Lined(cfg, path, c.stk)
    requires Truth(cfg, total, path, c.stk, Get(c.start, i.num), Get(c.end, i.num), i.num)
    ensures var d := AfterInstr(i, s, c, es);
            Truth(cfg, total, path + [Note(i, s)], d.stk, Get(d.start, i.num), Get(d.end, i.num), i.num)
  {
    hide Truth, NotedIn, Opens, Refill, Undone;
    var k := i.num;
    var cs, ce := Get(c.start, k), Get(c.end, k);
    match i {
      case OpMemoryStartPush(_) => TruthOpen(cfg, total, path, s, c.stk, cs, ce, k);
      case OpMemoryStart(_) => TruthOpenRaw(cfg, total, path, s, c.stk, ce, k);
      case OpMemoryEndPush(_) => TruthClose(cfg, total, path, s, c.stk, cs, ce, k);
      case OpMemoryEnd(_) => TruthCloseRaw(cfg, total, path, s, c.stk, cs, ce, k);
    }
  }

  lemma MemOther(cfg: Cfg, total: multiset<nat>, i: Instr, s: nat, path: Stack, c: Cells, es: Stack, k: nat)
    requires !NoGroup(i) && MemBits(cfg, i) && k != i.num
    requires Truth(cfg, total, path, c.stk, Get(c.start, k), Get(c.end, k), k)
    ensures var d := AfterInstr(i, s, c, es);
            Truth(cfg, total, path + [Note(i, s)], d.stk, Get(d.start, k), Get(d.end, k), k)
  {
    hide Truth, Refill, Undone;
    var e := Note(i, s);
    var cs, ce := Get(c.start, k), Get(c.end, k);
    if Stays(cfg, e) {
      TruthPush(cfg, total, path, e, c.stk, Slot(e, Get(c.start, i.num), Get(c.end, i.num)), cs, ce, k);
    } else {
      TruthNote(cfg, total, path, e, c.stk, cs, ce, k);
    }
  }

  lemma MemEntries(cfg: Cfg, i: Instr, s: nat, path: Stack, c: Cells, es: Stack)
    requires !NoGroup(i) && MemBits(cfg, i) && Entries(c.stk) == Strip(cfg, path)
    ensures Entries(AfterInstr(i, s, c, es).stk) == Strip(cfg, path + [Note(i, s)])
  {
    hide Strip, Entries, Refill, Undone, Count;
    var e := Note(i, s);
    StripPush(cfg, path, e);
    EntriesPush(c.stk, Slot(e, Get(c.start, i.num), Get(c.end, i.num)));
  }

  lemma FaithfulMem(cfg: Cfg, total: multiset<nat>, i: Instr, s: nat, path: Stack, c: Cells, es: Stack)
    requires !NoGroup(i) && MemReady(cfg, total, i, path) && Faithful(cfg, total, path, c)
    ensures Faithful(cfg, total, path + [Note(i, s)], AfterInstr(i, s, c, es))
  {
    MemEntries(cfg, i, s, path, c, es);
    FaithfulLined(cfg, total, path, c);
    hide Truth, Strip, AfterInstr, Note, Entries, Count;
    var e, d := Note(i, s), AfterInstr(i, s, c, es);
    forall k: nat ensures Truth(cfg, total, path + [e], d.stk, Get(d.start, k), Get(d.end, k), k) {
      FaithfulAt(cfg, total, path, c, k);
      if k == i.num {
        MemOwn(cfg, total, i, s, path, c, es);
      } else {
        MemOther(cfg, total, i, s, path, c, es, k);
      }
    }
  }

  // ----- steps -----

  /** What an instruction that leaves the cells alone makes of the path: entries change in place, and entries
      without notes are pushed. */
  ghost predicate Shaped(path: Stack, st: State, mid: Stack, more: Stack) {
    && StackOf(st) == mid + more && |mid| == |path| && Leaves(path, mid)
    && forall i :: 0 <= i < |more| ==> NoMem(more[i])
  }

  lemma LeavesSelf(path: Stack)
    ensures Leaves(path, path)
  {
  }

  lemma {:induction false} StarShape(x: Subject, ml: bool, peek: Option<byte>, q: int, s: nat, path: Stack)
      returns (more: Stack)
    ensures Shaped(path, StarLoop(x, ml, peek, q, s, path), path, more)
    decreases |x.text| - s
  {
    LeavesSelf(path);
    more := [];
    if s < |x.text| {
      var first := if peek.None? || peek.value == x.text[s] then [StkAlt(q, s)] else [];
      var path' := if peek.None? || peek.value == x.text[s] then path + [StkAlt(q, s)] else path;
      assert path' == path + first;
      if !ml && x.text[s] == NEWLINE {
        more := first;
      } else {
        var rest := StarShape(x, ml, peek, q, s + 1, path');
        more := first + rest;
        assert path' + rest == path + more;
      }
    }
  }

  lemma IncShape(prog: Prog, id: nat, greedy: bool, q: int, s: nat, path: Stack) returns (mid: Stack, more: Stack)
    requires ExecInc(prog, id, greedy, q, s, path) != Stuck
    ensures Shaped(path, ExecInc(prog, id, greedy, q, s, path), mid, more)
  {
    var k := FindRepeat(path, id).value;
    var r := prog.ranges[id];
    var e := path[k].(count := path[k].count + 1);
    mid := path[k := e];
    if greedy {
      more := if e.count >= r.upper || e.count < r.lower then [RepeatInc(k)] else [StkAlt(q, s), RepeatInc(k)];
    } else {
      more := if e.count < r.upper && e.count >= r.lower then [RepeatInc(k), StkAlt(e.pcode, s)] else [RepeatInc(k)];
    }
  }

  lemma RepeatShape(prog: Prog, id: nat, greedy: bool, addr: int, q: int, s: nat, path: Stack) returns (more: Stack)
    requires ExecRepeat(prog, id, greedy, addr, q, s, path) != Stuck
    ensures Shaped(path, ExecRepeat(prog, id, greedy, addr, q, s, path), path, more)
  {
    LeavesSelf(path);
    var e := Repeat(0, q, id);
    more := if prog.ranges[id].lower != 0 then [e] else if greedy then [e, StkAlt(q + addr, s)] else [e, StkAlt(q, s)];
    assert path + [e] + [StkAlt(q + addr, s)] == path + [e, StkAlt(q + addr, s)];
    assert path + [e] + [StkAlt(q, s)] == path + [e, StkAlt(q, s)];
  }

  lemma PlainShape(prog: Prog, x: Subject, i: Instr, q: int, s: nat, path: Stack) returns (more: Stack)
    requires !Undoing.Reworks(i) && NoGroup(i)
    requires var st := Exec(prog, x, i, q, s, path); st.Run? || st.Fail?
    ensures Shaped(path, Exec(prog, x, i, q, s, path), path, more)
  {
    LeavesSelf(path);
    Undoing.ExecPushes(prog, x, i, q, s, path);
    PushedPlain(prog.rec, i, q, s, prog.code);
    hide Exec, Undoing.Reworks, Undoing.Pushed, NoGroup;
    var st := Exec(prog, x, i, q, s, path);
    var e := Undoing.Pushed(prog.rec, i, q, s);
    if StackOf(st) == path {
      more := [];
      assert path + [] == path;
    } else {
      more := [e.value];
    }
  }

  lemma VoidShape(path: Stack, m: Mark, st: State)
    requires VoidTo(path, m).Some? && StackOf(st) == VoidTo(path, m).value.0
    ensures Shaped(path, st, VoidTo(path, m).value.0, [])
  {
    hide VoidTo;
    VoidLeaves(path, m);
    assert VoidTo(path, m).value.0 + [] == VoidTo(path, m).value.0;
  }

  lemma MarkShape(prog: Prog, x: Subject, i: Instr, q: int, s: nat, path: Stack) returns (mid: Stack, more: Stack)
    requires (i.OpPopPos? || i.OpPopStopBt?) && Exec(prog, x, i, q, s, path) != Stuck
    ensures Shaped(path, Exec(prog, x, i, q, s, path), mid, more)
  {
    hide VoidTo, Leaves;
    var m := if i.OpPopPos? then MarkPos else MarkStopBt;
    VoidShape(path, m, Exec(prog, x, i, q, s, path));
    mid, more := VoidTo(path, m).value.0, [];
  }

  lemma Shape(prog: Prog, x: Subject, i: Instr, q: int, s: nat, path: Stack) returns (mid: Stack, more: Stack)
    requires NoGroup(i) && !TouchesCells(i) && !i.OpPop?
    requires var st := Exec(prog, x, i, q, s, path); st.Run? || st.Fail?
    ensures Shaped(path, Exec(prog, x, i, q, s, path), mid, more)
  {
    if Undoing.Reworks(i) { Reworking(i); }
    hide Exec, Shaped, Undoing.Reworks, NoGroup, OpensCounter, CounterInc, CounterId, ExecRepeat;
    mid := path;
    if !Undoing.Reworks(i) {
      more := PlainShape(prog, x, i, q, s, path);
    } else if i.OpAnyCharStar? || i.OpAnyCharStarPeekNext? {
      StarIs(prog, x, i, q, s, path);
      more := StarShape(x, i.ml, if i.OpAnyCharStar? then None else Some(i.c), q, s, path);
    } else if OpensCounter(i) {
      RepeatIs(prog, x, i, q, s, path);
      more := RepeatShape(prog, CounterId(i), i.OpRepeat?, i.addr, q, s, path);
    } else if CounterInc(i) {
      IncIs(prog, x, i, q, s, path);
      mid, more := IncShape(prog, CounterId(i), i.OpRepeatInc? || i.OpRepeatIncSg?, q, s, path);
    } else {
      mid, more := MarkShape(prog, x, i, q, s, path);
    }
  }

  /** Such an instruction keeps the truth. */
  lemma FaithfulShaped(cfg: Cfg, total: multiset<nat>, path: Stack, c: Cells, st: State, mid: Stack, more: Stack)
    requires Faithful(cfg, total, path, c) && Shaped(path, st, mid, more)
    ensures Faithful(cfg, total, StackOf(st), c.(stk := Refill(c.stk, Strip(cfg, StackOf(st)))))
  {
    FaithfulLined(cfg, total, path, c);
    LeftStrip(cfg, path, mid);
    assert path[..|path|] == path;
    FaithfulLeft(cfg, total, path, c, mid);
    var c1 := c.(stk := Refill(c.stk, Strip(cfg, mid)));
    assert Undone(c, Strip(cfg, mid)) == c1;
    hide Faithful, Strip, Refill, Undone, DropTo, Leaves;
    FaithfulMore(cfg, total, mid, c1, more);
    RefillTwice(c.stk, Strip(cfg, mid), Strip(cfg, mid + more));
  }
}
