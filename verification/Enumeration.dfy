/** How a piece of code behaves on a backtracking machine: it comes out at its end once for every
    result, in order; each time something behind it fails, it produces the next one; after the
    last one it fails into the stack it was started on. */
module Enumeration {
  import opened Regint
  import opened Machine

  /** A program on a text; spans: where the groups may begin and end, for the machine that notes it. */
  datatype Job = Job(prog: Prog, x: Subject, spans: iset<(nat, nat, nat)> := iset{})

  ghost predicate Reaches(j: Job, a: State, b: State) {
    exists n: nat :: Steps(j.prog, j.x, a, n) == b
  }

  /** Repeat and null-check numbers handed out while a piece of code was compiled. */
  datatype Ids = Ids(rlo: nat, rhi: nat, nlo: nat, nhi: nat)

  predicate Within(a: Ids, b: Ids) { b.rlo <= a.rlo && a.rhi <= b.rhi && b.nlo <= a.nlo && a.nhi <= b.nhi }

  /** Entries a piece of code may leave above the stack it started on, of height h: choice points
      and undo entries, but no open look-around or atomic mark. An increment entry belongs to a
      counter in the same part of the stack. */
  ghost predicate EntryOk(fr: Stack, i: nat, h: nat, ids: Ids)
    requires i < |fr|
  {
    match fr[i]
    case StkPosNot(_, _) => false
    case StkLookBehindNot(_, _) => false
    case Pos(_) => false
    case StopBt => false
    case RepeatInc(si) => h <= si < h + i && fr[si - h].Repeat?
    case Repeat(_, _, num) => ids.rlo <= num < ids.rhi
    case NullCheckStart(num, _) => ids.nlo <= num < ids.nhi
    case _ => true
  }

  ghost predicate FrameOk(fr: Stack, h: nat, ids: Ids) {
    forall i :: 0 <= i < |fr| ==> EntryOk(fr, i, h, ids)
  }

  /** Where group k was last opened, and where it was closed since, as a path notes it. */
  datatype Noted = Noted(start: Option<nat>, end: Option<nat>)

  const UNNOTED := Noted(None, None)

  function NotedIn(path: Stack, k: nat): Noted {
    if path == [] then UNNOTED
    else
      var n := |path| - 1;
      match path[n]
      case MemStart(num, s) => if num == k then Noted(Some(s), None) else NotedIn(path[..n], k)
      case MemEnd(num, s) => if num == k then Noted(NotedIn(path[..n], k).start, Some(s)) else NotedIn(path[..n], k)
      case _ => NotedIn(path[..n], k)
  }

  /** A group is noted not at all or with a span that is allowed. */
  predicate WholeIn(m: Noted, k: nat, spans: iset<(nat, nat, nat)>) {
    m == UNNOTED || (m.start.Some? && m.end.Some? && (k, m.start.value, m.end.value) in spans)
  }

  ghost predicate Legal(fr: Stack, spans: iset<(nat, nat, nat)>) { forall k: nat :: WholeIn(NotedIn(fr, k), k, spans) }

  ghost predicate FrameIn(j: Job, fr: Stack, h: nat, ids: Ids) {
    FrameOk(fr, h, ids) && (j.prog.rec ==> Legal(fr, j.spans))
  }

  /** From st the machine leaves at q with the results ends, one after the other, each time with
      base and some frame on the stack, and reaches fin when they are used up. */
  ghost predicate Enum(j: Job, st: State, base: Stack, q: int, ends: seq<nat>, fin: State, ids: Ids)
    decreases |ends|
  {
    if ends == [] then Reaches(j, st, fin)
    else exists fr: Stack ::
      && FrameIn(j, fr, |base|, ids)
      && Reaches(j, st, Run(q, ends[0], base + fr))
      && Enum(j, Fail(base + fr), base, q, ends[1..], fin, ids)
  }

  // ----- steps -----

  lemma {:induction false} StepsAdd(j: Job, a: State, m: nat, n: nat)
    ensures Steps(j.prog, j.x, Steps(j.prog, j.x, a, m), n) == Steps(j.prog, j.x, a, m + n)
    decreases m
  {
    if m > 0 { StepsAdd(j, Step(j.prog, j.x, a), m - 1, n); }
  }

  lemma ReachesSelf(j: Job, a: State)
    ensures Reaches(j, a, a)
  {
    assert Steps(j.prog, j.x, a, 0) == a;
  }

  lemma ReachesTrans(j: Job, a: State, b: State, c: State)
    requires Reaches(j, a, b) && Reaches(j, b, c)
    ensures Reaches(j, a, c)
  {
    var m: nat :| Steps(j.prog, j.x, a, m) == b;
    var n: nat :| Steps(j.prog, j.x, b, n) == c;
    StepsAdd(j, a, m, n);
  }

  lemma ReachesStep(j: Job, a: State)
    ensures Reaches(j, a, Step(j.prog, j.x, a))
  {
    assert Steps(j.prog, j.x, Step(j.prog, j.x, a), 0) == Step(j.prog, j.x, a);
    assert Steps(j.prog, j.x, a, 1) == Step(j.prog, j.x, a);
  }

  // ----- frames -----

  lemma FrameConcat(a: Stack, b: Stack, h: nat, ids: Ids)
    requires FrameOk(a, h, ids) && FrameOk(b, h + |a|, ids)
    ensures FrameOk(a + b, h, ids)
  {
    forall i | 0 <= i < |a + b| ensures EntryOk(a + b, i, h, ids) {
      if i < |a| { assert EntryOk(a, i, h, ids); } else { assert EntryOk(b, i - |a|, h + |a|, ids); }
    }
  }

  /** A group that is opened in b is what b says of it. */
  lemma {:induction false} NotedConcat(a: Stack, b: Stack, k: nat)
    requires NotedIn(b, k).start.None? ==> NotedIn(b, k).end.None?
    ensures NotedIn(a + b, k) == if NotedIn(b, k) == UNNOTED then NotedIn(a, k) else NotedIn(b, k)
    decreases |b|
  {
    if b == [] {
      assert a + b == a;
    } else {
      var n := |b| - 1;
      assert (a + b)[..|a + b| - 1] == a + b[..n];
      if !(b[n].MemStart? && b[n].num == k) { NotedConcat(a, b[..n], k); }
    }
  }

  lemma LegalConcat(a: Stack, b: Stack, spans: iset<(nat, nat, nat)>)
    requires Legal(a, spans) && Legal(b, spans)
    ensures Legal(a + b, spans)
  {
    forall k: nat ensures WholeIn(NotedIn(a + b, k), k, spans) {
      assert WholeIn(NotedIn(a, k), k, spans) && WholeIn(NotedIn(b, k), k, spans);
      NotedConcat(a, b, k);
    }
  }

  /** Entries that open and close no group leave nothing noted. */
  lemma {:induction false} NotedNone(fr: Stack, k: nat)
    requires forall i :: 0 <= i < |fr| ==> NoMem(fr[i])
    ensures NotedIn(fr, k) == UNNOTED
    decreases |fr|
  {
    if fr != [] { NotedNone(fr[..|fr| - 1], k); }
  }

  lemma LegalNone(fr: Stack, spans: iset<(nat, nat, nat)>)
    requires forall i :: 0 <= i < |fr| ==> NoMem(fr[i])
    ensures Legal(fr, spans)
  {
    forall k: nat ensures WholeIn(NotedIn(fr, k), k, spans) { NotedNone(fr, k); }
  }

  /** Only the entries of groups matter. */
  lemma {:induction false} NotedSame(a: Stack, b: Stack, k: nat)
    requires |a| == |b| && forall i :: 0 <= i < |a| ==> a[i] == b[i] || (NoMem(a[i]) && NoMem(b[i]))
    ensures NotedIn(a, k) == NotedIn(b, k)
    decreases |a|
  {
    if a != [] {
      var n := |a| - 1;
      assert a[n] == b[n] || (NoMem(a[n]) && NoMem(b[n]));
      NotedSame(a[..n], b[..n], k);
    }
  }

  lemma FrameInConcat(j: Job, a: Stack, b: Stack, h: nat, ids: Ids)
    requires FrameIn(j, a, h, ids) && FrameIn(j, b, h + |a|, ids)
    ensures FrameIn(j, a + b, h, ids)
  {
    FrameConcat(a, b, h, ids);
    if j.prog.rec { LegalConcat(a, b, j.spans); }
  }

  /** A frame without groups. */
  lemma FrameNone(j: Job, fr: Stack, h: nat, ids: Ids)
    requires FrameOk(fr, h, ids) && forall i :: 0 <= i < |fr| ==> NoMem(fr[i])
    ensures FrameIn(j, fr, h, ids)
  {
    LegalNone(fr, j.spans);
  }

  lemma LegalSame(j: Job, a: Stack, b: Stack)
    requires |a| == |b| && forall i :: 0 <= i < |a| ==> a[i] == b[i] || (NoMem(a[i]) && NoMem(b[i]))
    requires j.prog.rec ==> Legal(a, j.spans)
    ensures j.prog.rec ==> Legal(b, j.spans)
  {
    if j.prog.rec {
      forall k: nat ensures WholeIn(NotedIn(b, k), k, j.spans) {
        assert WholeIn(NotedIn(a, k), k, j.spans);
        NotedSame(a, b, k);
      }
    }
  }

  lemma FramePrefix(fr: Stack, n: nat, h: nat, ids: Ids)
    requires n <= |fr| && FrameOk(fr, h, ids)
    ensures FrameOk(fr[..n], h, ids)
  {
    forall i | 0 <= i < |fr[..n]| ensures EntryOk(fr[..n], i, h, ids) { assert EntryOk(fr, i, h, ids); }
  }

  lemma FrameWiden(fr: Stack, h: nat, a: Ids, b: Ids)
    requires FrameOk(fr, h, a) && Within(a, b)
    ensures FrameOk(fr, h, b)
  {
    forall i | 0 <= i < |fr| ensures EntryOk(fr, i, h, b) { assert EntryOk(fr, i, h, a); }
  }

  /** Dropping the top entry and undoing it keeps a frame a frame. */
  lemma FrameUndo(base: Stack, fr: Stack, ids: Ids) returns (fr': Stack)
    requires fr != [] && FrameOk(fr, |base|, ids)
    ensures |fr'| == |fr| - 1 && FrameOk(fr', |base|, ids)
    ensures Undo(fr[|fr| - 1], base + fr[..|fr| - 1]) == Some(base + fr')
    ensures forall i :: 0 <= i < |fr'| ==> PopUsed(fr'[i]) ==> PopUsed(fr[i])
  {
    var n := |fr| - 1;
    var e := fr[n];
    assert EntryOk(fr, n, |base|, ids);
    if e.RepeatInc? {
      var k := e.si - |base|;
      fr' := fr[..n][k := fr[k].(count := fr[k].count - 1)];
      assert (base + fr[..n])[e.si := fr[k].(count := fr[k].count - 1)] == base + fr';
    } else {
      fr' := fr[..n];
    }
    forall i | 0 <= i < |fr'| ensures EntryOk(fr', i, |base|, ids) { assert EntryOk(fr, i, |base|, ids); }
  }

  /** Without choice points in it, a frame is popped as a whole. */
  lemma {:induction false} PopThrough(j: Job, base: Stack, fr: Stack, ids: Ids)
    requires FrameOk(fr, |base|, ids)
    requires forall i :: 0 <= i < |fr| ==> !PopUsed(fr[i])
    ensures Reaches(j, Fail(base + fr), Fail(base))
    decreases |fr|
  {
    if fr == [] {
      assert base + fr == base;
      ReachesSelf(j, Fail(base));
    } else {
      var stk := base + fr;
      assert stk[..|stk| - 1] == base + fr[..|fr| - 1];
      var fr' := FrameUndo(base, fr, ids);
      ReachesStep(j, Fail(stk));
      PopThrough(j, base, fr', ids);
      ReachesTrans(j, Fail(stk), Fail(base + fr'), Fail(base));
    }
  }

  /** The frame with its choice points and null-check starts blanked. */
  function Blank(fr: Stack): (r: Stack)
    ensures |r| == |fr|
    ensures forall i :: 0 <= i < |fr| ==> r[i] == if ToVoidTarget(fr[i]) then Void else fr[i]
  {
    if fr == [] then [] else Blank(fr[..|fr| - 1]) + [if ToVoidTarget(fr[|fr| - 1]) then Void else fr[|fr| - 1]]
  }

  lemma BlankOk(fr: Stack, h: nat, ids: Ids)
    requires FrameOk(fr, h, ids)
    ensures FrameOk(Blank(fr), h, ids)
    ensures forall i :: 0 <= i < |fr| ==> !PopUsed(Blank(fr)[i])
  {
    hide Blank;
    forall i | 0 <= i < |fr| ensures EntryOk(Blank(fr), i, h, ids) { assert EntryOk(fr, i, h, ids); }
  }

  /** Closing a group finds its own opening mark, whatever the frame above it holds. */
  lemma {:induction false} VoidToMark(base: Stack, e: Entry, fr: Stack, m: Mark, ids: Ids)
    requires FrameOk(fr, |base| + 1, ids)
    requires IsMark(e, m) && !ToVoidTarget(e)
    ensures VoidTo(base + [e] + fr, m) == Some((base + [Void] + Blank(fr), e))
    decreases |fr|
  {
    var stk := base + [e] + fr;
    if fr == [] {
      assert stk[..|stk| - 1] == base;
      assert base + [Void] + Blank(fr) == base + [Void];
    } else {
      var n := |fr| - 1;
      assert stk[..|stk| - 1] == base + [e] + fr[..n];
      assert stk[|stk| - 1] == fr[n];
      assert EntryOk(fr, n, |base| + 1, ids);
      FramePrefix(fr, n, |base| + 1, ids);
      VoidToMark(base, e, fr[..n], m, ids);
      var top := if ToVoidTarget(fr[n]) then Void else fr[n];
      assert base + [Void] + Blank(fr) == base + [Void] + Blank(fr[..n]) + [top];
    }
  }

  /** Failing a negative look-around pops exactly down to its own opening mark. */
  lemma {:induction false} PopTilMark(base: Stack, e: Entry, fr: Stack, m: Mark, ids: Ids)
    requires FrameOk(fr, |base| + 1, ids)
    requires IsMark(e, m)
    ensures PopTil(base + [e] + fr, m) == Some(base)
    decreases |fr|
  {
    var stk := base + [e] + fr;
    if fr == [] {
      assert stk[..|stk| - 1] == base;
    } else {
      var n := |fr| - 1;
      assert EntryOk(fr, n, |base| + 1, ids);
      assert stk[|stk| - 1] == fr[n];
      assert stk[..|stk| - 1] == base + [e] + fr[..n];
      var fr' := FrameUndo(base + [e], fr, ids);
      PopTilMark(base, e, fr', m, ids);
    }
  }

  /** The counter a loop finds is its own. */
  lemma {:induction false} FindRepeatHere(base: Stack, e: Entry, fr: Stack)
    requires e.Repeat?
    requires forall i :: 0 <= i < |fr| ==> fr[i].Repeat? ==> fr[i].num != e.num
    ensures FindRepeat(base + [e] + fr, e.num) == Some(|base|)
    decreases |fr|
  {
    var stk := base + [e] + fr;
    if fr != [] {
      var n := |fr| - 1;
      assert stk[..|stk| - 1] == base + [e] + fr[..n];
      assert stk[|stk| - 1] == fr[n];
      FindRepeatHere(base, e, fr[..n]);
    }
  }

  /** The start an empty check finds is that of the current iteration. */
  lemma {:induction false} FindNullCheckHere(base: Stack, e: Entry, fr: Stack)
    requires e.NullCheckStart?
    requires forall i :: 0 <= i < |fr| ==> fr[i].NullCheckStart? ==> fr[i].num != e.num
    ensures FindNullCheck(base + [e] + fr, e.num) == Some(e.pstr)
    decreases |fr|
  {
    var stk := base + [e] + fr;
    if fr != [] {
      var n := |fr| - 1;
      assert stk[..|stk| - 1] == base + [e] + fr[..n];
      assert stk[|stk| - 1] == fr[n];
      FindNullCheckHere(base, e, fr[..n]);
    }
  }

  // ----- the calculus -----

  lemma EnumNone(j: Job, st: State, base: Stack, q: int, fin: State, ids: Ids)
    requires Reaches(j, st, fin)
    ensures Enum(j, st, base, q, [], fin, ids)
  {
  }

  lemma EnumEmpty(j: Job, st: State, base: Stack, q: int, fin: State, a: Ids, base': Stack, q': int, ids: Ids)
    requires Enum(j, st, base, q, [], fin, a)
    ensures Enum(j, st, base', q', [], fin, ids)
  {
  }

  lemma EnumNext(j: Job, st: State, base: Stack, q: int, ends: seq<nat>, fin: State, ids: Ids) returns (fr: Stack)
    requires ends != [] && Enum(j, st, base, q, ends, fin, ids)
    ensures FrameIn(j, fr, |base|, ids) && FrameOk(fr, |base|, ids)
    ensures Reaches(j, st, Run(q, ends[0], base + fr))
    ensures Enum(j, Fail(base + fr), base, q, ends[1..], fin, ids)
  {
    fr :|
      && FrameIn(j, fr, |base|, ids)
      && Reaches(j, st, Run(q, ends[0], base + fr))
      && Enum(j, Fail(base + fr), base, q, ends[1..], fin, ids);
  }

  lemma EnumCons(j: Job, st: State, base: Stack, fr: Stack, q: int, e: nat, rest: seq<nat>, fin: State, ids: Ids)
    requires FrameIn(j, fr, |base|, ids)
    requires Reaches(j, st, Run(q, e, base + fr)) && Enum(j, Fail(base + fr), base, q, rest, fin, ids)
    ensures Enum(j, st, base, q, [e] + rest, fin, ids)
  {
    assert ([e] + rest)[1..] == rest;
  }

  lemma EnumOne(j: Job, st: State, base: Stack, fr: Stack, q: int, e: nat, fin: State, ids: Ids)
    requires FrameIn(j, fr, |base|, ids)
    requires Reaches(j, st, Run(q, e, base + fr)) && Reaches(j, Fail(base + fr), fin)
    ensures Enum(j, st, base, q, [e], fin, ids)
  {
    EnumCons(j, st, base, fr, q, e, [], fin, ids);
    assert [e] + [] == [e];
  }

  /** Being there already: the start state is the only result. */
  lemma EnumHere(j: Job, base: Stack, q: int, e: nat, ids: Ids)
    ensures Enum(j, Run(q, e, base), base, q, [e], Fail(base), ids)
  {
    assert base + [] == base;
    FrameNone(j, [], |base|, ids);
    ReachesSelf(j, Run(q, e, base));
    ReachesSelf(j, Fail(base));
    EnumOne(j, Run(q, e, base), base, [], q, e, Fail(base), ids);
  }

  lemma EnumFrom(j: Job, st: State, st': State, base: Stack, q: int, ends: seq<nat>, fin: State, ids: Ids)
    requires Reaches(j, st, st') && Enum(j, st', base, q, ends, fin, ids)
    ensures Enum(j, st, base, q, ends, fin, ids)
  {
    if ends == [] {
      ReachesTrans(j, st, st', fin);
    } else {
      var fr := EnumNext(j, st', base, q, ends, fin, ids);
      ReachesTrans(j, st, st', Run(q, ends[0], base + fr));
    }
  }

  lemma EnumNil(j: Job, st: State, base: Stack, q: int, fin: State, ids: Ids)
    ensures Enum(j, st, base, q, [], fin, ids) <==> Reaches(j, st, fin)
  {
  }

  lemma {:induction false} EnumThen(j: Job, st: State, base: Stack, q: int, ends: seq<nat>, mid: State, more: seq<nat>,
                                    fin: State, ids: Ids)
    requires Enum(j, st, base, q, ends, mid, ids) && Enum(j, mid, base, q, more, fin, ids)
    ensures Enum(j, st, base, q, ends + more, fin, ids)
    decreases |ends|
  {
    hide Enum, FrameIn, FrameOk, Reaches;
    if ends == [] {
      EnumNil(j, st, base, q, mid, ids);
      EnumFrom(j, st, mid, base, q, more, fin, ids);
      assert ends + more == more;
    } else {
      var fr := EnumNext(j, st, base, q, ends, mid, ids);
      assert ends + more == [ends[0]] + (ends[1..] + more);
      EnumThen(j, Fail(base + fr), base, q, ends[1..], mid, more, fin, ids);
      EnumCons(j, st, base, fr, q, ends[0], ends[1..] + more, fin, ids);
    }
  }

  /** Results found above base + ext are results found above base. */
  lemma {:induction false} EnumLift(j: Job, st: State, base: Stack, ext: Stack, q: int, ends: seq<nat>, fin: State,
                                    a: Ids, ids: Ids)
    requires FrameIn(j, ext, |base|, ids) && Within(a, ids)
    requires Enum(j, st, base + ext, q, ends, fin, a)
    ensures Enum(j, st, base, q, ends, fin, ids)
    decreases |ends|
  {
    if ends != [] {
      var fr := EnumNext(j, st, base + ext, q, ends, fin, a);
      FrameWiden(fr, |base + ext|, a, ids);
      FrameInConcat(j, ext, fr, |base|, ids);
      assert base + ext + fr == base + (ext + fr);
      EnumLift(j, Fail(base + ext + fr), base, ext, q, ends[1..], fin, a, ids);
    }
  }

  lemma {:induction false} EnumEnd(j: Job, st: State, base: Stack, q: int, ends: seq<nat>, mid: State, fin: State,
                                   ids: Ids)
    requires Enum(j, st, base, q, ends, mid, ids) && Reaches(j, mid, fin)
    ensures Enum(j, st, base, q, ends, fin, ids)
    decreases |ends|
  {
    if ends == [] {
      ReachesTrans(j, st, mid, fin);
    } else {
      var fr := EnumNext(j, st, base, q, ends, mid, ids);
      EnumEnd(j, Fail(base + fr), base, q, ends[1..], mid, fin, ids);
    }
  }

  lemma EnumWiden(j: Job, st: State, base: Stack, q: int, ends: seq<nat>, fin: State, a: Ids, ids: Ids)
    requires Within(a, ids) && Enum(j, st, base, q, ends, fin, a)
    ensures Enum(j, st, base, q, ends, fin, ids)
  {
    assert base + [] == base;
    FrameNone(j, [], |base|, ids);
    EnumLift(j, st, base, [], q, ends, fin, a, ids);
  }

  /** A step taken at every exit moves the exit. */
  lemma {:induction false} EnumMove(j: Job, st: State, base: Stack, q: int, q': int, ends: seq<nat>, fin: State,
                                    ids: Ids)
    requires Enum(j, st, base, q, ends, fin, ids)
    requires forall e: nat, stk: Stack :: Step(j.prog, j.x, Run(q, e, stk)) == Run(q', e, stk)
    ensures Enum(j, st, base, q', ends, fin, ids)
    decreases |ends|
  {
    if ends != [] {
      var fr := EnumNext(j, st, base, q, ends, fin, ids);
      ReachesStep(j, Run(q, ends[0], base + fr));
      ReachesTrans(j, st, Run(q, ends[0], base + fr), Run(q', ends[0], base + fr));
      EnumMove(j, Fail(base + fr), base, q, q', ends[1..], fin, ids);
    }
  }
}
