/** The literal and byte-map searches of Dependencies/oniguruma5/regexec.c and the skip tables of
    regcomp.c. Character lengths are given per position, so that the searches that step over
    characters are covered for every encoding. */
module Searching {
  import opened Regint
  import opened CharHeads

  type Text = seq<byte>

  predicate Occurs(text: Text, p: int, target: Text) {
    0 <= p && p + |target| <= |text| && text[p..p + |target|] == target
  }

  /** The first character head in [from, range) where the target stands. */
  function FirstHead(target: Text, text: Text, lens: seq<nat>, from: nat, range: int): Option<nat>
    requires |lens| == |text| && Lens(lens)
    decreases |text| - from
  {
    if from >= range || from >= |text| then None
    else if Occurs(text, from, target) then Some(from)
    else FirstHead(target, text, lens, from + lens[from], range)
  }

  /** The first place in [from, range) where the target stands: trying every position. */
  function FirstOcc(target: Text, text: Text, from: nat, range: int): Option<nat>
    decreases |text| - from
  {
    if from >= range || from >= |text| then None
    else if Occurs(text, from, target) then Some(from)
    else FirstOcc(target, text, from + 1, range)
  }

  /** The last character head in [low, from] where the target stands. */
  function LastHead(target: Text, text: Text, lens: seq<nat>, low: nat, from: int): Option<nat>
    requires Lens(lens)
    decreases from
  {
    if from < low then None
    else if IsHead(lens, from) && Occurs(text, from, target) then Some(from)
    else LastHead(target, text, lens, low, from - 1)
  }

  predicate SingleByte(lens: seq<nat>) { forall i :: 0 <= i < |lens| ==> lens[i] == 1 }

  lemma {:induction false} FirstHeadSingle(target: Text, text: Text, lens: seq<nat>, from: nat, range: int)
    requires |lens| == |text| && SingleByte(lens)
    ensures FirstHead(target, text, lens, from, range) == FirstOcc(target, text, from, range)
    decreases |text| - from
  {
    if from < range && from < |text| { FirstHeadSingle(target, text, lens, from + 1, range); }
  }

  /** FirstHead is the least head, walking from from, where the target stands. */
  lemma {:induction false} FirstHeadLeast(target: Text, text: Text, lens: seq<nat>, from: nat, range: int)
    requires target != [] && |lens| == |text| && Lens(lens)
    ensures match FirstHead(target, text, lens, from, range)
            case Some(p) => from <= p < range && HeadOf(lens, from, p) == p && Occurs(text, p, target)
                            && forall i :: from <= i < p && HeadOf(lens, from, i) == i ==> !Occurs(text, i, target)
            case None => forall i :: from <= i < range && HeadOf(lens, from, i) == i ==> !Occurs(text, i, target)
    decreases |text| - from
  {
    if from < range && from < |text| { FirstHeadLeast(target, text, lens, from + lens[from], range); }
  }

  /** FirstOcc is the least occurrence in the range. */
  lemma {:induction false} FirstOccLeast(target: Text, text: Text, from: nat, range: int)
    requires target != []
    ensures match FirstOcc(target, text, from, range)
            case Some(p) => from <= p < range && Occurs(text, p, target) && forall i :: from <= i < p ==>
              !Occurs(text, i, target)
            case None => forall i :: from <= i < range ==> !Occurs(text, i, target)
    decreases |text| - from
  {
    if from < range && from < |text| { FirstOccLeast(target, text, from + 1, range); }
  }

  /** Positions without an occurrence can be passed over. */
  lemma {:induction false} FirstOccSkip(target: Text, text: Text, from: nat, to: nat, range: int)
    requires target != [] && from <= to && forall i :: from <= i < to ==> !Occurs(text, i, target)
    ensures FirstOcc(target, text, from, range) == FirstOcc(target, text, to, range)
    decreases |text| + to - from
  {
    if from < to {
      FirstOccSkip(target, text, from + 1, to, range);
      if from >= |text| || from >= range { assert FirstOcc(target, text, to, range) == None; }
    }
  }

  lemma {:induction false} NoneBeyond(target: Text, text: Text, from: nat, range: int)
    requires target != [] && (from >= range || from + |target| > |text|)
    ensures FirstOcc(target, text, from, range) == None
    decreases |text| - from
  {
    if from < range && from < |text| { NoneBeyond(target, text, from + 1, range); }
  }

  lemma {:induction false} NoHeadBeyond(target: Text, text: Text, lens: seq<nat>, from: nat, range: int)
    requires target != [] && (from >= range || from + |target| > |text|)
    requires |lens| == |text| && Lens(lens)
    ensures FirstHead(target, text, lens, from, range) == None
    decreases |text| - from
  {
    if from < range && from < |text| { NoHeadBeyond(target, text, lens, from + lens[from], range); }
  }

  function Min(a: int, b: int): int { if a < b then a else b }

  // ----- slow_search -----

  method SlowSearch(target: Text, text: Text, lens: seq<nat>, from: nat, range: int) returns (r: Option<nat>)
    requires target != [] && |lens| == |text| && Lens(lens)
    ensures r == FirstHead(target, text, lens, from, range)
  {
    var end := Min(|text| - (|target| - 1), range);
    var s := from;
    while s < end
      invariant FirstHead(target, text, lens, from, range) == FirstHead(target, text, lens, s, range)
      decreases end - s
    {
      if text[s] == target[0] {
        var t := 1;
        while t < |target| && target[t] == text[s + t]
          invariant 1 <= t <= |target| && forall i :: 0 <= i < t ==> target[i] == text[s + i]
        {
          t := t + 1;
        }
        if t == |target| {
          assert text[s..s + |target|] == target;
          return Some(s);
        }
        assert text[s..s + |target|][t] != target[t];
      } else {
        assert text[s..s + |target|][0] != target[0];
      }
      s := s + lens[s];
    }
    NoHeadBeyond(target, text, lens, s, range);
    r := None;
  }

  // ----- Boyer-Moore-Horspool -----

  /** Distance from the last c in front of the final byte to the end; the whole length if there is none. */
  function SkipOf(target: Text, n: nat, c: byte): nat
    requires n < |target|
  {
    if n == 0 then |target|
    else if target[n - 1] == c then |target| - n
    else SkipOf(target, n - 1, c)
  }

  lemma {:induction false} SkipBound(target: Text, n: nat, c: byte)
    requires n < |target|
    ensures 1 <= SkipOf(target, n, c) <= |target|
    ensures forall j :: 0 <= j < n && target[j] == c ==> SkipOf(target, n, c) <= |target| - 1 - j
  {
    if n > 0 { SkipBound(target, n - 1, c); }
  }

  /** set_bm_skip */
  method SetBmSkip(target: Text) returns (skip: array<nat>)
    requires target != []
    ensures fresh(skip) && skip.Length == 256
    ensures forall c: byte :: skip[c] == SkipOf(target, |target| - 1, c)
  {
    var len := |target|;
    skip := new nat[256];
    var i := 0;
    while i < 256
      invariant 0 <= i <= 256 && forall c :: 0 <= c < i ==> skip[c] == len
    {
      skip[i] := len;
      i := i + 1;
    }
    i := 0;
    while i < len - 1
      invariant 0 <= i <= len - 1 && forall c: byte :: skip[c] == SkipOf(target, i, c)
    {
      skip[target[i]] := len - 1 - i;
      i := i + 1;
    }
  }

  /** Comparing backwards from the last byte of a window that begins at q. */
  method MatchesBack(target: Text, text: Text, q: nat) returns (ok: bool)
    requires target != [] && q + |target| <= |text|
    ensures ok == Occurs(text, q, target)
  {
    var t := |target| - 1;
    while t >= 0 && text[q + t] == target[t]
      invariant -1 <= t < |target| && forall i :: t < i < |target| ==> text[q + i] == target[i]
      decreases t
    {
      t := t - 1;
    }
    ok := t < 0;
    if ok {
      assert text[q..q + |target|] == target;
    } else {
      assert text[q..q + |target|][t] != target[t];
    }
  }

  lemma OccursByte(text: Text, i: nat, target: Text, j: nat)
    requires j < |target|
    ensures Occurs(text, i, target) ==> i + j < |text| && text[i + j] == target[j]
  {
    if Occurs(text, i, target) { assert text[i..i + |target|][j] == text[i + j]; }
  }

  /** What the skip table promises: no window begins less than skip behind q. */
  lemma SkipSafe(target: Text, text: Text, q: nat, i: nat)
    requires target != [] && q + |target| <= |text| && q < i < q + SkipOf(target, |target| - 1, text[q + |target| - 1])
    ensures !Occurs(text, i, target)
  {
    var c := text[q + |target| - 1];
    SkipBound(target, |target| - 1, c);
    OccursByte(text, i, target, q + |target| - 1 - i);
  }

  method BmSearch(target: Text, skip: array<nat>, text: Text, from: nat, range: int) returns (r: Option<nat>)
    requires target != [] && skip.Length == 256 && forall c: byte :: skip[c] == SkipOf(target, |target| - 1, c)
    ensures r == FirstOcc(target, text, from, range)
  {
    var tail := |target| - 1;
    var end := Min(range + tail, |text|);
    var s := from + tail;
    while s < end
      invariant s - tail >= from && FirstOcc(target, text, from, range) == FirstOcc(target, text, s - tail, range)
      decreases end - s
    {
      var found := MatchesBack(target, text, s - tail);
      if found { return Some(s - tail); }
      SkipBound(target, tail, text[s]);
      forall i | s - tail < i < s - tail + skip[text[s]] ensures !Occurs(text, i, target) {
        SkipSafe(target, text, s - tail, i);
      }
      FirstOccSkip(target, text, s - tail, s - tail + skip[text[s]], range);
      s := s + skip[text[s]];
    }
    NoneBeyond(target, text, s - tail, range);
    r := None;
  }

  /** The same over character heads: the skip is reached in steps of whole characters. */
  method BmSearchNotRev(target: Text, skip: array<nat>, text: Text, lens: seq<nat>, from: nat,
                        range: int) returns (r: Option<nat>)
    requires target != [] && skip.Length == 256 && forall c: byte :: skip[c] == SkipOf(target, |target| - 1, c)
    requires |lens| == |text| && Lens(lens)
    ensures r == FirstHead(target, text, lens, from, range)
  {
    var tail := |target| - 1;
    var end := if range + tail > |text| then |text| - tail else range;
    var s := from;
    while s < end
      invariant FirstHead(target, text, lens, from, range) == FirstHead(target, text, lens, s, range)
      decreases end - s
    {
      var found := MatchesBack(target, text, s);
      if found { return Some(s); }
      var jump := skip[text[s + tail]];
      var t := s;
      forall i | t < i < t + jump ensures !Occurs(text, i, target) { SkipSafe(target, text, t, i); }
      s := s + lens[s];
      while s - t < jump && s < end
        invariant s > t && FirstHead(target, text, lens, from, range) == FirstHead(target, text, lens, s, range)
        decreases end - s
      {
        assert !Occurs(text, s, target);
        s := s + lens[s];
      }
    }
    NoHeadBeyond(target, text, lens, s, range);
    r := None;
  }

  // ----- map_search -----

  function FirstIn(bytes: set<byte>, text: Text, lens: seq<nat>, from: nat, range: int): Option<nat>
    requires |lens| == |text| && Lens(lens)
    decreases |text| - from
  {
    if from >= range || from >= |text| then None
    else if text[from] in bytes then Some(from)
    else FirstIn(bytes, text, lens, from + lens[from], range)
  }

  method MapSearch(bytes: set<byte>, text: Text, lens: seq<nat>, from: nat, range: int) returns (r: Option<nat>)
    requires |lens| == |text| && range <= |text| && Lens(lens)
    ensures r == FirstIn(bytes, text, lens, from, range)
  {
    var s := from;
    while s < range
      invariant FirstIn(bytes, text, lens, from, range) == FirstIn(bytes, text, lens, s, range)
      decreases range - s
    {
      if text[s] in bytes { return Some(s); }
      s := s + lens[s];
    }
    r := None;
  }

  /** FirstIn is the least head, walking from from, whose byte is in the set. */
  lemma {:induction false} FirstInLeast(bytes: set<byte>, text: Text, lens: seq<nat>, from: nat, range: int)
    requires |lens| == |text| && Lens(lens) && range <= |text|
    ensures match FirstIn(bytes, text, lens, from, range)
            case Some(p) => from <= p < range && HeadOf(lens, from, p) == p && text[p] in bytes
                            && forall i :: from <= i < p && HeadOf(lens, from, i) == i ==> text[i] !in bytes
            case None => forall i :: from <= i < range && HeadOf(lens, from, i) == i ==> text[i] !in bytes
    decreases |text| - from
  {
    if from < range && from < |text| { FirstInLeast(bytes, text, lens, from + lens[from], range); }
  }

  // ----- backward searches -----

  /** LastHead is the greatest such head in the range. */
  lemma {:induction false} LastHeadGreatest(target: Text, text: Text, lens: seq<nat>, low: nat, from: int)
    requires Lens(lens)
    ensures match LastHead(target, text, lens, low, from)
            case Some(p) => low <= p <= from && IsHead(lens, p) && Occurs(text, p, target)
                            && forall i: nat :: p < i <= from && IsHead(lens, i) ==> !Occurs(text, i, target)
            case None => forall i: nat :: low <= i <= from && IsHead(lens, i) ==> !Occurs(text, i, target)
    decreases from
  {
    if from >= low { LastHeadGreatest(target, text, lens, low, from - 1); }
  }

  /** Places that are no heads, or without an occurrence, can be passed over. */
  lemma {:induction false} LastHeadSkip(target: Text, text: Text, lens: seq<nat>, low: nat, from: int, to: int)
    requires Lens(lens) && to <= from
    requires forall i: nat :: to < i <= from && IsHead(lens, i) ==> !Occurs(text, i, target)
    ensures LastHead(target, text, lens, low, from) == LastHead(target, text, lens, low, to)
    decreases from - to
  {
    if to < from {
      LastHeadSkip(target, text, lens, low, from - 1, to);
      if from < low { assert LastHead(target, text, lens, low, to) == None; }
    }
  }

  /** onigenc_get_left_adjust_char_head, from anywhere behind the start of the text. */
  method LeftAdjust(target: Text, text: Text, lens: seq<nat>, low: nat, s: int) returns (r: int)
    requires Lens(lens)
    ensures r <= s && (s >= 0 ==> r >= 0 && IsHead(lens, r))
    ensures LastHead(target, text, lens, low, s) == LastHead(target, text, lens, low, r)
  {
    if s < 0 { return s; }
    r := HeadOf(lens, 0, s);
    HeadIsHead(lens, 0, s);
    forall t: nat | r < t <= s ensures !IsHead(lens, t) { HeadInside(lens, r, t); }
    LastHeadSkip(target, text, lens, low, s, r);
  }

  /** What a backward search finds from s on: s itself, head or not, and then the heads before it. */
  function LastFrom(target: Text, text: Text, lens: seq<nat>, low: nat, s: int): Option<nat>
    requires Lens(lens)
  {
    if s >= low && Occurs(text, s, target) then Some(s) else LastHead(target, text, lens, low, s)
  }

  /** From a head, or from where the target does not fit any more, these are just the heads. */
  lemma LastFromHead(target: Text, text: Text, lens: seq<nat>, low: nat, s: int)
    requires Lens(lens) && (s >= 0 ==> IsHead(lens, s) || !Occurs(text, s, target))
    ensures LastFrom(target, text, lens, low, s) == LastHead(target, text, lens, low, s)
  {
  }

  /** Where a backward search begins: at from, or at the head of the last place where the target fits. */
  method BackStart(target: Text, text: Text, lens: seq<nat>, low: nat, from: int) returns (s: int)
    requires Lens(lens) && target != []
    ensures s <= |text| - |target|
    ensures LastFrom(target, text, lens, low, s) ==
            if from < |text| - |target| then LastFrom(target, text, lens, low, from)
            else LastHead(target, text, lens, low, from)
  {
    s := |text| - |target|;
    if s > from {
      s := from;
    } else {
      LastHeadSkip(target, text, lens, low, from, s);
      s := LeftAdjust(target, text, lens, low, s);
      LastFromHead(target, text, lens, low, s);
    }
  }

  /** Comparing forward from s. */
  method MatchesFrom(target: Text, text: Text, s: nat) returns (ok: bool)
    requires s + |target| <= |text|
    ensures ok == Occurs(text, s, target)
  {
    var t := 0;
    while t < |target| && text[s + t] == target[t]
      invariant 0 <= t <= |target| && forall i :: 0 <= i < t ==> text[s + i] == target[i]
    {
      t := t + 1;
    }
    ok := t == |target|;
    if ok {
      assert text[s..s + |target|] == target;
    } else {
      assert text[s..s + |target|][t] != target[t];
    }
  }

  /** slow_search_backward */
  method SlowSearchBackward(target: Text, text: Text, lens: seq<nat>, low: nat, from: int) returns (r: Option<nat>)
    requires target != [] && Lens(lens)
    ensures r == if from < |text| - |target| then LastFrom(target, text, lens, low, from)
                 else LastHead(target, text, lens, low, from)
  {
    var s := BackStart(target, text, lens, low, from);
    ghost var goal := LastFrom(target, text, lens, low, s);
    while s >= low
      invariant s <= |text| - |target| && goal == LastFrom(target, text, lens, low, s)
      decreases s
    {
      if text[s] == target[0] {
        var found := MatchesFrom(target, text, s);
        if found { return Some(s); }
      } else {
        OccursByte(text, s, target, 0);
      }
      var prev := PrevHead(lens, s);
      LastHeadSkip(target, text, lens, low, s, s - 1);
      LastHeadSkip(target, text, lens, low, s - 1, if prev.Some? then prev.value else -1);
      if prev.None? { return None; }
      s := prev.value;
      LastFromHead(target, text, lens, low, s);
    }
    r := None;
  }

  /** Distance back from the first c behind the first byte; the whole length if there is none. */
  function BackSkipOf(target: Text, n: nat, c: byte): nat
    requires 1 <= n <= |target|
    decreases |target| - n
  {
    if n == |target| then |target| else if target[n] == c then n else BackSkipOf(target, n + 1, c)
  }

  lemma {:induction false} BackSkipBound(target: Text, n: nat, c: byte)
    requires 1 <= n <= |target|
    ensures n <= BackSkipOf(target, n, c) <= |target|
    ensures forall j :: n <= j < |target| && target[j] == c ==> BackSkipOf(target, n, c) <= j
    decreases |target| - n
  {
    if n < |target| { BackSkipBound(target, n + 1, c); }
  }

  /** set_bm_backward_skip */
  method SetBmBackwardSkip(target: Text) returns (skip: array<nat>)
    requires target != []
    ensures fresh(skip) && skip.Length == 256
    ensures forall c: byte :: skip[c] == BackSkipOf(target, 1, c)
  {
    var len := |target|;
    skip := new nat[256];
    var i := 0;
    while i < 256
      invariant 0 <= i <= 256 && forall c :: 0 <= c < i ==> skip[c] == len
    {
      skip[i] := len;
      i := i + 1;
    }
    i := len - 1;
    while i > 0
      invariant 0 <= i <= len - 1 && forall c: byte :: skip[c] == BackSkipOf(target, i + 1, c)
      decreases i
    {
      skip[target[i]] := i;
      i := i - 1;
    }
  }

  lemma BackSkipSafe(target: Text, text: Text, q: nat, i: int)
    requires target != [] && q < |text| && q - BackSkipOf(target, 1, text[q]) < i < q
    ensures !Occurs(text, i, target)
  {
    var c := text[q];
    BackSkipBound(target, 1, c);
    if i >= 0 && q - i < |target| { OccursByte(text, i, target, q - i); }
  }

  method BmSearchBackward(target: Text, skip: array<nat>, text: Text, lens: seq<nat>, low: nat,
                          from: int) returns (r: Option<nat>)
    requires target != [] && skip.Length == 256 && forall c: byte :: skip[c] == BackSkipOf(target, 1, c)
    requires Lens(lens)
    ensures r == if from < |text| - |target| then LastFrom(target, text, lens, low, from)
                 else LastHead(target, text, lens, low, from)
  {
    var s := BackStart(target, text, lens, low, from);
    ghost var goal := LastFrom(target, text, lens, low, s);
    while s >= low
      invariant s <= |text| - |target| && goal == LastFrom(target, text, lens, low, s)
      decreases s
    {
      var found := MatchesFrom(target, text, s);
      if found { return Some(s); }
      var back := skip[text[s]];
      BackSkipBound(target, 1, text[s]);
      forall i: nat | s - back < i <= s ensures !Occurs(text, i, target) {
        if i < s { BackSkipSafe(target, text, s, i); }
      }
      LastHeadSkip(target, text, lens, low, s, s - back);
      s := LeftAdjust(target, text, lens, low, s - back);
      LastFromHead(target, text, lens, low, s);
    }
    r := None;
  }

  /** The last character head in [low, from] whose byte is in the set. */
  function LastIn(bytes: set<byte>, text: Text, lens: seq<nat>, low: nat, from: int): Option<nat>
    requires Lens(lens) && from < |text|
    decreases from
  {
    if from < low then None
    else if IsHead(lens, from) && text[from] in bytes then Some(from)
    else LastIn(bytes, text, lens, low, from - 1)
  }

  /** LastIn is the greatest such head in the range. */
  lemma {:induction false} LastInGreatest(bytes: set<byte>, text: Text, lens: seq<nat>, low: nat, from: int)
    requires Lens(lens) && from < |text|
    ensures match LastIn(bytes, text, lens, low, from)
            case Some(p) => low <= p <= from && IsHead(lens, p) && text[p] in bytes
                            && forall i: nat :: p < i <= from && IsHead(lens, i) ==> text[i] !in bytes
            case None => forall i: nat :: low <= i <= from && IsHead(lens, i) ==> text[i] !in bytes
    decreases from
  {
    if from >= low { LastInGreatest(bytes, text, lens, low, from - 1); }
  }

  lemma {:induction false} LastInSkip(bytes: set<byte>, text: Text, lens: seq<nat>, low: nat, from: int, to: int)
    requires Lens(lens) && to <= from < |text|
    requires forall i: nat :: to < i <= from && IsHead(lens, i) ==> text[i] !in bytes
    ensures LastIn(bytes, text, lens, low, from) == LastIn(bytes, text, lens, low, to)
    decreases from - to
  {
    if to < from {
      LastInSkip(bytes, text, lens, low, from - 1, to);
      if from < low { assert LastIn(bytes, text, lens, low, to) == None; }
    }
  }

  /** map_search_backward: from itself, head or not, and then the heads before it. */
  method MapSearchBackward(bytes: set<byte>, text: Text, lens: seq<nat>, low: nat, from: int) returns (r: Option<nat>)
    requires Lens(lens) && from < |text|
    ensures r == if from >= low && text[from] in bytes then Some(from) else LastIn(bytes, text, lens, low, from)
  {
    var s := from;
    while s >= low
      invariant s < |text| && (s == from || (s >= 0 && IsHead(lens, s) && (from >= low ==> text[from] !in bytes)))
      invariant LastIn(bytes, text, lens, low, from) == LastIn(bytes, text, lens, low, s)
      decreases s
    {
      if text[s] in bytes { return Some(s); }
      var prev := PrevHead(lens, s);
      LastInSkip(bytes, text, lens, low, s, if prev.Some? then prev.value else -1);
      if prev.None? { return None; }
      s := prev.value;
    }
    r := None;
  }
}
