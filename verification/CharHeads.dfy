/** Stepping over characters (Dependencies/oniguruma5/regenc.c), for any encoding given by the length
    of the character at each position. */
module CharHeads {
  import opened Regint

  predicate Lens(lens: seq<nat>) { forall i :: 0 <= i < |lens| ==> lens[i] >= 1 }

  function LenAt(lens: seq<nat>, p: nat): (n: nat)
    requires Lens(lens)
    ensures n >= 1
  {
    if p < |lens| then lens[p] else 1
  }

  /** The head of the character s lies in, walking forward from p. */
  function HeadOf(lens: seq<nat>, p: nat, s: nat): (h: nat)
    requires Lens(lens) && p <= s
    ensures p <= h <= s < h + LenAt(lens, h)
    decreases s - p
  {
    if s < p + LenAt(lens, p) then p else HeadOf(lens, p + LenAt(lens, p), s)
  }

  predicate IsHead(lens: seq<nat>, s: nat)
    requires Lens(lens)
  {
    HeadOf(lens, 0, s) == s
  }

  /** n characters on from p. */
  function Walk(lens: seq<nat>, p: nat, n: nat): nat
    requires Lens(lens)
    decreases n
  {
    if n == 0 then p else Walk(lens, p + LenAt(lens, p), n - 1)
  }

  /** Walking from a head on the way changes nothing. */
  lemma {:induction false} HeadFrom(lens: seq<nat>, p: nat, h: nat, s: nat)
    requires Lens(lens) && p <= h <= s && HeadOf(lens, p, h) == h
    ensures HeadOf(lens, p, s) == HeadOf(lens, h, s)
    decreases h - p
  {
    if p < h {
      HeadFrom(lens, p + LenAt(lens, p), h, s);
    }
  }

  lemma {:induction false} HeadNext(lens: seq<nat>, p: nat, s: nat)
    requires Lens(lens) && p < s
    ensures var h := HeadOf(lens, p, s - 1);
            HeadOf(lens, p, s) == if s < h + LenAt(lens, h) then h else s
    decreases s - p
  {
    if s - 1 >= p + LenAt(lens, p) { HeadNext(lens, p + LenAt(lens, p), s); }
  }

  /** The head of a head is itself, and so is the place behind its character. */
  lemma {:induction false} HeadIsHead(lens: seq<nat>, p: nat, s: nat)
    requires Lens(lens) && p <= s
    ensures var h := HeadOf(lens, p, s);
            HeadOf(lens, p, h) == h && HeadOf(lens, p, h + LenAt(lens, h)) == h + LenAt(lens, h)
    decreases s - p
  {
    var q := p + LenAt(lens, p);
    if s >= q {
      HeadIsHead(lens, q, s);
    } else {
      assert HeadOf(lens, p, q) == HeadOf(lens, q, q);
    }
  }

  /** Between a head and the end of its character there is no other one. */
  lemma HeadInside(lens: seq<nat>, s: nat, t: nat)
    requires Lens(lens) && IsHead(lens, s) && s < t < s + LenAt(lens, s)
    ensures !IsHead(lens, t)
  {
    HeadFrom(lens, 0, s, t);
  }

  /** s itself if it is a head, else the place behind the character it lies in. */
  function HeadBehind(lens: seq<nat>, s: nat): nat
    requires Lens(lens)
  {
    var h := HeadOf(lens, 0, s);
    if h == s then s else h + LenAt(lens, h)
  }

  /** onigenc_get_right_adjust_char_head: the first head at or behind s. */
  method RightAdjust(lens: seq<nat>, s: nat) returns (r: nat)
    requires Lens(lens)
    ensures r >= s && IsHead(lens, r) && forall t :: s <= t < r ==> !IsHead(lens, t)
  {
    r := HeadOf(lens, 0, s);
    HeadIsHead(lens, 0, s);
    if r < s {
      ghost var h := r;
      r := r + LenAt(lens, r);
      forall t | s <= t < r ensures !IsHead(lens, t) { HeadInside(lens, h, t); }
    }
  }

  /** onigenc_get_prev_char_head: the last head in front of s, None at the start. */
  method PrevHead(lens: seq<nat>, s: nat) returns (r: Option<nat>)
    requires Lens(lens)
    ensures r.None? <==> s == 0
    ensures r.Some? ==> r.value < s && IsHead(lens, r.value) && forall t :: r.value < t < s ==> !IsHead(lens, t)
    ensures r.Some? ==> r.value + LenAt(lens, r.value) == HeadBehind(lens, s)
  {
    if s <= 0 { return None; }
    var h := HeadOf(lens, 0, s - 1);
    HeadIsHead(lens, 0, s - 1);
    HeadNext(lens, 0, s);
    forall t | h < t < s ensures !IsHead(lens, t) { HeadInside(lens, h, t); }
    r := Some(h);
  }

  lemma {:induction false} WalkEnd(lens: seq<nat>, p: nat, n: nat)
    requires Lens(lens)
    ensures Walk(lens, p, n + 1) == Walk(lens, p, n) + LenAt(lens, Walk(lens, p, n))
    decreases n
  {
    if n > 0 { WalkEnd(lens, p + LenAt(lens, p), n - 1); }
  }

  lemma {:induction false} WalkMore(lens: seq<nat>, p: nat, m: nat, n: nat)
    requires Lens(lens) && m <= n
    ensures Walk(lens, p, m) <= Walk(lens, p, n)
    decreases n
  {
    if m < n {
      WalkMore(lens, p, m, n - 1);
      WalkEnd(lens, p, n - 1);
    }
  }

  /** onigenc_step_back, for look-behind: n characters back, or None when there are not that many. Walking
      forward again leads back to s, or behind the character s lies in. */
  method StepBack(lens: seq<nat>, s: nat, n: nat) returns (r: Option<nat>)
    requires Lens(lens)
    ensures n == 0 ==> r == Some(s)
    ensures n > 0 && r.Some? ==> IsHead(lens, r.value) && Walk(lens, r.value, n) == HeadBehind(lens, s)
    ensures r.None? ==> Walk(lens, 0, n) > HeadBehind(lens, s)
  {
    ghost var e := HeadBehind(lens, s);
    var p: nat := s;
    var left: nat := n;
    while left > 0
      invariant left <= n && (left == n ==> p == s)
      invariant left < n ==> IsHead(lens, p) && Walk(lens, p, n - left) == e
    {
      if p == 0 {
        WalkFurther(lens, 0, n - left, n);
        return None;
      }
      var q := PrevHead(lens, p);
      assert Walk(lens, q.value, n - left + 1) == Walk(lens, HeadBehind(lens, p), n - left);
      p := q.value;
      left := left - 1;
    }
    r := Some(p);
  }

  lemma {:induction false} WalkFurther(lens: seq<nat>, p: nat, m: nat, n: nat)
    requires Lens(lens) && m < n
    ensures Walk(lens, p, m) < Walk(lens, p, n)
  {
    WalkMore(lens, p, m + 1, n);
    WalkEnd(lens, p, m);
  }

  /** onigenc_step: n characters on, None behind the end. */
  method Step(lens: seq<nat>, p: nat, end: nat, n: nat) returns (r: Option<nat>)
    requires Lens(lens)
    ensures r == if Walk(lens, p, n) <= end then Some(Walk(lens, p, n)) else None
  {
    var q: nat := p;
    var left: nat := n;
    while left > 0
      invariant left <= n && Walk(lens, q, left) == Walk(lens, p, n)
    {
      q := q + LenAt(lens, q);
      left := left - 1;
    }
    r := if q <= end then Some(q) else None;
  }

  // ----- characters as strings of bytes -----

  /** The characters one after the other. */
  function Joined(chars: seq<seq<byte>>): seq<byte> { if chars == [] then [] else chars[0] + Joined(chars[1..]) }

  predicate NoneEmpty(chars: seq<seq<byte>>) { forall i :: 0 <= i < |chars| ==> chars[i] != [] }

  /** Where the character begins that byte s lies in. */
  function CharStart(chars: seq<seq<byte>>, s: nat): (h: nat)
    requires NoneEmpty(chars) && s < |Joined(chars)|
    ensures h <= s
    decreases chars
  {
    if s < |chars[0]| then 0 else |chars[0]| + CharStart(chars[1..], s - |chars[0]|)
  }

  /** The first character stands at p, the others behind it. */
  lemma JoinedAt(text: seq<byte>, p: nat, chars: seq<seq<byte>>)
    requires p <= |text| && chars != [] && Joined(chars) == text[p..]
    ensures var n := |chars[0]|;
            && p + n <= |text| && text[p..p + n] == chars[0] && Joined(chars[1..]) == text[p + n..]
            && forall i :: 0 <= i < n ==> text[p + i] == chars[0][i]
  {
    var n := |chars[0]|;
    assert text[p..][..n] == chars[0] && text[p..][n..] == Joined(chars[1..]);
    assert text[p..][..n] == text[p..p + n] && text[p..][n..] == text[p + n..];
  }

  /** From p on the lengths are those of the characters. */
  predicate Divided(lens: seq<nat>, p: nat, chars: seq<seq<byte>>)
    requires Lens(lens)
    decreases |chars|
  {
    chars == [] || (LenAt(lens, p) == |chars[0]| && Divided(lens, p + |chars[0]|, chars[1..]))
  }

  /** Walking forward over the lengths stops at the same places. */
  lemma {:induction false} DividedHead(lens: seq<nat>, p: nat, chars: seq<seq<byte>>, s: nat)
    requires Lens(lens) && NoneEmpty(chars) && Divided(lens, p, chars) && s < |Joined(chars)|
    ensures HeadOf(lens, p, p + s) == p + CharStart(chars, s)
    decreases chars
  {
    var n := |chars[0]|;
    if s >= n { DividedHead(lens, p + n, chars[1..], s - n); }
  }
}
