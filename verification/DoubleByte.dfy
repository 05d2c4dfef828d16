/** Finding heads backwards where a character is one lead byte and trail bytes: EUC-JP and Big5
    (Dependencies/oniguruma5/enc/euc_jp.c, big5.c). */
module DoubleByte {
  import opened Regint
  import opened CharHeads

  type Text = seq<byte>

  predicate Between(lo: int, b: int, hi: int) { lo <= b <= hi }

  /** A run of two-byte characters: heads are an even distance behind its start. */
  lemma {:induction false} Pairs(lens: seq<nat>, p: nat, s: nat)
    requires Lens(lens) && p <= s && forall i :: p <= i < s ==> LenAt(lens, i) == 2
    ensures HeadOf(lens, p, s) == p + (s - p) / 2 * 2
    decreases s - p
  {
    if s >= p + 2 { Pairs(lens, p + 2, s); }
  }

  /** The common end of both functions: the character at p, or the pairs behind it. */
  function PairHead(lens: seq<nat>, p: nat, s: nat): nat
    requires Lens(lens) && p <= s
  {
    var q := p + LenAt(lens, p);
    if q > s then p else q + (s - q) / 2 * 2
  }

  lemma PairHeadRight(lens: seq<nat>, p: nat, s: nat)
    requires Lens(lens) && IsHead(lens, p) && p <= s
    requires forall i :: p + LenAt(lens, p) <= i < s ==> LenAt(lens, i) == 2
    ensures PairHead(lens, p, s) == HeadOf(lens, 0, s)
  {
    HeadFrom(lens, 0, p, s);
    var q := p + LenAt(lens, p);
    if q <= s { Pairs(lens, q, s); }
  }

  // ----- EUC-JP -----

  /** EncLen_EUCJP */
  function EucLen(b: byte): nat {
    if b == 0x8e then 2 else if b == 0x8f then 3 else if Between(0xa1, b, 0xfe) then 2 else 1
  }

  /** The bytes that stand behind a lead byte; the macro eucjp_islead is true of all others. */
  predicate EucTrail(b: byte) { Between(0xa1, b, 0xfe) }

  function EucLens(text: Text): (lens: seq<nat>)
    ensures Lens(lens) && |lens| == |text| && forall i :: 0 <= i < |text| ==> lens[i] == EucLen(text[i])
  {
    seq(|text|, i requires 0 <= i < |text| => EucLen(text[i]))
  }

  /** From p on every lead byte is followed by its trail bytes. */
  predicate EucFormed(text: Text, p: nat)
    decreases |text| - p
  {
    p == |text| ||
    (p < |text| && p + EucLen(text[p]) <= |text| && (forall i :: p < i < p + EucLen(text[p]) ==> EucTrail(text[i]))
     && EucFormed(text, p + EucLen(text[p])))
  }

  /** Inside a character there are trail bytes only. */
  lemma {:induction false} EucInside(text: Text, p: nat, s: nat)
    requires p <= s < |text| && EucFormed(text, p) && HeadOf(EucLens(text), p, s) < s
    ensures EucTrail(text[s])
    decreases s - p
  {
    if s >= p + EucLen(text[p]) { EucInside(text, p + EucLen(text[p]), s); }
  }

  /** An EUC-JP character, byte by byte. */
  predicate EucChar(c: seq<byte>) {
    || (|c| == 1 && c[0] != 0x8e && c[0] != 0x8f && !(0xa1 <= c[0] <= 0xfe))
    || (|c| == 2 && (c[0] == 0x8e || 0xa1 <= c[0] <= 0xfe) && 0xa1 <= c[1] <= 0xfe)
    || (|c| == 3 && c[0] == 0x8f && 0xa1 <= c[1] <= 0xfe && 0xa1 <= c[2] <= 0xfe)
  }

  predicate EucChars(chars: seq<seq<byte>>) { forall i :: 0 <= i < |chars| ==> EucChar(chars[i]) }

  /** A sequence of characters is well formed, and its lengths are those of the characters. */
  lemma {:induction false} EucDivides(text: Text, p: nat, chars: seq<seq<byte>>)
    requires p <= |text| && EucChars(chars) && Joined(chars) == text[p..]
    ensures EucFormed(text, p) && Divided(EucLens(text), p, chars)
    decreases chars
  {
    if chars != [] {
      var c, n := chars[0], |chars[0]|;
      JoinedAt(text, p, chars);
      EucDivides(text, p + n, chars[1..]);
      assert EucLen(text[p]) == n;
    }
  }

  /** And a well-formed text is such a sequence. */
  lemma {:induction false} EucCharsOf(text: Text, p: nat) returns (chars: seq<seq<byte>>)
    requires p <= |text| && EucFormed(text, p)
    ensures EucChars(chars) && Joined(chars) == text[p..]
    decreases |text| - p
  {
    if p == |text| {
      chars := [];
    } else {
      var n := EucLen(text[p]);
      var rest := EucCharsOf(text, p + n);
      chars := [text[p..p + n]] + rest;
      assert chars[1..] == rest && text[p..] == text[p..p + n] + text[p + n..];
    }
  }

  /** The text is a sequence of characters. */
  ghost predicate EucText(text: Text) { exists chars :: EucChars(chars) && Joined(chars) == text }

  lemma EucExactly(text: Text)
    ensures EucFormed(text, 0) <==> EucText(text)
  {
    assert text[0..] == text;
    if EucFormed(text, 0) { var chars := EucCharsOf(text, 0); }
    if EucText(text) {
      var chars :| EucChars(chars) && Joined(chars) == text;
      EucDivides(text, 0, chars);
    }
  }

  lemma EucHead(text: Text, chars: seq<seq<byte>>, s: nat)
    requires EucChars(chars) && Joined(chars) == text && s < |text|
    ensures HeadOf(EucLens(text), 0, s) == CharStart(chars, s)
  {
    assert text[0..] == text;
    EucDivides(text, 0, chars);
    DividedHead(EucLens(text), 0, chars, s);
  }

  /** left_adjust_char_head: where the character begins that byte s lies in. */
  method EucLeftAdjust(text: Text, s: nat) returns (h: nat)
    requires s < |text| && EucText(text)
    ensures h == HeadOf(EucLens(text), 0, s)
    ensures forall chars :: EucChars(chars) && Joined(chars) == text ==> h == CharStart(chars, s)
  {
    EucExactly(text);
    forall chars | EucChars(chars) && Joined(chars) == text ensures HeadOf(EucLens(text), 0, s) == CharStart(chars, s) {
      EucHead(text, chars, s);
    }
    ghost var lens := EucLens(text);
    if s <= 0 { return s; }
    var p := s;
    while EucTrail(text[p]) && p > 0
      invariant 0 <= p <= s && forall i :: p < i <= s ==> EucTrail(text[i])
      decreases p
    {
      p := p - 1;
    }
    if p > 0 && HeadOf(lens, 0, p) < p { EucInside(text, 0, p); }
    PairHeadRight(lens, p, s);
    var len := EucLen(text[p]);
    if p + len > s { return p; }
    p := p + len;
    h := p + (s - p) / 2 * 2;
  }

  // ----- Big5 -----

  /** EncLen_BIG5 */
  function BigLen(b: byte): nat { if Between(0xa1, b, 0xfe) then 2 else 1 }

  predicate BigFirst(b: byte) { BigLen(b) > 1 }

  /** BIG5_CAN_BE_TRAIL_TABLE */
  predicate BigTrail(b: byte) { Between(0x40, b, 0x7e) || Between(0x80, b, 0xfe) }

  function BigLens(text: Text): (lens: seq<nat>)
    ensures Lens(lens) && |lens| == |text| && forall i :: 0 <= i < |text| ==> lens[i] == BigLen(text[i])
  {
    seq(|text|, i requires 0 <= i < |text| => BigLen(text[i]))
  }

  predicate BigFormed(text: Text, p: nat)
    decreases |text| - p
  {
    p == |text| ||
    (p < |text| && p + BigLen(text[p]) <= |text| && (BigFirst(text[p]) ==> BigTrail(text[p + 1]))
     && BigFormed(text, p + BigLen(text[p])))
  }

  /** A byte that is no head is a trail byte behind a first byte. */
  lemma {:induction false} BigInside(text: Text, p: nat, s: nat)
    requires p <= s < |text| && BigFormed(text, p) && HeadOf(BigLens(text), p, s) < s
    ensures BigTrail(text[s]) && BigFirst(text[s - 1])
    decreases s - p
  {
    if s >= p + BigLen(text[p]) { BigInside(text, p + BigLen(text[p]), s); }
  }

  /** A Big5 character, byte by byte. */
  predicate BigChar(c: seq<byte>) {
    || (|c| == 1 && !(0xa1 <= c[0] <= 0xfe))
    || (|c| == 2 && 0xa1 <= c[0] <= 0xfe && (0x40 <= c[1] <= 0x7e || 0x80 <= c[1] <= 0xfe))
  }

  predicate BigChars(chars: seq<seq<byte>>) { forall i :: 0 <= i < |chars| ==> BigChar(chars[i]) }

  lemma {:induction false} BigDivides(text: Text, p: nat, chars: seq<seq<byte>>)
    requires p <= |text| && BigChars(chars) && Joined(chars) == text[p..]
    ensures BigFormed(text, p) && Divided(BigLens(text), p, chars)
    decreases chars
  {
    if chars != [] {
      var n := |chars[0]|;
      JoinedAt(text, p, chars);
      BigDivides(text, p + n, chars[1..]);
      assert BigLen(text[p]) == n;
    }
  }

  lemma {:induction false} BigCharsOf(text: Text, p: nat) returns (chars: seq<seq<byte>>)
    requires p <= |text| && BigFormed(text, p)
    ensures BigChars(chars) && Joined(chars) == text[p..]
    decreases |text| - p
  {
    if p == |text| {
      chars := [];
    } else {
      var n := BigLen(text[p]);
      var rest := BigCharsOf(text, p + n);
      chars := [text[p..p + n]] + rest;
      assert chars[1..] == rest && text[p..] == text[p..p + n] + text[p + n..];
    }
  }

  ghost predicate BigText(text: Text) { exists chars :: BigChars(chars) && Joined(chars) == text }

  lemma BigExactly(text: Text)
    ensures BigFormed(text, 0) <==> BigText(text)
  {
    assert text[0..] == text;
    if BigFormed(text, 0) { var chars := BigCharsOf(text, 0); }
    if BigText(text) {
      var chars :| BigChars(chars) && Joined(chars) == text;
      BigDivides(text, 0, chars);
    }
  }

  lemma BigHead(text: Text, chars: seq<seq<byte>>, s: nat)
    requires BigChars(chars) && Joined(chars) == text && s < |text|
    ensures HeadOf(BigLens(text), 0, s) == CharStart(chars, s)
  {
    assert text[0..] == text;
    BigDivides(text, 0, chars);
    DividedHead(BigLens(text), 0, chars, s);
  }

  /** big5_left_adjust_char_head likewise. */
  method BigLeftAdjust(text: Text, s: nat) returns (h: nat)
    requires s < |text| && BigText(text)
    ensures h == HeadOf(BigLens(text), 0, s)
    ensures forall chars :: BigChars(chars) && Joined(chars) == text ==> h == CharStart(chars, s)
  {
    BigExactly(text);
    forall chars | BigChars(chars) && Joined(chars) == text ensures HeadOf(BigLens(text), 0, s) == CharStart(chars, s) {
      BigHead(text, chars, s);
    }
    ghost var lens := BigLens(text);
    if s <= 0 { return s; }
    var p := s;
    if BigTrail(text[p]) {
      while p > 0
        invariant 0 <= p <= s && forall i :: p <= i < s ==> BigFirst(text[i])
        decreases p
      {
        p := p - 1;
        if !BigFirst(text[p]) {
          p := p + 1;
          break;
        }
      }
    }
    if p > 0 && HeadOf(lens, 0, p) < p { BigInside(text, 0, p); }
    PairHeadRight(lens, p, s);
    var len := BigLen(text[p]);
    if p + len > s { return p; }
    p := p + len;
    h := p + (s - p) / 2 * 2;
  }
}
