/** Finding the head of a character backwards in GB 18030 text (Dependencies/oniguruma5/enc/gb18030.c). */
module Gb18030 {
  import opened Regint
  import opened CharHeads

  /** C1: always a whole character. C2: a whole one, or the second byte of two. C4: a whole one, or
      the second or fourth byte of four. CM: the first of two or four bytes, the second of two, or
      the third of four. */
  datatype Class = C1 | C2 | C4 | CM

  /** GB18030_MAP */
  function ClassOf(b: byte): Class {
    if 0x30 <= b <= 0x39 then C4
    else if 0x40 <= b <= 0x7e || b == 0x80 then C2
    else if 0x81 <= b <= 0xfe then CM
    else C1
  }

  type Text = seq<byte>

  function At(text: Text, i: int): Class { if 0 <= i < |text| then ClassOf(text[i]) else C1 }

  /** gb18030_mbc_enc_len */
  function EncLen(text: Text, p: nat): (n: nat)
    ensures n == 1 || n == 2 || n == 4
  {
    if At(text, p) != CM then 1
    else if At(text, p + 1) == C4 then 4
    else if At(text, p + 1) == C1 then 1
    else 2
  }

  /** A whole character begins at p: one byte, two, or four. */
  predicate WholeChar(text: Text, p: nat) {
    && p + EncLen(text, p) <= |text|
    && (At(text, p) == CM ==> At(text, p + 1) != C1)
    && (EncLen(text, p) == 4 ==> At(text, p + 2) == CM && At(text, p + 3) == C4)
  }

  /** From p on the text is a sequence of whole characters. */
  predicate WellFormed(text: Text, p: nat)
    decreases |text| - p
  {
    p == |text| || (p < |text| && WholeChar(text, p) && WellFormed(text, p + EncLen(text, p)))
  }

  function GbLens(text: Text): (lens: seq<nat>)
    ensures Lens(lens) && |lens| == |text| && forall i :: 0 <= i < |text| ==> lens[i] == EncLen(text, i)
  {
    seq(|text|, i requires 0 <= i < |text| => EncLen(text, i))
  }

  lemma {:induction false} HeadWhole(text: Text, p: nat, s: nat)
    requires p <= s < |text| && WellFormed(text, p)
    ensures WholeChar(text, HeadOf(GbLens(text), p, s))
    decreases s - p
  {
    if s >= p + EncLen(text, p) { HeadWhole(text, p + EncLen(text, p), s); }
  }

  // ----- the part a byte plays -----

  datatype Part = Single | First2 | Second2 | First4 | Second4 | Third4 | Fourth4

  function PartOf(len: nat, off: nat): Part
    requires (len == 1 || len == 2 || len == 4) && off < len
  {
    if len == 1 then Single
    else if len == 2 then (if off == 0 then First2 else Second2)
    else if off == 0 then First4 else if off == 1 then Second4 else if off == 2 then Third4 else Fourth4
  }

  function Offset(r: Part): nat {
    match r
    case Single => 0
    case First2 => 0
    case Second2 => 1
    case First4 => 0
    case Second4 => 1
    case Third4 => 2
    case Fourth4 => 3
  }

  function PartAt(text: Text, s: nat): Part
    requires s < |text|
  {
    var h := HeadOf(GbLens(text), 0, s);
    PartOf(EncLen(text, h), s - h)
  }

  /** The part of the next byte, of class c, when a byte of class d follows it. */
  function NextPart(r: Part, c: Class, d: Class): Part {
    match r
    case First2 => Second2
    case First4 => Second4
    case Second4 => Third4
    case Third4 => Fourth4
    case _ => if c != CM then Single else if d == C4 then First4 else First2
  }

  /** What class a byte in that part has, and the byte behind it. */
  predicate Plays(r: Part, c: Class, d: Class) {
    match r
    case Single => c != CM
    case First2 => c == CM && (d == C2 || d == CM)
    case Second2 => c == C2 || c == CM
    case First4 => c == CM && d == C4
    case Second4 => c == C4 && d == CM
    case Third4 => c == CM && d == C4
    case Fourth4 => c == C4
  }

  lemma PartPlays(text: Text, s: nat)
    requires s < |text| && WellFormed(text, 0)
    ensures Plays(PartAt(text, s), At(text, s), At(text, s + 1))
  {
    HeadWhole(text, 0, s);
  }

  lemma WithinNext(len: nat, off: nat, c: Class, d: Class)
    requires (len == 1 || len == 2 || len == 4) && off + 1 < len
    ensures PartOf(len, off + 1) == NextPart(PartOf(len, off), c, d)
  {
  }

  /** The byte behind a whole character is the first of its own. */
  lemma HeadNextPart(text: Text, s: nat, h: nat)
    requires h <= s && s + 1 == h + EncLen(text, h) && s + 1 < |text|
    requires WholeChar(text, s + 1)
    ensures PartOf(EncLen(text, s + 1), 0)
            == NextPart(PartOf(EncLen(text, h), s - h), At(text, s + 1), At(text, s + 2))
  {
  }

  lemma PartNext(text: Text, s: nat)
    requires s + 1 < |text| && WellFormed(text, 0)
    ensures PartAt(text, s + 1) == NextPart(PartAt(text, s), At(text, s + 1), At(text, s + 2))
  {
    hide WellFormed, HeadOf, ClassOf, NextPart, PartOf;
    HeadNext(GbLens(text), 0, s + 1);
    HeadWhole(text, 0, s);
    var h := HeadOf(GbLens(text), 0, s);
    if s + 1 < h + EncLen(text, h) {
      WithinNext(EncLen(text, h), s - h, At(text, s + 1), At(text, s + 2));
    } else {
      HeadWhole(text, 0, s + 1);
      HeadNextPart(text, s, h);
    }
  }

  lemma PartOffset(text: Text, s: nat)
    requires s < |text|
    ensures Offset(PartAt(text, s)) == s - HeadOf(GbLens(text), 0, s)
  {
  }

  lemma PartStart(text: Text)
    requires text != [] && WellFormed(text, 0)
    ensures Offset(PartAt(text, 0)) == 0
  {
  }

  // ----- the backward machine -----

  datatype State =
    | SStart | OneC2 | OneC4 | OneCM
    | OddCM_OneCX | EvenCM_OneCX
    | OneCMC4 | OddCMC4 | OneC4_OddCMC4 | EvenCMC4 | OneC4_EvenCMC4
    | OddCM_OddCMC4 | EvenCM_OddCMC4 | OddCM_EvenCMC4 | EvenCM_EvenCMC4
    | OddC4CM | OneCM_OddC4CM | EvenC4CM | OneCM_EvenC4CM
    | EvenCM_OddC4CM | OddCM_OddC4CM | EvenCM_EvenC4CM | OddCM_EvenC4CM

  /** One step of the machine: return the head, that far back, or go on. */
  datatype Move = Return(back: nat) | Go(state: State)

  function Transition(state: State, c: Class): Move {
    match state
    case SStart =>
      if c == C1 then Return(0) else Go(if c == C2 then OneC2 else if c == C4 then OneC4 else OneCM)
    case OneC2 => if c == CM then Go(OddCM_OneCX) else Return(0)
    case OneC4 => if c == CM then Go(OneCMC4) else Return(0)
    case OneCM => if c == CM then Go(OddCM_OneCX) else if c == C4 then Go(OddC4CM) else Return(0)
    case OddCM_OneCX => if c == CM then Go(EvenCM_OneCX) else Return(1)
    case EvenCM_OneCX => if c == CM then Go(OddCM_OneCX) else Return(0)
    case OneCMC4 => if c == CM then Go(EvenCM_OneCX) else if c == C4 then Go(OneC4_OddCMC4) else Return(1)
    case OddCMC4 => if c == CM then Go(OddCM_OddCMC4) else if c == C4 then Go(OneC4_OddCMC4) else Return(1)
    case OneC4_OddCMC4 => if c == CM then Go(EvenCMC4) else Return(1)
    case EvenCMC4 => if c == CM then Go(OddCM_EvenCMC4) else if c == C4 then Go(OneC4_EvenCMC4) else Return(3)
    case OneC4_EvenCMC4 => if c == CM then Go(OddCMC4) else Return(3)
    case OddCM_OddCMC4 => if c == CM then Go(EvenCM_OddCMC4) else Return(3)
    case EvenCM_OddCMC4 => if c == CM then Go(OddCM_OddCMC4) else Return(1)
    case OddCM_EvenCMC4 => if c == CM then Go(EvenCM_EvenCMC4) else Return(1)
    case EvenCM_EvenCMC4 => if c == CM then Go(OddCM_EvenCMC4) else Return(3)
    case OddC4CM => if c == CM then Go(OneCM_OddC4CM) else Return(0)
    case OneCM_OddC4CM => if c == CM then Go(EvenCM_OddC4CM) else if c == C4 then Go(EvenC4CM) else Return(2)
    case EvenC4CM => if c == CM then Go(OneCM_EvenC4CM) else Return(2)
    case OneCM_EvenC4CM => if c == CM then Go(EvenCM_EvenC4CM) else if c == C4 then Go(OddC4CM) else Return(0)
    case EvenCM_OddC4CM => if c == CM then Go(OddCM_OddC4CM) else Return(0)
    case OddCM_OddC4CM => if c == CM then Go(EvenCM_OddC4CM) else Return(2)
    case EvenCM_EvenC4CM => if c == CM then Go(OddCM_EvenC4CM) else Return(2)
    case OddCM_EvenC4CM => if c == CM then Go(EvenCM_EvenC4CM) else Return(0)
  }

  /** The start of the text was reached. */
  function AtStart(state: State): nat {
    match state
    case OddCM_OneCX => 1
    case OneCMC4 => 1
    case OddCMC4 => 1
    case OneC4_OddCMC4 => 1
    case EvenCMC4 => 3
    case OneC4_EvenCMC4 => 3
    case OddCM_OddCMC4 => 3
    case EvenCM_OddCMC4 => 1
    case OddCM_EvenCMC4 => 1
    case EvenCM_EvenCMC4 => 3
    case OneCM_OddC4CM => 2
    case EvenC4CM => 2
    case OddCM_OddC4CM => 2
    case EvenCM_EvenC4CM => 2
    case _ => 0
  }

  // ----- what a state knows -----

  /** The class of the last byte read, and whether the byte behind it is a C4 (None: it is s itself). */
  function Bottom(state: State): (Class, Option<bool>) {
    match state
    case SStart => (C1, None)
    case OneC2 => (C2, None)
    case OneC4 => (C4, None)
    case OneCM => (CM, None)
    case OneCMC4 => (CM, Some(true))
    case OddCMC4 => (CM, Some(true))
    case EvenCMC4 => (CM, Some(true))
    case OneCM_OddC4CM => (CM, Some(true))
    case OneCM_EvenC4CM => (CM, Some(true))
    case OneC4_OddCMC4 => (C4, Some(false))
    case OneC4_EvenCMC4 => (C4, Some(false))
    case OddC4CM => (C4, Some(false))
    case EvenC4CM => (C4, Some(false))
    case _ => (CM, Some(false))
  }

  /** How far s is behind the head of its character, when the last byte read plays part r. */
  function Back(state: State, r: Part): nat {
    match state
    case SStart => 0
    case OneC2 => Offset(r)
    case OneC4 => Offset(r)
    case OneCM => Offset(r)
    case OddCM_OneCX => if r.Second2? then 0 else 1
    case EvenCM_OneCX => if r.Second2? then 1 else 0
    case OneCMC4 => if r.First4? then 1 else if r.Third4? then 3 else 0
    case OddCMC4 => if r.First4? then 1 else 3
    case EvenCMC4 => if r.First4? then 3 else 1
    case OneC4_OddCMC4 => if r.Second4? then 3 else 1
    case OneC4_EvenCMC4 => if r.Second4? then 1 else 3
    case OddCM_OddCMC4 => if r.Second2? then 1 else 3
    case EvenCM_OddCMC4 => if r.Second2? then 3 else 1
    case OddCM_EvenCMC4 => if r.Second2? then 3 else 1
    case EvenCM_EvenCMC4 => if r.Second2? then 1 else 3
    case OddC4CM => if r.Second4? then 2 else 0
    case EvenC4CM => if r.Second4? then 0 else 2
    case OneCM_OddC4CM => if r.First4? then 2 else 0
    case OneCM_EvenC4CM => if r.First4? then 0 else 2
    case EvenCM_OddC4CM => if r.Second2? then 2 else 0
    case OddCM_OddC4CM => if r.Second2? then 0 else 2
    case EvenCM_EvenC4CM => if r.Second2? then 0 else 2
    case OddCM_EvenC4CM => if r.Second2? then 2 else 0
  }

  /** The state agrees with a byte of class c and part r, with class d behind it. */
  predicate Agrees(state: State, r: Part, c: Class, d: Class) {
    && state != SStart && Plays(r, c, d) && c == Bottom(state).0
    && (Bottom(state).1 == Some(true) ==> d == C4)
    && (Bottom(state).1 == Some(false) ==> if c == C4 then d == CM else d != C4 && d != C1)
  }

  /** Reading one byte more, in front, keeps what the state knows; returning is right. */
  ghost predicate Transfers(state: State, q: Part, b: Class, r: Part, c: Class) {
    match Transition(state, b)
    case Go(next) => Agrees(next, q, b, c) && Back(next, q) == Back(state, r)
    case Return(back) => back == Back(state, r)
  }

  lemma TransferShort(state: State, q: Part, b: Class, r: Part, c: Class, d: Class)
    requires state.OneC2? || state.OneC4? || state.OneCM? || state.OddCM_OneCX? || state.EvenCM_OneCX?
    requires Agrees(state, r, c, d) && Plays(q, b, c) && r == NextPart(q, c, d)
    ensures Transfers(state, q, b, r, c)
  {
  }

  lemma TransferCMC4(state: State, q: Part, b: Class, r: Part, c: Class, d: Class)
    requires state.OneCMC4? || state.OddCMC4? || state.OneC4_OddCMC4? || state.EvenCMC4? || state.OneC4_EvenCMC4?
    requires Agrees(state, r, c, d) && Plays(q, b, c) && r == NextPart(q, c, d)
    ensures Transfers(state, q, b, r, c)
  {
  }

  lemma TransferRunsCMC4(state: State, q: Part, b: Class, r: Part, c: Class, d: Class)
    requires state.OddCM_OddCMC4? || state.EvenCM_OddCMC4? || state.OddCM_EvenCMC4? || state.EvenCM_EvenCMC4?
    requires Agrees(state, r, c, d) && Plays(q, b, c) && r == NextPart(q, c, d)
    ensures Transfers(state, q, b, r, c)
  {
  }

  lemma TransferC4CM(state: State, q: Part, b: Class, r: Part, c: Class, d: Class)
    requires state.OddC4CM? || state.OneCM_OddC4CM? || state.EvenC4CM? || state.OneCM_EvenC4CM?
    requires Agrees(state, r, c, d) && Plays(q, b, c) && r == NextPart(q, c, d)
    ensures Transfers(state, q, b, r, c)
  {
  }

  lemma TransferRunsC4CM(state: State, q: Part, b: Class, r: Part, c: Class, d: Class)
    requires state.EvenCM_OddC4CM? || state.OddCM_OddC4CM? || state.EvenCM_EvenC4CM? || state.OddCM_EvenC4CM?
    requires Agrees(state, r, c, d) && Plays(q, b, c) && r == NextPart(q, c, d)
    ensures Transfers(state, q, b, r, c)
  {
  }

  lemma Transfer(state: State, q: Part, b: Class, r: Part, c: Class, d: Class)
    requires Agrees(state, r, c, d) && Plays(q, b, c) && r == NextPart(q, c, d)
    ensures Transfers(state, q, b, r, c)
  {
    hide Plays, NextPart, Transfers;
    assert state != SStart;
    hide Agrees;
    if state.OneC2? || state.OneC4? || state.OneCM? || state.OddCM_OneCX? || state.EvenCM_OneCX? {
      TransferShort(state, q, b, r, c, d);
    } else if state.OneCMC4? || state.OddCMC4? || state.OneC4_OddCMC4? || state.EvenCMC4? || state.OneC4_EvenCMC4? {
      TransferCMC4(state, q, b, r, c, d);
    } else if state.OddCM_OddCMC4? || state.EvenCM_OddCMC4? || state.OddCM_EvenCMC4? || state.EvenCM_EvenCMC4? {
      TransferRunsCMC4(state, q, b, r, c, d);
    } else if state.OddC4CM? || state.OneCM_OddC4CM? || state.EvenC4CM? || state.OneCM_EvenC4CM? {
      TransferC4CM(state, q, b, r, c, d);
    } else {
      TransferRunsC4CM(state, q, b, r, c, d);
    }
  }

  lemma FirstByte(q: Part, b: Class, c: Class)
    requires Plays(q, b, c)
    ensures match Transition(SStart, b)
            case Go(next) => Agrees(next, q, b, c) && Back(next, q) == Offset(q)
            case Return(back) => back == Offset(q)
  {
  }

  lemma Started(state: State, r: Part, c: Class, d: Class)
    requires Agrees(state, r, c, d)
    ensures state != SStart
  {
  }

  lemma LastByte(state: State, r: Part, c: Class, d: Class)
    requires Agrees(state, r, c, d) && Offset(r) == 0
    ensures AtStart(state) == Back(state, r)
  {
  }

  // ----- characters, byte by byte -----

  /** A GB 18030 character: one byte, a first and a second one, or four. */
  predicate GbChar(c: seq<byte>) {
    || (|c| == 1 && !(0x81 <= c[0] <= 0xfe))
    || (|c| == 2 && 0x81 <= c[0] <= 0xfe && (0x40 <= c[1] <= 0x7e || 0x80 <= c[1] <= 0xfe))
    || (|c| == 4 && 0x81 <= c[0] <= 0xfe && 0x30 <= c[1] <= 0x39 && 0x81 <= c[2] <= 0xfe && 0x30 <= c[3] <= 0x39)
  }

  predicate GbChars(chars: seq<seq<byte>>) { forall i :: 0 <= i < |chars| ==> GbChar(chars[i]) }

  /** A sequence of characters is well formed, and its lengths are those of the characters. */
  lemma {:induction false} GbDivides(text: Text, p: nat, chars: seq<seq<byte>>)
    requires p <= |text| && GbChars(chars) && Joined(chars) == text[p..]
    ensures WellFormed(text, p) && Divided(GbLens(text), p, chars)
    decreases chars
  {
    if chars != [] {
      var n := |chars[0]|;
      JoinedAt(text, p, chars);
      GbDivides(text, p + n, chars[1..]);
      CharWhole(text, p, chars[0]);
    }
  }

  lemma CharWhole(text: Text, p: nat, c: seq<byte>)
    requires GbChar(c) && p + |c| <= |text| && forall i :: 0 <= i < |c| ==> text[p + i] == c[i]
    ensures EncLen(text, p) == |c| && WholeChar(text, p)
  {
    if |c| == 4 { assert text[p + 2] == c[2] && text[p + 3] == c[3]; }
    if |c| >= 2 { assert text[p + 1] == c[1]; }
    assert text[p + 0] == c[0];
  }

  lemma WholeIsChar(text: Text, p: nat)
    requires p < |text| && WholeChar(text, p)
    ensures GbChar(text[p..p + EncLen(text, p)])
  {
  }

  /** And a well-formed text is such a sequence. */
  lemma {:induction false} GbCharsOf(text: Text, p: nat) returns (chars: seq<seq<byte>>)
    requires p <= |text| && WellFormed(text, p)
    ensures GbChars(chars) && Joined(chars) == text[p..]
    decreases |text| - p
  {
    if p == |text| {
      chars := [];
    } else {
      var n := EncLen(text, p);
      WholeIsChar(text, p);
      var rest := GbCharsOf(text, p + n);
      chars := [text[p..p + n]] + rest;
      assert chars[1..] == rest && text[p..] == text[p..p + n] + text[p + n..];
    }
  }

  /** The text is a sequence of characters. */
  ghost predicate GbText(text: Text) { exists chars :: GbChars(chars) && Joined(chars) == text }

  /** Well-formed texts are exactly the sequences of characters. */
  lemma GbExactly(text: Text)
    ensures WellFormed(text, 0) <==> GbText(text)
  {
    assert text[0..] == text;
    if WellFormed(text, 0) { var chars := GbCharsOf(text, 0); }
    if GbText(text) {
      var chars :| GbChars(chars) && Joined(chars) == text;
      GbDivides(text, 0, chars);
    }
  }

  lemma GbHead(text: Text, chars: seq<seq<byte>>, s: nat)
    requires GbChars(chars) && Joined(chars) == text && s < |text|
    ensures HeadOf(GbLens(text), 0, s) == CharStart(chars, s)
  {
    assert text[0..] == text;
    GbDivides(text, 0, chars);
    DividedHead(GbLens(text), 0, chars, s);
  }

  /** gb18030_left_adjust_char_head: for lead-byte runs of any length, where the character begins that byte s
      lies in, which is also the head that walking forward from the start of the text finds. */
  method LeftAdjustCharHead(text: Text, s: nat) returns (h: nat)
    requires s < |text| && GbText(text)
    ensures h == HeadOf(GbLens(text), 0, s)
    ensures forall chars :: GbChars(chars) && Joined(chars) == text ==> h == CharStart(chars, s)
  {
    hide WellFormed, PartAt, At, HeadOf, Agrees, Back, Transition, ClassOf, AtStart, GbChars, GbText, Joined, CharStart;
    GbExactly(text);
    NoneAre();
    forall chars | GbChars(chars) && Joined(chars) == text ensures HeadOf(GbLens(text), 0, s) == CharStart(chars, s) {
      GbHead(text, chars, s);
    }
    var state := SStart;
    var p := s as int;
    while p >= 0
      invariant -1 <= p <= s && (state == SStart <==> p == s)
      invariant p < s ==> Agrees(state, PartAt(text, p + 1), At(text, p + 1), At(text, p + 2))
      invariant p < s ==> Back(state, PartAt(text, p + 1)) == s - HeadOf(GbLens(text), 0, s)
      decreases p
    {
      Moves(text, p, s, state);
      match Transition(state, ClassOf(text[p])) {
        case Return(back) => return s - back;
        case Go(next) => state := next;
      }
      p := p - 1;
    }
    Rests(text, s, state);
    h := s - AtStart(state);
  }

  lemma NoneAre()
    ensures forall chars :: GbChars(chars) ==> NoneEmpty(chars)
  {
  }

  /** The byte at p keeps the claim the state makes about the distance to the head, or settles it. */
  lemma Moves(text: Text, p: nat, s: nat, state: State)
    requires p <= s < |text| && WellFormed(text, 0) && (state == SStart <==> p == s)
    requires p < s ==> Agrees(state, PartAt(text, p + 1), At(text, p + 1), At(text, p + 2))
    requires p < s ==> Back(state, PartAt(text, p + 1)) == s - HeadOf(GbLens(text), 0, s)
    ensures match Transition(state, ClassOf(text[p]))
            case Return(back) => s - back == HeadOf(GbLens(text), 0, s)
            case Go(next) =>
              && next != SStart && Agrees(next, PartAt(text, p), At(text, p), At(text, p + 1))
              && Back(next, PartAt(text, p)) == s - HeadOf(GbLens(text), 0, s)
  {
    hide WellFormed, Agrees, Back, Transition, ClassOf, PartAt, Offset, HeadOf, GbLens, Plays, NextPart;
    PartPlays(text, p);
    assert ClassOf(text[p]) == At(text, p);
    if p < s {
      PartNext(text, p);
      Transfer(state, PartAt(text, p), At(text, p), PartAt(text, p + 1), At(text, p + 1), At(text, p + 2));
    } else {
      PartOffset(text, s);
      FirstByte(PartAt(text, s), At(text, s), At(text, s + 1));
    }
    match Transition(state, ClassOf(text[p])) {
      case Go(next) => Started(next, PartAt(text, p), At(text, p), At(text, p + 1));
      case Return(back) =>
    }
  }

  lemma Rests(text: Text, s: nat, state: State)
    requires s < |text| && WellFormed(text, 0)
    requires Agrees(state, PartAt(text, 0), At(text, 0), At(text, 1))
    requires Back(state, PartAt(text, 0)) == s - HeadOf(GbLens(text), 0, s)
    ensures s - AtStart(state) == HeadOf(GbLens(text), 0, s)
  {
    hide WellFormed, Agrees, Back, AtStart;
    PartStart(text);
    LastByte(state, PartAt(text, 0), At(text, 0), At(text, 1));
  }
}
