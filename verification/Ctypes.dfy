/** The character types of single bytes (OnigEncAsciiCtypeTable in Dependencies/oniguruma5/regenc.c): what the
    engine takes for a word character and for a newline is what the table says. */
module Ctypes {
  import opened Regint
  import opened Machine

  /** The table, eight bytes a row; the second half is 0. */
  function CtypeRow(row: nat): (r: seq<nat>)
    ensures |r| == 8
  {
    match row
    case 0 => [0x4008, 0x4008, 0x4008, 0x4008, 0x4008, 0x4008, 0x4008, 0x4008]
    case 1 => [0x4008, 0x420c, 0x4209, 0x4208, 0x4208, 0x4208, 0x4008, 0x4008]
    case 2 => [0x4008, 0x4008, 0x4008, 0x4008, 0x4008, 0x4008, 0x4008, 0x4008]
    case 3 => [0x4008, 0x4008, 0x4008, 0x4008, 0x4008, 0x4008, 0x4008, 0x4008]
    case 4 => [0x4284, 0x41a0, 0x41a0, 0x41a0, 0x41a0, 0x41a0, 0x41a0, 0x41a0]
    case 5 => [0x41a0, 0x41a0, 0x41a0, 0x41a0, 0x41a0, 0x41a0, 0x41a0, 0x41a0]
    case 6 => [0x78b0, 0x78b0, 0x78b0, 0x78b0, 0x78b0, 0x78b0, 0x78b0, 0x78b0]
    case 7 => [0x78b0, 0x78b0, 0x41a0, 0x41a0, 0x41a0, 0x41a0, 0x41a0, 0x41a0]
    case 8 => [0x41a0, 0x7ca2, 0x7ca2, 0x7ca2, 0x7ca2, 0x7ca2, 0x7ca2, 0x74a2]
    case 9 => [0x74a2, 0x74a2, 0x74a2, 0x74a2, 0x74a2, 0x74a2, 0x74a2, 0x74a2]
    case 10 => [0x74a2, 0x74a2, 0x74a2, 0x74a2, 0x74a2, 0x74a2, 0x74a2, 0x74a2]
    case 11 => [0x74a2, 0x74a2, 0x74a2, 0x41a0, 0x41a0, 0x41a0, 0x41a0, 0x51a0]
    case 12 => [0x41a0, 0x78e2, 0x78e2, 0x78e2, 0x78e2, 0x78e2, 0x78e2, 0x70e2]
    case 13 => [0x70e2, 0x70e2, 0x70e2, 0x70e2, 0x70e2, 0x70e2, 0x70e2, 0x70e2]
    case 14 => [0x70e2, 0x70e2, 0x70e2, 0x70e2, 0x70e2, 0x70e2, 0x70e2, 0x70e2]
    case 15 => [0x70e2, 0x70e2, 0x70e2, 0x41a0, 0x41a0, 0x41a0, 0x41a0, 0x4008]
    case _ => [0, 0, 0, 0, 0, 0, 0, 0]
  }

  const CTYPE_NEWLINE: nat := 0
  const CTYPE_WORD: nat := 12

  function Power2(n: nat): (r: nat)
    ensures r > 0
  {
    if n == 0 then 1 else 2 * Power2(n - 1)
  }

  /** ONIGENC_IS_ASCII_CODE_CTYPE */
  predicate HasCtype(b: byte, ctype: nat) { CtypeRow(b / 8)[b % 8] / Power2(ctype) % 2 == 1 }

  lemma Powers()
    ensures Power2(CTYPE_NEWLINE) == 1 && Power2(CTYPE_WORD) == 0x1000
  {
    assert Power2(4) == 16;
    assert Power2(8) == 256;
  }

  lemma ByTable(b: byte)
    ensures IsWord(b) <==> HasCtype(b, CTYPE_WORD)
    ensures b == NEWLINE <==> HasCtype(b, CTYPE_NEWLINE)
  {
    Powers();
    var row, k := b / 8, b % 8;
    assert b == 8 * row + k;
    if row < 16 { InRow(row, k); }
  }

  /** The bits of each entry. */
  lemma InRow(row: nat, k: nat)
    requires row < 16 && k < 8
    ensures var b, c := 8 * row + k, CtypeRow(row)[k];
            && (c / 0x1000 % 2 == 1 <==> IsWord(b))
            && (c % 2 == 1 <==> b == NEWLINE)
  {
  }
}
