/**
 * The table indices of the base64 encoder (src/pki.rs), computed with its shifts and masks and shown
 * to be the divisions and remainders the rest of the model works with. A mask keeps six bits, so
 * eight bits of each word are enough.
 */
module Base64Bits {
  type Byte = x: int | 0 <= x < 256
  type Sextet = x: int | 0 <= x < 64

  lemma {:induction false} QuotientBy4(b: bv8)
    ensures (b / 4) as int == b as int / 4 && (b % 4) as int == b as int % 4
  {
  }

  lemma {:induction false} QuotientBy16(b: bv8)
    ensures (b / 16) as int == b as int / 16 && (b % 16) as int == b as int % 16
  {
  }

  lemma {:induction false} QuotientBy64(b: bv8)
    ensures (b / 64) as int == b as int / 64 && (b % 64) as int == b as int % 64
  {
  }

  lemma {:induction false} JoinAt16(x: bv8, y: bv8)
    requires x < 4 && y < 16
    ensures (x * 16 + y) as int == x as int * 16 + y as int
  {
  }

  lemma {:induction false} JoinAt4(x: bv8, y: bv8)
    requires x < 16 && y < 4
    ensures (x * 4 + y) as int == x as int * 4 + y as int
  {
  }

  lemma {:induction false} FirstBits(b0: bv8)
    ensures (b0 >> 2) & 0x3F == b0 / 4
  {
  }

  lemma {:induction false} SecondBits(b0: bv8, b1: bv8)
    ensures ((b0 << 4) | (b1 >> 4)) & 0x3F == b0 % 4 * 16 + b1 / 16
    ensures b0 % 4 < 4 && b1 / 16 < 16
  {
  }

  lemma {:induction false} ThirdBits(b1: bv8, b2: bv8)
    ensures ((b1 << 2) | (b2 >> 6)) & 0x3F == b1 % 16 * 4 + b2 / 64
    ensures b1 % 16 < 16 && b2 / 64 < 4
  {
  }

  lemma {:induction false} FourthBits(b2: bv8)
    ensures b2 & 0x3F == b2 % 64
  {
  }

  lemma {:induction false} SecondIsArithmetic(b0: bv8, b1: bv8)
    ensures (((b0 << 4) | (b1 >> 4)) & 0x3F) as int == b0 as int % 4 * 16 + b1 as int / 16
  {
    SecondBits(b0, b1);
    JoinAt16(b0 % 4, b1 / 16);
    QuotientBy4(b0);
    QuotientBy16(b1);
  }

  lemma {:induction false} ThirdIsArithmetic(b1: bv8, b2: bv8)
    ensures (((b1 << 2) | (b2 >> 6)) & 0x3F) as int == b1 as int % 16 * 4 + b2 as int / 64
  {
    ThirdBits(b1, b2);
    JoinAt4(b1 % 16, b2 / 64);
    QuotientBy16(b1);
    QuotientBy64(b2);
  }

  /** The word that holds a byte. */
  method WordOf(b: Byte) returns (w: bv8)
    ensures w as int == b
  {
    if b == 0 {
      return 0;
    }
    var below := WordOf(b - 1);
    w := below + 1;
  }

  method FirstIndex(b0: Byte) returns (i: Sextet)
    ensures i == b0 / 4
  {
    var w0 := WordOf(b0);
    FirstBits(w0);
    QuotientBy4(w0);
    i := ((w0 >> 2) & 0x3F) as int;
  }

  method SecondIndex(b0: Byte, b1: Byte) returns (i: Sextet)
    ensures i == b0 % 4 * 16 + b1 / 16
  {
    var w0 := WordOf(b0);
    var w1 := WordOf(b1);
    SecondIsArithmetic(w0, w1);
    i := (((w0 << 4) | (w1 >> 4)) & 0x3F) as int;
  }

  method ThirdIndex(b1: Byte, b2: Byte) returns (i: Sextet)
    ensures i == b1 % 16 * 4 + b2 / 64
  {
    var w1 := WordOf(b1);
    var w2 := WordOf(b2);
    ThirdIsArithmetic(w1, w2);
    i := (((w1 << 2) | (w2 >> 6)) & 0x3F) as int;
  }

  method FourthIndex(b2: Byte) returns (i: Sextet)
    ensures i == b2 % 64
  {
    var w2 := WordOf(b2);
    FourthBits(w2);
    QuotientBy64(w2);
    i := (w2 & 0x3F) as int;
  }
}
