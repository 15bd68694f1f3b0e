/** The logical functions of SHA-512 (section 4.1.3 of FIPS 180-4), bit by bit. */
module DigestBits64 {
  import Sha512

  /** Bit `i` of a word; places count modulo the width. */
  predicate On(x: bv64, i: bv6) {
    (x >> i) & 1 == 1
  }

  lemma XorMoved(x: bv64, y: bv64, i: bv6)
    ensures ((x ^ y) >> i) & 1 == ((x >> i) ^ (y >> i)) & 1
    ensures (((x >> i) ^ (y >> i)) & 1 == 1) == (((x >> i) & 1 == 1) != ((y >> i) & 1 == 1))
  {
  }

  lemma XorWord(x: bv64, y: bv64, z: bv64)
    requires z == x ^ y
    ensures Sha512.Xor(x, y) == z
  {
  }

  lemma XorOn(x: bv64, y: bv64, i: bv6)
    ensures On(Sha512.Xor(x, y), i) == (On(x, i) != On(y, i))
  {
    hide Sha512.Xor;
    XorWord(x, y, x ^ y);
    XorMoved(x, y, i);
  }

  lemma AndOn(x: bv64, y: bv64, i: bv6)
    ensures On(Sha512.And(x, y), i) == (On(x, i) && On(y, i))
  {
  }

  lemma NotOn(x: bv64, i: bv6)
    ensures On(Sha512.Not(x), i) == !On(x, i)
  {
  }

  // ----- Rotations and shifts

  lemma Turned28And34And39(x: bv64)
    ensures Sha512.Rotr(x, 28) == (x >> 28) | (x << 36)
    ensures Sha512.Rotr(x, 34) == (x >> 34) | (x << 30)
    ensures Sha512.Rotr(x, 39) == (x >> 39) | (x << 25)
  {
  }

  lemma Turned28(x: bv64)
    ensures Sha512.Rotr(x, 28) == (x >> 28) | (x << 36)
  {
    hide *;
    Turned28And34And39(x);
  }

  lemma Turned34(x: bv64)
    ensures Sha512.Rotr(x, 34) == (x >> 34) | (x << 30)
  {
    hide *;
    Turned28And34And39(x);
  }

  lemma Turned39(x: bv64)
    ensures Sha512.Rotr(x, 39) == (x >> 39) | (x << 25)
  {
    hide *;
    Turned28And34And39(x);
  }

  lemma Moved28(x: bv64, i: bv6)
    ensures (((x >> 28) | (x << 36)) >> i) & 1 == (x >> (i + 28)) & 1
  {
  }

  lemma Place28(x: bv64, i: bv6)
    ensures On(Sha512.Rotr(x, 28), i) == On(x, i + 28)
  {
    hide Sha512.Rotr;
    Turned28(x);
    Moved28(x, i);
  }

  lemma Moved34(x: bv64, i: bv6)
    ensures (((x >> 34) | (x << 30)) >> i) & 1 == (x >> (i + 34)) & 1
  {
  }

  lemma Place34(x: bv64, i: bv6)
    ensures On(Sha512.Rotr(x, 34), i) == On(x, i + 34)
  {
    hide Sha512.Rotr;
    Turned34(x);
    Moved34(x, i);
  }

  lemma Moved39(x: bv64, i: bv6)
    ensures (((x >> 39) | (x << 25)) >> i) & 1 == (x >> (i + 39)) & 1
  {
  }

  lemma Place39(x: bv64, i: bv6)
    ensures On(Sha512.Rotr(x, 39), i) == On(x, i + 39)
  {
    hide Sha512.Rotr;
    Turned39(x);
    Moved39(x, i);
  }

  lemma Turned14And18And41(x: bv64)
    ensures Sha512.Rotr(x, 14) == (x >> 14) | (x << 50)
    ensures Sha512.Rotr(x, 18) == (x >> 18) | (x << 46)
    ensures Sha512.Rotr(x, 41) == (x >> 41) | (x << 23)
  {
  }

  lemma Turned14(x: bv64)
    ensures Sha512.Rotr(x, 14) == (x >> 14) | (x << 50)
  {
    hide *;
    Turned14And18And41(x);
  }

  lemma Turned18(x: bv64)
    ensures Sha512.Rotr(x, 18) == (x >> 18) | (x << 46)
  {
    hide *;
    Turned14And18And41(x);
  }

  lemma Turned41(x: bv64)
    ensures Sha512.Rotr(x, 41) == (x >> 41) | (x << 23)
  {
    hide *;
    Turned14And18And41(x);
  }

  lemma Moved14(x: bv64, i: bv6)
    ensures (((x >> 14) | (x << 50)) >> i) & 1 == (x >> (i + 14)) & 1
  {
  }

  lemma Place14(x: bv64, i: bv6)
    ensures On(Sha512.Rotr(x, 14), i) == On(x, i + 14)
  {
    hide Sha512.Rotr;
    Turned14(x);
    Moved14(x, i);
  }

  lemma Moved18(x: bv64, i: bv6)
    ensures (((x >> 18) | (x << 46)) >> i) & 1 == (x >> (i + 18)) & 1
  {
  }

  lemma Place18(x: bv64, i: bv6)
    ensures On(Sha512.Rotr(x, 18), i) == On(x, i + 18)
  {
    hide Sha512.Rotr;
    Turned18(x);
    Moved18(x, i);
  }

  lemma Moved41(x: bv64, i: bv6)
    ensures (((x >> 41) | (x << 23)) >> i) & 1 == (x >> (i + 41)) & 1
  {
  }

  lemma Place41(x: bv64, i: bv6)
    ensures On(Sha512.Rotr(x, 41), i) == On(x, i + 41)
  {
    hide Sha512.Rotr;
    Turned41(x);
    Moved41(x, i);
  }

  lemma Turned1And8(x: bv64)
    ensures Sha512.Rotr(x, 1) == (x >> 1) | (x << 63)
    ensures Sha512.Rotr(x, 8) == (x >> 8) | (x << 56)
  {
  }

  lemma Turned1(x: bv64)
    ensures Sha512.Rotr(x, 1) == (x >> 1) | (x << 63)
  {
    hide *;
    Turned1And8(x);
  }

  lemma Turned8(x: bv64)
    ensures Sha512.Rotr(x, 8) == (x >> 8) | (x << 56)
  {
    hide *;
    Turned1And8(x);
  }

  lemma Moved1(x: bv64, i: bv6)
    ensures (((x >> 1) | (x << 63)) >> i) & 1 == (x >> (i + 1)) & 1
  {
  }

  lemma Place1(x: bv64, i: bv6)
    ensures On(Sha512.Rotr(x, 1), i) == On(x, i + 1)
  {
    hide Sha512.Rotr;
    Turned1(x);
    Moved1(x, i);
  }

  lemma Moved8(x: bv64, i: bv6)
    ensures (((x >> 8) | (x << 56)) >> i) & 1 == (x >> (i + 8)) & 1
  {
  }

  lemma Place8(x: bv64, i: bv6)
    ensures On(Sha512.Rotr(x, 8), i) == On(x, i + 8)
  {
    hide Sha512.Rotr;
    Turned8(x);
    Moved8(x, i);
  }

  lemma Turned19And61(x: bv64)
    ensures Sha512.Rotr(x, 19) == (x >> 19) | (x << 45)
    ensures Sha512.Rotr(x, 61) == (x >> 61) | (x << 3)
  {
  }

  lemma Turned19(x: bv64)
    ensures Sha512.Rotr(x, 19) == (x >> 19) | (x << 45)
  {
    hide *;
    Turned19And61(x);
  }

  lemma Turned61(x: bv64)
    ensures Sha512.Rotr(x, 61) == (x >> 61) | (x << 3)
  {
    hide *;
    Turned19And61(x);
  }

  lemma Moved19(x: bv64, i: bv6)
    ensures (((x >> 19) | (x << 45)) >> i) & 1 == (x >> (i + 19)) & 1
  {
  }

  lemma Place19(x: bv64, i: bv6)
    ensures On(Sha512.Rotr(x, 19), i) == On(x, i + 19)
  {
    hide Sha512.Rotr;
    Turned19(x);
    Moved19(x, i);
  }

  lemma Moved61(x: bv64, i: bv6)
    ensures (((x >> 61) | (x << 3)) >> i) & 1 == (x >> (i + 61)) & 1
  {
  }

  lemma Place61(x: bv64, i: bv6)
    ensures On(Sha512.Rotr(x, 61), i) == On(x, i + 61)
  {
    hide Sha512.Rotr;
    Turned61(x);
    Moved61(x, i);
  }

  lemma Dropped7(x: bv64, i: bv6)
    ensures ((x >> 7) >> i) & 1 == if i < 57 then (x >> (i + 7)) & 1 else 0
  {
  }

  lemma Shift7(x: bv64, i: bv6)
    ensures On(x >> 7, i) == (i < 57 && On(x, i + 7))
  {
    Dropped7(x, i);
  }

  lemma Dropped6(x: bv64, i: bv6)
    ensures ((x >> 6) >> i) & 1 == if i < 58 then (x >> (i + 6)) & 1 else 0
  {
  }

  lemma Shift6(x: bv64, i: bv6)
    ensures On(x >> 6, i) == (i < 58 && On(x, i + 6))
  {
    Dropped6(x, i);
  }

  // ----- The functions

  /** Every bit is the exclusive or of two or three bits of the word, as many places to the left. */
  lemma BigSigma0Bits(x: bv64, i: bv6)
    ensures On(Sha512.BigSigma0(x), i) == ((On(x, i + 28) != On(x, i + 34)) != On(x, i + 39))
  {
    hide Sha512.Rotr, Sha512.Xor, On;
    var p, q, r := Sha512.Rotr(x, 28), Sha512.Rotr(x, 34), Sha512.Rotr(x, 39);
    Place28(x, i);
    Place34(x, i);
    Place39(x, i);
    XorOn(p, q, i);
    XorOn(Sha512.Xor(p, q), r, i);
  }

  lemma BigSigma1Bits(x: bv64, i: bv6)
    ensures On(Sha512.BigSigma1(x), i) == ((On(x, i + 14) != On(x, i + 18)) != On(x, i + 41))
  {
    hide Sha512.Rotr, Sha512.Xor, On;
    var p, q, r := Sha512.Rotr(x, 14), Sha512.Rotr(x, 18), Sha512.Rotr(x, 41);
    Place14(x, i);
    Place18(x, i);
    Place41(x, i);
    XorOn(p, q, i);
    XorOn(Sha512.Xor(p, q), r, i);
  }

  lemma SmallSigma0Bits(x: bv64, i: bv6)
    ensures On(Sha512.SmallSigma0(x), i) == ((On(x, i + 1) != On(x, i + 8)) != (i < 57 && On(x, i + 7)))
  {
    hide Sha512.Rotr, Sha512.Xor, On;
    var p, q, r := Sha512.Rotr(x, 1), Sha512.Rotr(x, 8), x >> 7;
    Place1(x, i);
    Place8(x, i);
    Shift7(x, i);
    XorOn(p, q, i);
    XorOn(Sha512.Xor(p, q), r, i);
  }

  lemma SmallSigma1Bits(x: bv64, i: bv6)
    ensures On(Sha512.SmallSigma1(x), i) == ((On(x, i + 19) != On(x, i + 61)) != (i < 58 && On(x, i + 6)))
  {
    hide Sha512.Rotr, Sha512.Xor, On;
    var p, q, r := Sha512.Rotr(x, 19), Sha512.Rotr(x, 61), x >> 6;
    Place19(x, i);
    Place61(x, i);
    Shift6(x, i);
    XorOn(p, q, i);
    XorOn(Sha512.Xor(p, q), r, i);
  }

  /** `Ch` takes the bits of `y` where `x` has ones and those of `z` elsewhere; `Maj` takes the majority. */
  lemma ChoiceBits(x: bv64, y: bv64, z: bv64, i: bv6)
    ensures On(Sha512.Ch(x, y, z), i) == if On(x, i) then On(y, i) else On(z, i)
    ensures On(Sha512.Maj(x, y, z), i) == if On(x, i) == On(y, i) then On(x, i) else On(z, i)
  {
    hide On, Sha512.Xor, Sha512.And, Sha512.Not;
    NotOn(x, i);
    AndOn(x, y, i);
    AndOn(x, z, i);
    AndOn(y, z, i);
    AndOn(Sha512.Not(x), z, i);
    XorOn(Sha512.And(x, y), Sha512.And(Sha512.Not(x), z), i);
    XorOn(Sha512.And(x, y), Sha512.And(x, z), i);
    XorOn(Sha512.Xor(Sha512.And(x, y), Sha512.And(x, z)), Sha512.And(y, z), i);
  }
}
