/** The logical functions of SHA-256 (section 4.1.2 of FIPS 180-4) and MD5 (section 3.4 of RFC 1321), bit
    by bit. */
module DigestBits {
  import Words32
  import Md5
  import Sha256

  /** Bit `i` of a word; places count modulo the width. */
  predicate On(x: bv32, i: bv5) {
    (x >> i) & 1 == 1
  }

  lemma XorMoved(x: bv32, y: bv32, i: bv5)
    ensures ((x ^ y) >> i) & 1 == ((x >> i) ^ (y >> i)) & 1
    ensures (((x >> i) ^ (y >> i)) & 1 == 1) == (((x >> i) & 1 == 1) != ((y >> i) & 1 == 1))
  {
  }

  lemma XorWord(x: bv32, y: bv32, z: bv32)
    requires z == x ^ y
    ensures Words32.Xor(x, y) == z
  {
  }

  lemma XorOn(x: bv32, y: bv32, i: bv5)
    ensures On(Words32.Xor(x, y), i) == (On(x, i) != On(y, i))
  {
    hide Words32.Xor;
    XorWord(x, y, x ^ y);
    XorMoved(x, y, i);
  }

  lemma AndOn(x: bv32, y: bv32, i: bv5)
    ensures On(Words32.And(x, y), i) == (On(x, i) && On(y, i))
  {
  }

  lemma OrOn(x: bv32, y: bv32, i: bv5)
    ensures On(Words32.Or(x, y), i) == (On(x, i) || On(y, i))
  {
  }

  lemma NotOn(x: bv32, i: bv5)
    ensures On(Words32.Not(x), i) == !On(x, i)
  {
  }

  // ----- Rotations and shifts

  lemma Shifts2(x: bv32)
    ensures Words32.Shr(x, 2) == x >> 2 && Words32.Shl(x, 30) == x << 30
  {
  }

  lemma Turned2(x: bv32)
    ensures Words32.Rotr(x, 2) == (x >> 2) | (x << 30)
  {
    hide Words32.Shr, Words32.Shl;
    Shifts2(x);
  }

  lemma Shifts13(x: bv32)
    ensures Words32.Shr(x, 13) == x >> 13 && Words32.Shl(x, 19) == x << 19
  {
  }

  lemma Turned13(x: bv32)
    ensures Words32.Rotr(x, 13) == (x >> 13) | (x << 19)
  {
    hide Words32.Shr, Words32.Shl;
    Shifts13(x);
  }

  lemma Shifts22(x: bv32)
    ensures Words32.Shr(x, 22) == x >> 22 && Words32.Shl(x, 10) == x << 10
  {
  }

  lemma Turned22(x: bv32)
    ensures Words32.Rotr(x, 22) == (x >> 22) | (x << 10)
  {
    hide Words32.Shr, Words32.Shl;
    Shifts22(x);
  }

  lemma Moved2(x: bv32, i: bv5)
    ensures (((x >> 2) | (x << 30)) >> i) & 1 == (x >> (i + 2)) & 1
  {
  }

  lemma Place2(x: bv32, i: bv5)
    ensures On(Words32.Rotr(x, 2), i) == On(x, i + 2)
  {
    hide Words32.Rotr;
    Turned2(x);
    Moved2(x, i);
  }

  lemma Moved13(x: bv32, i: bv5)
    ensures (((x >> 13) | (x << 19)) >> i) & 1 == (x >> (i + 13)) & 1
  {
  }

  lemma Place13(x: bv32, i: bv5)
    ensures On(Words32.Rotr(x, 13), i) == On(x, i + 13)
  {
    hide Words32.Rotr;
    Turned13(x);
    Moved13(x, i);
  }

  lemma Moved22(x: bv32, i: bv5)
    ensures (((x >> 22) | (x << 10)) >> i) & 1 == (x >> (i + 22)) & 1
  {
  }

  lemma Place22(x: bv32, i: bv5)
    ensures On(Words32.Rotr(x, 22), i) == On(x, i + 22)
  {
    hide Words32.Rotr;
    Turned22(x);
    Moved22(x, i);
  }

  lemma Shifts6(x: bv32)
    ensures Words32.Shr(x, 6) == x >> 6 && Words32.Shl(x, 26) == x << 26
  {
  }

  lemma Turned6(x: bv32)
    ensures Words32.Rotr(x, 6) == (x >> 6) | (x << 26)
  {
    hide Words32.Shr, Words32.Shl;
    Shifts6(x);
  }

  lemma Shifts11(x: bv32)
    ensures Words32.Shr(x, 11) == x >> 11 && Words32.Shl(x, 21) == x << 21
  {
  }

  lemma Turned11(x: bv32)
    ensures Words32.Rotr(x, 11) == (x >> 11) | (x << 21)
  {
    hide Words32.Shr, Words32.Shl;
    Shifts11(x);
  }

  lemma Shifts25(x: bv32)
    ensures Words32.Shr(x, 25) == x >> 25 && Words32.Shl(x, 7) == x << 7
  {
  }

  lemma Turned25(x: bv32)
    ensures Words32.Rotr(x, 25) == (x >> 25) | (x << 7)
  {
    hide Words32.Shr, Words32.Shl;
    Shifts25(x);
  }

  lemma Moved6(x: bv32, i: bv5)
    ensures (((x >> 6) | (x << 26)) >> i) & 1 == (x >> (i + 6)) & 1
  {
  }

  lemma Place6(x: bv32, i: bv5)
    ensures On(Words32.Rotr(x, 6), i) == On(x, i + 6)
  {
    hide Words32.Rotr;
    Turned6(x);
    Moved6(x, i);
  }

  lemma Moved11(x: bv32, i: bv5)
    ensures (((x >> 11) | (x << 21)) >> i) & 1 == (x >> (i + 11)) & 1
  {
  }

  lemma Place11(x: bv32, i: bv5)
    ensures On(Words32.Rotr(x, 11), i) == On(x, i + 11)
  {
    hide Words32.Rotr;
    Turned11(x);
    Moved11(x, i);
  }

  lemma Moved25(x: bv32, i: bv5)
    ensures (((x >> 25) | (x << 7)) >> i) & 1 == (x >> (i + 25)) & 1
  {
  }

  lemma Place25(x: bv32, i: bv5)
    ensures On(Words32.Rotr(x, 25), i) == On(x, i + 25)
  {
    hide Words32.Rotr;
    Turned25(x);
    Moved25(x, i);
  }

  lemma Shifts7(x: bv32)
    ensures Words32.Shr(x, 7) == x >> 7 && Words32.Shl(x, 25) == x << 25
  {
  }

  lemma Turned7(x: bv32)
    ensures Words32.Rotr(x, 7) == (x >> 7) | (x << 25)
  {
    hide Words32.Shr, Words32.Shl;
    Shifts7(x);
  }

  lemma Shifts18(x: bv32)
    ensures Words32.Shr(x, 18) == x >> 18 && Words32.Shl(x, 14) == x << 14
  {
  }

  lemma Turned18(x: bv32)
    ensures Words32.Rotr(x, 18) == (x >> 18) | (x << 14)
  {
    hide Words32.Shr, Words32.Shl;
    Shifts18(x);
  }

  lemma Moved7(x: bv32, i: bv5)
    ensures (((x >> 7) | (x << 25)) >> i) & 1 == (x >> (i + 7)) & 1
  {
  }

  lemma Place7(x: bv32, i: bv5)
    ensures On(Words32.Rotr(x, 7), i) == On(x, i + 7)
  {
    hide Words32.Rotr;
    Turned7(x);
    Moved7(x, i);
  }

  lemma Moved18(x: bv32, i: bv5)
    ensures (((x >> 18) | (x << 14)) >> i) & 1 == (x >> (i + 18)) & 1
  {
  }

  lemma Place18(x: bv32, i: bv5)
    ensures On(Words32.Rotr(x, 18), i) == On(x, i + 18)
  {
    hide Words32.Rotr;
    Turned18(x);
    Moved18(x, i);
  }

  lemma Shifts17(x: bv32)
    ensures Words32.Shr(x, 17) == x >> 17 && Words32.Shl(x, 15) == x << 15
  {
  }

  lemma Turned17(x: bv32)
    ensures Words32.Rotr(x, 17) == (x >> 17) | (x << 15)
  {
    hide Words32.Shr, Words32.Shl;
    Shifts17(x);
  }

  lemma Shifts19(x: bv32)
    ensures Words32.Shr(x, 19) == x >> 19 && Words32.Shl(x, 13) == x << 13
  {
  }

  lemma Turned19(x: bv32)
    ensures Words32.Rotr(x, 19) == (x >> 19) | (x << 13)
  {
    hide Words32.Shr, Words32.Shl;
    Shifts19(x);
  }

  lemma Moved17(x: bv32, i: bv5)
    ensures (((x >> 17) | (x << 15)) >> i) & 1 == (x >> (i + 17)) & 1
  {
  }

  lemma Place17(x: bv32, i: bv5)
    ensures On(Words32.Rotr(x, 17), i) == On(x, i + 17)
  {
    hide Words32.Rotr;
    Turned17(x);
    Moved17(x, i);
  }

  lemma Moved19(x: bv32, i: bv5)
    ensures (((x >> 19) | (x << 13)) >> i) & 1 == (x >> (i + 19)) & 1
  {
  }

  lemma Place19(x: bv32, i: bv5)
    ensures On(Words32.Rotr(x, 19), i) == On(x, i + 19)
  {
    hide Words32.Rotr;
    Turned19(x);
    Moved19(x, i);
  }

  lemma Shifted3(x: bv32)
    ensures Words32.Shr(x, 3) == x >> 3
  {
  }

  lemma Dropped3(x: bv32, i: bv5)
    ensures ((x >> 3) >> i) & 1 == if i < 29 then (x >> (i + 3)) & 1 else 0
  {
  }

  lemma Shift3(x: bv32, i: bv5)
    ensures On(Words32.Shr(x, 3), i) == (i < 29 && On(x, i + 3))
  {
    hide Words32.Shr;
    Shifted3(x);
    Dropped3(x, i);
  }

  lemma Shifted10(x: bv32)
    ensures Words32.Shr(x, 10) == x >> 10
  {
  }

  lemma Dropped10(x: bv32, i: bv5)
    ensures ((x >> 10) >> i) & 1 == if i < 22 then (x >> (i + 10)) & 1 else 0
  {
  }

  lemma Shift10(x: bv32, i: bv5)
    ensures On(Words32.Shr(x, 10), i) == (i < 22 && On(x, i + 10))
  {
    hide Words32.Shr;
    Shifted10(x);
    Dropped10(x, i);
  }

  // ----- The functions

  /** Every bit is the exclusive or of two or three bits of the word, as many places to the left. */
  lemma BigSigma0Bits(x: bv32, i: bv5)
    ensures On(Sha256.BigSigma0(x), i) == ((On(x, i + 2) != On(x, i + 13)) != On(x, i + 22))
  {
    hide Words32.Rotr, Words32.Xor, On;
    var p, q, r := Words32.Rotr(x, 2), Words32.Rotr(x, 13), Words32.Rotr(x, 22);
    Place2(x, i);
    Place13(x, i);
    Place22(x, i);
    XorOn(p, q, i);
    XorOn(Words32.Xor(p, q), r, i);
  }

  lemma BigSigma1Bits(x: bv32, i: bv5)
    ensures On(Sha256.BigSigma1(x), i) == ((On(x, i + 6) != On(x, i + 11)) != On(x, i + 25))
  {
    hide Words32.Rotr, Words32.Xor, On;
    var p, q, r := Words32.Rotr(x, 6), Words32.Rotr(x, 11), Words32.Rotr(x, 25);
    Place6(x, i);
    Place11(x, i);
    Place25(x, i);
    XorOn(p, q, i);
    XorOn(Words32.Xor(p, q), r, i);
  }

  lemma SmallSigma0Bits(x: bv32, i: bv5)
    ensures On(Sha256.SmallSigma0(x), i) == ((On(x, i + 7) != On(x, i + 18)) != (i < 29 && On(x, i + 3)))
  {
    hide Words32.Rotr, Words32.Xor, On, Words32.Shr;
    var p, q, r := Words32.Rotr(x, 7), Words32.Rotr(x, 18), Words32.Shr(x, 3);
    Place7(x, i);
    Place18(x, i);
    Shift3(x, i);
    XorOn(p, q, i);
    XorOn(Words32.Xor(p, q), r, i);
  }

  lemma SmallSigma1Bits(x: bv32, i: bv5)
    ensures On(Sha256.SmallSigma1(x), i) == ((On(x, i + 17) != On(x, i + 19)) != (i < 22 && On(x, i + 10)))
  {
    hide Words32.Rotr, Words32.Xor, On, Words32.Shr;
    var p, q, r := Words32.Rotr(x, 17), Words32.Rotr(x, 19), Words32.Shr(x, 10);
    Place17(x, i);
    Place19(x, i);
    Shift10(x, i);
    XorOn(p, q, i);
    XorOn(Words32.Xor(p, q), r, i);
  }

  /** `Ch` takes the bits of `y` where `x` has ones and those of `z` elsewhere; `Maj` takes the majority. */
  lemma ChoiceBits(x: bv32, y: bv32, z: bv32, i: bv5)
    ensures On(Sha256.Ch(x, y, z), i) == if On(x, i) then On(y, i) else On(z, i)
    ensures On(Sha256.Maj(x, y, z), i) == if On(x, i) == On(y, i) then On(x, i) else On(z, i)
  {
    hide On, Words32.Xor, Words32.And, Words32.Not;
    NotOn(x, i);
    AndOn(x, y, i);
    AndOn(x, z, i);
    AndOn(y, z, i);
    AndOn(Words32.Not(x), z, i);
    XorOn(Words32.And(x, y), Words32.And(Words32.Not(x), z), i);
    XorOn(Words32.And(x, y), Words32.And(x, z), i);
    XorOn(Words32.Xor(Words32.And(x, y), Words32.And(x, z)), Words32.And(y, z), i);
  }

  /** The auxiliary functions of MD5: two choices, a parity, and the second word against the other two. */
  lemma Md5Bits(x: bv32, y: bv32, z: bv32, i: bv5, step: nat)
    requires step < 64
    ensures On(Md5.F(step, x, y, z), i) ==
      if step < 16 then (if On(x, i) then On(y, i) else On(z, i))
      else if step < 32 then (if On(z, i) then On(x, i) else On(y, i))
      else if step < 48 then (On(x, i) != On(y, i)) != On(z, i)
      else On(y, i) != (On(x, i) || !On(z, i))
  {
    hide On, Words32.Xor, Words32.And, Words32.Or, Words32.Not;
    NotOn(x, i);
    NotOn(z, i);
    AndOn(x, y, i);
    AndOn(Words32.Not(x), z, i);
    OrOn(Words32.And(x, y), Words32.And(Words32.Not(x), z), i);
    AndOn(x, z, i);
    AndOn(y, Words32.Not(z), i);
    OrOn(Words32.And(x, z), Words32.And(y, Words32.Not(z)), i);
    XorOn(x, y, i);
    XorOn(Words32.Xor(x, y), z, i);
    OrOn(x, Words32.Not(z), i);
    XorOn(y, Words32.Or(x, Words32.Not(z)), i);
  }
}
