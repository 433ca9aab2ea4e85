/** Numbers as bytes and back. */
module ByteNumbers {
  lemma ByteOf(n: nat)
    requires n < 256
    ensures (n as bv8) as nat == n
  {
  }
}

/**
  What the functions and bytes of the hash are, one bit at a time: sections 3.1, 3.2, 4.1.2 and 5.1.1
  of FIPS 180-4.
*/
module Sha256Standard {
  import opened Sha256
  import opened ByteNumbers

  // ---------------------------------------------------------------- single bits

  /** The word whose only one is at place i, counted from the least significant. */
  function Place(i: nat): Word
    requires i < 32
  {
    match i
    case 0 => 0x1 case 1 => 0x2 case 2 => 0x4 case 3 => 0x8
    case 4 => 0x10 case 5 => 0x20 case 6 => 0x40 case 7 => 0x80
    case 8 => 0x100 case 9 => 0x200 case 10 => 0x400 case 11 => 0x800
    case 12 => 0x1000 case 13 => 0x2000 case 14 => 0x4000 case 15 => 0x8000
    case 16 => 0x10000 case 17 => 0x20000 case 18 => 0x40000 case 19 => 0x80000
    case 20 => 0x100000 case 21 => 0x200000 case 22 => 0x400000 case 23 => 0x800000
    case 24 => 0x1000000 case 25 => 0x2000000 case 26 => 0x4000000 case 27 => 0x8000000
    case 28 => 0x10000000 case 29 => 0x20000000 case 30 => 0x40000000
    case _ => 0x80000000
  }

  function Mask(i: nat): Word {
    Place(i % 32)
  }

  /** The bit of x where m has its one. */
  predicate At(x: Word, m: Word) {
    x & m != 0
  }

  /** Bit i of a word, counted modulo 32. */
  predicate Bit(x: Word, i: nat) {
    At(x, Mask(i))
  }

  /** m covers all of its place in x or nothing of it. */
  predicate Clear(x: Word, m: Word) {
    m != 0 && (x & m == 0 || x & m == m)
  }

  lemma Single(x: Word, i: nat)
    ensures Clear(x, Mask(i))
  {
  }

  lemma XorAt(x: Word, y: Word, m: Word)
    requires Clear(x, m) && Clear(y, m)
    ensures At(x ^ y, m) == (At(x, m) != At(y, m))
  {
  }

  lemma ChWhere(x: Word, y: Word, z: Word, m: Word)
    ensures x & m == m ==> Ch(x, y, z) & m == y & m
    ensures x & m == 0 ==> Ch(x, y, z) & m == z & m
  {
  }

  lemma ChAt(x: Word, y: Word, z: Word, m: Word)
    requires Clear(x, m)
    ensures At(Ch(x, y, z), m) == if At(x, m) then At(y, m) else At(z, m)
  {
    ChWhere(x, y, z, m);
    hide Ch;
  }

  lemma MajWhere(x: Word, y: Word, z: Word, m: Word)
    ensures x & m == m ==> Maj(x, y, z) & m == (y | z) & m
    ensures x & m == 0 ==> Maj(x, y, z) & m == (y & z) & m
  {
  }

  lemma OrWhere(y: Word, z: Word, m: Word)
    ensures y & m == m ==> (y | z) & m == m
    ensures y & m == 0 ==> (y | z) & m == z & m
  {
  }

  lemma OrAt(y: Word, z: Word, m: Word)
    requires Clear(y, m)
    ensures At(y | z, m) == (At(y, m) || At(z, m))
  {
    OrWhere(y, z, m);
  }

  lemma AndAt(y: Word, z: Word, m: Word)
    requires Clear(y, m)
    ensures At(y & z, m) == (At(y, m) && At(z, m))
  {
    assert y & m == m ==> (y & z) & m == z & m;
    assert y & m == 0 ==> (y & z) & m == 0;
  }

  lemma MajAt(x: Word, y: Word, z: Word, m: Word)
    requires Clear(x, m) && Clear(y, m) && Clear(z, m)
    ensures At(Maj(x, y, z), m) == ((At(x, m) && At(y, m)) || (At(x, m) && At(z, m)) || (At(y, m) && At(z, m)))
  {
    MajWhere(x, y, z, m);
    OrAt(y, z, m);
    AndAt(y, z, m);
    hide Maj;
  }

  // ---------------------------------------------------------------- turning

  lemma NextPlace(i: nat)
    requires i < 32
    ensures Place(if i == 31 then 0 else i + 1) == (Place(i) << 1) | (Place(i) >> 31)
  {
  }

  lemma Turn1(i: nat)
    ensures Mask(i + 1) == RotateRight(Mask(i), 31)
  {
    assert (i + 1) % 32 == if i % 32 == 31 then 0 else i % 32 + 1;
    NextPlace(i % 32);
    hide Place;
  }

  lemma Double1(m: Word)
    ensures RotateRight(RotateRight(m, 31), 31) == RotateRight(m, 30)
  {
  }

  lemma Turn2(i: nat)
    ensures Mask(i + 2) == RotateRight(Mask(i), 30)
  {
    hide Mask, RotateRight;
    Turn1(i);
    Turn1(i + 1);
    Double1(Mask(i));
  }

  lemma Double2(m: Word)
    ensures RotateRight(RotateRight(m, 30), 30) == RotateRight(m, 28)
  {
  }

  lemma Turn4(i: nat)
    ensures Mask(i + 4) == RotateRight(Mask(i), 28)
  {
    hide Mask, RotateRight;
    Turn2(i);
    Turn2(i + 2);
    Double2(Mask(i));
  }

  lemma Double4(m: Word)
    ensures RotateRight(RotateRight(m, 28), 28) == RotateRight(m, 24)
  {
  }

  lemma Turn8(i: nat)
    ensures Mask(i + 8) == RotateRight(Mask(i), 24)
  {
    hide Mask, RotateRight;
    Turn4(i);
    Turn4(i + 4);
    Double4(Mask(i));
  }

  lemma Double8(m: Word)
    ensures RotateRight(RotateRight(m, 24), 24) == RotateRight(m, 16)
  {
  }

  lemma Turn16(i: nat)
    ensures Mask(i + 16) == RotateRight(Mask(i), 16)
  {
    hide Mask, RotateRight;
    Turn8(i);
    Turn8(i + 8);
    Double8(Mask(i));
  }

  lemma TurnAt2(x: Word, m: Word)
    ensures At(RotateRight(x, 2), m) == At(x, RotateRight(m, 30))
  {
    assert RotateRight(RotateRight(x, 2) & m, 30) == x & RotateRight(m, 30);
  }

  lemma RotatedBit2(x: Word, i: nat)
    ensures Bit(RotateRight(x, 2), i) == Bit(x, i + 2)
  {
    hide Mask, At, RotateRight;
    TurnAt2(x, Mask(i));
    Turn2(i);
  }

  lemma Compose6(m: Word)
    ensures RotateRight(RotateRight(m, 30), 28) == RotateRight(m, 26)
  {
  }

  lemma Turn6(i: nat)
    ensures Mask(i + 6) == RotateRight(Mask(i), 26)
  {
    hide Mask, RotateRight;
    Turn2(i);
    Turn4(i + 2);
    Compose6(Mask(i));
  }

  lemma TurnAt6(x: Word, m: Word)
    ensures At(RotateRight(x, 6), m) == At(x, RotateRight(m, 26))
  {
    assert RotateRight(RotateRight(x, 6) & m, 26) == x & RotateRight(m, 26);
  }

  lemma RotatedBit6(x: Word, i: nat)
    ensures Bit(RotateRight(x, 6), i) == Bit(x, i + 6)
  {
    hide Mask, At, RotateRight;
    TurnAt6(x, Mask(i));
    Turn6(i);
  }

  lemma Compose7(m: Word)
    ensures RotateRight(RotateRight(RotateRight(m, 31), 30), 28) == RotateRight(m, 25)
  {
  }

  lemma Turn7(i: nat)
    ensures Mask(i + 7) == RotateRight(Mask(i), 25)
  {
    hide Mask, RotateRight;
    Turn1(i);
    Turn2(i + 1);
    Turn4(i + 3);
    Compose7(Mask(i));
  }

  lemma TurnAt7(x: Word, m: Word)
    ensures At(RotateRight(x, 7), m) == At(x, RotateRight(m, 25))
  {
    assert RotateRight(RotateRight(x, 7) & m, 25) == x & RotateRight(m, 25);
  }

  lemma RotatedBit7(x: Word, i: nat)
    ensures Bit(RotateRight(x, 7), i) == Bit(x, i + 7)
  {
    hide Mask, At, RotateRight;
    TurnAt7(x, Mask(i));
    Turn7(i);
  }

  lemma Compose11(m: Word)
    ensures RotateRight(RotateRight(RotateRight(m, 31), 30), 24) == RotateRight(m, 21)
  {
  }

  lemma Turn11(i: nat)
    ensures Mask(i + 11) == RotateRight(Mask(i), 21)
  {
    hide Mask, RotateRight;
    Turn1(i);
    Turn2(i + 1);
    Turn8(i + 3);
    Compose11(Mask(i));
  }

  lemma TurnAt11(x: Word, m: Word)
    ensures At(RotateRight(x, 11), m) == At(x, RotateRight(m, 21))
  {
    assert RotateRight(RotateRight(x, 11) & m, 21) == x & RotateRight(m, 21);
  }

  lemma RotatedBit11(x: Word, i: nat)
    ensures Bit(RotateRight(x, 11), i) == Bit(x, i + 11)
  {
    hide Mask, At, RotateRight;
    TurnAt11(x, Mask(i));
    Turn11(i);
  }

  lemma Compose13(m: Word)
    ensures RotateRight(RotateRight(RotateRight(m, 31), 28), 24) == RotateRight(m, 19)
  {
  }

  lemma Turn13(i: nat)
    ensures Mask(i + 13) == RotateRight(Mask(i), 19)
  {
    hide Mask, RotateRight;
    Turn1(i);
    Turn4(i + 1);
    Turn8(i + 5);
    Compose13(Mask(i));
  }

  lemma TurnAt13(x: Word, m: Word)
    ensures At(RotateRight(x, 13), m) == At(x, RotateRight(m, 19))
  {
    assert RotateRight(RotateRight(x, 13) & m, 19) == x & RotateRight(m, 19);
  }

  lemma RotatedBit13(x: Word, i: nat)
    ensures Bit(RotateRight(x, 13), i) == Bit(x, i + 13)
  {
    hide Mask, At, RotateRight;
    TurnAt13(x, Mask(i));
    Turn13(i);
  }

  lemma Compose17(m: Word)
    ensures RotateRight(RotateRight(m, 31), 16) == RotateRight(m, 15)
  {
  }

  lemma Turn17(i: nat)
    ensures Mask(i + 17) == RotateRight(Mask(i), 15)
  {
    hide Mask, RotateRight;
    Turn1(i);
    Turn16(i + 1);
    Compose17(Mask(i));
  }

  lemma TurnAt17(x: Word, m: Word)
    ensures At(RotateRight(x, 17), m) == At(x, RotateRight(m, 15))
  {
    assert RotateRight(RotateRight(x, 17) & m, 15) == x & RotateRight(m, 15);
  }

  lemma RotatedBit17(x: Word, i: nat)
    ensures Bit(RotateRight(x, 17), i) == Bit(x, i + 17)
  {
    hide Mask, At, RotateRight;
    TurnAt17(x, Mask(i));
    Turn17(i);
  }

  lemma Compose18(m: Word)
    ensures RotateRight(RotateRight(m, 30), 16) == RotateRight(m, 14)
  {
  }

  lemma Turn18(i: nat)
    ensures Mask(i + 18) == RotateRight(Mask(i), 14)
  {
    hide Mask, RotateRight;
    Turn2(i);
    Turn16(i + 2);
    Compose18(Mask(i));
  }

  lemma TurnAt18(x: Word, m: Word)
    ensures At(RotateRight(x, 18), m) == At(x, RotateRight(m, 14))
  {
    assert RotateRight(RotateRight(x, 18) & m, 14) == x & RotateRight(m, 14);
  }

  lemma RotatedBit18(x: Word, i: nat)
    ensures Bit(RotateRight(x, 18), i) == Bit(x, i + 18)
  {
    hide Mask, At, RotateRight;
    TurnAt18(x, Mask(i));
    Turn18(i);
  }

  lemma Compose19(m: Word)
    ensures RotateRight(RotateRight(RotateRight(m, 31), 30), 16) == RotateRight(m, 13)
  {
  }

  lemma Turn19(i: nat)
    ensures Mask(i + 19) == RotateRight(Mask(i), 13)
  {
    hide Mask, RotateRight;
    Turn1(i);
    Turn2(i + 1);
    Turn16(i + 3);
    Compose19(Mask(i));
  }

  lemma TurnAt19(x: Word, m: Word)
    ensures At(RotateRight(x, 19), m) == At(x, RotateRight(m, 13))
  {
    assert RotateRight(RotateRight(x, 19) & m, 13) == x & RotateRight(m, 13);
  }

  lemma RotatedBit19(x: Word, i: nat)
    ensures Bit(RotateRight(x, 19), i) == Bit(x, i + 19)
  {
    hide Mask, At, RotateRight;
    TurnAt19(x, Mask(i));
    Turn19(i);
  }

  lemma Compose22(m: Word)
    ensures RotateRight(RotateRight(RotateRight(m, 30), 28), 16) == RotateRight(m, 10)
  {
  }

  lemma Turn22(i: nat)
    ensures Mask(i + 22) == RotateRight(Mask(i), 10)
  {
    hide Mask, RotateRight;
    Turn2(i);
    Turn4(i + 2);
    Turn16(i + 6);
    Compose22(Mask(i));
  }

  lemma TurnAt22(x: Word, m: Word)
    ensures At(RotateRight(x, 22), m) == At(x, RotateRight(m, 10))
  {
    assert RotateRight(RotateRight(x, 22) & m, 10) == x & RotateRight(m, 10);
  }

  lemma RotatedBit22(x: Word, i: nat)
    ensures Bit(RotateRight(x, 22), i) == Bit(x, i + 22)
  {
    hide Mask, At, RotateRight;
    TurnAt22(x, Mask(i));
    Turn22(i);
  }

  lemma Compose25(m: Word)
    ensures RotateRight(RotateRight(RotateRight(m, 31), 24), 16) == RotateRight(m, 7)
  {
  }

  lemma Turn25(i: nat)
    ensures Mask(i + 25) == RotateRight(Mask(i), 7)
  {
    hide Mask, RotateRight;
    Turn1(i);
    Turn8(i + 1);
    Turn16(i + 9);
    Compose25(Mask(i));
  }

  lemma TurnAt25(x: Word, m: Word)
    ensures At(RotateRight(x, 25), m) == At(x, RotateRight(m, 7))
  {
    assert RotateRight(RotateRight(x, 25) & m, 7) == x & RotateRight(m, 7);
  }

  lemma RotatedBit25(x: Word, i: nat)
    ensures Bit(RotateRight(x, 25), i) == Bit(x, i + 25)
  {
    hide Mask, At, RotateRight;
    TurnAt25(x, Mask(i));
    Turn25(i);
  }

  // ---------------------------------------------------------------- shifting

  /** The place 3 further on, if there is one. */
  function Up3(m: Word): Word {
    m << 3
  }

  lemma PlacesUp3(i: nat)
    requires i < 32
    ensures Place(i) << 3 == if i + 3 < 32 then Place(i + 3) else 0
  {
  }

  lemma UpFrom3(i: nat)
    requires i < 32
    ensures Up3(Mask(i)) == if i + 3 < 32 then Mask(i + 3) else 0
  {
    hide Place, Mask;
    PlacesUp3(i);
    InPlace(i);
    if i + 3 < 32 { InPlace(i + 3); }
  }

  lemma ShiftBack3(x: Word, m: Word)
    ensures At(x >> 3, m) == At(x, m << 3)
  {
    assert ((x >> 3) & m) << 3 == x & (m << 3);
  }

  lemma ShiftAt3(x: Word, m: Word)
    ensures At(ShiftRight(x, 3), m) == At(x, Up3(m))
  {
    hide At;
    ShiftBack3(x, m);
  }

  /** Shifting a word to the right brings bit i + 3 to place i, and zeros behind the end. */
  lemma ShiftedBit3(x: Word, i: nat)
    requires i < 32
    ensures Bit(ShiftRight(x, 3), i) == (i + 3 < 32 && Bit(x, i + 3))
  {
    hide Mask, At, ShiftRight, Up3;
    ShiftAt3(x, Mask(i));
    UpFrom3(i);
    NoPlace(x);
  }

  /** The place 10 further on, if there is one. */
  function Up10(m: Word): Word {
    m << 10
  }

  lemma PlacesUp10(i: nat)
    requires i < 32
    ensures Place(i) << 10 == if i + 10 < 32 then Place(i + 10) else 0
  {
  }

  lemma UpFrom10(i: nat)
    requires i < 32
    ensures Up10(Mask(i)) == if i + 10 < 32 then Mask(i + 10) else 0
  {
    hide Place, Mask;
    PlacesUp10(i);
    InPlace(i);
    if i + 10 < 32 { InPlace(i + 10); }
  }

  lemma ShiftBack10(x: Word, m: Word)
    ensures At(x >> 10, m) == At(x, m << 10)
  {
    assert ((x >> 10) & m) << 10 == x & (m << 10);
  }

  lemma ShiftAt10(x: Word, m: Word)
    ensures At(ShiftRight(x, 10), m) == At(x, Up10(m))
  {
    hide At;
    ShiftBack10(x, m);
  }

  /** Shifting a word to the right brings bit i + 10 to place i, and zeros behind the end. */
  lemma ShiftedBit10(x: Word, i: nat)
    requires i < 32
    ensures Bit(ShiftRight(x, 10), i) == (i + 10 < 32 && Bit(x, i + 10))
  {
    hide Mask, At, ShiftRight, Up10;
    ShiftAt10(x, Mask(i));
    UpFrom10(i);
    NoPlace(x);
  }

  lemma InPlace(i: nat)
    requires i < 32
    ensures Mask(i) == Place(i)
  {
    hide Place;
  }

  lemma NoPlace(x: Word)
    ensures !At(x, 0)
  {
  }

  // ---------------------------------------------------------------- the functions

  lemma XorBit(x: Word, y: Word, i: nat)
    ensures Bit(Xor(x, y), i) == (Bit(x, i) != Bit(y, i))
  {
    hide Mask, At, Clear, Xor;
    Single(x, i);
    Single(y, i);
    XorTwo(x, y, Mask(i));
  }

  lemma XorTwo(x: Word, y: Word, m: Word)
    requires Clear(x, m) && Clear(y, m)
    ensures At(Xor(x, y), m) == (At(x, m) != At(y, m))
  {
    XorAt(x, y, m);
    hide At, Clear;
  }

  lemma XorBits(x: Word, y: Word, z: Word, i: nat)
    ensures Bit(Xor3(x, y, z), i) == (Bit(x, i) != (Bit(y, i) != Bit(z, i)))
  {
    hide Mask, Xor, Bit;
    XorBit(x, y, i);
    XorBit(Xor(x, y), z, i);
  }

  /** Where x has a one, Ch has the bit of y, elsewhere that of z. */
  lemma ChBits(x: Word, y: Word, z: Word, i: nat)
    ensures Bit(Ch(x, y, z), i) == if Bit(x, i) then Bit(y, i) else Bit(z, i)
  {
    hide Mask, At, Clear, Ch;
    Single(x, i);
    ChAt(x, y, z, Mask(i));
  }

  /** Maj has the bit that at least two of its arguments have. */
  lemma MajBits(x: Word, y: Word, z: Word, i: nat)
    ensures Bit(Maj(x, y, z), i) == ((Bit(x, i) && Bit(y, i)) || (Bit(x, i) && Bit(z, i)) || (Bit(y, i) && Bit(z, i)))
  {
    hide Mask, At, Clear, Maj;
    Single(x, i);
    Single(y, i);
    Single(z, i);
    MajAt(x, y, z, Mask(i));
  }

  lemma BigSigma0Bits(x: Word, i: nat)
    ensures Bit(BigSigma0(x), i) == (Bit(x, i + 2) != (Bit(x, i + 13) != Bit(x, i + 22)))
  {
    hide RotateRight, Xor3, Bit;
    XorBits(RotateRight(x, 2), RotateRight(x, 13), RotateRight(x, 22), i);
    RotatedBit2(x, i);
    RotatedBit13(x, i);
    RotatedBit22(x, i);
  }

  lemma BigSigma1Bits(x: Word, i: nat)
    ensures Bit(BigSigma1(x), i) == (Bit(x, i + 6) != (Bit(x, i + 11) != Bit(x, i + 25)))
  {
    hide RotateRight, Xor3, Bit;
    XorBits(RotateRight(x, 6), RotateRight(x, 11), RotateRight(x, 25), i);
    RotatedBit6(x, i);
    RotatedBit11(x, i);
    RotatedBit25(x, i);
  }

  lemma SmallSigma0Bits(x: Word, i: nat)
    requires i < 32
    ensures Bit(SmallSigma0(x), i) == (Bit(x, i + 7) != (Bit(x, i + 18) != (i + 3 < 32 && Bit(x, i + 3))))
  {
    hide RotateRight, ShiftRight, Xor3, Bit;
    XorBits(RotateRight(x, 7), RotateRight(x, 18), ShiftRight(x, 3), i);
    RotatedBit7(x, i);
    RotatedBit18(x, i);
    ShiftedBit3(x, i);
  }

  lemma SmallSigma1Bits(x: Word, i: nat)
    requires i < 32
    ensures Bit(SmallSigma1(x), i) == (Bit(x, i + 17) != (Bit(x, i + 19) != (i + 10 < 32 && Bit(x, i + 10))))
  {
    hide RotateRight, ShiftRight, Xor3, Bit;
    XorBits(RotateRight(x, 17), RotateRight(x, 19), ShiftRight(x, 10), i);
    RotatedBit17(x, i);
    RotatedBit19(x, i);
    ShiftedBit10(x, i);
  }

  // ---------------------------------------------------------------- bytes and numbers

  /** The number some bytes spell, most significant first. */
  function Spelt(bytes: seq<Byte>): nat {
    if bytes == [] then 0 else 256 * Spelt(bytes[..|bytes| - 1]) + bytes[|bytes| - 1] as nat
  }

  /** A word with one more byte behind it. */
  function Behind(x: Word, y: Byte): Word {
    (x << 8) | (y as Word)
  }

  lemma ByteBehind(x: Word, y: Byte)
    requires x < 0x100_0000
    ensures ((x << 8) | (y as Word)) as nat == 256 * (x as nat) + y as nat
  {
  }

  lemma ByteWord(y: Byte)
    ensures (y as Word) as nat == y as nat && (y as Word) < 0x100
  {
  }

  lemma StillSmall(x: Word, y: Byte)
    ensures x < 0x100 ==> ((x << 8) | (y as Word)) < 0x1_0000
    ensures x < 0x1_0000 ==> ((x << 8) | (y as Word)) < 0x100_0000
  {
  }

  lemma ReadInSteps(b: seq<Byte>, at: nat)
    requires at + 4 <= |b|
    ensures ReadBigEndian(b, at) == Behind(Behind(Behind(b[at] as Word, b[at + 1]), b[at + 2]), b[at + 3])
  {
  }

  lemma SpeltNext(s: seq<Byte>, y: Byte)
    ensures Spelt(s + [y]) == 256 * Spelt(s) + y as nat
  {
    assert (s + [y])[..|s|] == s;
  }

  lemma SpeltFour(a: Byte, b: Byte, c: Byte, d: Byte)
    ensures Spelt([a, b, c, d]) == 256 * (256 * (256 * (a as nat) + b as nat) + c as nat) + d as nat
  {
    assert Spelt([]) == 0;
    hide Spelt;
    SpeltNext([], a);
    SpeltNext([a], b);
    SpeltNext([a, b], c);
    SpeltNext([a, b, c], d);
    assert [] + [a] == [a] && [a] + [b] == [a, b] && [a, b] + [c] == [a, b, c] && [a, b, c] + [d] == [a, b, c, d];
  }

  /** A word is read as the number its four bytes spell. */
  lemma ReadSpelt(b: seq<Byte>, at: nat)
    requires at + 4 <= |b|
    ensures ReadBigEndian(b, at) as nat == Spelt(b[at..at + 4])
  {
    var w, x, y, z := b[at], b[at + 1], b[at + 2], b[at + 3];
    assert b[at..at + 4] == [w, x, y, z];
    SpeltFour(w, x, y, z);
    ReadInSteps(b, at);
    hide Spelt, ReadBigEndian, Behind;
    FourBehind(w, x, y, z);
  }

  lemma BehindNumber(x: Word, y: Byte)
    ensures x < 0x100_0000 ==> Behind(x, y) as nat == 256 * (x as nat) + y as nat
    ensures x < 0x100 ==> Behind(x, y) < 0x1_0000
    ensures x < 0x1_0000 ==> Behind(x, y) < 0x100_0000
  {
    StillSmall(x, y);
    if x < 0x100_0000 { ByteBehind(x, y); }
  }

  lemma FourBehind(a: Byte, b: Byte, c: Byte, d: Byte)
    ensures Behind(Behind(Behind(a as Word, b), c), d) as nat ==
      256 * (256 * (256 * (a as nat) + b as nat) + c as nat) + d as nat
  {
    hide Behind;
    ByteWord(a);
    BehindNumber(a as Word, b);
    BehindNumber(Behind(a as Word, b), c);
    BehindNumber(Behind(Behind(a as Word, b), c), d);
  }

  /** Writing a word and reading it are inverse. */
  lemma WriteRead(w: Word, b: seq<Byte>)
    requires |b| == 4
    ensures ReadBigEndian(WordBytes(w), 0) == w
    ensures WordBytes(ReadBigEndian(b, 0)) == b
  {
  }

  lemma SpeltTwice(s: seq<Byte>, a: Byte, b: Byte, c: Byte, d: Byte)
    ensures Spelt(s + [a, b, c, d]) == 256 * (256 * (256 * (256 * Spelt(s) + a as nat) + b as nat) + c as nat) + d as nat
  {
    hide Spelt;
    SpeltNext(s, a);
    SpeltNext(s + [a], b);
    SpeltNext(s + [a] + [b], c);
    SpeltNext(s + [a] + [b] + [c], d);
    assert s + [a] + [b] + [c] + [d] == s + [a, b, c, d];
  }

  lemma Divided(b: nat)
    ensures b / 0x1_0000 == b / 0x100 / 0x100
    ensures b / 0x100_0000 == b / 0x1_0000 / 0x100
    ensures b / 0x1_0000_0000 == b / 0x100_0000 / 0x100
    ensures b / 0x100_0000_0000 == b / 0x1_0000_0000 / 0x100
    ensures b / 0x1_0000_0000_0000 == b / 0x100_0000_0000 / 0x100
    ensures b / 0x100_0000_0000_0000 == b / 0x1_0000_0000_0000 / 0x100
  {
  }

  function Combined(a: nat, b: nat, c: nat, d: nat, e: nat, f: nat, g: nat, h: nat): nat {
    256 * (256 * (256 * (256 * (256 * (256 * (256 * a + b) + c) + d) + e) + f) + g) + h
  }

  lemma SpeltEight(s: seq<Byte>)
    requires |s| == 8
    ensures Spelt(s) == Combined(s[0] as nat, s[1] as nat, s[2] as nat, s[3] as nat, s[4] as nat, s[5] as nat, s[6] as nat, s[7] as nat)
  {
    hide Spelt;
    assert s == [] + [s[0], s[1], s[2], s[3]] + [s[4], s[5], s[6], s[7]];
    SpeltTwice([], s[0], s[1], s[2], s[3]);
    SpeltTwice([] + [s[0], s[1], s[2], s[3]], s[4], s[5], s[6], s[7]);
    SpeltNone();
  }

  lemma Digits(b: nat)
    requires b < TWO64
    ensures b == Combined(b / 0x100_0000_0000_0000 % 256, b / 0x1_0000_0000_0000 % 256, b / 0x100_0000_0000 % 256,
      b / 0x1_0000_0000 % 256, b / 0x100_0000 % 256, b / 0x1_0000 % 256, b / 0x100 % 256, b % 256)
  {
    Divided(b);
    Horner(b, b / 0x100, b / 0x1_0000, b / 0x100_0000, b / 0x1_0000_0000,
      b / 0x100_0000_0000, b / 0x1_0000_0000_0000, b / 0x100_0000_0000_0000);
  }

  /** The length is spelt modulo 2^64. */
  lemma LengthSpelt(bits: nat)
    ensures Spelt(LengthBytes(bits)) == bits % TWO64
  {
    LengthDigits(bits);
    SpeltEight(LengthBytes(bits));
    Digits(bits % TWO64);
    hide LengthBytes, Spelt, Combined;
  }

  lemma SpeltNone()
    ensures Spelt([]) == 0
  {
  }

  lemma LengthDigits(bits: nat)
    ensures var s, b := LengthBytes(bits), bits % TWO64;
      && s[7] as nat == b % 256 && s[6] as nat == b / 0x100 % 256
      && s[5] as nat == b / 0x1_0000 % 256 && s[4] as nat == b / 0x100_0000 % 256
      && s[3] as nat == b / 0x1_0000_0000 % 256 && s[2] as nat == b / 0x100_0000_0000 % 256
      && s[1] as nat == b / 0x1_0000_0000_0000 % 256 && s[0] as nat == b / 0x100_0000_0000_0000 % 256
  {
    var b := bits % TWO64;
    ByteOf(b / 0x100_0000_0000_0000 % 256);
    ByteOf(b / 0x1_0000_0000_0000 % 256);
    ByteOf(b / 0x100_0000_0000 % 256);
    ByteOf(b / 0x1_0000_0000 % 256);
    ByteOf(b / 0x100_0000 % 256);
    ByteOf(b / 0x1_0000 % 256);
    ByteOf(b / 0x100 % 256);
    ByteOf(b % 256);
  }

  /** A number is put together again from its digits. */
  lemma Horner(a: nat, b: nat, c: nat, d: nat, e: nat, f: nat, g: nat, h: nat)
    requires b == a / 256 && c == b / 256 && d == c / 256 && e == d / 256 && f == e / 256 && g == f / 256 && h == g / 256 && h < 256
    ensures a == Combined(h % 256, g % 256, f % 256, e % 256, d % 256, c % 256, b % 256, a % 256)
  {
  }

  /** Padding: the message, one bit, the fewest zeros that fill whole blocks, the length in bits. */
  lemma PaddedMeaning(m: seq<Byte>)
    ensures var p, n := Padded(m), |Padded(m)|;
      && n % 64 == 0 && |m| + 9 <= n < |m| + 9 + 64
      && p[..|m|] == m && p[|m|] == 0x80
      && (forall i :: |m| < i < n - 8 ==> p[i] == 0)
      && Spelt(p[n - 8..]) == 8 * |m| % TWO64
  {
    hide LengthBytes;
    LengthSpelt(8 * |m|);
    var p, n := Padded(m), |Padded(m)|;
    assert p[n - 8..] == LengthBytes(8 * |m|);
  }

  // ---------------------------------------------------------------- schedule and rounds

  lemma {:induction false} ScheduleGrows(block: seq<Byte>, m: nat, n: nat)
    requires |block| == 64 && m <= n <= 64
    ensures Schedule(block, n)[..m] == Schedule(block, m)
    decreases n
  {
    hide ReadBigEndian, SmallSigma0, SmallSigma1, Add;
    if m < n { ScheduleGrows(block, m, n - 1); }
  }

  /** The message schedule: the words the block spells, and from the seventeenth on the recurrence of
      section 6.2.2. */
  lemma ScheduleWords(block: seq<Byte>, t: nat)
    requires |block| == 64 && t < 64
    ensures var w := Schedule(block, 64);
      && (t < 16 ==> w[t] as nat == Spelt(block[4 * t..4 * t + 4]))
      && (t >= 16 ==> w[t] == Add(Add(Add(w[t - 16], SmallSigma0(w[t - 15])), w[t - 7]), SmallSigma1(w[t - 2])))
  {
    hide SmallSigma0, SmallSigma1, Add, Spelt;
    ScheduleGrows(block, t + 1, 64);
    ScheduleGrows(block, t, t + 1);
    if t < 16 { ReadSpelt(block, 4 * t); }
    hide ReadBigEndian;
    var w := Schedule(block, 64);
    assert w[t] == Schedule(block, t + 1)[t];
    assert forall j :: 0 <= j < t ==> w[j] == Schedule(block, t)[j];
  }

  lemma RoundsNext(v: Vars, w: seq<Word>, n: nat)
    requires 0 < n <= |w| <= 64
    ensures var p, q := Rounds(v, w, n - 1), Rounds(v, w, n);
      && q.b == p.a && q.c == p.b && q.d == p.c && q.f == p.e && q.g == p.f && q.h == p.g
  {
    hide BigSigma0, BigSigma1, Ch, Maj, Add;
  }

  /** From the fourth round on the eight variables are the last four values of two sequences, and each
      round continues both. */
  lemma TwoSequences(v: Vars, w: seq<Word>, n: nat)
    requires 4 <= n <= |w| <= 64
    ensures var (a1, a2, a3, a4) := (Rounds(v, w, n - 1).a, Rounds(v, w, n - 2).a, Rounds(v, w, n - 3).a, Rounds(v, w, n - 4).a);
            var (e1, e2, e3, e4) := (Rounds(v, w, n - 1).e, Rounds(v, w, n - 2).e, Rounds(v, w, n - 3).e, Rounds(v, w, n - 4).e);
            var t1 := Add(Add(Add(Add(e4, BigSigma1(e1)), Ch(e1, e2, e3)), ROUND_CONSTANTS[n - 1]), w[n - 1]);
            var q := Rounds(v, w, n);
      && q.a == Add(t1, Add(BigSigma0(a1), Maj(a1, a2, a3))) && q.b == a1 && q.c == a2 && q.d == a3
      && q.e == Add(a4, t1) && q.f == e1 && q.g == e2 && q.h == e3
  {
    hide BigSigma0, BigSigma1, Ch, Maj, Add;
    RoundsNext(v, w, n);
    RoundsNext(v, w, n - 1);
    RoundsNext(v, w, n - 2);
    RoundsNext(v, w, n - 3);
  }

  /** The digest is spelt by the eight words of the last hash value. */
  lemma DigestSpelt(v: Vars)
    ensures var d := HashBytes(v);
      && ReadBigEndian(d, 0) == v.a && ReadBigEndian(d, 4) == v.b && ReadBigEndian(d, 8) == v.c && ReadBigEndian(d, 12) == v.d
      && ReadBigEndian(d, 16) == v.e && ReadBigEndian(d, 20) == v.f && ReadBigEndian(d, 24) == v.g && ReadBigEndian(d, 28) == v.h
  {
    WriteAnywhere(v.a);
    WriteAnywhere(v.b);
    WriteAnywhere(v.c);
    WriteAnywhere(v.d);
    WriteAnywhere(v.e);
    WriteAnywhere(v.f);
    WriteAnywhere(v.g);
    WriteAnywhere(v.h);
    hide WordBytes;
    var d := HashBytes(v);
    SameRead(d, 0, WordBytes(v.a));
    SameRead(d, 4, WordBytes(v.b));
    SameRead(d, 8, WordBytes(v.c));
    SameRead(d, 12, WordBytes(v.d));
    SameRead(d, 16, WordBytes(v.e));
    SameRead(d, 20, WordBytes(v.f));
    SameRead(d, 24, WordBytes(v.g));
    SameRead(d, 28, WordBytes(v.h));
    hide ReadBigEndian;
  }

  lemma WriteAnywhere(w: Word)
    ensures ReadBigEndian(WordBytes(w), 0) == w
  {
    WriteRead(w, WordBytes(w));
  }

  lemma SameRead(d: seq<Byte>, at: nat, b: seq<Byte>)
    requires at + 4 <= |d| && |b| == 4
    requires d[at] == b[0] && d[at + 1] == b[1] && d[at + 2] == b[2] && d[at + 3] == b[3]
    ensures ReadBigEndian(d, at) == ReadBigEndian(b, 0)
  {
    ReadInSteps(d, at);
    ReadInSteps(b, 0);
    hide ReadBigEndian, Behind;
  }
}
