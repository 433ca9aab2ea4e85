/**
  The streaming hash of helper/src/sha256.cpp against the one-shot definition of SHA-256 in
  FIPS 180-4: padding of section 5.1.1, parsing of section 5.2.1, computation of section 6.2.2.
*/
module Sha256 {
  type Byte = bv8
  type Word = bv32
  type Amount = bv6

  const TWO64 := 0x1_0000_0000_0000_0000

  const ROUND_CONSTANTS: seq<Word> :=
    ([0x428a2f98, 0x71374491, 0xb5c0fbcf, 0xe9b5dba5, 0x3956c25b, 0x59f111f1, 0x923f82a4, 0xab1c5ed5,
      0xd807aa98, 0x12835b01, 0x243185be, 0x550c7dc3, 0x72be5d74, 0x80deb1fe, 0x9bdc06a7, 0xc19bf174]
   + [0xe49b69c1, 0xefbe4786, 0x0fc19dc6, 0x240ca1cc, 0x2de92c6f, 0x4a7484aa, 0x5cb0a9dc, 0x76f988da,
      0x983e5152, 0xa831c66d, 0xb00327c8, 0xbf597fc7, 0xc6e00bf3, 0xd5a79147, 0x06ca6351, 0x14292967])
 + ([0x27b70a85, 0x2e1b2138, 0x4d2c6dfc, 0x53380d13, 0x650a7354, 0x766a0abb, 0x81c2c92e, 0x92722c85,
      0xa2bfe8a1, 0xa81a664b, 0xc24b8b70, 0xc76c51a3, 0xd192e819, 0xd6990624, 0xf40e3585, 0x106aa070]
   + [0x19a4c116, 0x1e376c08, 0x2748774c, 0x34b0bcb5, 0x391c0cb3, 0x4ed8aa4a, 0x5b9cca4f, 0x682e6ff3,
      0x748f82ee, 0x78a5636f, 0x84c87814, 0x8cc70208, 0x90befffa, 0xa4506ceb, 0xbef9a3f7, 0xc67178f2])

  /** The eight working variables, and the eight words of a hash value. */
  datatype Vars = Vars(a: Word, b: Word, c: Word, d: Word, e: Word, f: Word, g: Word, h: Word)

  const INITIAL := Vars(0x6a09e667, 0xbb67ae85, 0x3c6ef372, 0xa54ff53a, 0x510e527f, 0x9b05688c, 0x1f83d9ab, 0x5be0cd19)

  /** Addition modulo 2^32. */
  function Add(x: Word, y: Word): Word {
    x + y
  }

  function RotateRight(x: Word, n: Amount): Word
    requires n <= 32
  {
    (x >> n) | (x << (32 - n))
  }

  function ShiftRight(x: Word, n: Amount): Word
    requires n <= 32
  {
    x >> n
  }

  function ReadBigEndian(b: seq<Byte>, at: nat): Word
    requires at + 4 <= |b|
  {
    ((b[at] as Word) << 24) | ((b[at + 1] as Word) << 16) | ((b[at + 2] as Word) << 8) | (b[at + 3] as Word)
  }

  function WordBytes(w: Word): (r: seq<Byte>)
    ensures |r| == 4
  {
    [((w >> 24) & 0xFF) as Byte, ((w >> 16) & 0xFF) as Byte, ((w >> 8) & 0xFF) as Byte, (w & 0xFF) as Byte]
  }

  // ---------------------------------------------------------------- the standard

  function Xor(x: Word, y: Word): Word { x ^ y }
  function Xor3(x: Word, y: Word, z: Word): Word { Xor(Xor(x, y), z) }
  function SmallSigma0(x: Word): Word { Xor3(RotateRight(x, 7), RotateRight(x, 18), ShiftRight(x, 3)) }
  function SmallSigma1(x: Word): Word { Xor3(RotateRight(x, 17), RotateRight(x, 19), ShiftRight(x, 10)) }
  function BigSigma0(x: Word): Word { Xor3(RotateRight(x, 2), RotateRight(x, 13), RotateRight(x, 22)) }
  function BigSigma1(x: Word): Word { Xor3(RotateRight(x, 6), RotateRight(x, 11), RotateRight(x, 25)) }
  function Ch(x: Word, y: Word, z: Word): Word { (x & y) ^ (!x & z) }
  function Maj(x: Word, y: Word, z: Word): Word { (x & y) ^ (x & z) ^ (y & z) }

  /** The first n words of the message schedule of a block. */
  function Schedule(block: seq<Byte>, n: nat): (r: seq<Word>)
    requires |block| == 64 && n <= 64
    ensures |r| == n
  {
    if n == 0 then [] else
      var w := Schedule(block, n - 1);
      w + [if n <= 16 then ReadBigEndian(block, 4 * (n - 1))
           else Add(Add(Add(w[n - 17], SmallSigma0(w[n - 16])), w[n - 8]), SmallSigma1(w[n - 3]))]
  }

  function Round(v: Vars, k: Word, w: Word): Vars {
    var t1 := Add(Add(Add(Add(v.h, BigSigma1(v.e)), Ch(v.e, v.f, v.g)), k), w);
    var t2 := Add(BigSigma0(v.a), Maj(v.a, v.b, v.c));
    Vars(Add(t1, t2), v.a, v.b, v.c, Add(v.d, t1), v.e, v.f, v.g)
  }

  function Rounds(v: Vars, w: seq<Word>, n: nat): Vars
    requires n <= |w| <= 64
  {
    if n == 0 then v else Round(Rounds(v, w, n - 1), ROUND_CONSTANTS[n - 1], w[n - 1])
  }

  function Plus(x: Vars, y: Vars): Vars {
    Vars(Add(x.a, y.a), Add(x.b, y.b), Add(x.c, y.c), Add(x.d, y.d), Add(x.e, y.e), Add(x.f, y.f), Add(x.g, y.g), Add(x.h, y.h))
  }

  /** The intermediate hash value after one more block. */
  function Compress(hash: Vars, block: seq<Byte>): Vars
    requires |block| == 64
  {
    Plus(hash, Rounds(hash, Schedule(block, 64), 64))
  }

  /** Compression over all whole blocks of a message. */
  function Fold(hash: Vars, m: seq<Byte>): Vars
    decreases |m|
  {
    if |m| < 64 then hash else Fold(Compress(hash, m[..64]), m[64..])
  }

  function Zeros(n: nat): (r: seq<Byte>)
    ensures |r| == n && forall i :: 0 <= i < n ==> r[i] == 0
  {
    seq(n, _ => 0)
  }

  /** A length in bits as a 64-bit block, most significant byte first. */
  function LengthBytes(bits: nat): (r: seq<Byte>)
    ensures |r| == 8
  {
    var b := bits % TWO64;
    [(b / 0x100_0000_0000_0000 % 256) as Byte, (b / 0x1_0000_0000_0000 % 256) as Byte,
     (b / 0x100_0000_0000 % 256) as Byte, (b / 0x1_0000_0000 % 256) as Byte,
     (b / 0x100_0000 % 256) as Byte, (b / 0x1_0000 % 256) as Byte, (b / 0x100 % 256) as Byte, (b % 256) as Byte]
  }

  /** The least number of zero bytes that leaves exactly eight bytes for the length. */
  function PadZeros(length: nat): (k: nat)
    ensures k < 64 && (length + 1 + k) % 64 == 56
  {
    (55 - length) % 64
  }

  function Padded(m: seq<Byte>): seq<Byte> {
    m + [0x80] + Zeros(PadZeros(|m|)) + LengthBytes(8 * |m|)
  }

  function HashBytes(v: Vars): (r: seq<Byte>)
    ensures |r| == 32
  {
    WordBytes(v.a) + WordBytes(v.b) + WordBytes(v.c) + WordBytes(v.d) + WordBytes(v.e) + WordBytes(v.f) + WordBytes(v.g) + WordBytes(v.h)
  }

  /** SHA-256 of a whole message. */
  function Digest(m: seq<Byte>): (r: seq<Byte>)
    ensures |r| == 32
  {
    HashBytes(Fold(INITIAL, Padded(m)))
  }

  lemma {:induction false} FoldAppend(hash: Vars, a: seq<Byte>, b: seq<Byte>)
    requires |a| % 64 == 0
    ensures Fold(hash, a + b) == Fold(Fold(hash, a), b)
    decreases |a|
  {
    hide Compress;
    if a == [] {
      assert a + b == b;
    } else {
      assert (a + b)[..64] == a[..64] && (a + b)[64..] == a[64..] + b;
      FoldAppend(Compress(hash, a[..64]), a[64..], b);
    }
  }

  lemma FoldOne(hash: Vars, a: seq<Byte>, block: seq<Byte>)
    requires |a| % 64 == 0 && |block| == 64
    ensures Fold(hash, a + block) == Compress(Fold(hash, a), block)
  {
    hide Compress;
    FoldAppend(hash, a, block);
    assert block[..64] == block && block[64..] == [];
  }

  lemma BitsWrap(length: nat)
    ensures (length % TWO64 * 8) % TWO64 == (8 * length) % TWO64
  {
    var q := length / TWO64;
    assert 8 * length == 8 * q * TWO64 + length % TWO64 * 8;
    ModShift(length % TWO64 * 8, 8 * q);
  }

  lemma {:induction false} ModShift(x: nat, q: nat)
    ensures (q * TWO64 + x) % TWO64 == x % TWO64
  {
    if q > 0 {
      ModShift(x, q - 1);
      assert q * TWO64 + x == ((q - 1) * TWO64 + x) + TWO64;
    }
  }

  // ---------------------------------------------------------------- the two loops of `Transform`

  /** The message schedule, filled in place. */
  method Expand(block: seq<Byte>) returns (schedule: seq<Word>)
    requires |block| == 64
    ensures schedule == Schedule(block, 64)
  {
    hide Add, SmallSigma0, SmallSigma1, ReadBigEndian;
    var words := new Word[64](_ => 0);
    var i := 0;
    while i < 16
      invariant 0 <= i <= 16
      invariant words[..i] == Schedule(block, i)
    {
      words[i] := ReadBigEndian(block, 4 * i);
      assert words[..i + 1] == words[..i] + [words[i]];
      i := i + 1;
    }
    while i < 64
      invariant 16 <= i <= 64
      invariant words[..i] == Schedule(block, i)
    {
      ghost var before := words[..i];
      words[i] := Add(Add(Add(words[i - 16], SmallSigma0(words[i - 15])), words[i - 7]), SmallSigma1(words[i - 2]));
      assert words[..i + 1] == before + [words[i]];
      i := i + 1;
    }
    return words[..];
  }

  /** The sixty-four rounds. */
  method RunRounds(hash: Vars, words: seq<Word>) returns (v: Vars)
    requires |words| == 64
    ensures v == Rounds(hash, words, 64)
  {
    hide Add, BigSigma0, BigSigma1, Ch, Maj;
    v := hash;
    var i := 0;
    while i < 64
      invariant 0 <= i <= 64
      invariant v == Rounds(hash, words, i)
    {
      var temporary1 := Add(Add(Add(Add(v.h, BigSigma1(v.e)), Ch(v.e, v.f, v.g)), ROUND_CONSTANTS[i]), words[i]);
      var temporary2 := Add(BigSigma0(v.a), Maj(v.a, v.b, v.c));
      v := Vars(Add(temporary1, temporary2), v.a, v.b, v.c, Add(v.d, temporary1), v.e, v.f, v.g);
      i := i + 1;
    }
  }

  // ---------------------------------------------------------------- the streaming hash

  class Hasher {
    var state: Vars
    const buffer: array<Byte>
    var totalBytes: nat
    var bufferBytes: nat
    var finished: bool
    ghost var message: seq<Byte>

    ghost predicate Valid()
      reads this, buffer
    {
      && buffer.Length == 64
      && if finished then state == Fold(INITIAL, Padded(message))
         else Holds(message) && totalBytes == |message| % TWO64
    }

    /** The whole blocks of m have been compressed and the rest lies in the buffer. */
    ghost predicate Holds(m: seq<Byte>)
      reads this, buffer
    {
      && buffer.Length == 64
      && bufferBytes < 64 && bufferBytes <= |m| && (|m| - bufferBytes) % 64 == 0
      && state == Fold(INITIAL, m[..|m| - bufferBytes])
      && buffer[..bufferBytes] == m[|m| - bufferBytes..]
    }

    constructor ()
      ensures Valid() && !finished && message == [] && fresh(buffer)
    {
      state, totalBytes, bufferBytes, finished, message := INITIAL, 0, 0, false, [];
      buffer := new Byte[64](_ => 0);
    }

    /** One block. */
    method Transform(block: seq<Byte>)
      requires |block| == 64
      modifies this`state
      ensures state == Compress(old(state), block)
    {
      hide Schedule, Rounds, Add;
      var words := Expand(block);
      var v := RunRounds(state, words);
      state := Plus(state, v);
    }

    /** `Update`: takes the data in, compressing the buffer each time it is full. */
    method Update(data: seq<Byte>)
      requires Valid()
      modifies this, buffer
      ensures Valid() && finished == old(finished)
      ensures message == if old(finished) then old(message) else old(message) + data
    {
      hide Compress, Padded, Fold;
      assert message + [] == message;
      if finished || data == [] { return; }
      ghost var before := message;
      TotalWraps(|before|, |data|);
      totalBytes := (totalBytes + |data|) % TWO64;
      TakeAll(data, before);
      message := before + data;
    }

    /** The copying loop of `Update`. */
    method TakeAll(data: seq<Byte>, ghost before: seq<Byte>)
      requires Holds(before)
      modifies this`state, this`bufferBytes, buffer
      ensures Holds(before + data)
    {
      hide Compress, Fold;
      var at := 0;
      assert before + data[..0] == before;
      while at < |data|
        invariant 0 <= at <= |data|
        invariant Holds(before + data[..at])
      {
        var available := 64 - bufferBytes;
        var count := if |data| - at < available then |data| - at else available;
        Take(data[at..at + count], before + data[..at]);
        assert before + data[..at + count] == before + data[..at] + data[at..at + count];
        at := at + count;
      }
      assert data[..at] == data;
    }

    /** One `memcpy` into the buffer, and the block it may complete. */
    method Take(part: seq<Byte>, ghost taken: seq<Byte>)
      requires Holds(taken) && 0 < |part| <= 64 - bufferBytes
      modifies this`state, this`bufferBytes, buffer
      ensures Holds(taken + part)
    {
      hide Compress, Fold;
      ghost var whole, tail := taken[..|taken| - bufferBytes], taken[|taken| - bufferBytes..];
      Fill(part);
      assert taken + part == whole + (tail + part);
      if bufferBytes == 64 {
        assert buffer[..64] == buffer[..];
        Transform(buffer[..]);
        FoldOne(INITIAL, whole, tail + part);
        bufferBytes := 0;
        assert (taken + part)[..|taken + part| - 0] == whole + (tail + part);
      } else {
        assert (taken + part)[..|taken + part| - bufferBytes] == whole;
        assert (taken + part)[|taken + part| - bufferBytes..] == tail + part;
      }
    }

    lemma TotalWraps(a: nat, b: nat)
      ensures (a % TWO64 + b) % TWO64 == (a + b) % TWO64
    {
      ModShift(a % TWO64 + b, a / TWO64);
      assert a + b == a / TWO64 * TWO64 + (a % TWO64 + b);
    }

    /** Writes bytes into the buffer from its current fill on. */
    method Fill(bytes: seq<Byte>)
      requires buffer.Length == 64 && bufferBytes + |bytes| <= 64
      modifies this`bufferBytes, buffer
      ensures bufferBytes == old(bufferBytes) + |bytes|
      ensures buffer[..bufferBytes] == old(buffer[..bufferBytes]) + bytes
    {
      var i, start := 0, bufferBytes;
      while i < |bytes|
        invariant 0 <= i <= |bytes| && bufferBytes == start + i
        invariant buffer[..bufferBytes] == old(buffer[..bufferBytes]) + bytes[..i]
      {
        buffer[bufferBytes] := bytes[i];
        assert buffer[..bufferBytes + 1] == buffer[..bufferBytes] + [bytes[i]];
        assert bytes[..i + 1] == bytes[..i] + [bytes[i]];
        bufferBytes := bufferBytes + 1;
        i := i + 1;
      }
      assert bytes[..i] == bytes;
    }

    /** `Finish`: pads once; any later call returns the same digest. */
    method Finish() returns (digest: seq<Byte>)
      requires Valid()
      modifies this, buffer
      ensures Valid() && finished && message == old(message)
      ensures digest == Digest(message)
    {
      if !finished { PadAndClose(); }
      return HashBytes(state);
    }

    method PadAndClose()
      requires Valid() && !finished
      modifies this, buffer
      ensures Valid() && finished && message == old(message)
    {
      hide Compress, Fold, LengthBytes, WordBytes, PadZeros, Zeros;
      ghost var m := message;
      ghost var whole, tail := m[..|m| - bufferBytes], m[|m| - bufferBytes..];
      assert m == whole + tail;
      var totalBits := totalBytes * 8 % TWO64;
      BitsWrap(|m|);
      SameLength(totalBits, 8 * |m|);
      Fill([0x80]);
      if bufferBytes > 56 {
        CloseLong(tail, totalBits);
        TwoBlocks(whole, tail);
      } else {
        CloseShort(tail, totalBits);
        OneBlock(whole, tail);
      }
      bufferBytes := 0;
      finished := true;
    }

    /** Room is left for the length behind the first padding byte. */
    method CloseShort(ghost tail: seq<Byte>, totalBits: nat)
      requires buffer.Length == 64 && |tail| + 1 == bufferBytes <= 56 && buffer[..bufferBytes] == tail + [0x80]
      modifies this`state, this`bufferBytes, buffer
      ensures var last := tail + [0x80] + Zeros(55 - |tail|) + LengthBytes(totalBits);
              |last| == 64 && state == Compress(old(state), last)
    {
      hide Compress, LengthBytes;
      Fill(Zeros(56 - bufferBytes));
      Fill(LengthBytes(totalBits));
      assert buffer[..] == buffer[..64];
      Transform(buffer[..]);
    }

    /** The length needs a block of its own. */
    method CloseLong(ghost tail: seq<Byte>, totalBits: nat)
      requires buffer.Length == 64 && |tail| + 1 == bufferBytes <= 64 && bufferBytes > 56 && buffer[..bufferBytes] == tail + [0x80]
      modifies this`state, this`bufferBytes, buffer
      ensures var first, second := tail + [0x80] + Zeros(63 - |tail|), Zeros(56) + LengthBytes(totalBits);
              |first| == |second| == 64 && state == Compress(Compress(old(state), first), second)
    {
      hide Compress, LengthBytes;
      Fill(Zeros(64 - bufferBytes));
      assert buffer[..] == buffer[..64];
      Transform(buffer[..]);
      bufferBytes := 0;
      Fill(Zeros(56));
      Fill(LengthBytes(totalBits));
      assert buffer[..] == buffer[..64] == Zeros(56) + LengthBytes(totalBits);
      Transform(buffer[..]);
    }
  }

  /** A short tail fits one padded block. */
  lemma OneBlock(whole: seq<Byte>, tail: seq<Byte>)
    requires |whole| % 64 == 0 && |tail| <= 55
    ensures var last := tail + [0x80] + Zeros(55 - |tail|) + LengthBytes(8 * |whole + tail|);
            |last| == 64 && Fold(INITIAL, Padded(whole + tail)) == Compress(Fold(INITIAL, whole), last)
  {
    hide Compress, Fold, LengthBytes;
    var m := whole + tail;
    var last := tail + [0x80] + Zeros(55 - |tail|) + LengthBytes(8 * |m|);
    assert PadZeros(|m|) == 55 - |tail|;
    assert Padded(m) == whole + last;
    FoldOne(INITIAL, whole, last);
  }

  /** A long tail needs a second block for the length. */
  lemma TwoBlocks(whole: seq<Byte>, tail: seq<Byte>)
    requires |whole| % 64 == 0 && 56 <= |tail| <= 63
    ensures var first, second := tail + [0x80] + Zeros(63 - |tail|), Zeros(56) + LengthBytes(8 * |whole + tail|);
            && |first| == |second| == 64
            && Fold(INITIAL, Padded(whole + tail)) == Compress(Compress(Fold(INITIAL, whole), first), second)
  {
    hide Compress, Fold, LengthBytes;
    var m := whole + tail;
    var first, second := tail + [0x80] + Zeros(63 - |tail|), Zeros(56) + LengthBytes(8 * |m|);
    assert PadZeros(|m|) == 119 - |tail|;
    assert Zeros(119 - |tail|) == Zeros(63 - |tail|) + Zeros(56);
    assert Padded(m) == whole + first + second;
    FoldOne(INITIAL, whole, first);
    FoldOne(INITIAL, whole + first, second);
  }

  lemma SameLength(a: nat, b: nat)
    requires a == b % TWO64
    ensures LengthBytes(a) == LengthBytes(b)
  {
    assert a % TWO64 == a;
  }

  function Concat(chunks: seq<seq<Byte>>): seq<Byte> {
    if chunks == [] then [] else Concat(chunks[..|chunks| - 1]) + chunks[|chunks| - 1]
  }

  /** However a message is cut into updates, the digest is that of the whole message, twice over. */
  method HashChunks(chunks: seq<seq<Byte>>) returns (digest: seq<Byte>, again: seq<Byte>)
    ensures digest == again == Digest(Concat(chunks))
  {
    hide Digest, Fold, Padded, Compress;
    var hasher := new Hasher();
    var i := 0;
    while i < |chunks|
      invariant 0 <= i <= |chunks|
      invariant fresh(hasher) && fresh(hasher.buffer) && hasher.Valid() && !hasher.finished
      invariant hasher.message == Concat(chunks[..i])
    {
      hasher.Update(chunks[i]);
      assert chunks[..i + 1][..i] == chunks[..i];
      i := i + 1;
    }
    assert chunks[..i] == chunks;
    digest := hasher.Finish();
    again := hasher.Finish();
  }
}
