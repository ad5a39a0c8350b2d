// The table-driven CRC-32 against schoolbook division over GF(2): the 32-bit FCS
// of section 8.1.1.6.2 of ITU-T V.42, bits taken least significant first.
module Crc32 {

  // ------------------------------------------------------- the program

  // The source's table of 256 feedback terms, in rows of sixteen.
  const TABLE: seq<seq<bv32>> := [
    [0x00000000, 0x77073096, 0xee0e612c, 0x990951ba, 0x076dc419, 0x706af48f, 0xe963a535, 0x9e6495a3,
     0x0edb8832, 0x79dcb8a4, 0xe0d5e91e, 0x97d2d988, 0x09b64c2b, 0x7eb17cbd, 0xe7b82d07, 0x90bf1d91],
    [0x1db71064, 0x6ab020f2, 0xf3b97148, 0x84be41de, 0x1adad47d, 0x6ddde4eb, 0xf4d4b551, 0x83d385c7,
     0x136c9856, 0x646ba8c0, 0xfd62f97a, 0x8a65c9ec, 0x14015c4f, 0x63066cd9, 0xfa0f3d63, 0x8d080df5],
    [0x3b6e20c8, 0x4c69105e, 0xd56041e4, 0xa2677172, 0x3c03e4d1, 0x4b04d447, 0xd20d85fd, 0xa50ab56b,
     0x35b5a8fa, 0x42b2986c, 0xdbbbc9d6, 0xacbcf940, 0x32d86ce3, 0x45df5c75, 0xdcd60dcf, 0xabd13d59],
    [0x26d930ac, 0x51de003a, 0xc8d75180, 0xbfd06116, 0x21b4f4b5, 0x56b3c423, 0xcfba9599, 0xb8bda50f,
     0x2802b89e, 0x5f058808, 0xc60cd9b2, 0xb10be924, 0x2f6f7c87, 0x58684c11, 0xc1611dab, 0xb6662d3d],
    [0x76dc4190, 0x01db7106, 0x98d220bc, 0xefd5102a, 0x71b18589, 0x06b6b51f, 0x9fbfe4a5, 0xe8b8d433,
     0x7807c9a2, 0x0f00f934, 0x9609a88e, 0xe10e9818, 0x7f6a0dbb, 0x086d3d2d, 0x91646c97, 0xe6635c01],
    [0x6b6b51f4, 0x1c6c6162, 0x856530d8, 0xf262004e, 0x6c0695ed, 0x1b01a57b, 0x8208f4c1, 0xf50fc457,
     0x65b0d9c6, 0x12b7e950, 0x8bbeb8ea, 0xfcb9887c, 0x62dd1ddf, 0x15da2d49, 0x8cd37cf3, 0xfbd44c65],
    [0x4db26158, 0x3ab551ce, 0xa3bc0074, 0xd4bb30e2, 0x4adfa541, 0x3dd895d7, 0xa4d1c46d, 0xd3d6f4fb,
     0x4369e96a, 0x346ed9fc, 0xad678846, 0xda60b8d0, 0x44042d73, 0x33031de5, 0xaa0a4c5f, 0xdd0d7cc9],
    [0x5005713c, 0x270241aa, 0xbe0b1010, 0xc90c2086, 0x5768b525, 0x206f85b3, 0xb966d409, 0xce61e49f,
     0x5edef90e, 0x29d9c998, 0xb0d09822, 0xc7d7a8b4, 0x59b33d17, 0x2eb40d81, 0xb7bd5c3b, 0xc0ba6cad],
    [0xedb88320, 0x9abfb3b6, 0x03b6e20c, 0x74b1d29a, 0xead54739, 0x9dd277af, 0x04db2615, 0x73dc1683,
     0xe3630b12, 0x94643b84, 0x0d6d6a3e, 0x7a6a5aa8, 0xe40ecf0b, 0x9309ff9d, 0x0a00ae27, 0x7d079eb1],
    [0xf00f9344, 0x8708a3d2, 0x1e01f268, 0x6906c2fe, 0xf762575d, 0x806567cb, 0x196c3671, 0x6e6b06e7,
     0xfed41b76, 0x89d32be0, 0x10da7a5a, 0x67dd4acc, 0xf9b9df6f, 0x8ebeeff9, 0x17b7be43, 0x60b08ed5],
    [0xd6d6a3e8, 0xa1d1937e, 0x38d8c2c4, 0x4fdff252, 0xd1bb67f1, 0xa6bc5767, 0x3fb506dd, 0x48b2364b,
     0xd80d2bda, 0xaf0a1b4c, 0x36034af6, 0x41047a60, 0xdf60efc3, 0xa867df55, 0x316e8eef, 0x4669be79],
    [0xcb61b38c, 0xbc66831a, 0x256fd2a0, 0x5268e236, 0xcc0c7795, 0xbb0b4703, 0x220216b9, 0x5505262f,
     0xc5ba3bbe, 0xb2bd0b28, 0x2bb45a92, 0x5cb36a04, 0xc2d7ffa7, 0xb5d0cf31, 0x2cd99e8b, 0x5bdeae1d],
    [0x9b64c2b0, 0xec63f226, 0x756aa39c, 0x026d930a, 0x9c0906a9, 0xeb0e363f, 0x72076785, 0x05005713,
     0x95bf4a82, 0xe2b87a14, 0x7bb12bae, 0x0cb61b38, 0x92d28e9b, 0xe5d5be0d, 0x7cdcefb7, 0x0bdbdf21],
    [0x86d3d2d4, 0xf1d4e242, 0x68ddb3f8, 0x1fda836e, 0x81be16cd, 0xf6b9265b, 0x6fb077e1, 0x18b74777,
     0x88085ae6, 0xff0f6a70, 0x66063bca, 0x11010b5c, 0x8f659eff, 0xf862ae69, 0x616bffd3, 0x166ccf45],
    [0xa00ae278, 0xd70dd2ee, 0x4e048354, 0x3903b3c2, 0xa7672661, 0xd06016f7, 0x4969474d, 0x3e6e77db,
     0xaed16a4a, 0xd9d65adc, 0x40df0b66, 0x37d83bf0, 0xa9bcae53, 0xdebb9ec5, 0x47b2cf7f, 0x30b5ffe9],
    [0xbdbdf21c, 0xcabac28a, 0x53b39330, 0x24b4a3a6, 0xbad03605, 0xcdd70693, 0x54de5729, 0x23d967bf,
     0xb3667a2e, 0xc4614ab8, 0x5d681b02, 0x2a6f2b94, 0xb40bbe37, 0xc30c8ea1, 0x5a05df1b, 0x2d02ef8d]
  ]

  function Entry(index: bv32): bv32
    requires index < 256
  {
    TABLE[(index >> 4) as int][(index & 15) as int]
  }

  function Absorb(octet: bv8, crc: bv32): bv32 {
    crc ^ (octet as bv32)
  }

  function LowOctet(word: bv32): (r: bv32)
    ensures r < 256
  {
    word & 0xff
  }

  function High(word: bv32): bv32 {
    word >> 8
  }

  function XorWords(a: bv32, b: bv32): bv32 {
    a ^ b
  }

  function Not(word: bv32): bv32 {
    !word
  }

  // UPDC32
  function Update(octet: bv8, crc: bv32): bv32 {
    XorWords(Entry(LowOctet(Absorb(octet, crc))), High(crc))
  }

  // The accumulation loop over a file's bytes.
  method Crc(bytes: seq<bv8>) returns (crc: bv32)
    ensures Coefficients(crc) == Xor(Remainder(Dividend(BitsOf(bytes))), Ones(32))
  {
    crc := 0xffffffff;
    PresetCoefficients();
    var i := 0;
    while i < |bytes|
      invariant i <= |bytes|
      invariant Coefficients(crc) == Steps(Ones(32), BitsOf(bytes[..i]))
    {
      UpdateIsSerial(bytes[i], crc);
      BitsAppend(bytes, i);
      StepsAppend(Ones(32), BitsOf(bytes[..i]), Octet(bytes[i]));
      crc := Update(bytes[i], crc);
      i := i + 1;
    }
    assert bytes[..i] == bytes;
    RegisterDivides(Ones(32), BitsOf(bytes));
    Complement(crc);
    crc := Not(crc);
  }

  // ------------------------------------------------------- the reference

  // Polynomials over GF(2) are sequences of coefficients, highest power first.

  // The generator of the 32-bit FCS.
  const GENERATOR: seq<bool> := [
    true,
    false, false, false, false, false, true, false, false,
    true, true, false, false, false, false, false, true,
    false, false, false, true, true, true, false, true,
    true, false, true, true, false, true, true, true
  ]

  function Xor(a: seq<bool>, b: seq<bool>): (r: seq<bool>)
    requires |a| == |b|
    ensures |r| == |a| && forall i :: 0 <= i < |a| ==> r[i] == (a[i] != b[i])
  {
    seq(|a|, i requires 0 <= i < |a| => a[i] != b[i])
  }

  function Zeros(n: nat): (r: seq<bool>)
    ensures |r| == n && forall i :: 0 <= i < n ==> !r[i]
  {
    seq(n, _ => false)
  }

  function Ones(n: nat): (r: seq<bool>)
    ensures |r| == n && forall i :: 0 <= i < n ==> r[i]
  {
    seq(n, _ => true)
  }

  // Bits of an octet in the order they are sent.
  function Octet(octet: bv8): (r: seq<bool>)
    ensures |r| == 8
  {
    OctetBits(octet, 8)
  }

  function OctetBits(octet: bv8, n: nat): (r: seq<bool>)
    ensures |r| == n
  {
    if n == 0 then [] else [octet & 1 == 1] + OctetBits(octet >> 1, n - 1)
  }

  function BitsOf(bytes: seq<bv8>): seq<bool> {
    if bytes == [] then [] else Octet(bytes[0]) + BitsOf(bytes[1..])
  }

  // The message times x^32, its first 32 bits complemented.
  function Dividend(message: seq<bool>): (r: seq<bool>)
    ensures |r| == |message| + 32
  {
    Xor(message + Zeros(32), Ones(32) + Zeros(|message|))
  }

  // The remainder of long division by the generator.
  function Remainder(dividend: seq<bool>): (r: seq<bool>)
    requires 32 <= |dividend|
    ensures |r| == 32
    decreases |dividend|
  {
    if |dividend| == 32 then dividend
    else if !dividend[0] then Remainder(dividend[1..])
    else Remainder(Xor(dividend, GENERATOR + Zeros(|dividend| - 33))[1..])
  }

  // ------------------------------------------------------- the shift register

  // A register step: the bit shifted out, xored with the message bit, feeds the
  // polynomial back.
  function Step(c: seq<bool>, bit: bool): (r: seq<bool>)
    requires |c| == 32
    ensures |r| == 32
  {
    var shifted := c[1..] + [false];
    if c[0] != bit then Xor(shifted, GENERATOR[1..]) else shifted
  }

  function Steps(c: seq<bool>, bits: seq<bool>): (r: seq<bool>)
    requires |c| == 32
    ensures |r| == 32
    decreases |bits|
  {
    if bits == [] then c else Steps(Step(c, bits[0]), bits[1..])
  }

  // The register holds the remainder so far: preset included, nothing lost.
  lemma {:induction false} RegisterDivides(c: seq<bool>, message: seq<bool>)
    requires |c| == 32
    ensures Remainder(Xor(message + Zeros(32), c + Zeros(|message|))) == Steps(c, message)
    decreases |message|
  {
    var n := |message|;
    var d := Xor(message + Zeros(32), c + Zeros(n));
    if n == 0 {
      assert d == c;
    } else {
      var next := if d[0] then Xor(d, GENERATOR + Zeros(n - 1))[1..] else d[1..];
      assert next == Xor(message[1..] + Zeros(32), Step(c, message[0]) + Zeros(n - 1));
      RegisterDivides(Step(c, message[0]), message[1..]);
    }
  }

  lemma {:induction false} StepsAppend(c: seq<bool>, xs: seq<bool>, ys: seq<bool>)
    requires |c| == 32
    ensures Steps(c, xs + ys) == Steps(Steps(c, xs), ys)
    decreases |xs|
  {
    if xs == [] {
      assert xs + ys == ys;
    } else {
      assert (xs + ys)[1..] == xs[1..] + ys;
      StepsAppend(Step(c, xs[0]), xs[1..], ys);
    }
  }

  lemma {:induction false} BitsAppend(bytes: seq<bv8>, i: nat)
    requires i < |bytes|
    ensures BitsOf(bytes[..i + 1]) == BitsOf(bytes[..i]) + Octet(bytes[i])
  {
    if i == 0 {
      assert bytes[..1][1..] == [] && bytes[..0] == [];
    } else {
      BitsAppend(bytes[1..], i - 1);
      assert bytes[..i + 1][1..] == bytes[1..][..i] && bytes[..i][1..] == bytes[1..][..i - 1];
    }
  }

  // Steps are linear over xor.
  lemma {:induction false} StepsXor(c: seq<bool>, d: seq<bool>, xs: seq<bool>, ys: seq<bool>)
    requires |c| == |d| == 32 && |xs| == |ys|
    ensures Steps(Xor(c, d), Xor(xs, ys)) == Xor(Steps(c, xs), Steps(d, ys))
    decreases |xs|
  {
    if xs == [] {
    } else {
      var zs := Xor(xs, ys);
      assert Step(Xor(c, d), zs[0]) == Xor(Step(c, xs[0]), Step(d, ys[0]));
      assert zs[1..] == Xor(xs[1..], ys[1..]);
      StepsXor(Step(c, xs[0]), Step(d, ys[0]), xs[1..], ys[1..]);
    }
  }

  lemma StepAbsorbs(c: seq<bool>, bits: seq<bool>, pad: nat)
    requires |c| == 32 && |bits| + pad == 32 && bits != []
    ensures Step(Xor(c, bits + Zeros(pad)), false) == Xor(Step(c, bits[0]), bits[1..] + Zeros(pad + 1))
  {
    var d := Xor(c, bits + Zeros(pad));
    assert d[1..] + [false] == Xor(c[1..] + [false], bits[1..] + Zeros(pad + 1));
  }

  // Bits can be xored in beforehand.
  lemma {:induction false} StepsAbsorb(c: seq<bool>, bits: seq<bool>, pad: nat)
    requires |c| == 32 && |bits| + pad == 32
    ensures Steps(c, bits) == Steps(Xor(c, bits + Zeros(pad)), Zeros(|bits|))
    decreases |bits|
  {
    var n := |bits|;
    var d := Xor(c, bits + Zeros(pad));
    if bits == [] {
      assert d == c;
    } else {
      StepsAbsorb(Step(c, bits[0]), bits[1..], pad + 1);
      assert Zeros(n)[1..] == Zeros(n - 1);
      StepAbsorbs(c, bits, pad);
    }
  }

  // Nothing is fed back while zeros are shifted out.
  lemma {:induction false} StepsOfHigh(n: nat, high: seq<bool>)
    requires |high| + n == 32
    ensures Steps(Zeros(n) + high, Zeros(n)) == high + Zeros(n)
  {
    if n == 0 {
      assert Zeros(0) + high == high && high + Zeros(0) == high;
    } else {
      assert Zeros(n)[1..] == Zeros(n - 1);
      assert Step(Zeros(n) + high, false) == Zeros(n - 1) + (high + [false]);
      StepsOfHigh(n - 1, high + [false]);
      assert high + [false] + Zeros(n - 1) == high + Zeros(n);
    }
  }

  // Only the low bits can be fed back.
  lemma SplitSteps(d: seq<bool>, low: seq<bool>, n: nat)
    requires |d| == |low| == 32 && n <= 32
    requires low == d[..n] + Zeros(32 - n)
    ensures Steps(d, Zeros(n)) == Xor(Steps(low, Zeros(n)), d[n..] + Zeros(n))
  {
    StepsXor(low, Zeros(n) + d[n..], Zeros(n), Zeros(n));
    StepsOfHigh(n, d[n..]);
    assert Xor(low, Zeros(n) + d[n..]) == d;
    assert Xor(Zeros(n), Zeros(n)) == Zeros(n);
  }

  // ------------------------------------------------------- words as coefficients

  function Odd(word: bv32): bool {
    word & 1 == 1
  }

  function Half(word: bv32): bv32 {
    word >> 1
  }

  // The lowest n bits, lowest first.
  function Bits(word: bv32, n: nat): (r: seq<bool>)
    ensures |r| == n
  {
    if n == 0 then [] else [Odd(word)] + Bits(Half(word), n - 1)
  }

  // A register's contents, x^31 first: the least significant bit stands for the
  // highest power.
  function Coefficients(word: bv32): (r: seq<bool>)
    ensures |r| == 32
  {
    Bits(word, Width())
  }

  function Width(): nat { 32 }

  function Halves(word: bv32, n: nat): bv32 {
    if n == 0 then word else Halves(Half(word), n - 1)
  }

  lemma {:induction false} BitsSplit(word: bv32, n: nat, m: nat)
    ensures Bits(word, n + m) == Bits(word, n) + Bits(Halves(word, n), m)
    decreases n
  {
    hide Half, Odd;
    if 0 < n {
      BitsSplit(Half(word), n - 1, m);
      assert Bits(word, n + m) == [Odd(word)] + Bits(Half(word), n - 1 + m);
    } else {
      assert Bits(word, n) == [];
    }
  }

  lemma {:induction false} HalvesAdd(word: bv32, n: nat, m: nat)
    ensures Halves(word, n + m) == Halves(Halves(word, n), m)
    decreases n
  {
    hide Half;
    if n == 0 {
    } else {
      HalvesAdd(Half(word), n - 1, m);
    }
  }

  lemma XorHalves(a: bv32, b: bv32)
    ensures Odd(XorWords(a, b)) == (Odd(a) != Odd(b))
    ensures Half(XorWords(a, b)) == XorWords(Half(a), Half(b))
  {
  }

  lemma {:induction false} XorBits(a: bv32, b: bv32, n: nat)
    ensures Bits(XorWords(a, b), n) == Xor(Bits(a, n), Bits(b, n))
    decreases n
  {
    hide XorWords, Odd, Half, Xor;
    if n == 0 {
    } else {
      XorHalves(a, b);
      XorBits(Half(a), Half(b), n - 1);
      XorHead(Odd(a), Bits(Half(a), n - 1), Odd(b), Bits(Half(b), n - 1));
    }
  }

  lemma XorHead(a: bool, more: seq<bool>, b: bool, rest: seq<bool>)
    requires |more| == |rest|
    ensures Xor([a] + more, [b] + rest) == [a != b] + Xor(more, rest)
  {
  }

  lemma XorCoefficients(a: bv32, b: bv32)
    ensures Coefficients(XorWords(a, b)) == Xor(Coefficients(a), Coefficients(b))
  {
    XorBits(a, b, Width());
  }

  lemma HalvesOfHigh(a: bv32)
    ensures Half(Half(Half(Half(Half(Half(Half(Half(a)))))))) == High(a)
  {
  }

  lemma EightHalves(a: bv32)
    ensures Halves(a, 8) == Half(Half(Half(Half(Half(Half(Half(Half(a))))))))
  {
    hide Half;
    assert Halves(a, 8) == Halves(Half(a), 7);
    assert Halves(Half(a), 7) == Halves(Half(Half(a)), 6);
    assert Halves(Half(Half(a)), 6) == Halves(Half(Half(Half(a))), 5);
    assert Halves(Half(Half(Half(a))), 5) == Halves(Half(Half(Half(Half(a)))), 4);
    assert Halves(Half(Half(Half(Half(a)))), 4) == Halves(Half(Half(Half(Half(Half(a))))), 3);
    assert Halves(Half(Half(Half(Half(Half(a))))), 3) == Halves(Half(Half(Half(Half(Half(Half(a)))))), 2);
    assert Halves(Half(Half(Half(Half(Half(Half(a)))))), 2) == Halves(Half(Half(Half(Half(Half(Half(Half(a))))))), 1);
  }

  lemma HighIsHalves(a: bv32)
    ensures High(a) == Halves(a, 8)
  {
    hide *;
    HalvesOfHigh(a);
    EightHalves(a);
  }

  lemma NothingLeft(a: bv32)
    ensures High(High(High(High(a)))) == 0 && Half(0) == 0 && !Odd(0)
    ensures High(High(High(High(LowOctet(a))))) == 0 && High(LowOctet(a)) == 0 && High(0) == 0
  {
  }

  lemma {:induction false} ZeroBits(n: nat)
    ensures Bits(0, n) == Zeros(n)
  {
    if n == 0 {
    } else {
      ZeroBits(n - 1);
    }
  }

  lemma WordIsFinite(a: bv32)
    ensures Halves(a, 32) == 0
  {
    hide *;
    NothingLeft(a);
    HighIsHalves(a);
    HighIsHalves(High(a));
    HighIsHalves(High(High(a)));
    HighIsHalves(High(High(High(a))));
    HalvesAdd(a, 8, 24);
    HalvesAdd(High(a), 8, 16);
    HalvesAdd(High(High(a)), 8, 8);
  }

  lemma BitsBeyond(a: bv32, n: nat)
    ensures Bits(a, 32 + n) == Coefficients(a) + Zeros(n)
  {
    WordIsFinite(a);
    BitsSplit(a, 32, n);
    ZeroBits(n);
    hide Half, Odd, Bits, Halves;
  }

  lemma HalfCoefficients(a: bv32)
    ensures Coefficients(a)[0] == Odd(a)
    ensures Coefficients(Half(a)) == Coefficients(a)[1..] + [false]
  {
    hide Half, Odd;
    BitsBeyond(a, 1);
    var c, h := Coefficients(a), Coefficients(Half(a));
    assert h == Bits(Half(a), 32) && Zeros(1) == [false];
    assert c + [false] == [Odd(a)] + h;
    assert h == ([Odd(a)] + h)[1..] == (c + [false])[1..] == c[1..] + [false];
  }

  lemma HighCoefficients(a: bv32)
    ensures Coefficients(High(a)) == Coefficients(a)[8..] + Zeros(8)
  {
    hide High, Half, Odd;
    HighIsHalves(a);
    BitsBeyond(a, 8);
    BitsSplit(a, 8, 32);
    var c, h := Coefficients(a), Coefficients(High(a));
    assert h == Bits(High(a), 32) && c + Zeros(8) == Bits(a, 8) + h;
    assert h == (Bits(a, 8) + h)[8..] == (c + Zeros(8))[8..] == c[8..] + Zeros(8);
  }

  // Reading a known word bit by bit.
  predicate Reads(word: bv32, bits: seq<bool>, i: nat)
    decreases |bits| - i
  {
    |bits| <= i || (Odd(word) == bits[i] && Reads(Half(word), bits, i + 1))
  }

  lemma {:induction false} ReadsBits(word: bv32, bits: seq<bool>, i: nat)
    requires i <= |bits| && Reads(word, bits, i)
    ensures Bits(word, |bits| - i) == bits[i..]
    decreases |bits| - i
  {
    hide Odd, Half;
    if |bits| <= i {
    } else {
      ReadsBits(Half(word), bits, i + 1);
      assert bits[i..] == [bits[i]] + bits[i + 1..];
    }
  }

  lemma OctetOnes()
    ensures Bits(0xff, 8) == Ones(8) && High(0xff) == 0
  {
    var ones := [true, true, true, true, true, true, true, true];
    ReadsBits(0xff, ones, 0);
    assert ones[0..] == Ones(8);
  }

  lemma OctetMask()
    ensures Coefficients(0xff) == Ones(8) + Zeros(24)
  {
    OctetOnes();
    BitsSplit(0xff, 8, 24);
    HighIsHalves(0xff);
    ZeroBits(24);
    hide High, Bits;
  }

  function Both(a: seq<bool>, b: seq<bool>): (r: seq<bool>)
    requires |a| == |b|
    ensures |r| == |a| && forall i :: 0 <= i < |a| ==> r[i] == (a[i] && b[i])
  {
    seq(|a|, i requires 0 <= i < |a| => a[i] && b[i])
  }

  function AndWords(a: bv32, b: bv32): bv32 {
    a & b
  }

  lemma AndHalves(a: bv32, b: bv32)
    ensures Odd(AndWords(a, b)) == (Odd(a) && Odd(b))
    ensures Half(AndWords(a, b)) == AndWords(Half(a), Half(b))
  {
  }

  lemma {:induction false} AndBits(a: bv32, b: bv32, n: nat)
    ensures Bits(AndWords(a, b), n) == Both(Bits(a, n), Bits(b, n))
    decreases n
  {
    hide AndWords, Odd, Half, Both;
    if n == 0 {
    } else {
      AndHalves(a, b);
      AndBits(Half(a), Half(b), n - 1);
      BothHead(Odd(a), Bits(Half(a), n - 1), Odd(b), Bits(Half(b), n - 1));
    }
  }

  lemma BothHead(a: bool, more: seq<bool>, b: bool, rest: seq<bool>)
    requires |more| == |rest|
    ensures Both([a] + more, [b] + rest) == [a && b] + Both(more, rest)
  {
  }

  lemma LowCoefficients(a: bv32)
    ensures Coefficients(LowOctet(a)) == Coefficients(a)[..8] + Zeros(24)
  {
    assert LowOctet(a) == AndWords(a, 0xff);
    hide LowOctet, AndWords, Bits;
    AndBits(a, 0xff, Width());
    OctetMask();
  }

  lemma PolynomialCoefficients()
    ensures Coefficients(0xedb88320) == GENERATOR[1..]
  {
    PolynomialWhole();
    ReadsBits(0xedb88320, GENERATOR, 1);
  }

  lemma PolynomialWhole()
    ensures Reads(0xedb88320, GENERATOR, 1)
  {
    PolynomialLower();
  }

  lemma PolynomialLower()
    ensures Reads(0xedb8832, GENERATOR, 5)
  {
    PolynomialMiddle();
  }

  lemma PolynomialMiddle()
    ensures Reads(0xedb883, GENERATOR, 9)
  {
    PolynomialUpper();
    assert Reads(0xedb88, GENERATOR, 13);
  }

  lemma PolynomialUpper()
    ensures Reads(0xedb8, GENERATOR, 17)
  {
    assert Reads(0xe, GENERATOR, 29);
    assert Reads(0xed, GENERATOR, 25);
    assert Reads(0xedb, GENERATOR, 21);
  }

  lemma OnesAbove(low: bv32, n: nat)
    requires Bits(High(low), n) == Ones(n) && Bits(low, 8) == Ones(8)
    ensures Bits(low, 8 + n) == Ones(8 + n)
  {
    hide High, Bits;
    BitsSplit(low, 8, n);
    HighIsHalves(low);
  }

  lemma PresetCoefficients()
    ensures Coefficients(0xffffffff) == Ones(32)
  {
    OctetOnes();
    OctetsAreOnes();
    OnesAbove(0xffff, 8);
    OnesAbove(0xffffff, 16);
    OnesAbove(0xffffffff, 24);
  }

  lemma OctetsAreOnes()
    ensures High(0xffff) == 0xff && High(0xffffff) == 0xffff && High(0xffffffff) == 0xffffff
    ensures Bits(0xffff, 8) == Bits(0xffffff, 8) == Bits(0xffffffff, 8) == Ones(8)
  {
    var ones := [true, true, true, true, true, true, true, true];
    ReadsBits(0xffff, ones, 0);
    ReadsBits(0xffffff, ones, 0);
    ReadsBits(0xffffffff, ones, 0);
    assert ones[0..] == Ones(8);
  }

  lemma NotIsXor(a: bv32)
    ensures Not(a) == XorWords(a, 0xffffffff)
  {
  }

  lemma Complement(a: bv32)
    ensures Coefficients(Not(a)) == Xor(Coefficients(a), Ones(32))
  {
    hide *;
    NotIsXor(a);
    PresetCoefficients();
    XorCoefficients(a, 0xffffffff);
  }

  lemma OctetHalves(octet: bv8)
    ensures Odd(octet as bv32) == (octet & 1 == 1) && Half(octet as bv32) == (octet >> 1) as bv32
  {
  }

  lemma {:induction false} OctetWord(octet: bv8, n: nat)
    ensures Bits(octet as bv32, n) == OctetBits(octet, n)
  {
    hide Odd, Half;
    if n == 0 {
    } else {
      OctetHalves(octet);
      OctetWord(octet >> 1, n - 1);
    }
  }

  lemma OctetFits(octet: bv8)
    ensures LowOctet(octet as bv32) == octet as bv32
  {
  }

  lemma OctetCoefficients(octet: bv8)
    ensures Coefficients(octet as bv32) == Octet(octet) + Zeros(24)
  {
    hide Bits, LowOctet;
    OctetFits(octet);
    LowCoefficients(octet as bv32);
    BitsSplit(octet as bv32, 8, 24);
    OctetWord(octet, 8);
  }

  // ------------------------------------------------------- table entries

  // A step of the register as a word.
  function Shift(crc: bv32): bv32 {
    if crc & 1 == 1 then (crc >> 1) ^ 0xedb88320 else crc >> 1
  }

  // Eight of them.
  function Shift8(crc: bv32): bv32 {
    Shift(Shift(Shift(Shift(Shift(Shift(Shift(Shift(crc))))))))
  }

  // Every entry is eight shifts of its index.
  lemma EntryIsShift8(index: bv32)
    requires index < 256
    ensures Entry(index) == Shift8(index)
  {
  }

  lemma ShiftSteps(crc: bv32)
    ensures Coefficients(Shift(crc)) == Step(Coefficients(crc), false)
  {
    hide Coefficients, Half, XorWords, Shift, Odd;
    ShiftNamed(crc);
    HalfCoefficients(crc);
    PolynomialCoefficients();
    XorCoefficients(Half(crc), 0xedb88320);
  }

  lemma ShiftNamed(crc: bv32)
    ensures Shift(crc) == if Odd(crc) then XorWords(Half(crc), 0xedb88320) else Half(crc)
  {
  }

  lemma Shift8Steps(crc: bv32)
    ensures Coefficients(Shift8(crc)) == Steps(Coefficients(crc), Zeros(8))
  {
    hide Shift, Coefficients, Steps, Zeros;
    FourShifts(crc, 4);
    FourShifts(Shift(Shift(Shift(Shift(crc)))), 0);
  }

  lemma FourShifts(crc: bv32, n: nat)
    ensures Steps(Coefficients(crc), Zeros(n + 4)) == Steps(Coefficients(Shift(Shift(Shift(Shift(crc))))), Zeros(n))
    ensures Steps(Coefficients(Shift(Shift(Shift(Shift(crc))))), Zeros(0))
         == Coefficients(Shift(Shift(Shift(Shift(crc)))))
  {
    hide *;
    OneShift(crc, n + 3);
    OneShift(Shift(crc), n + 2);
    OneShift(Shift(Shift(crc)), n + 1);
    OneShift(Shift(Shift(Shift(crc))), n);
  }

  lemma OneShift(crc: bv32, n: nat)
    ensures Steps(Coefficients(crc), Zeros(n + 1)) == Steps(Coefficients(Shift(crc)), Zeros(n))
    ensures Steps(Coefficients(Shift(crc)), Zeros(0)) == Coefficients(Shift(crc))
  {
    ShiftSteps(crc);
    assert Zeros(n + 1)[1..] == Zeros(n);
  }

  // One table look-up does the work of feeding eight bits.
  lemma UpdateIsSerial(octet: bv8, crc: bv32)
    ensures Coefficients(Update(octet, crc)) == Steps(Coefficients(crc), Octet(octet))
  {
    assert Update(octet, crc) == XorWords(Entry(LowOctet(Absorb(octet, crc))), High(crc));
    hide *;
    Absorbed(octet, crc);
    Looked(Absorb(octet, crc));
    Combined(Entry(LowOctet(Absorb(octet, crc))), crc);
    var c, d, low := Coefficients(crc), Coefficients(Absorb(octet, crc)), Coefficients(LowOctet(Absorb(octet, crc)));
    UpdateOnCoefficients(c, Octet(octet), d, low);
  }

  lemma Absorbed(octet: bv8, crc: bv32)
    ensures Coefficients(Absorb(octet, crc)) == Xor(Coefficients(crc), Octet(octet) + Zeros(24))
  {
    assert Absorb(octet, crc) == XorWords(crc, octet as bv32);
    hide *;
    OctetCoefficients(octet);
    XorCoefficients(crc, octet as bv32);
  }

  lemma Looked(x: bv32)
    ensures Coefficients(Entry(LowOctet(x))) == Steps(Coefficients(LowOctet(x)), Zeros(8))
    ensures Coefficients(LowOctet(x)) == Coefficients(x)[..8] + Zeros(24)
  {
    hide *;
    LowCoefficients(x);
    EntryIsShift8(LowOctet(x));
    Shift8Steps(LowOctet(x));
  }

  lemma Combined(entry: bv32, crc: bv32)
    ensures Coefficients(XorWords(entry, High(crc))) == Xor(Coefficients(entry), Coefficients(crc)[8..] + Zeros(8))
  {
    hide *;
    HighCoefficients(crc);
    XorCoefficients(entry, High(crc));
  }

  lemma UpdateOnCoefficients(c: seq<bool>, o: seq<bool>, d: seq<bool>, low: seq<bool>)
    requires |c| == |d| == |low| == 32 && |o| == 8
    requires d == Xor(c, o + Zeros(24)) && low == d[..8] + Zeros(24)
    ensures Steps(c, o) == Xor(Steps(low, Zeros(8)), c[8..] + Zeros(8))
  {
    hide Steps;
    StepsAbsorb(c, o, 24);
    SplitSteps(d, low, 8);
    UpperHalf(c, o, d);
  }

  lemma UpperHalf(c: seq<bool>, o: seq<bool>, d: seq<bool>)
    requires |c| == |d| == 32 && |o| == 8 && d == Xor(c, o + Zeros(24))
    ensures d[8..] == c[8..]
  {
  }
}
