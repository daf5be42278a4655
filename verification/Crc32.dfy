/** CRC-32 of section 3.2.9 of IEEE 802.3, as the checksum loop computes it. Words are bit lists, lowest
    bit first. */
module Crc32 {

  type Bits = seq<bool>

  /** The powers in the generator polynomial below its leading term. */
  predicate Term(power: int) {
    power == 26 || power == 23 || power == 22 || power == 16 || power == 12 || power == 11 || power == 10
    || power == 8 || power == 7 || power == 5 || power == 4 || power == 2 || power == 1 || power == 0
  }

  /** The generator without its leading term, highest power first: 0xEDB88320. */
  function Poly(): Bits {
    seq(32, i => Term(31 - i))
  }

  function Zeros(n: nat): Bits {
    seq(n, _ => false)
  }

  /** Exclusive or of a onto the start of v. */
  function XorFront(v: Bits, a: Bits): Bits {
    seq(|v|, i requires 0 <= i < |v| => if i < |a| then v[i] != a[i] else v[i])
  }

  /** Remainder of polynomial division: bits that are set are cleared one by one by adding the generator,
      until 32 are left. */
  function Divide(v: Bits): Bits
    decreases |v|
  {
    if |v| <= 32 then v
    else if v[0] then Divide(XorFront(v[1..], Poly()))
    else Divide(v[1..])
  }

  /** The CRC instruction on an operand of any width: the accumulator is added to the operand's first
      bits, and the whole, followed by 32 zeros, is divided. */
  function Instruction(acc: Bits, operand: Bits): Bits {
    Divide(XorFront(operand + Zeros(32), acc))
  }

  // ---- One bit at a time --------------------------------------------------------------------------------

  function Step(acc: Bits, bit: bool): (r: Bits)
    requires |acc| == 32
    ensures |r| == 32
  {
    var shifted := acc[1..] + [false];
    if acc[0] != bit then XorFront(shifted, Poly()) else shifted
  }

  function Serial(acc: Bits, bits: Bits): (r: Bits)
    requires |acc| == 32
    ensures |r| == 32
    decreases |bits|
  {
    if bits == [] then acc else Serial(Step(acc, bits[0]), bits[1..])
  }

  lemma DivideStep(acc: Bits, operand: Bits)
    requires |acc| == 32 && operand != []
    ensures var v := XorFront(operand + Zeros(32), acc);
            var rest := XorFront(operand[1..] + Zeros(32), Step(acc, operand[0]));
            (if v[0] then XorFront(v[1..], Poly()) else v[1..]) == rest
  {
    var v := XorFront(operand + Zeros(32), acc);
    var shifted := acc[1..] + [false];
    assert v[1..] == XorFront(operand[1..] + Zeros(32), shifted);
    XorTwice(operand[1..] + Zeros(32), shifted, Poly());
  }

  lemma XorTwice(v: Bits, a: Bits, b: Bits)
    requires |a| == |b|
    ensures XorFront(XorFront(v, a), b) == XorFront(v, XorFront(a, b))
  {
  }

  /** Division of the whole operand is the bit-serial register. */
  lemma {:induction false} InstructionIsSerial(acc: Bits, operand: Bits)
    requires |acc| == 32
    ensures Instruction(acc, operand) == Serial(acc, operand)
    decreases |operand|
  {
    if operand == [] {
      assert XorFront([] + Zeros(32), acc) == acc;
    } else {
      DivideStep(acc, operand);
      InstructionIsSerial(Step(acc, operand[0]), operand[1..]);
    }
  }

  lemma {:induction false} SerialAppend(acc: Bits, a: Bits, b: Bits)
    requires |acc| == 32
    ensures Serial(acc, a + b) == Serial(Serial(acc, a), b)
    decreases |a|
  {
    if a == [] {
      assert a + b == b;
    } else {
      assert (a + b)[1..] == a[1..] + b;
      SerialAppend(Step(acc, a[0]), a[1..], b);
    }
  }

  // ---- Bytes ------------------------------------------------------------------------------------------------

  function ByteBits(b: bv8): (r: Bits)
    ensures |r| == 8
  {
    [b & 1 != 0, b & 2 != 0, b & 4 != 0, b & 8 != 0, b & 16 != 0, b & 32 != 0, b & 64 != 0, b & 128 != 0]
  }

  /** A little-endian load: the bits of the bytes in order. */
  function Load(data: seq<bv8>): (r: Bits)
    ensures |r| == 8 * |data|
  {
    if data == [] then [] else Load(data[..|data| - 1]) + ByteBits(data[|data| - 1])
  }

  lemma {:induction false} LoadAppend(a: seq<bv8>, b: seq<bv8>)
    ensures Load(a + b) == Load(a) + Load(b)
    decreases |b|
  {
    if b == [] {
      assert a + b == a;
    } else {
      var last := |b| - 1;
      assert (a + b)[..|a + b| - 1] == a + b[..last];
      LoadAppend(a, b[..last]);
    }
  }

  function Ones(): Bits {
    seq(32, _ => true)
  }

  function Complement(v: Bits): Bits {
    seq(|v|, i requires 0 <= i < |v| => !v[i])
  }

  /** The standard's checksum: first 32 bits complemented, all bits divided at once, remainder
      complemented. */
  function Checksum(data: seq<bv8>): Bits {
    Complement(Instruction(Ones(), Load(data)))
  }

  /** The register after feeding byte after byte. */
  function ByByte(acc: Bits, data: seq<bv8>): Bits {
    if data == [] then acc else Instruction(ByByte(acc, data[..|data| - 1]), ByteBits(data[|data| - 1]))
  }

  lemma {:induction false} ByByteIsSerial(acc: Bits, data: seq<bv8>)
    requires |acc| == 32
    ensures ByByte(acc, data) == Serial(acc, Load(data))
  {
    if data != [] {
      var last := |data| - 1;
      ByByteIsSerial(acc, data[..last]);
      InstructionIsSerial(Serial(acc, Load(data[..last])), ByteBits(data[last]));
      SerialAppend(acc, Load(data[..last]), ByteBits(data[last]));
    }
  }

  lemma Extend(acc: Bits, data: seq<bv8>, more: seq<bv8>)
    requires |acc| == 32
    ensures Instruction(ByByte(acc, data), Load(more)) == ByByte(acc, data + more)
  {
    ByByteIsSerial(acc, data);
    ByByteIsSerial(acc, data + more);
    LoadAppend(data, more);
    SerialAppend(acc, Load(data), Load(more));
    InstructionIsSerial(Serial(acc, Load(data)), Load(more));
  }

  /** crc32: eight bytes per instruction while there are eight, then single bytes. */
  method Crc(data: seq<bv8>) returns (r: Bits)
    ensures r == Complement(ByByte(Ones(), data)) == Checksum(data) == WordBits(!Register(data))
  {
    var at, remaining: nat, crc := 0, |data|, Ones();
    assert data[..0] == [];
    while remaining >= 8
      invariant remaining <= |data| && at == |data| - remaining && crc == ByByte(Ones(), data[..at])
    {
      Extend(Ones(), data[..at], data[at..at + 8]);
      assert data[..at] + data[at..at + 8] == data[..at + 8];
      crc := Instruction(crc, Load(data[at..at + 8]));
      at, remaining := at + 8, remaining - 8;
    }
    while remaining > 0
      invariant remaining <= |data| && at == |data| - remaining && crc == ByByte(Ones(), data[..at])
    {
      assert data[..at + 1][..at] == data[..at];
      crc := Instruction(crc, ByteBits(data[at]));
      at, remaining := at + 1, remaining - 1;
    }
    assert data[..at] == data;
    ByByteIsSerial(Ones(), data);
    InstructionIsSerial(Ones(), Load(data));
    ChecksumIsRegister(data, !Register(data));
    r := Complement(crc);
  }

  // ---- Error detection ------------------------------------------------------------------------------------

  /** The generator has a constant term, so a register step can be undone. */
  lemma StepInjective(a: Bits, b: Bits, bit: bool)
    requires |a| == |b| == 32 && Step(a, bit) == Step(b, bit)
    ensures a == b
  {
    var s, t := a[1..] + [false], b[1..] + [false];
    assert Poly()[31];
    assert Step(a, bit)[31] == (a[0] != bit) && Step(b, bit)[31] == (b[0] != bit);
    forall i | 0 < i < 32 ensures a[i] == b[i] {
      assert s[i - 1] == a[i] && t[i - 1] == b[i];
      assert Step(a, bit)[i - 1] == Step(b, bit)[i - 1];
    }
  }

  lemma {:induction false} SerialInjective(a: Bits, b: Bits, bits: Bits)
    requires |a| == |b| == 32 && Serial(a, bits) == Serial(b, bits)
    ensures a == b
    decreases |bits|
  {
    if bits != [] {
      SerialInjective(Step(a, bits[0]), Step(b, bits[0]), bits[1..]);
      StepInjective(a, b, bits[0]);
    }
  }

  /** Up to 32 bits of data may as well be added to the register beforehand. */
  lemma Absorb(acc: Bits, x: Bits)
    requires |acc| == 32 && |x| <= 32
    ensures Serial(acc, x) == Serial(XorFront(acc, x), Zeros(|x|))
  {
    InstructionIsSerial(acc, x);
    InstructionIsSerial(XorFront(acc, x), Zeros(|x|));
    assert XorFront(x + Zeros(32), acc) == XorFront(Zeros(|x|) + Zeros(32), XorFront(acc, x));
  }

  lemma ShortInjective(acc: Bits, x: Bits, y: Bits)
    requires |acc| == 32 && |x| == |y| <= 32 && Serial(acc, x) == Serial(acc, y)
    ensures x == y
  {
    Absorb(acc, x);
    Absorb(acc, y);
    SerialInjective(XorFront(acc, x), XorFront(acc, y), Zeros(|x|));
    forall i | 0 <= i < |x| ensures x[i] == y[i] {
      assert XorFront(acc, x)[i] == XorFront(acc, y)[i];
    }
  }

  lemma ByteBitsInjective(a: bv8, b: bv8)
    requires ByteBits(a) == ByteBits(b)
    ensures a == b
  {
    assert forall i :: 0 <= i < 8 ==> ByteBits(a)[i] == ByteBits(b)[i];
    assert a & 1 == b & 1 && a & 2 == b & 2 && a & 4 == b & 4 && a & 8 == b & 8;
    assert a & 16 == b & 16 && a & 32 == b & 32 && a & 64 == b & 64 && a & 128 == b & 128;
  }

  lemma {:induction false} LoadInjective(a: seq<bv8>, b: seq<bv8>)
    requires |a| == |b| && Load(a) == Load(b)
    ensures a == b
  {
    if a != [] {
      var last := |a| - 1;
      assert Load(a)[..8 * last] == Load(a[..last]) && Load(b)[..8 * last] == Load(b[..last]);
      assert Load(a)[8 * last..] == ByteBits(a[last]) && Load(b)[8 * last..] == ByteBits(b[last]);
      LoadInjective(a[..last], b[..last]);
      ByteBitsInjective(a[last], b[last]);
    }
  }

  lemma ComplementInjective(a: Bits, b: Bits)
    requires Complement(a) == Complement(b)
    ensures a == b
  {
    assert |Complement(a)| == |a| && |Complement(b)| == |b|;
    forall i | 0 <= i < |a| ensures a[i] == b[i] {
      assert Complement(a)[i] == Complement(b)[i];
    }
  }

  /** Data that differ only within four consecutive bytes never have the same checksum. */
  lemma BurstDetected(before: seq<bv8>, x: seq<bv8>, y: seq<bv8>, behind: seq<bv8>)
    requires |x| == |y| <= 4 && x != y
    ensures Checksum(before + x + behind) != Checksum(before + y + behind)
  {
    if Checksum(before + x + behind) == Checksum(before + y + behind) {
      ChecksumParts(before, x, behind);
      ChecksumParts(before, y, behind);
      var s := Serial(Ones(), Load(before));
      ComplementInjective(Serial(Serial(s, Load(x)), Load(behind)), Serial(Serial(s, Load(y)), Load(behind)));
      SerialInjective(Serial(s, Load(x)), Serial(s, Load(y)), Load(behind));
      ShortInjective(s, Load(x), Load(y));
      LoadInjective(x, y);
    }
  }

  lemma ChecksumParts(before: seq<bv8>, x: seq<bv8>, behind: seq<bv8>)
    ensures Checksum(before + x + behind) == Complement(Serial(Serial(Serial(Ones(), Load(before)), Load(x)), Load(behind)))
  {
    InstructionIsSerial(Ones(), Load(before + x + behind));
    LoadAppend(before + x, behind);
    LoadAppend(before, x);
    SerialAppend(Ones(), Load(before + x), Load(behind));
    SerialAppend(Ones(), Load(before), Load(x));
  }

  // ---- The register of the instructions -------------------------------------------------------------------------

  predicate WordBit(w: bv32, i: nat)
    decreases i
  {
    if i == 0 then w & 1 == 1 else WordBit(w >> 1, i - 1)
  }

  /** The bits of a 32-bit word, lowest first. */
  function WordBits(w: bv32): Bits {
    seq(32, i requires 0 <= i < 32 => WordBit(w, i))
  }

  predicate IsXor(a: bv32, b: bv32, c: bv32) {
    c == a ^ b
  }

  lemma XorLow(a: bv32, b: bv32, c: bv32)
    requires IsXor(a, b, c)
    ensures WordBit(c, 0) <==> WordBit(a, 0) != WordBit(b, 0)
    ensures IsXor(a >> 1, b >> 1, c >> 1)
  {
  }

  lemma XorNext(a: bv32, b: bv32, c: bv32, i: nat)
    requires i > 0 && (WordBit(c >> 1, i - 1) <==> WordBit(a >> 1, i - 1) != WordBit(b >> 1, i - 1))
    ensures WordBit(c, i) <==> WordBit(a, i) != WordBit(b, i)
  {
  }

  lemma {:induction false} XorBit(a: bv32, b: bv32, c: bv32, i: nat)
    requires IsXor(a, b, c)
    ensures WordBit(c, i) <==> WordBit(a, i) != WordBit(b, i)
    decreases i
  {
    XorLow(a, b, c);
    if i > 0 {
      XorBit(a >> 1, b >> 1, c >> 1, i - 1);
      XorNext(a, b, c, i);
    }
  }

  lemma WordXor(a: bv32, b: bv32, c: bv32)
    requires IsXor(a, b, c)
    ensures WordBits(c) == XorFront(WordBits(a), WordBits(b))
  {
    forall i | 0 <= i < 32 ensures WordBits(c)[i] == XorFront(WordBits(a), WordBits(b))[i] {
      XorBit(a, b, c, i);
    }
  }

  lemma Shifts(w: bv32)
    ensures (w >> 1) >> 1 == w >> 2 && (w >> 2) >> 2 == w >> 4 && (w >> 4) >> 4 == w >> 8
    ensures (w >> 8) >> 8 == w >> 16 && (w >> 16) >> 16 == 0 && 0 as bv32 & 1 == 0
  {
  }

  lemma Skip2(w: bv32, i: nat)
    ensures WordBit(w, i + 2) <==> WordBit(w >> 2, i)
  {
    Shifts(w);
    assert WordBit(w, i + 2) == WordBit(w >> 1, i + 1);
  }

  lemma Skip4(w: bv32, i: nat)
    ensures WordBit(w, i + 4) <==> WordBit(w >> 4, i)
  {
    Shifts(w);
    Skip2(w, i + 2);
    Skip2(w >> 2, i);
  }

  lemma Skip8(w: bv32, i: nat)
    ensures WordBit(w, i + 8) <==> WordBit(w >> 8, i)
  {
    Shifts(w);
    Skip4(w, i + 4);
    Skip4(w >> 4, i);
  }

  lemma Skip16(w: bv32, i: nat)
    ensures WordBit(w, i + 16) <==> WordBit(w >> 16, i)
  {
    Shifts(w);
    Skip8(w, i + 8);
    Skip8(w >> 8, i);
  }

  /** There is no bit behind the last. */
  lemma NoBit(w: bv32)
    ensures !WordBit(w, 32)
  {
    Shifts(w);
    Skip16(w, 16);
    Skip16(w >> 16, 0);
  }

  lemma WordShift(w: bv32)
    ensures WordBits(w >> 1) == WordBits(w)[1..] + [false]
  {
    NoBit(w);
    forall i | 0 <= i < 32 ensures WordBits(w >> 1)[i] == (WordBits(w)[1..] + [false])[i] {
      assert WordBit(w, i + 1) == WordBit(w >> 1, i);
    }
  }

  /** One bit leaves the register at the low end; if it was set, the generator is added. */
  function Shift(w: bv32): bv32 {
    if w & 1 == 1 then (w >> 1) ^ 0xEDB8_8320 else w >> 1
  }

  function Shift8(w: bv32): bv32 {
    Shift(Shift(Shift(Shift(Shift(Shift(Shift(Shift(w))))))))
  }

  /** The register of the instructions after these bytes. */
  function Register(data: seq<bv8>): bv32 {
    if data == [] then 0xFFFF_FFFF
    else Shift8(Register(data[..|data| - 1]) ^ (data[|data| - 1] as bv32))
  }

  /** The low byte of a word, bit by bit. */
  lemma LowByte(w: bv32)
    ensures WordBit(w, 0) == (w & 0x01 != 0) && WordBit(w, 1) == (w & 0x02 != 0)
    ensures WordBit(w, 2) == (w & 0x04 != 0) && WordBit(w, 3) == (w & 0x08 != 0)
    ensures WordBit(w, 4) == (w & 0x10 != 0) && WordBit(w, 5) == (w & 0x20 != 0)
    ensures WordBit(w, 6) == (w & 0x40 != 0) && WordBit(w, 7) == (w & 0x80 != 0)
  {
    Skip2(w, 0);
    Skip2(w, 1);
    Skip4(w, 0);
    Skip4(w, 1);
    Skip4(w, 2);
    Skip4(w, 3);
    Skip2(w >> 4, 0);
    Skip2(w >> 4, 1);
  }

  lemma LowBits(w: bv32, b: bv8)
    requires w & 0xFF == b as bv32
    ensures forall i :: 0 <= i < 8 ==> WordBit(w, i) == ByteBits(b)[i]
  {
    LowByte(w);
    LowMasks(w, b);
    forall i | 0 <= i < 8 ensures WordBit(w, i) == ByteBits(b)[i] {
    }
  }

  lemma LowMasks(w: bv32, b: bv8)
    requires w & 0xFF == b as bv32
    ensures (w & 0x01 != 0) == (b & 1 != 0) && (w & 0x02 != 0) == (b & 2 != 0)
    ensures (w & 0x04 != 0) == (b & 4 != 0) && (w & 0x08 != 0) == (b & 8 != 0)
    ensures (w & 0x10 != 0) == (b & 16 != 0) && (w & 0x20 != 0) == (b & 32 != 0)
    ensures (w & 0x40 != 0) == (b & 64 != 0) && (w & 0x80 != 0) == (b & 128 != 0)
  {
  }

  lemma HalfBit(w: bv32, a: bv8, b: bv8, i: nat)
    requires w & 0xFF == a as bv32 && (w >> 8) & 0xFF == b as bv32 && i < 16
    ensures WordBit(w, i) == (ByteBits(a) + ByteBits(b))[i]
  {
    if i < 8 {
      LowBits(w, a);
    } else {
      Skip8(w, i - 8);
      LowBits(w >> 8, b);
    }
  }

  lemma FullBit(w: bv32, a: bv8, b: bv8, c: bv8, d: bv8, i: nat)
    requires w & 0xFF == a as bv32 && (w >> 8) & 0xFF == b as bv32
    requires (w >> 16) & 0xFF == c as bv32 && ((w >> 16) >> 8) & 0xFF == d as bv32
    requires i < 32
    ensures WordBit(w, i) == if i < 16 then (ByteBits(a) + ByteBits(b))[i] else (ByteBits(c) + ByteBits(d))[i - 16]
  {
    if i < 16 {
      HalfBit(w, a, b, i);
    } else {
      Skip16(w, i - 16);
      HalfBit(w >> 16, c, d, i - 16);
    }
  }

  /** A word is its four bytes, lowest first. */
  lemma WordBytes(w: bv32, a: bv8, b: bv8, c: bv8, d: bv8)
    requires w & 0xFF == a as bv32 && (w >> 8) & 0xFF == b as bv32
    requires (w >> 16) & 0xFF == c as bv32 && ((w >> 16) >> 8) & 0xFF == d as bv32
    ensures WordBits(w) == (ByteBits(a) + ByteBits(b)) + (ByteBits(c) + ByteBits(d))
  {
    var low, high := ByteBits(a) + ByteBits(b), ByteBits(c) + ByteBits(d);
    forall i | 0 <= i < 32 ensures WordBits(w)[i] == (low + high)[i] {
      FullBit(w, a, b, c, d, i);
    }
  }

  lemma WordPoly()
    ensures WordBits(0xEDB8_8320) == Poly()
  {
    WordBytes(0xEDB8_8320, 0x20, 0x83, 0xB8, 0xED);
  }

  lemma WordOnes()
    ensures WordBits(0xFFFF_FFFF) == Ones()
  {
    WordBytes(0xFFFF_FFFF, 0xFF, 0xFF, 0xFF, 0xFF);
  }

  lemma WordByte(b: bv8)
    ensures WordBits(b as bv32) == ByteBits(b) + Zeros(24)
  {
    WordBytes(b as bv32, b, 0, 0, 0);
  }

  lemma ShiftIsStep(w: bv32, v: bv32)
    requires v == Shift(w)
    ensures WordBits(v) == Step(WordBits(w), false)
  {
    WordShift(w);
    WordPoly();
    if WordBit(w, 0) {
      WordXor(w >> 1, 0xEDB8_8320, v);
    }
  }

  lemma {:induction false} SerialLast(acc: Bits, n: nat)
    requires |acc| == 32
    ensures Serial(acc, Zeros(n + 1)) == Step(Serial(acc, Zeros(n)), false)
  {
    assert Zeros(n + 1) == Zeros(n) + [false];
    SerialAppend(acc, Zeros(n), [false]);
    assert [false][1..] == [];
    assert Serial(Serial(acc, Zeros(n)), [false]) == Step(Serial(acc, Zeros(n)), false);
  }

  lemma ShiftNext(acc: Bits, n: nat, w: bv32, v: bv32)
    requires |acc| == 32 && WordBits(w) == Serial(acc, Zeros(n)) && v == Shift(w)
    ensures WordBits(v) == Serial(acc, Zeros(n + 1))
  {
    ShiftIsStep(w, v);
    SerialLast(acc, n);
  }

  lemma Shift8IsSerial(w: bv32, v: bv32)
    requires v == Shift8(w)
    ensures WordBits(v) == Serial(WordBits(w), Zeros(8))
  {
    var acc := WordBits(w);
    var a := Shift(w);
    var b := Shift(a);
    var c := Shift(b);
    var d := Shift(c);
    var e := Shift(d);
    var f := Shift(e);
    var g := Shift(f);
    ShiftNext(acc, 0, w, a);
    ShiftNext(acc, 1, a, b);
    ShiftNext(acc, 2, b, c);
    ShiftNext(acc, 3, c, d);
    ShiftNext(acc, 4, d, e);
    ShiftNext(acc, 5, e, f);
    ShiftNext(acc, 6, f, g);
    ShiftNext(acc, 7, g, v);
  }

  lemma XorZeros(v: Bits, a: Bits, n: nat)
    requires |a| + n == |v|
    ensures XorFront(v, a + Zeros(n)) == XorFront(v, a)
  {
  }

  lemma AddByte(w: bv32, b: bv8, x: bv32)
    requires IsXor(w, b as bv32, x)
    ensures WordBits(x) == XorFront(WordBits(w), ByteBits(b))
  {
    WordXor(w, b as bv32, x);
    WordByte(b);
    XorZeros(WordBits(w), ByteBits(b), 24);
  }

  /** A byte is added to the register, which then shifts eight times. */
  lemma ByteIsSerial(w: bv32, b: bv8, x: bv32, v: bv32)
    requires IsXor(w, b as bv32, x) && v == Shift8(x)
    ensures WordBits(v) == Serial(WordBits(w), ByteBits(b))
  {
    AddByte(w, b, x);
    Shift8IsSerial(x, v);
    Absorb(WordBits(w), ByteBits(b));
  }

  lemma RegisterLast(data: seq<bv8>, w: bv32, x: bv32, v: bv32)
    requires data != [] && w == Register(data[..|data| - 1]) && x == w ^ (data[|data| - 1] as bv32)
    ensures v == Register(data) <==> v == Shift8(x)
  {
  }

  lemma LoadLast(data: seq<bv8>)
    requires data != []
    ensures Serial(Ones(), Load(data))
         == Serial(Serial(Ones(), Load(data[..|data| - 1])), ByteBits(data[|data| - 1]))
  {
    SerialAppend(Ones(), Load(data[..|data| - 1]), ByteBits(data[|data| - 1]));
  }

  lemma RegisterStep(data: seq<bv8>, w: bv32, x: bv32, v: bv32)
    requires data != [] && WordBits(w) == Serial(Ones(), Load(data[..|data| - 1]))
    requires IsXor(w, data[|data| - 1] as bv32, x) && v == Shift8(x)
    ensures WordBits(v) == Serial(Ones(), Load(data))
  {
    LoadLast(data);
    ByteIsSerial(w, data[|data| - 1], x, v);
  }

  lemma RegisterInduct(data: seq<bv8>, w: bv32, v: bv32)
    requires data != [] && w == Register(data[..|data| - 1]) && v == Register(data)
    requires WordBits(w) == Serial(Ones(), Load(data[..|data| - 1]))
    ensures WordBits(v) == Serial(Ones(), Load(data))
  {
    var x := w ^ (data[|data| - 1] as bv32);
    RegisterLast(data, w, x, v);
    RegisterStep(data, w, x, v);
  }

  lemma {:induction false} RegisterIsSerial(data: seq<bv8>, v: bv32)
    requires v == Register(data)
    ensures WordBits(v) == Serial(Ones(), Load(data))
    decreases |data|
  {
    if data == [] {
      WordOnes();
    } else {
      var w := Register(data[..|data| - 1]);
      RegisterIsSerial(data[..|data| - 1], w);
      RegisterInduct(data, w, v);
    }
  }

  lemma WordNot(w: bv32, v: bv32)
    requires v == !w
    ensures WordBits(v) == Complement(WordBits(w))
  {
    WordXor(w, 0xFFFF_FFFF, v);
    WordOnes();
  }

  /** The checksum is the complemented register. */
  lemma ChecksumIsRegister(data: seq<bv8>, v: bv32)
    requires v == !Register(data)
    ensures Checksum(data) == WordBits(v)
  {
    InstructionIsSerial(Ones(), Load(data));
    RegisterIsSerial(data, Register(data));
    WordNot(Register(data), v);
  }

  lemma RegisterNext(data: seq<bv8>, i: nat, w: bv32, v: bv32)
    requires i < |data| && w == Register(data[..i]) && v == Shift8(w ^ (data[i] as bv32))
    ensures v == Register(data[..i + 1])
  {
    assert data[..i + 1][..i] == data[..i];
    RegisterLast(data[..i + 1], w, w ^ (data[i] as bv32), v);
  }

  /** The ASCII digits 1 to 9. */
  function Digits(): seq<bv8> {
    [0x31, 0x32, 0x33, 0x34, 0x35, 0x36, 0x37, 0x38, 0x39]
  }

  /** The register before the digits and after each of them. */
  function DigitRegisters(): seq<bv32> {
    [0xFFFF_FFFF, 0x7C23_1048, 0xB0AC_BB32, 0x77B7_9C2D, 0x641C_1F5C,
     0x340A_C5E3, 0xF68D_2C9E, 0xAFFC_9660, 0x651F_2550, 0x340B_C6D9]
  }

  /** One digit on literal words. */
  predicate Advances(w: bv32, b: bv8, v: bv32) {
    v == Shift8(w ^ (b as bv32))
  }

  lemma DigitSteps()
    ensures Advances(0xFFFF_FFFF, 0x31, 0x7C23_1048)
    ensures Advances(0x7C23_1048, 0x32, 0xB0AC_BB32)
    ensures Advances(0xB0AC_BB32, 0x33, 0x77B7_9C2D)
    ensures Advances(0x77B7_9C2D, 0x34, 0x641C_1F5C)
    ensures Advances(0x641C_1F5C, 0x35, 0x340A_C5E3)
    ensures Advances(0x340A_C5E3, 0x36, 0xF68D_2C9E)
    ensures Advances(0xF68D_2C9E, 0x37, 0xAFFC_9660)
    ensures Advances(0xAFFC_9660, 0x38, 0x651F_2550)
    ensures Advances(0x651F_2550, 0x39, 0x340B_C6D9)
  {
  }

  lemma DigitStep(i: nat, w: bv32, b: bv8, v: bv32)
    requires i < 9 && w == DigitRegisters()[i] && b == Digits()[i] && v == DigitRegisters()[i + 1]
    ensures Advances(w, b, v)
  {
    DigitSteps();
    match i
    case 0 => assert w == 0xFFFF_FFFF && b == 0x31 && v == 0x7C23_1048;
    case 1 => assert w == 0x7C23_1048 && b == 0x32 && v == 0xB0AC_BB32;
    case 2 => assert w == 0xB0AC_BB32 && b == 0x33 && v == 0x77B7_9C2D;
    case 3 => assert w == 0x77B7_9C2D && b == 0x34 && v == 0x641C_1F5C;
    case 4 => assert w == 0x641C_1F5C && b == 0x35 && v == 0x340A_C5E3;
    case 5 => assert w == 0x340A_C5E3 && b == 0x36 && v == 0xF68D_2C9E;
    case 6 => assert w == 0xF68D_2C9E && b == 0x37 && v == 0xAFFC_9660;
    case 7 => assert w == 0xAFFC_9660 && b == 0x38 && v == 0x651F_2550;
    case 8 => assert w == 0x651F_2550 && b == 0x39 && v == 0x340B_C6D9;
  }

  lemma {:induction false} DigitsRegister(i: nat)
    requires i <= 9
    ensures DigitRegisters()[i] == Register(Digits()[..i])
  {
    if i > 0 {
      DigitsRegister(i - 1);
      DigitStep(i - 1, DigitRegisters()[i - 1], Digits()[i - 1], DigitRegisters()[i]);
      RegisterNext(Digits(), i - 1, DigitRegisters()[i - 1], DigitRegisters()[i]);
    }
  }

  /** The customary test of a CRC-32. */
  lemma CheckValue()
    ensures Checksum(Digits()) == WordBits(0xCBF4_3926)
  {
    DigitsRegister(9);
    assert Digits()[..9] == Digits();
    ChecksumIsRegister(Digits(), 0xCBF4_3926);
  }
}
