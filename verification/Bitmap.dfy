/** The received-chunks bitmap: one bit per chunk, eight to a byte. */
module Bitmap {
  import opened Protocol

  /** 1 << bit */
  function Mask(bit: nat): bv8
    requires bit < 8
  {
    if bit == 0 then 1 else Mask(bit - 1) << 1
  }

  predicate Bit(bitmap: seq<bv8>, i: nat) {
    i / 8 < |bitmap| && bitmap[i / 8] & Mask(i % 8) != 0
  }

  /** The positions of the set bits. */
  function SetBits(bitmap: seq<bv8>): set<nat> {
    set i: nat | i < 8 * |bitmap| && Bit(bitmap, i)
  }

  lemma SetBitsAre(bitmap: seq<bv8>, i: nat)
    ensures i in SetBits(bitmap) <==> Bit(bitmap, i)
  {
  }

  lemma MaskValues()
    ensures Mask(0) == 0x01 && Mask(1) == 0x02 && Mask(2) == 0x04 && Mask(3) == 0x08
    ensures Mask(4) == 0x10 && Mask(5) == 0x20 && Mask(6) == 0x40 && Mask(7) == 0x80
  {
  }

  lemma MaskOr(b: bv8, p: nat, q: nat)
    requires p < 8 && q < 8
    ensures (b | Mask(p)) & Mask(q) != 0 <==> b & Mask(q) != 0 || p == q
  {
    MaskValues();
  }

  lemma FullByte(bit: nat)
    requires bit < 8
    ensures 0xFF & Mask(bit) != 0
  {
    MaskValues();
  }

  lemma BitAfter(bitmap: seq<bv8>, i: nat, j: nat)
    requires i / 8 < |bitmap|
    ensures Bit(bitmap[i / 8 := bitmap[i / 8] | Mask(i % 8)], j) <==> Bit(bitmap, j) || j == i
  {
    if j / 8 == i / 8 {
      MaskOr(bitmap[i / 8], i % 8, j % 8);
    }
  }

  /** Setting bit i adds i to the set and nothing else. */
  lemma SetOne(bitmap: seq<bv8>, i: nat)
    requires i / 8 < |bitmap|
    ensures SetBits(bitmap[i / 8 := bitmap[i / 8] | Mask(i % 8)]) == SetBits(bitmap) + {i}
  {
    var bitmap' := bitmap[i / 8 := bitmap[i / 8] | Mask(i % 8)];
    forall j: nat ensures j in SetBits(bitmap') <==> j in SetBits(bitmap) + {i} {
      BitAfter(bitmap, i, j);
      SetBitsAre(bitmap, j);
      SetBitsAre(bitmap', j);
    }
  }

  method ChunkReceived(chunks: array<bv8>, index: nat)
    requires index / 8 < chunks.Length
    modifies chunks
    ensures SetBits(chunks[..]) == SetBits(old(chunks[..])) + {index}
  {
    ghost var before := chunks[..];
    var byte, bit := index / 8, index % 8;
    chunks[byte] := chunks[byte] | Mask(bit);
    assert chunks[..] == before[byte := before[byte] | Mask(bit)];
    SetOne(before, index);
  }

  method ChunkAlreadyReceived(chunks: array<bv8>, index: nat) returns (received: bool)
    requires index / 8 < chunks.Length
    ensures received <==> index in SetBits(chunks[..])
  {
    received := chunks[index / 8] & Mask(index % 8) != 0;
    SetBitsAre(chunks[..], index);
  }

  // ---- The list of lost chunks ------------------------------------------------------------------------

  /** Extending the range extends the list at its end. */
  lemma {:induction false} MissingPrefix(got: set<nat>, a: nat, b: nat)
    requires a <= b
    ensures Missing(got, a) <= Missing(got, b)
    decreases b
  {
    if a < b {
      MissingPrefix(got, a, b - 1);
    }
  }

  lemma {:induction false} MissingNone(got: set<nat>, a: nat, b: nat)
    requires a <= b && forall i :: a <= i < b ==> i in got
    ensures Missing(got, b) == Missing(got, a)
    decreases b
  {
    if a < b {
      MissingNone(got, a, b - 1);
    }
  }

  /** A list that is already full is not changed by what follows. */
  lemma TakeFull(got: set<nat>, a: nat, b: nat, q: nat)
    requires a <= b && |Missing(got, a)| >= q
    ensures Take(Missing(got, b), q) == Take(Missing(got, a), q)
  {
    MissingPrefix(got, a, b);
  }

  lemma MissingNext(got: set<nat>, n: nat)
    ensures Missing(got, n + 1) == if n in got then Missing(got, n) else Missing(got, n) + [n]
  {
  }

  lemma BitAt(bitmap: seq<bv8>, byte: nat, bit: nat)
    requires byte < |bitmap| && bit < 8
    ensures byte * 8 + bit in SetBits(bitmap) <==> bitmap[byte] & Mask(bit) != 0
  {
    SetBitsAre(bitmap, byte * 8 + bit);
    assert (byte * 8 + bit) / 8 == byte && (byte * 8 + bit) % 8 == bit;
  }

  /** One of the two bit loops: look at `bits` bits of a byte, append the clear positions. */
  method ScanByte(value: bv8, byte: nat, bits: nat, size: nat, buffer: array<nat>, from: nat, ghost got: set<nat>)
    returns (offset: nat, full: bool)
    requires bits <= 8 && from <= size / 4 <= buffer.Length
    requires forall bit :: 0 <= bit < bits ==> (byte * 8 + bit in got <==> value & Mask(bit) != 0)
    requires buffer[..from] == Missing(got, byte * 8)
    modifies buffer
    ensures from <= offset <= size / 4
    ensures forall j :: offset <= j < buffer.Length ==> buffer[j] == old(buffer[j])
    ensures full ==> offset == size / 4
    ensures buffer[..offset] ==
            (if full then Take(Missing(got, byte * 8 + bits), size / 4) else Missing(got, byte * 8 + bits))
  {
    var limit := size / 4;
    offset, full := from, false;
    var bit := 0;
    while bit < bits
      invariant bit <= bits && from <= offset <= limit
      invariant forall j :: offset <= j < buffer.Length ==> buffer[j] == old(buffer[j])
      invariant buffer[..offset] == Missing(got, byte * 8 + bit)
    {
      if offset * 4 + 4 > size {
        TakeFull(got, byte * 8 + bit, byte * 8 + bits, limit);
        return offset, true;
      }
      MissingNext(got, byte * 8 + bit);
      if value & Mask(bit) == 0 {
        Append(buffer, offset, byte * 8 + bit);
        offset := offset + 1;
      }
      bit := bit + 1;
    }
  }

  method Append(buffer: array<nat>, offset: nat, x: nat)
    requires offset < buffer.Length
    modifies buffer
    ensures buffer[..offset + 1] == old(buffer[..offset]) + [x]
    ensures forall j :: offset < j < buffer.Length ==> buffer[j] == old(buffer[j])
  {
    buffer[offset] := x;
  }

  /** `got` names the set bits below `amount`, byte by byte. */
  ghost predicate Names(bitmap: seq<bv8>, amount: nat, got: set<nat>) {
    && (amount + 7) / 8 <= |bitmap|
    && forall byte, bit :: 0 <= byte < |bitmap| && 0 <= bit < 8 && byte * 8 + bit < amount ==>
         (byte * 8 + bit in got <==> bitmap[byte] & Mask(bit) != 0)
  }

  lemma NamesSetBits(bitmap: seq<bv8>, amount: nat)
    requires (amount + 7) / 8 <= |bitmap|
    ensures Names(bitmap, amount, SetBits(bitmap))
  {
    forall byte, bit | 0 <= byte < |bitmap| && 0 <= bit < 8 && byte * 8 + bit < amount
      ensures byte * 8 + bit in SetBits(bitmap) <==> bitmap[byte] & Mask(bit) != 0
    {
      BitAt(bitmap, byte, bit);
    }
  }

  /** A byte of eight set bits adds nothing to the list. */
  lemma SkipByte(bitmap: seq<bv8>, amount: nat, got: set<nat>, byte: nat)
    requires Names(bitmap, amount, got) && byte * 8 + 8 <= amount && bitmap[byte] == 0xFF
    ensures Missing(got, (byte + 1) * 8) == Missing(got, byte * 8)
  {
    forall i: nat | byte * 8 <= i < byte * 8 + 8 ensures i in got {
      var bit := i - byte * 8;
      FullByte(bit);
      assert byte * 8 + bit in got;
    }
    MissingNone(got, byte * 8, byte * 8 + 8);
  }

  lemma TakeFullAgain(got: set<nat>, a: nat, b: nat, q: nat, list: seq<nat>)
    requires a <= b && list == Take(Missing(got, a), q) && |list| == q
    ensures list == Take(Missing(got, b), q)
  {
    TakeFull(got, a, b, q);
  }

  /** The body of the byte loop: a full byte is skipped, any other one is scanned. */
  method ScanOrSkip(chunks: array<bv8>, amount: nat, byte: nat, size: nat, buffer: array<nat>, from: nat, ghost got: set<nat>)
    returns (offset: nat, full: bool)
    requires Names(chunks[..], amount, got) && byte * 8 + 8 < amount
    requires from <= size / 4 <= buffer.Length && buffer[..from] == Missing(got, byte * 8)
    modifies buffer
    ensures from <= offset <= size / 4
    ensures forall j :: offset <= j < buffer.Length ==> buffer[j] == old(buffer[j])
    ensures buffer[..offset] == if full then Take(Missing(got, amount), size / 4) else Missing(got, (byte + 1) * 8)
  {
    if chunks[byte] == 0xFF {
      SkipByte(chunks[..], amount, got, byte);
      offset, full := from, false;
    } else {
      offset, full := ScanByte(chunks[byte], byte, 8, size, buffer, from, got);
      if full {
        TakeFullAgain(got, byte * 8 + 8, amount, size / 4, buffer[..offset]);
      }
    }
  }

  /** The ascending list of clear positions below `amount`, cut to the size / 4 entries that fit. */
  method ReturnLostChunkIndexes(chunks: array<bv8>, amount: nat, size: nat, buffer: array<nat>, ghost got: set<nat>)
    returns (offset: nat)
    requires Names(chunks[..], amount, got) && size / 4 <= buffer.Length && chunks as object != buffer
    modifies buffer
    ensures offset <= size / 4
    ensures buffer[..offset] == Take(Missing(got, amount), size / 4)
    ensures forall j :: offset <= j < buffer.Length ==> buffer[j] == old(buffer[j])
  {
    ghost var bitmap := chunks[..];
    var byte, full := 0, false;
    offset := 0;
    while byte * 8 + 8 < amount
      invariant byte == 0 || byte * 8 < amount
      invariant offset <= size / 4
      invariant buffer[..offset] == Missing(got, byte * 8)
      invariant forall j :: offset <= j < buffer.Length ==> buffer[j] == old(buffer[j])
      invariant chunks[..] == bitmap
      decreases amount - byte
    {
      offset, full := ScanOrSkip(chunks, amount, byte, size, buffer, offset, got);
      if full {
        return;
      }
      byte := byte + 1;
    }
    if amount > 0 {
      offset, full := ScanByte(chunks[byte], byte, amount - byte * 8, size, buffer, offset, got);
    }
  }
}
