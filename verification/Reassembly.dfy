/** What the reassembly buffer of one chunked message holds, byte by byte. */
module Reassembly {
  import opened Chunks
  import opened Protocol

  /** Chunk j has been copied to its own place: it arrived, it was not used up as the first
      arrival (which goes to offset 0 whatever its index), and its copy length was not zero. */
  predicate Placed(len: nat, c: nat, got: set<nat>, first: nat, j: nat)
    requires c > 0
  {
    j in got && (j != first || j == 0) && !(j + 1 == Count(len, c) && len % c == 0)
  }

  predicate CellOK(payload: seq<bv8>, c: nat, got: set<nat>, first: nat, off: nat, x: Cell)
    requires c > 0 && off < |payload|
  {
    && (Placed(|payload|, c, got, first, off / c) ==> x == Octet(payload[off]))
    && (off / c > 0 && !Placed(|payload|, c, got, first, off / c) ==> x == Undefined)
  }

  predicate BufferOK(payload: seq<bv8>, c: nat, buffer: seq<Cell>, got: set<nat>, first: nat)
    requires c > 0
  {
    && |buffer| == |payload|
    && forall off :: 0 <= off < |buffer| ==> CellOK(payload, c, got, first, off, buffer[off])
  }

  lemma StartBuffer(payload: seq<bv8>, c: nat, i: nat)
    requires 0 < c < |payload| && i < Count(|payload|, c)
    ensures BufferOK(payload, c, Overlay(Fresh(|payload|), 0, ReadFrame(Slice(payload, c, i), c)), {i}, i)
  {
    var buffer := Overlay(Fresh(|payload|), 0, ReadFrame(Slice(payload, c, i), c));
    IndexBounds(|payload|, c, 0);
    SliceSize(payload, c, i);
    forall off | 0 <= off < |buffer|
      ensures CellOK(payload, c, {i}, i, off, buffer[off])
    {
      ChunkOf(off, c, 0);
    }
  }

  lemma AcceptBuffer(payload: seq<bv8>, c: nat, buffer: seq<Cell>, got: set<nat>, first: nat, i: nat)
    requires 0 < c < |payload| && i < Count(|payload|, c) && i !in got && first in got
    requires BufferOK(payload, c, buffer, got, first)
    ensures var n := if i + 1 >= Count(|payload|, c) then |payload| % c else c;
            BufferOK(payload, c, Overlay(buffer, c * i, ReadFrame(Slice(payload, c, i), n)), got + {i}, first)
  {
    var n := if i + 1 >= Count(|payload|, c) then |payload| % c else c;
    var buffer' := Overlay(buffer, c * i, ReadFrame(Slice(payload, c, i), n));
    IndexBounds(|payload|, c, 0);
    SliceSize(payload, c, i);
    LastSize(|payload|, c);
    assert c * i == i * c;
    forall off | 0 <= off < |buffer'|
      ensures CellOK(payload, c, got + {i}, first, off, buffer'[off])
    {
      assert CellOK(payload, c, got, first, off, buffer[off]);
      ChunkOf(off, c, i);
      if off / c != i {
        assert buffer'[off] == buffer[off];
      }
    }
  }

  /** Once every bit is set, a byte is right exactly when its chunk was neither the misplaced
      first arrival nor a full-sized last chunk. */
  predicate ExactBytes(payload: seq<bv8>, c: nat, data: seq<Cell>, first: nat)
    requires c > 0
  {
    && |data| == |payload|
    && forall off :: 0 <= off < |data| ==>
         (data[off] == Octet(payload[off]) <==>
          !(off / c == first && first != 0) && !(off / c + 1 == Count(|payload|, c) && |payload| % c == 0))
  }

  lemma CompleteBuffer(payload: seq<bv8>, c: nat, buffer: seq<Cell>, got: set<nat>, first: nat)
    requires 0 < c < |payload| && BufferOK(payload, c, buffer, got, first)
    requires forall j: nat :: j < Count(|payload|, c) ==> j in got
    ensures ExactBytes(payload, c, buffer, first)
  {
    IndexBounds(|payload|, c, 0);
    forall off | 0 <= off < |buffer|
      ensures buffer[off] == Octet(payload[off]) <==>
              !(off / c == first && first != 0) && !(off / c + 1 == Count(|payload|, c) && |payload| % c == 0)
    {
      assert CellOK(payload, c, got, first, off, buffer[off]);
      DivBounds(off, c);
      IndexBounds(|payload|, c, off / c);
    }
  }

  /** The whole message is right exactly when chunk 0 arrived first and the length is no
      multiple of the chunk size. */
  lemma ExactWhole(payload: seq<bv8>, c: nat, data: seq<Cell>, first: nat)
    requires 0 < c < |payload| && first < Count(|payload|, c) && ExactBytes(payload, c, data, first)
    ensures data == Cells(payload) <==> first == 0 && |payload| % c != 0
  {
    if first != 0 {
      IndexBounds(|payload|, c, first);
      ChunkOf(first * c, c, first);
      assert data[first * c] != Octet(payload[first * c]);
    } else if |payload| % c == 0 {
      var last := Count(|payload|, c) - 1;
      LastSize(|payload|, c);
      IndexBounds(|payload|, c, last);
      ChunkOf(last * c, c, last);
      assert data[last * c] != Octet(payload[last * c]);
    } else {
      assert forall off :: 0 <= off < |data| ==> data[off] == Octet(payload[off]);
    }
  }
}
