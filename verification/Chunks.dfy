/** Chunk arithmetic shared by both ends of a transfer, and byte buffers whose
    cells may never have been written (memory fresh from malloc). */
module Chunks {

  /** sizeof(struct ip) + sizeof(struct SwiftNetPacketInfo) */
  const HEADER: nat := 44

  /** PACKET_HEADER_SIZE + sizeof(struct ether_header): what a flat packet buffer keeps free before the message. */
  const ROOM: nat := HEADER + 14

  type U16 = x: int | 0 <= x < 0x1_0000

  /** One byte of memory: either never written, or holding a value. */
  datatype Cell = Undefined | Octet(v: bv8)

  function Min(a: int, b: int): int {
    if a > b then b else a
  }

  /** A 16-bit identification, as the two octets a little-endian host keeps it in. */
  datatype Id = Id(high: bv8, low: bv8)

  /** htons. */
  function Swap(x: Id): Id {
    Id(x.low, x.high)
  }

  function Number(x: Id): nat {
    256 * (x.high as nat) + (x.low as nat)
  }

  /** Swapping exchanges quotient and remainder by 256; swapping again undoes it. */
  lemma SwapNumber(x: Id)
    ensures Number(Swap(x)) / 256 == Number(x) % 256 && Number(Swap(x)) % 256 == Number(x) / 256
    ensures Swap(Swap(x)) == x
  {
    OctetBound(x.high);
    OctetBound(x.low);
    Exchanged(Number(x), Number(Swap(x)), x.high as nat, x.low as nat);
  }

  lemma OctetBound(b: bv8)
    ensures (b as nat) < 256
  {
  }

  lemma Exchanged(n: nat, m: nat, high: nat, low: nat)
    requires n == 256 * high + low && m == 256 * low + high && high < 256 && low < 256
    ensures m / 256 == n % 256 && m % 256 == n / 256
  {
  }

  /** The chunk count computed by the sender. */
  function Count(len: nat, c: nat): nat
    requires c > 0
  {
    (len + c - 1) / c
  }

  /** The bytes that chunk i carries. */
  function Slice(p: seq<bv8>, c: nat, i: nat): seq<bv8> {
    if i * c <= |p| then p[i * c .. Min(i * c + c, |p|)] else []
  }

  function Cells(p: seq<bv8>): seq<Cell> {
    seq(|p|, i requires 0 <= i < |p| => Octet(p[i]))
  }

  /** Memory returned by malloc. */
  function Fresh(n: nat): seq<Cell> {
    seq(n, _ => Undefined)
  }

  /** n bytes read from the start of a packet buffer whose frame carried p: what lies
      behind the frame is whatever the pooled buffer held before. */
  function ReadFrame(p: seq<bv8>, n: nat): seq<Cell> {
    seq(n, i requires 0 <= i < n => if i < |p| then Octet(p[i]) else Undefined)
  }

  /** memcpy of src to buf + at. */
  function Overlay<T>(buf: seq<T>, at: nat, src: seq<T>): seq<T> {
    seq(|buf|, i requires 0 <= i < |buf| => if at <= i < at + |src| then src[i - at] else buf[i])
  }

  lemma DivBounds(a: nat, c: nat)
    requires c > 0
    ensures (a / c) * c <= a < (a / c) * c + c
  {
  }

  /** Byte `off` lies in chunk `i` exactly when it lies between the chunk's bounds. */
  lemma {:induction false} ChunkOf(off: nat, c: nat, i: nat)
    requires c > 0
    ensures off / c == i <==> i * c <= off < i * c + c
  {
    DivBounds(off, c);
    var q := off / c;
    if i * c <= off < i * c + c {
      if q < i {
        MulOrder(q + 1, i, c);
      } else if i < q {
        MulOrder(i + 1, q, c);
      }
    }
  }

  lemma MulOrder(a: nat, b: nat, c: nat)
    requires a <= b
    ensures a * c <= b * c
  {
  }

  lemma MulStep(a: int, c: int)
    ensures (a + 1) * c == a * c + c
  {
  }

  /** The chunk count bounds the message from both sides. */
  lemma CountBounds(len: nat, c: nat)
    requires c > 0
    ensures len <= Count(len, c) * c < len + c
  {
    DivBounds(len + c - 1, c);
  }

  /** Index i names a chunk exactly when its offset lies inside the message; it names the last
      one exactly under the test that both the sender's loop and the receiver use. */
  lemma IndexBounds(len: nat, c: nat, i: nat)
    requires c > 0
    ensures i < Count(len, c) <==> i * c < len
    ensures i + 1 >= Count(len, c) <==> i * c + c >= len
  {
    CountBounds(len, c);
    var n: int := Count(len, c);
    MulStep(i, c);
    MulStep(n - 1, c);
    if i < n { MulOrder(i, n - 1, c); } else { MulOrder(n, i, c); }
    if i + 1 < n { MulOrder(i + 1, n - 1, c); } else { MulOrder(n, i + 1, c); }
  }

  /** What the receiver's `length % chunk_data_size` yields for the last chunk. */
  lemma LastSize(len: nat, c: nat)
    requires c > 0 && len > 0
    ensures Count(len, c) >= 1
    ensures len % c != 0 ==> len % c == len - (Count(len, c) - 1) * c
    ensures len % c == 0 ==> len == Count(len, c) * c
  {
    CountBounds(len, c);
    DivBounds(len, c);
    var q, r := len / c, len % c;
    assert len == q * c + r;
    MulStep(q, c);
    if r == 0 {
      ChunkOf(len + c - 1, c, q);
    } else {
      ChunkOf(len + c - 1, c, q + 1);
    }
  }

  /** A slice has c bytes, except that the last one has what is left. */
  lemma SliceSize(p: seq<bv8>, c: nat, i: nat)
    requires c > 0 && i < Count(|p|, c)
    ensures i * c < |p|
    ensures |Slice(p, c, i)| == Min(c, |p| - i * c)
    ensures i + 1 < Count(|p|, c) ==> |Slice(p, c, i)| == c
  {
    IndexBounds(|p|, c, i);
  }

  /** Concatenated in order, the slices are the message: they partition it. */
  function Joined(p: seq<bv8>, c: nat, n: nat): seq<bv8> {
    if n == 0 then [] else Joined(p, c, n - 1) + Slice(p, c, n - 1)
  }

  lemma NextSlice(p: seq<bv8>, c: nat, i: nat)
    requires c > 0 && i < Count(|p|, c)
    ensures 0 <= i * c <= |p|
    ensures p[..i * c] + Slice(p, c, i) == p[..Min(i * c + c, |p|)]
  {
    IndexBounds(|p|, c, i);
    var from: nat := i * c;
    assert p[..from] + p[from..Min(from + c, |p|)] == p[..Min(from + c, |p|)];
  }

  lemma {:induction false} SlicesPartition(p: seq<bv8>, c: nat, n: nat)
    requires c > 0 && n <= Count(|p|, c)
    ensures n < Count(|p|, c) ==> n * c <= |p| && Joined(p, c, n) == p[..n * c]
    ensures n == Count(|p|, c) ==> Joined(p, c, n) == p
  {
    if n > 0 {
      SlicesPartition(p, c, n - 1);
      NextSlice(p, c, n - 1);
      MulStep(n - 1, c);
      IndexBounds(|p|, c, n - 1);
    }
  }

  /** A set of n numbers below n is the whole range. */
  lemma {:induction false} FullRange(s: set<nat>, n: nat)
    requires forall x :: x in s ==> x < n
    ensures |s| <= n
    ensures |s| == n ==> forall x: nat :: x < n ==> x in s
    decreases n
  {
    if n > 0 {
      FullRange(s - {n - 1}, n - 1);
      if |s| == n {
        forall x: nat | x < n ensures x in s {
          assert x == n - 1 || x in s - {n - 1};
        }
      }
    } else {
      assert s == {};
    }
  }
}
