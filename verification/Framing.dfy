/** How the sender cuts frames out of one buffer in place: the header goes over the bytes before the
    chunk, and those are put back once the frame is sent. */
module Framing {
  import opened Chunks

  /** memcpy */
  method Copy(a: array<bv8>, at: nat, src: seq<bv8>)
    requires at + |src| <= a.Length
    modifies a
    ensures a[..] == Overlay(old(a[..]), at, src)
  {
    var i := 0;
    while i < |src|
      invariant i <= |src|
      invariant forall j :: 0 <= j < a.Length ==> a[j] == if at <= j < at + i then src[j - at] else old(a[j])
    {
      a[at + i] := src[i];
      i := i + 1;
    }
  }

  lemma Restored(p: seq<bv8>, at: nat, header: seq<bv8>)
    requires at + |header| <= |p|
    ensures Overlay(Overlay(p, at, header), at, p[at..at + |header|]) == p
  {
  }

  lemma FrameBytes(p: seq<bv8>, at: nat, header: seq<bv8>, n: nat)
    requires at + |header| + n <= |p|
    ensures var end := at + |header|; Overlay(p, at, header)[at..end + n] == header + p[end..end + n]
  {
  }

  /** Save, overlay, send, restore: one frame of n payload bytes whose header starts at `at`. */
  method Emit(a: array<bv8>, at: nat, header: seq<bv8>, n: nat) returns (frame: seq<bv8>)
    requires at + |header| + n <= a.Length
    modifies a
    ensures a[..] == old(a[..])
    ensures frame == header + a[at + |header|..at + |header| + n]
  {
    ghost var p := a[..];
    var saved := a[at..at + |header|];
    assert saved == p[at..at + |header|];
    Copy(a, at, header);
    FrameBytes(p, at, header, n);
    frame := a[at..at + |header| + n];
    assert frame == a[..][at..at + |header| + n];
    Copy(a, at, saved);
    Restored(p, at, header);
    assert p[at + |header|..at + |header| + n] == a[at + |header|..at + |header| + n];
  }

  /** The message of `len` bytes in the buffer. */
  ghost function Message(p: seq<bv8>, len: nat): seq<bv8>
    requires ROOM + len <= |p|
  {
    p[ROOM..ROOM + len]
  }

  lemma SubSlice(p: seq<bv8>, at: nat, len: nat, from: nat, to: nat)
    requires at + len <= |p| && from <= to <= len
    ensures p[at..at + len][from..to] == p[at + from..at + to]
  {
    var q, a, b := p[at..at + len], p[at..at + len][from..to], p[at + from..at + to];
    forall k | 0 <= k < |b| ensures a[k] == b[k] {
      assert a[k] == q[from + k] == p[at + from + k] == b[k];
    }
  }

  lemma SliceAt(p: seq<bv8>, len: nat, c: nat, i: nat)
    requires c > 0 && ROOM + len <= |p| && i < Count(len, c)
    ensures 0 <= i * c < len
    ensures Slice(Message(p, len), c, i) == p[ROOM + i * c..ROOM + i * c + Min(c, len - i * c)]
  {
    IndexBounds(len, c, i);
    MulOrder(0, i, c);
    SubSlice(p, ROOM, len, i * c, i * c + Min(c, len - i * c));
  }

  /** One chunk's frame. The last chunk is the one that reaches the end of the message. */
  method EmitChunk(a: array<bv8>, prepend: nat, c: nat, len: nat, header: seq<bv8>, i: nat) returns (frame: seq<bv8>, last: bool)
    requires c > 0 && prepend <= 14 && ROOM + len <= a.Length && |header| == prepend + HEADER && i < Count(len, c)
    modifies a
    ensures a[..] == old(a[..])
    ensures frame == header + Slice(Message(a[..], len), c, i)
    ensures last <==> i + 1 == Count(len, c)
  {
    ghost var p := a[..];
    SliceAt(p, len, c, i);
    IndexBounds(len, c, i);
    var offset: nat := i * c;
    last := offset + c >= len;
    var n := if last then len - offset else c;
    frame := Emit(a, ROOM + offset - prepend - HEADER, header, n);
    assert a[ROOM + offset..ROOM + offset + n] == p[ROOM + offset..ROOM + offset + n];
  }

  /** The sending loop. `headers(i)` are the link, IP and packet headers of chunk i, in whatever bytes. It
      emits one frame per chunk, in order, each with exactly that chunk's bytes, and every byte of the
      buffer is afterwards what it was. */
  method SendChunks(a: array<bv8>, prepend: nat, mtu: nat, len: nat, headers: nat -> seq<bv8>) returns (frames: seq<seq<bv8>>)
    requires mtu > HEADER && prepend <= 14 && len > mtu && ROOM + len <= a.Length
    requires forall i :: |headers(i)| == prepend + HEADER
    modifies a
    ensures a[..] == old(a[..])
    ensures |frames| == Count(len, mtu - HEADER)
    ensures forall i :: 0 <= i < |frames| ==> frames[i] == headers(i) + Slice(Message(a[..], len), mtu - HEADER, i)
  {
    var c := mtu - HEADER;
    ghost var p := a[..];
    frames := [];
    var i: nat := 0;
    IndexBounds(len, c, 0);
    while true
      invariant a[..] == p && |frames| == i < Count(len, c)
      invariant forall j :: 0 <= j < i ==> frames[j] == headers(j) + Slice(Message(p, len), c, j)
      decreases Count(len, c) - i
    {
      var frame, last := EmitChunk(a, prepend, c, len, headers(i), i);
      frames := frames + [frame];
      if last {
        break;
      }
      i := i + 1;
    }
  }

  /** The loop that resends lost chunks: each frame carries the same bytes as the first time, in the order
      of the list, and the buffer stays as it is. */
  method ResendChunks(a: array<bv8>, prepend: nat, mtu: nat, len: nat, headers: nat -> seq<bv8>, lost: seq<nat>)
    returns (frames: seq<seq<bv8>>)
    requires mtu > HEADER && prepend <= 14 && len > mtu && ROOM + len <= a.Length
    requires forall i :: |headers(i)| == prepend + HEADER
    requires forall k :: 0 <= k < |lost| ==> lost[k] < Count(len, mtu - HEADER)
    modifies a
    ensures a[..] == old(a[..])
    ensures |frames| == |lost|
    ensures forall k :: 0 <= k < |lost| ==> frames[k] == headers(lost[k]) + Slice(Message(a[..], len), mtu - HEADER, lost[k])
  {
    var c := mtu - HEADER;
    ghost var p := a[..];
    frames := [];
    for k := 0 to |lost|
      invariant a[..] == p && |frames| == k
      invariant forall j :: 0 <= j < k ==> frames[j] == headers(lost[j]) + Slice(Message(p, len), c, lost[j])
    {
      var frame, _ := EmitChunk(a, prepend, c, len, headers(lost[k]), lost[k]);
      frames := frames + [frame];
    }
  }
}
