/** The two packet buffers of the library: one flat piece of memory, and a row of network buffers that
    hold one frame's payload each. */
module PacketBuffers {
  import opened Chunks

  /** A network buffer: room for a full frame's payload, of which `size` bytes are in use. */
  datatype Segment = Segment(bytes: seq<Cell>, size: nat)

  /** n full frames' worth of bytes. */
  function Span(n: nat, c: nat): nat {
    if n == 0 then 0 else Span(n - 1, c) + c
  }

  lemma {:induction false} SpanIs(n: nat, c: nat)
    ensures Span(n, c) == n * c
  {
    if n > 0 {
      SpanIs(n - 1, c);
    }
  }

  lemma {:induction false} SpanOrder(m: nat, n: nat, c: nat)
    requires m < n
    ensures Span(m, c) + c <= Span(n, c)
  {
    if m < n - 1 {
      SpanOrder(m, n - 1, c);
    }
  }

  lemma SpanSplit(a: nat, c: nat)
    requires c > 0
    ensures Span(a / c, c) + a % c == a
  {
    SpanIs(a / c, c);
  }

  /** Every segment but the last is full, and the sizes sum to the total. */
  ghost predicate Shaped(segments: seq<Segment>, c: nat, total: nat) {
    && c > 0 && |segments| > 0
    && (forall i :: 0 <= i < |segments| ==> |segments[i].bytes| == c && segments[i].size <= c)
    && FullTo(segments, c, |segments| - 1)
    && total == Span(|segments| - 1, c) + segments[|segments| - 1].size
  }

  ghost predicate FullTo(segments: seq<Segment>, c: nat, n: nat) {
    n <= |segments| && forall i :: 0 <= i < n ==> |segments[i].bytes| == segments[i].size == c
  }

  function Payload(s: Segment): seq<Cell> {
    s.bytes[..Min(s.size, |s.bytes|)]
  }

  /** The payloads of the first n segments, one after the other. */
  function Concat(segments: seq<Segment>, n: nat): seq<Cell>
    requires n <= |segments|
  {
    if n == 0 then [] else Concat(segments, n - 1) + Payload(segments[n - 1])
  }

  function All(segments: seq<Segment>): seq<Cell> {
    Concat(segments, |segments|)
  }

  lemma {:induction false} FullSize(segments: seq<Segment>, c: nat, n: nat)
    requires FullTo(segments, c, n)
    ensures |Concat(segments, n)| == Span(n, c)
  {
    if n > 0 {
      FullSize(segments, c, n - 1);
    }
  }

  /** The payload sizes sum to the total. */
  lemma ShapedSize(segments: seq<Segment>, c: nat, total: nat)
    requires Shaped(segments, c, total)
    ensures |All(segments)| == total
  {
    FullSize(segments, c, |segments| - 1);
  }

  lemma {:induction false} SameStart(a: seq<Segment>, b: seq<Segment>, n: nat)
    requires n <= |a| && n <= |b| && forall i :: 0 <= i < n ==> a[i] == b[i]
    ensures Concat(a, n) == Concat(b, n)
  {
    if n > 0 {
      SameStart(a, b, n - 1);
    }
  }

  lemma {:induction false} Prefix(segments: seq<Segment>, m: nat, n: nat)
    requires m <= n <= |segments|
    ensures Concat(segments, m) <= Concat(segments, n)
  {
    if m < n {
      Prefix(segments, m, n - 1);
    }
  }

  lemma SegmentEnd(segments: seq<Segment>, c: nat, total: nat, i: nat)
    requires Shaped(segments, c, total) && i < |segments|
    ensures Span(i, c) + segments[i].size == Min(Span(i, c) + c, total)
  {
    if i < |segments| - 1 {
      SpanOrder(i, |segments| - 1, c);
    }
  }

  /** Segment i carries what chunk i of the whole message carries. */
  lemma SegmentIsChunk(segments: seq<Segment>, c: nat, total: nat, message: seq<bv8>, i: nat)
    requires Shaped(segments, c, total) && All(segments) == Cells(message) && i < |segments|
    ensures Payload(segments[i]) == Cells(Slice(message, c, i))
  {
    Prefix(segments, i + 1, |segments|);
    FullSize(segments, c, i);
    SegmentEnd(segments, c, total, i);
    ShapedSize(segments, c, total);
    var start, size := Span(i, c), segments[i].size;
    Behind(Concat(segments, i), Payload(segments[i]), All(segments));
    ChunkAt(message, c, i, start, size);
    CellsSlice(message, start, start + size);
  }

  lemma Behind(a: seq<Cell>, s: seq<Cell>, all: seq<Cell>)
    requires a + s <= all
    ensures all[|a|..|a| + |s|] == s
  {
    assert (a + s)[|a|..] == s;
  }

  lemma CellsSlice(p: seq<bv8>, i: nat, j: nat)
    requires i <= j <= |p|
    ensures Cells(p)[i..j] == Cells(p[i..j])
  {
  }

  lemma ChunkAt(message: seq<bv8>, c: nat, i: nat, start: nat, size: nat)
    requires start == Span(i, c) && start + size == Min(start + c, |message|)
    ensures Slice(message, c, i) == message[start..start + size]
  {
    SpanIs(i, c);
  }

  // ---- What the operations mean on the concatenation ----------------------------------------------------

  /** After a resize every byte still in range is kept; nothing is said of new ones. */
  ghost predicate Resized(p: seq<Cell>, p': seq<Cell>, n: nat) {
    |p'| == n && forall k :: 0 <= k < n && k < |p| ==> p'[k] == p[k]
  }

  datatype Op = Write(at: nat, data: seq<bv8>) | Append(data: seq<bv8>) | Resize(n: nat)

  /** The bytes and the append position. */
  datatype Buffer = Buffer(bytes: seq<Cell>, at: nat)

  ghost predicate InBounds(b: Buffer, op: Op) {
    match op
    case Write(at, data) => at + |data| <= |b.bytes|
    case Append(data) => b.at + |data| <= |b.bytes|
    case Resize(_) => true
  }

  ghost predicate Does(b: Buffer, op: Op, b': Buffer) {
    match op
    case Write(at, data) => b' == b.(bytes := Overlay(b.bytes, at, Cells(data)))
    case Append(data) => b' == Buffer(Overlay(b.bytes, b.at, Cells(data)), b.at + |data|)
    case Resize(n) => b'.at == b.at && Resized(b.bytes, b'.bytes, n)
  }

  /** The flat buffer: memory gained by growing holds nothing. */
  function FlatStep(b: Buffer, op: Op): Buffer {
    match op
    case Write(at, data) => b.(bytes := Overlay(b.bytes, at, Cells(data)))
    case Append(data) => Buffer(Overlay(b.bytes, b.at, Cells(data)), b.at + |data|)
    case Resize(n) => b.(bytes := Reallocated(b.bytes, n))
  }

  /** realloc */
  function Reallocated(p: seq<Cell>, n: nat): seq<Cell> {
    seq(n, k => if 0 <= k < |p| then p[k] else Undefined)
  }

  /** What is known of a flat buffer's byte holds of the other's. */
  ghost predicate Refines(fast: Buffer, flat: Buffer) {
    && fast.at == flat.at && |fast.bytes| == |flat.bytes|
    && forall k :: 0 <= k < |flat.bytes| ==> flat.bytes[k] != Undefined ==> fast.bytes[k] == flat.bytes[k]
  }

  lemma StepRefines(fast: Buffer, flat: Buffer, op: Op, fast': Buffer)
    requires Refines(fast, flat) && InBounds(flat, op) && Does(fast, op, fast')
    ensures Refines(fast', FlatStep(flat, op))
  {
  }

  function FlatRun(b: Buffer, ops: seq<Op>): Buffer {
    if ops == [] then b else FlatStep(FlatRun(b, ops[..|ops| - 1]), ops[|ops| - 1])
  }

  ghost predicate AllInBounds(b: Buffer, ops: seq<Op>) {
    ops == [] || (AllInBounds(b, ops[..|ops| - 1]) && InBounds(FlatRun(b, ops[..|ops| - 1]), ops[|ops| - 1]))
  }

  /** Successive contents of a segmented buffer under a list of operations. */
  ghost predicate SegmentedRun(run: seq<Buffer>, ops: seq<Op>) {
    |run| == |ops| + 1 && forall i :: 0 <= i < |ops| ==> Does(run[i], ops[i], run[i + 1])
  }

  /** After any list of in-bounds writes, appends and resizes both buffers have the same size and append
      position, and agree on every byte written and in range since. */
  lemma {:induction false} RunRefines(run: seq<Buffer>, ops: seq<Op>, flat: Buffer)
    requires SegmentedRun(run, ops) && Refines(run[0], flat) && AllInBounds(flat, ops)
    ensures Refines(run[|ops|], FlatRun(flat, ops))
  {
    if ops != [] {
      var n := |ops| - 1;
      RunRefines(run[..n + 1], ops[..n], flat);
      StepRefines(run[n], FlatRun(flat, ops[..n]), ops[n], run[n + 1]);
    }
  }

  // ---- What a run leaves in a buffer, without reference to its states --------------------------------------

  /** The bytes appended so far. */
  function Appended(ops: seq<Op>): nat {
    if ops == [] then 0
    else Appended(ops[..|ops| - 1]) + (if ops[|ops| - 1].Append? then |ops[|ops| - 1].data| else 0)
  }

  /** The size last asked for. */
  function FinalSize(size: nat, ops: seq<Op>): nat {
    if ops == [] then size
    else if ops[|ops| - 1].Resize? then ops[|ops| - 1].n
    else FinalSize(size, ops[..|ops| - 1])
  }

  /** What the latest operation on byte k put there; a resize to k bytes or fewer discards it. */
  function LastByte(ops: seq<Op>, k: nat): Cell {
    if ops == [] then Undefined
    else
      var init, op := ops[..|ops| - 1], ops[|ops| - 1];
      match op
      case Write(at, data) => if at <= k < at + |data| then Octet(data[k - at]) else LastByte(init, k)
      case Append(data) =>
        var at := Appended(init);
        if at <= k < at + |data| then Octet(data[k - at]) else LastByte(init, k)
      case Resize(n) => if k < n then LastByte(init, k) else Undefined
  }

  ghost predicate Describes(b: Buffer, size: nat, ops: seq<Op>) {
    && b.at == Appended(ops) && |b.bytes| == FinalSize(size, ops)
    && (forall k: nat :: k < |b.bytes| ==> b.bytes[k] == LastByte(ops, k))
    && (forall k: nat :: k >= |b.bytes| ==> LastByte(ops, k) == Undefined)
  }

  /** After any in-bounds run a flat buffer holds at each place what was last put there. */
  lemma {:induction false} FlatRunIs(size: nat, ops: seq<Op>)
    requires AllInBounds(Buffer(Fresh(size), 0), ops)
    ensures Describes(FlatRun(Buffer(Fresh(size), 0), ops), size, ops)
  {
    if ops != [] {
      FlatRunIs(size, ops[..|ops| - 1]);
    }
  }

  /** ... and so does a row of network buffers, wherever anything was put. */
  lemma SegmentedRunIs(run: seq<Buffer>, size: nat, ops: seq<Op>, k: nat)
    requires SegmentedRun(run, ops) && run[0].at == 0 && |run[0].bytes| == size
    requires AllInBounds(Buffer(Fresh(size), 0), ops)
    ensures run[|ops|].at == Appended(ops) && |run[|ops|].bytes| == FinalSize(size, ops)
    ensures LastByte(ops, k) != Undefined ==> k < FinalSize(size, ops) && run[|ops|].bytes[k] == LastByte(ops, k)
  {
    FlatRunIs(size, ops);
    RunRefines(run, ops, Buffer(Fresh(size), 0));
  }

  function Concatenated(parts: seq<seq<bv8>>): seq<bv8> {
    if parts == [] then [] else Concatenated(parts[..|parts| - 1]) + parts[|parts| - 1]
  }

  function Appends(parts: seq<seq<bv8>>): seq<Op> {
    seq(|parts|, i requires 0 <= i < |parts| => Append(parts[i]))
  }

  lemma {:induction false} FlatAppends(size: nat, parts: seq<seq<bv8>>)
    requires |Concatenated(parts)| <= size
    ensures AllInBounds(Buffer(Fresh(size), 0), Appends(parts))
    ensures FlatRun(Buffer(Fresh(size), 0), Appends(parts))
         == Buffer(Cells(Concatenated(parts)) + Fresh(size - |Concatenated(parts)|), |Concatenated(parts)|)
  {
    if parts == [] {
      assert Cells([]) + Fresh(size) == Fresh(size);
    } else {
      var n := |parts| - 1;
      var before, last := Concatenated(parts[..n]), parts[n];
      FlatAppends(size, parts[..n]);
      assert Appends(parts)[..n] == Appends(parts[..n]);
      AppendOne(before, last, size - |before|);
    }
  }

  lemma AppendOne(before: seq<bv8>, data: seq<bv8>, free: nat)
    requires |data| <= free
    ensures Overlay(Cells(before) + Fresh(free), |before|, Cells(data))
         == Cells(before + data) + Fresh(free - |data|)
  {
  }

  /** Pieces appended to a new buffer, of either form, make up the message: their concatenation, from the first
      byte on. */
  lemma AppendsBuild(run: seq<Buffer>, size: nat, parts: seq<seq<bv8>>)
    requires SegmentedRun(run, Appends(parts)) && run[0].at == 0 && |run[0].bytes| == size && |Concatenated(parts)| <= size
    ensures var flat, fast, n := FlatRun(Buffer(Fresh(size), 0), Appends(parts)), run[|parts|], |Concatenated(parts)|;
            && flat.at == fast.at == n && |flat.bytes| == |fast.bytes| == size
            && flat.bytes[..n] == fast.bytes[..n] == Cells(Concatenated(parts))
  {
    FlatAppends(size, parts);
    RunRefines(run, Appends(parts), Buffer(Fresh(size), 0));
    SameFront(run[|parts|], FlatRun(Buffer(Fresh(size), 0), Appends(parts)), Concatenated(parts));
  }

  lemma SameFront(fast: Buffer, flat: Buffer, message: seq<bv8>)
    requires Refines(fast, flat) && Cells(message) <= flat.bytes
    ensures fast.bytes[..|message|] == flat.bytes[..|message|] == Cells(message)
  {
  }

  /** The flat buffer: one block of memory, room for headers first. The two pointers into it are offsets. */
  class FlatBuffer {
    var block: array<Cell>          // packet_buffer_start
    var start: nat                  // packet_data_start
    var next: nat                   // packet_append_pointer

    ghost predicate Valid()
      reads this
    {
      start == ROOM <= block.Length && start <= next
    }

    ghost function Value(): Buffer
      reads this, block
      requires Valid()
    {
      Buffer(block[start..], next - start)
    }

    constructor (size: nat)
      ensures Valid() && fresh(block) && Value() == Buffer(Fresh(size), 0)
    {
      block := new Cell[size + ROOM](_ => Undefined);
      start, next := ROOM, ROOM;
    }

    /** memcpy into the block. */
    method Copy(at: nat, data: seq<bv8>)
      requires Valid() && start <= at && at + |data| <= block.Length
      modifies block
      ensures block[..] == Overlay(old(block[..]), at, Cells(data))
      ensures Value() == old(Value()).(bytes := Overlay(old(Value()).bytes, at - start, Cells(data)))
    {
      var i := 0;
      while i < |data|
        invariant i <= |data|
        invariant forall j :: 0 <= j < block.Length ==> block[j] == if at <= j < at + i then Octet(data[j - at]) else old(block[j])
      {
        block[at + i] := Octet(data[i]);
        i := i + 1;
      }
    }

    method Write(offset: nat, data: seq<bv8>)
      requires Valid() && InBounds(Value(), Op.Write(offset, data))
      modifies block
      ensures Valid() && Value() == FlatStep(old(Value()), Op.Write(offset, data))
      ensures block[..start] == old(block[..start])
    {
      Copy(start + offset, data);
    }

    method Append(data: seq<bv8>)
      requires Valid() && InBounds(Value(), Op.Append(data))
      modifies this`next, block
      ensures Valid() && Value() == FlatStep(old(Value()), Op.Append(data))
      ensures block[..start] == old(block[..start])
    {
      Copy(next, data);
      next := next + |data|;
    }

    /** realloc copies what fits into the new block; the append pointer keeps its distance from the data,
        even where that is now behind the end. */
    method Resize(n: nat)
      requires Valid()
      modifies this
      ensures Valid() && fresh(block) && Value() == FlatStep(old(Value()), Op.Resize(n))
    {
      var offset := next - start;
      var size := n + ROOM;
      var moved := new Cell[size](_ => Undefined);
      var kept := Min(block.Length, size);
      var i := 0;
      while i < kept
        invariant i <= kept && block == old(block) && block[..] == old(block[..])
        invariant forall j :: 0 <= j < size ==> moved[j] == if j < i then block[j] else Undefined
      {
        moved[i] := block[i];
        i := i + 1;
      }
      block, start, next := moved, ROOM, ROOM + offset;
    }
  }

  // ---- Segment-level facts --------------------------------------------------------------------------------

  /** memcpy into one segment. */
  function Written(segments: seq<Segment>, i: nat, off: nat, src: seq<Cell>): seq<Segment>
    requires i < |segments|
  {
    segments[i := segments[i].(bytes := Overlay(segments[i].bytes, off, src))]
  }

  lemma OverlayLast(a: seq<Cell>, s: seq<Cell>, off: nat, src: seq<Cell>)
    requires off + |src| <= |s|
    ensures Overlay(a + s, |a| + off, src) == a + Overlay(s, off, src)
  {
  }

  lemma OverlayFirst(a: seq<Cell>, s: seq<Cell>, at: nat, src: seq<Cell>)
    requires at + |src| <= |a|
    ensures Overlay(a + s, at, src) == Overlay(a, at, src) + s
  {
  }

  lemma WritePayload(s: Segment, off: nat, src: seq<Cell>)
    requires off + |src| <= s.size <= |s.bytes|
    ensures Payload(s.(bytes := Overlay(s.bytes, off, src))) == Overlay(Payload(s), off, src)
  {
  }

  lemma WriteLast(segments: seq<Segment>, c: nat, i: nat, off: nat, src: seq<Cell>)
    requires i < |segments| && FullTo(segments, c, i) && off + |src| <= segments[i].size <= |segments[i].bytes|
    ensures Span(i, c) + off + |src| <= |Concat(segments, i + 1)|
    ensures Concat(Written(segments, i, off, src), i + 1) == Overlay(Concat(segments, i + 1), Span(i, c) + off, src)
  {
    SameStart(segments, Written(segments, i, off, src), i);
    FullSize(segments, c, i);
    WritePayload(segments[i], off, src);
    OverlayLast(Concat(segments, i), Payload(segments[i]), off, src);
    assert Concat(Written(segments, i, off, src), i + 1) == Concat(segments, i) + Overlay(Payload(segments[i]), off, src);
  }

  lemma {:induction false} WriteSegment(segments: seq<Segment>, c: nat, i: nat, off: nat, src: seq<Cell>, n: nat)
    requires i < n <= |segments| && FullTo(segments, c, i) && off + |src| <= segments[i].size <= |segments[i].bytes|
    ensures Span(i, c) + off + |src| <= |Concat(segments, n)|
    ensures Concat(Written(segments, i, off, src), n) == Overlay(Concat(segments, n), Span(i, c) + off, src)
  {
    var segments' := Written(segments, i, off, src);
    if n == i + 1 {
      WriteLast(segments, c, i, off, src);
    } else {
      WriteSegment(segments, c, i, off, src, n - 1);
      OverlayFirst(Concat(segments, n - 1), Payload(segments[n - 1]), Span(i, c) + off, src);
    }
  }

  lemma OverlayTwice(p: seq<Cell>, at: nat, a: seq<Cell>, b: seq<Cell>)
    ensures Overlay(Overlay(p, at, a), at + |a|, b) == Overlay(p, at, a + b)
  {
  }

  /** Where a position inside the buffer lies, and how much room its segment has behind it. */
  lemma WritePosition(segments: seq<Segment>, c: nat, total: nat, chunk: nat, current: nat, at: nat, more: nat)
    requires Shaped(segments, c, total) && current < c && Span(chunk, c) + current == at && at + more <= total && more > 0
    ensures chunk < |segments| && current + Min(c - current, more) <= segments[chunk].size
  {
    var last := |segments| - 1;
    if chunk > last {
      SpanOrder(last, chunk, c);
    } else {
      SegmentEnd(segments, c, total, chunk);
    }
  }

  lemma WriteStep(p: seq<Cell>, segments: seq<Segment>, c: nat, total: nat, offset: nat, data: seq<bv8>, done: nat, n: nat, chunk: nat, current: nat)
    requires Shaped(segments, c, total) && chunk < |segments| && current + n <= segments[chunk].size && done + n <= |data|
    requires Span(chunk, c) + current == offset + done && All(segments) == Overlay(p, offset, Cells(data[..done]))
    ensures var segments' := Written(segments, chunk, current, Cells(data[done..done + n]));
            Shaped(segments', c, total) && All(segments') == Overlay(p, offset, Cells(data[..done + n]))
  {
    var piece := data[done..done + n];
    WriteSegment(segments, c, chunk, current, Cells(piece), |segments|);
    OverlayTwice(p, offset, Cells(data[..done]), Cells(piece));
    assert Cells(data[..done]) + Cells(piece) == Cells(data[..done + n]);
  }

  lemma {:induction false} FreshRow(segments: seq<Segment>, c: nat, n: nat)
    requires n <= |segments| && forall i :: 0 <= i < n ==> segments[i].bytes == Fresh(c)
    ensures Concat(segments, n) == Fresh(|Concat(segments, n)|)
  {
    if n > 0 {
      FreshRow(segments, c, n - 1);
    }
  }

  /** The last segment is enlarged and others may follow. */
  lemma GrownRow(before: seq<Segment>, now: seq<Segment>, c: nat, total: nat, n: nat, size: nat)
    requires Shaped(before, c, total) && Shaped(now, c, n) && |before| <= |now|
    requires before[|before| - 1].size <= size <= c && now[|before| - 1] == before[|before| - 1].(size := size)
    requires forall i :: 0 <= i < |before| - 1 ==> now[i] == before[i]
    ensures Resized(All(before), All(now), n)
  {
    var k := |before| - 1;
    SameStart(before, now, k);
    Prefix(now, k + 1, |now|);
    Longer(Concat(before, k), Payload(before[k]), Payload(now[k]), All(now));
    ShapedSize(now, c, n);
  }

  lemma Longer(a: seq<Cell>, s: seq<Cell>, s': seq<Cell>, all: seq<Cell>)
    requires s <= s' && a + s' <= all
    ensures a + s <= all
  {
  }

  /** A later segment becomes the last and is cut, or is replaced by an empty one. */
  lemma ShrunkRow(before: seq<Segment>, now: seq<Segment>, c: nat, total: nat, n: nat)
    requires Shaped(before, c, total) && Shaped(now, c, n) && |now| <= |before|
    requires forall i :: 0 <= i < |now| - 1 ==> now[i] == before[i]
    requires Payload(now[|now| - 1]) <= Payload(before[|now| - 1])
    ensures Resized(All(before), All(now), n)
  {
    var k := |now| - 1;
    SameStart(before, now, k);
    Prefix(before, k + 1, |before|);
    Longer(Concat(before, k), Payload(now[k]), Payload(before[k]), All(before));
    ShapedSize(now, c, n);
  }

  class SegmentedBuffer {
    const c: nat                    // data_len_per_packet
    var segments: seq<Segment>
    var total: nat
    var at: nat

    ghost predicate Valid()
      reads this
    {
      Shaped(segments, c, total)
    }

    ghost function Value(): Buffer
      reads this
      requires Valid()
    {
      Buffer(All(segments), at)
    }

    /** One full segment per whole frame, and one more for the rest, which may be empty. */
    constructor (mtu: nat, size: nat)
      requires mtu > HEADER
      ensures c == mtu - HEADER && Valid() && total == size
      ensures Value() == Buffer(Fresh(size), 0) && |segments| == size / c + 1
    {
      var room: nat := mtu - HEADER;
      var remaining: nat, amount: nat := size % room, size / room;
      c, total, at := room, size, 0;
      segments := seq(amount, _ => Segment(Fresh(room), room)) + [Segment(Fresh(room), remaining)];
      new;
      SpanSplit(size, room);
      ShapedSize(segments, c, total);
      FreshRow(segments, c, |segments|);
    }

    method Write(offset: nat, data: seq<bv8>)
      requires Valid() && InBounds(Value(), Op.Write(offset, data))
      modifies this`segments
      ensures Valid() && Does(old(Value()), Op.Write(offset, data), Value())
    {
      var chunk: nat, current: nat, done: nat := offset / c, offset % c, 0;
      ghost var p := All(segments);
      ShapedSize(segments, c, total);
      SpanSplit(offset, c);
      assert Overlay(p, offset, Cells(data[..0])) == p;
      while done < |data|
        invariant Valid() && done <= |data| && current < c
        invariant done < |data| ==> Span(chunk, c) + current == offset + done
        invariant All(segments) == Overlay(p, offset, Cells(data[..done]))
      {
        var n: nat := Min(c - current, |data| - done);
        WritePosition(segments, c, total, chunk, current, offset + done, |data| - done);
        WriteStep(p, segments, c, total, offset, data, done, n, chunk, current);
        segments := Written(segments, chunk, current, Cells(data[done..done + n]));
        done, current, chunk := done + n, 0, chunk + 1;
      }
      assert data[..done] == data;
    }

    method Append(data: seq<bv8>)
      requires Valid() && InBounds(Value(), Op.Append(data))
      modifies this`segments, this`at
      ensures Valid() && Does(old(Value()), Op.Append(data), Value())
    {
      Write(at, data);
      at := at + |data|;
    }

    /** Resizing keeps every byte that stays in range. */
    method Resize(n: nat)
      requires Valid()
      modifies this`segments, this`total
      ensures Valid() && Does(old(Value()), Op.Resize(n), Value())
    {
      if n == total {
        ShapedSize(segments, c, total);
        return;
      }
      if n > total {
        Grow(n);
      } else {
        Shrink(n);
      }
    }

    method Grow(n: nat)
      requires Valid() && n > total
      modifies this`segments, this`total
      ensures Valid() && total == n && Resized(old(All(segments)), All(segments), n)
    {
      ghost var before := segments;
      var k := |segments| - 1;
      var last := segments[k];
      var change := n - total;
      if change + last.size <= c {
        segments := segments[k := last.(size := last.size + change)];
        GrownRow(before, segments, c, total, n, last.size + change);
        total := n;
        return;
      }
      segments := segments[k := last.(size := c)];
      change := change - (c - last.size);
      SpanSplit(change, c);
      AddSegments(change / c, change % c);
      GrownRow(before, segments, c, total, n, c);
      total := n;
    }

    /** New segments behind full ones: whole frames, and one for a rest. */
    method AddSegments(amount: nat, remainder: nat)
      requires c > 0 && |segments| > 0 && FullTo(segments, c, |segments|) && remainder < c
      modifies this`segments
      ensures Shaped(segments, c, Span(|old(segments)|, c) + Span(amount, c) + remainder)
      ensures |old(segments)| <= |segments| && forall j :: 0 <= j < |old(segments)| ==> segments[j] == old(segments)[j]
    {
      ghost var before := segments;
      for i := 0 to amount
        invariant |segments| == |before| + i && FullTo(segments, c, |segments|)
        invariant forall j :: 0 <= j < |before| ==> segments[j] == before[j]
        invariant Span(|segments|, c) == Span(|before|, c) + Span(i, c)
      {
        segments := segments + [Segment(Fresh(c), c)];
      }
      if remainder != 0 {
        segments := segments + [Segment(Fresh(c), remainder)];
      }
    }

    method Shrink(n: nat)
      requires Valid() && n < total
      modifies this`segments, this`total
      ensures Valid() && total == n && Resized(old(All(segments)), All(segments), n)
    {
      ghost var before := segments;
      var k, last := NewLast(n);
      segments := segments[..k] + [last];
      ShrunkRow(before, segments, c, total, n);
      total := n;
    }

    /** Which segment becomes the last one, and with what size. */
    method NewLast(n: nat) returns (k: nat, last: Segment)
      requires Valid() && n < total
      ensures k < |segments| && |last.bytes| == c && last.size <= c && Span(k, c) + last.size == n
      ensures Payload(last) <= Payload(segments[k])
    {
      k := |segments| - 1;
      last := segments[k];
      var change: nat := total - n;
      if change <= last.size {
        last := last.(size := last.size - change);
      } else {
        change := change - last.size;
        while change >= c && k > 1
          invariant 0 < k < |segments| && n + change == Span(k, c)
        {
          k := k - 1;
          change := change - c;
        }
        k := k - 1;
        last := segments[k];
        if change >= last.size {
          last := Segment(Fresh(c), 0);
        } else {
          last := last.(size := last.size - change);
        }
      }
    }
  }
}
