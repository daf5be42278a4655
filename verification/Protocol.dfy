/** Chunked transfer with lost-chunk recovery, as a transition system.

    Any number of sending calls (one per message, keyed by source port and packet id) run
    against one receiving endpoint. The network is the set of all frames ever sent: a frame in
    it may be dequeued never, once or many times and in any order, so loss, duplication and
    reordering are all runs of the system. */
module Protocol {
  import opened Options
  import opened Chunks

  datatype Kind = Message | Request | Response

  /** Port of the sending endpoint and packet id. The sending side uses the id it drew; the
      receiving side uses the raw `ip_id`, which carries the same id byte-swapped. */
  datatype Key = Key(port: U16, id: Id)

  /** The key under which the other end of the wire knows this message. */
  function Far(k: Key): (r: Key)
    ensures r.port == k.port && Swap(r.id) == k.id
  {
    Key(k.port, Swap(k.id))
  }

  /** One call to swiftnet_send_packet: what is sent, and the sending host's own MTU. */
  datatype Outgoing = Outgoing(kind: Kind, payload: seq<bv8>, mtu: U16)

  /** The receiving host's MTU, which the sender learned, and every message of the run. */
  datatype Config = Config(mtu: U16, messages: map<Key, Outgoing>)

  predicate ValidConfig(cfg: Config) {
    && cfg.mtu > HEADER
    && forall k :: k in cfg.messages ==> cfg.messages[k].mtu > HEADER
  }

  function SendMtu(cfg: Config, m: Outgoing): int {
    Min(cfg.mtu, m.mtu)
  }

  function SendChunk(cfg: Config, m: Outgoing): int {
    SendMtu(cfg, m) - HEADER
  }

  predicate Chunked(cfg: Config, m: Outgoing) {
    |m.payload| > SendMtu(cfg, m)
  }

  datatype Frame =
    | Data(port: U16, id: Id, kind: Kind, mtu: U16, length: nat, amount: nat, index: nat, payload: seq<bv8>)
    | LostRequest(port: U16, id: Id, mtu: U16)
    | LostResponse(port: U16, id: Id, lost: seq<nat>)
    | Received(port: U16, id: Id)

  function WholeFrame(cfg: Config, k: Key): Frame
    requires k in cfg.messages
  {
    var m := cfg.messages[k];
    Data(k.port, Swap(k.id), m.kind, m.mtu, |m.payload|, 1, 0, m.payload)
  }

  function ChunkFrame(cfg: Config, k: Key, i: nat): Frame
    requires ValidConfig(cfg) && k in cfg.messages
  {
    var m := cfg.messages[k];
    var c := SendChunk(cfg, m);
    Data(k.port, Swap(k.id), m.kind, m.mtu, |m.payload|, Count(|m.payload|, c), i, Slice(m.payload, c, i))
  }

  // ---- The sending side -------------------------------------------------------------------

  datatype Phase =
    | Idle
    | Sent                    // whole message left in one frame; the call returned
    | Chunking(next: nat)     // first pass over the chunks
    | Polling                 // request_lost_packets_bitarray
    | Seen(status: Updated)   // an update was loaded, and is still to be cleared
    | Walking(at: nat)        // resending the lost list
    | Completed               // returned through the completed path

  datatype Updated = NoUpdate | UpdatedLostChunks | SuccessfullyReceived

  /** SwiftNetPacketSending. `lost` is the part of the list buffer written so far; `staged` is the
      size of a list that was copied in but whose size is not yet published. */
  datatype Sending = Sending(phase: Phase, lost: seq<nat>, size: nat, updated: Updated, staged: Option<nat>)

  predicate Active(p: Phase) {
    p.Chunking? || p.Polling? || p.Seen? || p.Walking?
  }

  // ---- The receiving side -----------------------------------------------------------------

  /** SwiftNetPendingMessage; `got` is the set of set bits of the bitmap. */
  datatype Pending = Pending(amount: nat, buffer: seq<Cell>, got: set<nat>, received: nat)

  datatype Handed = Handed(key: Key, data: seq<Cell>)

  datatype Node = Node(item: Handed, pending: bool)

  /** Tables of one endpoint. `handed` logs every message placed on the callback queue or stored
      into a request slot, in order. */
  datatype Receiver = Receiver(
    pending: map<Key, Pending>,
    history: set<Key>,
    queue: seq<Node>,
    slots: set<Id>,
    handed: seq<Handed>)

  /** Ascending clear bit positions below n. */
  function Missing(got: set<nat>, n: nat): seq<nat> {
    if n == 0 then [] else Missing(got, n - 1) + (if n - 1 in got then [] else [n - 1])
  }

  function Take<T>(s: seq<T>, n: nat): seq<T> {
    if |s| <= n then s else s[..n]
  }

  /** First frame of a chunked message: always copied to the start of the buffer. */
  function Start(f: Frame, c: nat): Pending
    requires f.Data?
  {
    Pending(f.amount, Overlay(Fresh(f.length), 0, ReadFrame(f.payload, c)), {f.index}, 1)
  }

  function BytesToWrite(f: Frame, c: nat): nat
    requires f.Data? && c > 0
  {
    if f.index + 1 >= f.amount then f.length % c else c
  }

  /** Any later chunk that is new. */
  function Accept(p: Pending, f: Frame, c: nat): Pending
    requires f.Data? && c > 0
  {
    p.(buffer := Overlay(p.buffer, c * f.index, ReadFrame(f.payload, BytesToWrite(f, c))),
       got := p.got + {f.index},
       received := p.received + 1)
  }

  /** A complete message goes to the waiting request slot (responses) or to the callback queue.
      A response nobody waits for any more goes nowhere, and keeps its pending entry. */
  function HandOn(r: Receiver, h: Handed, kind: Kind, pending: bool): Receiver {
    if kind.Response? then
      if h.key.id !in r.slots then r
      else r.(slots := r.slots - {h.key.id},
              handed := r.handed + [h],
              pending := if pending then r.pending - {h.key} else r.pending)
    else
      r.(queue := r.queue + [Node(h, pending)], handed := r.handed + [h])
  }

  function ReceiveData(r: Receiver, mtu: U16, f: Frame): Receiver
    requires f.Data? && Min(f.mtu, mtu) > HEADER
  {
    var key := Key(f.port, f.id);
    var c := Min(f.mtu, mtu) - HEADER;
    if key in r.history then r
    else if key !in r.pending then
      if f.length > c then r.(pending := r.pending[key := Start(f, c)])
      else HandOn(r.(history := r.history + {key}), Handed(key, ReadFrame(f.payload, f.length)), f.kind, false)
    else
      var p := r.pending[key];
      if f.index in p.got then r
      else
        var p' := Accept(p, f, c);
        var r' := r.(pending := r.pending[key := p']);
        if p.received + 1 == f.amount then
          HandOn(r'.(history := r.history + {key}), Handed(key, p'.buffer), f.kind, true)
        else r'
  }

  /** Reply to SEND_LOST_PACKETS_REQUEST: the lost list, or the acknowledgement, or silence. */
  function Reply(r: Receiver, mtu: U16, f: Frame): Option<Frame>
    requires f.LostRequest? && Min(f.mtu, mtu) > HEADER
  {
    var key := Key(f.port, f.id);
    if key in r.pending then
      var p := r.pending[key];
      Some(LostResponse(f.port, Swap(f.id), Take(Missing(p.got, p.amount), (Min(f.mtu, mtu) - HEADER) / 4)))
    else if key in r.history then Some(Received(f.port, Swap(f.id)))
    else None
  }

  /** The callback thread takes one node off the queue. */
  function Callback(r: Receiver): Receiver
    requires r.queue != []
  {
    var node := r.queue[0];
    r.(queue := r.queue[1..], pending := if node.pending then r.pending - {node.item.key} else r.pending)
  }

  // ---- The whole system ---------------------------------------------------------------------

  /** `first` records, per receiving key, the chunk index of the first data frame the receiver
      dequeued. No step reads it. */
  datatype State = State(senders: map<Key, Sending>, net: set<Frame>, recv: Receiver, first: map<Key, nat>)

  datatype Step =
    | SendWhole(k: Key)
    | BeginChunks(k: Key)
    | SendNext(k: Key)
    | Poll(k: Key)
    | Observe(k: Key)
    | Clear(k: Key)
    | Resend(k: Key)
    | EndWalk(k: Key)
    | CopyList(f: Frame)
    | PublishList(k: Key)
    | NoteReceived(f: Frame)
    | Dequeue(f: Frame)
    | RunCallback
    | RegisterSlot(id: Id)
    | DropSlot(id: Id)

  function Init(cfg: Config): State {
    State(map k | k in cfg.messages :: Sending(Idle, [], 0, NoUpdate, None), {},
          Receiver(map[], {}, [], {}, []), map[])
  }

  /** The record a reply frame is addressed to. */
  function ReplyKey(f: Frame): Key {
    Key(f.port, f.id)
  }

  predicate Enabled(cfg: Config, s: State, st: Step) {
    && ValidConfig(cfg)
    && s.senders.Keys == cfg.messages.Keys
    && match st
       case SendWhole(k) => k in s.senders && s.senders[k].phase.Idle? && !Chunked(cfg, cfg.messages[k])
       case BeginChunks(k) => k in s.senders && s.senders[k].phase.Idle? && Chunked(cfg, cfg.messages[k])
       case SendNext(k) => k in s.senders && s.senders[k].phase.Chunking?
       case Poll(k) => k in s.senders && s.senders[k].phase.Polling?
       case Observe(k) => k in s.senders && s.senders[k].phase.Polling? && !s.senders[k].updated.NoUpdate?
       case Clear(k) => k in s.senders && s.senders[k].phase.Seen?
       case Resend(k) => k in s.senders && s.senders[k].phase.Walking?
                         && s.senders[k].phase.at < s.senders[k].size <= |s.senders[k].lost|
       case EndWalk(k) => k in s.senders && s.senders[k].phase.Walking?
                          && s.senders[k].phase.at >= s.senders[k].size
       case CopyList(f) => f in s.net && f.LostResponse?
                           && (ReplyKey(f) in s.senders ==> s.senders[ReplyKey(f)].staged.None?)
       case PublishList(k) => k in s.senders && s.senders[k].staged.Some?
       case NoteReceived(f) => f in s.net && f.Received?
       case Dequeue(f) => f in s.net && (f.Data? || f.LostRequest?) && Min(f.mtu, cfg.mtu) > HEADER
       case RunCallback => s.recv.queue != []
       case RegisterSlot(id) => true
       case DropSlot(id) => true
  }

  /** One chunk of the first pass is out. */
  function AfterNext(cfg: Config, k: Key, x: Sending): Sending
    requires ValidConfig(cfg) && k in cfg.messages && x.phase.Chunking?
  {
    var m, i := cfg.messages[k], x.phase.next;
    var c := SendChunk(cfg, m);
    x.(phase := if i * c + c >= |m.payload| then Polling else Chunking(i + 1))
  }

  /** The call resets `updated` and acts on what it loaded; an update that came in between is lost. */
  function Cleared(x: Sending): Sending
    requires x.phase.Seen?
  {
    x.(updated := NoUpdate, phase := if x.phase.status.SuccessfullyReceived? then Completed else Walking(0))
  }

  function NoteFirst(first: map<Key, nat>, f: Frame): map<Key, nat>
    requires f.Data?
  {
    var key := Key(f.port, f.id);
    if key in first then first else first[key := f.index]
  }

  function Put(s: State, k: Key, x: Sending, out: set<Frame>): State {
    s.(senders := s.senders[k := x], net := s.net + out)
  }

  function Apply(cfg: Config, s: State, st: Step): State
    requires Enabled(cfg, s, st)
  {
    match st
    case SendWhole(k) => Put(s, k, s.senders[k].(phase := Sent), {WholeFrame(cfg, k)})
    case BeginChunks(k) => Put(s, k, Sending(Chunking(0), [], 0, NoUpdate, None), {})
    case SendNext(k) => Put(s, k, AfterNext(cfg, k, s.senders[k]), {ChunkFrame(cfg, k, s.senders[k].phase.next)})
    case Poll(k) => Put(s, k, s.senders[k], {LostRequest(k.port, Swap(k.id), cfg.messages[k].mtu)})
    case Observe(k) => Put(s, k, s.senders[k].(phase := Seen(s.senders[k].updated)), {})
    case Clear(k) => Put(s, k, Cleared(s.senders[k]), {})
    case Resend(k) =>
      var x := s.senders[k];
      Put(s, k, x.(phase := Walking(x.phase.at + 1)), {ChunkFrame(cfg, k, x.lost[x.phase.at])})
    case EndWalk(k) => Put(s, k, s.senders[k].(phase := Polling), {})
    case CopyList(f) =>
      var k := ReplyKey(f);
      if k !in s.senders || !Active(s.senders[k].phase) then s
      else
        var x := s.senders[k];
        var rest := if |f.lost| <= |x.lost| then x.lost[|f.lost|..] else [];
        Put(s, k, x.(lost := f.lost + rest, staged := Some(|f.lost|)), {})
    case PublishList(k) =>
      var x := s.senders[k];
      Put(s, k, if Active(x.phase) then x.(size := x.staged.value, updated := UpdatedLostChunks, staged := None)
                else x.(staged := None), {})
    case NoteReceived(f) =>
      var k := ReplyKey(f);
      if k !in s.senders || !Active(s.senders[k].phase) then s
      else Put(s, k, s.senders[k].(updated := SuccessfullyReceived), {})
    case Dequeue(f) =>
      if f.Data? then
        s.(recv := ReceiveData(s.recv, cfg.mtu, f), first := NoteFirst(s.first, f))
      else
        var reply := Reply(s.recv, cfg.mtu, f);
        if reply.Some? then s.(net := s.net + {reply.value}) else s
    case RunCallback => s.(recv := Callback(s.recv))
    case RegisterSlot(id) => s.(recv := s.recv.(slots := s.recv.slots + {id}))
    case DropSlot(id) => s.(recv := s.recv.(slots := s.recv.slots - {id}))
  }

  // ---- Runs -----------------------------------------------------------------------------------

  predicate Runs(cfg: Config, s: State, steps: seq<Step>)
    decreases |steps|
  {
    steps == [] || (Enabled(cfg, s, steps[0]) && Runs(cfg, Apply(cfg, s, steps[0]), steps[1..]))
  }

  function Exec(cfg: Config, s: State, steps: seq<Step>): State
    requires Runs(cfg, s, steps)
    decreases |steps|
  {
    if steps == [] then s else Exec(cfg, Apply(cfg, s, steps[0]), steps[1..])
  }

  /** Running one step sequence after another is running their concatenation. */
  lemma {:induction false} RunsCompose(cfg: Config, s: State, a: seq<Step>, b: seq<Step>)
    requires Runs(cfg, s, a) && Runs(cfg, Exec(cfg, s, a), b)
    ensures Runs(cfg, s, a + b)
    ensures Exec(cfg, s, a + b) == Exec(cfg, Exec(cfg, s, a), b)
    decreases |a|
  {
    if a == [] {
      assert a + b == b;
    } else {
      RunsCompose(cfg, Apply(cfg, s, a[0]), a[1..], b);
      assert (a + b)[1..] == a[1..] + b;
    }
  }
}
