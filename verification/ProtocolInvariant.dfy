/** The invariant of the transfer protocol, and its preservation by every step. */
module ProtocolInvariant {
  import opened Options
  import opened Logic
  import opened Chunks
  import opened Protocol
  import opened Reassembly

  // ---- Sending side and network ---------------------------------------------------------------

  /** Every entry ever written into the list buffer names a chunk, the published and the staged
      size stay inside the written part, and the list fits the malloc'ed buffer. */
  ghost predicate SenderOK(cfg: Config, k: Key, x: Sending)
    requires ValidConfig(cfg) && k in cfg.messages
  {
    var m := cfg.messages[k];
    var n := Count(|m.payload|, SendChunk(cfg, m));
    && (x.phase.Sent? ==> !Chunked(cfg, m))
    && (Active(x.phase) || x.phase.Completed? ==> Chunked(cfg, m))
    && (x.phase.Chunking? ==> x.phase.next < n)
    && x.size <= |x.lost|
    && (x.staged.Some? ==> x.staged.value <= |x.lost|)
    && (forall i :: 0 <= i < |x.lost| ==> x.lost[i] < n)
    && 4 * |x.lost| <= m.mtu - HEADER
  }

  ghost predicate FrameOK(cfg: Config, f: Frame)
    requires ValidConfig(cfg)
  {
    var k := if f.Data? || f.LostRequest? then Far(Key(f.port, f.id)) else ReplyKey(f);
    && k in cfg.messages
    && var m := cfg.messages[k];
    var n := Count(|m.payload|, SendChunk(cfg, m));
    match f
    case Data(_, _, _, _, _, _, i, _) =>
      if Chunked(cfg, m) then i < n && f == ChunkFrame(cfg, k, i) else f == WholeFrame(cfg, k)
    case LostRequest(_, _, mtu) => Chunked(cfg, m) && mtu == m.mtu
    case LostResponse(_, _, lost) =>
      && (forall i :: 0 <= i < |lost| ==> lost[i] < n)
      && 4 * |lost| <= SendChunk(cfg, m)
    case Received(_, _) => true
  }

  // ---- Receiving side ---------------------------------------------------------------------------

  /** The receiver holds the message as complete and has let go of its pending entry. */
  ghost predicate Settled(r: Receiver, rk: Key) {
    rk in r.history && rk !in r.pending
  }

  ghost predicate PendingOK(cfg: Config, m: Outgoing, p: Pending, first: nat)
    requires ValidConfig(cfg) && m.mtu > HEADER
  {
    var c := SendChunk(cfg, m);
    && |m.payload| > c
    && (forall j :: j in p.got ==> j < p.amount)
    && p.received == |p.got| >= 1
    && first in p.got
    && if Chunked(cfg, m) then
         p.amount == Count(|m.payload|, c) && BufferOK(m.payload, c, p.buffer, p.got, first)
       else
         p.amount == 1 && |p.buffer| == |m.payload|
  }

  ghost predicate HandedOK(cfg: Config, m: Outgoing, data: seq<Cell>, first: nat)
    requires ValidConfig(cfg) && m.mtu > HEADER
  {
    var c := SendChunk(cfg, m);
    if Chunked(cfg, m) then first < Count(|m.payload|, c) && ExactBytes(m.payload, c, data, first)
    else |m.payload| <= c && data == Cells(m.payload)
  }

  ghost predicate Known(cfg: Config, first: map<Key, nat>, rk: Key) {
    Far(rk) in cfg.messages && rk in first
  }

  ghost predicate PendingEntryOK(cfg: Config, r: Receiver, first: map<Key, nat>, rk: Key)
    requires ValidConfig(cfg) && rk in r.pending
  {
    && Known(cfg, first, rk)
    && PendingOK(cfg, cfg.messages[Far(rk)], r.pending[rk], first[rk])
    && (rk in r.history <==> Chunked(cfg, cfg.messages[Far(rk)]) && r.pending[rk].received == r.pending[rk].amount)
  }

  ghost predicate HandedEntryOK(cfg: Config, r: Receiver, first: map<Key, nat>, h: Handed)
    requires ValidConfig(cfg)
  {
    && Known(cfg, first, h.key)
    && h.key in r.history
    && HandedOK(cfg, cfg.messages[Far(h.key)], h.data, first[h.key])
  }

  ghost predicate NodeOK(cfg: Config, r: Receiver, node: Node)
    requires ValidConfig(cfg)
  {
    && Far(node.item.key) in cfg.messages
    && node.item in r.handed
    && node.pending == Chunked(cfg, cfg.messages[Far(node.item.key)])
    && (node.pending ==> node.item.key in r.pending)
  }

  ghost predicate HandedKey(r: Receiver, rk: Key) {
    exists i :: 0 <= i < |r.handed| && r.handed[i].key == rk
  }

  ghost predicate PendingTableOK(cfg: Config, r: Receiver, first: map<Key, nat>)
    requires ValidConfig(cfg)
  {
    forall rk :: rk in r.pending ==> PendingEntryOK(cfg, r, first, rk)
  }

  ghost predicate FirstOK(cfg: Config, r: Receiver, first: map<Key, nat>) {
    && (forall rk :: rk in r.history ==> Known(cfg, first, rk))
    && (forall rk :: rk in first ==> rk in r.pending || rk in r.history)
  }

  ghost predicate HandedLogOK(cfg: Config, r: Receiver, first: map<Key, nat>)
    requires ValidConfig(cfg)
  {
    && (forall i :: 0 <= i < |r.handed| ==> HandedEntryOK(cfg, r, first, r.handed[i]))
    && (forall i, j :: 0 <= i < j < |r.handed| ==> r.handed[i].key != r.handed[j].key)
  }

  ghost predicate QueueOK(cfg: Config, r: Receiver)
    requires ValidConfig(cfg)
  {
    && (forall i :: 0 <= i < |r.queue| ==> NodeOK(cfg, r, r.queue[i]))
    && (forall i, j :: 0 <= i < j < |r.queue| ==> r.queue[i].item.key != r.queue[j].item.key)
  }

  /** A chunked message leaves the pending table only by being handed on. */
  ghost predicate SettledOK(cfg: Config, r: Receiver) {
    forall rk :: Settled(r, rk) && Far(rk) in cfg.messages && Chunked(cfg, cfg.messages[Far(rk)]) ==> HandedKey(r, rk)
  }

  /** The message is sent in chunks, or fits the one frame it is sent in. */
  predicate Completable(cfg: Config, m: Outgoing) {
    Chunked(cfg, m) || |m.payload| <= SendChunk(cfg, m)
  }

  /** Only such messages are ever recorded complete. */
  ghost predicate HistoryOK(cfg: Config, r: Receiver) {
    forall rk :: rk in r.history ==> Far(rk) in cfg.messages && Completable(cfg, cfg.messages[Far(rk)])
  }

  ghost predicate RecvOK(cfg: Config, r: Receiver, first: map<Key, nat>)
    requires ValidConfig(cfg)
  {
    && Whole(PendingTableOK(cfg, r, first))
    && Whole(FirstOK(cfg, r, first))
    && Whole(HandedLogOK(cfg, r, first))
    && Whole(QueueOK(cfg, r))
    && Whole(SettledOK(cfg, r))
    && Whole(HistoryOK(cfg, r))
  }

  // ---- The invariant ----------------------------------------------------------------------------

  /** The acknowledgement has reached the sending record, or the call already acted on it. */
  predicate Acknowledged(x: Sending) {
    x.updated.SuccessfullyReceived? || x.phase == Seen(SuccessfullyReceived) || x.phase.Completed?
  }

  ghost predicate AckOK(s: State) {
    && (forall f :: f in s.net && f.Received? ==> Settled(s.recv, Far(ReplyKey(f))))
    && (forall k :: k in s.senders && Acknowledged(s.senders[k]) ==> Settled(s.recv, Far(k)))
  }

  ghost predicate SendersOK(cfg: Config, s: State)
    requires ValidConfig(cfg) && s.senders.Keys == cfg.messages.Keys
  {
    forall k :: k in s.senders ==> SenderOK(cfg, k, s.senders[k])
  }

  ghost predicate NetOK(cfg: Config, net: set<Frame>)
    requires ValidConfig(cfg)
  {
    forall f :: f in net ==> FrameOK(cfg, f)
  }

  ghost predicate Inv(cfg: Config, s: State) {
    && ValidConfig(cfg)
    && s.senders.Keys == cfg.messages.Keys
    && Whole(SendersOK(cfg, s))
    && Whole(NetOK(cfg, s.net))
    && Whole(RecvOK(cfg, s.recv, s.first))
    && Whole(AckOK(s))
  }

  lemma InitInv(cfg: Config)
    requires ValidConfig(cfg)
    ensures Inv(cfg, Init(cfg))
  {
  }

  // ---- Receiver lemmas ----------------------------------------------------------------------------

  lemma StartOK(cfg: Config, k: Key, f: Frame)
    requires ValidConfig(cfg) && f.Data? && FrameOK(cfg, f) && k == Far(Key(f.port, f.id))
    requires f.length > SendChunk(cfg, cfg.messages[k])
    ensures PendingOK(cfg, cfg.messages[k], Start(f, SendChunk(cfg, cfg.messages[k])), f.index)
    ensures Chunked(cfg, cfg.messages[k]) ==> Start(f, SendChunk(cfg, cfg.messages[k])).amount > 1
  {
    var m := cfg.messages[k];
    var c := SendChunk(cfg, m);
    if Chunked(cfg, m) {
      StartBuffer(m.payload, c, f.index);
      IndexBounds(|m.payload|, c, 0);
    }
  }

  lemma AcceptOK(cfg: Config, k: Key, p: Pending, first: nat, f: Frame)
    requires ValidConfig(cfg) && f.Data? && FrameOK(cfg, f) && k == Far(Key(f.port, f.id))
    requires PendingOK(cfg, cfg.messages[k], p, first) && f.index !in p.got
    ensures Chunked(cfg, cfg.messages[k]) && f.amount == p.amount
    ensures PendingOK(cfg, cfg.messages[k], Accept(p, f, SendChunk(cfg, cfg.messages[k])), first)
    ensures p.received < p.amount
  {
    var m := cfg.messages[k];
    var c := SendChunk(cfg, m);
    FullRange(p.got, p.amount);
    if Chunked(cfg, m) {
      AcceptBuffer(m.payload, c, p.buffer, p.got, first, f.index);
    }
  }

  lemma CompletedOK(cfg: Config, m: Outgoing, p: Pending, first: nat)
    requires ValidConfig(cfg) && m.mtu > HEADER && Chunked(cfg, m)
    requires PendingOK(cfg, m, p, first) && p.received == p.amount
    ensures HandedOK(cfg, m, p.buffer, first)
  {
    FullRange(p.got, p.amount);
    CompleteBuffer(m.payload, SendChunk(cfg, m), p.buffer, p.got, first);
  }

  /** `now` is `before` with at most the entry for `rk` added. */
  ghost predicate FirstGrows(before: map<Key, nat>, now: map<Key, nat>, rk: Key) {
    && (forall q :: q in before ==> q in now && now[q] == before[q])
    && (forall q :: q in now ==> q in before || q == rk)
  }

  /** Only what the tables say about `rk` differs. */
  ghost predicate SameElsewhere(r0: Receiver, r: Receiver, rk: Key) {
    && (forall q :: q != rk ==> (q in r.pending <==> q in r0.pending) && (q in r.history <==> q in r0.history))
    && (forall q :: q in r.pending && q != rk ==> r.pending[q] == r0.pending[q])
  }

  lemma PendingFrame(cfg: Config, r0: Receiver, first0: map<Key, nat>, r: Receiver, first: map<Key, nat>, rk: Key)
    requires ValidConfig(cfg) && PendingTableOK(cfg, r0, first0)
    requires FirstGrows(first0, first, rk) && SameElsewhere(r0, r, rk)
    requires rk in r.pending ==> PendingEntryOK(cfg, r, first, rk)
    ensures PendingTableOK(cfg, r, first)
  {
    forall q | q in r.pending ensures PendingEntryOK(cfg, r, first, q) {
      if q != rk {
        assert PendingEntryOK(cfg, r0, first0, q);
      }
    }
  }

  lemma HandedFrame(cfg: Config, r0: Receiver, first0: map<Key, nat>, r: Receiver, first: map<Key, nat>, rk: Key)
    requires ValidConfig(cfg) && HandedLogOK(cfg, r0, first0)
    requires FirstGrows(first0, first, rk) && r0.history <= r.history && r.handed == r0.handed
    ensures HandedLogOK(cfg, r, first)
  {
    forall i | 0 <= i < |r.handed| ensures HandedEntryOK(cfg, r, first, r.handed[i]) {
      assert HandedEntryOK(cfg, r0, first0, r0.handed[i]);
    }
  }

  lemma HandedAppend(cfg: Config, r: Receiver, first: map<Key, nat>, r': Receiver, h: Handed)
    requires ValidConfig(cfg) && HandedLogOK(cfg, r, first)
    requires forall i :: 0 <= i < |r.handed| ==> r.handed[i].key != h.key
    requires r'.history == r.history && r'.handed == r.handed + [h]
    requires HandedEntryOK(cfg, r', first, h)
    ensures HandedLogOK(cfg, r', first)
  {
    forall i | 0 <= i < |r'.handed| ensures HandedEntryOK(cfg, r', first, r'.handed[i]) {
      if i < |r.handed| {
        assert HandedEntryOK(cfg, r, first, r.handed[i]);
      }
    }
  }

  lemma QueueFrame(cfg: Config, r0: Receiver, r: Receiver)
    requires ValidConfig(cfg) && QueueOK(cfg, r0)
    requires r.queue == r0.queue && r0.handed <= r.handed
    requires forall i :: 0 <= i < |r0.queue| && r0.queue[i].item.key in r0.pending ==> r0.queue[i].item.key in r.pending
    ensures QueueOK(cfg, r)
  {
    forall i | 0 <= i < |r.queue| ensures NodeOK(cfg, r, r.queue[i]) {
      assert NodeOK(cfg, r0, r0.queue[i]);
      assert r0.queue[i].item in r.handed;
    }
  }

  lemma QueueAppend(cfg: Config, r: Receiver, r': Receiver, node: Node)
    requires ValidConfig(cfg) && QueueOK(cfg, r)
    requires forall i :: 0 <= i < |r.queue| ==> r.queue[i].item.key != node.item.key
    requires r'.queue == r.queue + [node] && r'.handed == r.handed + [node.item] && r'.pending == r.pending
    requires NodeOK(cfg, r', node)
    ensures QueueOK(cfg, r')
  {
    forall i | 0 <= i < |r'.queue| ensures NodeOK(cfg, r', r'.queue[i]) {
      if i < |r.queue| {
        assert NodeOK(cfg, r, r.queue[i]);
        assert r.queue[i].item in r'.handed;
      }
    }
  }

  lemma SettledFrame(cfg: Config, r0: Receiver, r: Receiver, rk: Key)
    requires SettledOK(cfg, r0) && SameElsewhere(r0, r, rk) && r0.handed <= r.handed
    requires Settled(r, rk) && Far(rk) in cfg.messages && Chunked(cfg, cfg.messages[Far(rk)]) ==> HandedKey(r, rk)
    ensures SettledOK(cfg, r)
  {
    forall q | Settled(r, q) && Far(q) in cfg.messages && Chunked(cfg, cfg.messages[Far(q)])
      ensures HandedKey(r, q)
    {
      if q != rk {
        assert Settled(r0, q);
        var i :| 0 <= i < |r0.handed| && r0.handed[i].key == q;
        assert r.handed[i].key == q;
      }
    }
  }

  /** A key that was never recorded complete is neither in the log nor on the queue. */
  lemma NewKey(cfg: Config, r: Receiver, first: map<Key, nat>, rk: Key)
    requires ValidConfig(cfg) && RecvOK(cfg, r, first) && rk !in r.history
    ensures forall i :: 0 <= i < |r.handed| ==> r.handed[i].key != rk
    ensures forall i :: 0 <= i < |r.queue| ==> r.queue[i].item.key != rk
  {
    forall i | 0 <= i < |r.handed| ensures r.handed[i].key != rk {
      assert HandedEntryOK(cfg, r, first, r.handed[i]);
    }
    forall i | 0 <= i < |r.queue| ensures r.queue[i].item.key != rk {
      assert NodeOK(cfg, r, r.queue[i]);
    }
  }

  /** Handing a completed message on keeps the tables right. `r` is `r0` with the completion of
      h.key recorded. */
  lemma HandOnOK(cfg: Config, r0: Receiver, first0: map<Key, nat>, r: Receiver, first: map<Key, nat>,
                 h: Handed, kind: Kind, pending: bool)
    requires ValidConfig(cfg) && RecvOK(cfg, r0, first0) && FirstGrows(first0, first, h.key)
    requires Known(cfg, first, h.key)
    requires h.key !in r0.history && r.history == r0.history + {h.key}
    requires r.queue == r0.queue && r.handed == r0.handed
    requires SameElsewhere(r0, r, h.key)
    requires pending == Chunked(cfg, cfg.messages[Far(h.key)]) == (h.key in r.pending)
    requires h.key in r.pending ==> PendingEntryOK(cfg, r, first, h.key)
    requires HandedOK(cfg, cfg.messages[Far(h.key)], h.data, first[h.key])
    ensures RecvOK(cfg, HandOn(r, h, kind, pending), first)
  {
    var r' := HandOn(r, h, kind, pending);
    NewKey(cfg, r0, first0, h.key);
    PendingFrame(cfg, r0, first0, r', first, h.key);
    HandedFrame(cfg, r0, first0, r, first, h.key);
    HandOnLog(cfg, r, first, h, kind, pending);
    QueueFrame(cfg, r0, r);
    HandOnQueue(cfg, r, h, kind, pending);
    HandOnSettled(cfg, r0, r, h, kind, pending);
    FirstFrame(cfg, r0, first0, r', first, h.key);
    HistoryFrame(cfg, r0, r', h.key);
  }

  lemma HandOnSettled(cfg: Config, r0: Receiver, r: Receiver, h: Handed, kind: Kind, pending: bool)
    requires SettledOK(cfg, r0) && SameElsewhere(r0, r, h.key) && r.handed == r0.handed
    requires Far(h.key) in cfg.messages && pending == Chunked(cfg, cfg.messages[Far(h.key)]) == (h.key in r.pending)
    ensures SettledOK(cfg, HandOn(r, h, kind, pending))
  {
    var r' := HandOn(r, h, kind, pending);
    if r'.handed == r.handed + [h] {
      assert r'.handed[|r.handed|].key == h.key;
    }
    SettledFrame(cfg, r0, r', h.key);
  }

  lemma FirstFrame(cfg: Config, r0: Receiver, first0: map<Key, nat>, r: Receiver, first: map<Key, nat>, rk: Key)
    requires FirstOK(cfg, r0, first0) && FirstGrows(first0, first, rk) && SameElsewhere(r0, r, rk)
    requires Known(cfg, first, rk) && (rk in r.pending || rk in r.history)
    ensures FirstOK(cfg, r, first)
  {
  }

  lemma HistoryFrame(cfg: Config, r0: Receiver, r: Receiver, rk: Key)
    requires HistoryOK(cfg, r0) && r.history <= r0.history + {rk}
    requires Far(rk) in cfg.messages && Completable(cfg, cfg.messages[Far(rk)])
    ensures HistoryOK(cfg, r)
  {
  }

  lemma HandOnLog(cfg: Config, r: Receiver, first: map<Key, nat>, h: Handed, kind: Kind, pending: bool)
    requires ValidConfig(cfg) && HandedLogOK(cfg, r, first) && HandedEntryOK(cfg, r, first, h)
    requires forall i :: 0 <= i < |r.handed| ==> r.handed[i].key != h.key
    ensures HandedLogOK(cfg, HandOn(r, h, kind, pending), first)
    ensures HandOn(r, h, kind, pending).handed != r.handed ==> HandedKey(HandOn(r, h, kind, pending), h.key)
  {
    var r' := HandOn(r, h, kind, pending);
    if r'.handed == r.handed + [h] {
      HandedAppend(cfg, r, first, r', h);
      assert r'.handed[|r.handed|].key == h.key;
    }
  }

  lemma HandOnQueue(cfg: Config, r: Receiver, h: Handed, kind: Kind, pending: bool)
    requires ValidConfig(cfg) && QueueOK(cfg, r) && Far(h.key) in cfg.messages
    requires pending == Chunked(cfg, cfg.messages[Far(h.key)]) == (h.key in r.pending)
    requires forall i :: 0 <= i < |r.queue| ==> r.queue[i].item.key != h.key
    ensures QueueOK(cfg, HandOn(r, h, kind, pending))
  {
    var r' := HandOn(r, h, kind, pending);
    if r'.queue == r.queue {
      QueueFrame(cfg, r, r');
    } else {
      QueueAppend(cfg, r, r', Node(h, pending));
    }
  }

  /** Creating or updating the pending entry of an unfinished message keeps the tables right. */
  lemma PutPendingOK(cfg: Config, r: Receiver, first0: map<Key, nat>, first: map<Key, nat>, rk: Key, p: Pending)
    requires ValidConfig(cfg) && RecvOK(cfg, r, first0) && FirstGrows(first0, first, rk)
    requires rk !in r.history && Known(cfg, first, rk)
    requires PendingOK(cfg, cfg.messages[Far(rk)], p, first[rk])
    requires Chunked(cfg, cfg.messages[Far(rk)]) ==> p.received != p.amount
    ensures RecvOK(cfg, r.(pending := r.pending[rk := p]), first)
  {
    var r' := r.(pending := r.pending[rk := p]);
    PendingFrame(cfg, r, first0, r', first, rk);
    HandedFrame(cfg, r, first0, r', first, rk);
    QueueFrame(cfg, r, r');
    SettledFrame(cfg, r, r', rk);
  }

  /** Recording the last missing chunk and handing the message on keeps the tables right. */
  lemma FinishOK(cfg: Config, r: Receiver, first: map<Key, nat>, rk: Key, p: Pending, kind: Kind)
    requires ValidConfig(cfg) && RecvOK(cfg, r, first)
    requires rk !in r.history && Known(cfg, first, rk) && Chunked(cfg, cfg.messages[Far(rk)])
    requires PendingOK(cfg, cfg.messages[Far(rk)], p, first[rk]) && p.received == p.amount
    ensures RecvOK(cfg, HandOn(r.(pending := r.pending[rk := p], history := r.history + {rk}),
                               Handed(rk, p.buffer), kind, true), first)
  {
    var r1 := r.(pending := r.pending[rk := p], history := r.history + {rk});
    CompletedOK(cfg, cfg.messages[Far(rk)], p, first[rk]);
    assert PendingEntryOK(cfg, r1, first, rk);
    HandOnOK(cfg, r, first, r1, first, Handed(rk, p.buffer), kind, true);
  }

  /** What one dequeued data frame does to the tables. */
  lemma ReceiveDataOK(cfg: Config, r: Receiver, first: map<Key, nat>, f: Frame)
    requires ValidConfig(cfg) && RecvOK(cfg, r, first) && f.Data? && FrameOK(cfg, f)
    ensures RecvOK(cfg, ReceiveData(r, cfg.mtu, f), NoteFirst(first, f))
  {
    var rk := Key(f.port, f.id);
    var m := cfg.messages[Far(rk)];
    var c := SendChunk(cfg, m);
    assert Min(f.mtu, cfg.mtu) - HEADER == c;
    if rk in r.history {
    } else if rk !in r.pending {
      assert rk !in first;
      var first' := first[rk := f.index];
      if f.length > c {
        StartOK(cfg, Far(rk), f);
        PutPendingOK(cfg, r, first, first', rk, Start(f, c));
      } else {
        var data := ReadFrame(f.payload, f.length);
        assert data == Cells(m.payload);
        HandOnOK(cfg, r, first, r.(history := r.history + {rk}), first', Handed(rk, data), f.kind, false);
      }
    } else if f.index !in r.pending[rk].got {
      assert PendingEntryOK(cfg, r, first, rk);
      AcceptOK(cfg, Far(rk), r.pending[rk], first[rk], f);
      var p' := Accept(r.pending[rk], f, c);
      if p'.received == f.amount {
        FinishOK(cfg, r, first, rk, p', f.kind);
      } else {
        PutPendingOK(cfg, r, first, first, rk, p');
      }
    }
  }

  /** The tables only ever gain: history and log grow, and a settled message stays settled. */
  lemma ReceiveDataGrows(r: Receiver, mtu: U16, f: Frame)
    requires f.Data? && Min(f.mtu, mtu) > HEADER
    ensures var r' := ReceiveData(r, mtu, f);
            && r.history <= r'.history && r.handed <= r'.handed
            && (forall q :: Settled(r, q) ==> Settled(r', q))
  {
  }

  lemma CallbackOK(cfg: Config, r: Receiver, first: map<Key, nat>)
    requires ValidConfig(cfg) && RecvOK(cfg, r, first) && r.queue != []
    ensures RecvOK(cfg, Callback(r), first)
    ensures forall q :: Settled(r, q) ==> Settled(Callback(r), q)
  {
    var r' := Callback(r);
    var node := r.queue[0];
    var rk := node.item.key;
    assert NodeOK(cfg, r, node);
    var i :| 0 <= i < |r.handed| && r.handed[i] == node.item;
    assert HandedEntryOK(cfg, r, first, r.handed[i]);
    assert r'.handed[i].key == rk;
    PendingFrame(cfg, r, first, r', first, rk);
    HandedFrame(cfg, r, first, r', first, rk);
    CallbackQueue(cfg, r);
    SettledFrame(cfg, r, r', rk);
    FirstFrame(cfg, r, first, r', first, rk);
  }

  lemma CallbackQueue(cfg: Config, r: Receiver)
    requires ValidConfig(cfg) && QueueOK(cfg, r) && r.queue != []
    ensures QueueOK(cfg, Callback(r))
  {
    var r1 := r.(queue := r.queue[1..]);
    forall i | 0 <= i < |r1.queue| ensures NodeOK(cfg, r1, r1.queue[i]) {
      assert NodeOK(cfg, r, r.queue[i + 1]);
    }
    QueueFrame(cfg, r1, Callback(r));
  }

  lemma SlotsOK(cfg: Config, r: Receiver, first: map<Key, nat>, slots: set<Id>)
    requires ValidConfig(cfg) && RecvOK(cfg, r, first)
    ensures RecvOK(cfg, r.(slots := slots), first)
  {
    var r' := r.(slots := slots);
    var rk := Key(0, Id(0, 0));
    assert rk in r'.pending ==> PendingEntryOK(cfg, r, first, rk);
    PendingFrame(cfg, r, first, r', first, rk);
    HandedFrame(cfg, r, first, r', first, rk);
    QueueFrame(cfg, r, r');
    assert Settled(r', rk) ==> Settled(r, rk);
    assert HandedKey(r, rk) ==> HandedKey(r', rk);
    SettledFrame(cfg, r, r', rk);
  }

  // ---- Steps ----------------------------------------------------------------------------------------

  /** Every entry of a lost list names a chunk that is missing and inside the message. */
  lemma {:induction false} MissingBelow(got: set<nat>, n: nat)
    ensures forall i :: 0 <= i < |Missing(got, n)| ==> Missing(got, n)[i] < n && Missing(got, n)[i] !in got
  {
    if n > 0 {
      MissingBelow(got, n - 1);
    }
  }

  lemma ReplyOK(cfg: Config, s: State, f: Frame)
    requires Inv(cfg, s) && f in s.net && f.LostRequest?
    ensures var reply := Reply(s.recv, cfg.mtu, f);
            reply.Some? ==>
              && FrameOK(cfg, reply.value)
              && (reply.value.Received? ==> Settled(s.recv, Far(ReplyKey(reply.value))))
  {
    assert FrameOK(cfg, f);
    var rk := Key(f.port, f.id);
    if rk in s.recv.pending {
      assert PendingEntryOK(cfg, s.recv, s.first, rk);
      var p := s.recv.pending[rk];
      MissingBelow(p.got, p.amount);
    }
  }

  /** Steps of the sending side that change one record and add one frame. */
  lemma PutInv(cfg: Config, s: State, k: Key, x: Sending, out: set<Frame>)
    requires Inv(cfg, s) && k in s.senders && SenderOK(cfg, k, x)
    requires forall f :: f in out ==> FrameOK(cfg, f) && !f.Received?
    requires Acknowledged(x) ==> Settled(s.recv, Far(k))
    ensures Inv(cfg, Put(s, k, x, out))
  {
  }

  lemma ChunkFrameOK(cfg: Config, k: Key, i: nat)
    requires ValidConfig(cfg) && k in cfg.messages && Chunked(cfg, cfg.messages[k])
    requires i < Count(|cfg.messages[k].payload|, SendChunk(cfg, cfg.messages[k]))
    ensures FrameOK(cfg, ChunkFrame(cfg, k, i))
  {
    var f := ChunkFrame(cfg, k, i);
    assert Far(Key(f.port, f.id)) == k;
  }

  lemma WholeFrameOK(cfg: Config, k: Key)
    requires ValidConfig(cfg) && k in cfg.messages && !Chunked(cfg, cfg.messages[k])
    ensures FrameOK(cfg, WholeFrame(cfg, k))
  {
    var f := WholeFrame(cfg, k);
    assert Far(Key(f.port, f.id)) == k;
  }

  lemma NextOK(cfg: Config, k: Key, x: Sending)
    requires ValidConfig(cfg) && k in cfg.messages && x.phase.Chunking? && SenderOK(cfg, k, x)
    ensures SenderOK(cfg, k, AfterNext(cfg, k, x))
  {
    var m := cfg.messages[k];
    IndexBounds(|m.payload|, SendChunk(cfg, m), x.phase.next);
  }

  lemma SendNextInv(cfg: Config, s: State, k: Key)
    requires Inv(cfg, s) && Enabled(cfg, s, SendNext(k))
    ensures Inv(cfg, Apply(cfg, s, SendNext(k)))
  {
    var x := s.senders[k];
    NextOK(cfg, k, x);
    ChunkFrameOK(cfg, k, x.phase.next);
    PutInv(cfg, s, k, AfterNext(cfg, k, x), {ChunkFrame(cfg, k, x.phase.next)});
    assert Apply(cfg, s, SendNext(k)) == Put(s, k, AfterNext(cfg, k, x), {ChunkFrame(cfg, k, x.phase.next)});
  }

  lemma ResendInv(cfg: Config, s: State, k: Key)
    requires Inv(cfg, s) && Enabled(cfg, s, Resend(k))
    ensures Inv(cfg, Apply(cfg, s, Resend(k)))
  {
    var x := s.senders[k];
    assert SenderOK(cfg, k, x);
    ChunkFrameOK(cfg, k, x.lost[x.phase.at]);
    WalkOK(cfg, k, x);
    ResendPuts(cfg, s, k);
    PutInv(cfg, s, k, x.(phase := Walking(x.phase.at + 1)), {ChunkFrame(cfg, k, x.lost[x.phase.at])});
  }

  lemma WalkOK(cfg: Config, k: Key, x: Sending)
    requires ValidConfig(cfg) && k in cfg.messages && SenderOK(cfg, k, x) && x.phase.Walking? && x.phase.at < x.size <= |x.lost|
    ensures SenderOK(cfg, k, x.(phase := Walking(x.phase.at + 1)))
  {
  }

  lemma ResendPuts(cfg: Config, s: State, k: Key)
    requires Enabled(cfg, s, Resend(k))
    ensures var x := s.senders[k];
            Apply(cfg, s, Resend(k)) == Put(s, k, x.(phase := Walking(x.phase.at + 1)), {ChunkFrame(cfg, k, x.lost[x.phase.at])})
  {
  }

  /** Steps of the sending call that emit the only frame of a message, or a poll. */
  lemma OtherFrameStepInv(cfg: Config, s: State, st: Step)
    requires Inv(cfg, s) && Enabled(cfg, s, st)
    requires st.SendWhole? || st.Poll?
    ensures Inv(cfg, Apply(cfg, s, st))
  {
    var k := st.k;
    var x := s.senders[k];
    assert SenderOK(cfg, k, x);
    if st.SendWhole? {
      WholeFrameOK(cfg, k);
      PutInv(cfg, s, k, x.(phase := Sent), {WholeFrame(cfg, k)});
    } else {
      var f := LostRequest(k.port, Swap(k.id), cfg.messages[k].mtu);
      assert Far(Key(f.port, f.id)) == k;
      PutInv(cfg, s, k, x, {f});
    }
  }

  /** Steps of the sending call that only move it on. */
  lemma BeginInv(cfg: Config, s: State, k: Key)
    requires Inv(cfg, s) && Enabled(cfg, s, BeginChunks(k))
    ensures Inv(cfg, Apply(cfg, s, BeginChunks(k)))
  {
    var m := cfg.messages[k];
    IndexBounds(|m.payload|, SendChunk(cfg, m), 0);
    PutInv(cfg, s, k, Sending(Chunking(0), [], 0, NoUpdate, None), {});
  }

  lemma ObserveInv(cfg: Config, s: State, k: Key)
    requires Inv(cfg, s) && Enabled(cfg, s, Observe(k))
    ensures Inv(cfg, Apply(cfg, s, Observe(k)))
  {
    var x := s.senders[k];
    assert SenderOK(cfg, k, x);
    PutInv(cfg, s, k, x.(phase := Seen(x.updated)), {});
  }

  lemma ClearInv(cfg: Config, s: State, k: Key)
    requires Inv(cfg, s) && Enabled(cfg, s, Clear(k))
    ensures Inv(cfg, Apply(cfg, s, Clear(k)))
  {
    assert SenderOK(cfg, k, s.senders[k]);
    PutInv(cfg, s, k, Cleared(s.senders[k]), {});
  }

  lemma EndWalkInv(cfg: Config, s: State, k: Key)
    requires Inv(cfg, s) && Enabled(cfg, s, EndWalk(k))
    ensures Inv(cfg, Apply(cfg, s, EndWalk(k)))
  {
    assert SenderOK(cfg, k, s.senders[k]);
    PutInv(cfg, s, k, s.senders[k].(phase := Polling), {});
  }

  /** Steps of the thread that serves the sending endpoint's own queue. */
  lemma CopyListInv(cfg: Config, s: State, f: Frame)
    requires Inv(cfg, s) && Enabled(cfg, s, CopyList(f))
    ensures Inv(cfg, Apply(cfg, s, CopyList(f)))
  {
    var k := ReplyKey(f);
    if k in s.senders && Active(s.senders[k].phase) {
      var x := s.senders[k];
      assert FrameOK(cfg, f) && SenderOK(cfg, k, x);
      var rest := if |f.lost| <= |x.lost| then x.lost[|f.lost|..] else [];
      PutInv(cfg, s, k, x.(lost := f.lost + rest, staged := Some(|f.lost|)), {});
    }
  }

  lemma PublishListInv(cfg: Config, s: State, k: Key)
    requires Inv(cfg, s) && Enabled(cfg, s, PublishList(k))
    ensures Inv(cfg, Apply(cfg, s, PublishList(k)))
  {
    var x := s.senders[k];
    assert SenderOK(cfg, k, x);
    PutInv(cfg, s, k, if Active(x.phase) then x.(size := x.staged.value, updated := UpdatedLostChunks, staged := None)
                      else x.(staged := None), {});
  }

  lemma NoteReceivedInv(cfg: Config, s: State, f: Frame)
    requires Inv(cfg, s) && Enabled(cfg, s, NoteReceived(f))
    ensures Inv(cfg, Apply(cfg, s, NoteReceived(f)))
  {
    var k := ReplyKey(f);
    if k in s.senders && Active(s.senders[k].phase) {
      assert FrameOK(cfg, f) && SenderOK(cfg, k, s.senders[k]);
      PutInv(cfg, s, k, s.senders[k].(updated := SuccessfullyReceived), {});
    }
  }

  /** Steps of the receiver that change its tables: what is settled must stay so. */
  lemma RecvInv(cfg: Config, s: State, r: Receiver, first: map<Key, nat>)
    requires Inv(cfg, s) && RecvOK(cfg, r, first) && forall q :: Settled(s.recv, q) ==> Settled(r, q)
    ensures Inv(cfg, s.(recv := r, first := first))
  {
  }

  lemma DequeueDataInv(cfg: Config, s: State, f: Frame)
    requires Inv(cfg, s) && Enabled(cfg, s, Dequeue(f)) && f.Data?
    ensures Inv(cfg, Apply(cfg, s, Dequeue(f)))
  {
    assert FrameOK(cfg, f);
    ReceiveDataOK(cfg, s.recv, s.first, f);
    ReceiveDataGrows(s.recv, cfg.mtu, f);
    RecvInv(cfg, s, ReceiveData(s.recv, cfg.mtu, f), NoteFirst(s.first, f));
  }

  lemma DequeuePollInv(cfg: Config, s: State, f: Frame)
    requires Inv(cfg, s) && Enabled(cfg, s, Dequeue(f)) && f.LostRequest?
    ensures Inv(cfg, Apply(cfg, s, Dequeue(f)))
  {
    ReplyOK(cfg, s, f);
  }

  lemma CallbackInv(cfg: Config, s: State)
    requires Inv(cfg, s) && Enabled(cfg, s, RunCallback)
    ensures Inv(cfg, Apply(cfg, s, RunCallback))
  {
    CallbackOK(cfg, s.recv, s.first);
    RecvInv(cfg, s, Callback(s.recv), s.first);
  }

  lemma SlotsInv(cfg: Config, s: State, slots: set<Id>)
    requires Inv(cfg, s)
    ensures Inv(cfg, s.(recv := s.recv.(slots := slots)))
  {
    SlotsOK(cfg, s.recv, s.first, slots);
    RecvInv(cfg, s, s.recv.(slots := slots), s.first);
  }

  lemma StepInv(cfg: Config, s: State, st: Step)
    requires Inv(cfg, s) && Enabled(cfg, s, st)
    ensures Inv(cfg, Apply(cfg, s, st))
  {
    if st.CopyList? || st.PublishList? || st.NoteReceived? {
      ReplyStepInv(cfg, s, st);
    } else if st.Dequeue? || st.RunCallback? || st.RegisterSlot? || st.DropSlot? {
      ReceiverStepInv(cfg, s, st);
    } else {
      CallStepInv(cfg, s, st);
    }
  }

  lemma ReplyStepInv(cfg: Config, s: State, st: Step)
    requires Inv(cfg, s) && Enabled(cfg, s, st) && (st.CopyList? || st.PublishList? || st.NoteReceived?)
    ensures Whole(Inv(cfg, Apply(cfg, s, st)))
  {
    match st
    case CopyList(f) => CopyListInv(cfg, s, f);
    case PublishList(k) => PublishListInv(cfg, s, k);
    case NoteReceived(f) => NoteReceivedInv(cfg, s, f);
  }

  lemma ReceiverStepInv(cfg: Config, s: State, st: Step)
    requires Inv(cfg, s) && Enabled(cfg, s, st) && (st.Dequeue? || st.RunCallback? || st.RegisterSlot? || st.DropSlot?)
    ensures Whole(Inv(cfg, Apply(cfg, s, st)))
  {
    match st
    case Dequeue(f) => if f.Data? { DequeueDataInv(cfg, s, f); } else { DequeuePollInv(cfg, s, f); }
    case RunCallback => CallbackInv(cfg, s);
    case RegisterSlot(id) => SlotsInv(cfg, s, s.recv.slots + {id});
    case DropSlot(id) => SlotsInv(cfg, s, s.recv.slots - {id});
  }

  /** The steps of a sending call. */
  lemma CallStepInv(cfg: Config, s: State, st: Step)
    requires Inv(cfg, s) && Enabled(cfg, s, st)
    requires st.SendWhole? || st.BeginChunks? || st.SendNext? || st.Poll? || st.Observe? || st.Clear? || st.Resend? || st.EndWalk?
    ensures Whole(Inv(cfg, Apply(cfg, s, st)))
  {
    match st
    case SendWhole(_) => OtherFrameStepInv(cfg, s, st);
    case BeginChunks(k) => BeginInv(cfg, s, k);
    case SendNext(k) => SendNextInv(cfg, s, k);
    case Poll(_) => OtherFrameStepInv(cfg, s, st);
    case Observe(k) => ObserveInv(cfg, s, k);
    case Clear(k) => ClearInv(cfg, s, k);
    case Resend(k) => ResendInv(cfg, s, k);
    case EndWalk(k) => EndWalkInv(cfg, s, k);
  }

  lemma {:induction false} ExecInv(cfg: Config, s: State, steps: seq<Step>)
    requires Inv(cfg, s) && Runs(cfg, s, steps)
    ensures Inv(cfg, Exec(cfg, s, steps))
    decreases |steps|
  {
    if steps != [] {
      StepInv(cfg, s, steps[0]);
      ExecInv(cfg, Apply(cfg, s, steps[0]), steps[1..]);
    }
  }
}
