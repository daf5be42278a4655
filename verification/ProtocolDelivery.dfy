/** What happens to a completed message, which messages can arrive, and in what shape. */
module ProtocolDelivery {
  import opened Chunks
  import opened Protocol
  import opened ProtocolInvariant
  import opened ProtocolSafety
  import opened ProtocolProgress

  // ---- Completed messages wait on the callback queue ---------------------------------------------------

  ghost predicate OnQueue(r: Receiver, rk: Key) {
    exists i :: 0 <= i < |r.queue| && r.queue[i].item.key == rk && r.queue[i].pending
  }

  /** A completed message that is not a response keeps its pending entry only while it is queued. */
  ghost predicate WaitingOK(cfg: Config, r: Receiver) {
    forall rk :: Waits(cfg, r, rk) ==> OnQueue(r, rk)
  }

  ghost predicate Waits(cfg: Config, r: Receiver, rk: Key) {
    rk in r.pending && rk in r.history && Far(rk) in cfg.messages && !cfg.messages[Far(rk)].kind.Response?
  }

  lemma WaitingFrame(cfg: Config, r: Receiver, r': Receiver, rk: Key)
    requires WaitingOK(cfg, r) && SameElsewhere(r, r', rk) && r.queue <= r'.queue
    requires Waits(cfg, r', rk) ==> OnQueue(r', rk)
    ensures WaitingOK(cfg, r')
  {
    forall q | Waits(cfg, r', q) ensures OnQueue(r', q) {
      if q != rk {
        assert Waits(cfg, r, q);
        var i :| 0 <= i < |r.queue| && r.queue[i].item.key == q && r.queue[i].pending;
        assert r'.queue[i] == r.queue[i];
      }
    }
  }

  lemma WaitingData(cfg: Config, r: Receiver, f: Frame)
    requires ValidConfig(cfg) && WaitingOK(cfg, r) && f.Data? && FrameOK(cfg, f)
    ensures WaitingOK(cfg, ReceiveData(r, cfg.mtu, f))
  {
    var rk := Key(f.port, f.id);
    var r' := ReceiveData(r, cfg.mtu, f);
    if r' != r {
      if rk in r'.pending && rk in r'.history && !f.kind.Response? {
        assert r'.queue[|r.queue|].item.key == rk;
      }
      WaitingFrame(cfg, r, r', rk);
    }
  }

  lemma WaitingCallback(cfg: Config, r: Receiver)
    requires WaitingOK(cfg, r) && r.queue != []
    ensures WaitingOK(cfg, Callback(r))
  {
    var r' := Callback(r);
    forall q | Waits(cfg, r', q) ensures OnQueue(r', q) {
      assert Waits(cfg, r, q);
      var i :| 0 <= i < |r.queue| && r.queue[i].item.key == q && r.queue[i].pending;
      assert i > 0;
      assert r'.queue[i - 1] == r.queue[i];
    }
  }

  lemma WaitingStep(cfg: Config, s: State, st: Step)
    requires Enabled(cfg, s, st) && WaitingOK(cfg, s.recv) && (st.Dequeue? ==> FrameOK(cfg, st.f))
    ensures WaitingOK(cfg, Apply(cfg, s, st).recv)
  {
    var r, r' := s.recv, Apply(cfg, s, st).recv;
    if st.Dequeue? && st.f.Data? {
      WaitingData(cfg, r, st.f);
    } else if st.RunCallback? {
      WaitingCallback(cfg, r);
    } else {
      OtherSteps(cfg, s, st);
      WaitingKept(cfg, r, r');
    }
  }

  lemma WaitingKept(cfg: Config, r: Receiver, r': Receiver)
    requires WaitingOK(cfg, r) && r'.pending == r.pending && r'.history == r.history && r'.queue == r.queue
    ensures WaitingOK(cfg, r')
  {
    forall q | Waits(cfg, r', q) ensures OnQueue(r', q) {
      assert Waits(cfg, r, q);
    }
  }

  lemma {:induction false} WaitingExec(cfg: Config, s: State, steps: seq<Step>)
    requires Inv(cfg, s) && Runs(cfg, s, steps) && WaitingOK(cfg, s.recv)
    ensures WaitingOK(cfg, Exec(cfg, s, steps).recv)
    decreases |steps|
  {
    if steps != [] {
      WaitingStep(cfg, s, steps[0]);
      StepInv(cfg, s, steps[0]);
      WaitingExec(cfg, Apply(cfg, s, steps[0]), steps[1..]);
    }
  }

  /** A completed message that is no response was handed on; a response that was handed on has left the
      pending table. */
  ghost predicate TakenOK(cfg: Config, r: Receiver) {
    forall rk :: rk in r.history && Far(rk) in cfg.messages ==> Taken(cfg, r, rk)
  }

  ghost predicate Taken(cfg: Config, r: Receiver, rk: Key)
    requires Far(rk) in cfg.messages
  {
    if cfg.messages[Far(rk)].kind.Response? then HandedKey(r, rk) ==> rk !in r.pending else HandedKey(r, rk)
  }

  lemma TakenData(cfg: Config, s: State, f: Frame)
    requires Inv(cfg, s) && TakenOK(cfg, s.recv) && f.Data? && FrameOK(cfg, f)
    ensures TakenOK(cfg, ReceiveData(s.recv, cfg.mtu, f))
  {
    var r, r' := s.recv, ReceiveData(s.recv, cfg.mtu, f);
    var rk := Key(f.port, f.id);
    if rk !in r.history {
      NotHanded(cfg, s, rk);
      CompletionHands(r, cfg.mtu, f);
      forall q | q in r'.history && Far(q) in cfg.messages ensures Taken(cfg, r', q) {
        if q != rk {
          assert Taken(cfg, r, q);
          HandedElsewhere(r, cfg.mtu, f, q);
        }
      }
    }
  }

  /** A data frame affects no other message. */
  lemma HandedElsewhere(r: Receiver, mtu: U16, f: Frame, q: Key)
    requires f.Data? && Min(f.mtu, mtu) > HEADER && q != Key(f.port, f.id)
    ensures var r' := ReceiveData(r, mtu, f);
            (HandedKey(r', q) <==> HandedKey(r, q)) && (q in r'.pending <==> q in r.pending)
  {
    var r' := ReceiveData(r, mtu, f);
    ReceiveDataHands(r, mtu, f);
    assert forall i :: 0 <= i < |r.handed| ==> r'.handed[i] == r.handed[i];
  }

  lemma TakenStep(cfg: Config, s: State, st: Step)
    requires Inv(cfg, s) && Enabled(cfg, s, st) && TakenOK(cfg, s.recv)
    ensures TakenOK(cfg, Apply(cfg, s, st).recv)
  {
    if st.Dequeue? && st.f.Data? {
      assert FrameOK(cfg, st.f);
      TakenData(cfg, s, st.f);
    } else {
      OtherSteps(cfg, s, st);
      TakenKept(cfg, s.recv, Apply(cfg, s, st).recv);
    }
  }

  lemma TakenKept(cfg: Config, r: Receiver, r': Receiver)
    requires TakenOK(cfg, r) && r'.handed == r.handed && r'.history == r.history && r'.pending.Keys <= r.pending.Keys
    ensures TakenOK(cfg, r')
  {
    forall q | q in r'.history && Far(q) in cfg.messages ensures Taken(cfg, r', q) {
      assert Taken(cfg, r, q);
    }
  }

  lemma {:induction false} TakenExec(cfg: Config, s: State, steps: seq<Step>)
    requires Inv(cfg, s) && Runs(cfg, s, steps) && TakenOK(cfg, s.recv)
    ensures TakenOK(cfg, Exec(cfg, s, steps).recv)
    decreases |steps|
  {
    if steps != [] {
      TakenStep(cfg, s, steps[0]);
      StepInv(cfg, s, steps[0]);
      TakenExec(cfg, Apply(cfg, s, steps[0]), steps[1..]);
    }
  }

  // ---- From completion to the acknowledgement ------------------------------------------------------------

  function AckSteps(cfg: Config, k: Key): seq<Step>
    requires k in cfg.messages
  {
    [Poll(k)] + [Dequeue(PollFrame(cfg, k))] + [NoteReceived(Received(k.port, k.id))] + [Observe(k)]
    + [Clear(k)]
  }

  /** A settled message is acknowledged at the next poll, and the call returns. */
  lemma AckRuns(cfg: Config, s: State, k: Key) returns (s': State)
    requires ValidConfig(cfg) && s.senders.Keys == cfg.messages.Keys && k in cfg.messages
    requires s.senders[k].phase.Polling? && Settled(s.recv, Far(k))
    ensures Leads(cfg, s, AckSteps(cfg, k), s')
    ensures k in s'.senders && s'.senders[k].phase.Completed? && s'.recv == s.recv && s'.first == s.first
  {
    var x := s.senders[k];
    var req, ack := PollFrame(cfg, k), Received(k.port, k.id);
    assert Far(k) == Key(req.port, req.id) && Swap(req.id) == k.id;
    var s1 := Put(s, k, x, {req});
    var s2 := s1.(net := s1.net + {ack});
    var s3 := Put(s2, k, x.(updated := SuccessfullyReceived), {});
    var s4 := Put(s3, k, x.(updated := SuccessfullyReceived, phase := Seen(SuccessfullyReceived)), {});
    s' := Put(s4, k, x.(updated := NoUpdate, phase := Completed), {});
    assert ReplyKey(ack) == k;
    RunsOne(cfg, s, Poll(k));
    assert Apply(cfg, s1, Dequeue(req)) == s2;
    RunsOne(cfg, s1, Dequeue(req));
    RunsOne(cfg, s2, NoteReceived(ack));
    RunsOne(cfg, s3, Observe(k));
    Chain(cfg, s, [Poll(k)], s1, [Dequeue(req)], s2);
    Chain(cfg, s, [Poll(k)] + [Dequeue(req)], s2, [NoteReceived(ack)], s3);
    RunsOne(cfg, s4, Clear(k));
    Chain(cfg, s, [Poll(k)] + [Dequeue(req)] + [NoteReceived(ack)], s3, [Observe(k)], s4);
    Chain(cfg, s, [Poll(k)] + [Dequeue(req)] + [NoteReceived(ack)] + [Observe(k)], s4, [Clear(k)], s');
  }

  lemma DrainOne(cfg: Config, s: State, k: Key) returns (s1: State)
    requires Inv(cfg, s) && WaitingOK(cfg, s.recv) && k in cfg.messages && Far(k) in s.recv.history
    requires !Settled(s.recv, Far(k)) && !cfg.messages[k].kind.Response?
    ensures Enabled(cfg, s, RunCallback) && s1 == Apply(cfg, s, RunCallback)
    ensures Inv(cfg, s1) && WaitingOK(cfg, s1.recv) && |s1.recv.queue| < |s.recv.queue|
    ensures s1.senders == s.senders && s1.first == s.first && Far(k) in s1.recv.history
  {
    assert Far(Far(k)) == k;
    assert Waits(cfg, s.recv, Far(k));
    StepInv(cfg, s, RunCallback);
    WaitingStep(cfg, s, RunCallback);
    s1 := Apply(cfg, s, RunCallback);
  }

  /** Letting the callback thread run settles a completed message. */
  lemma {:induction false} DrainQueue(cfg: Config, s: State, k: Key) returns (n: nat, s': State)
    requires Inv(cfg, s) && WaitingOK(cfg, s.recv) && k in cfg.messages && Far(k) in s.recv.history
    requires Settled(s.recv, Far(k)) || !cfg.messages[k].kind.Response?
    ensures Leads(cfg, s, Repeat(RunCallback, n), s')
    ensures s'.senders == s.senders && s'.first == s.first && Settled(s'.recv, Far(k))
    decreases |s.recv.queue|
  {
    if Settled(s.recv, Far(k)) {
      n, s' := 0, s;
    } else {
      var s1 := DrainOne(cfg, s, k);
      n, s' := DrainQueue(cfg, s1, k);
      RunsCons(cfg, s, RunCallback, Repeat(RunCallback, n));
      n := n + 1;
    }
  }

  // ---- Which messages arrive, and how ----------------------------------------------------------------------

  function Frames(cfg: Config, k: Key, i: nat, n: nat): set<Frame>
    requires ValidConfig(cfg) && k in cfg.messages
  {
    set j: nat | i <= j < n :: ChunkFrame(cfg, k, j)
  }

  /** s' is s with the chunks from i on sent and the call in its polling loop. */
  ghost predicate PassDone(cfg: Config, s: State, s': State, k: Key, i: nat)
    requires ValidConfig(cfg) && k in cfg.messages && k in s.senders
  {
    && s'.senders == s.senders[k := s.senders[k].(phase := Polling)]
    && s'.recv == s.recv && s'.first == s.first
    && s'.net == s.net + Frames(cfg, k, i, Amount(cfg, k))
  }

  lemma PassNext(cfg: Config, s: State, k: Key)
    requires ValidConfig(cfg) && s.senders.Keys == cfg.messages.Keys && k in cfg.messages
    requires s.senders[k].phase.Chunking? && s.senders[k].phase.next < Amount(cfg, k)
    ensures var x := s.senders[k];
            var i := x.phase.next;
            && Enabled(cfg, s, SendNext(k))
            && Apply(cfg, s, SendNext(k)) == s.(
                 senders := s.senders[k := x.(phase := if i + 1 < Amount(cfg, k) then Chunking(i + 1) else Polling)],
                 net := s.net + {ChunkFrame(cfg, k, i)})
  {
    IndexBounds(|cfg.messages[k].payload|, SendChunk(cfg, cfg.messages[k]), s.senders[k].phase.next);
  }

  lemma PassStep(cfg: Config, s: State, s1: State, s': State, k: Key, i: nat)
    requires ValidConfig(cfg) && k in cfg.messages && k in s.senders && i < Amount(cfg, k)
    requires s1.recv == s.recv && s1.first == s.first && s1.net == s.net + {ChunkFrame(cfg, k, i)} && k in s1.senders
    requires s1.senders == s.senders[k := s.senders[k].(phase := s1.senders[k].phase)]
    requires if i + 1 < Amount(cfg, k) then PassDone(cfg, s1, s', k, i + 1) else s' == s1 && s1.senders[k].phase.Polling?
    ensures PassDone(cfg, s, s', k, i)
  {
    FramesSplit(cfg, k, i, Amount(cfg, k));
    if i + 1 == Amount(cfg, k) {
      assert Frames(cfg, k, i + 1, Amount(cfg, k)) == {};
    }
  }

  /** The first pass emits one frame per chunk, with indexes 0, 1, 2 and so on, and ends in the polling
      loop after exactly Count(length, chunk size) frames. */
  lemma {:induction false} FirstPass(cfg: Config, s: State, k: Key)
    requires ValidConfig(cfg) && s.senders.Keys == cfg.messages.Keys && k in cfg.messages
    requires s.senders[k].phase.Chunking? && s.senders[k].phase.next < Amount(cfg, k)
    ensures var steps := Repeat(SendNext(k), Amount(cfg, k) - s.senders[k].phase.next);
            Runs(cfg, s, steps) && PassDone(cfg, s, Exec(cfg, s, steps), k, s.senders[k].phase.next)
    decreases Amount(cfg, k) - s.senders[k].phase.next
  {
    var i, n := s.senders[k].phase.next, Amount(cfg, k);
    PassNext(cfg, s, k);
    var s1 := Apply(cfg, s, SendNext(k));
    var rest := Repeat(SendNext(k), n - i - 1);
    if i + 1 < n {
      FirstPass(cfg, s1, k);
    }
    RunsCons(cfg, s, SendNext(k), rest);
    PassStep(cfg, s, s1, Exec(cfg, s1, rest), k, i);
  }

  lemma FramesSplit(cfg: Config, k: Key, i: nat, n: nat)
    requires ValidConfig(cfg) && k in cfg.messages && i < n
    ensures Frames(cfg, k, i, n) == {ChunkFrame(cfg, k, i)} + Frames(cfg, k, i + 1, n)
  {
  }

  /** Every chunk of the message, in the order in which the frames will arrive. */
  ghost predicate Covers(cfg: Config, k: Key, order: seq<nat>)
    requires ValidConfig(cfg) && k in cfg.messages
  {
    forall i: nat :: i in order <==> i < Amount(cfg, k)
  }

  /** The chunks in their own order. */
  lemma InOrder(cfg: Config, k: Key) returns (order: seq<nat>)
    requires ValidConfig(cfg) && k in cfg.messages
    ensures Covers(cfg, k, order) && (order != [] ==> order[0] == 0)
  {
    order := seq(Amount(cfg, k), i requires 0 <= i < Amount(cfg, k) => i);
    forall i: nat | i < Amount(cfg, k) ensures i in order {
      assert order[i] == i;
    }
  }

  lemma AllElements(got: set<nat>, order: seq<nat>, n: nat)
    requires (forall i: nat :: i in order <==> i < n) && forall j :: j in got ==> j < n
    ensures |got + Elements(order)| == n
  {
    forall j: nat | j < n ensures j in Elements(order) {
      assert j in order;
    }
    RangeSize(got + Elements(order), n);
  }

  /** A run in which all frames of one chunked message arrive in a given order (repetitions allowed), with or
      without a request waiting. */
  function WholeTransfer(cfg: Config, k: Key, order: seq<nat>, waiting: bool): seq<Step>
    requires ValidConfig(cfg) && k in cfg.messages
  {
    (if waiting then [RegisterSlot(Far(k).id)] else []) + FirstPassSteps(cfg, k) + DequeueSteps(cfg, k, order)
  }

  function FirstPassSteps(cfg: Config, k: Key): seq<Step>
    requires ValidConfig(cfg) && k in cfg.messages
  {
    [BeginChunks(k)] + Repeat(SendNext(k), Amount(cfg, k))
  }

  lemma SendPart(cfg: Config, k: Key, waiting: bool) returns (s': State)
    requires ValidConfig(cfg) && k in cfg.messages && Chunked(cfg, cfg.messages[k])
    ensures Leads(cfg, Init(cfg), (if waiting then [RegisterSlot(Far(k).id)] else []) + FirstPassSteps(cfg, k), s')
    ensures forall j: nat :: j < Amount(cfg, k) ==> ChunkFrame(cfg, k, j) in s'.net
    ensures s'.recv == Receiver(map[], {}, [], if waiting then {Far(k).id} else {}, []) && s'.first == map[]
    ensures s'.senders.Keys == cfg.messages.Keys && s'.senders[k].phase.Polling? && s'.senders[k].staged.None?
  {
    var m := cfg.messages[k];
    IndexBounds(|m.payload|, SendChunk(cfg, m), 0);
    var s0 := Init(cfg);
    var register := if waiting then [RegisterSlot(Far(k).id)] else [];
    var s1 := if waiting then Apply(cfg, s0, RegisterSlot(Far(k).id)) else s0;
    assert s1.recv.slots == if waiting then {Far(k).id} else {};
    if waiting {
      RunsOne(cfg, s0, RegisterSlot(Far(k).id));
    }
    assert Leads(cfg, s0, register, s1);
    var s2 := Apply(cfg, s1, BeginChunks(k));
    RunsOne(cfg, s1, BeginChunks(k));
    FirstPass(cfg, s2, k);
    s' := Exec(cfg, s2, Repeat(SendNext(k), Amount(cfg, k)));
    Chain(cfg, s1, [BeginChunks(k)], s2, Repeat(SendNext(k), Amount(cfg, k)), s');
    Chain(cfg, s0, register, s1, FirstPassSteps(cfg, k), s');
  }

  lemma WholeTransferRuns(cfg: Config, k: Key, order: seq<nat>, waiting: bool)
    requires ValidConfig(cfg) && k in cfg.messages && Chunked(cfg, cfg.messages[k]) && Covers(cfg, k, order)
    ensures Runs(cfg, Init(cfg), WholeTransfer(cfg, k, order, waiting))
    ensures order != []
    ensures var s := Final(cfg, WholeTransfer(cfg, k, order, waiting));
            && Far(k) in s.recv.history && (HandedKey(s.recv, Far(k)) <==> waiting || !cfg.messages[k].kind.Response?)
            && Far(k) in s.first && s.first[Far(k)] == order[0]
            && s.senders[k].phase.Polling?
  {
    var m := cfg.messages[k];
    IndexBounds(|m.payload|, SendChunk(cfg, m), 0);
    assert 0 in order;
    var send := (if waiting then [RegisterSlot(Far(k).id)] else []) + FirstPassSteps(cfg, k);
    var s1 := SendPart(cfg, k, waiting);
    InitInv(cfg);
    ExecInv(cfg, Init(cfg), send);
    DequeueAll(cfg, s1, k, order);
    var s' := Exec(cfg, s1, DequeueSteps(cfg, k, order));
    Chain(cfg, Init(cfg), send, s1, DequeueSteps(cfg, k, order), s');
    AllElements(Got(s1.recv, Far(k)), order, Amount(cfg, k));
  }

  /** Every chunked message whose last chunk is short has a run in which that chunk's frame can be the first
      to be dequeued; its copy then reads past the frame's payload. */
  lemma ShortChunkFirst(cfg: Config, k: Key) returns (f: Frame)
    requires ValidConfig(cfg) && k in cfg.messages && Chunked(cfg, cfg.messages[k])
    requires |cfg.messages[k].payload| % SendChunk(cfg, cfg.messages[k]) != 0
    ensures Runs(cfg, Init(cfg), [] + FirstPassSteps(cfg, k))
    ensures var s, c := Final(cfg, [] + FirstPassSteps(cfg, k)), SendChunk(cfg, cfg.messages[k]);
            && Enabled(cfg, s, Dequeue(f)) && f.Data? && Key(f.port, f.id) == Far(k) && f.length == |cfg.messages[k].payload|
            && Far(k) !in s.recv.pending && Far(k) !in s.recv.history
            && |f.payload| == f.length % c < c < f.length
  {
    var m := cfg.messages[k];
    var n := Amount(cfg, k);
    var s := SendPart(cfg, k, false);
    IndexBounds(|m.payload|, SendChunk(cfg, m), 0);
    f := ChunkFrame(cfg, k, n - 1);
    SliceSize(m.payload, SendChunk(cfg, m), n - 1);
    LastSize(|m.payload|, SendChunk(cfg, m));
  }

  /** A concrete input: MTU 46 at both ends, so two bytes per chunk, and a message of 47 bytes. */
  lemma ShortChunkExample() returns (cfg: Config, k: Key, f: Frame)
    ensures ValidConfig(cfg) && k in cfg.messages && cfg.mtu == 46 && |cfg.messages[k].payload| == 47
    ensures Runs(cfg, Init(cfg), [] + FirstPassSteps(cfg, k))
    ensures Enabled(cfg, Final(cfg, [] + FirstPassSteps(cfg, k)), Dequeue(f)) && f.Data? && |f.payload| == 1 < SendChunk(cfg, cfg.messages[k])
  {
    k := Key(1, Id(0, 1));
    cfg := Config(46, map[k := Outgoing(Kind.Message, seq(47, _ => 0), 46)]);
    f := ShortChunkFirst(cfg, k);
  }

  /** For every chunked message and every order in which its frames can arrive, the message is handed on
      once they all have, and it is intact exactly when chunk 0 leads the order and the length is no
      multiple of the chunk size. */
  lemma ArrivalOrderDecides(cfg: Config, k: Key, order: seq<nat>) returns (i: nat)
    requires ValidConfig(cfg) && k in cfg.messages && Chunked(cfg, cfg.messages[k]) && Covers(cfg, k, order)
    ensures Runs(cfg, Init(cfg), WholeTransfer(cfg, k, order, true)) && order != []
    ensures var r := Final(cfg, WholeTransfer(cfg, k, order, true)).recv;
            var m := cfg.messages[k];
            && i < |r.handed| && r.handed[i].key == Far(k)
            && (r.handed[i].data == Cells(m.payload) <==> order[0] == 0 && |m.payload| % SendChunk(cfg, m) != 0)
  {
    WholeTransferRuns(cfg, k, order, true);
    var steps := WholeTransfer(cfg, k, order, true);
    var r := Final(cfg, steps).recv;
    i :| 0 <= i < |r.handed| && r.handed[i].key == Far(k);
    HandedContent(cfg, steps, i);
    assert Far(Far(k)) == k;
  }

  /** The run hands on this message, intact. */
  ghost predicate Delivers(cfg: Config, k: Key, steps: seq<Step>)
    requires ValidConfig(cfg) && k in cfg.messages
  {
    && Runs(cfg, Init(cfg), steps)
    && Handed(Far(k), Cells(cfg.messages[k].payload)) in Final(cfg, steps).recv.handed
  }

  /** A message can be delivered intact in some run exactly when it fits one chunk, or is longer than the
      MTU and no multiple of the chunk size. */
  lemma DeliverableIff(cfg: Config, k: Key)
    requires ValidConfig(cfg) && k in cfg.messages
    ensures var m := cfg.messages[k];
            var c := SendChunk(cfg, m);
            (exists steps :: Delivers(cfg, k, steps)) <==>
            |m.payload| <= c || (|m.payload| > SendMtu(cfg, m) && |m.payload| % c != 0)
  {
    var m := cfg.messages[k];
    var c := SendChunk(cfg, m);
    if |m.payload| <= c {
      ShortDelivers(cfg, k);
    } else if Chunked(cfg, m) && |m.payload| % c != 0 {
      var order := InOrder(cfg, k);
      IndexBounds(|m.payload|, c, 0);
      var i := ArrivalOrderDecides(cfg, k, order);
      var h := Final(cfg, WholeTransfer(cfg, k, order, true)).recv.handed[i];
      assert h == Handed(Far(k), Cells(m.payload));
      assert Delivers(cfg, k, WholeTransfer(cfg, k, order, true));
    }
    forall steps | Delivers(cfg, k, steps)
      ensures |m.payload| <= c || (|m.payload| > SendMtu(cfg, m) && |m.payload| % c != 0)
    {
      var r := Final(cfg, steps).recv;
      var i :| 0 <= i < |r.handed| && r.handed[i] == Handed(Far(k), Cells(m.payload));
      HandedContent(cfg, steps, i);
      assert Far(Far(k)) == k;
      assert HandedKey(r, Far(k));
      if c < |m.payload| <= SendMtu(cfg, m) {
        OverlongFrameNeverHanded(cfg, steps, k);
      }
    }
  }

  lemma ShortDelivers(cfg: Config, k: Key)
    requires ValidConfig(cfg) && k in cfg.messages
    requires |cfg.messages[k].payload| <= SendChunk(cfg, cfg.messages[k])
    ensures exists steps :: Delivers(cfg, k, steps)
  {
    var m := cfg.messages[k];
    var f := WholeFrame(cfg, k);
    assert Far(k) == Key(f.port, f.id);
    var s0 := Init(cfg);
    var s1 := Apply(cfg, s0, RegisterSlot(Far(k).id));
    var s2 := Apply(cfg, s1, SendWhole(k));
    var s3 := Apply(cfg, s2, Dequeue(f));
    RunsOne(cfg, s0, RegisterSlot(Far(k).id));
    RunsOne(cfg, s1, SendWhole(k));
    RunsOne(cfg, s2, Dequeue(f));
    var steps := [RegisterSlot(Far(k).id)] + [SendWhole(k)] + [Dequeue(f)];
    Chain(cfg, s0, [RegisterSlot(Far(k).id)], s1, [SendWhole(k)], s2);
    Chain(cfg, s0, [RegisterSlot(Far(k).id)] + [SendWhole(k)], s2, [Dequeue(f)], s3);
    assert ReadFrame(f.payload, f.length) == Cells(m.payload);
    assert s3.recv.handed == [Handed(Far(k), Cells(m.payload))];
    assert Delivers(cfg, k, steps);
  }
}
