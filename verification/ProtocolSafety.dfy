/** Safety of the transfer protocol over every run: any loss, duplication, reordering, resending and
    interleaving of sending calls, receiver thread, callback thread and request timeouts. */
module ProtocolSafety {
  import opened Chunks
  import opened Protocol
  import opened Reassembly
  import opened ProtocolInvariant

  lemma FinalInv(cfg: Config, steps: seq<Step>)
    requires ValidConfig(cfg) && Runs(cfg, Init(cfg), steps)
    ensures Inv(cfg, Exec(cfg, Init(cfg), steps))
  {
    InitInv(cfg);
    ExecInv(cfg, Init(cfg), steps);
  }

  /** The state reached by a run from the start. */
  function Final(cfg: Config, steps: seq<Step>): (s: State)
    requires ValidConfig(cfg) && Runs(cfg, Init(cfg), steps)
    ensures s.senders.Keys == cfg.messages.Keys
  {
    FinalInv(cfg, steps);
    Exec(cfg, Init(cfg), steps)
  }

  /** Whatever is handed on was sent under that key and has the sent length. A message that fits one
      frame arrives byte for byte. A chunked one does exactly when its chunk 0 was the first to be
      dequeued and its length is no multiple of the chunk size; otherwise the bytes that are wrong
      are those of the misplaced first chunk and of the full last chunk, no others. */
  lemma HandedContent(cfg: Config, steps: seq<Step>, i: nat)
    requires ValidConfig(cfg) && Runs(cfg, Init(cfg), steps)
    requires i < |Final(cfg, steps).recv.handed|
    ensures var s := Final(cfg, steps);
            var h := s.recv.handed[i];
            && Far(h.key) in cfg.messages && h.key in s.first
            && var m := cfg.messages[Far(h.key)];
            var c := SendChunk(cfg, m);
            && |h.data| == |m.payload|
            && (!Chunked(cfg, m) ==> h.data == Cells(m.payload))
            && (Chunked(cfg, m) ==>
                  && (h.data == Cells(m.payload) <==> s.first[h.key] == 0 && |m.payload| % c != 0)
                  && ExactBytes(m.payload, c, h.data, s.first[h.key]))
  {
    FinalInv(cfg, steps);
    var s := Final(cfg, steps);
    var h := s.recv.handed[i];
    assert HandedEntryOK(cfg, s.recv, s.first, h);
    var m := cfg.messages[Far(h.key)];
    if Chunked(cfg, m) {
      ExactWhole(m.payload, SendChunk(cfg, m), h.data, s.first[h.key]);
    }
  }

  /** No run places two messages with one key on the callback queue or into a request slot, for
      single-frame and chunked messages alike. */
  lemma AtMostOnce(cfg: Config, steps: seq<Step>, i: nat, j: nat)
    requires ValidConfig(cfg) && Runs(cfg, Init(cfg), steps)
    requires i < |Final(cfg, steps).recv.handed| && j < |Final(cfg, steps).recv.handed|
    requires Final(cfg, steps).recv.handed[i].key == Final(cfg, steps).recv.handed[j].key
    ensures i == j
  {
    FinalInv(cfg, steps);
  }

  /** A chunked sending call returns through its completed path only after the receiver recorded the
      message complete, let go of its pending entry and handed it on, the callback thread having
      already taken it off the queue; and it was handed on once. */
  lemma AcknowledgedMeansHanded(cfg: Config, steps: seq<Step>, k: Key)
    requires ValidConfig(cfg) && Runs(cfg, Init(cfg), steps)
    requires k in cfg.messages && Final(cfg, steps).senders[k].phase.Completed?
    ensures var r := Final(cfg, steps).recv;
            && Chunked(cfg, cfg.messages[k])
            && Settled(r, Far(k))
            && (exists i :: 0 <= i < |r.handed| && r.handed[i].key == Far(k)
                  && forall j :: 0 <= j < |r.handed| && r.handed[j].key == Far(k) ==> j == i)
            && (forall i :: 0 <= i < |r.queue| ==> r.queue[i].item.key != Far(k))
  {
    FinalInv(cfg, steps);
    var s := Final(cfg, steps);
    var r := s.recv;
    assert SenderOK(cfg, k, s.senders[k]);
    assert Far(Far(k)) == k;
    assert HandedKey(r, Far(k));
    forall i | 0 <= i < |r.queue| ensures r.queue[i].item.key != Far(k) {
      assert NodeOK(cfg, r, r.queue[i]);
    }
  }

  /** An acknowledged message was received intact exactly when its chunk 0 was dequeued first and its
      length is no multiple of the chunk size. */
  lemma AcknowledgedContent(cfg: Config, steps: seq<Step>, k: Key) returns (i: nat)
    requires ValidConfig(cfg) && Runs(cfg, Init(cfg), steps)
    requires k in cfg.messages && Final(cfg, steps).senders[k].phase.Completed?
    ensures var s := Final(cfg, steps);
            var m := cfg.messages[k];
            && i < |s.recv.handed| && s.recv.handed[i].key == Far(k) && Far(k) in s.first
            && (s.recv.handed[i].data == Cells(m.payload) <==>
                s.first[Far(k)] == 0 && |m.payload| % SendChunk(cfg, m) != 0)
  {
    AcknowledgedMeansHanded(cfg, steps, k);
    var r := Final(cfg, steps).recv;
    i :| 0 <= i < |r.handed| && r.handed[i].key == Far(k);
    HandedContent(cfg, steps, i);
    assert Far(Far(k)) == k;
  }

  /** In every reachable state the counter of a pending message equals its number of set bits, no bit
      at or above the chunk count is set, and (chunked messages) all bits are set exactly when the
      message is recorded complete. */
  lemma CounterMatchesBitmap(cfg: Config, steps: seq<Step>, rk: Key)
    requires ValidConfig(cfg) && Runs(cfg, Init(cfg), steps)
    requires rk in Final(cfg, steps).recv.pending
    ensures var r := Final(cfg, steps).recv;
            var p := r.pending[rk];
            && Far(rk) in cfg.messages
            && var m := cfg.messages[Far(rk)];
            && p.received == |p.got|
            && (forall j :: j in p.got ==> j < p.amount)
            && (Chunked(cfg, m) ==>
                  && p.amount == Count(|m.payload|, SendChunk(cfg, m))
                  && (rk in r.history <==> forall j: nat :: j < p.amount ==> j in p.got))
  {
    FinalInv(cfg, steps);
    var s := Final(cfg, steps);
    var p := s.recv.pending[rk];
    assert PendingEntryOK(cfg, s.recv, s.first, rk);
    FullRange(p.got, p.amount);
    if forall j: nat :: j < p.amount ==> j in p.got {
      RangeSize(p.got, p.amount);
    }
  }

  lemma {:induction false} RangeSize(s: set<nat>, n: nat)
    requires forall j :: j in s <==> 0 <= j < n
    ensures |s| == n
    decreases n
  {
    if n > 0 {
      RangeSize(s - {n - 1}, n - 1);
    } else {
      assert s == {};
    }
  }

  /** One dequeued data frame of a chunked message completes it exactly when it carries the only
      chunk still missing. */
  lemma CompletionFiresAtLastChunk(cfg: Config, steps: seq<Step>, f: Frame)
    requires ValidConfig(cfg) && Runs(cfg, Init(cfg), steps)
    requires f in Final(cfg, steps).net && f.Data? && Min(f.mtu, cfg.mtu) > HEADER
    requires Far(Key(f.port, f.id)) in cfg.messages && Chunked(cfg, cfg.messages[Far(Key(f.port, f.id))])
    requires Key(f.port, f.id) !in Final(cfg, steps).recv.history
    ensures var s := Final(cfg, steps);
            var rk := Key(f.port, f.id);
            rk in Apply(cfg, s, Dequeue(f)).recv.history <==>
              && rk in s.recv.pending
              && f.index !in s.recv.pending[rk].got
              && forall j: nat :: j < s.recv.pending[rk].amount && j != f.index ==> j in s.recv.pending[rk].got
  {
    FinalInv(cfg, steps);
    var s := Final(cfg, steps);
    var rk := Key(f.port, f.id);
    assert FrameOK(cfg, f);
    assert rk in s.recv.pending ==> PendingEntryOK(cfg, s.recv, s.first, rk);
    CompletesIff(s.recv, cfg.mtu, f);
  }

  lemma CompletesIff(r: Receiver, mtu: U16, f: Frame)
    requires f.Data? && Min(f.mtu, mtu) > HEADER && f.length > Min(f.mtu, mtu) - HEADER && f.index < f.amount
    requires var rk := Key(f.port, f.id);
             && rk !in r.history
             && (rk in r.pending ==>
                   && r.pending[rk].amount == f.amount && r.pending[rk].received == |r.pending[rk].got|
                   && forall j :: j in r.pending[rk].got ==> j < f.amount)
    ensures var rk := Key(f.port, f.id);
            rk in ReceiveData(r, mtu, f).history <==>
              && rk in r.pending
              && f.index !in r.pending[rk].got
              && forall j: nat :: j < r.pending[rk].amount && j != f.index ==> j in r.pending[rk].got
  {
    var rk := Key(f.port, f.id);
    if rk in r.pending && f.index !in r.pending[rk].got {
      LastMissing(r.pending[rk].got, f.index, f.amount);
    }
  }

  /** One more number fills the range exactly when it is the only one missing. */
  lemma LastMissing(got: set<nat>, i: nat, n: nat)
    requires i < n && i !in got && forall j :: j in got ==> j < n
    ensures |got| + 1 == n <==> forall j: nat :: j < n && j != i ==> j in got
  {
    FullRange(got + {i}, n);
    if forall j: nat :: j < n && j != i ==> j in got {
      RangeSize(got + {i}, n);
    } else {
      var j: nat :| j < n && j != i && j !in got;
      assert j !in got + {i};
    }
  }

  /** A single frame longer than a chunk but not longer than the MTU opens a pending entry that no
      frame can complete: such a message is never recorded complete and never handed on. */
  lemma OverlongFrameNeverHanded(cfg: Config, steps: seq<Step>, k: Key)
    requires ValidConfig(cfg) && Runs(cfg, Init(cfg), steps)
    requires k in cfg.messages
    requires SendChunk(cfg, cfg.messages[k]) < |cfg.messages[k].payload| <= SendMtu(cfg, cfg.messages[k])
    ensures !HandedKey(Final(cfg, steps).recv, Far(k))
    ensures Far(k) !in Final(cfg, steps).recv.history
  {
    FinalInv(cfg, steps);
    var s := Final(cfg, steps);
    assert Far(Far(k)) == k;
    forall i | 0 <= i < |s.recv.handed| ensures s.recv.handed[i].key != Far(k) {
      assert HandedEntryOK(cfg, s.recv, s.first, s.recv.handed[i]);
    }
  }

  // ---- Memory bounds --------------------------------------------------------------------------------

  /** The walk over the lost list reads only written entries, all of which name chunks of the message,
      and the list never outgrows its buffer, even though replies overwrite it during the walk. */
  lemma ResendInBounds(cfg: Config, steps: seq<Step>, k: Key)
    requires ValidConfig(cfg) && Runs(cfg, Init(cfg), steps)
    requires k in cfg.messages && Final(cfg, steps).senders[k].phase.Walking?
    ensures var x := Final(cfg, steps).senders[k];
            var m := cfg.messages[k];
            && 4 * |x.lost| <= m.mtu - HEADER
            && (x.phase.at < x.size ==>
                  x.phase.at < |x.lost| && x.lost[x.phase.at] < Count(|m.payload|, SendChunk(cfg, m)))
  {
    FinalInv(cfg, steps);
    assert SenderOK(cfg, k, Final(cfg, steps).senders[k]);
  }

  /** Both ends derive the same chunk size, and every copy into a pending buffer writes inside it, for every
      frame that can be in flight. The copy of a later chunk reads inside the frame. The copy of a first
      arrival takes a whole chunk's worth of bytes: of a chunked message it reads inside the frame exactly
      when the frame carries a chunk other than the last, or the last one is full. */
  lemma CopyInBounds(cfg: Config, steps: seq<Step>, f: Frame)
    requires ValidConfig(cfg) && Runs(cfg, Init(cfg), steps)
    requires f in Final(cfg, steps).net && f.Data?
    ensures var s := Final(cfg, steps);
            var rk := Key(f.port, f.id);
            && Far(rk) in cfg.messages
            && var m := cfg.messages[Far(rk)];
            var c := Min(f.mtu, cfg.mtu) - HEADER;
            && c == SendChunk(cfg, m) && f.index < f.amount
            && (rk !in s.recv.pending && rk !in s.recv.history && f.length > c ==>
                  && c <= |Start(f, c).buffer| == f.length
                  && (Chunked(cfg, m) ==> (c <= |f.payload| <==> f.index + 1 < f.amount || f.length % c == 0))
                  && (!Chunked(cfg, m) ==> c <= |f.payload|))
            && (rk in s.recv.pending ==>
                  && f.amount == s.recv.pending[rk].amount
                  && (f.index !in s.recv.pending[rk].got ==>
                        && BytesToWrite(f, c) <= |f.payload|
                        && c * f.index + BytesToWrite(f, c) <= |s.recv.pending[rk].buffer|))
  {
    FinalInv(cfg, steps);
    var s := Final(cfg, steps);
    var rk := Key(f.port, f.id);
    assert FrameOK(cfg, f);
    var m := cfg.messages[Far(rk)];
    var c := SendChunk(cfg, m);
    if Chunked(cfg, m) {
      FrameSize(m.payload, c, f.index);
    }
    if rk in s.recv.pending {
      assert PendingEntryOK(cfg, s.recv, s.first, rk);
      if !Chunked(cfg, m) {
        OneElement(s.recv.pending[rk].got);
      }
    }
  }

  /** The payload of chunk i against the two lengths the receiver may copy. */
  lemma FrameSize(payload: seq<bv8>, c: nat, i: nat)
    requires 0 < c < |payload| && i < Count(|payload|, c)
    ensures var n, size := Count(|payload|, c), |Slice(payload, c, i)|;
            var bytes := if i + 1 >= n then |payload| % c else c;
            && bytes <= size && c * i + bytes <= |payload|
            && (c <= size <==> i + 1 < n || |payload| % c == 0)
  {
    SliceSize(payload, c, i);
    LastSize(|payload|, c);
    IndexBounds(|payload|, c, i);
    MulStep(i, c);
    assert c * i == i * c;
  }

  lemma OneElement(s: set<nat>)
    requires |s| >= 1 && forall j :: j in s ==> j < 1
    ensures 0 in s
  {
    var x :| x in s;
  }

  // ---- Hand-on at completion ----------------------------------------------------------------------------

  /** The frame that records a message complete also hands it on, unless it is a response whose request no
      longer waits. */
  lemma CompletionHands(r: Receiver, mtu: U16, f: Frame)
    requires f.Data? && Min(f.mtu, mtu) > HEADER
    requires var rk := Key(f.port, f.id); rk !in r.history && !HandedKey(r, rk)
    ensures var rk, r' := Key(f.port, f.id), ReceiveData(r, mtu, f);
            HandedKey(r', rk) <==> rk in r'.history && (f.kind.Response? ==> rk.id in r.slots)
  {
    var rk, r' := Key(f.port, f.id), ReceiveData(r, mtu, f);
    if r'.handed != r.handed {
      assert r'.handed[|r.handed|].key == rk;
    }
  }

  /** In every run: the step that records a message complete hands it on if and only if it is no response or
      its request still waits in a slot. */
  lemma CompletionHandsOn(cfg: Config, steps: seq<Step>, f: Frame)
    requires ValidConfig(cfg) && Runs(cfg, Init(cfg), steps)
    requires f in Final(cfg, steps).net && f.Data? && Enabled(cfg, Final(cfg, steps), Dequeue(f))
    requires var s, rk := Final(cfg, steps), Key(f.port, f.id);
             rk !in s.recv.history && rk in Apply(cfg, s, Dequeue(f)).recv.history
    ensures var s, rk := Final(cfg, steps), Key(f.port, f.id);
            && Far(rk) in cfg.messages
            && (HandedKey(Apply(cfg, s, Dequeue(f)).recv, rk) <==>
                (cfg.messages[Far(rk)].kind.Response? ==> rk.id in s.recv.slots))
  {
    FinalInv(cfg, steps);
    var s, rk := Final(cfg, steps), Key(f.port, f.id);
    assert FrameOK(cfg, f);
    NotHanded(cfg, s, rk);
    CompletionHands(s.recv, cfg.mtu, f);
  }

  lemma NotHanded(cfg: Config, s: State, rk: Key)
    requires Inv(cfg, s) && rk !in s.recv.history
    ensures !HandedKey(s.recv, rk)
  {
    forall i | 0 <= i < |s.recv.handed| ensures s.recv.handed[i].key != rk {
      assert HandedEntryOK(cfg, s.recv, s.first, s.recv.handed[i]);
    }
  }

  // ---- Abandoned responses ----------------------------------------------------------------------------

  /** Once recorded complete, a message is handed on in that same step or never. */
  lemma {:induction false} HandedStable(cfg: Config, s: State, steps: seq<Step>, rk: Key)
    requires Inv(cfg, s) && Runs(cfg, s, steps) && rk in s.recv.history
    ensures var r' := Exec(cfg, s, steps).recv;
            rk in r'.history && (HandedKey(r', rk) <==> HandedKey(s.recv, rk))
    decreases |steps|
  {
    if steps != [] {
      var s1 := Apply(cfg, s, steps[0]);
      StepInv(cfg, s, steps[0]);
      HandedStep(cfg, s, steps[0], rk);
      HandedStable(cfg, s1, steps[1..], rk);
    }
  }

  lemma ReceiveDataHands(r: Receiver, mtu: U16, f: Frame)
    requires f.Data? && Min(f.mtu, mtu) > HEADER
    ensures var r' := ReceiveData(r, mtu, f);
            && r.history <= r'.history
            && (r'.handed == r.handed ||
                exists h: Handed :: h.key == Key(f.port, f.id) && h.key !in r.history && r'.handed == r.handed + [h])
  {
    var r' := ReceiveData(r, mtu, f);
    if r'.handed != r.handed {
      var h := r'.handed[|r.handed|];
      assert h.key == Key(f.port, f.id) && r'.handed == r.handed + [h];
    }
  }

  /** Only data frames touch log and history, only they and the callback thread the pending table, and only a
      registration adds a slot. */
  lemma OtherSteps(cfg: Config, s: State, st: Step)
    requires Enabled(cfg, s, st) && !(st.Dequeue? && st.f.Data?)
    ensures var r, r' := s.recv, Apply(cfg, s, st).recv;
            && r'.handed == r.handed && r'.history == r.history && r'.pending.Keys <= r.pending.Keys
            && (!st.RunCallback? ==> r'.pending == r.pending && r'.queue == r.queue)
            && (!st.RegisterSlot? ==> r'.slots <= r.slots)
  {
  }

  lemma HandedStep(cfg: Config, s: State, st: Step, rk: Key)
    requires Enabled(cfg, s, st) && rk in s.recv.history
    ensures var r' := Apply(cfg, s, st).recv;
            rk in r'.history && (HandedKey(r', rk) <==> HandedKey(s.recv, rk))
  {
    var r, r' := s.recv, Apply(cfg, s, st).recv;
    if st.Dequeue? && st.f.Data? {
      ReceiveDataHands(r, cfg.mtu, st.f);
      if r'.handed != r.handed {
        var h: Handed :| h.key == Key(st.f.port, st.f.id) && h.key !in r.history && r'.handed == r.handed + [h];
        assert forall i :: 0 <= i < |r.handed| ==> r'.handed[i] == r.handed[i];
      }
    } else {
      OtherSteps(cfg, s, st);
    }
  }

  /** A chunked response completed when no requester waits for it any more keeps its pending entry for
      ever, so its sender is answered with empty lost lists for ever: in no continuation of the run
      does that sending call return. */
  lemma AbandonedNeverAcknowledged(cfg: Config, steps: seq<Step>, more: seq<Step>, k: Key)
    requires ValidConfig(cfg) && Runs(cfg, Init(cfg), steps) && Runs(cfg, Final(cfg, steps), more)
    requires k in cfg.messages && Chunked(cfg, cfg.messages[k])
    requires Far(k) in Final(cfg, steps).recv.history && !HandedKey(Final(cfg, steps).recv, Far(k))
    ensures var s := Exec(cfg, Final(cfg, steps), more);
            && Far(k) in s.recv.pending
            && k in s.senders && !s.senders[k].phase.Completed?
  {
    FinalInv(cfg, steps);
    var s0 := Final(cfg, steps);
    HandedStable(cfg, s0, more, Far(k));
    ExecInv(cfg, s0, more);
    var s := Exec(cfg, s0, more);
    assert Far(Far(k)) == k;
    assert !Settled(s.recv, Far(k));
  }
}
