/** Progress of the transfer protocol: which messages can arrive at all, what a recovery round without
    loss achieves, and how many such rounds a transfer needs. */
module ProtocolProgress {
  import opened Options
  import opened Chunks
  import opened Protocol
  import opened ProtocolInvariant
  import opened ProtocolSafety

  // ---- The list of missing chunks ---------------------------------------------------------------------

  /** The list holds exactly the clear positions below n, in ascending order. */
  lemma {:induction false} MissingSpec(got: set<nat>, n: nat)
    ensures forall j: nat :: j in Missing(got, n) <==> j < n && j !in got
    ensures forall a, b :: 0 <= a < b < |Missing(got, n)| ==> Missing(got, n)[a] < Missing(got, n)[b]
  {
    if n > 0 {
      MissingSpec(got, n - 1);
      MissingBelow(got, n - 1);
    }
  }

  function Elements(s: seq<nat>): set<nat> {
    set x | x in s
  }

  lemma {:induction false} AscendingSize(s: seq<nat>)
    requires forall a, b :: 0 <= a < b < |s| ==> s[a] < s[b]
    ensures |Elements(s)| == |s|
  {
    if s != [] {
      var last := |s| - 1;
      AscendingSize(s[..last]);
      assert Elements(s) == Elements(s[..last]) + {s[last]};
    }
  }

  lemma MissingSize(got: set<nat>, n: nat)
    requires forall j :: j in got ==> j < n
    ensures |Missing(got, n)| == n - |got|
  {
    MissingSpec(got, n);
    AscendingSize(Missing(got, n));
    var all := got + Elements(Missing(got, n));
    assert forall j :: j in all <==> 0 <= j < n;
    RangeSize(all, n);
    assert got !! Elements(Missing(got, n));
  }

  /** Adding the first q missing chunks raises the count of set bits by min(missing, q). */
  lemma FillSize(got: set<nat>, n: nat, q: nat)
    requires forall j :: j in got ==> j < n
    ensures var list := Take(Missing(got, n), q);
            && |list| == Min(n - |got|, q)
            && |got + Elements(list)| == |got| + |list|
            && (forall j :: j in list ==> j < n)
  {
    var list := Take(Missing(got, n), q);
    MissingSize(got, n);
    MissingSpec(got, n);
    AscendingSize(list);
    assert forall j :: j in list ==> j in Missing(got, n);
    assert got !! Elements(list);
  }

  // ---- Dequeuing chunk frames in any order ------------------------------------------------------------

  function Got(r: Receiver, rk: Key): set<nat> {
    if rk in r.pending then r.pending[rk].got else {}
  }

  function Amount(cfg: Config, k: Key): nat
    requires ValidConfig(cfg) && k in cfg.messages
  {
    Count(|cfg.messages[k].payload|, SendChunk(cfg, cfg.messages[k]))
  }

  /** Chunks the receiver still lacks. */
  function Remaining(cfg: Config, r: Receiver, k: Key): nat
    requires ValidConfig(cfg) && k in cfg.messages
  {
    if Far(k) in r.history || Amount(cfg, k) <= |Got(r, Far(k))| then 0 else Amount(cfg, k) - |Got(r, Far(k))|
  }

  /** Somebody takes the message when it completes: the callback queue, or a waiting requester. */
  predicate Wanted(cfg: Config, r: Receiver, k: Key)
    requires k in cfg.messages
  {
    cfg.messages[k].kind.Response? ==> Far(k).id in r.slots
  }

  /** What dequeuing chunks `added` of a message in transfer does to the system. */
  ghost predicate Adds(cfg: Config, s: State, s': State, k: Key, added: set<nat>, head: nat)
    requires ValidConfig(cfg) && k in cfg.messages
  {
    var rk := Far(k);
    var got := Got(s.recv, rk) + added;
    && s'.senders == s.senders && s'.net == s.net
    && (rk in s'.recv.history <==> |got| == Amount(cfg, k))
    && (rk !in s'.recv.history ==> Got(s'.recv, rk) == got && s'.recv.slots == s.recv.slots)
    && (rk in s'.recv.history ==> (HandedKey(s'.recv, rk) <==> Wanted(cfg, s.recv, k)))
    && rk in s'.first && s'.first[rk] == (if rk in s.first then s.first[rk] else head)
  }

  /** The same, for the tables alone and one frame. */
  lemma OneFrame(r: Receiver, mtu: U16, f: Frame)
    requires f.Data? && Min(f.mtu, mtu) > HEADER && f.length > Min(f.mtu, mtu) - HEADER
    requires Key(f.port, f.id) !in r.history && f.amount > 1
    requires Key(f.port, f.id) in r.pending ==>
               var p := r.pending[Key(f.port, f.id)];
               p.received == |p.got| < f.amount
    ensures var r' := ReceiveData(r, mtu, f);
            var rk := Key(f.port, f.id);
            var got := Got(r, rk) + {f.index};
            && (rk in r'.history <==> |got| == f.amount)
            && (rk !in r'.history ==> Got(r', rk) == got && r'.slots == r.slots)
  {
    var rk := Key(f.port, f.id);
    if rk !in r.pending {
      assert Got(r, rk) + {f.index} == {f.index};
    } else if f.index in r.pending[rk].got {
      assert Got(r, rk) + {f.index} == Got(r, rk);
    }
  }

  lemma PendingFacts(cfg: Config, s: State, k: Key)
    requires Inv(cfg, s) && k in cfg.messages && Chunked(cfg, cfg.messages[k]) && Far(k) !in s.recv.history
    ensures Amount(cfg, k) > 1
    ensures forall j :: j in Got(s.recv, Far(k)) ==> j < Amount(cfg, k)
    ensures Far(k) in s.recv.pending ==>
              var p := s.recv.pending[Far(k)];
              p.amount == Amount(cfg, k) && p.received == |p.got| < p.amount
    ensures |Got(s.recv, Far(k))| < Amount(cfg, k)
  {
    var m := cfg.messages[k];
    IndexBounds(|m.payload|, SendChunk(cfg, m), 1);
    assert Far(Far(k)) == k;
    if Far(k) in s.recv.pending {
      assert PendingEntryOK(cfg, s.recv, s.first, Far(k));
      FullRange(s.recv.pending[Far(k)].got, Amount(cfg, k));
    }
  }

  lemma DequeueOne(cfg: Config, s: State, k: Key, i: nat)
    requires Inv(cfg, s) && k in cfg.messages && Chunked(cfg, cfg.messages[k]) && i < Amount(cfg, k)
    requires ChunkFrame(cfg, k, i) in s.net && Far(k) !in s.recv.history
    ensures var st := Dequeue(ChunkFrame(cfg, k, i));
            && Enabled(cfg, s, st)
            && Adds(cfg, s, Apply(cfg, s, st), k, {i}, i)
  {
    var f := ChunkFrame(cfg, k, i);
    assert Far(k) == Key(f.port, f.id);
    PendingFacts(cfg, s, k);
    OneFrame(s.recv, cfg.mtu, f);
    NotHanded(cfg, s, Far(k));
    CompletionHands(s.recv, cfg.mtu, f);
  }

  function DequeueSteps(cfg: Config, k: Key, order: seq<nat>): seq<Step>
    requires ValidConfig(cfg) && k in cfg.messages
  {
    if order == [] then [] else [Dequeue(ChunkFrame(cfg, k, order[0]))] + DequeueSteps(cfg, k, order[1..])
  }

  lemma AddsCompose(cfg: Config, s: State, s1: State, s2: State, k: Key, a: set<nat>, i: nat, b: set<nat>, j: nat)
    requires ValidConfig(cfg) && k in cfg.messages
    requires Adds(cfg, s, s1, k, a, i) && Far(k) !in s1.recv.history && Adds(cfg, s1, s2, k, b, j)
    ensures Adds(cfg, s, s2, k, a + b, i)
  {
    assert Got(s.recv, Far(k)) + a + b == Got(s.recv, Far(k)) + (a + b);
  }

  lemma AddsDone(cfg: Config, s: State, s1: State, k: Key, a: set<nat>, i: nat, b: set<nat>)
    requires ValidConfig(cfg) && k in cfg.messages
    requires Adds(cfg, s, s1, k, a, i) && Far(k) in s1.recv.history
    requires forall j :: j in Got(s.recv, Far(k)) + a + b ==> j < Amount(cfg, k)
    ensures Adds(cfg, s, s1, k, a + b, i)
  {
    var got, got' := Got(s.recv, Far(k)) + a, Got(s.recv, Far(k)) + (a + b);
    assert got' == Got(s.recv, Far(k)) + a + b;
    FullRange(got', Amount(cfg, k));
    assert got' == got + (got' - got);
  }

  /** A run of one step followed by another run. */
  lemma RunsCons(cfg: Config, s: State, st: Step, rest: seq<Step>)
    requires Enabled(cfg, s, st) && Runs(cfg, Apply(cfg, s, st), rest)
    ensures Runs(cfg, s, [st] + rest)
    ensures Exec(cfg, s, [st] + rest) == Exec(cfg, Apply(cfg, s, st), rest)
  {
    assert ([st] + rest)[1..] == rest;
  }

  /** The frames of `order` are in flight. */
  ghost predicate InFlight(cfg: Config, s: State, k: Key, order: seq<nat>)
    requires ValidConfig(cfg) && k in cfg.messages
  {
    forall i :: i in order ==> i < Amount(cfg, k) && ChunkFrame(cfg, k, i) in s.net
  }

  lemma DequeueRest(cfg: Config, s: State, s1: State, k: Key, order: seq<nat>)
    requires ValidConfig(cfg) && s.senders.Keys == cfg.messages.Keys && k in cfg.messages
    requires |order| > 1 && InFlight(cfg, s, k, order)
    requires forall j :: j in Got(s.recv, Far(k)) ==> j < Amount(cfg, k)
    requires Adds(cfg, s, s1, k, {order[0]}, order[0])
    requires Far(k) !in s1.recv.history ==>
               && Runs(cfg, s1, DequeueSteps(cfg, k, order[1..]))
               && Adds(cfg, s1, Exec(cfg, s1, DequeueSteps(cfg, k, order[1..])), k, Elements(order[1..]), order[1])
    ensures Runs(cfg, s1, DequeueSteps(cfg, k, order[1..]))
    ensures Adds(cfg, s, Exec(cfg, s1, DequeueSteps(cfg, k, order[1..])), k, Elements(order), order[0])
  {
    var i, rest := order[0], order[1..];
    assert Elements(order) == {i} + Elements(rest);
    if Far(k) in s1.recv.history {
      DequeueDone(cfg, s1, k, rest);
      AddsDone(cfg, s, s1, k, {i}, i, Elements(rest));
    } else {
      AddsCompose(cfg, s, s1, Exec(cfg, s1, DequeueSteps(cfg, k, rest)), k, {i}, i, Elements(rest), order[1]);
    }
  }

  /** Dequeuing the frames of any chunks in any order, with any repetitions, adds exactly those chunks,
      and completes the message exactly when nothing is missing any more. */
  lemma {:induction false} DequeueAll(cfg: Config, s: State, k: Key, order: seq<nat>)
    requires Inv(cfg, s) && k in cfg.messages && Chunked(cfg, cfg.messages[k])
    requires Far(k) !in s.recv.history && order != [] && InFlight(cfg, s, k, order)
    ensures Runs(cfg, s, DequeueSteps(cfg, k, order))
    ensures Adds(cfg, s, Exec(cfg, s, DequeueSteps(cfg, k, order)), k, Elements(order), order[0])
    decreases |order|
  {
    var st := Dequeue(ChunkFrame(cfg, k, order[0]));
    DequeueOne(cfg, s, k, order[0]);
    PendingFacts(cfg, s, k);
    if |order| > 1 && Far(k) !in Apply(cfg, s, st).recv.history {
      StepInv(cfg, s, st);
      DequeueAll(cfg, Apply(cfg, s, st), k, order[1..]);
    }
    DequeueCons(cfg, s, Apply(cfg, s, st), k, order);
  }

  lemma DequeueCons(cfg: Config, s: State, s1: State, k: Key, order: seq<nat>)
    requires ValidConfig(cfg) && s.senders.Keys == cfg.messages.Keys && k in cfg.messages
    requires order != [] && InFlight(cfg, s, k, order)
    requires forall j :: j in Got(s.recv, Far(k)) ==> j < Amount(cfg, k)
    requires Enabled(cfg, s, Dequeue(ChunkFrame(cfg, k, order[0]))) && s1 == Apply(cfg, s, Dequeue(ChunkFrame(cfg, k, order[0])))
    requires Adds(cfg, s, s1, k, {order[0]}, order[0])
    requires |order| > 1 && Far(k) !in s1.recv.history ==>
               && Runs(cfg, s1, DequeueSteps(cfg, k, order[1..]))
               && Adds(cfg, s1, Exec(cfg, s1, DequeueSteps(cfg, k, order[1..])), k, Elements(order[1..]), order[1])
    ensures Runs(cfg, s, DequeueSteps(cfg, k, order))
    ensures Adds(cfg, s, Exec(cfg, s, DequeueSteps(cfg, k, order)), k, Elements(order), order[0])
  {
    if |order| == 1 {
      assert DequeueSteps(cfg, k, order[1..]) == [];
      assert Elements(order) == {order[0]};
    } else {
      DequeueRest(cfg, s, s1, k, order);
    }
    RunsCons(cfg, s, Dequeue(ChunkFrame(cfg, k, order[0])), DequeueSteps(cfg, k, order[1..]));
  }

  /** Frames of a message already recorded complete change nothing. */
  lemma {:induction false} DequeueDone(cfg: Config, s: State, k: Key, order: seq<nat>)
    requires ValidConfig(cfg) && s.senders.Keys == cfg.messages.Keys
    requires k in cfg.messages && Far(k) in s.recv.history && Far(k) in s.first
    requires forall i :: i in order ==> ChunkFrame(cfg, k, i) in s.net
    ensures Runs(cfg, s, DequeueSteps(cfg, k, order))
    ensures Exec(cfg, s, DequeueSteps(cfg, k, order)) == s
    decreases |order|
  {
    if order != [] {
      var steps := DequeueSteps(cfg, k, order);
      var f := ChunkFrame(cfg, k, order[0]);
      assert Far(k) == Key(f.port, f.id);
      assert Apply(cfg, s, steps[0]) == s;
      assert steps[1..] == DequeueSteps(cfg, k, order[1..]);
      DequeueDone(cfg, s, k, order[1..]);
    }
  }

  // ---- A recovery round ----------------------------------------------------------------------------------

  /** How many indexes one SEND_LOST_PACKETS_RESPONSE carries at most. */
  function ListLimit(cfg: Config, k: Key): nat
    requires ValidConfig(cfg) && k in cfg.messages
  {
    SendChunk(cfg, cfg.messages[k]) / 4
  }

  function LostList(cfg: Config, s: State, k: Key): seq<nat>
    requires ValidConfig(cfg) && k in cfg.messages
  {
    Take(Missing(Got(s.recv, Far(k)), Amount(cfg, k)), ListLimit(cfg, k))
  }

  function PollFrame(cfg: Config, k: Key): Frame
    requires k in cfg.messages
  {
    LostRequest(k.port, Swap(k.id), cfg.messages[k].mtu)
  }

  /** Ask for the lost list, receive it, and start walking it. */
  function AskSteps(cfg: Config, k: Key, list: seq<nat>): seq<Step>
    requires k in cfg.messages
  {
    [Poll(k)] + [Dequeue(PollFrame(cfg, k))] + [CopyList(LostResponse(k.port, k.id, list))]
    + [PublishList(k)] + [Observe(k)] + [Clear(k)]
  }

  /** The sending call is between two rounds, and the message is still in transfer. */
  ghost predicate InTransfer(cfg: Config, s: State, k: Key) {
    && ValidConfig(cfg) && s.senders.Keys == cfg.messages.Keys
    && k in cfg.messages && Chunked(cfg, cfg.messages[k])
    && s.senders[k].phase.Polling? && s.senders[k].staged.None?
    && Far(k) in s.recv.pending && Far(k) !in s.recv.history
  }

  function Asked(cfg: Config, s: State, k: Key, list: seq<nat>): State
    requires k in cfg.messages && k in s.senders
  {
    var lost := s.senders[k].lost;
    var rest := if |list| <= |lost| then lost[|list|..] else [];
    Put(s, k, Sending(Walking(0), list + rest, |list|, NoUpdate, None),
        {PollFrame(cfg, k), LostResponse(k.port, k.id, list)})
  }

  /** The run `steps` leads from s to s'. */
  ghost predicate Leads(cfg: Config, s: State, steps: seq<Step>, s': State) {
    Runs(cfg, s, steps) && Exec(cfg, s, steps) == s'
  }

  lemma Chain(cfg: Config, s: State, a: seq<Step>, s1: State, b: seq<Step>, s2: State)
    requires Leads(cfg, s, a, s1) && Leads(cfg, s1, b, s2)
    ensures Leads(cfg, s, a + b, s2)
  {
    RunsCompose(cfg, s, a, b);
  }

  lemma AskRuns(cfg: Config, s: State, k: Key, list: seq<nat>)
    requires InTransfer(cfg, s, k)
    requires s.recv.pending[Far(k)].amount == Amount(cfg, k) && list == LostList(cfg, s, k)
    ensures Leads(cfg, s, AskSteps(cfg, k, list), Asked(cfg, s, k, list))
  {
    var x := s.senders[k];
    var req, resp := PollFrame(cfg, k), LostResponse(k.port, k.id, list);
    var rest := if |list| <= |x.lost| then x.lost[|list|..] else [];
    var x3 := x.(lost := list + rest, staged := Some(|list|));
    var x4 := x.(lost := list + rest, size := |list|, updated := UpdatedLostChunks, staged := None);
    var x5 := x4.(phase := Walking(0), updated := NoUpdate);
    var s2 := s.(net := s.net + {req} + {resp});
    PollRuns(cfg, s, k, list);
    ListRuns(cfg, s2, k, list);
    Chain(cfg, s, [Poll(k)] + [Dequeue(req)], s2, [CopyList(resp)] + [PublishList(k)] + [Observe(k)] + [Clear(k)], Put(s2, k, x5, {}));
    assert Put(s2, k, x5, {}) == Asked(cfg, s, k, list) by {
      assert s2.net + {} == s.net + {req, resp};
    }
    assert AskSteps(cfg, k, list)
        == ([Poll(k)] + [Dequeue(req)]) + ([CopyList(resp)] + [PublishList(k)] + [Observe(k)] + [Clear(k)]);
  }

  lemma PollRuns(cfg: Config, s: State, k: Key, list: seq<nat>)
    requires InTransfer(cfg, s, k)
    requires s.recv.pending[Far(k)].amount == Amount(cfg, k) && list == LostList(cfg, s, k)
    ensures Leads(cfg, s, [Poll(k)] + [Dequeue(PollFrame(cfg, k))],
                  s.(net := s.net + {PollFrame(cfg, k)} + {LostResponse(k.port, k.id, list)}))
  {
    var req, resp := PollFrame(cfg, k), LostResponse(k.port, k.id, list);
    assert Far(k) == Key(req.port, req.id) && Swap(req.id) == k.id;
    var s1 := s.(net := s.net + {req});
    assert s.senders[k := s.senders[k]] == s.senders;
    assert Apply(cfg, s, Poll(k)) == s1;
    RunsOne(cfg, s, Poll(k));
    assert Apply(cfg, s1, Dequeue(req)) == s1.(net := s1.net + {resp});
    RunsOne(cfg, s1, Dequeue(req));
    Chain(cfg, s, [Poll(k)], s1, [Dequeue(req)], s1.(net := s1.net + {resp}));
  }

  lemma ListRuns(cfg: Config, s: State, k: Key, list: seq<nat>)
    requires ValidConfig(cfg) && s.senders.Keys == cfg.messages.Keys && k in cfg.messages
    requires s.senders[k].phase.Polling? && s.senders[k].staged.None?
    requires LostResponse(k.port, k.id, list) in s.net
    ensures var x := s.senders[k];
            var rest := if |list| <= |x.lost| then x.lost[|list|..] else [];
            Leads(cfg, s, [CopyList(LostResponse(k.port, k.id, list))] + [PublishList(k)] + [Observe(k)] + [Clear(k)],
                  Put(s, k, Sending(Walking(0), list + rest, |list|, NoUpdate, None), {}))
  {
    var resp := LostResponse(k.port, k.id, list);
    var x := s.senders[k];
    var rest := if |list| <= |x.lost| then x.lost[|list|..] else [];
    var s1 := Put(s, k, x.(lost := list + rest, staged := Some(|list|)), {});
    var s2 := Put(s1, k, Sending(Polling, list + rest, |list|, UpdatedLostChunks, None), {});
    var s3 := Put(s2, k, Sending(Seen(UpdatedLostChunks), list + rest, |list|, UpdatedLostChunks, None), {});
    var s4 := Put(s3, k, Sending(Walking(0), list + rest, |list|, NoUpdate, None), {});
    assert ReplyKey(resp) == k;
    RunsOne(cfg, s, CopyList(resp));
    RunsOne(cfg, s1, PublishList(k));
    RunsOne(cfg, s2, Observe(k));
    Chain(cfg, s, [CopyList(resp)], s1, [PublishList(k)], s2);
    Chain(cfg, s, [CopyList(resp)] + [PublishList(k)], s2, [Observe(k)], s3);
    RunsOne(cfg, s3, Clear(k));
    Chain(cfg, s, [CopyList(resp)] + [PublishList(k)] + [Observe(k)], s3, [Clear(k)], s4);
    assert s4 == Put(s, k, Sending(Walking(0), list + rest, |list|, NoUpdate, None), {});
  }

  lemma RunsOne(cfg: Config, s: State, st: Step)
    requires Enabled(cfg, s, st)
    ensures Leads(cfg, s, [st], Apply(cfg, s, st))
  {
    assert [st][1..] == [];
  }

  function Repeat(st: Step, n: nat): seq<Step> {
    if n == 0 then [] else [st] + Repeat(st, n - 1)
  }

  /** Walking the rest of the list puts a frame for each entry into the network. */
  lemma {:induction false} ResendAll(cfg: Config, s: State, k: Key)
    requires ValidConfig(cfg) && s.senders.Keys == cfg.messages.Keys && k in cfg.messages
    requires s.senders[k].phase.Walking? && s.senders[k].phase.at <= s.senders[k].size <= |s.senders[k].lost|
    ensures var x := s.senders[k];
            var steps := Repeat(Resend(k), x.size - x.phase.at);
            && Runs(cfg, s, steps)
            && var s' := Exec(cfg, s, steps);
            && s'.senders == s.senders[k := x.(phase := Walking(x.size))]
            && s'.recv == s.recv && s'.first == s.first && s.net <= s'.net
            && forall j :: x.phase.at <= j < x.size ==> ChunkFrame(cfg, k, x.lost[j]) in s'.net
    decreases s.senders[k].size - s.senders[k].phase.at
  {
    var x := s.senders[k];
    if x.phase.at < x.size {
      var s1 := Apply(cfg, s, Resend(k));
      ResendAll(cfg, s1, k);
      RunsCons(cfg, s, Resend(k), Repeat(Resend(k), x.size - x.phase.at - 1));
    } else {
      assert s.senders == s.senders[k := x.(phase := Walking(x.size))];
    }
  }

  /** Everything the sender does in a round. */
  function WalkSteps(cfg: Config, k: Key, list: seq<nat>): seq<Step>
    requires k in cfg.messages
  {
    AskSteps(cfg, k, list) + Repeat(Resend(k), |list|) + [EndWalk(k)]
  }

  /** The sending call has asked for the list and resent every entry of it. */
  ghost predicate Walked(cfg: Config, s: State, s': State, k: Key, list: seq<nat>)
    requires ValidConfig(cfg) && k in cfg.messages
  {
    && s'.recv == s.recv && s'.first == s.first
    && k in s'.senders && s'.senders[k].phase.Polling? && s'.senders[k].staged.None?
    && forall j :: 0 <= j < |list| ==> ChunkFrame(cfg, k, list[j]) in s'.net
  }

  lemma WalkRuns(cfg: Config, s: State, k: Key, list: seq<nat>) returns (s': State)
    requires InTransfer(cfg, s, k)
    requires s.recv.pending[Far(k)].amount == Amount(cfg, k) && list == LostList(cfg, s, k)
    ensures Leads(cfg, s, WalkSteps(cfg, k, list), s') && Walked(cfg, s, s', k, list)
  {
    AskRuns(cfg, s, k, list);
    var s1 := Asked(cfg, s, k, list);
    ResendAll(cfg, s1, k);
    var s2 := Exec(cfg, s1, Repeat(Resend(k), |list|));
    s' := EndRuns(cfg, s1, s2, k, list);
    Chain(cfg, s, AskSteps(cfg, k, list), s1, Repeat(Resend(k), |list|), s2);
    Chain(cfg, s, AskSteps(cfg, k, list) + Repeat(Resend(k), |list|), s2, [EndWalk(k)], s');
  }

  lemma EndRuns(cfg: Config, s1: State, s2: State, k: Key, list: seq<nat>) returns (s': State)
    requires ValidConfig(cfg) && s1.senders.Keys == cfg.messages.Keys && k in cfg.messages
    requires s1.senders[k].size == |list| <= |s1.senders[k].lost| && s1.senders[k].staged.None?
    requires forall j :: 0 <= j < |list| ==> s1.senders[k].lost[j] == list[j]
    requires s2.senders == s1.senders[k := s1.senders[k].(phase := Walking(|list|))]
    requires s2.recv == s1.recv && s2.first == s1.first
    requires forall j :: 0 <= j < |list| ==> ChunkFrame(cfg, k, s1.senders[k].lost[j]) in s2.net
    ensures Leads(cfg, s2, [EndWalk(k)], s') && Walked(cfg, s1, s', k, list)
  {
    s' := Apply(cfg, s2, EndWalk(k));
    RunsOne(cfg, s2, EndWalk(k));
  }

  function RoundSteps(cfg: Config, k: Key, list: seq<nat>, order: seq<nat>): seq<Step>
    requires ValidConfig(cfg) && k in cfg.messages
  {
    WalkSteps(cfg, k, list) + DequeueSteps(cfg, k, order)
  }

  /** What a recovery round achieves. */
  ghost predicate RoundDone(cfg: Config, s: State, s': State, k: Key)
    requires ValidConfig(cfg) && k in cfg.messages
  {
    && Remaining(cfg, s'.recv, k) == Remaining(cfg, s.recv, k) - Min(Remaining(cfg, s.recv, k), ListLimit(cfg, k))
    && k in s'.senders && s'.senders[k].phase.Polling? && s'.senders[k].staged.None?
    && (Far(k) !in s'.recv.history ==> s'.recv.slots == s.recv.slots)
    && (Far(k) in s'.recv.history ==> (HandedKey(s'.recv, Far(k)) <==> Wanted(cfg, s.recv, k)))
    && Far(k) in s'.first && Far(k) in s.first && s'.first[Far(k)] == s.first[Far(k)]
  }

  lemma RoundResult(cfg: Config, s: State, s1: State, s': State, k: Key, order: seq<nat>)
    requires InTransfer(cfg, s, k) && Far(k) in s.first
    requires forall j :: j in Got(s.recv, Far(k)) ==> j < Amount(cfg, k)
    requires |Got(s.recv, Far(k))| < Amount(cfg, k)
    requires Walked(cfg, s, s1, k, LostList(cfg, s, k))
    requires Elements(order) == Elements(LostList(cfg, s, k))
    requires if order == [] then s' == s1 else Adds(cfg, s1, s', k, Elements(order), order[0])
    ensures RoundDone(cfg, s, s', k)
  {
    var list := LostList(cfg, s, k);
    FillSize(Got(s.recv, Far(k)), Amount(cfg, k), ListLimit(cfg, k));
    assert forall x :: x in list ==> x in Elements(order);
    assert order == [] ==> list == [];
  }

  /** One recovery round without loss, the resent frames arriving in any order and any number of times,
      lowers the number of missing chunks by exactly min(missing, (mtu - header) / 4). */
  lemma LosslessRound(cfg: Config, s: State, k: Key, order: seq<nat>) returns (s': State)
    requires Inv(cfg, s) && InTransfer(cfg, s, k)
    requires Elements(order) == Elements(LostList(cfg, s, k))
    ensures Leads(cfg, s, RoundSteps(cfg, k, LostList(cfg, s, k), order), s')
    ensures RoundDone(cfg, s, s', k)
  {
    var list := LostList(cfg, s, k);
    var walk := WalkSteps(cfg, k, list);
    PendingFacts(cfg, s, k);
    assert Far(k) in s.first by {
      assert PendingEntryOK(cfg, s.recv, s.first, Far(k));
    }
    var s1 := WalkRuns(cfg, s, k, list);
    s' := s1;
    if order == [] {
      assert RoundSteps(cfg, k, list, order) == walk;
    } else {
      s' := DeliverList(cfg, s, s1, k, list, order);
      Chain(cfg, s, walk, s1, DequeueSteps(cfg, k, order), s');
    }
    RoundResult(cfg, s, s1, s', k, order);
  }

  lemma DeliverList(cfg: Config, s: State, s1: State, k: Key, list: seq<nat>, order: seq<nat>) returns (s': State)
    requires Inv(cfg, s) && InTransfer(cfg, s, k)
    requires Leads(cfg, s, WalkSteps(cfg, k, list), s1) && Walked(cfg, s, s1, k, list)
    requires order != [] && Elements(order) == Elements(list) && list == LostList(cfg, s, k)
    ensures Leads(cfg, s1, DequeueSteps(cfg, k, order), s')
    ensures Adds(cfg, s1, s', k, Elements(order), order[0])
  {
    PendingFacts(cfg, s, k);
    FillSize(Got(s.recv, Far(k)), Amount(cfg, k), ListLimit(cfg, k));
    assert InFlight(cfg, s1, k, order) by {
      forall i | i in order ensures i < Amount(cfg, k) && ChunkFrame(cfg, k, i) in s1.net {
        assert i in Elements(order);
      }
    }
    ExecInv(cfg, s, WalkSteps(cfg, k, list));
    DequeueAll(cfg, s1, k, order);
    s' := Exec(cfg, s1, DequeueSteps(cfg, k, order));
  }

  // ---- Rounds until completion ---------------------------------------------------------------------------

  /** s' follows s by one lossless round: the sender asks for the list and resends all of it, and the frames
      arrive in `order`, each at least once. Once the message is recorded complete there is nothing to do. */
  ghost predicate Round(cfg: Config, s: State, s': State, k: Key, order: seq<nat>)
    requires ValidConfig(cfg) && k in cfg.messages
  {
    if Far(k) in s.recv.history then s' == s
    else
      && Elements(order) == Elements(LostList(cfg, s, k))
      && Leads(cfg, s, RoundSteps(cfg, k, LostList(cfg, s, k), order), s')
  }

  /** Any number of such rounds, with any arrival orders. */
  ghost predicate RoundTrace(cfg: Config, k: Key, states: seq<State>, orders: seq<seq<nat>>)
    requires ValidConfig(cfg) && k in cfg.messages
  {
    |states| == |orders| + 1 && forall i :: 0 <= i < |orders| ==> Round(cfg, states[i], states[i + 1], k, orders[i])
  }

  /** The steps of the first n rounds. */
  ghost function TraceSteps(cfg: Config, k: Key, states: seq<State>, orders: seq<seq<nat>>, n: nat): seq<Step>
    requires ValidConfig(cfg) && k in cfg.messages && RoundTrace(cfg, k, states, orders) && n <= |orders|
  {
    if n == 0 then []
    else
      var before, s := TraceSteps(cfg, k, states, orders, n - 1), states[n - 1];
      if Far(k) in s.recv.history then before else before + RoundSteps(cfg, k, LostList(cfg, s, k), orders[n - 1])
  }

  lemma {:induction false} TraceRuns(cfg: Config, k: Key, states: seq<State>, orders: seq<seq<nat>>, n: nat)
    requires ValidConfig(cfg) && k in cfg.messages && RoundTrace(cfg, k, states, orders) && n <= |orders|
    ensures Leads(cfg, states[0], TraceSteps(cfg, k, states, orders, n), states[n])
  {
    if n > 0 {
      var before, s := TraceSteps(cfg, k, states, orders, n - 1), states[n - 1];
      TraceRuns(cfg, k, states, orders, n - 1);
      assert Round(cfg, states[n - 1], states[n - 1 + 1], k, orders[n - 1]);
      if Far(k) !in s.recv.history {
        Chain(cfg, states[0], before, s, RoundSteps(cfg, k, LostList(cfg, s, k), orders[n - 1]), states[n]);
      }
    }
  }

  lemma Complete(cfg: Config, s: State, k: Key)
    requires Inv(cfg, s) && k in cfg.messages && Chunked(cfg, cfg.messages[k])
    ensures Far(k) in s.recv.history <==> Remaining(cfg, s.recv, k) == 0
  {
    if Far(k) !in s.recv.history {
      PendingFacts(cfg, s, k);
    }
  }

  lemma StillPending(cfg: Config, s: State, k: Key)
    requires Inv(cfg, s) && k in cfg.messages && Chunked(cfg, cfg.messages[k])
    requires s.senders[k].phase.Polling? && s.senders[k].staged.None?
    requires Far(k) in s.first && Far(k) !in s.recv.history
    ensures InTransfer(cfg, s, k)
  {
  }

  /** What one round does to a message in transfer. */
  ghost predicate RoundFacts(cfg: Config, s: State, s': State, k: Key)
    requires ValidConfig(cfg) && k in cfg.messages
  {
    if Far(k) in s.recv.history then s' == s
    else InTransfer(cfg, s, k) ==>
           && RoundDone(cfg, s, s', k)
           && (Far(k) in s'.recv.history <==> Remaining(cfg, s'.recv, k) == 0)
           && (Far(k) !in s'.recv.history ==> InTransfer(cfg, s', k))
  }

  lemma RoundIs(cfg: Config, s: State, s': State, k: Key, order: seq<nat>)
    requires Inv(cfg, s) && k in cfg.messages && Round(cfg, s, s', k, order)
    ensures RoundFacts(cfg, s, s', k)
  {
    if Far(k) !in s.recv.history && InTransfer(cfg, s, k) {
      var t := LosslessRound(cfg, s, k, order);
      ExecInv(cfg, s, RoundSteps(cfg, k, LostList(cfg, s, k), order));
      Complete(cfg, s', k);
      if Far(k) !in s'.recv.history {
        StillPending(cfg, s', k);
      }
    }
  }

  lemma TraceFacts(cfg: Config, k: Key, states: seq<State>, orders: seq<seq<nat>>, i: nat)
    requires ValidConfig(cfg) && k in cfg.messages && RoundTrace(cfg, k, states, orders) && i < |orders|
    requires Inv(cfg, states[0])
    ensures RoundFacts(cfg, states[i], states[i + 1], k)
  {
    TraceRuns(cfg, k, states, orders, i);
    ExecInv(cfg, states[0], TraceSteps(cfg, k, states, orders, i));
    assert Round(cfg, states[i], states[i + 1], k, orders[i]);
    RoundIs(cfg, states[i], states[i + 1], k, orders[i]);
  }

  /** Where n rounds lead. */
  ghost predicate Progressed(cfg: Config, s0: State, s: State, k: Key, n: nat)
    requires ValidConfig(cfg) && k in cfg.messages && Far(k) in s0.first
  {
    var missing, limit := Remaining(cfg, s0.recv, k), ListLimit(cfg, k);
    && Remaining(cfg, s.recv, k) == missing - Min(missing, n * limit)
    && (Far(k) in s.recv.history <==> n * limit >= missing)
    && (Far(k) in s.recv.history ==> (HandedKey(s.recv, Far(k)) <==> Wanted(cfg, s0.recv, k)))
    && (Far(k) !in s.recv.history ==> InTransfer(cfg, s, k) && s.recv.slots == s0.recv.slots)
    && k in s.senders && s.senders[k].phase.Polling?
    && Far(k) in s.first && s.first[Far(k)] == s0.first[Far(k)]
  }

  lemma ProgressedNext(cfg: Config, s0: State, s: State, s': State, k: Key, n: nat)
    requires ValidConfig(cfg) && k in cfg.messages && Far(k) in s0.first && Progressed(cfg, s0, s, k, n)
    requires RoundFacts(cfg, s, s', k)
    ensures Progressed(cfg, s0, s', k, n + 1)
  {
    MulStep(n, ListLimit(cfg, k));
  }

  lemma {:induction false} TraceProgress(cfg: Config, k: Key, states: seq<State>, n: nat)
    requires ValidConfig(cfg) && k in cfg.messages && n < |states|
    requires forall i :: 0 <= i < n ==> RoundFacts(cfg, states[i], states[i + 1], k)
    requires Far(k) in states[0].first && InTransfer(cfg, states[0], k) && Remaining(cfg, states[0].recv, k) > 0
    ensures Progressed(cfg, states[0], states[n], k, n)
  {
    if n > 0 {
      TraceProgress(cfg, k, states, n - 1);
      assert RoundFacts(cfg, states[n - 1], states[n - 1 + 1], k);
      ProgressedNext(cfg, states[0], states[n - 1], states[n], k, n - 1);
    }
  }

  /** n rounds from a state in transfer. */
  lemma RoundsProgress(cfg: Config, k: Key, states: seq<State>, orders: seq<seq<nat>>)
    requires ValidConfig(cfg) && k in cfg.messages && RoundTrace(cfg, k, states, orders)
    requires Inv(cfg, states[0]) && InTransfer(cfg, states[0], k)
    ensures Far(k) in states[0].first && Progressed(cfg, states[0], states[|orders|], k, |orders|)
    ensures Remaining(cfg, states[0].recv, k) > 0
  {
    assert PendingEntryOK(cfg, states[0].recv, states[0].first, Far(k));
    Complete(cfg, states[0], k);
    forall i | 0 <= i < |orders| ensures RoundFacts(cfg, states[i], states[i + 1], k) {
      TraceFacts(cfg, k, states, orders, i);
    }
    TraceProgress(cfg, k, states, |orders|);
  }

  /** For every sequence of lossless rounds, whatever the arrival orders: after n of them exactly
      max(0, missing - n * ((mtu - header) / 4)) chunks are missing; the message is recorded complete if and
      only if n reaches ceil(missing / ((mtu - header) / 4)), and never if a reply holds no index at all; and
      it is then handed on if and only if somebody waits for it. */
  lemma RoundsExact(cfg: Config, k: Key, states: seq<State>, orders: seq<seq<nat>>)
    requires ValidConfig(cfg) && k in cfg.messages && RoundTrace(cfg, k, states, orders)
    requires Inv(cfg, states[0]) && InTransfer(cfg, states[0], k)
    ensures var missing, limit := Remaining(cfg, states[0].recv, k), ListLimit(cfg, k);
            var n, r := |orders|, states[|orders|].recv;
            && Remaining(cfg, r, k) == missing - Min(missing, n * limit)
            && (limit > 0 ==> (Far(k) in r.history <==> n >= Count(missing, limit)))
            && (limit == 0 ==> Far(k) !in r.history)
            && (Far(k) in r.history ==> (HandedKey(r, Far(k)) <==> Wanted(cfg, states[0].recv, k)))
  {
    RoundsProgress(cfg, k, states, orders);
    if ListLimit(cfg, k) > 0 {
      IndexBounds(Remaining(cfg, states[0].recv, k), ListLimit(cfg, k), |orders|);
    }
  }

  /** From any state in transfer any number of lossless rounds can follow. */
  lemma {:induction false} RoundsExist(cfg: Config, s: State, k: Key, n: nat) returns (states: seq<State>, orders: seq<seq<nat>>)
    requires Inv(cfg, s) && InTransfer(cfg, s, k)
    ensures RoundTrace(cfg, k, states, orders) && |orders| == n && states[0] == s
    decreases n
  {
    if n == 0 {
      states, orders := [s], [];
    } else {
      states, orders := RoundsExist(cfg, s, k, n - 1);
      var next := OneMore(cfg, k, states, orders);
      states, orders := states + [next], orders + [LostList(cfg, states[n - 1], k)];
    }
  }

  lemma OneMore(cfg: Config, k: Key, states: seq<State>, orders: seq<seq<nat>>) returns (next: State)
    requires ValidConfig(cfg) && k in cfg.messages && RoundTrace(cfg, k, states, orders)
    requires Inv(cfg, states[0]) && InTransfer(cfg, states[0], k)
    ensures RoundTrace(cfg, k, states + [next], orders + [LostList(cfg, states[|orders|], k)])
  {
    var n := |orders|;
    next := states[n];
    if Far(k) !in next.recv.history {
      RoundsProgress(cfg, k, states, orders);
      TraceRuns(cfg, k, states, orders, n);
      ExecInv(cfg, states[0], TraceSteps(cfg, k, states, orders, n));
      next := LosslessRound(cfg, states[n], k, LostList(cfg, states[n], k));
    }
    TraceAppend(cfg, k, states, orders, next, LostList(cfg, states[n], k));
  }

  lemma TraceAppend(cfg: Config, k: Key, states: seq<State>, orders: seq<seq<nat>>, next: State, order: seq<nat>)
    requires ValidConfig(cfg) && k in cfg.messages && RoundTrace(cfg, k, states, orders)
    requires Round(cfg, states[|orders|], next, k, order)
    ensures RoundTrace(cfg, k, states + [next], orders + [order])
  {
    var states', orders' := states + [next], orders + [order];
    forall i | 0 <= i < |orders'| ensures Round(cfg, states'[i], states'[i + 1], k, orders'[i]) {
      if i < |orders| {
        assert Round(cfg, states[i], states[i + 1], k, orders[i]);
      }
    }
  }
}
