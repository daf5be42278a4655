/** When a chunked sending call can return, and when recovery cannot even start. */
module ProtocolReturn {
  import opened Options
  import opened Chunks
  import opened Protocol
  import opened ProtocolInvariant
  import opened ProtocolSafety
  import opened ProtocolProgress
  import opened ProtocolDelivery

  // ---- When a sending call can return ------------------------------------------------------------------------

  /** Some continuation returns the call through its completed path. */
  ghost predicate CanReturn(cfg: Config, s: State, k: Key) {
    exists more :: Runs(cfg, s, more) && k in Exec(cfg, s, more).senders && Exec(cfg, s, more).senders[k].phase.Completed?
  }

  /** No request registers during these steps. */
  ghost predicate Quiet(steps: seq<Step>) {
    forall i :: 0 <= i < |steps| ==> !steps[i].RegisterSlot?
  }

  /** Some continuation in which no further request registers does. */
  ghost predicate ReturnsUnaided(cfg: Config, s: State, k: Key) {
    exists more :: Quiet(more) && Runs(cfg, s, more)
      && k in Exec(cfg, s, more).senders && Exec(cfg, s, more).senders[k].phase.Completed?
  }

  lemma UnaidedReturns(cfg: Config, s: State, k: Key)
    requires ReturnsUnaided(cfg, s, k)
    ensures CanReturn(cfg, s, k)
  {
  }

  lemma {:induction false} RepeatIs(st: Step, n: nat)
    ensures forall i :: 0 <= i < |Repeat(st, n)| ==> Repeat(st, n)[i] == st
  {
    if n > 0 {
      RepeatIs(st, n - 1);
    }
  }

  /** A call on its way is back in its polling loop, or has returned; the receiver is untouched. */
  ghost predicate Back(s: State, s': State, k: Key) {
    && s'.recv == s.recv && s'.senders.Keys == s.senders.Keys
    && k in s'.senders && (s'.senders[k].phase.Polling? || s'.senders[k].phase.Completed?)
  }

  lemma WalkOut(cfg: Config, s: State, k: Key) returns (steps: seq<Step>, s': State)
    requires ValidConfig(cfg) && s.senders.Keys == cfg.messages.Keys && k in cfg.messages
    requires s.senders[k].phase.Walking? && s.senders[k].size <= |s.senders[k].lost|
    ensures Leads(cfg, s, steps, s') && Back(s, s', k) && Quiet(steps)
    ensures s'.senders[k] == s.senders[k].(phase := Polling)
    ensures forall i :: 0 <= i < |steps| ==> steps[i] == Resend(k) || steps[i] == EndWalk(k)
  {
    var x := s.senders[k];
    if x.phase.at < x.size {
      ResendAll(cfg, s, k);
      var walk := Repeat(Resend(k), x.size - x.phase.at);
      RepeatIs(Resend(k), x.size - x.phase.at);
      var s1 := Exec(cfg, s, walk);
      RunsOne(cfg, s1, EndWalk(k));
      s' := Apply(cfg, s1, EndWalk(k));
      steps := walk + [EndWalk(k)];
      Chain(cfg, s, walk, s1, [EndWalk(k)], s');
    } else {
      RunsOne(cfg, s, EndWalk(k));
      steps, s' := [EndWalk(k)], Apply(cfg, s, EndWalk(k));
    }
  }

  lemma BackToPolling(cfg: Config, s: State, k: Key) returns (steps: seq<Step>, s': State)
    requires ValidConfig(cfg) && s.senders.Keys == cfg.messages.Keys && k in cfg.messages
    requires Active(s.senders[k].phase) && SenderOK(cfg, k, s.senders[k])
    ensures Leads(cfg, s, steps, s') && Back(s, s', k) && Quiet(steps)
  {
    var x := s.senders[k];
    match x.phase
    case Chunking(next) =>
      FirstPass(cfg, s, k);
      steps := Repeat(SendNext(k), Amount(cfg, k) - next);
      RepeatIs(SendNext(k), Amount(cfg, k) - next);
      s' := Exec(cfg, s, steps);
    case Polling =>
      steps, s' := [], s;
    case Seen(status) =>
      RunsOne(cfg, s, Clear(k));
      var s1 := Apply(cfg, s, Clear(k));
      steps, s' := [Clear(k)], s1;
      if !status.SuccessfullyReceived? {
        var rest;
        rest, s' := WalkOut(cfg, s1, k);
        Chain(cfg, s, [Clear(k)], s1, rest, s');
        steps := [Clear(k)] + rest;
      }
    case Walking(_) =>
      steps, s' := WalkOut(cfg, s, k);
  }

  lemma ReturnsFrom(cfg: Config, s: State, k: Key)
    requires Inv(cfg, s) && WaitingOK(cfg, s.recv) && TakenOK(cfg, s.recv) && k in cfg.messages
    requires s.senders[k].phase.Polling? && Far(k) in s.recv.history && HandedKey(s.recv, Far(k))
    ensures ReturnsUnaided(cfg, s, k)
  {
    assert Far(Far(k)) == k;
    assert Taken(cfg, s.recv, Far(k));
    var n, s1 := DrainQueue(cfg, s, k);
    DrainedReturns(cfg, s, s1, n, k);
  }

  lemma DrainedReturns(cfg: Config, s: State, s1: State, n: nat, k: Key)
    requires ValidConfig(cfg) && s1.senders.Keys == cfg.messages.Keys && k in cfg.messages
    requires Leads(cfg, s, Repeat(RunCallback, n), s1) && s1.senders[k].phase.Polling? && Settled(s1.recv, Far(k))
    ensures ReturnsUnaided(cfg, s, k)
  {
    var s2 := AckRuns(cfg, s1, k);
    Chain(cfg, s, Repeat(RunCallback, n), s1, AckSteps(cfg, k), s2);
    RepeatIs(RunCallback, n);
    assert Quiet(Repeat(RunCallback, n) + AckSteps(cfg, k));
  }

  lemma ReturnsLater(cfg: Config, s: State, steps: seq<Step>, s': State, k: Key)
    requires Leads(cfg, s, steps, s') && ReturnsUnaided(cfg, s', k)
    ensures CanReturn(cfg, s, k)
    ensures Quiet(steps) ==> ReturnsUnaided(cfg, s, k)
  {
    var more :| Quiet(more) && Runs(cfg, s', more)
      && k in Exec(cfg, s', more).senders && Exec(cfg, s', more).senders[k].phase.Completed?;
    RunsCompose(cfg, s, steps, more);
    assert Quiet(steps) ==> Quiet(steps + more);
  }

  /** A chunked call that is still on its way, and whose message the receiver has recorded complete, can
      return if and only if the message was handed on; it then needs no other request to register. */
  lemma ReturnIff(cfg: Config, steps: seq<Step>, k: Key)
    requires ValidConfig(cfg) && Runs(cfg, Init(cfg), steps) && k in cfg.messages && Chunked(cfg, cfg.messages[k])
    requires Active(Final(cfg, steps).senders[k].phase) && Far(k) in Final(cfg, steps).recv.history
    ensures CanReturn(cfg, Final(cfg, steps), k) <==> HandedKey(Final(cfg, steps).recv, Far(k))
    ensures ReturnsUnaided(cfg, Final(cfg, steps), k) <==> HandedKey(Final(cfg, steps).recv, Far(k))
  {
    var s := Final(cfg, steps);
    if ReturnsUnaided(cfg, s, k) {
      UnaidedReturns(cfg, s, k);
    }
    if HandedKey(s.recv, Far(k)) {
      FinalInv(cfg, steps);
      var back, s1 := BackToPolling(cfg, s, k);
      HandedReturns(cfg, steps, k, back, s1);
    } else if CanReturn(cfg, s, k) {
      var more :| Runs(cfg, s, more) && k in Exec(cfg, s, more).senders && Exec(cfg, s, more).senders[k].phase.Completed?;
      AbandonedNeverAcknowledged(cfg, steps, more, k);
    }
  }

  lemma HandedReturns(cfg: Config, steps: seq<Step>, k: Key, back: seq<Step>, s1: State)
    requires ValidConfig(cfg) && Runs(cfg, Init(cfg), steps) && k in cfg.messages
    requires Far(k) in Final(cfg, steps).recv.history && HandedKey(Final(cfg, steps).recv, Far(k))
    requires Leads(cfg, Final(cfg, steps), back, s1) && Back(Final(cfg, steps), s1, k) && Quiet(back)
    ensures CanReturn(cfg, Final(cfg, steps), k) && ReturnsUnaided(cfg, Final(cfg, steps), k)
  {
    var s := Final(cfg, steps);
    if s1.senders[k].phase.Polling? {
      InitInv(cfg);
      RunsCompose(cfg, Init(cfg), steps, back);
      ExecInv(cfg, Init(cfg), steps + back);
      WaitingExec(cfg, Init(cfg), steps + back);
      TakenExec(cfg, Init(cfg), steps + back);
      ReturnsFrom(cfg, s1, k);
      ReturnsLater(cfg, s, back, s1, k);
    }
  }

  /** The frame that completes a chunked message decides: afterwards the call can return if and only if the
      message is no response or its request still waited at that moment. */
  lemma CompletionDecides(cfg: Config, steps: seq<Step>, f: Frame)
    requires ValidConfig(cfg) && Runs(cfg, Init(cfg), steps)
    requires f in Final(cfg, steps).net && f.Data? && Enabled(cfg, Final(cfg, steps), Dequeue(f))
    requires var s, rk := Final(cfg, steps), Key(f.port, f.id);
             && rk !in s.recv.history && rk in Apply(cfg, s, Dequeue(f)).recv.history
             && Far(rk) in cfg.messages && Chunked(cfg, cfg.messages[Far(rk)]) && Active(s.senders[Far(rk)].phase)
    ensures var s, k := Final(cfg, steps), Far(Key(f.port, f.id));
            CanReturn(cfg, Apply(cfg, s, Dequeue(f)), k) <==> Wanted(cfg, s.recv, k)
  {
    var s, k := Final(cfg, steps), Far(Key(f.port, f.id));
    assert Far(k) == Key(f.port, f.id);
    CompletionHandsOn(cfg, steps, f);
    RunsOne(cfg, s, Dequeue(f));
    Chain(cfg, Init(cfg), steps, s, [Dequeue(f)], Apply(cfg, s, Dequeue(f)));
    ReturnIff(cfg, steps + [Dequeue(f)], k);
  }

  /** Every run that brought the receiver a part of a chunked message and the sender to its polling loop, and
      every sequence of lossless rounds after it that is long enough: the call can then return if and only if
      somebody waited for the message. */
  lemma TransferFinishes(cfg: Config, steps: seq<Step>, k: Key, states: seq<State>, orders: seq<seq<nat>>)
    requires ValidConfig(cfg) && Runs(cfg, Init(cfg), steps) && k in cfg.messages
    requires InTransfer(cfg, Final(cfg, steps), k) && ListLimit(cfg, k) > 0
    requires RoundTrace(cfg, k, states, orders) && states[0] == Final(cfg, steps)
    requires |orders| >= Count(Remaining(cfg, states[0].recv, k), ListLimit(cfg, k))
    ensures CanReturn(cfg, states[|orders|], k) <==> Wanted(cfg, states[0].recv, k)
  {
    FinalInv(cfg, steps);
    RoundsExact(cfg, k, states, orders);
    RoundsProgress(cfg, k, states, orders);
    TraceRuns(cfg, k, states, orders, |orders|);
    var rounds := TraceSteps(cfg, k, states, orders, |orders|);
    Chain(cfg, Init(cfg), steps, states[0], rounds, states[|orders|]);
    ReturnIff(cfg, steps + rounds, k);
  }

  // ---- No transfer is stuck but an abandoned one --------------------------------------------------------------

  /** The chunks the call has sent in its first pass. */
  function Passed(cfg: Config, k: Key, p: Phase): nat
    requires ValidConfig(cfg) && k in cfg.messages
  {
    match p
    case Chunking(next) => next
    case Polling => Amount(cfg, k)
    case Seen(_) => Amount(cfg, k)
    case Walking(_) => Amount(cfg, k)
    case _ => 0
  }

  ghost predicate SentTo(cfg: Config, s: State, k: Key, n: nat)
    requires ValidConfig(cfg) && k in cfg.messages
  {
    forall j: nat :: j < n ==> ChunkFrame(cfg, k, j) in s.net
  }

  /** A call's first-pass frames stay in the network. */
  ghost predicate SentOK(cfg: Config, s: State)
    requires ValidConfig(cfg) && s.senders.Keys == cfg.messages.Keys
  {
    forall k :: k in s.senders ==> SentTo(cfg, s, k, Passed(cfg, k, s.senders[k].phase))
  }

  lemma NetGrows(cfg: Config, s: State, st: Step)
    requires Enabled(cfg, s, st)
    ensures s.net <= Apply(cfg, s, st).net
  {
  }

  lemma SameCalls(cfg: Config, s: State, st: Step)
    requires Enabled(cfg, s, st)
    ensures Apply(cfg, s, st).senders.Keys == s.senders.Keys
  {
  }

  /** Only a chunk that is sent lets the pass advance. */
  lemma PassedStep(cfg: Config, s: State, st: Step, k: Key)
    requires Enabled(cfg, s, st) && k in s.senders && SenderOK(cfg, k, s.senders[k])
    ensures var s' := Apply(cfg, s, st);
            && k in s'.senders
            && var n, n' := Passed(cfg, k, s.senders[k].phase), Passed(cfg, k, s'.senders[k].phase);
            n' <= n || (n' == n + 1 && ChunkFrame(cfg, k, n) in s'.net)
  {
    if st == SendNext(k) {
      PassNext(cfg, s, k);
    } else {
      NotPassed(cfg, s, st, k);
    }
  }

  lemma NotPassed(cfg: Config, s: State, st: Step, k: Key)
    requires Enabled(cfg, s, st) && k in s.senders && st != SendNext(k)
    ensures k in Apply(cfg, s, st).senders
    ensures Passed(cfg, k, Apply(cfg, s, st).senders[k].phase) <= Passed(cfg, k, s.senders[k].phase)
  {
  }

  lemma SentKey(cfg: Config, s: State, s': State, k: Key, n: nat, n': nat)
    requires ValidConfig(cfg) && k in cfg.messages && SentTo(cfg, s, k, n) && s.net <= s'.net
    requires n' <= n || (n' == n + 1 && ChunkFrame(cfg, k, n) in s'.net)
    ensures SentTo(cfg, s', k, n')
  {
    forall j: nat | j < n' ensures ChunkFrame(cfg, k, j) in s'.net {
      assert j < n ==> ChunkFrame(cfg, k, j) in s.net;
    }
  }

  lemma SentStep(cfg: Config, s: State, st: Step)
    requires Enabled(cfg, s, st) && SentOK(cfg, s) && forall k :: k in s.senders ==> SenderOK(cfg, k, s.senders[k])
    ensures Apply(cfg, s, st).senders.Keys == cfg.messages.Keys && SentOK(cfg, Apply(cfg, s, st))
  {
    NetGrows(cfg, s, st);
    SameCalls(cfg, s, st);
    var s' := Apply(cfg, s, st);
    forall k | k in s'.senders ensures SentTo(cfg, s', k, Passed(cfg, k, s'.senders[k].phase)) {
      PassedStep(cfg, s, st, k);
      SentKey(cfg, s, s', k, Passed(cfg, k, s.senders[k].phase), Passed(cfg, k, s'.senders[k].phase));
    }
  }

  lemma {:induction false} SentExec(cfg: Config, s: State, steps: seq<Step>)
    requires Inv(cfg, s) && Runs(cfg, s, steps) && SentOK(cfg, s)
    ensures Exec(cfg, s, steps).senders.Keys == cfg.messages.Keys && SentOK(cfg, Exec(cfg, s, steps))
    decreases |steps|
  {
    if steps != [] {
      SentStep(cfg, s, steps[0]);
      StepInv(cfg, s, steps[0]);
      SentExec(cfg, Apply(cfg, s, steps[0]), steps[1..]);
    }
  }

  /** Every chunk frame in the network: a waiting request and all of them complete the message. */
  lemma CanComplete(cfg: Config, s: State, k: Key) returns (more: seq<Step>, s': State)
    requires Inv(cfg, s) && k in cfg.messages && Chunked(cfg, cfg.messages[k]) && Far(k) !in s.recv.history
    requires SentTo(cfg, s, k, Amount(cfg, k))
    ensures Leads(cfg, s, more, s') && s'.senders == s.senders
    ensures Far(k) in s'.recv.history && HandedKey(s'.recv, Far(k))
    ensures Wanted(cfg, s.recv, k) ==> Quiet(more)
  {
    var register := if Wanted(cfg, s.recv, k) then [] else [RegisterSlot(Far(k).id)];
    var s1 := if Wanted(cfg, s.recv, k) then s else Apply(cfg, s, RegisterSlot(Far(k).id));
    if !Wanted(cfg, s.recv, k) {
      RunsOne(cfg, s, RegisterSlot(Far(k).id));
      StepInv(cfg, s, RegisterSlot(Far(k).id));
    }
    var order := InOrder(cfg, k);
    s' := CompleteAll(cfg, s1, k, order);
    more := register + DequeueSteps(cfg, k, order);
    Chain(cfg, s, register, s1, DequeueSteps(cfg, k, order), s');
    DequeuesAre(cfg, k, order);
  }

  lemma CompleteAll(cfg: Config, s: State, k: Key, order: seq<nat>) returns (s': State)
    requires Inv(cfg, s) && k in cfg.messages && Chunked(cfg, cfg.messages[k]) && Far(k) !in s.recv.history
    requires SentTo(cfg, s, k, Amount(cfg, k)) && Wanted(cfg, s.recv, k) && Covers(cfg, k, order)
    ensures Leads(cfg, s, DequeueSteps(cfg, k, order), s') && s'.senders == s.senders
    ensures Far(k) in s'.recv.history && HandedKey(s'.recv, Far(k))
  {
    PendingFacts(cfg, s, k);
    assert 0 in order;
    DequeueAll(cfg, s, k, order);
    s' := Exec(cfg, s, DequeueSteps(cfg, k, order));
    AllElements(Got(s.recv, Far(k)), order, Amount(cfg, k));
  }

  lemma {:induction false} DequeuesAre(cfg: Config, k: Key, order: seq<nat>)
    requires ValidConfig(cfg) && k in cfg.messages
    ensures forall i :: 0 <= i < |DequeueSteps(cfg, k, order)| ==> DequeueSteps(cfg, k, order)[i].Dequeue?
  {
    if order != [] {
      DequeuesAre(cfg, k, order[1..]);
    }
  }

  /** In every run, and wherever a chunked call is on its way: it can return if and only if its message was not
      abandoned, that is, recorded complete without being handed on. If no further request registers, it can if
      and only if the message was handed on, or is still incomplete and somebody waits for it. */
  lemma StuckIffAbandoned(cfg: Config, steps: seq<Step>, k: Key)
    requires ValidConfig(cfg) && Runs(cfg, Init(cfg), steps) && k in cfg.messages && Chunked(cfg, cfg.messages[k])
    requires Active(Final(cfg, steps).senders[k].phase)
    ensures var r := Final(cfg, steps).recv;
            && (CanReturn(cfg, Final(cfg, steps), k) <==> !(Far(k) in r.history && !HandedKey(r, Far(k))))
            && (ReturnsUnaided(cfg, Final(cfg, steps), k) <==>
                if Far(k) in r.history then HandedKey(r, Far(k)) else Wanted(cfg, r, k))
  {
    if Far(k) in Final(cfg, steps).recv.history {
      ReturnIff(cfg, steps, k);
    } else {
      FinalInv(cfg, steps);
      var back, s1 := BackToPolling(cfg, Final(cfg, steps), k);
      UnfinishedReturns(cfg, steps, k, back, s1);
      if ReturnsUnaided(cfg, Final(cfg, steps), k) && !Wanted(cfg, Final(cfg, steps).recv, k) {
        var s := Final(cfg, steps);
        var more :| Quiet(more) && Runs(cfg, s, more)
          && k in Exec(cfg, s, more).senders && Exec(cfg, s, more).senders[k].phase.Completed?;
        DoomedStays(cfg, s, more, k);
      }
    }
  }

  /** A chunked response that nobody waits for, or that was abandoned. */
  ghost predicate Doomed(cfg: Config, r: Receiver, k: Key)
    requires k in cfg.messages
  {
    if Far(k) in r.history then !HandedKey(r, Far(k)) else !Wanted(cfg, r, k)
  }

  lemma DoomedStep(cfg: Config, s: State, st: Step, k: Key)
    requires Inv(cfg, s) && Enabled(cfg, s, st) && !st.RegisterSlot? && k in cfg.messages && Doomed(cfg, s.recv, k)
    ensures Doomed(cfg, Apply(cfg, s, st).recv, k)
  {
    if Far(k) in s.recv.history {
      HandedStep(cfg, s, st, Far(k));
    } else if st.Dequeue? && st.f.Data? {
      DoomedData(cfg, s, st.f, k);
    } else {
      OtherSteps(cfg, s, st);
    }
  }

  lemma DoomedData(cfg: Config, s: State, f: Frame, k: Key)
    requires Inv(cfg, s) && f in s.net && f.Data? && Min(f.mtu, cfg.mtu) > HEADER && k in cfg.messages
    requires Far(k) !in s.recv.history && !Wanted(cfg, s.recv, k)
    ensures Doomed(cfg, ReceiveData(s.recv, cfg.mtu, f), k)
  {
    assert FrameOK(cfg, f);
    assert Far(Far(k)) == k;
    if Key(f.port, f.id) == Far(k) {
      NotHanded(cfg, s, Far(k));
      CompletionHands(s.recv, cfg.mtu, f);
    }
  }

  lemma {:induction false} DoomedStays(cfg: Config, s: State, more: seq<Step>, k: Key)
    requires Inv(cfg, s) && Runs(cfg, s, more) && Quiet(more) && k in cfg.messages && Chunked(cfg, cfg.messages[k])
    requires Doomed(cfg, s.recv, k)
    ensures k in Exec(cfg, s, more).senders && !Exec(cfg, s, more).senders[k].phase.Completed?
    decreases |more|
  {
    if more == [] {
      DoomedNotCompleted(cfg, s, k);
    } else {
      DoomedStep(cfg, s, more[0], k);
      StepInv(cfg, s, more[0]);
      DoomedStays(cfg, Apply(cfg, s, more[0]), more[1..], k);
    }
  }

  lemma DoomedNotCompleted(cfg: Config, s: State, k: Key)
    requires Inv(cfg, s) && k in cfg.messages && Chunked(cfg, cfg.messages[k]) && Doomed(cfg, s.recv, k)
    ensures k in s.senders && !s.senders[k].phase.Completed?
  {
    assert Far(Far(k)) == k;
    assert Acknowledged(s.senders[k]) ==> Settled(s.recv, Far(k));
  }

  lemma CompletedReturns(cfg: Config, s: State, back: seq<Step>, s1: State, steps: seq<Step>, more: seq<Step>, s2: State, k: Key)
    requires ValidConfig(cfg) && k in cfg.messages && Chunked(cfg, cfg.messages[k])
    requires Leads(cfg, s, back, s1) && Leads(cfg, s1, more, s2) && Leads(cfg, Init(cfg), steps + more, s2)
    requires k in s2.senders && s2.senders[k].phase.Polling? && Far(k) in s2.recv.history && HandedKey(s2.recv, Far(k))
    ensures CanReturn(cfg, s, k) && (Quiet(back) && Quiet(more) ==> ReturnsUnaided(cfg, s, k))
  {
    ReturnIff(cfg, steps + more, k);
    Chain(cfg, s, back, s1, more, s2);
    ReturnsLater(cfg, s, back + more, s2, k);
    assert Quiet(back) && Quiet(more) ==> Quiet(back + more);
  }

  lemma UnfinishedReturns(cfg: Config, steps: seq<Step>, k: Key, back: seq<Step>, s1: State)
    requires ValidConfig(cfg) && Runs(cfg, Init(cfg), steps) && k in cfg.messages && Chunked(cfg, cfg.messages[k])
    requires Far(k) !in Final(cfg, steps).recv.history
    requires Leads(cfg, Final(cfg, steps), back, s1) && Back(Final(cfg, steps), s1, k) && Quiet(back)
    ensures CanReturn(cfg, Final(cfg, steps), k)
    ensures Wanted(cfg, Final(cfg, steps).recv, k) ==> ReturnsUnaided(cfg, Final(cfg, steps), k)
  {
    var s := Final(cfg, steps);
    if s1.senders[k].phase.Polling? {
      InitInv(cfg);
      RunsCompose(cfg, Init(cfg), steps, back);
      ExecInv(cfg, Init(cfg), steps + back);
      SentExec(cfg, Init(cfg), steps + back);
      assert SentTo(cfg, s1, k, Passed(cfg, k, s1.senders[k].phase));
      var more, s2 := CanComplete(cfg, s1, k);
      Chain(cfg, Init(cfg), steps + back, s1, more, s2);
      CompletedReturns(cfg, s, back, s1, steps + back, more, s2, k);
    } else {
      assert Quiet(back) && Runs(cfg, s, back);
      UnaidedReturns(cfg, s, k);
    }
  }

  /** Every chunked response can be abandoned: if all its frames arrive, in any order, and no request waits,
      it is recorded complete, handed to nobody, and its sending call never returns. */
  lemma AbandonedRun(cfg: Config, k: Key, order: seq<nat>)
    requires ValidConfig(cfg) && k in cfg.messages && Chunked(cfg, cfg.messages[k]) && Covers(cfg, k, order)
    requires cfg.messages[k].kind.Response?
    ensures Runs(cfg, Init(cfg), WholeTransfer(cfg, k, order, false))
    ensures var s := Final(cfg, WholeTransfer(cfg, k, order, false));
            && Far(k) in s.recv.history && !HandedKey(s.recv, Far(k))
            && s.senders[k].phase.Polling? && !CanReturn(cfg, s, k)
  {
    WholeTransferRuns(cfg, k, order, false);
    ReturnIff(cfg, WholeTransfer(cfg, k, order, false), k);
  }

  // ---- A receiver that got nothing stays silent ----------------------------------------------------------------

  /** No answer of any kind exists for this call. */
  ghost predicate Unanswered(s: State, k: Key)
    requires k in s.senders
  {
    var x := s.senders[k];
    && x.lost == [] && x.size == 0 && x.updated.NoUpdate? && x.staged.None?
    && !x.phase.Seen? && !x.phase.Walking? && !x.phase.Completed?
    && NoReply(s.net, k)
  }

  ghost predicate NoReply(net: set<Frame>, k: Key) {
    forall f :: f in net && (f.LostResponse? || f.Received?) ==> ReplyKey(f) != k
  }

  ghost predicate SilentOK(s: State) {
    forall k :: k in s.senders && Far(k) !in s.first ==> Unanswered(s, k)
  }

  /** The tables hold nothing of a message that never arrived. */
  lemma Absent(cfg: Config, s: State, rk: Key)
    requires Inv(cfg, s) && rk !in s.first
    ensures rk !in s.recv.pending && rk !in s.recv.history
  {
    forall q | q in s.recv.pending ensures q in s.first {
      assert PendingEntryOK(cfg, s.recv, s.first, q);
    }
  }

  lemma SilentPoll(cfg: Config, s: State, f: Frame, k: Key)
    requires Enabled(cfg, s, Dequeue(f)) && f.LostRequest? && k in s.senders && Unanswered(s, k)
    requires Far(k) !in s.recv.pending && Far(k) !in s.recv.history
    ensures Unanswered(Apply(cfg, s, Dequeue(f)), k)
  {
    assert ReplyKey(Received(f.port, Swap(f.id))) == k ==> Far(k) == Key(f.port, f.id);
  }

  /** Steps of sending calls. */
  lemma SilentCall(cfg: Config, s: State, st: Step, k: Key)
    requires Enabled(cfg, s, st) && !st.Dequeue? && !st.CopyList? && !st.PublishList? && !st.NoteReceived?
    requires k in s.senders && Unanswered(s, k)
    ensures k in Apply(cfg, s, st).senders && Unanswered(Apply(cfg, s, st), k)
  {
  }

  /** Steps of the thread that takes replies. */
  lemma SilentTaker(cfg: Config, s: State, st: Step, k: Key)
    requires Enabled(cfg, s, st) && (st.CopyList? || st.PublishList? || st.NoteReceived?)
    requires k in s.senders && Unanswered(s, k)
    ensures k in Apply(cfg, s, st).senders && Unanswered(Apply(cfg, s, st), k)
  {
  }

  ghost predicate AbsentOK(s: State) {
    forall rk :: rk !in s.first ==> rk !in s.recv.pending && rk !in s.recv.history
  }

  lemma SilentStep(cfg: Config, s: State, st: Step)
    requires AbsentOK(s) && Enabled(cfg, s, st) && SilentOK(s)
    ensures SilentOK(Apply(cfg, s, st))
  {
    var s' := Apply(cfg, s, st);
    forall k | k in s'.senders && Far(k) !in s'.first ensures Unanswered(s', k) {
      SilentKey(cfg, s, st, k);
    }
  }

  lemma SilentKey(cfg: Config, s: State, st: Step, k: Key)
    requires Enabled(cfg, s, st) && k in s.senders && Unanswered(s, k)
    requires Far(k) !in s.recv.pending && Far(k) !in s.recv.history
    ensures k in Apply(cfg, s, st).senders && Unanswered(Apply(cfg, s, st), k)
  {
    if st.CopyList? || st.PublishList? || st.NoteReceived? {
      SilentTaker(cfg, s, st, k);
    } else if !st.Dequeue? {
      SilentCall(cfg, s, st, k);
    } else if st.f.LostRequest? {
      SilentPoll(cfg, s, st.f, k);
    }
  }

  lemma {:induction false} SilentExec(cfg: Config, s: State, steps: seq<Step>)
    requires Inv(cfg, s) && Runs(cfg, s, steps) && SilentOK(s)
    ensures SilentOK(Exec(cfg, s, steps))
    decreases |steps|
  {
    if steps != [] {
      forall rk | rk !in s.first ensures rk !in s.recv.pending && rk !in s.recv.history {
        Absent(cfg, s, rk);
      }
      SilentStep(cfg, s, steps[0]);
      StepInv(cfg, s, steps[0]);
      SilentExec(cfg, Apply(cfg, s, steps[0]), steps[1..]);
    }
  }

  /** In every run: as long as the receiver has dequeued no frame of a message, it has answered none of its
      polls, and the sending call has seen no list, resent nothing and not returned. */
  lemma SilentReceiver(cfg: Config, steps: seq<Step>, k: Key)
    requires ValidConfig(cfg) && Runs(cfg, Init(cfg), steps) && k in cfg.messages
    requires Far(k) !in Final(cfg, steps).first
    ensures Unanswered(Final(cfg, steps), k)
    ensures forall f :: f in Final(cfg, steps).net && f.LostRequest? && Key(f.port, f.id) == Far(k) ==>
              Min(f.mtu, cfg.mtu) > HEADER && Reply(Final(cfg, steps).recv, cfg.mtu, f) == None
  {
    InitInv(cfg);
    SilentExec(cfg, Init(cfg), steps);
    FinalInv(cfg, steps);
    SilentNow(cfg, Final(cfg, steps), k);
  }

  lemma SilentNow(cfg: Config, s: State, k: Key)
    requires Inv(cfg, s) && k in cfg.messages && Far(k) !in s.first
    ensures forall f :: f in s.net && f.LostRequest? && Key(f.port, f.id) == Far(k) ==>
              Min(f.mtu, cfg.mtu) > HEADER && Reply(s.recv, cfg.mtu, f) == None
  {
    Absent(cfg, s, Far(k));
    forall f | f in s.net && f.LostRequest? && Key(f.port, f.id) == Far(k)
      ensures Min(f.mtu, cfg.mtu) > HEADER && Reply(s.recv, cfg.mtu, f) == None
    {
      assert FrameOK(cfg, f);
    }
  }
}
