/** Replies that come in while a sending call is busy: which acknowledgements it sees, and a lost list that
    changes under its feet. */
module ProtocolUpdates {
  import opened Options
  import opened Chunks
  import opened Protocol
  import opened ProtocolInvariant
  import opened ProtocolSafety
  import opened ProtocolProgress
  import opened ProtocolDelivery
  import opened ProtocolReturn

  // ---- Acknowledgements ---------------------------------------------------------------------------------------

  /** Steps a sending call takes by itself; no reply comes in meanwhile. */
  predicate OwnStep(st: Step, k: Key) {
    st == SendNext(k) || st == Poll(k) || st == Observe(k) || st == Clear(k) || st == Resend(k) || st == EndWalk(k)
  }

  ghost predicate OwnSteps(steps: seq<Step>, k: Key) {
    forall i :: 0 <= i < |steps| ==> OwnStep(steps[i], k)
  }

  /** The call returns through its completed path on what it has already been told. */
  ghost predicate ReturnsAlone(cfg: Config, s: State, k: Key) {
    exists more :: OwnSteps(more, k) && Runs(cfg, s, more)
      && k in Exec(cfg, s, more).senders && Exec(cfg, s, more).senders[k].phase.Completed?
  }

  lemma AloneVia(cfg: Config, s: State, more: seq<Step>, s': State, k: Key)
    requires OwnSteps(more, k) && Leads(cfg, s, more, s') && k in s'.senders && s'.senders[k].phase.Completed?
    ensures ReturnsAlone(cfg, s, k)
  {
  }

  /** An acknowledgement on record is acted on as soon as the call is back in its polling loop. */
  lemma Finish(cfg: Config, s: State, steps: seq<Step>, s1: State, k: Key)
    requires ValidConfig(cfg) && s1.senders.Keys == cfg.messages.Keys && k in cfg.messages
    requires Leads(cfg, s, steps, s1) && OwnSteps(steps, k)
    requires s1.senders[k].phase.Polling? && s1.senders[k].updated.SuccessfullyReceived?
    ensures ReturnsAlone(cfg, s, k)
  {
    var s2 := Apply(cfg, s1, Poll(k));
    RunsOne(cfg, s1, Poll(k));
    Chain(cfg, s, steps, s1, [Poll(k)], s2);
    var s3 := ActsOn(cfg, s2, k);
    Chain(cfg, s, steps + [Poll(k)], s2, [Observe(k)] + [Clear(k)], s3);
    AloneVia(cfg, s, steps + [Poll(k)] + ([Observe(k)] + [Clear(k)]), s3, k);
  }

  lemma ActsOn(cfg: Config, s: State, k: Key) returns (s': State)
    requires ValidConfig(cfg) && s.senders.Keys == cfg.messages.Keys && k in cfg.messages
    requires s.senders[k].phase.Polling? && s.senders[k].updated.SuccessfullyReceived?
    ensures Leads(cfg, s, [Observe(k)] + [Clear(k)], s') && k in s'.senders && s'.senders[k].phase.Completed?
  {
    var s1 := Apply(cfg, s, Observe(k));
    RunsOne(cfg, s, Observe(k));
    s' := Apply(cfg, s1, Clear(k));
    RunsOne(cfg, s1, Clear(k));
    Chain(cfg, s, [Observe(k)], s1, [Clear(k)], s');
  }

  lemma AckDuringPass(cfg: Config, s: State, k: Key)
    requires ValidConfig(cfg) && s.senders.Keys == cfg.messages.Keys && k in cfg.messages
    requires s.senders[k].phase.Chunking? && SenderOK(cfg, k, s.senders[k]) && s.senders[k].updated.SuccessfullyReceived?
    ensures ReturnsAlone(cfg, s, k)
  {
    FirstPass(cfg, s, k);
    var left := Amount(cfg, k) - s.senders[k].phase.next;
    RepeatIs(SendNext(k), left);
    Finish(cfg, s, Repeat(SendNext(k), left), Exec(cfg, s, Repeat(SendNext(k), left)), k);
  }

  lemma AckKept(cfg: Config, s: State, k: Key)
    requires ValidConfig(cfg) && s.senders.Keys == cfg.messages.Keys && k in cfg.messages
    requires var p := s.senders[k].phase; p.Chunking? || p.Polling? || p.Walking? || p == Seen(SuccessfullyReceived)
    requires SenderOK(cfg, k, s.senders[k]) && s.senders[k].updated.SuccessfullyReceived?
    ensures ReturnsAlone(cfg, s, k)
  {
    match s.senders[k].phase
    case Chunking(_) => AckDuringPass(cfg, s, k);
    case Polling => Finish(cfg, s, [], s, k);
    case Walking(_) =>
      var steps, s1 := WalkOut(cfg, s, k);
      Finish(cfg, s, steps, s1, k);
    case Seen(_) =>
      RunsOne(cfg, s, Clear(k));
      AloneVia(cfg, s, [Clear(k)], Apply(cfg, s, Clear(k)), k);
  }

  /** The call has loaded another update and is going to clear the record, or has cleared it. */
  predicate Unaware(x: Sending) {
    || (x.phase.Seen? && !x.phase.status.SuccessfullyReceived?)
    || ((x.phase.Walking? || x.phase.Polling?) && x.updated.NoUpdate?)
  }

  lemma {:induction false} UnawareStays(cfg: Config, s: State, more: seq<Step>, k: Key)
    requires Runs(cfg, s, more) && OwnSteps(more, k) && k in s.senders && Unaware(s.senders[k])
    ensures k in Exec(cfg, s, more).senders && Unaware(Exec(cfg, s, more).senders[k])
    decreases |more|
  {
    if more != [] {
      assert OwnStep(more[0], k);
      UnawareStays(cfg, Apply(cfg, s, more[0]), more[1..], k);
    }
  }

  /** An acknowledgement that comes in while a call is on its way lets the call return without any further reply,
      unless it comes between the load of an older update and the store that clears it: then it is lost. */
  lemma AckSeenIff(cfg: Config, steps: seq<Step>, f: Frame)
    requires ValidConfig(cfg) && Runs(cfg, Init(cfg), steps)
    requires Enabled(cfg, Final(cfg, steps), NoteReceived(f)) && ReplyKey(f) in cfg.messages
    requires Active(Final(cfg, steps).senders[ReplyKey(f)].phase)
    ensures var s, k := Final(cfg, steps), ReplyKey(f);
            ReturnsAlone(cfg, Apply(cfg, s, NoteReceived(f)), k) <==>
              !(s.senders[k].phase.Seen? && !s.senders[k].phase.status.SuccessfullyReceived?)
  {
    var s, k := Final(cfg, steps), ReplyKey(f);
    var s1 := Apply(cfg, s, NoteReceived(f));
    FinalInv(cfg, steps);
    assert SenderOK(cfg, k, s.senders[k]);
    if s.senders[k].phase.Seen? && !s.senders[k].phase.status.SuccessfullyReceived? {
      forall more | OwnSteps(more, k) && Runs(cfg, s1, more)
        ensures k in Exec(cfg, s1, more).senders && !Exec(cfg, s1, more).senders[k].phase.Completed?
      {
        UnawareStays(cfg, s1, more, k);
      }
    } else {
      AckKept(cfg, s1, k);
    }
  }

  // ---- A list that is replaced during the walk --------------------------------------------------------------------

  lemma {:induction false} FirstMissing(got: set<nat>, n: nat, i: nat)
    requires i < n && forall j: nat :: j <= i ==> (j in got <==> j < i)
    ensures Missing(got, n) != [] && Missing(got, n)[0] == i
    decreases n
  {
    if n == i + 1 {
      NoneMissing(got, i);
    } else {
      FirstMissing(got, n - 1, i);
    }
  }

  lemma {:induction false} NoneMissing(got: set<nat>, n: nat)
    requires forall j: nat :: j < n ==> j in got
    ensures Missing(got, n) == []
  {
    if n > 0 {
      NoneMissing(got, n - 1);
    }
  }

  /** Chunks 0 to i - 1 have arrived, and the message is not complete. */
  ghost predicate Arrived(cfg: Config, s: State, k: Key, i: nat)
    requires ValidConfig(cfg) && k in cfg.messages
  {
    && Inv(cfg, s) && Far(k) !in s.recv.history && (i > 0 ==> Far(k) in s.recv.pending)
    && (forall j: nat :: j in Got(s.recv, Far(k)) <==> j < i) && |Got(s.recv, Far(k))| == i
    && (forall j: nat :: j < Amount(cfg, k) ==> ChunkFrame(cfg, k, j) in s.net)
  }

  lemma ArriveNext(cfg: Config, s: State, k: Key, i: nat)
    requires ValidConfig(cfg) && k in cfg.messages && Chunked(cfg, cfg.messages[k])
    requires Arrived(cfg, s, k, i) && i + 1 < Amount(cfg, k)
    ensures var st := Dequeue(ChunkFrame(cfg, k, i));
            && Leads(cfg, s, [st], Apply(cfg, s, st)) && Arrived(cfg, Apply(cfg, s, st), k, i + 1)
            && Apply(cfg, s, st).senders == s.senders && Apply(cfg, s, st).net == s.net
  {
    var st := Dequeue(ChunkFrame(cfg, k, i));
    DequeueOne(cfg, s, k, i);
    RunsOne(cfg, s, st);
    StepInv(cfg, s, st);
    var s' := Apply(cfg, s, st);
    assert |Got(s.recv, Far(k)) + {i}| == i + 1;
    assert i in Got(s'.recv, Far(k));
  }

  /** The list the receiver sends then begins with chunk i. */
  lemma ListBegins(cfg: Config, s: State, k: Key, i: nat)
    requires ValidConfig(cfg) && k in cfg.messages && ListLimit(cfg, k) >= 1
    requires Arrived(cfg, s, k, i) && i < Amount(cfg, k)
    ensures LostList(cfg, s, k) != [] && LostList(cfg, s, k)[0] == i
  {
    FirstMissing(Got(s.recv, Far(k)), Amount(cfg, k), i);
  }

  /** The call is about to resend chunk i, the first entry of its list. */
  ghost predicate AboutTo(cfg: Config, s: State, k: Key, i: nat) {
    && k in s.senders
    && var x := s.senders[k];
    && x.phase == Walking(0) && 0 < x.size <= |x.lost| && x.lost[0] == i
  }

  lemma ArrivedStart(cfg: Config, k: Key) returns (steps: seq<Step>, s: State)
    requires ValidConfig(cfg) && k in cfg.messages && Chunked(cfg, cfg.messages[k]) && Amount(cfg, k) > 1
    ensures Leads(cfg, Init(cfg), steps, s) && Arrived(cfg, s, k, 1)
    ensures s.senders.Keys == cfg.messages.Keys && s.senders[k].phase.Polling? && s.senders[k].staged.None?
  {
    var s1 := SendPart(cfg, k, false);
    var a := [] + FirstPassSteps(cfg, k);
    InitInv(cfg);
    ExecInv(cfg, Init(cfg), a);
    var st := Dequeue(ChunkFrame(cfg, k, 0));
    ArriveNext(cfg, s1, k, 0);
    s := Apply(cfg, s1, st);
    Chain(cfg, Init(cfg), a, s1, [st], s);
    steps := a + [st];
  }

  lemma WalkStarts(cfg: Config, k: Key) returns (steps: seq<Step>, s: State)
    requires ValidConfig(cfg) && k in cfg.messages && Chunked(cfg, cfg.messages[k])
    requires Amount(cfg, k) > 1 && ListLimit(cfg, k) >= 1
    ensures Leads(cfg, Init(cfg), steps, s) && Arrived(cfg, s, k, 1) && AboutTo(cfg, s, k, 1)
    ensures s.senders[k].staged.None? && PollFrame(cfg, k) in s.net
  {
    var a, s1 := ArrivedStart(cfg, k);
    PendingFacts(cfg, s1, k);
    var list := LostList(cfg, s1, k);
    ListBegins(cfg, s1, k, 1);
    AskRuns(cfg, s1, k, list);
    s := Asked(cfg, s1, k, list);
    ExecInv(cfg, s1, AskSteps(cfg, k, list));
    Chain(cfg, Init(cfg), a, s1, AskSteps(cfg, k, list), s);
    steps := a + AskSteps(cfg, k, list);
  }

  /** A poll that is still in the network is answered again, with what is missing now. */
  lemma AnswerAgain(cfg: Config, s: State, k: Key, list: seq<nat>)
    requires Inv(cfg, s) && k in cfg.messages && Chunked(cfg, cfg.messages[k])
    requires PollFrame(cfg, k) in s.net && Far(k) in s.recv.pending && Far(k) !in s.recv.history
    requires list == LostList(cfg, s, k)
    ensures Leads(cfg, s, [Dequeue(PollFrame(cfg, k))], s.(net := s.net + {LostResponse(k.port, k.id, list)}))
  {
    var req := PollFrame(cfg, k);
    assert Far(k) == Key(req.port, req.id) && Swap(req.id) == k.id;
    PendingFacts(cfg, s, k);
    RunsOne(cfg, s, Dequeue(req));
  }

  /** Every message of three chunks or more has a run in which a call is about to resend chunk 1 and a second
      reply turns the entry under its feet into chunk 2. */
  lemma ListReplaced(cfg: Config, k: Key) returns (steps: seq<Step>, f: Frame)
    requires ValidConfig(cfg) && k in cfg.messages && Chunked(cfg, cfg.messages[k])
    requires Amount(cfg, k) > 2 && ListLimit(cfg, k) >= 1
    ensures Runs(cfg, Init(cfg), steps) && AboutTo(cfg, Final(cfg, steps), k, 1)
    ensures Enabled(cfg, Final(cfg, steps), CopyList(f))
    ensures AboutTo(cfg, Apply(cfg, Final(cfg, steps), CopyList(f)), k, 2)
  {
    var a, s1 := WalkStarts(cfg, k);
    var st := Dequeue(ChunkFrame(cfg, k, 1));
    ArriveNext(cfg, s1, k, 1);
    var s2 := Apply(cfg, s1, st);
    Chain(cfg, Init(cfg), a, s1, [st], s2);
    var list := LostList(cfg, s2, k);
    ListBegins(cfg, s2, k, 2);
    AnswerAgain(cfg, s2, k, list);
    f := LostResponse(k.port, k.id, list);
    var s3 := s2.(net := s2.net + {f});
    Chain(cfg, Init(cfg), a + [st], s2, [Dequeue(PollFrame(cfg, k))], s3);
    steps := a + [st] + [Dequeue(PollFrame(cfg, k))];
    Replaces(cfg, s3, k, f);
  }

  lemma Replaces(cfg: Config, s: State, k: Key, f: Frame)
    requires ValidConfig(cfg) && s.senders.Keys == cfg.messages.Keys && f in s.net && f.LostResponse? && ReplyKey(f) == k
    requires k in s.senders && s.senders[k].staged.None? && f.lost != []
    requires AboutTo(cfg, s, k, 1)
    ensures Enabled(cfg, s, CopyList(f)) && AboutTo(cfg, Apply(cfg, s, CopyList(f)), k, f.lost[0])
  {
  }
}
