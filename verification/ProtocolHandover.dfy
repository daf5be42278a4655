/** In what order messages leave the callback queue, and which responses reach a waiting request. */
module ProtocolHandover {
  import opened Options
  import opened Chunks
  import opened Protocol
  import opened ProtocolInvariant
  import opened ProtocolSafety

  predicate IsResponse(cfg: Config, rk: Key) {
    Far(rk) in cfg.messages && cfg.messages[Far(rk)].kind.Response?
  }

  /** What a step that hands h on does to queue and slots. */
  ghost predicate HandsOn(cfg: Config, r: Receiver, r': Receiver, h: Handed) {
    && r'.handed == r.handed + [h]
    && if IsResponse(cfg, h.key) then
         r'.queue == r.queue && h.key.id in r.slots && r'.slots == r.slots - {h.key.id}
       else
         Items(r'.queue) == Items(r.queue) + [h] && r'.slots == r.slots
  }

  ghost predicate NothingHanded(r: Receiver, r': Receiver) {
    r'.handed == r.handed && r'.queue == r.queue && r'.slots == r.slots
  }

  lemma DataHands(cfg: Config, r: Receiver, f: Frame)
    requires ValidConfig(cfg) && f.Data? && FrameOK(cfg, f)
    ensures var r' := ReceiveData(r, cfg.mtu, f);
            NothingHanded(r, r') || (r'.handed != [] && HandsOn(cfg, r, r', r'.handed[|r'.handed| - 1]))
  {
    var r' := ReceiveData(r, cfg.mtu, f);
    if r'.handed != r.handed {
      var h := r'.handed[|r'.handed| - 1];
      assert r'.handed == r.handed + [h] && h.key == Key(f.port, f.id);
      assert IsResponse(cfg, h.key) == f.kind.Response?;
    }
  }

  // ---- Order of the callbacks ---------------------------------------------------------------------------------

  function Items(queue: seq<Node>): seq<Handed> {
    seq(|queue|, i requires 0 <= i < |queue| => queue[i].item)
  }

  /** The messages of the log that are meant for the callback thread. */
  function ForCallback(cfg: Config, handed: seq<Handed>): seq<Handed> {
    if handed == [] then []
    else
      var rest, h := ForCallback(cfg, handed[..|handed| - 1]), handed[|handed| - 1];
      if IsResponse(cfg, h.key) then rest else rest + [h]
  }

  /** What the callback thread takes in a step. */
  function Taken(cfg: Config, s: State, st: Step): seq<Handed>
    requires Enabled(cfg, s, st)
  {
    if st.RunCallback? then [s.recv.queue[0].item] else []
  }

  /** The messages the callback thread took in a run, in order. */
  function Executed(cfg: Config, s: State, steps: seq<Step>): seq<Handed>
    requires Runs(cfg, s, steps)
    decreases |steps|
  {
    if steps == [] then []
    else Taken(cfg, s, steps[0]) + Executed(cfg, Apply(cfg, s, steps[0]), steps[1..])
  }

  function CallbackSteps(steps: seq<Step>): nat {
    if steps == [] then 0 else (if steps[0].RunCallback? then 1 else 0) + CallbackSteps(steps[1..])
  }

  lemma {:induction false} ExecutedCount(cfg: Config, s: State, steps: seq<Step>)
    requires Runs(cfg, s, steps)
    ensures |Executed(cfg, s, steps)| == CallbackSteps(steps)
    decreases |steps|
  {
    if steps != [] {
      ExecutedCount(cfg, Apply(cfg, s, steps[0]), steps[1..]);
    }
  }

  /** `past` was taken, and the rest of the log is on the queue. */
  ghost predicate InOrder(cfg: Config, r: Receiver, past: seq<Handed>) {
    past + Items(r.queue) == ForCallback(cfg, r.handed)
  }

  lemma OrderData(cfg: Config, r: Receiver, f: Frame, past: seq<Handed>)
    requires ValidConfig(cfg) && f.Data? && FrameOK(cfg, f) && InOrder(cfg, r, past)
    ensures InOrder(cfg, ReceiveData(r, cfg.mtu, f), past)
  {
    var r' := ReceiveData(r, cfg.mtu, f);
    DataHands(cfg, r, f);
    if !NothingHanded(r, r') {
      var h := r'.handed[|r'.handed| - 1];
      assert r'.handed[..|r'.handed| - 1] == r.handed;
      assert past + (Items(r.queue) + [h]) == (past + Items(r.queue)) + [h];
    }
  }

  lemma OrderCallback(cfg: Config, r: Receiver, past: seq<Handed>)
    requires r.queue != [] && InOrder(cfg, r, past)
    ensures InOrder(cfg, Callback(r), past + [r.queue[0].item])
  {
    assert Items(r.queue) == [r.queue[0].item] + Items(Callback(r).queue);
  }

  lemma OrderStep(cfg: Config, s: State, st: Step, past: seq<Handed>)
    requires Inv(cfg, s) && Enabled(cfg, s, st) && InOrder(cfg, s.recv, past)
    ensures InOrder(cfg, Apply(cfg, s, st).recv, past + Taken(cfg, s, st))
  {
    assert past + [] == past;
    if st.Dequeue? && st.f.Data? {
      assert FrameOK(cfg, st.f);
      OrderData(cfg, s.recv, st.f, past);
    } else if st.RunCallback? {
      OrderCallback(cfg, s.recv, past);
    } else {
      OtherSteps(cfg, s, st);
    }
  }

  lemma Associative<T>(a: seq<T>, b: seq<T>, c: seq<T>)
    ensures a + b + c == a + (b + c)
  {
  }

  lemma {:induction false} OrderExec(cfg: Config, s: State, steps: seq<Step>, past: seq<Handed>)
    requires Inv(cfg, s) && Runs(cfg, s, steps) && InOrder(cfg, s.recv, past)
    ensures InOrder(cfg, Exec(cfg, s, steps).recv, past + Executed(cfg, s, steps))
    decreases |steps|
  {
    if steps == [] {
      assert past + [] == past;
    } else {
      var head, s1 := Taken(cfg, s, steps[0]), Apply(cfg, s, steps[0]);
      OrderStep(cfg, s, steps[0], past);
      StepInv(cfg, s, steps[0]);
      OrderExec(cfg, s1, steps[1..], past + head);
      Associative(past, head, Executed(cfg, s1, steps[1..]));
    }
  }

  /** In every run the callback thread takes the messages meant for it in the order in which they were handed
      on, each once: after n of its steps it has taken the first n, and the others are on the queue. */
  lemma CallbackOrder(cfg: Config, steps: seq<Step>)
    requires ValidConfig(cfg) && Runs(cfg, Init(cfg), steps)
    ensures var r, n := Final(cfg, steps).recv, CallbackSteps(steps);
            var all := ForCallback(cfg, r.handed);
            && n <= |all|
            && Executed(cfg, Init(cfg), steps) == all[..n]
            && Items(r.queue) == all[n..]
  {
    InitInv(cfg);
    OrderExec(cfg, Init(cfg), steps, []);
    ExecutedCount(cfg, Init(cfg), steps);
    var e := Executed(cfg, Init(cfg), steps);
    assert [] + e == e;
  }

  lemma {:induction false} CallbackFrom(cfg: Config, handed: seq<Handed>, i: nat)
    requires i < |handed| && !IsResponse(cfg, handed[i].key)
    ensures handed[i] in ForCallback(cfg, handed)
    decreases |handed|
  {
    if i < |handed| - 1 {
      assert handed[..|handed| - 1][i] == handed[i];
      CallbackFrom(cfg, handed[..|handed| - 1], i);
    }
  }

  /** A chunked call that is no response returns through its completed path only after the callback thread
      has taken its message. */
  lemma AcknowledgedMeansTaken(cfg: Config, steps: seq<Step>, k: Key) returns (i: nat)
    requires ValidConfig(cfg) && Runs(cfg, Init(cfg), steps)
    requires k in cfg.messages && Final(cfg, steps).senders[k].phase.Completed? && !cfg.messages[k].kind.Response?
    ensures i < |Executed(cfg, Init(cfg), steps)| && Executed(cfg, Init(cfg), steps)[i].key == Far(k)
  {
    AcknowledgedMeansHanded(cfg, steps, k);
    CallbackOrder(cfg, steps);
    var r := Final(cfg, steps).recv;
    var j :| 0 <= j < |r.handed| && r.handed[j].key == Far(k);
    assert Far(Far(k)) == k;
    CallbackFrom(cfg, r.handed, j);
    var e := Executed(cfg, Init(cfg), steps);
    assert e + Items(r.queue) == ForCallback(cfg, r.handed);
    i := LeftQueue(e, r.queue, r.handed[j]);
  }

  /** What is no longer queued was taken. */
  lemma LeftQueue(taken: seq<Handed>, queue: seq<Node>, h: Handed) returns (i: nat)
    requires h in taken + Items(queue) && forall j :: 0 <= j < |queue| ==> queue[j].item.key != h.key
    ensures i < |taken| && taken[i] == h
  {
    i :| 0 <= i < |taken + Items(queue)| && (taken + Items(queue))[i] == h;
    assert i >= |taken| ==> (taken + Items(queue))[i] == queue[i - |taken|].item;
  }

  // ---- Responses and the requests waiting for them ----------------------------------------------------------------

  datatype SlotEvent = Registered(id: Id) | Dropped(id: Id) | Answered(id: Id)

  /** What a step does to the requests that wait. */
  function StepEvents(cfg: Config, s: State, st: Step): seq<SlotEvent>
    requires Enabled(cfg, s, st)
  {
    match st
    case RegisterSlot(id) => [Registered(id)]
    case DropSlot(id) => [Dropped(id)]
    case Dequeue(_) => AnswerEvents(cfg, s.recv.handed, Apply(cfg, s, st).recv.handed)
    case _ => []
  }

  /** The response that was added to the log, if one was. */
  function AnswerEvents(cfg: Config, before: seq<Handed>, now: seq<Handed>): seq<SlotEvent> {
    if |now| > |before| && IsResponse(cfg, now[|now| - 1].key) then [Answered(now[|now| - 1].key.id)] else []
  }

  function Events(cfg: Config, s: State, steps: seq<Step>): seq<SlotEvent>
    requires Runs(cfg, s, steps)
    decreases |steps|
  {
    if steps == [] then []
    else StepEvents(cfg, s, steps[0]) + Events(cfg, Apply(cfg, s, steps[0]), steps[1..])
  }

  /** The latest event about a request. */
  function Latest(events: seq<SlotEvent>, id: Id): Option<SlotEvent> {
    if events == [] then None
    else if events[|events| - 1].id == id then Some(events[|events| - 1])
    else Latest(events[..|events| - 1], id)
  }

  ghost predicate WaitsIff(slots: set<Id>, events: seq<SlotEvent>) {
    forall id: Id :: id in slots <==> Latest(events, id) == Some(Registered(id))
  }

  lemma LatestNext(events: seq<SlotEvent>, e: SlotEvent, id: Id)
    ensures Latest(events + [e], id) == if e.id == id then Some(e) else Latest(events, id)
  {
    assert (events + [e])[..|events|] == events;
  }

  function AfterEvent(slots: set<Id>, e: SlotEvent): set<Id> {
    if e.Registered? then slots + {e.id} else slots - {e.id}
  }

  lemma WaitsEvent(slots: set<Id>, past: seq<SlotEvent>, e: SlotEvent)
    requires WaitsIff(slots, past)
    ensures WaitsIff(AfterEvent(slots, e), past + [e])
  {
    forall id: Id ensures id in AfterEvent(slots, e) <==> Latest(past + [e], id) == Some(Registered(id)) {
      LatestNext(past, e, id);
    }
  }

  /** The slots change as these events say. */
  ghost predicate Follows(events: seq<SlotEvent>, slots: set<Id>, slots': set<Id>) {
    if events == [] then slots' == slots else events == [events[0]] && slots' == AfterEvent(slots, events[0])
  }

  lemma DataSlots(cfg: Config, r: Receiver, f: Frame)
    requires ValidConfig(cfg) && f.Data? && FrameOK(cfg, f)
    ensures var r' := ReceiveData(r, cfg.mtu, f);
            Follows(AnswerEvents(cfg, r.handed, r'.handed), r.slots, r'.slots)
  {
    DataHands(cfg, r, f);
  }

  lemma OtherSlots(cfg: Config, s: State, st: Step)
    requires Enabled(cfg, s, st) && !(st.Dequeue? && st.f.Data?)
    ensures Follows(StepEvents(cfg, s, st), s.recv.slots, Apply(cfg, s, st).recv.slots)
  {
  }

  lemma StepSlots(cfg: Config, s: State, st: Step)
    requires Inv(cfg, s) && Enabled(cfg, s, st)
    ensures Follows(StepEvents(cfg, s, st), s.recv.slots, Apply(cfg, s, st).recv.slots)
  {
    if st.Dequeue? && st.f.Data? {
      assert FrameOK(cfg, st.f);
      DataSlots(cfg, s.recv, st.f);
    } else {
      OtherSlots(cfg, s, st);
    }
  }

  lemma WaitsStep(cfg: Config, s: State, st: Step, past: seq<SlotEvent>)
    requires Inv(cfg, s) && Enabled(cfg, s, st) && WaitsIff(s.recv.slots, past)
    ensures WaitsIff(Apply(cfg, s, st).recv.slots, past + StepEvents(cfg, s, st))
  {
    var events := StepEvents(cfg, s, st);
    StepSlots(cfg, s, st);
    if events == [] {
      assert past + events == past;
    } else {
      WaitsEvent(s.recv.slots, past, events[0]);
    }
  }

  lemma {:induction false} WaitsExec(cfg: Config, s: State, steps: seq<Step>, past: seq<SlotEvent>)
    requires Inv(cfg, s) && Runs(cfg, s, steps) && WaitsIff(s.recv.slots, past)
    ensures WaitsIff(Exec(cfg, s, steps).recv.slots, past + Events(cfg, s, steps))
    decreases |steps|
  {
    if steps == [] {
      assert past + [] == past;
    } else {
      var head, s1 := StepEvents(cfg, s, steps[0]), Apply(cfg, s, steps[0]);
      WaitsStep(cfg, s, steps[0], past);
      StepInv(cfg, s, steps[0]);
      WaitsExec(cfg, s1, steps[1..], past + head);
      Associative(past, head, Events(cfg, s1, steps[1..]));
    }
  }

  /** In every run a request waits exactly when the latest thing that happened to its identification is its
      registration, and neither its removal nor a response handed on. */
  lemma WaitingIffRegistered(cfg: Config, steps: seq<Step>, id: Id)
    requires ValidConfig(cfg) && Runs(cfg, Init(cfg), steps)
    ensures id in Final(cfg, steps).recv.slots <==> Latest(Events(cfg, Init(cfg), steps), id) == Some(Registered(id))
  {
    InitInv(cfg);
    WaitsExec(cfg, Init(cfg), steps, []);
    assert [] + Events(cfg, Init(cfg), steps) == Events(cfg, Init(cfg), steps);
  }

  /** Responses with this identification in the log. */
  function Answers(cfg: Config, handed: seq<Handed>, id: Id): nat {
    if handed == [] then 0
    else
      var h := handed[|handed| - 1];
      Answers(cfg, handed[..|handed| - 1], id) + (if IsResponse(cfg, h.key) && h.key.id == id then 1 else 0)
  }

  function Registrations(steps: seq<Step>, id: Id): nat {
    if steps == [] then 0
    else (if steps[0] == RegisterSlot(id) then 1 else 0) + Registrations(steps[1..], id)
  }

  function Claims(cfg: Config, r: Receiver, id: Id): nat {
    Answers(cfg, r.handed, id) + (if id in r.slots then 1 else 0)
  }

  lemma ClaimsHanded(cfg: Config, r: Receiver, r': Receiver, h: Handed, id: Id)
    requires HandsOn(cfg, r, r', h)
    ensures Claims(cfg, r', id) <= Claims(cfg, r, id)
  {
    assert (r.handed + [h])[..|r.handed|] == r.handed;
  }

  lemma ClaimsData(cfg: Config, r: Receiver, f: Frame, id: Id)
    requires ValidConfig(cfg) && f.Data? && FrameOK(cfg, f)
    ensures Claims(cfg, ReceiveData(r, cfg.mtu, f), id) <= Claims(cfg, r, id)
  {
    var r' := ReceiveData(r, cfg.mtu, f);
    DataHands(cfg, r, f);
    if !NothingHanded(r, r') {
      ClaimsHanded(cfg, r, r', r'.handed[|r'.handed| - 1], id);
    }
  }

  lemma OtherClaims(cfg: Config, s: State, st: Step, id: Id)
    requires Enabled(cfg, s, st) && !(st.Dequeue? && st.f.Data?)
    ensures Claims(cfg, Apply(cfg, s, st).recv, id) <= Claims(cfg, s.recv, id) + Registrations([st], id)
  {
    OtherSteps(cfg, s, st);
    assert st.RegisterSlot? ==> Apply(cfg, s, st).recv.slots == s.recv.slots + {st.id};
  }

  lemma ClaimsStep(cfg: Config, s: State, st: Step, id: Id)
    requires Inv(cfg, s) && Enabled(cfg, s, st)
    ensures Claims(cfg, Apply(cfg, s, st).recv, id) <= Claims(cfg, s.recv, id) + Registrations([st], id)
  {
    if st.Dequeue? && st.f.Data? {
      assert FrameOK(cfg, st.f);
      ClaimsData(cfg, s.recv, st.f, id);
    } else {
      OtherClaims(cfg, s, st, id);
    }
  }

  lemma {:induction false} ClaimsExec(cfg: Config, s: State, steps: seq<Step>, id: Id)
    requires Inv(cfg, s) && Runs(cfg, s, steps)
    ensures Claims(cfg, Exec(cfg, s, steps).recv, id) <= Claims(cfg, s.recv, id) + Registrations(steps, id)
    decreases |steps|
  {
    if steps != [] {
      ClaimsStep(cfg, s, steps[0], id);
      StepInv(cfg, s, steps[0]);
      ClaimsExec(cfg, Apply(cfg, s, steps[0]), steps[1..], id);
    }
  }

  /** In every run, the responses handed on under an identification, and the request still waiting under it,
      never outnumber the registrations. */
  lemma AnswersBounded(cfg: Config, steps: seq<Step>, id: Id)
    requires ValidConfig(cfg) && Runs(cfg, Init(cfg), steps)
    ensures var r := Final(cfg, steps).recv;
            Answers(cfg, r.handed, id) + (if id in r.slots then 1 else 0) <= Registrations(steps, id)
  {
    InitInv(cfg);
    ClaimsExec(cfg, Init(cfg), steps, id);
  }
}
