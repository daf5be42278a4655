/** Requests waiting for their response in a shared slot: requesters, their timeouts and the receiving
    threads, in any interleaving. */
module RequestSlots {
  import opened Options
  import opened Logic
  import opened Chunks

  /** Where a request stands. Only the owner of a slot refers to it outside the table. */
  datatype Stage =
    | Idle
    | Built(slot: nat)
    | Waiting(slot: nat)
    | Expired(slot: nat)          // timed out, still to be removed from the table
    | Removed(slot: nat)          // to be given back
    | Done(answer: Option<nat>)   // the request whose response was returned, or None

  /** The critical section of a receiving thread; the table's lock is free when it is Open. */
  datatype Section = Open | Got(id: Id, answer: nat, slot: nat) | Stored(id: Id, slot: nat)

  datatype Event = Taken(slot: nat) | Filled(slot: nat, answer: nat) | Freed(slot: nat)

  /** Frames, with the identification as it is on the wire and the request they belong to. */
  datatype Message = Request(wire: Id, of: nat) | Response(wire: Id, of: nat)

  datatype State = State(
    stages: map<nat, Stage>,
    table: map<Id, seq<nat>>,
    section: Section,
    data: map<nat, nat>,          // slots whose packet_data is set
    net: set<Message>,
    log: seq<Event>)

  datatype Step =
    | Construct(r: nat, slot: nat)
    | Register(r: nat)
    | Answer(request: Message)
    | Look(response: Message)
    | Fill
    | Drop
    | Expire(r: nat)
    | Delete(r: nat)
    | Release(r: nat)
    | Take(r: nat)

  function Queue(s: State, id: Id): seq<nat> {
    if id in s.table then s.table[id] else []
  }

  function Tail(q: seq<nat>): seq<nat> {
    if q == [] then [] else q[1..]
  }

  /** The latest event of a slot. */
  function Last(log: seq<Event>, slot: nat): Option<Event> {
    if log == [] then None
    else if log[|log| - 1].slot == slot then Some(log[|log| - 1])
    else Last(log[..|log| - 1], slot)
  }

  predicate Unused(log: seq<Event>, slot: nat) {
    Last(log, slot) == None || Last(log, slot) == Some(Freed(slot))
  }

  /** Request r is going to use identification ids[r]. */
  predicate Enabled(ids: map<nat, Id>, s: State, step: Step) {
    match step
    case Construct(r, slot) => r in s.stages && s.stages[r].Idle? && Unused(s.log, slot)
    case Register(r) => r in s.stages && r in ids && s.stages[r].Built? && s.section.Open?
    case Answer(m) => m in s.net && m.Request?
    case Look(m) => m in s.net && m.Response? && s.section.Open? && Queue(s, m.wire) != []
    case Fill => s.section.Got?
    case Drop => s.section.Stored?
    case Expire(r) => r in s.stages && s.stages[r].Waiting?
    case Delete(r) => r in s.stages && r in ids && s.stages[r].Expired? && s.section.Open?
    case Release(r) => r in s.stages && s.stages[r].Removed?
    case Take(r) => r in s.stages && s.stages[r].Waiting? && s.stages[r].slot in s.data
  }

  function Apply(ids: map<nat, Id>, s: State, step: Step): State
    requires Enabled(ids, s, step)
  {
    match step
    case Construct(r, slot) =>
      s.(stages := s.stages[r := Built(slot)], data := s.data - {slot}, log := s.log + [Taken(slot)])
    case Register(r) =>
      s.(stages := s.stages[r := Waiting(s.stages[r].slot)],
         table := s.table[ids[r] := Queue(s, ids[r]) + [s.stages[r].slot]],
         net := s.net + {Request(Swap(ids[r]), r)})
    case Answer(m) => s.(net := s.net + {Response(Swap(m.wire), m.of)})
    case Look(m) => s.(section := Got(m.wire, m.of, Queue(s, m.wire)[0]))
    case Fill =>
      s.(section := Stored(s.section.id, s.section.slot), data := s.data[s.section.slot := s.section.answer],
         log := s.log + [Filled(s.section.slot, s.section.answer)])
    case Drop => s.(section := Open, table := s.table[s.section.id := Tail(Queue(s, s.section.id))])
    case Expire(r) => s.(stages := s.stages[r := Expired(s.stages[r].slot)])
    case Delete(r) =>
      s.(stages := s.stages[r := Removed(s.stages[r].slot)], table := s.table[ids[r] := Tail(Queue(s, ids[r]))])
    case Release(r) => s.(stages := s.stages[r := Done(None)], log := s.log + [Freed(s.stages[r].slot)])
    case Take(r) =>
      s.(stages := s.stages[r := Done(Some(s.data[s.stages[r].slot]))], log := s.log + [Freed(s.stages[r].slot)])
  }

  function Start(ids: map<nat, Id>): State {
    State(map r | r in ids :: Idle, map[], Open, map[], {}, [])
  }

  /** A list of steps, each possible where it is taken. */
  predicate Runs(ids: map<nat, Id>, s: State, steps: seq<Step>)
    decreases |steps|
  {
    steps == [] || (Enabled(ids, s, steps[0]) && Runs(ids, Apply(ids, s, steps[0]), steps[1..]))
  }

  function Exec(ids: map<nat, Id>, s: State, steps: seq<Step>): State
    requires Runs(ids, s, steps)
    decreases |steps|
  {
    if steps == [] then s else Exec(ids, Apply(ids, s, steps[0]), steps[1..])
  }

  // ---- What is claimed --------------------------------------------------------------------------------------

  /** Every response goes into a slot that was taken and has neither been filled nor freed since. */
  ghost predicate StoredOnce(log: seq<Event>) {
    forall k :: 0 <= k < |log| && log[k].Filled? ==> Last(log[..k], log[k].slot) == Some(Taken(log[k].slot))
  }

  /** A request returns the response to itself or none. */
  ghost predicate OwnAnswers(s: State) {
    forall r :: r in s.stages && s.stages[r].Done? && s.stages[r].answer.Some? ==> s.stages[r].answer == Some(r)
  }

  ghost predicate Distinct(ids: map<nat, Id>) {
    forall r, q :: r in ids && q in ids && ids[r] == ids[q] ==> r == q
  }

  // ---- The invariant ------------------------------------------------------------------------------------------

  predicate Owns(s: State, r: nat, slot: nat) {
    r in s.stages && !s.stages[r].Idle? && !s.stages[r].Done? && s.stages[r].slot == slot
  }

  ghost predicate Owned(s: State) {
    && (forall r, q, slot :: Owns(s, r, slot) && Owns(s, q, slot) ==> r == q)
    && (forall r, slot :: Owns(s, r, slot) ==> !Unused(s.log, slot))
    && (forall r, slot :: Owns(s, r, slot) && slot in s.data ==> s.data[slot] == r && !s.stages[r].Built?)
    && (forall r, slot :: Owns(s, r, slot) && slot !in s.data ==> Last(s.log, slot) == Some(Taken(slot)))
  }

  /** A slot in the table under this identification belongs to a request that still waits for it. */
  predicate Awaited(ids: map<nat, Id>, s: State, id: Id, r: nat, slot: nat) {
    r in ids && ids[r] == id && Owns(s, r, slot) && (s.stages[r].Waiting? || s.stages[r].Expired?) && slot !in s.data
  }

  ghost predicate TableOK(ids: map<nat, Id>, s: State) {
    && (forall id :: |Queue(s, id)| <= 1)
    && (forall id :: Queue(s, id) != [] ==>
          s.section == Stored(id, Queue(s, id)[0]) || exists r :: Awaited(ids, s, id, r, Queue(s, id)[0]))
    && (s.section.Got? ==>
          Queue(s, s.section.id) == [s.section.slot] && s.section.answer in ids && ids[s.section.answer] == s.section.id)
    && (s.section.Stored? ==> Queue(s, s.section.id) == [s.section.slot])
  }

  ghost predicate NetOK(ids: map<nat, Id>, net: set<Message>) {
    forall m :: m in net ==> m.of in ids && ids[m.of] == if m.Request? then Swap(m.wire) else m.wire
  }

  ghost predicate Inv(ids: map<nat, Id>, s: State) {
    && s.stages.Keys == ids.Keys && Whole(Owned(s)) && Whole(TableOK(ids, s)) && Whole(NetOK(ids, s.net))
    && Whole(StoredOnce(s.log)) && Whole(OwnAnswers(s))
  }

  lemma LastNext(log: seq<Event>, e: Event, slot: nat)
    ensures Last(log + [e], slot) == if e.slot == slot then Some(e) else Last(log, slot)
  {
    assert (log + [e])[..|log|] == log;
  }

  lemma StoredOnceNext(log: seq<Event>, e: Event)
    requires StoredOnce(log) && (e.Filled? ==> Last(log, e.slot) == Some(Taken(e.slot)))
    ensures StoredOnce(log + [e])
  {
    var log' := log + [e];
    forall k | 0 <= k < |log'| && log'[k].Filled?
      ensures Last(log'[..k], log'[k].slot) == Some(Taken(log'[k].slot))
    {
      assert log'[..k] == log[..k];
      assert k == |log| ==> log[..k] == log;
    }
  }

  /** Appending an event about one slot. */
  lemma LogNext(s: State, s': State, e: Event)
    requires s'.log == s.log + [e] && StoredOnce(s.log) && (e.Filled? ==> Last(s.log, e.slot) == Some(Taken(e.slot)))
    ensures StoredOnce(s'.log)
    ensures forall slot :: Last(s'.log, slot) == if slot == e.slot then Some(e) else Last(s.log, slot)
  {
    forall slot ensures Last(s'.log, slot) == if slot == e.slot then Some(e) else Last(s.log, slot) {
      LastNext(s.log, e, slot);
    }
    StoredOnceNext(s.log, e);
  }

  /** Request r changes its stage; who else owns what stays. */
  lemma OthersOwn(s: State, s': State, r: nat)
    requires r in s.stages && r in s'.stages && s'.stages == s.stages[r := s'.stages[r]]
    ensures forall q, slot :: q != r ==> Owns(s', q, slot) == Owns(s, q, slot)
  {
  }

  /** Slots in the table stay as they are. */
  lemma KeepTable(ids: map<nat, Id>, s: State, s': State)
    requires TableOK(ids, s) && s'.table == s.table && s'.section == s.section
    requires forall id, r, slot :: Awaited(ids, s, id, r, slot) ==> Awaited(ids, s', id, r, slot)
    ensures TableOK(ids, s')
  {
    assert forall id :: Queue(s', id) == Queue(s, id);
    forall id | Queue(s', id) != []
      ensures s'.section == Stored(id, Queue(s', id)[0]) || exists r :: Awaited(ids, s', id, r, Queue(s', id)[0])
    {
      KeepAwaited(ids, s, s', id, Queue(s, id)[0]);
    }
  }

  lemma KeepAwaited(ids: map<nat, Id>, s: State, s': State, id: Id, slot: nat)
    requires forall r :: Awaited(ids, s, id, r, slot) ==> Awaited(ids, s', id, r, slot)
    ensures (exists r :: Awaited(ids, s, id, r, slot)) ==> exists r :: Awaited(ids, s', id, r, slot)
  {
    if exists r :: Awaited(ids, s, id, r, slot) {
      var r :| Awaited(ids, s, id, r, slot);
      assert Awaited(ids, s', id, r, slot);
    }
  }

  lemma ConstructOK(ids: map<nat, Id>, s: State, r: nat, slot: nat)
    requires Inv(ids, s) && Enabled(ids, s, Construct(r, slot))
    ensures Inv(ids, Apply(ids, s, Construct(r, slot)))
  {
    var s' := Apply(ids, s, Construct(r, slot));
    LogNext(s, s', Taken(slot));
    OthersOwn(s, s', r);
    assert forall q :: !Owns(s, q, slot);
    KeepTable(ids, s, s');
  }

  /** Nobody in the table under the identification of a request that is not waiting. */
  lemma NotListed(ids: map<nat, Id>, s: State, r: nat)
    requires TableOK(ids, s) && Distinct(ids) && s.section.Open? && r in ids && r in s.stages
    requires !s.stages[r].Waiting? && !s.stages[r].Expired?
    ensures Queue(s, ids[r]) == []
  {
    assert forall q, slot :: !Awaited(ids, s, ids[r], q, slot);
  }

  lemma RegisterOK(ids: map<nat, Id>, s: State, r: nat)
    requires Inv(ids, s) && Distinct(ids) && Enabled(ids, s, Register(r))
    ensures Inv(ids, Apply(ids, s, Register(r)))
  {
    OthersOwn(s, Apply(ids, s, Register(r)), r);
    assert Owns(s, r, s.stages[r].slot);
    RegisterTable(ids, s, r);
  }

  lemma RegisterTable(ids: map<nat, Id>, s: State, r: nat)
    requires TableOK(ids, s) && Owned(s) && Distinct(ids) && Enabled(ids, s, Register(r))
    ensures TableOK(ids, Apply(ids, s, Register(r)))
  {
    var s' := Apply(ids, s, Register(r));
    var slot := s.stages[r].slot;
    NotListed(ids, s, r);
    assert Owns(s, r, slot);
    assert forall id :: Queue(s', id) == if id == ids[r] then [slot] else Queue(s, id);
    forall id | Queue(s', id) != [] ensures exists q :: Awaited(ids, s', id, q, Queue(s', id)[0]) {
      if id == ids[r] {
        assert Owns(s', r, slot) && slot !in s.data;
        assert Queue(s', id)[0] == slot && Awaited(ids, s', id, r, slot);
      } else {
        assert Queue(s', id) == Queue(s, id) && exists q :: Awaited(ids, s, id, q, Queue(s, id)[0]);
        KeepAwaited(ids, s, s', id, Queue(s, id)[0]);
      }
    }
  }

  lemma AnswerOK(ids: map<nat, Id>, s: State, m: Message)
    requires Inv(ids, s) && Enabled(ids, s, Answer(m))
    ensures Inv(ids, Apply(ids, s, Answer(m)))
  {
    var s' := Apply(ids, s, Answer(m));
    assert forall r, slot :: Owns(s', r, slot) == Owns(s, r, slot);
    KeepTable(ids, s, s');
  }

  lemma LookOK(ids: map<nat, Id>, s: State, m: Message)
    requires Inv(ids, s) && Enabled(ids, s, Look(m))
    ensures Inv(ids, Apply(ids, s, Look(m)))
  {
    var s' := Apply(ids, s, Look(m));
    assert forall r, slot :: Owns(s', r, slot) == Owns(s, r, slot);
    assert forall id :: Queue(s', id) == Queue(s, id);
    forall id | Queue(s', id) != [] ensures exists q :: Awaited(ids, s', id, q, Queue(s', id)[0]) {
      KeepAwaited(ids, s, s', id, Queue(s, id)[0]);
    }
  }

  lemma FillOK(ids: map<nat, Id>, s: State)
    requires Inv(ids, s) && Distinct(ids) && Enabled(ids, s, Fill)
    ensures Inv(ids, Apply(ids, s, Fill))
  {
    var s' := Apply(ids, s, Fill);
    var id, slot := s.section.id, s.section.slot;
    assert Queue(s, id) == [slot];
    var r :| Awaited(ids, s, id, r, slot);
    assert r == s.section.answer;
    LogNext(s, s', Filled(slot, r));
    assert forall q, t :: Owns(s', q, t) == Owns(s, q, t);
    assert forall i :: Queue(s', i) == Queue(s, i);
    forall i | Queue(s', i) != [] && i != id ensures exists q :: Awaited(ids, s', i, q, Queue(s', i)[0]) {
      KeepAwaited(ids, s, s', i, Queue(s, i)[0]);
    }
  }

  lemma DropOK(ids: map<nat, Id>, s: State)
    requires Inv(ids, s) && Enabled(ids, s, Drop)
    ensures Inv(ids, Apply(ids, s, Drop))
  {
    var s' := Apply(ids, s, Drop);
    assert forall q, t :: Owns(s', q, t) == Owns(s, q, t);
    assert forall i :: Queue(s', i) == if i == s.section.id then [] else Queue(s, i);
    forall i | Queue(s', i) != [] ensures exists q :: Awaited(ids, s', i, q, Queue(s', i)[0]) {
      KeepAwaited(ids, s, s', i, Queue(s, i)[0]);
    }
  }

  lemma ExpireOK(ids: map<nat, Id>, s: State, r: nat)
    requires Inv(ids, s) && Enabled(ids, s, Expire(r))
    ensures Inv(ids, Apply(ids, s, Expire(r)))
  {
    var s' := Apply(ids, s, Expire(r));
    assert forall q, t :: Owns(s', q, t) == Owns(s, q, t);
    KeepTable(ids, s, s');
  }

  lemma DeleteOK(ids: map<nat, Id>, s: State, r: nat)
    requires Inv(ids, s) && Enabled(ids, s, Delete(r))
    ensures Inv(ids, Apply(ids, s, Delete(r)))
  {
    var s' := Apply(ids, s, Delete(r));
    assert forall q, t :: Owns(s', q, t) == Owns(s, q, t);
    assert forall i :: Queue(s', i) == if i == ids[r] then [] else Queue(s, i);
    forall i | Queue(s', i) != [] ensures exists q :: Awaited(ids, s', i, q, Queue(s', i)[0]) {
      KeepAwaited(ids, s, s', i, Queue(s, i)[0]);
    }
  }

  /** A request gives its slot back. */
  lemma EndOK(ids: map<nat, Id>, s: State, r: nat, step: Step)
    requires Inv(ids, s) && Enabled(ids, s, step) && (step == Release(r) || step == Take(r))
    ensures Inv(ids, Apply(ids, s, step))
  {
    var s' := Apply(ids, s, step);
    var slot := s.stages[r].slot;
    assert Owns(s, r, slot);
    LogNext(s, s', Freed(slot));
    OthersOwn(s, s', r);
    KeepTable(ids, s, s');
  }

  lemma StepOK(ids: map<nat, Id>, s: State, step: Step)
    requires Inv(ids, s) && Distinct(ids) && Enabled(ids, s, step)
    ensures Inv(ids, Apply(ids, s, step))
  {
    match step
    case Construct(r, slot) => ConstructOK(ids, s, r, slot);
    case Register(r) => RegisterOK(ids, s, r);
    case Answer(m) => AnswerOK(ids, s, m);
    case Look(m) => LookOK(ids, s, m);
    case Fill => FillOK(ids, s);
    case Drop => DropOK(ids, s);
    case Expire(r) => ExpireOK(ids, s, r);
    case Delete(r) => DeleteOK(ids, s, r);
    case Release(r) => EndOK(ids, s, r, step);
    case Take(r) => EndOK(ids, s, r, step);
  }

  lemma {:induction false} RunOK(ids: map<nat, Id>, s: State, steps: seq<Step>)
    requires Inv(ids, s) && Distinct(ids) && Runs(ids, s, steps)
    ensures Inv(ids, Exec(ids, s, steps))
    decreases |steps|
  {
    if steps != [] {
      StepOK(ids, s, steps[0]);
      RunOK(ids, Apply(ids, s, steps[0]), steps[1..]);
    }
  }

  /** With distinct identifications, in every run each slot is filled at most once between being taken and
      being freed, never afterwards, and a request returns no other request's response. */
  lemma SlotsSafe(ids: map<nat, Id>, steps: seq<Step>)
    requires Distinct(ids) && Runs(ids, Start(ids), steps)
    ensures StoredOnce(Exec(ids, Start(ids), steps).log) && OwnAnswers(Exec(ids, Start(ids), steps))
  {
    RunOK(ids, Start(ids), steps);
  }

  /** How a request ends: with its own response if it took one, with none if it timed out. */
  ghost predicate EndsAs(stage: Stage, stage': Stage, r: nat, steps: seq<Step>) {
    && (stage' == Done(Some(r)) <==> stage == Done(Some(r)) || Take(r) in steps)
    && (stage' == Done(None) <==> stage == Done(None) || Release(r) in steps)
  }

  lemma OutcomeStep(ids: map<nat, Id>, s: State, step: Step, r: nat)
    requires Inv(ids, s) && Enabled(ids, s, step) && r in s.stages
    ensures r in Apply(ids, s, step).stages && EndsAs(s.stages[r], Apply(ids, s, step).stages[r], r, [step])
  {
    if step == Take(r) {
      assert Owns(s, r, s.stages[r].slot);
    }
  }

  lemma {:induction false} OutcomeExec(ids: map<nat, Id>, s: State, steps: seq<Step>, r: nat)
    requires Inv(ids, s) && Distinct(ids) && Runs(ids, s, steps) && r in s.stages
    ensures r in Exec(ids, s, steps).stages && EndsAs(s.stages[r], Exec(ids, s, steps).stages[r], r, steps)
    decreases |steps|
  {
    if steps != [] {
      OutcomeStep(ids, s, steps[0], r);
      StepOK(ids, s, steps[0]);
      OutcomeExec(ids, Apply(ids, s, steps[0]), steps[1..], r);
      assert forall st :: st in steps <==> st in [steps[0]] || st in steps[1..];
    }
  }

  /** With distinct identifications, a call that saw its slot filled returns the response to its own request,
      and one that timed out returns none: each exactly then. */
  lemma Outcome(ids: map<nat, Id>, steps: seq<Step>, r: nat)
    requires Distinct(ids) && Runs(ids, Start(ids), steps) && r in ids
    ensures var s := Exec(ids, Start(ids), steps);
            && r in s.stages
            && (s.stages[r] == Done(Some(r)) <==> Take(r) in steps)
            && (s.stages[r] == Done(None) <==> Release(r) in steps)
  {
    OutcomeExec(ids, Start(ids), steps, r);
  }

  // ---- Slots go back to the pool ------------------------------------------------------------------------------

  /** A slot that is not in the pool belongs to a request under way. */
  ghost predicate HasOwner(s: State) {
    forall slot :: !Unused(s.log, slot) ==> exists r :: Owns(s, r, slot)
  }

  lemma OwnerFrom(s: State, s': State, slot: nat)
    requires forall r :: Owns(s, r, slot) ==> Owns(s', r, slot)
    ensures (exists r :: Owns(s, r, slot)) ==> exists r :: Owns(s', r, slot)
  {
    if exists r :: Owns(s, r, slot) {
      var r :| Owns(s, r, slot);
      assert Owns(s', r, slot);
    }
  }

  /** Steps about the slot of one request. */
  lemma OwnerLogged(s: State, s': State, r: nat, e: Event)
    requires HasOwner(s) && s'.log == s.log + [e]
    requires forall q, slot :: slot != e.slot && Owns(s, q, slot) ==> Owns(s', q, slot)
    requires e.Freed? || Owns(s', r, e.slot)
    ensures HasOwner(s')
  {
    forall slot | !Unused(s'.log, slot) ensures exists q :: Owns(s', q, slot) {
      LastNext(s.log, e, slot);
      if slot == e.slot {
        assert Owns(s', r, slot);
      } else {
        assert !Unused(s.log, slot);
        OwnerFrom(s, s', slot);
      }
    }
  }

  lemma OwnerFill(ids: map<nat, Id>, s: State)
    requires Inv(ids, s) && Distinct(ids) && Enabled(ids, s, Fill) && HasOwner(s)
    ensures HasOwner(Apply(ids, s, Fill))
  {
    var s' := Apply(ids, s, Fill);
    var slot := s.section.slot;
    assert Queue(s, s.section.id) == [slot];
    var r :| Awaited(ids, s, s.section.id, r, slot);
    assert forall q, t :: Owns(s', q, t) == Owns(s, q, t);
    OwnerLogged(s, s', r, Filled(slot, s.section.answer));
  }

  lemma OwnerStep(ids: map<nat, Id>, s: State, step: Step)
    requires Inv(ids, s) && Distinct(ids) && Enabled(ids, s, step) && HasOwner(s)
    ensures HasOwner(Apply(ids, s, step))
  {
    var s' := Apply(ids, s, step);
    match step
    case Construct(r, slot) => OwnerLogged(s, s', r, Taken(slot));
    case Fill => OwnerFill(ids, s);
    case Release(r) => OwnerLogged(s, s', r, Freed(s.stages[r].slot));
    case Take(r) => OwnerLogged(s, s', r, Freed(s.stages[r].slot));
    case _ =>
      forall slot | !Unused(s'.log, slot) ensures exists q :: Owns(s', q, slot) {
        OwnerFrom(s, s', slot);
      }
  }

  lemma {:induction false} OwnerExec(ids: map<nat, Id>, s: State, steps: seq<Step>)
    requires Inv(ids, s) && Distinct(ids) && Runs(ids, s, steps) && HasOwner(s)
    ensures HasOwner(Exec(ids, s, steps))
    decreases |steps|
  {
    if steps != [] {
      OwnerStep(ids, s, steps[0]);
      StepOK(ids, s, steps[0]);
      OwnerExec(ids, Apply(ids, s, steps[0]), steps[1..]);
    }
  }

  /** With distinct identifications, a slot is out of the pool exactly while one request under way has it. */
  lemma SlotsReturned(ids: map<nat, Id>, steps: seq<Step>, slot: nat)
    requires Distinct(ids) && Runs(ids, Start(ids), steps)
    ensures var s := Exec(ids, Start(ids), steps);
            && (!Unused(s.log, slot) <==> exists r :: Owns(s, r, slot))
            && forall r, q :: Owns(s, r, slot) && Owns(s, q, slot) ==> r == q
  {
    RunOK(ids, Start(ids), steps);
    OwnerExec(ids, Start(ids), steps);
  }

  // ---- Two requests with one identification -----------------------------------------------------------------

  lemma {:induction false} Compose(ids: map<nat, Id>, s: State, a: seq<Step>, b: seq<Step>)
    requires Runs(ids, s, a) && Runs(ids, Exec(ids, s, a), b)
    ensures Runs(ids, s, a + b) && Exec(ids, s, a + b) == Exec(ids, Exec(ids, s, a), b)
    decreases |a|
  {
    if a == [] {
      assert a + b == b;
    } else {
      assert (a + b)[1..] == a[1..] + b;
      Compose(ids, Apply(ids, s, a[0]), a[1..], b);
    }
  }

  lemma One(ids: map<nat, Id>, s: State, steps: seq<Step>, step: Step)
    requires Runs(ids, Start(ids), steps) && Exec(ids, Start(ids), steps) == s && Enabled(ids, s, step)
    ensures Runs(ids, Start(ids), steps + [step]) && Exec(ids, Start(ids), steps + [step]) == Apply(ids, s, step)
  {
    assert Runs(ids, s, [step]) && Exec(ids, s, [step]) == Apply(ids, s, step) by {
      assert [step][1..] == [];
      assert Runs(ids, Apply(ids, s, step), []);
    }
    Compose(ids, Start(ids), steps, [step]);
  }

  /** Two requests take a slot each and register under the same identification. */
  lemma BothRegister(ids: map<nat, Id>, r: nat, q: nat) returns (steps: seq<Step>, s: State)
    requires r in ids && q in ids && r != q && ids[r] == ids[q]
    ensures Runs(ids, Start(ids), steps) && Exec(ids, Start(ids), steps) == s
    ensures r in s.stages && s.stages[r] == Waiting(0) && q in s.stages && s.stages[q] == Waiting(1)
    ensures Queue(s, ids[r]) == [0, 1] && s.section.Open? && Request(Swap(ids[r]), r) in s.net
    ensures s.log == [Taken(0), Taken(1)]
  {
    steps, s := [], Start(ids);
    One(ids, s, steps, Construct(r, 0));
    steps, s := steps + [Construct(r, 0)], Apply(ids, s, Construct(r, 0));
    LastNext([], Taken(0), 1);
    assert s.log == [] + [Taken(0)];
    One(ids, s, steps, Construct(q, 1));
    steps, s := steps + [Construct(q, 1)], Apply(ids, s, Construct(q, 1));
    One(ids, s, steps, Register(r));
    steps, s := steps + [Register(r)], Apply(ids, s, Register(r));
    One(ids, s, steps, Register(q));
    steps, s := steps + [Register(q)], Apply(ids, s, Register(q));
  }

  /** The second times out; its removal takes the first one's entry off the table, and its own slot goes
      back to the pool. */
  lemma SecondExpires(ids: map<nat, Id>, r: nat, q: nat) returns (steps: seq<Step>, s: State)
    requires r in ids && q in ids && r != q && ids[r] == ids[q]
    ensures Runs(ids, Start(ids), steps) && Exec(ids, Start(ids), steps) == s
    ensures Queue(s, ids[r]) == [1] && s.section.Open? && Request(Swap(ids[r]), r) in s.net
    ensures s.log == [Taken(0), Taken(1), Freed(1)]
  {
    steps, s := BothRegister(ids, r, q);
    One(ids, s, steps, Expire(q));
    steps, s := steps + [Expire(q)], Apply(ids, s, Expire(q));
    One(ids, s, steps, Delete(q));
    steps, s := steps + [Delete(q)], Apply(ids, s, Delete(q));
    One(ids, s, steps, Release(q));
    steps, s := steps + [Release(q)], Apply(ids, s, Release(q));
  }

  /** The response to the first then goes into the freed slot. */
  lemma Clash(ids: map<nat, Id>, r: nat, q: nat) returns (steps: seq<Step>)
    requires r in ids && q in ids && r != q && ids[r] == ids[q]
    ensures Runs(ids, Start(ids), steps)
    ensures Exec(ids, Start(ids), steps).log == [Taken(0), Taken(1), Freed(1), Filled(1, r)]
  {
    var s;
    steps, s := SecondExpires(ids, r, q);
    var request, response := Request(Swap(ids[r]), r), Response(ids[r], r);
    One(ids, s, steps, Answer(request));
    steps, s := steps + [Answer(request)], Apply(ids, s, Answer(request));
    One(ids, s, steps, Look(response));
    steps, s := steps + [Look(response)], Apply(ids, s, Look(response));
    One(ids, s, steps, Fill);
    steps, s := steps + [Fill], Apply(ids, s, Fill);
  }

  /** Slots are safe in every run if and only if no two requests share an identification. */
  lemma SafeIffDistinct(ids: map<nat, Id>)
    ensures (forall steps :: Runs(ids, Start(ids), steps) ==> StoredOnce(Exec(ids, Start(ids), steps).log)) <==> Distinct(ids)
  {
    if Distinct(ids) {
      forall steps | Runs(ids, Start(ids), steps) ensures StoredOnce(Exec(ids, Start(ids), steps).log) {
        SlotsSafe(ids, steps);
      }
    } else {
      var r, q :| r in ids && q in ids && r != q && ids[r] == ids[q];
      var steps := Clash(ids, r, q);
      ClashUnsafe(Exec(ids, Start(ids), steps).log, r);
    }
  }

  lemma ClashUnsafe(log: seq<Event>, r: nat)
    requires log == [Taken(0), Taken(1), Freed(1), Filled(1, r)]
    ensures !StoredOnce(log)
  {
    assert log[..3] == [Taken(0), Taken(1)] + [Freed(1)];
    LastNext([Taken(0), Taken(1)], Freed(1), 1);
    assert log[3].Filled?;
  }

  /** Any request can be answered and return its response. */
  lemma AnsweredRun(ids: map<nat, Id>, r: nat) returns (steps: seq<Step>)
    requires r in ids
    ensures Runs(ids, Start(ids), steps)
    ensures var s := Exec(ids, Start(ids), steps);
            && r in s.stages && s.stages[r] == Done(Some(r)) && Queue(s, ids[r]) == []
            && s.log == [Taken(0), Filled(0, r), Freed(0)]
  {
    var s;
    steps, s := Asked(ids, r);
    var response := Response(ids[r], r);
    One(ids, s, steps, Look(response));
    steps, s := steps + [Look(response)], Apply(ids, s, Look(response));
    One(ids, s, steps, Fill);
    steps, s := steps + [Fill], Apply(ids, s, Fill);
    One(ids, s, steps, Drop);
    steps, s := steps + [Drop], Apply(ids, s, Drop);
    One(ids, s, steps, Take(r));
    steps, s := steps + [Take(r)], Apply(ids, s, Take(r));
  }

  /** One request is registered and answered. */
  lemma Asked(ids: map<nat, Id>, r: nat) returns (steps: seq<Step>, s: State)
    requires r in ids
    ensures Runs(ids, Start(ids), steps) && Exec(ids, Start(ids), steps) == s
    ensures r in s.stages && s.stages[r] == Waiting(0) && Queue(s, ids[r]) == [0] && s.section.Open?
    ensures Response(ids[r], r) in s.net && s.log == [Taken(0)]
  {
    steps, s := [], Start(ids);
    One(ids, s, steps, Construct(r, 0));
    steps, s := steps + [Construct(r, 0)], Apply(ids, s, Construct(r, 0));
    One(ids, s, steps, Register(r));
    steps, s := steps + [Register(r)], Apply(ids, s, Register(r));
    var request := Request(Swap(ids[r]), r);
    One(ids, s, steps, Answer(request));
    steps, s := steps + [Answer(request)], Apply(ids, s, Answer(request));
  }
}
