/** What every interleaving of allocating and freeing threads keeps, and where it stops: 32 stacks. */
module AllocatorSafety {
  import opened AllocatorThreads
  import opened AllocatorInvariant

  // ---- At most 32 stacks --------------------------------------------------------------------------------

  lemma {:induction false} FindStep(s: State, w: map<Addr, Place>, t: nat)
    requires Inv(s, w) && Enabled(s, Advance(t))
    requires var pc := At(s, t);
             pc.LoadCount? || pc.LoadBitmap? || pc.Pick? || pc.Check? || pc.Reject? || pc.Popped? || pc.Stored?
    ensures Inv(Apply(s, Advance(t)), w)
  {
    var pc := At(s, t);
    assert SnapAt(s, pc) && SizeAt(s, pc);
    match pc
    case LoadCount(op) => LocalMove(s, w, t, LoadBitmap(op, s.count));
    case LoadBitmap(op, c) => LocalMove(s, w, t, Pick(op, c, s.occupied, {}));
    case Pick(op, c, b, bad) =>
      var first := FirstFree(b + bad, 0);
      if first >= c || first == 64 {
        LocalMove(s, w, t, CreateLock(op));
      } else if s.occupied == b {
        AcquireStep(s, w, t);
      } else {
        LocalMove(s, w, t, Pick(op, c, s.occupied, bad));
      }
    case Check(op, c, b, bad, i) =>
      LocalMove(s, w, t, if Fits(op, s.chunk, s.stacks[i].size) then Claimed(op, i) else Reject(op, c, b, bad, i));
    case Reject(_, _, _, _, _) => RejectStep(s, w, t);
    case Popped(i, n) => LocalMove(s, w, t, Taken(i, s.stacks[i].pointers[n - 1]));
    case Stored(_) => StoredStep(s, w, t);
  }

  lemma CreateStep(s: State, w: map<Addr, Place>, t: nat) returns (w': map<Addr, Place>)
    requires Inv(s, w) && Enabled(s, Advance(t)) && |Apply(s, Advance(t)).stacks| <= 32
    requires At(s, t).CreateLock? || Creates(At(s, t))
    ensures Inv(Apply(s, Advance(t)), w')
  {
    w' := w;
    match At(s, t)
    case CreateLock(_) => if !s.creating { CreateLockStep(s, w, t); }
    case CreateLoad(op) =>
      assert CreatorOK(s, At(s, t));
      LocalMove(s, w, t, CreateStore(op, s.count));
    case CreateStore(_, _) => w' := CreateStoreStep(s, w, t);
    case CreateCount(_) => CreateCountStep(s, w, t);
    case CreateUnlock(_) => CreateUnlockStep(s, w, t);
  }

  lemma StepInv(s: State, w: map<Addr, Place>, st: Step) returns (w': map<Addr, Place>)
    requires Inv(s, w) && Enabled(s, st) && |Apply(s, st).stacks| <= 32
    ensures Inv(Apply(s, st), w')
  {
    w' := w;
    match st
    case Begin(t, op) =>
      if op.Free? {
        w' := BeginFree(s, w, t, op.p);
      } else {
        LocalMove(s, w, t, LoadCount(op));
      }
    case Advance(t) =>
      var pc := At(s, t);
      if pc.Claimed? && pc.op.Allocate? {
        w' := PopStep(s, w, t);
      } else if pc.Claimed? {
        PushStep(s, w, t);
      } else if pc.Taken? {
        w' := TakenStep(s, w, t);
      } else if pc.Pushed? {
        w' := StoreStep(s, w, t);
      } else if pc.CreateLock? || Creates(pc) {
        w' := CreateStep(s, w, t);
      } else {
        FindStep(s, w, t);
      }
  }

  /** The number of stacks never shrinks, so bounding it at the end bounds it throughout. */
  lemma {:induction false} StacksGrow(s: State, steps: seq<Step>)
    requires Runs(s, steps)
    ensures |s.stacks| <= |Exec(s, steps).stacks|
    decreases |steps|
  {
    if steps != [] {
      StacksGrow(Apply(s, steps[0]), steps[1..]);
    }
  }

  lemma {:induction false} ExecSafe(s: State, steps: seq<Step>)
    requires Safe(s) && Runs(s, steps) && |Exec(s, steps).stacks| <= 32
    ensures Safe(Exec(s, steps))
    decreases |steps|
  {
    if steps != [] {
      var s1 := Apply(s, steps[0]);
      StacksGrow(s1, steps[1..]);
      var w :| Inv(s, w);
      var w' := StepInv(s, w, steps[0]);
      ExecSafe(s1, steps[1..]);
    }
  }

  /** In every run that creates at most 32 stacks, no two threads ever hold one stack. */
  lemma LocksExclusive(chunk: nat, steps: seq<Step>)
    requires chunk > 0 && Runs(Init(chunk), steps) && |Exec(Init(chunk), steps).stacks| <= 32
    ensures Exclusive(Exec(Init(chunk), steps))
  {
    InitSafe(chunk);
    ExecSafe(Init(chunk), steps);
  }

  /** An address is in one place and no other, or is no item. */
  ghost predicate InOnePlace(s: State, a: Addr) {
    && (a.block < |s.stacks| && a.item < s.chunk <==>
        a in s.out || (exists t: nat :: Carries(s, t, a)) || (exists i: nat, j: nat :: Sits(s, i, j, a)))
    && !(a in s.out && exists t: nat :: Carries(s, t, a))
    && !(a in s.out && exists i: nat, j: nat :: Sits(s, i, j, a))
    && !((exists t: nat :: Carries(s, t, a)) && (exists i: nat, j: nat :: Sits(s, i, j, a)))
    && (forall t: nat, u: nat :: Carries(s, t, a) && Carries(s, u, a) ==> t == u)
    && (forall i: nat, j: nat, k: nat, l: nat :: Sits(s, i, j, a) && Sits(s, k, l, a) ==> i == k && j == l)
  }

  /** ... and every item is in exactly one place: handed out, in the hands of one thread inside the
      allocator, or in one live slot of one stack. */
  lemma ItemsPartitioned(chunk: nat, steps: seq<Step>, a: Addr)
    requires chunk > 0 && Runs(Init(chunk), steps) && |Exec(Init(chunk), steps).stacks| <= 32
    ensures Exec(Init(chunk), steps).chunk == chunk && InOnePlace(Exec(Init(chunk), steps), a)
  {
    InitSafe(chunk);
    ExecSafe(Init(chunk), steps);
    var s := Exec(Init(chunk), steps);
    ChunkFixed(Init(chunk), steps);
    var w :| Inv(s, w);
    PlacedOnce(s, w, a);
  }

  lemma PlacedOnce(s: State, w: map<Addr, Place>, a: Addr)
    requires PlacesOK(s, w)
    ensures InOnePlace(s, a)
  {
    if a in w {
      match w[a]
      case InStack(i, j) => assert Sits(s, i, j, a);
      case InTransit(t) => assert Carries(s, t, a);
      case Out =>
    }
  }

  ghost predicate Sits(s: State, i: nat, j: nat, a: Addr) {
    Live(s, i, j) && s.stacks[i].pointers[j] == a
  }

  lemma {:induction false} ChunkFixed(s: State, steps: seq<Step>)
    requires Runs(s, steps)
    ensures Exec(s, steps).chunk == s.chunk
    decreases |steps|
  {
    if steps != [] {
      ChunkFixed(Apply(s, steps[0]), steps[1..]);
    }
  }

  /** An item that allocate is about to return is not handed out already, and nobody else has it. */
  lemma NoDoubleHandout(chunk: nat, steps: seq<Step>, t: nat)
    requires chunk > 0 && Runs(Init(chunk), steps) && |Exec(Init(chunk), steps).stacks| <= 32
    requires At(Exec(Init(chunk), steps), t).Taken?
    ensures var s := Exec(Init(chunk), steps);
            var p := At(s, t).p;
            && p !in s.out
            && (forall u: nat :: u != t ==> !Carries(s, u, p))
            && (forall i: nat, j: nat :: !Sits(s, i, j, p))
  {
    var s := Exec(Init(chunk), steps);
    var p := At(s, t).p;
    ItemsPartitioned(chunk, steps, p);
    assert Carries(s, t, p);
  }

  /** No thread ever meets an array bound or a shift it may not make: with at most 32 stacks every
      thread inside the allocator can take its next step. */
  lemma NeverStuck(chunk: nat, steps: seq<Step>, t: nat)
    requires chunk > 0 && Runs(Init(chunk), steps) && |Exec(Init(chunk), steps).stacks| <= 32
    requires !At(Exec(Init(chunk), steps), t).Idle?
    ensures Enabled(Exec(Init(chunk), steps), Advance(t))
  {
    InitSafe(chunk);
    ExecSafe(Init(chunk), steps);
    var s := Exec(Init(chunk), steps);
    var w :| Inv(s, w);
    var pc := At(s, t);
    assert SizeAt(s, pc);
    assert Creates(pc) ==> CreatorOK(s, pc);
    match pc
    case Check(_, _, _, _, i) => assert Holds(s, t, i);
    case Reject(_, _, _, _, i) => assert Holds(s, t, i);
    case Taken(i, _) => assert Holds(s, t, i);
    case Stored(i) => assert Holds(s, t, i);
    case _ =>
  }

  // ---- More than 32 stacks -------------------------------------------------------------------------------

  ghost predicate Leads(s: State, steps: seq<Step>, s': State) {
    Runs(s, steps) && Exec(s, steps) == s'
  }

  lemma One(s: State, st: Step)
    requires Enabled(s, st)
    ensures Leads(s, [st], Apply(s, st))
  {
    assert [st][1..] == [];
  }

  lemma {:induction false} Chain(s: State, a: seq<Step>, s1: State, b: seq<Step>, s2: State)
    requires Leads(s, a, s1) && Leads(s1, b, s2)
    ensures Leads(s, a + b, s2)
    decreases |a|
  {
    if a == [] {
      assert a + b == b;
    } else {
      Chain(Apply(s, a[0]), a[1..], s1, b, s2);
      assert (a + b)[1..] == a[1..] + b;
    }
  }

  /** Two steps of one thread. */
  lemma Two(s: State, t: nat, s1: State, s2: State)
    requires Enabled(s, Advance(t)) && Apply(s, Advance(t)) == s1
    requires Enabled(s1, Advance(t)) && Apply(s1, Advance(t)) == s2
    ensures Leads(s, [Advance(t)] + [Advance(t)], s2)
  {
    One(s, Advance(t));
    One(s1, Advance(t));
    Chain(s, [Advance(t)], s1, [Advance(t)], s2);
  }

  /** The items handed out once an operation has begun. */
  function Begun(s: State, op: Op): set<Addr> {
    if op.Free? then s.out - {op.p} else s.out
  }

  /** Only thread t moves. */
  ghost predicate OnlyBy(steps: seq<Step>, t: nat) {
    forall i :: 0 <= i < |steps| ==> steps[i].t == t
  }

  /** A thread enters the allocator and takes its snapshots. */
  lemma Enter(s: State, t: nat, op: Op) returns (steps: seq<Step>)
    requires At(s, t).Idle? && (op.Free? ==> op.p in s.out)
    ensures Leads(s, steps, Go(s.(out := Begun(s, op)), t, Pick(op, s.count, s.occupied, {}))) && OnlyBy(steps, t)
  {
    var s1 := Go(s.(out := Begun(s, op)), t, LoadCount(op));
    assert Apply(s, Begin(t, op)) == s1;
    One(s, Begin(t, op));
    var s3 := Go(s.(out := Begun(s, op)), t, Pick(op, s.count, s.occupied, {}));
    Load(s1, t, op);
    assert Go(s1, t, Pick(op, s.count, s.occupied, {})) == s3;
    Chain(s, [Begin(t, op)], s1, [Advance(t)] + [Advance(t)], s3);
    steps := [Begin(t, op)] + ([Advance(t)] + [Advance(t)]);
  }

  lemma Load(s: State, t: nat, op: Op)
    requires At(s, t) == LoadCount(op)
    ensures Leads(s, [Advance(t)] + [Advance(t)], Go(s, t, Pick(op, s.count, s.occupied, {})))
  {
    var s1 := Go(s, t, LoadBitmap(op, s.count));
    var s2 := Go(s, t, Pick(op, s.count, s.occupied, {}));
    assert Apply(s1, Advance(t)) == s2;
    Two(s, t, s1, s2);
  }

  /** A thread whose snapshot is current wins the first free lock. */
  lemma Win(s: State, t: nat, op: Op, first: nat) returns (s': State)
    requires At(s, t) == Pick(op, s.count, s.occupied, {}) && first == FirstFree(s.occupied, 0) < s.count
    requires first < 64
    ensures Leads(s, [Advance(t)], s')
    ensures s' == Go(s.(occupied := s.occupied + {first}), t, Check(op, s.count, s.occupied, {}, first))
  {
    assert s.occupied + {} == s.occupied;
    s' := Apply(s, Advance(t));
    One(s, Advance(t));
  }

  /** A thread enters and wins the first free lock. */
  lemma EnterWin(s: State, t: nat, op: Op, first: nat) returns (steps: seq<Step>, s': State)
    requires At(s, t).Idle? && (op.Free? ==> op.p in s.out) && first == FirstFree(s.occupied, 0) < s.count && first < 64
    ensures Leads(s, steps, s')
    ensures s' == Go(s.(out := Begun(s, op), occupied := s.occupied + {first}), t, Check(op, s.count, s.occupied, {}, first))
  {
    var a := Enter(s, t, op);
    var s1 := Go(s.(out := Begun(s, op)), t, Pick(op, s.count, s.occupied, {}));
    s' := Win(s1, t, op, first);
    Chain(s, a, s1, [Advance(t)], s');
    steps := a + [Advance(t)];
    assert s' == Go(s.(out := Begun(s, op), occupied := s.occupied + {first}), t, Check(op, s.count, s.occupied, {}, first));
  }

  lemma CreateEnd(s: State, t: nat, op: Op, s1: State, s2: State, s3: State)
    requires At(s, t) == CreateStore(op, s.count) && |s.stacks| == s.count < 64
    requires s1 == Go(s.(stacks := s.stacks + [NewStack(s.count, s.chunk)]), t, CreateCount(op))
    requires s2 == Go(s1.(count := s.count + 1), t, CreateUnlock(op)) && s3 == Go(s2.(creating := false), t, LoadCount(op))
    ensures Leads(s, ([Advance(t)] + [Advance(t)]) + [Advance(t)], s3)
  {
    Two(s, t, s1, s2);
    One(s2, Advance(t));
    Chain(s, [Advance(t)] + [Advance(t)], s2, [Advance(t)], s3);
  }

  /** A thread that found no lock free creates a stack and looks again. */
  lemma Create(s: State, t: nat, op: Op) returns (steps: seq<Step>)
    requires At(s, t) == CreateLock(op) && !s.creating && |s.stacks| == s.count < 64
    ensures Leads(s, steps, Go(s.(stacks := s.stacks + [NewStack(s.count, s.chunk)], count := s.count + 1), t, LoadCount(op)))
    ensures OnlyBy(steps, t)
  {
    var s1 := Go(s.(creating := true), t, CreateLoad(op));
    var s2 := Go(s1, t, CreateStore(op, s.count));
    var s3 := Go(s2.(stacks := s.stacks + [NewStack(s.count, s.chunk)]), t, CreateCount(op));
    var s4 := Go(s3.(count := s.count + 1), t, CreateUnlock(op));
    var s5 := Go(s4.(creating := false), t, LoadCount(op));
    Two(s, t, s1, s2);
    CreateEnd(s2, t, op, s3, s4, s5);
    Chain(s, [Advance(t)] + [Advance(t)], s2, ([Advance(t)] + [Advance(t)]) + [Advance(t)], s5);
    steps := ([Advance(t)] + [Advance(t)]) + (([Advance(t)] + [Advance(t)]) + [Advance(t)]);
    assert s5 == Go(s.(stacks := s.stacks + [NewStack(s.count, s.chunk)], count := s.count + 1), t, LoadCount(op));
  }

  /** Threads 0 .. k-1 each sit inside the stack of their number; nobody else is in the allocator. */
  ghost predicate Crowded(s: State, k: nat) {
    && s.chunk > 0 && |s.stacks| == s.count == k && !s.creating
    && (forall j :: j in s.occupied <==> 0 <= j < k)
    && (forall t: nat :: At(s, t) == if t < k then Claimed(Allocate, t) else Idle)
    && (forall i :: 0 <= i < k ==> 0 < s.stacks[i].size <= s.chunk && |s.stacks[i].pointers| == s.chunk)
  }

  lemma FirstIs(x: set<nat>, k: nat)
    requires k < 64 && k !in x && forall j: nat :: j < k ==> j in x
    ensures FirstFree(x, 0) == k
  {
  }

  /** A thread takes stack k, which nobody holds. */
  lemma Occupy(s: State, k: nat) returns (steps: seq<Step>, s': State)
    requires k < 64 && s.chunk > 0 && |s.stacks| == s.count == k + 1 && !s.creating
    requires forall j :: j in s.occupied <==> 0 <= j < k
    requires forall t: nat :: At(s, t) == if t < k then Claimed(Allocate, t)
                                          else if t == k then Pick(Allocate, s.count, s.occupied, {}) else Idle
    requires forall i :: 0 <= i <= k ==> 0 < s.stacks[i].size <= s.chunk && |s.stacks[i].pointers| == s.chunk
    ensures Leads(s, steps, s') && Crowded(s', k + 1) && s'.chunk == s.chunk
  {
    FirstIs(s.occupied, k);
    var s1 := Win(s, k, Allocate, k);
    One(s1, Advance(k));
    s' := Apply(s1, Advance(k));
    assert At(s', k) == Claimed(Allocate, k);
    assert forall t: nat :: t != k ==> At(s', t) == At(s, t);
    Chain(s, [Advance(k)], s1, [Advance(k)], s');
    steps := [Advance(k)] + [Advance(k)];
  }

  lemma FirstCrowd(chunk: nat) returns (steps: seq<Step>, s': State)
    requires chunk > 0
    ensures Leads(Init(chunk), steps, s') && Crowded(s', 1) && s'.chunk == chunk
  {
    var s := Init(chunk);
    var a := Enter(s, 0, Allocate);
    var s1 := Go(s, 0, Pick(Allocate, s.count, s.occupied, {}));
    var b;
    b, s' := Occupy(s1, 0);
    Chain(s, a, s1, b, s');
    steps := a + b;
  }

  /** One more thread finds every stack locked, so it creates one. */
  lemma CreateAnother(s: State, k: nat) returns (steps: seq<Step>)
    requires Crowded(s, k) && 1 <= k < 64
    ensures Leads(s, steps, Go(s.(stacks := s.stacks + [NewStack(k, s.chunk)], count := k + 1), k, LoadCount(Allocate)))
  {
    var a := Enter(s, k, Allocate);
    var s1 := Go(s, k, Pick(Allocate, s.count, s.occupied, {}));
    FirstIs(s.occupied, k);
    assert s.occupied + {} == s.occupied;
    var s2 := Go(s1, k, CreateLock(Allocate));
    One(s1, Advance(k));
    Chain(s, a, s1, [Advance(k)], s2);
    var b := Create(s2, k, Allocate);
    var s3 := Go(s2.(stacks := s.stacks + [NewStack(k, s.chunk)], count := k + 1), k, LoadCount(Allocate));
    Chain(s, a + [Advance(k)], s2, b, s3);
    steps := a + [Advance(k)] + b;
    assert s3 == Go(s.(stacks := s.stacks + [NewStack(k, s.chunk)], count := k + 1), k, LoadCount(Allocate));
  }

  /** ... and sits in it. */
  lemma MoreCrowd(s: State, k: nat) returns (steps: seq<Step>, s': State)
    requires Crowded(s, k) && 1 <= k < 64
    ensures Leads(s, steps, s') && Crowded(s', k + 1) && s'.chunk == s.chunk
  {
    var a := CreateAnother(s, k);
    var s1 := Go(s.(stacks := s.stacks + [NewStack(k, s.chunk)], count := k + 1), k, LoadCount(Allocate));
    Load(s1, k, Allocate);
    var s2 := Go(s1, k, Pick(Allocate, k + 1, s.occupied, {}));
    Chain(s, a, s1, [Advance(k)] + [Advance(k)], s2);
    assert forall t: nat :: t != k ==> At(s2, t) == At(s, t);
    assert forall i :: 0 <= i < k ==> s2.stacks[i] == s.stacks[i];
    var b;
    b, s' := Occupy(s2, k);
    Chain(s, a + ([Advance(k)] + [Advance(k)]), s2, b, s');
    steps := a + ([Advance(k)] + [Advance(k)]) + b;
  }

  lemma {:induction false} Crowd(chunk: nat, k: nat) returns (steps: seq<Step>, s': State)
    requires chunk > 0 && 1 <= k <= 64
    ensures Leads(Init(chunk), steps, s') && Crowded(s', k) && s'.chunk == chunk
    decreases k
  {
    if k == 1 {
      steps, s' := FirstCrowd(chunk);
    } else {
      var a, s1 := Crowd(chunk, k - 1);
      var b;
      b, s' := MoreCrowd(s1, k - 1);
      Chain(Init(chunk), a, s1, b, s');
      steps := a + b;
    }
  }

  /** Thread 0 finishes with stack 0, which also drops the lock of stack 32. */
  lemma Leave(s: State) returns (steps: seq<Step>, s': State, p: Addr)
    requires Crowded(s, 33)
    ensures Leads(s, steps, s') && p in s'.out && At(s', 0).Idle?
    ensures |s'.stacks| == s'.count == 33 && s'.chunk == s.chunk && s'.stacks[32] == s.stacks[32]
    ensures forall j :: j in s'.occupied <==> 1 <= j < 32
    ensures forall t: nat :: t > 0 ==> At(s', t) == At(s, t)
  {
    var n := s.stacks[0].size;
    var s1 := Apply(s, Advance(0));
    var s2 := Apply(s1, Advance(0));
    Two(s, 0, s1, s2);
    s' := Apply(s2, Advance(0));
    p := At(s2, 0).p;
    One(s2, Advance(0));
    Chain(s, [Advance(0)] + [Advance(0)], s2, [Advance(0)], s');
    steps := [Advance(0)] + [Advance(0)] + [Advance(0)];
  }

  /** Two more threads enter: one wins stack 0, the other wins stack 32, inside which thread 32 still is. */
  lemma Collide(s: State) returns (steps: seq<Step>, s': State)
    requires |s.stacks| == s.count == 33 && 0 < s.stacks[32].size <= s.chunk
    requires forall j :: j in s.occupied <==> 1 <= j < 32
    requires At(s, 33).Idle? && At(s, 34).Idle? && At(s, 32) == Claimed(Allocate, 32)
    ensures Leads(s, steps, s') && |s'.stacks| == 33
    ensures At(s', 32) == At(s', 34) == Claimed(Allocate, 32)
  {
    FirstIs(s.occupied, 0);
    var a, s1 := EnterWin(s, 33, Allocate, 0);
    FirstIs(s1.occupied, 32);
    var b, s2 := EnterWin(s1, 34, Allocate, 32);
    One(s2, Advance(34));
    s' := Apply(s2, Advance(34));
    Chain(s, a, s1, b, s2);
    Chain(s, a + b, s2, [Advance(34)], s');
    steps := a + b + [Advance(34)];
  }

  /** Whatever the chunk size, 33 stacks suffice for two threads to end up inside one stack. */
  lemma CollisionAt33(chunk: nat) returns (steps: seq<Step>)
    requires chunk > 0
    ensures Runs(Init(chunk), steps)
    ensures |Exec(Init(chunk), steps).stacks| == 33 && !Exclusive(Exec(Init(chunk), steps))
  {
    var a, s1 := Crowd(chunk, 33);
    var b, s2, p := Leave(s1);
    var c, s3 := Collide(s2);
    Chain(Init(chunk), a, s1, b, s2);
    Chain(Init(chunk), a + b, s2, c, s3);
    steps := a + b + c;
    assert Holds(s3, 32, 32) && Holds(s3, 34, 32);
  }

  ghost predicate AlwaysExclusive(chunk: nat, limit: nat) {
    forall steps :: Runs(Init(chunk), steps) && |Exec(Init(chunk), steps).stacks| <= limit ==>
      Exclusive(Exec(Init(chunk), steps))
  }

  /** The locks are exclusive in every run with at most `limit` stacks exactly when limit <= 32. */
  lemma ExclusiveIff(chunk: nat, limit: nat)
    requires chunk > 0
    ensures AlwaysExclusive(chunk, limit) <==> limit <= 32
  {
    if limit <= 32 {
      forall steps | Runs(Init(chunk), steps) && |Exec(Init(chunk), steps).stacks| <= limit
        ensures Exclusive(Exec(Init(chunk), steps))
      {
        LocksExclusive(chunk, steps);
      }
    } else {
      var steps := CollisionAt33(chunk);
      assert Runs(Init(chunk), steps);
    }
  }

  // ---- What the collision does to the items -----------------------------------------------------------------

  /** Thread 32 is about to read the pointer it has popped; a second thread is inside stack 32 to give back p. */
  ghost predicate Racing(s: State, n: nat, p: Addr) {
    && |s.stacks| == 33 && 0 < n <= s.chunk && |s.stacks[32].pointers| == s.chunk && s.stacks[32].size == n - 1
    && At(s, 32) == Popped(32, n) && At(s, 34) == Claimed(Free(p), 32)
    && (forall t: nat :: !At(s, t).Pushed?)
  }

  /** Thread 32 pops but has not read yet; thread 33 takes stack 0; thread 34 comes to free p and wins stack 32. */
  lemma Race(s: State, p: Addr) returns (steps: seq<Step>, s': State, n: nat)
    requires |s.stacks| == s.count == 33 && 0 < s.stacks[32].size <= s.chunk == |s.stacks[32].pointers| && p in s.out
    requires forall j :: j in s.occupied <==> 1 <= j < 32
    requires forall t: nat :: !At(s, t).Pushed?
    requires At(s, 33).Idle? && At(s, 34).Idle? && At(s, 32) == Claimed(Allocate, 32)
    ensures Leads(s, steps, s') && Racing(s', n, p)
  {
    n := s.stacks[32].size;
    One(s, Advance(32));
    var s1 := Apply(s, Advance(32));
    FirstIs(s1.occupied, 0);
    var a, s3 := EnterWin(s1, 33, Allocate, 0);
    Chain(s, [Advance(32)], s1, a, s3);
    var b;
    b, s' := FreeEnters(s3, p);
    Chain(s, [Advance(32)] + a, s3, b, s');
    steps := [Advance(32)] + a + b;
    forall t: nat ensures !At(s', t).Pushed? {
      assert !At(s, t).Pushed?;
    }
  }

  lemma FreeEnters(s: State, p: Addr) returns (steps: seq<Step>, s': State)
    requires |s.stacks| == s.count == 33 && s.stacks[32].size < s.chunk && p in s.out
    requires (forall j :: j in s.occupied <==> 0 <= j < 32) && At(s, 34).Idle?
    ensures Leads(s, steps, s')
    ensures s'.stacks == s.stacks && s'.chunk == s.chunk && At(s', 34) == Claimed(Free(p), 32)
    ensures forall t: nat :: t != 34 ==> At(s', t) == At(s, t)
  {
    FirstIs(s.occupied, 32);
    var a, s1 := EnterWin(s, 34, Free(p), 32);
    One(s1, Advance(34));
    s' := Apply(s1, Advance(34));
    Chain(s, a, s1, [Advance(34)], s');
    steps := a + [Advance(34)];
  }

  /** Thread 34 pushes p into the slot thread 32 has yet to read; thread 32 then reads p and is about to
      return it, while p lies on the stack. */
  lemma Mixed(s: State, n: nat, p: Addr) returns (steps: seq<Step>, s': State)
    requires Racing(s, n, p)
    ensures Leads(s, steps, s') && |s'.stacks| == 33 && At(s', 32) == Taken(32, p) && Sits(s', 32, n - 1, p)
  {
    var s1 := Apply(s, Advance(34));
    var s2 := Apply(s1, Advance(34));
    Two(s, 34, s1, s2);
    s' := Apply(s2, Advance(32));
    One(s2, Advance(32));
    Chain(s, [Advance(34)] + [Advance(34)], s2, [Advance(32)], s');
    steps := [Advance(34)] + [Advance(34)] + [Advance(32)];
    forall t: nat ensures !At(s', t).Pushed? {
      assert !At(s, t).Pushed?;
    }
  }

  /** Whatever the chunk size, 33 stacks suffice for an item to be on a stack and about to be handed out. */
  lemma SharedItemAt33(chunk: nat) returns (steps: seq<Step>, j: nat, p: Addr)
    requires chunk > 0
    ensures Runs(Init(chunk), steps)
    ensures var s := Exec(Init(chunk), steps);
            && |s.stacks| == 33
            && At(s, 32) == Taken(32, p) && Sits(s, 32, j, p) && !InOnePlace(s, p)
  {
    var a, s1 := Crowd(chunk, 33);
    var b, s2;
    b, s2, j, p := FromCrowd(s1);
    Chain(Init(chunk), a, s1, b, s2);
    steps := a + b;
    TwoPlaces(s2, j, p);
  }

  lemma FromCrowd(s: State) returns (steps: seq<Step>, s': State, j: nat, p: Addr)
    requires Crowded(s, 33)
    ensures Leads(s, steps, s') && |s'.stacks| == 33 && At(s', 32) == Taken(32, p) && Sits(s', 32, j, p)
  {
    var a, s1;
    a, s1, p := Leave(s);
    assert forall t: nat :: !At(s1, t).Pushed?;
    var b, s2, n := Race(s1, p);
    j := n - 1;
    var c;
    c, s' := Mixed(s2, n, p);
    Chain(s, a, s1, b, s2);
    Chain(s, a + b, s2, c, s');
    steps := a + b + c;
  }

  lemma TwoPlaces(s: State, j: nat, p: Addr)
    requires At(s, 32) == Taken(32, p) && Sits(s, 32, j, p)
    ensures !InOnePlace(s, p)
  {
    assert Carries(s, 32, p);
  }

  ghost predicate AlwaysPartitioned(chunk: nat, limit: nat) {
    forall steps, a :: Runs(Init(chunk), steps) && |Exec(Init(chunk), steps).stacks| <= limit ==>
      InOnePlace(Exec(Init(chunk), steps), a)
  }

  /** Every item is in one place in every run with at most `limit` stacks exactly when limit <= 32. */
  lemma PartitionIff(chunk: nat, limit: nat)
    requires chunk > 0
    ensures AlwaysPartitioned(chunk, limit) <==> limit <= 32
  {
    if limit <= 32 {
      forall steps, a | Runs(Init(chunk), steps) && |Exec(Init(chunk), steps).stacks| <= limit
        ensures InOnePlace(Exec(Init(chunk), steps), a)
      {
        ItemsPartitioned(chunk, steps, a);
      }
    } else {
      var steps, j, p := SharedItemAt33(chunk);
      assert !InOnePlace(Exec(Init(chunk), steps), p);
    }
  }
}
