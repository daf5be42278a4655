/** A thread that has the allocator to itself works like a sequential allocator: it takes the top item of the
    first stack that holds one, and puts an item on the first stack that has room. */
module AllocatorAlone {
  import opened AllocatorThreads
  import opened AllocatorInvariant
  import opened AllocatorSafety
  import opened AllocatorLocks

  // ---- The sequential allocator --------------------------------------------------------------------------------

  /** The first stack from `from` on that fits the operation, or the number of stacks. */
  function FirstFit(op: Op, chunk: nat, stacks: seq<Stack>, from: nat): (i: nat)
    requires from <= |stacks|
    ensures from <= i <= |stacks| && (i < |stacks| ==> Fits(op, chunk, stacks[i].size))
    ensures forall j :: from <= j < i ==> !Fits(op, chunk, stacks[j].size)
    decreases |stacks| - from
  {
    if from == |stacks| || Fits(op, chunk, stacks[from].size) then from else FirstFit(op, chunk, stacks, from + 1)
  }

  /** A stack is added when none holds an item. */
  function Grown(chunk: nat, stacks: seq<Stack>): seq<Stack> {
    if FirstFit(Allocate, chunk, stacks, 0) < |stacks| then stacks else stacks + [NewStack(|stacks|, chunk)]
  }

  ghost predicate Shaped(chunk: nat, stacks: seq<Stack>) {
    chunk > 0 && forall i :: 0 <= i < |stacks| ==> |stacks[i].pointers| == chunk
  }

  /** The item an allocation takes, and the stacks afterwards. */
  datatype Allocation = Allocation(item: Addr, stacks: seq<Stack>)

  function AllocateSpec(chunk: nat, stacks: seq<Stack>): Allocation
    requires Shaped(chunk, stacks)
  {
    var all, i := Grown(chunk, stacks), FirstFit(Allocate, chunk, stacks, 0);
    var x := all[i];
    Allocation(x.pointers[x.size - 1], all[i := x.(size := x.size - 1)])
  }

  /** The stacks after an item came back, when one has room. */
  function FreeSpec(chunk: nat, stacks: seq<Stack>, p: Addr): seq<Stack>
    requires Shaped(chunk, stacks) && forall i :: 0 <= i < |stacks| ==> 0 <= stacks[i].size
    requires FirstFit(Free(p), chunk, stacks, 0) < |stacks|
  {
    var i := FirstFit(Free(p), chunk, stacks, 0);
    var x := stacks[i];
    stacks[i := Stack(x.pointers[x.size := p], x.size + 1)]
  }

  lemma FirstFitIs(op: Op, chunk: nat, stacks: seq<Stack>, i: nat)
    requires i <= |stacks| && (i < |stacks| ==> Fits(op, chunk, stacks[i].size))
    requires forall j :: 0 <= j < i ==> !Fits(op, chunk, stacks[j].size)
    ensures FirstFit(op, chunk, stacks, 0) == i
  {
    var k := FirstFit(op, chunk, stacks, 0);
    assert !(k < i) && !(i < k);
  }

  /** The stacks of a new allocator after n allocations. */
  function AfterAllocations(chunk: nat, n: nat): (stacks: seq<Stack>)
    requires chunk > 0
    ensures Shaped(chunk, stacks)
  {
    if n == 0 then [NewStack(0, chunk)] else AllocateSpec(chunk, AfterAllocations(chunk, n - 1)).stacks
  }

  /** A new allocator hands its first block out from the last item to the first, without a second block. */
  lemma {:induction false} FirstBlock(chunk: nat, n: nat)
    requires n < chunk
    ensures AfterAllocations(chunk, n) == [Stack(NewStack(0, chunk).pointers, chunk - n)]
    ensures AllocateSpec(chunk, AfterAllocations(chunk, n)).item == Addr(0, chunk - 1 - n)
  {
    if n > 0 {
      FirstBlock(chunk, n - 1);
    }
    FirstFitIs(Allocate, chunk, [Stack(NewStack(0, chunk).pointers, chunk - n)], 0);
  }

  // ---- Steps of one thread ---------------------------------------------------------------------------------------

  function Below(k: nat): (r: set<nat>)
    ensures forall j :: j in r <==> 0 <= j < k
  {
    if k == 0 then {} else Below(k - 1) + {k - 1}
  }

  /** Thread t has found the stacks below k unfit, and holds no lock. */
  function Searching(s: State, t: nat, op: Op, k: nat): State {
    Go(s, t, Pick(op, s.count, {}, Below(k)))
  }

  lemma More(s: State, steps: seq<Step>, s1: State, t: nat, s2: State)
    requires Leads(s, steps, s1) && Enabled(s1, Advance(t)) && Apply(s1, Advance(t)) == s2
    ensures Leads(s, steps + [Advance(t)], s2)
  {
    One(s1, Advance(t));
    Chain(s, steps, s1, [Advance(t)], s2);
  }

  /** The thread takes the lock of stack k. */
  lemma Lock(s: State, t: nat, op: Op, k: nat)
    requires s.occupied == {} && k < s.count <= 32
    ensures var s1 := Searching(s, t, op, k);
            Enabled(s1, Advance(t))
            && Apply(s1, Advance(t)) == Go(s.(occupied := {k}), t, Check(op, s.count, {}, Below(k), k))
  {
    FirstIs({} + Below(k), k);
    LockFirst(s, t, op, k, Below(k));
  }

  lemma LockFirst(s: State, t: nat, op: Op, k: nat, bad: set<nat>)
    requires s.occupied == {} && k < s.count <= 32 && FirstFree({} + bad, 0) == k
    ensures Apply(Go(s, t, Pick(op, s.count, {}, bad)), Advance(t))
         == Go(s.(occupied := {k}), t, Check(op, s.count, {}, bad, k))
  {
    assert {} + {k} == {k};
  }

  /** A stack that does not fit is let go. */
  lemma Unlock(s: State, t: nat, op: Op, k: nat)
    requires s.occupied == {} && k < 32
    ensures var s2 := Go(s.(occupied := {k}), t, Reject(op, s.count, {}, Below(k), k));
            Enabled(s2, Advance(t)) && Apply(s2, Advance(t)) == Searching(s, t, op, k + 1)
  {
    assert Below(k) + {k} == Below(k + 1);
    assert Release({k}, k) == {};
  }

  lemma Skip(s: State, t: nat, op: Op, k: nat)
    requires s.occupied == {} && k < s.count <= 32 && k < |s.stacks| && !Fits(op, s.chunk, s.stacks[k].size)
    ensures Leads(Searching(s, t, op, k), [Advance(t)] + [Advance(t)] + [Advance(t)], Searching(s, t, op, k + 1))
  {
    var s1 := Go(s.(occupied := {k}), t, Check(op, s.count, {}, Below(k), k));
    var s2 := Go(s.(occupied := {k}), t, Reject(op, s.count, {}, Below(k), k));
    Lock(s, t, op, k);
    Two(Searching(s, t, op, k), t, s1, s2);
    Unlock(s, t, op, k);
    More(Searching(s, t, op, k), [Advance(t)] + [Advance(t)], s2, t, Searching(s, t, op, k + 1));
  }

  /** The thread goes through the stacks up to i. */
  lemma {:induction false} Search(s: State, t: nat, op: Op, k: nat, i: nat) returns (steps: seq<Step>)
    requires s.occupied == {} && k <= i <= s.count == |s.stacks| <= 32
    requires forall j :: k <= j < i ==> !Fits(op, s.chunk, s.stacks[j].size)
    ensures Leads(Searching(s, t, op, k), steps, Searching(s, t, op, i)) && OnlyBy(steps, t)
    decreases i - k
  {
    if k == i {
      steps := [];
    } else {
      Skip(s, t, op, k);
      var a := [Advance(t)] + [Advance(t)] + [Advance(t)];
      var b := Search(s, t, op, k + 1, i);
      Chain(Searching(s, t, op, k), a, Searching(s, t, op, k + 1), b, Searching(s, t, op, i));
      steps := a + b;
    }
  }

  lemma Claim(s: State, t: nat, op: Op, k: nat)
    requires s.occupied == {} && k < s.count <= 32 && k < |s.stacks| && Fits(op, s.chunk, s.stacks[k].size)
    ensures Leads(Searching(s, t, op, k), [Advance(t)] + [Advance(t)], Go(s.(occupied := {k}), t, Claimed(op, k)))
  {
    var s1 := Go(s.(occupied := {k}), t, Check(op, s.count, {}, Below(k), k));
    Lock(s, t, op, k);
    Two(Searching(s, t, op, k), t, s1, Go(s.(occupied := {k}), t, Claimed(op, k)));
  }

  lemma LeaveTaken(s: State, t: nat, k: nat, p: Addr)
    requires s.occupied == {} && k < 32
    ensures var s2 := Go(s.(occupied := {k}), t, Taken(k, p));
            Enabled(s2, Advance(t)) && Apply(s2, Advance(t)) == Go(s.(out := s.out + {p}), t, Idle)
  {
    assert Release({k}, k) == {};
  }

  lemma LeaveStored(s: State, t: nat, k: nat)
    requires s.occupied == {} && k < 32
    ensures var s2 := Go(s.(occupied := {k}), t, Stored(k));
            Enabled(s2, Advance(t)) && Apply(s2, Advance(t)) == Go(s, t, Idle)
  {
    assert Release({k}, k) == {};
  }

  function Three(t: nat): seq<Step> {
    [Advance(t)] + [Advance(t)] + [Advance(t)]
  }

  /** The thread pops an item and leaves. */
  lemma PopOut(s: State, t: nat, k: nat, now: State)
    requires s.occupied == {} && k < 32 && k < |s.stacks| && 0 < s.stacks[k].size <= |s.stacks[k].pointers|
    requires now == s.(stacks := s.stacks[k := s.stacks[k].(size := s.stacks[k].size - 1)])
    ensures var x := s.stacks[k];
            Leads(Go(s.(occupied := {k}), t, Claimed(Allocate, k)), Three(t),
                  Go(now.(out := s.out + {x.pointers[x.size - 1]}), t, Idle))
  {
    var x := s.stacks[k];
    var p := x.pointers[x.size - 1];
    var s0 := Go(s.(occupied := {k}), t, Claimed(Allocate, k));
    var s1 := Go(now.(occupied := {k}), t, Popped(k, x.size));
    var s2 := Go(now.(occupied := {k}), t, Taken(k, p));
    Two(s0, t, s1, s2);
    LeaveTaken(now, t, k, p);
    More(s0, [Advance(t)] + [Advance(t)], s2, t, Go(now.(out := s.out + {p}), t, Idle));
  }

  /** The thread pushes an item and leaves. */
  lemma PushOut(s: State, t: nat, k: nat, p: Addr, now: State)
    requires s.occupied == {} && k < 32 && k < |s.stacks| && 0 <= s.stacks[k].size < |s.stacks[k].pointers|
    requires var x := s.stacks[k]; now == s.(stacks := s.stacks[k := Stack(x.pointers[x.size := p], x.size + 1)])
    ensures Leads(Go(s.(occupied := {k}), t, Claimed(Free(p), k)), Three(t), Go(now, t, Idle))
  {
    var x := s.stacks[k];
    var s0 := Go(s.(occupied := {k}), t, Claimed(Free(p), k));
    var s1 := Go(s.(occupied := {k}, stacks := s.stacks[k := x.(size := x.size + 1)]), t, Pushed(k, x.size, p));
    var s2 := Go(now.(occupied := {k}), t, Stored(k));
    Two(s0, t, s1, s2);
    LeaveStored(now, t, k);
    More(s0, [Advance(t)] + [Advance(t)], s2, t, Go(now, t, Idle));
  }

  /** The thread goes through the stacks and takes the first that fits. */
  lemma ClaimFirst(s: State, t: nat, op: Op, i: nat) returns (steps: seq<Step>)
    requires s.occupied == {} && s.count == |s.stacks| <= 32
    requires i == FirstFit(op, s.chunk, s.stacks, 0) < |s.stacks|
    ensures Leads(Searching(s, t, op, 0), steps, Go(s.(occupied := {i}), t, Claimed(op, i)))
    ensures OnlyBy(steps, t)
  {
    var a := Search(s, t, op, 0, i);
    Claim(s, t, op, i);
    Chain(Searching(s, t, op, 0), a, Searching(s, t, op, i), [Advance(t)] + [Advance(t)],
          Go(s.(occupied := {i}), t, Claimed(op, i)));
    steps := a + ([Advance(t)] + [Advance(t)]);
  }

  /** State after an allocation that took p. */
  function Allocated(s: State, t: nat, r: Allocation): State {
    Go(s.(stacks := r.stacks, count := |r.stacks|, out := s.out + {r.item}), t, Idle)
  }

  lemma PopFirst(s: State, t: nat) returns (steps: seq<Step>)
    requires s.occupied == {} && s.count == |s.stacks| <= 32 && Shaped(s.chunk, s.stacks)
    requires FirstFit(Allocate, s.chunk, s.stacks, 0) < |s.stacks|
    ensures Leads(Searching(s, t, Allocate, 0), steps, Allocated(s, t, AllocateSpec(s.chunk, s.stacks)))
    ensures OnlyBy(steps, t)
  {
    var i := FirstFit(Allocate, s.chunk, s.stacks, 0);
    var now := s.(stacks := s.stacks[i := s.stacks[i].(size := s.stacks[i].size - 1)]);
    var a := ClaimFirst(s, t, Allocate, i);
    PopOut(s, t, i, now);
    steps := a + Three(t);
    Chain(Searching(s, t, Allocate, 0), a, Go(s.(occupied := {i}), t, Claimed(Allocate, i)), Three(t),
          Allocated(s, t, AllocateSpec(s.chunk, s.stacks)));
  }

  lemma PushFirst(s: State, t: nat, p: Addr) returns (steps: seq<Step>)
    requires s.occupied == {} && s.count == |s.stacks| <= 32 && Shaped(s.chunk, s.stacks)
    requires forall i :: 0 <= i < |s.stacks| ==> 0 <= s.stacks[i].size
    requires FirstFit(Free(p), s.chunk, s.stacks, 0) < |s.stacks|
    ensures Leads(Searching(s, t, Free(p), 0), steps, Go(s.(stacks := FreeSpec(s.chunk, s.stacks, p)), t, Idle))
    ensures OnlyBy(steps, t)
  {
    var i := FirstFit(Free(p), s.chunk, s.stacks, 0);
    var now := s.(stacks := FreeSpec(s.chunk, s.stacks, p));
    var a := ClaimFirst(s, t, Free(p), i);
    PushOut(s, t, i, p, now);
    steps := a + Three(t);
    Chain(Searching(s, t, Free(p), 0), a, Go(s.(occupied := {i}), t, Claimed(Free(p), i)), Three(t), Go(now, t, Idle));
  }

  // ---- A new stack when all are empty --------------------------------------------------------------------------

  /** The thread finds no stack that fits. */
  lemma Exhaust(s: State, t: nat, op: Op)
    requires s.occupied == {} && s.count <= 32
    ensures var s1 := Searching(s, t, op, s.count);
            Enabled(s1, Advance(t)) && Apply(s1, Advance(t)) == Go(s, t, CreateLock(op))
  {
    FirstIs({} + Below(s.count), s.count);
    ExhaustFirst(s, t, op, Below(s.count));
  }

  lemma ExhaustFirst(s: State, t: nat, op: Op, bad: set<nat>)
    requires FirstFree({} + bad, 0) >= s.count
    ensures Apply(Go(s, t, Pick(op, s.count, {}, bad)), Advance(t)) == Go(s, t, CreateLock(op))
  {
  }

  function WithNew(s: State): State {
    s.(stacks := s.stacks + [NewStack(s.count, s.chunk)], count := s.count + 1)
  }

  lemma Created(s: State, t: nat, op: Op) returns (steps: seq<Step>)
    requires s.occupied == {} && !s.creating && s.count == |s.stacks| < 32
    ensures Leads(Go(s, t, CreateLock(op)), steps, Searching(WithNew(s), t, op, 0)) && OnlyBy(steps, t)
  {
    var s1, s2 := Go(s, t, CreateLock(op)), Go(WithNew(s), t, LoadCount(op));
    var a := Create(s1, t, op);
    assert s2 == Go(s1.(stacks := s.stacks + [NewStack(s.count, s.chunk)], count := s.count + 1), t, LoadCount(op));
    Load(s2, t, op);
    assert Searching(WithNew(s), t, op, 0) == Go(s2, t, Pick(op, s2.count, {}, {}));
    Chain(s1, a, s2, [Advance(t)] + [Advance(t)], Searching(WithNew(s), t, op, 0));
    steps := a + ([Advance(t)] + [Advance(t)]);
  }

  /** The thread creates a stack and starts over. */
  lemma StartOver(s: State, t: nat, op: Op) returns (steps: seq<Step>)
    requires s.occupied == {} && !s.creating && s.count == |s.stacks| < 32
    requires FirstFit(op, s.chunk, s.stacks, 0) == |s.stacks|
    ensures Leads(Searching(s, t, op, 0), steps, Searching(WithNew(s), t, op, 0)) && OnlyBy(steps, t)
  {
    var s0, s1 := Searching(s, t, op, 0), Go(s, t, CreateLock(op));
    var a := Search(s, t, op, 0, s.count);
    Exhaust(s, t, op);
    More(s0, a, Searching(s, t, op, s.count), t, s1);
    var b := Created(s, t, op);
    Chain(s0, a + [Advance(t)], s1, b, Searching(WithNew(s), t, op, 0));
    steps := a + [Advance(t)] + b;
  }

  lemma GrownFits(chunk: nat, stacks: seq<Stack>)
    requires Shaped(chunk, stacks) && FirstFit(Allocate, chunk, stacks, 0) == |stacks|
    ensures var all := stacks + [NewStack(|stacks|, chunk)];
            Shaped(chunk, all) && FirstFit(Allocate, chunk, all, 0) == |stacks| && AllocateSpec(chunk, all) == AllocateSpec(chunk, stacks)
  {
    FirstFitIs(Allocate, chunk, stacks + [NewStack(|stacks|, chunk)], |stacks|);
  }

  lemma AllocateFrom(s: State, t: nat) returns (steps: seq<Step>)
    requires s.occupied == {} && !s.creating && s.count == |s.stacks| <= 32 && Shaped(s.chunk, s.stacks)
    requires FirstFit(Allocate, s.chunk, s.stacks, 0) == |s.stacks| ==> |s.stacks| < 32
    ensures Leads(Searching(s, t, Allocate, 0), steps, Allocated(s, t, AllocateSpec(s.chunk, s.stacks))) && OnlyBy(steps, t)
  {
    if FirstFit(Allocate, s.chunk, s.stacks, 0) < |s.stacks| {
      steps := PopFirst(s, t);
    } else {
      var a := StartOver(s, t, Allocate);
      GrownFits(s.chunk, s.stacks);
      var b := PopFirst(WithNew(s), t);
      Chain(Searching(s, t, Allocate, 0), a, Searching(WithNew(s), t, Allocate, 0), b,
            Allocated(s, t, AllocateSpec(s.chunk, s.stacks)));
      steps := a + b;
    }
  }

  // ---- After any run ---------------------------------------------------------------------------------------------

  /** The thread comes in when nobody else is there. */
  lemma ComesIn(s: State, t: nat, op: Op) returns (steps: seq<Step>)
    requires At(s, t).Idle? && (op.Free? ==> op.p in s.out) && s.occupied == {}
    ensures Leads(s, steps, Searching(s.(out := Begun(s, op)), t, op, 0)) && OnlyBy(steps, t)
  {
    steps := Enter(s, t, op);
  }

  /** Whatever has happened before: a thread that is alone in the allocator and asks for an item gets the top
      item of the first stack that holds one, or of a new stack if none does; nothing else changes. */
  lemma AloneAllocates(chunk: nat, steps: seq<Step>, t: nat) returns (more: seq<Step>)
    requires chunk > 0 && Runs(Init(chunk), steps) && |Exec(Init(chunk), steps).stacks| <= 32
    requires var s := Exec(Init(chunk), steps);
             Quiet(s) && (FirstFit(Allocate, chunk, s.stacks, 0) == |s.stacks| ==> |s.stacks| < 32)
    ensures var s := Exec(Init(chunk), steps);
            && Shaped(chunk, s.stacks) && OnlyBy(more, t)
            && Leads(s, more, Allocated(s, t, AllocateSpec(chunk, s.stacks)))
  {
    var s := Exec(Init(chunk), steps);
    QuietShape(chunk, steps);
    var a := ComesIn(s, t, Allocate);
    var b := AllocateFrom(s, t);
    Chain(s, a, Searching(s, t, Allocate, 0), b, Allocated(s, t, AllocateSpec(chunk, s.stacks)));
    more := a + b;
  }

  lemma QuietShape(chunk: nat, steps: seq<Step>)
    requires chunk > 0 && Runs(Init(chunk), steps) && |Exec(Init(chunk), steps).stacks| <= 32
    requires Quiet(Exec(Init(chunk), steps))
    ensures var s := Exec(Init(chunk), steps);
            && s.occupied == {} && !s.creating && |s.stacks| == s.count && s.chunk == chunk
            && Shaped(chunk, s.stacks) && forall i :: 0 <= i < |s.stacks| ==> 0 <= s.stacks[i].size <= chunk
  {
    QuietUnlocked(chunk, steps);
    InitSafe(chunk);
    ExecSafe(Init(chunk), steps);
    ChunkFixed(Init(chunk), steps);
  }

  // ---- Room for every item -------------------------------------------------------------------------------------------

  /** All slots of n stacks, or all items of n blocks. */
  function Grid(n: nat, chunk: nat): set<Addr> {
    set i, j | 0 <= i < n && 0 <= j < chunk :: Addr(i, j)
  }

  function Image(slots: set<Addr>, f: map<Addr, Addr>): set<Addr>
    requires slots <= f.Keys
  {
    set x | x in slots :: f[x]
  }

  ghost predicate OneToOne(slots: set<Addr>, f: map<Addr, Addr>)
    requires slots <= f.Keys
  {
    forall x, y :: x in slots && y in slots && f[x] == f[y] ==> x == y
  }

  lemma {:induction false} ImageSize(slots: set<Addr>, f: map<Addr, Addr>)
    requires slots <= f.Keys && OneToOne(slots, f)
    ensures |Image(slots, f)| == |slots|
    decreases |slots|
  {
    if slots == {} {
      assert Image(slots, f) == {};
    } else {
      var x :| x in slots;
      ImageSize(slots - {x}, f);
      assert Image(slots, f) == Image(slots - {x}, f) + {f[x]};
      assert f[x] !in Image(slots - {x}, f);
    }
  }

  lemma {:induction false} Smaller(a: set<Addr>, b: set<Addr>)
    requires a <= b
    ensures |a| <= |b|
    decreases |a|
  {
    if a != {} {
      var x :| x in a;
      Smaller(a - {x}, b - {x});
    }
  }

  /** A map of the slots into themselves that is one to one misses no item. */
  lemma NoneMissed(slots: set<Addr>, f: map<Addr, Addr>, p: Addr)
    requires slots <= f.Keys && OneToOne(slots, f) && p in slots && Image(slots, f) <= slots
    ensures p in Image(slots, f)
  {
    ImageSize(slots, f);
    if p !in Image(slots, f) {
      Smaller(Image(slots, f), slots - {p});
    }
  }

  lemma InGrid(a: Addr, n: nat, chunk: nat)
    ensures a in Grid(n, chunk) <==> a.block < n && a.item < chunk
  {
    assert a == Addr(a.block, a.item);
  }

  /** On full stacks, every slot has its item there. */
  lemma SlotItem(s: State, w: map<Addr, Place>, x: Addr)
    requires TableOK(s) && PlacesOK(s, w) && Quiet(s) && x.block < |s.stacks| && x.item < s.chunk
    requires s.stacks[x.block].size == s.chunk
    ensures var a := s.stacks[x.block].pointers[x.item];
            a in w && w[a] == InStack(x.block, x.item) && a.block < |s.stacks| && a.item < s.chunk
  {
    assert Live(s, x.block, x.item);
  }

  ghost predicate Full(s: State) {
    forall i :: 0 <= i < |s.stacks| ==> s.stacks[i].size == s.chunk == |s.stacks[i].pointers|
  }

  /** The item in every slot. */
  function Contents(s: State): map<Addr, Addr>
    requires Full(s)
  {
    map x | x in Grid(|s.stacks|, s.chunk) :: s.stacks[x.block].pointers[x.item]
  }

  lemma ContentsPlaced(s: State, w: map<Addr, Place>, x: Addr)
    requires TableOK(s) && PlacesOK(s, w) && Quiet(s) && Full(s) && x in Grid(|s.stacks|, s.chunk)
    ensures var a := Contents(s)[x];
            a in w && w[a] == InStack(x.block, x.item) && a in Grid(|s.stacks|, s.chunk)
  {
    InGrid(x, |s.stacks|, s.chunk);
    SlotItem(s, w, x);
    InGrid(Contents(s)[x], |s.stacks|, s.chunk);
  }

  /** When every stack is full, nothing is handed out. */
  lemma FullNoneOut(s: State, w: map<Addr, Place>, p: Addr)
    requires TableOK(s) && PlacesOK(s, w) && Quiet(s) && Full(s)
    ensures p !in s.out
  {
    var slots, f := Grid(|s.stacks|, s.chunk), Contents(s);
    forall x | x in slots ensures f[x] in w && w[f[x]] == InStack(x.block, x.item) && f[x] in slots {
      ContentsPlaced(s, w, x);
    }
    InGrid(p, |s.stacks|, s.chunk);
    if p in slots {
      NoneMissed(slots, f, p);
    }
  }

  lemma RoomAfter(chunk: nat, steps: seq<Step>, p: Addr)
    requires chunk > 0 && Runs(Init(chunk), steps) && |Exec(Init(chunk), steps).stacks| <= 32
    requires Quiet(Exec(Init(chunk), steps)) && p in Exec(Init(chunk), steps).out
    ensures FirstFit(Free(p), chunk, Exec(Init(chunk), steps).stacks, 0) < |Exec(Init(chunk), steps).stacks|
  {
    var s := Exec(Init(chunk), steps);
    InitSafe(chunk);
    ExecSafe(Init(chunk), steps);
    ChunkFixed(Init(chunk), steps);
    var w :| Inv(s, w);
    if FirstFit(Free(p), chunk, s.stacks, 0) == |s.stacks| {
      FullNoneOut(s, w, p);
    }
  }

  /** ... and when it gives an item back, the item is put on top of the first stack that has room, and there is
      one: no stack is ever created for an item that comes back. */
  lemma AloneFrees(chunk: nat, steps: seq<Step>, t: nat, p: Addr) returns (more: seq<Step>)
    requires chunk > 0 && Runs(Init(chunk), steps) && |Exec(Init(chunk), steps).stacks| <= 32
    requires Quiet(Exec(Init(chunk), steps)) && p in Exec(Init(chunk), steps).out
    ensures var s := Exec(Init(chunk), steps);
            && Shaped(chunk, s.stacks) && (forall i :: 0 <= i < |s.stacks| ==> 0 <= s.stacks[i].size)
            && FirstFit(Free(p), chunk, s.stacks, 0) < |s.stacks| && OnlyBy(more, t)
            && Leads(s, more, Go(s.(stacks := FreeSpec(chunk, s.stacks, p), out := s.out - {p}), t, Idle))
  {
    var s := Exec(Init(chunk), steps);
    QuietShape(chunk, steps);
    RoomAfter(chunk, steps, p);
    var s1 := s.(out := s.out - {p});
    var a := ComesIn(s, t, Free(p));
    var b := PushFirst(s1, t, p);
    Chain(s, a, Searching(s1, t, Free(p), 0), b, Go(s1.(stacks := FreeSpec(chunk, s.stacks, p)), t, Idle));
    more := a + b;
  }
}
