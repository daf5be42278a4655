/** The pooled allocator under any interleaving of threads, one atomic access per step.

    Stack pointers live in up to 64 stacks; bit i of the `occupied` word is the lock of stack i, taken
    with compare-and-swap and released with an and-mask. The word is kept as the set of its one bits. */
module AllocatorThreads {
  import opened Words

  /** An item: the stack whose data block it lies in, and its number there. */
  datatype Addr = Addr(block: nat, item: nat)

  datatype Op = Allocate | Free(p: Addr)

  datatype Stack = Stack(pointers: seq<Addr>, size: int)

  /** Program counter with the thread's local variables. */
  datatype Pc =
    | Idle
    | LoadCount(op: Op)
    | LoadBitmap(op: Op, count: nat)
    | Pick(op: Op, count: nat, bitmap: set<nat>, invalid: set<nat>)           // find_free_stack, up to the CAS
    | Check(op: Op, count: nat, bitmap: set<nat>, invalid: set<nat>, i: nat)  // CAS won, size not yet loaded
    | Reject(op: Op, count: nat, bitmap: set<nat>, invalid: set<nat>, i: nat)
    | Claimed(op: Op, i: nat)                                                 // find_free_pointer_stack returned
    | Popped(i: nat, s: int)                                                  // size decremented, pointer not yet read
    | Taken(i: nat, p: Addr)
    | Pushed(i: nat, s: int, p: Addr)                                         // size incremented, pointer not yet written
    | Stored(i: nat)
    | CreateLock(op: Op)
    | CreateLoad(op: Op)
    | CreateStore(op: Op, n: nat)
    | CreateCount(op: Op)
    | CreateUnlock(op: Op)

  /** `out` holds the items handed out and not yet given back. */
  datatype State = State(
    chunk: nat,
    occupied: set<nat>,
    stacks: seq<Stack>,
    count: nat,
    creating: bool,
    threads: map<nat, Pc>,
    out: set<Addr>)

  function At(s: State, t: nat): Pc {
    if t in s.threads then s.threads[t] else Idle
  }

  /** __builtin_ctzll(~x), or 64 when x is all ones. */
  function FirstFree(x: set<nat>, from: nat): (r: nat)
    requires from <= 64
    ensures from <= r <= 64 && (r < 64 ==> r !in x)
    ensures forall j :: from <= j < r ==> j in x
    decreases 64 - from
  {
    if from == 64 || from !in x then from else FirstFree(x, from + 1)
  }

  /** free_stack_lock: the mask ~(1u << i) is 32 bits wide, so widening it to 64 bits clears the upper
      half of the word as well. */
  function Release(occupied: set<nat>, i: nat): set<nat> {
    set j | j in occupied && j != i && j < 32
  }

  // The same on machine words, written as numbers.

  /** The one bits of a 64-bit word. */
  function Ones(word: nat): set<nat> {
    set j | 0 <= j < 64 && Bit(word, j)
  }

  /** occupied &= ~(1u << i): the one bits left are those of Release. */
  lemma MaskReleases(word: nat, i: nat)
    requires i < 32
    ensures Ones(And(word, Not(Pow2(i), 32))) == Release(Ones(word), i)
  {
    forall j: nat | j < 64 ensures Bit(And(word, Not(Pow2(i), 32)), j) <==> Bit(word, j) && j < 32 && j != i {
      AndBit(word, Not(Pow2(i), 32), j);
      NotBit(Pow2(i), 32, j);
      Pow2Bit(i, j);
    }
  }

  function NewStack(n: nat, chunk: nat): Stack {
    Stack(seq(chunk, i requires 0 <= i < chunk => Addr(n, i)), chunk)
  }

  function Init(chunk: nat): State {
    State(chunk, {}, [NewStack(0, chunk)], 1, false, map[], {})
  }

  datatype Step = Begin(t: nat, op: Op) | Advance(t: nat)

  /** Callers free only items that are handed out. The other conditions are array bounds and the width
      of the shift in free_stack_lock; with at most 32 stacks they always hold (NeverStuck). */
  predicate Enabled(s: State, st: Step) {
    match st
    case Begin(t, op) => At(s, t).Idle? && (op.Free? ==> op.p in s.out)
    case Advance(t) =>
      match At(s, t)
      case Idle => false
      case Check(_, _, _, _, i) => i < |s.stacks|
      case Reject(_, _, _, _, i) => i < 32
      case Claimed(_, i) => i < |s.stacks|
      case Popped(i, n) => i < |s.stacks| && 0 < n <= |s.stacks[i].pointers|
      case Taken(i, _) => i < 32
      case Pushed(i, n, _) => i < |s.stacks| && 0 <= n < |s.stacks[i].pointers|
      case Stored(i) => i < 32
      case CreateStore(_, n) => n == |s.stacks| && n < 64
      case _ => true
  }

  function Go(s: State, t: nat, pc: Pc): State {
    s.(threads := s.threads[t := pc])
  }

  function Resized(s: State, i: nat, size: int): State
    requires i < |s.stacks|
  {
    s.(stacks := s.stacks[i := s.stacks[i].(size := size)])
  }

  /** A stack to push on has room, a stack to pop from holds something. */
  predicate Fits(op: Op, chunk: nat, size: int) {
    if op.Free? then size < chunk else 0 < size <= chunk
  }

  function Apply(s: State, st: Step): State
    requires Enabled(s, st)
  {
    match st
    case Begin(t, op) =>
      Go(s.(out := if op.Free? then s.out - {op.p} else s.out), t, LoadCount(op))
    case Advance(t) =>
      match At(s, t)
      case LoadCount(op) => Go(s, t, LoadBitmap(op, s.count))
      case LoadBitmap(op, c) => Go(s, t, Pick(op, c, s.occupied, {}))
      case Pick(op, c, b, bad) =>
        var first := FirstFree(b + bad, 0);
        if first >= c || first == 64 then Go(s, t, CreateLock(op))
        else if s.occupied == b then Go(s.(occupied := b + {first}), t, Check(op, c, b, bad, first))
        else Go(s, t, Pick(op, c, s.occupied, bad))
      case Check(op, c, b, bad, i) =>
        Go(s, t, if Fits(op, s.chunk, s.stacks[i].size) then Claimed(op, i) else Reject(op, c, b, bad, i))
      case Reject(op, c, b, bad, i) => Go(s.(occupied := Release(s.occupied, i)), t, Pick(op, c, b, bad + {i}))
      case Claimed(op, i) =>
        var n := s.stacks[i].size;
        if op.Allocate? then Go(Resized(s, i, n - 1), t, Popped(i, n))
        else Go(Resized(s, i, n + 1), t, Pushed(i, n, op.p))
      case Popped(i, n) => Go(s, t, Taken(i, s.stacks[i].pointers[n - 1]))
      case Taken(i, p) => Go(s.(occupied := Release(s.occupied, i), out := s.out + {p}), t, Idle)
      case Pushed(i, n, p) =>
        var x := s.stacks[i];
        Go(s.(stacks := s.stacks[i := x.(pointers := x.pointers[n := p])]), t, Stored(i))
      case Stored(i) => Go(s.(occupied := Release(s.occupied, i)), t, Idle)
      case CreateLock(op) => if s.creating then s else Go(s.(creating := true), t, CreateLoad(op))
      case CreateLoad(op) => Go(s, t, CreateStore(op, s.count))
      case CreateStore(op, n) => Go(s.(stacks := s.stacks + [NewStack(n, s.chunk)]), t, CreateCount(op))
      case CreateCount(op) => Go(s.(count := s.count + 1), t, CreateUnlock(op))
      case CreateUnlock(op) => Go(s.(creating := false), t, LoadCount(op))
  }

  predicate Runs(s: State, steps: seq<Step>)
    decreases |steps|
  {
    steps == [] || (Enabled(s, steps[0]) && Runs(Apply(s, steps[0]), steps[1..]))
  }

  function Exec(s: State, steps: seq<Step>): State
    requires Runs(s, steps)
    decreases |steps|
  {
    if steps == [] then s else Exec(Apply(s, steps[0]), steps[1..])
  }

  /** A thread there has won the lock of stack i and not released it. */
  predicate HoldsPc(pc: Pc, i: nat) {
    match pc
    case Check(_, _, _, _, j) => i == j
    case Reject(_, _, _, _, j) => i == j
    case Claimed(_, j) => i == j
    case Popped(j, _) => i == j
    case Taken(j, _) => i == j
    case Pushed(j, _, _) => i == j
    case Stored(j) => i == j
    case _ => false
  }

  predicate Holds(s: State, t: nat, i: nat) {
    HoldsPc(At(s, t), i)
  }

  /** No two threads hold one stack. */
  ghost predicate Exclusive(s: State) {
    forall t: nat, u: nat, i: nat :: Holds(s, t, i) && Holds(s, u, i) ==> t == u
  }
}
