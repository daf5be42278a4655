/** Locks are given back, and a thread that has the allocator to itself works like a sequential allocator. */
module AllocatorLocks {
  import opened AllocatorThreads
  import opened AllocatorInvariant
  import opened AllocatorSafety

  // ---- A set bit has a holder -------------------------------------------------------------------------------

  ghost predicate BitsHeld(s: State) {
    forall i: nat :: i in s.occupied ==> exists t: nat :: Holds(s, t, i)
  }

  ghost predicate CreationHeld(s: State) {
    s.creating ==> exists t: nat :: Creates(At(s, t))
  }

  lemma OtherHolder(s: State, s': State, t: nat, i: nat)
    requires i in s.occupied && BitsHeld(s) && !Holds(s, t, i)
    requires forall u: nat :: u != t ==> At(s', u) == At(s, u)
    ensures exists u: nat :: Holds(s', u, i)
  {
    var u: nat :| Holds(s, u, i);
    assert Holds(s', u, i);
  }

  /** A step of t sets bits only for t, and t stops holding a stack only by clearing its bit. */
  lemma BitsStep(s: State, st: Step)
    requires Enabled(s, st) && BitsHeld(s)
    ensures BitsHeld(Apply(s, st))
  {
    var s', t := Apply(s, st), st.t;
    assert forall u: nat :: u != t ==> At(s', u) == At(s, u);
    forall i: nat | i in s'.occupied ensures exists u: nat :: Holds(s', u, i) {
      if !Holds(s', t, i) {
        assert i in s.occupied && !Holds(s, t, i);
        OtherHolder(s, s', t, i);
      }
    }
  }

  lemma CreationStep(s: State, st: Step)
    requires Enabled(s, st) && CreationHeld(s)
    ensures CreationHeld(Apply(s, st))
  {
    var s', t := Apply(s, st), st.t;
    assert forall u: nat :: u != t ==> At(s', u) == At(s, u);
    if s'.creating && !Creates(At(s', t)) {
      assert s.creating && !Creates(At(s, t));
      var u: nat :| Creates(At(s, u));
      assert Creates(At(s', u));
    }
  }

  lemma {:induction false} BitsExec(s: State, steps: seq<Step>)
    requires Runs(s, steps) && BitsHeld(s) && CreationHeld(s)
    ensures BitsHeld(Exec(s, steps)) && CreationHeld(Exec(s, steps))
    decreases |steps|
  {
    if steps != [] {
      BitsStep(s, steps[0]);
      CreationStep(s, steps[0]);
      BitsExec(Apply(s, steps[0]), steps[1..]);
    }
  }

  /** In every run with at most 32 stacks, the bit of a stack is set exactly while some thread holds the stack,
      and the creation lock is taken exactly while some thread creates a stack. */
  lemma LockIffHeld(chunk: nat, steps: seq<Step>)
    requires chunk > 0 && Runs(Init(chunk), steps) && |Exec(Init(chunk), steps).stacks| <= 32
    ensures var s := Exec(Init(chunk), steps);
            && (forall i: nat :: i in s.occupied <==> exists t: nat :: Holds(s, t, i))
            && (s.creating <==> exists t: nat :: Creates(At(s, t)))
  {
    InitSafe(chunk);
    ExecSafe(Init(chunk), steps);
    BitsExec(Init(chunk), steps);
  }

  ghost predicate Quiet(s: State) {
    forall t: nat :: At(s, t).Idle?
  }

  /** Nothing stays locked when every thread has left the allocator. */
  lemma QuietUnlocked(chunk: nat, steps: seq<Step>)
    requires chunk > 0 && Runs(Init(chunk), steps) && |Exec(Init(chunk), steps).stacks| <= 32
    requires Quiet(Exec(Init(chunk), steps))
    ensures var s := Exec(Init(chunk), steps); s.occupied == {} && !s.creating && |s.stacks| == s.count
  {
    InitSafe(chunk);
    ExecSafe(Init(chunk), steps);
    LockIffHeld(chunk, steps);
  }
}
