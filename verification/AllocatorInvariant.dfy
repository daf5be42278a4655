/** With at most 32 stacks the allocator's locks are exclusive and its items are conserved. */
module AllocatorInvariant {
  import opened Logic
  import opened AllocatorThreads

  /** Where an item is: on a stack, in the hands of a thread inside the allocator, or handed out. */
  datatype Place = InStack(i: nat, j: nat) | InTransit(t: nat) | Out

  /** Item a is carried through the allocator by a thread there. */
  predicate CarriesPc(stacks: seq<Stack>, pc: Pc, a: Addr) {
    match pc
    case LoadCount(op) => op == Free(a)
    case LoadBitmap(op, _) => op == Free(a)
    case Pick(op, _, _, _) => op == Free(a)
    case Check(op, _, _, _, _) => op == Free(a)
    case Reject(op, _, _, _, _) => op == Free(a)
    case Claimed(op, _) => op == Free(a)
    case Popped(i, n) => i < |stacks| && 0 < n <= |stacks[i].pointers| && stacks[i].pointers[n - 1] == a
    case Taken(_, p) => p == a
    case Pushed(_, _, p) => p == a
    case CreateLock(op) => op == Free(a)
    case CreateLoad(op) => op == Free(a)
    case CreateStore(op, _) => op == Free(a)
    case CreateCount(op) => op == Free(a)
    case CreateUnlock(op) => op == Free(a)
    case _ => false
  }

  predicate Carries(s: State, t: nat, a: Addr) {
    CarriesPc(s.stacks, At(s, t), a)
  }

  predicate Creates(pc: Pc) {
    pc.CreateLoad? || pc.CreateStore? || pc.CreateCount? || pc.CreateUnlock?
  }

  /** The stack table: only the holder of the creation lock grows it. */
  ghost predicate TableOK(s: State) {
    && s.chunk > 0 && s.count <= |s.stacks| <= 32
    && (forall i :: 0 <= i < |s.stacks| ==> |s.stacks[i].pointers| == s.chunk)
    && (!s.creating ==> |s.stacks| == s.count)
    && (forall t: nat :: Creates(At(s, t)) ==> s.creating && CreatorOK(s, At(s, t)))
    && (forall t: nat, u: nat :: Creates(At(s, t)) && Creates(At(s, u)) ==> t == u)
  }

  ghost predicate CreatorOK(s: State, pc: Pc) {
    && (pc.CreateCount? <==> |s.stacks| == s.count + 1)
    && (!pc.CreateCount? ==> |s.stacks| == s.count)
    && (pc.CreateStore? ==> pc.n == s.count)
  }

  /** Locks: a held stack has its bit set, and no bit at or above the stack count is set. */
  ghost predicate LocksOK(s: State) {
    && (forall j :: j in s.occupied ==> j < s.count)
    && (forall t: nat, i: nat :: Holds(s, t, i) ==> i in s.occupied)
    && Exclusive(s)
  }

  /** Snapshots of the stack count stay below the count. */
  ghost predicate SnapOK(s: State) {
    forall t: nat :: SnapAt(s, At(s, t))
  }

  ghost predicate SnapAt(s: State, pc: Pc) {
    match pc
    case LoadBitmap(_, c) => c <= s.count
    case Pick(_, c, _, _) => c <= s.count
    case Check(_, c, _, _, _) => c <= s.count
    case Reject(_, c, _, _, _) => c <= s.count
    case _ => true
  }

  /** Sizes are in range, and the holder of a stack knows its size. */
  ghost predicate SizesOK(s: State) {
    && (forall i :: 0 <= i < |s.stacks| ==> 0 <= s.stacks[i].size <= s.chunk)
    && (forall t: nat :: SizeAt(s, At(s, t)))
  }

  ghost predicate SizeAt(s: State, pc: Pc) {
    match pc
    case Claimed(op, i) => i < |s.stacks| && Fits(op, s.chunk, s.stacks[i].size)
    case Popped(i, n) => i < |s.stacks| && 0 < n <= s.chunk && s.stacks[i].size == n - 1
    case Pushed(i, n, _) => i < |s.stacks| && 0 <= n < s.chunk && s.stacks[i].size == n + 1
    case _ => true
  }

  /** Slot j of stack i holds a stacked item: it is below the size, and not one whose pointer is still
      to be written. */
  ghost predicate Live(s: State, i: nat, j: nat) {
    && i < |s.stacks| && j < s.stacks[i].size && j < |s.stacks[i].pointers|
    && forall t: nat :: At(s, t).Pushed? && At(s, t).i == i ==> j != At(s, t).s
  }

  /** `w` gives every item exactly one place, and every place its item. */
  ghost predicate PlacesOK(s: State, w: map<Addr, Place>) {
    && (forall a :: a in w <==> a.block < |s.stacks| && a.item < s.chunk)
    && (forall a :: a in w && w[a].InStack? ==> Live(s, w[a].i, w[a].j) && s.stacks[w[a].i].pointers[w[a].j] == a)
    && (forall i: nat, j: nat :: Live(s, i, j) ==> s.stacks[i].pointers[j] in w && w[s.stacks[i].pointers[j]] == InStack(i, j))
    && (forall a: Addr, t: nat :: Carries(s, t, a) ==> a in w && w[a] == InTransit(t))
    && (forall a :: a in w && w[a].InTransit? ==> Carries(s, w[a].t, a))
    && (forall a :: a in s.out <==> a in w && w[a] == Out)
  }

  ghost predicate Inv(s: State, w: map<Addr, Place>) {
    Whole(TableOK(s)) && Whole(LocksOK(s)) && Whole(SnapOK(s)) && Whole(SizesOK(s)) && Whole(PlacesOK(s, w))
  }

  ghost predicate Safe(s: State) {
    exists w :: Inv(s, w)
  }

  lemma InitSafe(chunk: nat)
    requires chunk > 0
    ensures Safe(Init(chunk))
  {
    var s := Init(chunk);
    var w := map a: Addr | a in (set i | 0 <= i < chunk :: Addr(0, i)) :: InStack(0, a.item);
    forall a: Addr ensures a in w <==> a.block < 1 && a.item < chunk {
      if a.block == 0 && a.item < chunk {
        assert a == Addr(0, a.item);
      }
    }
    forall i: nat, j: nat | Live(s, i, j)
      ensures s.stacks[i].pointers[j] in w && w[s.stacks[i].pointers[j]] == InStack(i, j)
    {
      assert s.stacks[i].pointers[j] == Addr(0, j);
    }
    assert Inv(s, w);
  }

  // ---- Steps that change nothing shared -------------------------------------------------------------

  lemma LocalMove(s: State, w: map<Addr, Place>, t: nat, pc: Pc)
    requires Inv(s, w)
    requires forall i: nat :: HoldsPc(pc, i) <==> HoldsPc(At(s, t), i)
    requires forall a: Addr :: CarriesPc(s.stacks, pc, a) <==> CarriesPc(s.stacks, At(s, t), a)
    requires Creates(pc) <==> Creates(At(s, t))
    requires Creates(pc) ==> CreatorOK(s, pc)
    requires SnapAt(s, pc) && SizeAt(s, pc) && !pc.Pushed? && !At(s, t).Pushed?
    ensures Inv(Go(s, t, pc), w)
  {
    var s' := Go(s, t, pc);
    assert forall u: nat :: u != t ==> At(s', u) == At(s, u);
    assert At(s', t) == pc;
    LiveSame(s, s', t);
    assert forall u: nat, i: nat :: Holds(s', u, i) <==> Holds(s, u, i);
    assert forall u: nat, a: Addr :: Carries(s', u, a) <==> Carries(s, u, a);
  }

  /** Live slots depend on a thread only through the store it still owes. */
  lemma LiveSame(s: State, s': State, t: nat)
    requires s'.stacks == s.stacks
    requires forall u: nat :: u != t ==> At(s', u) == At(s, u)
    requires !At(s, t).Pushed? && !At(s', t).Pushed?
    ensures forall i: nat, j: nat :: Live(s', i, j) <==> Live(s, i, j)
  {
    forall i: nat, j: nat ensures Live(s', i, j) <==> Live(s, i, j) {
      if Live(s, i, j) {
        forall u: nat | At(s', u).Pushed? && At(s', u).i == i ensures j != At(s', u).s {
          assert At(s, u).Pushed?;
        }
      }
      if Live(s', i, j) {
        forall u: nat | At(s, u).Pushed? && At(s, u).i == i ensures j != At(s, u).s {
          assert At(s', u).Pushed?;
        }
      }
    }
  }

  /** Places under steps that leave the stacks alone. */
  lemma PlacesSame(s: State, s': State, w: map<Addr, Place>, t: nat)
    requires PlacesOK(s, w)
    requires s'.stacks == s.stacks && s'.chunk == s.chunk && s'.out == s.out
    requires forall u: nat :: u != t ==> At(s', u) == At(s, u)
    requires forall a: Addr :: Carries(s', t, a) <==> Carries(s, t, a)
    requires !At(s, t).Pushed? && !At(s', t).Pushed?
    ensures PlacesOK(s', w)
  {
    LiveSame(s, s', t);
    assert forall u: nat, a: Addr :: Carries(s', u, a) <==> Carries(s, u, a);
  }

  // ---- Taking and releasing a lock --------------------------------------------------------------------

  lemma AcquireStep(s: State, w: map<Addr, Place>, t: nat)
    requires Inv(s, w) && At(s, t).Pick?
    requires var pc := At(s, t);
             var first := FirstFree(pc.bitmap + pc.invalid, 0);
             first < pc.count && first < 64 && s.occupied == pc.bitmap
    ensures Inv(Apply(s, Advance(t)), w)
  {
    var pc := At(s, t);
    var first := FirstFree(pc.bitmap + pc.invalid, 0);
    var s' := Apply(s, Advance(t));
    assert SnapAt(s, pc);
    assert first !in s.occupied;
    assert forall u: nat :: u != t ==> At(s', u) == At(s, u);
    PlacesSame(s, s', w, t);
    forall u: nat, i: nat | Holds(s', u, i) ensures i in s'.occupied && (i == first <==> u == t) {
      if u != t {
        assert Holds(s, u, i);
      }
    }
    assert Exclusive(s') by {
      forall u: nat, v: nat, i: nat | Holds(s', u, i) && Holds(s', v, i) ensures u == v {
        if u != t && v != t {
          assert Holds(s, u, i) && Holds(s, v, i);
        }
      }
    }
  }

  /** Releasing the lock of stack i, with at most 32 stacks, releases that lock only. */
  lemma ReleaseLocks(s: State, s': State, t: nat, i: nat)
    requires TableOK(s) && LocksOK(s) && Holds(s, t, i)
    requires s'.occupied == Release(s.occupied, i) && s'.count == s.count
    requires forall u: nat :: u != t ==> At(s', u) == At(s, u)
    requires forall j: nat :: !Holds(s', t, j)
    ensures LocksOK(s')
  {
    forall u: nat, j: nat | Holds(s', u, j) ensures j in s'.occupied {
      assert u != t && Holds(s, u, j);
      assert Holds(s, u, i) ==> u == t;
    }
    assert forall u: nat, j: nat :: Holds(s', u, j) ==> Holds(s, u, j);
  }

  lemma RejectStep(s: State, w: map<Addr, Place>, t: nat)
    requires Inv(s, w) && At(s, t).Reject? && Enabled(s, Advance(t))
    ensures Inv(Apply(s, Advance(t)), w)
  {
    var pc := At(s, t);
    var s' := Apply(s, Advance(t));
    assert Holds(s, t, pc.i) && SnapAt(s, pc);
    assert forall u: nat :: u != t ==> At(s', u) == At(s, u);
    PlacesSame(s, s', w, t);
    ReleaseLocks(s, s', t, pc.i);
  }

  lemma StoredStep(s: State, w: map<Addr, Place>, t: nat)
    requires Inv(s, w) && At(s, t).Stored? && Enabled(s, Advance(t))
    ensures Inv(Apply(s, Advance(t)), w)
  {
    var s' := Apply(s, Advance(t));
    assert Holds(s, t, At(s, t).i);
    assert forall u: nat :: u != t ==> At(s', u) == At(s, u);
    PlacesSame(s, s', w, t);
    ReleaseLocks(s, s', t, At(s, t).i);
  }

  /** Allocate returns: the item was in this thread's hands, so nobody else's. */
  lemma TakenStep(s: State, w: map<Addr, Place>, t: nat) returns (w': map<Addr, Place>)
    requires Inv(s, w) && At(s, t).Taken? && Enabled(s, Advance(t))
    ensures Inv(Apply(s, Advance(t)), w')
    ensures At(s, t).p !in s.out
  {
    var p := At(s, t).p;
    var s' := Apply(s, Advance(t));
    assert Holds(s, t, At(s, t).i);
    assert forall u: nat :: u != t ==> At(s', u) == At(s, u);
    w' := w[p := Out];
    ReleaseLocks(s, s', t, At(s, t).i);
    TakenPlaces(s, w, t);
  }

  lemma TakenPlaces(s: State, w: map<Addr, Place>, t: nat)
    requires PlacesOK(s, w) && At(s, t).Taken? && Enabled(s, Advance(t))
    ensures At(s, t).p !in s.out && PlacesOK(Apply(s, Advance(t)), w[At(s, t).p := Out])
  {
    var p := At(s, t).p;
    var s', w' := Apply(s, Advance(t)), w[p := Out];
    assert Carries(s, t, p);
    assert forall u: nat :: u != t ==> At(s', u) == At(s, u);
    LiveSame(s, s', t);
    forall u: nat, a: Addr | Carries(s', u, a) ensures a in w' && w'[a] == InTransit(u) {
      assert Carries(s, u, a);
    }
    forall a: Addr | a in w' && w'[a].InTransit? ensures Carries(s', w'[a].t, a) {
      assert Carries(s, w[a].t, a);
    }
  }

  lemma BeginFree(s: State, w: map<Addr, Place>, t: nat, p: Addr) returns (w': map<Addr, Place>)
    requires Inv(s, w) && At(s, t).Idle? && p in s.out
    ensures Inv(Apply(s, Begin(t, Free(p))), w')
  {
    w' := w[p := InTransit(t)];
    BeginKeeps(s, t, p);
    BeginPlaces(s, w, t, p);
  }

  lemma BeginKeeps(s: State, t: nat, p: Addr)
    requires TableOK(s) && LocksOK(s) && SnapOK(s) && SizesOK(s) && At(s, t).Idle? && p in s.out
    ensures var s' := Apply(s, Begin(t, Free(p))); TableOK(s') && LocksOK(s') && SnapOK(s') && SizesOK(s')
  {
    var s' := Apply(s, Begin(t, Free(p)));
    assert forall u: nat :: u != t ==> At(s', u) == At(s, u);
    assert forall u: nat, i: nat :: Holds(s', u, i) <==> Holds(s, u, i);
  }

  lemma BeginPlaces(s: State, w: map<Addr, Place>, t: nat, p: Addr)
    requires PlacesOK(s, w) && At(s, t).Idle? && p in s.out
    ensures PlacesOK(Apply(s, Begin(t, Free(p))), w[p := InTransit(t)])
  {
    var s', w' := Apply(s, Begin(t, Free(p))), w[p := InTransit(t)];
    assert forall u: nat :: u != t ==> At(s', u) == At(s, u);
    LiveSame(s, s', t);
    forall u: nat, a: Addr | Carries(s', u, a) ensures a in w' && w'[a] == InTransit(u) {
      if u != t {
        assert Carries(s, u, a);
      }
    }
    forall a: Addr | a in w' && w'[a].InTransit? ensures Carries(s', w'[a].t, a) {
      if a != p {
        assert Carries(s, w[a].t, a);
      }
    }
  }

  // ---- Changing a held stack -----------------------------------------------------------------------------

  /** While t holds stack i, no other thread is anywhere inside it. */
  lemma OnlyHolder(s: State, t: nat, i: nat)
    requires LocksOK(s) && Holds(s, t, i)
    ensures forall u: nat :: u != t ==> !Holds(s, u, i)
  {
  }

  /** Everything but the places, for a step of t inside the stack it holds. */
  lemma HeldStep(s: State, s': State, t: nat, i: nat)
    requires TableOK(s) && LocksOK(s) && SnapOK(s) && SizesOK(s) && Holds(s, t, i) && i < |s.stacks|
    requires s'.chunk == s.chunk && s'.occupied == s.occupied && s'.count == s.count && s'.creating == s.creating
    requires |s'.stacks| == |s.stacks| && forall j :: 0 <= j < |s.stacks| && j != i ==> s'.stacks[j] == s.stacks[j]
    requires |s'.stacks[i].pointers| == s.chunk && 0 <= s'.stacks[i].size <= s.chunk
    requires forall u: nat :: u != t ==> At(s', u) == At(s, u)
    requires forall j: nat :: Holds(s', t, j) <==> j == i
    requires !Creates(At(s, t)) && !Creates(At(s', t)) && SnapAt(s', At(s', t)) && SizeAt(s', At(s', t))
    ensures TableOK(s') && LocksOK(s') && SnapOK(s') && SizesOK(s')
  {
    OnlyHolder(s, t, i);
    assert forall u: nat, j: nat :: Holds(s', u, j) <==> Holds(s, u, j);
    forall u: nat ensures SizeAt(s', At(s', u)) {
      if u != t {
        assert SizeAt(s, At(s, u));
        assert !Holds(s, u, i);
      }
    }
    forall u: nat | Creates(At(s', u)) ensures s'.creating && CreatorOK(s', At(s', u)) {
      assert Creates(At(s, u));
    }
    forall u: nat ensures SnapAt(s', At(s', u)) {
      if u != t {
        assert SnapAt(s, At(s, u));
      }
    }
    forall u: nat, v: nat | Creates(At(s', u)) && Creates(At(s', v)) ensures u == v {
      assert Creates(At(s, u)) && Creates(At(s, v));
    }
  }

  /** Carried items are the same when pointers below the sizes of other threads' stacks are. */
  lemma CarriesElsewhere(s: State, s': State, t: nat, i: nat)
    requires LocksOK(s) && Holds(s, t, i) && i < |s.stacks| == |s'.stacks|
    requires forall j :: 0 <= j < |s.stacks| && j != i ==> s'.stacks[j] == s.stacks[j]
    requires forall u: nat :: u != t ==> At(s', u) == At(s, u)
    ensures forall u: nat, a: Addr :: u != t ==> (Carries(s', u, a) <==> Carries(s, u, a))
  {
    OnlyHolder(s, t, i);
    forall u: nat, a: Addr | u != t ensures Carries(s', u, a) <==> Carries(s, u, a) {
      assert !Holds(s, u, i);
    }
  }

  /** Live slots of the held stack are decided by its own thread; those of the others stay. */
  lemma LiveHeld(s: State, s': State, t: nat, i: nat)
    requires LocksOK(s) && Holds(s, t, i) && i < |s.stacks| == |s'.stacks|
    requires forall j :: 0 <= j < |s.stacks| && j != i ==> s'.stacks[j] == s.stacks[j]
    requires forall u: nat :: u != t ==> At(s', u) == At(s, u)
    requires forall j: nat :: Holds(s', t, j) ==> j == i
    ensures forall k: nat, j: nat :: k != i ==> (Live(s', k, j) <==> Live(s, k, j))
    ensures forall j: nat :: Live(s, i, j) <==> Slot(s, t, i, j)
    ensures forall j: nat :: Live(s', i, j) <==> Slot(s', t, i, j)
  {
    OnlyHolder(s, t, i);
    forall u: nat | u != t ensures !(At(s, u).Pushed? && At(s, u).i == i) {
      assert !Holds(s, u, i);
    }
    assert At(s', t).Pushed? ==> Holds(s', t, At(s', t).i);
    assert At(s, t).Pushed? ==> Holds(s, t, At(s, t).i);
    forall k: nat, j: nat | k != i ensures Live(s', k, j) <==> Live(s, k, j) {
      LivePart(s, s', t, k, j);
    }
  }

  lemma LivePart(s: State, s': State, t: nat, k: nat, j: nat)
    requires k < |s.stacks| == |s'.stacks| ==> s'.stacks[k] == s.stacks[k]
    requires |s.stacks| == |s'.stacks|
    requires forall u: nat :: u != t ==> At(s', u) == At(s, u)
    requires forall u: nat :: At(s', u).Pushed? && At(s', u).i == k ==> u != t
    requires forall u: nat :: At(s, u).Pushed? && At(s, u).i == k ==> u != t
    ensures Live(s', k, j) <==> Live(s, k, j)
  {
    if Live(s, k, j) {
      forall u: nat | At(s', u).Pushed? && At(s', u).i == k ensures j != At(s', u).s {
        assert At(s, u).Pushed?;
      }
    }
    if Live(s', k, j) {
      forall u: nat | At(s, u).Pushed? && At(s, u).i == k ensures j != At(s, u).s {
        assert At(s', u).Pushed?;
      }
    }
  }

  /** Liveness of a slot in the stack that t holds. */
  ghost predicate Slot(s: State, t: nat, i: nat, j: nat) {
    && i < |s.stacks| && j < s.stacks[i].size && j < |s.stacks[i].pointers|
    && (At(s, t).Pushed? ==> j != At(s, t).s)
  }

  lemma PopStep(s: State, w: map<Addr, Place>, t: nat) returns (w': map<Addr, Place>)
    requires Inv(s, w) && At(s, t).Claimed? && At(s, t).op.Allocate? && Enabled(s, Advance(t))
    ensures Inv(Apply(s, Advance(t)), w')
  {
    var i := At(s, t).i;
    var n := s.stacks[i].size;
    var s' := Apply(s, Advance(t));
    assert Holds(s, t, i) && SizeAt(s, At(s, t));
    assert forall u: nat :: u != t ==> At(s', u) == At(s, u);
    HeldStep(s, s', t, i);
    LiveHeld(s, s', t, i);
    CarriesElsewhere(s, s', t, i);
    var p := s.stacks[i].pointers[n - 1];
    assert Live(s, i, n - 1);
    w' := w[p := InTransit(t)];
    MovePlaces(s, s', w, t, i, n - 1);
  }

  /** The top item passes from the stack into the thread's hands. */
  lemma MovePlaces(s: State, s': State, w: map<Addr, Place>, t: nat, i: nat, n: nat)
    requires PlacesOK(s, w) && Live(s, i, n)
    requires s'.chunk == s.chunk && s'.out == s.out && |s'.stacks| == |s.stacks|
    requires forall k :: 0 <= k < |s.stacks| ==> s'.stacks[k].pointers == s.stacks[k].pointers
    requires forall k: nat, j: nat :: Live(s', k, j) <==> Live(s, k, j) && !(k == i && j == n)
    requires forall u: nat, a: Addr :: u != t ==> (Carries(s', u, a) <==> Carries(s, u, a))
    requires forall a: Addr :: !Carries(s, t, a)
    requires forall a: Addr :: Carries(s', t, a) <==> a == s.stacks[i].pointers[n]
    ensures PlacesOK(s', w[s.stacks[i].pointers[n] := InTransit(t)])
  {
    var p := s.stacks[i].pointers[n];
    var w' := w[p := InTransit(t)];
    forall u: nat, a: Addr | Carries(s', u, a) ensures a in w' && w'[a] == InTransit(u) {
      if u != t {
        assert Carries(s, u, a);
      }
    }
    forall a: Addr | a in w' && w'[a].InTransit? ensures Carries(s', w'[a].t, a) {
      if a != p {
        assert Carries(s, w[a].t, a);
      }
    }
  }

  lemma PushStep(s: State, w: map<Addr, Place>, t: nat)
    requires Inv(s, w) && At(s, t).Claimed? && At(s, t).op.Free? && Enabled(s, Advance(t))
    ensures Inv(Apply(s, Advance(t)), w)
  {
    var i := At(s, t).i;
    var s' := Apply(s, Advance(t));
    assert Holds(s, t, i) && SizeAt(s, At(s, t));
    assert forall u: nat :: u != t ==> At(s', u) == At(s, u);
    HeldStep(s, s', t, i);
    LiveHeld(s, s', t, i);
    CarriesElsewhere(s, s', t, i);
    assert forall a: Addr :: Carries(s', t, a) <==> Carries(s, t, a);
    KeepPlaces(s, s', w);
  }

  lemma KeepPlaces(s: State, s': State, w: map<Addr, Place>)
    requires PlacesOK(s, w)
    requires s'.chunk == s.chunk && s'.out == s.out && |s'.stacks| == |s.stacks|
    requires forall k :: 0 <= k < |s.stacks| ==> s'.stacks[k].pointers == s.stacks[k].pointers
    requires forall k: nat, j: nat :: Live(s', k, j) <==> Live(s, k, j)
    requires forall u: nat, a: Addr :: Carries(s', u, a) <==> Carries(s, u, a)
    ensures PlacesOK(s', w)
  {
  }

  lemma StoreStep(s: State, w: map<Addr, Place>, t: nat) returns (w': map<Addr, Place>)
    requires Inv(s, w) && At(s, t).Pushed? && Enabled(s, Advance(t))
    ensures Inv(Apply(s, Advance(t)), w')
  {
    var i, n, p := At(s, t).i, At(s, t).s, At(s, t).p;
    var s' := Apply(s, Advance(t));
    assert Holds(s, t, i) && SizeAt(s, At(s, t)) && Carries(s, t, p);
    assert forall u: nat :: u != t ==> At(s', u) == At(s, u);
    HeldStep(s, s', t, i);
    LiveHeld(s, s', t, i);
    CarriesElsewhere(s, s', t, i);
    w' := w[p := InStack(i, n)];
    SettlePlaces(s, s', w, t, i, n, p);
  }

  /** The item passes from the thread's hands onto the stack. */
  lemma SettlePlaces(s: State, s': State, w: map<Addr, Place>, t: nat, i: nat, n: nat, p: Addr)
    requires PlacesOK(s, w) && i < |s.stacks| == |s'.stacks| && n < |s.stacks[i].pointers| && !Live(s, i, n)
    requires s'.chunk == s.chunk && s'.out == s.out
    requires forall k :: 0 <= k < |s.stacks| ==>
               s'.stacks[k].pointers == if k == i then s.stacks[k].pointers[n := p] else s.stacks[k].pointers
    requires forall k: nat, j: nat :: Live(s', k, j) <==> Live(s, k, j) || (k == i && j == n)
    requires forall u: nat, a: Addr :: u != t ==> (Carries(s', u, a) <==> Carries(s, u, a))
    requires forall a: Addr :: Carries(s, t, a) <==> a == p
    requires forall a: Addr :: !Carries(s', t, a)
    ensures PlacesOK(s', w[p := InStack(i, n)])
  {
    var w' := w[p := InStack(i, n)];
    assert Carries(s, t, p);
    forall k: nat, j: nat | Live(s', k, j)
      ensures s'.stacks[k].pointers[j] in w' && w'[s'.stacks[k].pointers[j]] == InStack(k, j)
    {
      if !(k == i && j == n) {
        assert Live(s, k, j);
      }
    }
    forall u: nat, a: Addr | Carries(s', u, a) ensures a in w' && w'[a] == InTransit(u) {
      assert Carries(s, u, a);
    }
    forall a: Addr | a in w' && w'[a].InTransit? ensures Carries(s', w'[a].t, a) {
      assert Carries(s, w[a].t, a);
    }
  }

  // ---- Creating a stack -------------------------------------------------------------------------------

  lemma CreateLockStep(s: State, w: map<Addr, Place>, t: nat)
    requires Inv(s, w) && At(s, t).CreateLock? && !s.creating
    ensures Inv(Apply(s, Advance(t)), w)
  {
    var s' := Apply(s, Advance(t));
    assert forall u: nat :: u != t ==> At(s', u) == At(s, u);
    assert forall u: nat :: Creates(At(s, u)) ==> s.creating;
    assert forall u: nat :: Creates(At(s', u)) ==> u == t;
    assert forall u: nat, i: nat :: Holds(s', u, i) <==> Holds(s, u, i);
    PlacesSame(s, s', w, t);
  }

  lemma CreateUnlockStep(s: State, w: map<Addr, Place>, t: nat)
    requires Inv(s, w) && At(s, t).CreateUnlock?
    ensures Inv(Apply(s, Advance(t)), w)
  {
    var s' := Apply(s, Advance(t));
    assert forall u: nat :: u != t ==> At(s', u) == At(s, u);
    assert Creates(At(s, t)) && CreatorOK(s, At(s, t));
    assert forall u: nat :: !Creates(At(s', u));
    assert forall u: nat, i: nat :: Holds(s', u, i) <==> Holds(s, u, i);
    PlacesSame(s, s', w, t);
  }

  lemma CreateCountStep(s: State, w: map<Addr, Place>, t: nat)
    requires Inv(s, w) && At(s, t).CreateCount?
    ensures Inv(Apply(s, Advance(t)), w)
  {
    var s' := Apply(s, Advance(t));
    assert forall u: nat :: u != t ==> At(s', u) == At(s, u);
    assert Creates(At(s, t)) && CreatorOK(s, At(s, t));
    assert forall u: nat :: Creates(At(s', u)) ==> u == t;
    assert forall u: nat, i: nat :: Holds(s', u, i) <==> Holds(s, u, i);
    forall u: nat ensures SnapAt(s', At(s', u)) {
      assert SnapAt(s, At(s, u));
    }
    PlacesSame(s, s', w, t);
  }

  lemma CreateStoreStep(s: State, w: map<Addr, Place>, t: nat) returns (w': map<Addr, Place>)
    requires Inv(s, w) && At(s, t).CreateStore? && Enabled(s, Advance(t))
    requires |s.stacks| < 32
    ensures Inv(Apply(s, Advance(t)), w')
  {
    var s' := Apply(s, Advance(t));
    var n := |s.stacks|;
    StoreKeepsTable(s, t);
    StoreKeepsLocks(s, t);
    assert forall u: nat :: u != t ==> At(s', u) == At(s, u);
    SizesGrow(s, s', t);
    w' := w + map a: Addr | a in (set j | 0 <= j < s.chunk :: Addr(n, j)) :: InStack(n, a.item);
    GrowPlaces(s, s', w, w', t);
  }

  lemma StoreKeepsTable(s: State, t: nat)
    requires TableOK(s) && At(s, t).CreateStore? && Enabled(s, Advance(t)) && |s.stacks| < 32
    ensures TableOK(Apply(s, Advance(t)))
  {
    var s' := Apply(s, Advance(t));
    assert forall u: nat :: u != t ==> At(s', u) == At(s, u);
    assert Creates(At(s, t)) && CreatorOK(s, At(s, t));
    assert forall u: nat :: Creates(At(s', u)) ==> u == t;
  }

  lemma StoreKeepsLocks(s: State, t: nat)
    requires LocksOK(s) && SnapOK(s) && At(s, t).CreateStore? && Enabled(s, Advance(t))
    ensures LocksOK(Apply(s, Advance(t))) && SnapOK(Apply(s, Advance(t)))
  {
    var s' := Apply(s, Advance(t));
    assert forall u: nat :: u != t ==> At(s', u) == At(s, u);
    assert forall u: nat, i: nat :: Holds(s', u, i) <==> Holds(s, u, i);
  }

  lemma SizesGrow(s: State, s': State, t: nat)
    requires SizesOK(s) && s'.chunk == s.chunk && s'.stacks == s.stacks + [NewStack(|s.stacks|, s.chunk)]
    requires forall u: nat :: u != t ==> At(s', u) == At(s, u)
    requires At(s, t).CreateStore? && At(s', t) == CreateCount(At(s, t).op)
    ensures SizesOK(s')
  {
    forall u: nat ensures SizeAt(s', At(s', u)) {
      assert SizeAt(s, At(s, u));
    }
  }

  /** A new stack brings new items, all of them on it. */
  lemma GrowPlaces(s: State, s': State, w: map<Addr, Place>, w': map<Addr, Place>, t: nat)
    requires PlacesOK(s, w) && SizesOK(s) && LocksOK(s) && TableOK(s)
    requires s'.stacks == s.stacks + [NewStack(|s.stacks|, s.chunk)]
    requires s'.chunk == s.chunk && s'.out == s.out
    requires forall u: nat :: u != t ==> At(s', u) == At(s, u)
    requires At(s, t).CreateStore? && At(s', t) == CreateCount(At(s, t).op)
    requires w' == w + map a: Addr | a in (set j | 0 <= j < s.chunk :: Addr(|s.stacks|, j)) :: InStack(|s.stacks|, a.item)
    ensures PlacesOK(s', w')
  {
    var n := |s.stacks|;
    forall a: Addr ensures a in w' <==> a.block < n + 1 && a.item < s.chunk {
      if a.block == n && a.item < s.chunk {
        assert a == Addr(n, a.item);
      }
    }
    LiveGrows(s, s', t);
    CarriesGrow(s, s', t);
    StackedGrow(s, s', w, w');
  }

  lemma StackedGrow(s: State, s': State, w: map<Addr, Place>, w': map<Addr, Place>)
    requires PlacesOK(s, w) && s'.chunk == s.chunk && s'.stacks == s.stacks + [NewStack(|s.stacks|, s.chunk)]
    requires w' == w + map a: Addr | a in (set j | 0 <= j < s.chunk :: Addr(|s.stacks|, j)) :: InStack(|s.stacks|, a.item)
    requires forall k: nat, j: nat :: k < |s.stacks| ==> (Live(s', k, j) <==> Live(s, k, j))
    requires forall j: nat :: Live(s', |s.stacks|, j) <==> j < s.chunk
    requires forall j: nat :: j < s.chunk ==> s'.stacks[|s.stacks|].pointers[j] == Addr(|s.stacks|, j)
    ensures forall a :: a in w' && w'[a].InStack? ==> Live(s', w'[a].i, w'[a].j) && s'.stacks[w'[a].i].pointers[w'[a].j] == a
    ensures forall i: nat, j: nat :: Live(s', i, j) ==>
              s'.stacks[i].pointers[j] in w' && w'[s'.stacks[i].pointers[j]] == InStack(i, j)
  {
  }

  /** Old slots stay as they are, and every slot of the new stack holds its own item. */
  lemma LiveGrows(s: State, s': State, t: nat)
    requires SizesOK(s) && TableOK(s) && s'.stacks == s.stacks + [NewStack(|s.stacks|, s.chunk)]
    requires forall u: nat :: u != t ==> At(s', u) == At(s, u)
    requires At(s, t).CreateStore? && At(s', t) == CreateCount(At(s, t).op)
    ensures forall k: nat, j: nat :: k < |s.stacks| ==> (Live(s', k, j) <==> Live(s, k, j))
    ensures forall j: nat :: Live(s', |s.stacks|, j) <==> j < s.chunk
    ensures forall j: nat :: j < s.chunk ==> s'.stacks[|s.stacks|].pointers[j] == Addr(|s.stacks|, j)
  {
    var n := |s.stacks|;
    forall u: nat | At(s', u).Pushed? ensures At(s', u).i < n && At(s, u) == At(s', u) {
      assert SizeAt(s, At(s, u));
    }
    forall k: nat, j: nat | k < n ensures Live(s', k, j) <==> Live(s, k, j) {
      LiveGrow(s, s', k, j);
    }
  }

  lemma CarriesGrow(s: State, s': State, t: nat)
    requires SizesOK(s) && TableOK(s) && s'.stacks == s.stacks + [NewStack(|s.stacks|, s.chunk)]
    requires forall u: nat :: u != t ==> At(s', u) == At(s, u)
    requires At(s, t).CreateStore? && At(s', t) == CreateCount(At(s, t).op)
    ensures forall u: nat, a: Addr :: Carries(s', u, a) <==> Carries(s, u, a)
  {
    forall u: nat, a: Addr ensures Carries(s', u, a) <==> Carries(s, u, a) {
      assert SizeAt(s, At(s, u));
    }
  }

  lemma LiveGrow(s: State, s': State, k: nat, j: nat)
    requires k < |s.stacks| < |s'.stacks| && s'.stacks[k] == s.stacks[k]
    requires forall u: nat :: At(s', u).Pushed? <==> At(s, u).Pushed?
    requires forall u: nat :: At(s', u).Pushed? ==> At(s', u) == At(s, u)
    ensures Live(s', k, j) <==> Live(s, k, j)
  {
    if Live(s, k, j) {
      forall u: nat | At(s', u).Pushed? && At(s', u).i == k ensures j != At(s', u).s {
        assert At(s, u).Pushed?;
      }
    }
    if Live(s', k, j) {
      forall u: nat | At(s, u).Pushed? && At(s, u).i == k ensures j != At(s, u).s {
        assert At(s', u).Pushed?;
      }
    }
  }
}
