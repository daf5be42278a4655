/** The pooled allocator used by one thread. */
module Allocator {
  import opened Options
  import opened AllocatorThreads
  import opened AllocatorAlone
  import Chunks

  /** The pointers on the first n stacks. */
  ghost function Stacked(stacks: seq<Stack>, n: nat): multiset<Addr>
    requires n <= |stacks| && SizesOK(stacks)
  {
    if n == 0 then multiset{} else Stacked(stacks, n - 1) + multiset(stacks[n - 1].pointers[..stacks[n - 1].size])
  }

  ghost predicate SizesOK(stacks: seq<Stack>) {
    forall i :: 0 <= i < |stacks| ==> 0 <= stacks[i].size <= |stacks[i].pointers|
  }

  /** Every item of the first n data blocks, once. */
  ghost function Items(n: nat, chunk: nat): multiset<Addr> {
    if n == 0 then multiset{} else Items(n - 1, chunk) + multiset(NewStack(n - 1, chunk).pointers)
  }

  lemma Distinct(s: seq<Addr>, a: Addr)
    requires forall i, j :: 0 <= i < j < |s| ==> s[i] != s[j]
    ensures multiset(s)[a] <= 1
  {
    if s != [] {
      var last := |s| - 1;
      assert s == s[..last] + [s[last]];
      Distinct(s[..last], a);
    }
  }

  lemma {:induction false} ItemsOnce(n: nat, chunk: nat, a: Addr)
    ensures Items(n, chunk)[a] <= 1
    ensures a.block >= n ==> Items(n, chunk)[a] == 0
  {
    if n > 0 {
      ItemsOnce(n - 1, chunk, a);
      var block := NewStack(n - 1, chunk).pointers;
      Distinct(block, a);
      assert a.block != n - 1 ==> a !in block;
    }
  }

  lemma {:induction false} ItemsSize(n: nat, chunk: nat)
    ensures |Items(n, chunk)| == n * chunk
  {
    if n > 0 {
      ItemsSize(n - 1, chunk);
      Chunks.MulStep(n - 1, chunk);
    }
  }

  lemma {:induction false} FullSize(stacks: seq<Stack>, n: nat, chunk: nat)
    requires n <= |stacks| && SizesOK(stacks) && forall i :: 0 <= i < n ==> stacks[i].size == chunk
    ensures |Stacked(stacks, n)| == n * chunk
  {
    if n > 0 {
      FullSize(stacks, n - 1, chunk);
      assert |stacks[n - 1].pointers[..stacks[n - 1].size]| == chunk;
      Chunks.MulStep(n - 1, chunk);
    }
  }

  lemma {:induction false} SameStacked(a: seq<Stack>, b: seq<Stack>, n: nat)
    requires n <= |a| && n <= |b| && SizesOK(a) && SizesOK(b) && forall i :: 0 <= i < n ==> a[i] == b[i]
    ensures Stacked(a, n) == Stacked(b, n)
  {
    if n > 0 {
      SameStacked(a, b, n - 1);
    }
  }

  /** Stack i's content changes from `before` to what it is in b. */
  lemma {:induction false} OneStack(a: seq<Stack>, b: seq<Stack>, i: nat, n: nat)
    requires i < n <= |a| == |b| && SizesOK(a) && SizesOK(b) && forall j :: 0 <= j < |a| && j != i ==> a[j] == b[j]
    ensures Stacked(b, n) + multiset(a[i].pointers[..a[i].size]) == Stacked(a, n) + multiset(b[i].pointers[..b[i].size])
  {
    var x, y := multiset(a[i].pointers[..a[i].size]), multiset(b[i].pointers[..b[i].size]);
    if n == i + 1 {
      SameStacked(a, b, i);
      Exchange(Stacked(a, i), x, Stacked(a, i), y, multiset{});
    } else {
      OneStack(a, b, i, n - 1);
      Exchange(Stacked(b, n - 1), x, Stacked(a, n - 1), y, multiset(a[n - 1].pointers[..a[n - 1].size]));
    }
  }

  lemma Exchange(b: multiset<Addr>, x: multiset<Addr>, a: multiset<Addr>, y: multiset<Addr>, more: multiset<Addr>)
    ensures b + x == a + y ==> (b + more) + x == (a + more) + y
    ensures (b + y) + x == (b + x) + y
  {
    if b + x == a + y {
      forall e: Addr ensures ((b + more) + x)[e] == ((a + more) + y)[e] {
        assert (b + x)[e] == (a + y)[e];
      }
    }
  }

  lemma Cancel(small: multiset<Addr>, big: multiset<Addr>, rest: multiset<Addr>, p: Addr)
    requires small + (rest + multiset{p}) == big + rest
    ensures big == small + multiset{p}
  {
    forall a: Addr ensures big[a] == (small + multiset{p})[a] {
      assert (small + (rest + multiset{p}))[a] == (big + rest)[a];
    }
  }

  /** Popping takes p from the stacked items, and p is not handed out. */
  lemma PopMoves(before: seq<Stack>, now: seq<Stack>, i: nat, p: Addr, out: set<Addr>, chunk: nat)
    requires i < |before| && SizesOK(before) && before[i].size > 0 && p == before[i].pointers[before[i].size - 1]
    requires now == before[i := before[i].(size := before[i].size - 1)] && SizesOK(now)
    requires Stacked(before, |before|) + multiset(out) == Items(|before|, chunk)
    ensures p !in out && Stacked(now, |now|) + multiset(out + {p}) == Items(|now|, chunk)
  {
    var s := before[i];
    assert s.pointers[..s.size] == s.pointers[..s.size - 1] + [p];
    OneStack(before, now, i, |now|);
    ItemsOnce(|now|, chunk, p);
    Cancel(Stacked(now, |now|), Stacked(before, |before|), multiset(s.pointers[..s.size - 1]), p);
    assert Items(|now|, chunk)[p] == Stacked(now, |now|)[p] + 1 + multiset(out)[p];
    assert multiset(out + {p}) == multiset(out) + multiset{p};
  }

  /** Pushing puts p among the stacked items. */
  lemma PushMoves(before: seq<Stack>, now: seq<Stack>, i: nat, p: Addr, out: set<Addr>, chunk: nat)
    requires i < |before| && SizesOK(before) && before[i].size < |before[i].pointers| && p in out
    requires now == before[i := Stack(before[i].pointers[before[i].size := p], before[i].size + 1)]
    requires Stacked(before, |before|) + multiset(out) == Items(|before|, chunk)
    ensures SizesOK(now) && Stacked(now, |now|) + multiset(out - {p}) == Items(|now|, chunk)
  {
    var s := before[i];
    assert now[i].pointers[..s.size + 1] == s.pointers[..s.size] + [p];
    OneStack(before, now, i, |now|);
    Cancel(Stacked(before, |before|), Stacked(now, |now|), multiset(s.pointers[..s.size]), p);
    assert multiset(out) == multiset(out - {p}) + multiset{p};
  }

  class Allocator {
    const chunk: nat
    var occupied: set<nat>
    var stacks: seq<Stack>
    ghost var out: set<Addr>          // items handed out

    /** Stacked and handed-out items together are all items, each once. */
    ghost predicate Valid()
      reads this
    {
      && chunk > 0 && occupied == {} && 0 < |stacks| <= 32 && SizesOK(stacks)
      && (forall i :: 0 <= i < |stacks| ==> |stacks[i].pointers| == chunk)
      && Stacked(stacks, |stacks|) + multiset(out) == Items(|stacks|, chunk)
    }

    ghost predicate AllEmpty()
      reads this
    {
      forall i :: 0 <= i < |stacks| ==> stacks[i].size == 0
    }

    constructor (chunk: nat)
      requires chunk > 0
      ensures Valid() && this.chunk == chunk && out == {} && |stacks| == 1
    {
      this.chunk := chunk;
      occupied, stacks, out := {}, [NewStack(0, chunk)], {};
      new;
      var s := stacks[0];
      assert s.pointers[..s.size] == s.pointers;
      assert Stacked(stacks, 0) == multiset{};
    }

    /** find_free_pointer_stack: the first stack with a fitting size, whose lock is then held. */
    method Find(op: Op) returns (r: Option<nat>)
      requires occupied == {} && |stacks| <= 32
      modifies this`occupied
      ensures r.None? ==> occupied == {} && forall i :: 0 <= i < |stacks| ==> !Fits(op, chunk, stacks[i].size)
      ensures r.Some? ==> r.value < |stacks| && occupied == {r.value} && Fits(op, chunk, stacks[r.value].size)
      ensures r.Some? ==> forall i :: 0 <= i < r.value ==> !Fits(op, chunk, stacks[i].size)
    {
      var count, bitmap, invalid: set<nat> := |stacks|, occupied, {};
      ghost var seen: nat := 0;
      while true
        invariant occupied == bitmap == {} && seen <= count == |stacks|
        invariant forall i :: i in invalid <==> 0 <= i < seen
        invariant forall i :: 0 <= i < seen ==> !Fits(op, chunk, stacks[i].size)
        decreases count - seen
      {
        var first := FirstFree(bitmap + invalid, 0);
        assert first == seen by {
          assert first < 64 ==> first !in invalid;
          assert seen !in bitmap + invalid;
        }
        if first == 64 || first >= count {
          return None;
        }
        occupied := bitmap + {first};
        if Fits(op, chunk, stacks[first].size) {
          return Some(first);
        }
        occupied := Release(occupied, first);
        invalid := invalid + {first};
        seen := seen + 1;
      }
    }

    /** create_new_stack */
    method CreateStack()
      requires Valid() && |stacks| < 32
      modifies this`stacks
      ensures Valid() && stacks == old(stacks) + [NewStack(|old(stacks)|, chunk)]
    {
      ghost var before := stacks;
      var n := |stacks|;
      var new_ := NewStack(n, chunk);
      stacks := stacks + [new_];
      SameStacked(before, stacks, n);
      assert new_.pointers[..new_.size] == new_.pointers;
    }

    /** Take the top pointer of a stack. */
    method Pop(i: nat) returns (p: Addr)
      requires chunk > 0 && occupied == {i} && i < |stacks| <= 32 && SizesOK(stacks) && stacks[i].size > 0
      requires forall j :: 0 <= j < |stacks| ==> |stacks[j].pointers| == chunk
      requires Stacked(stacks, |stacks|) + multiset(out) == Items(|stacks|, chunk)
      modifies this
      ensures Valid() && p !in old(out) && out == old(out) + {p} && |stacks| == |old(stacks)|
      ensures var x := old(stacks)[i];
              p == x.pointers[x.size - 1] && stacks == old(stacks)[i := x.(size := x.size - 1)]
    {
      ghost var before := stacks;
      var s := stacks[i];
      stacks := stacks[i := s.(size := s.size - 1)];
      p := s.pointers[s.size - 1];
      occupied := Release(occupied, i);
      PopMoves(before, stacks, i, p, out, chunk);
      out := out + {p};
    }

    /** allocator_allocate. It calls itself again exactly when every stack is empty, and then once. */
    method Allocate() returns (p: Addr, calls: nat)
      requires Valid() && (AllEmpty() ==> |stacks| < 32)
      modifies this
      ensures Valid() && p !in old(out) && out == old(out) + {p}
      ensures calls == if old(AllEmpty()) then 2 else 1
      ensures Allocation(p, stacks) == AllocateSpec(chunk, old(stacks))
      ensures |stacks| == |old(stacks)| + (if old(AllEmpty()) then 1 else 0)
      decreases if AllEmpty() then 1 else 0
    {
      var found := Find(Op.Allocate);
      FirstFitIs(Op.Allocate, chunk, stacks, if found.None? then |stacks| else found.value);
      if found.None? {
        GrownFits(chunk, stacks);
        CreateStack();
        var more;
        p, more := Allocate();
        return p, 1 + more;
      }
      p := Pop(found.value);
      calls := 1;
    }

    /** While an item is handed out, some stack has room for it. */
    lemma RoomLeft(p: Addr) returns (i: nat)
      requires Valid() && p in out
      ensures i < |stacks| && Fits(Op.Free(p), chunk, stacks[i].size)
    {
      i := 0;
      while i < |stacks| && stacks[i].size >= chunk
        invariant i <= |stacks| && forall j :: 0 <= j < i ==> stacks[j].size == chunk
      {
        i := i + 1;
      }
      NoneOut(i);
    }

    lemma NoneOut(n: nat)
      requires Valid() && n <= |stacks| && forall j :: 0 <= j < n ==> stacks[j].size == chunk
      ensures n == |stacks| ==> out == {}
    {
      FullSize(stacks, n, chunk);
      ItemsSize(|stacks|, chunk);
      assert |multiset(out)| == |out|;
    }

    /** allocator_free: it always finds a stack and never creates one. */
    method Free(p: Addr)
      requires Valid() && p in out
      modifies this
      ensures Valid() && out == old(out) - {p}
      ensures FirstFit(Op.Free(p), chunk, old(stacks), 0) < |old(stacks)| && stacks == FreeSpec(chunk, old(stacks), p)
    {
      ghost var room := RoomLeft(p);
      var found := Find(Op.Free(p));
      assert Fits(Op.Free(p), chunk, stacks[room].size);
      if found.None? {
        assert false;
      }
      ghost var before := stacks;
      var i := found.value;
      FirstFitIs(Op.Free(p), chunk, stacks, i);
      var s := stacks[i];
      stacks := stacks[i := Stack(s.pointers[s.size := p], s.size + 1)];
      occupied := Release(occupied, i);
      PushMoves(before, stacks, i, p, out, chunk);
      out := out - {p};
    }
  }
}
