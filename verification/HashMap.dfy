/** The chained hash map that all protocol tables use. */
module HashMap {
  import opened Options
  import opened Logic
  import opened HashTable
  import opened HashSpec

  ghost function Lists<V>(t: Table<V>): seq<seq<Entry<V>>>
    requires WellFormed(t)
  {
    seq(|t.items|, b requires 0 <= b < |t.items| => Entries(t, b))
  }

  ghost predicate UsedSomewhere<V>(t: Table<V>, k: nat) {
    exists b: nat, i: nat :: Uses(t, b, i, k)
  }

  /** No chain of the table uses a node of `kept`. */
  ghost predicate ChainsOutside<V>(t: Table<V>, kept: set<nat>) {
    forall b: nat, i: nat :: InChain(t, b, i) ==> t.chains[b][i] !in kept
  }

  lemma FillHeadUses<V>(t: Table<V>, b: nat, key: Bytes, block: Option<nat>, value: V)
    requires WellFormed(t) && b < |t.items| && t.items[b].value.None?
    ensures var t' := FillHead(t, b, key, block, value);
            forall k: nat :: UsedSomewhere(t', k) ==> UsedSomewhere(t, k) || block == Some(k)
  {
    var t' := FillHead(t, b, key, block, value);
    forall k: nat | UsedSomewhere(t', k) && block != Some(k) ensures UsedSomewhere(t, k) {
      var c: nat, i: nat :| Uses(t', c, i, k);
      assert Uses(t, c, i, k);
    }
  }

  lemma LinkTailUses<V>(t: Table<V>, b: nat, at: nat, key: Bytes, block: Option<nat>, value: V)
    requires CanLink(t, b, at)
    ensures var t' := LinkTail(t, b, at, key, block, value);
            forall k: nat :: UsedSomewhere(t', k) ==> UsedSomewhere(t, k) || block == Some(k)
  {
    var t' := LinkTail(t, b, at, key, block, value);
    OtherBuckets(t, t', b);
    forall k: nat | UsedSomewhere(t', k) && block != Some(k) ensures UsedSomewhere(t, k) {
      var c: nat, i: nat :| Uses(t', c, i, k);
      LinkUse(t, b, at, key, block, value, c, i, k);
      assert Uses(t, c, i, k);
    }
  }

  /** t' is t with one entry more at the end of bucket b; nodes in `kept` are untouched. */
  ghost predicate Appends<V>(t: Table<V>, t': Table<V>, freed: set<nat>, b: nat, e: Entry<V>, block: Option<nat>, kept: set<nat>) {
    && WellFormed(t) && WellFormed(t') && BlocksOwned(t', freed) && b < |t.items|
    && Lists(t') == Lists(t)[b := Lists(t)[b] + [e]]
    && ChainsOutside(t', kept)
    && (forall a :: a in t.nodes && a in kept ==> a in t'.nodes && t'.nodes[a] == t.nodes[a])
    && (forall k: nat :: UsedSomewhere(t', k) ==> UsedSomewhere(t, k) || block == Some(k))
  }

  lemma FillHeadAppends<V>(t: Table<V>, freed: set<nat>, b: nat, key: Bytes, block: Option<nat>, value: V, kept: set<nat>)
    requires WellFormed(t) && b < |t.items| && t.items[b].value.None? && ChainsOutside(t, kept)
    requires BlocksOwned(t, freed) && NewBlock(t, freed, block)
    ensures Appends(t, FillHead(t, b, key, block, value), freed, b, Entry(key, value), block, kept)
  {
    var t' := FillHead(t, b, key, block, value);
    FillHeadOK(t, freed, b, key, block, value);
    FillHeadUses(t, b, key, block, value);
    ListsChange(t, t', b, Entry(key, value));
    assert forall c: nat, i: nat :: InChain(t', c, i) ==> InChain(t, c, i);
  }

  lemma LinkTailAppends<V>(t: Table<V>, freed: set<nat>, b: nat, at: nat, key: Bytes, block: Option<nat>, value: V, kept: set<nat>)
    requires CanLink(t, b, at) && at !in kept && ChainsOutside(t, kept)
    requires BlocksOwned(t, freed) && NewBlock(t, freed, block)
    ensures Appends(t, LinkTail(t, b, at, key, block, value), freed, b, Entry(key, value), block, kept)
  {
    var t' := LinkTail(t, b, at, key, block, value);
    LinkTailOK(t, freed, b, at, key, block, value);
    LinkTailUses(t, b, at, key, block, value);
    ListsChange(t, t', b, Entry(key, value));
    LinkAbove(t, b, at, key, block, value, kept);
  }

  lemma LinkAbove<V>(t: Table<V>, b: nat, at: nat, key: Bytes, block: Option<nat>, value: V, kept: set<nat>)
    requires CanLink(t, b, at) && at !in kept && ChainsOutside(t, kept)
    ensures var t' := LinkTail(t, b, at, key, block, value);
            && ChainsOutside(t', kept)
            && (forall a :: a in t.nodes && a in kept ==> a in t'.nodes && t'.nodes[a] == t.nodes[a])
  {
    var t' := LinkTail(t, b, at, key, block, value);
    var n := |t.chains[b]|;
    assert n > 0 ==> InChain(t, b, n - 1);
    forall c: nat, i: nat | InChain(t', c, i) ensures t'.chains[c][i] !in kept {
      assert InChain(t, c, i) || (c == b && i == n);
    }
  }

  lemma ListsChange<V>(t: Table<V>, t': Table<V>, b: nat, e: Entry<V>)
    requires WellFormed(t) && WellFormed(t') && b < |t.items| == |t'.items|
    requires Entries(t', b) == Entries(t, b) + [e]
    requires forall c :: 0 <= c < |t.items| && c != b ==> Entries(t', c) == Entries(t, c)
    ensures Lists(t') == Lists(t)[b := Lists(t)[b] + [e]]
  {
  }

  ghost function Named(block: Option<nat>): set<nat> {
    if block.Some? then {block.value} else {}
  }

  ghost function GivenBack<V>(item: Item<V>): set<nat> {
    Named(item.block)
  }

  /** t' is t without entry i of bucket b. Only a lone head may lie behind the entries: it has lost its
      value already. */
  ghost predicate Removes<V>(t: Table<V>, t': Table<V>, freed: set<nat>, freed': set<nat>, b: nat, i: nat) {
    && WellFormed(t) && WellFormed(t') && BlocksOwned(t', freed') && b < |t.items| && At(t, b, i)
    && Lists(t') == (if i < |Lists(t)[b]| then Lists(t)[b := RemoveAt(Lists(t)[b], i)] else Lists(t))
    && t'.nodes.Keys <= t.nodes.Keys
    && freed' == if t.chains[b] == [] then freed else freed + GivenBack(ItemAt(t, b, i))
  }

  lemma DropRemoves<V>(t: Table<V>, freed: set<nat>, b: nat)
    requires WellFormed(t) && b < |t.items| && t.chains[b] == [] && BlocksOwned(t, freed)
    ensures Removes(t, DropValue(t, b), freed, freed, b, 0)
  {
    DropValueOK(t, freed, b);
    assert BucketOK(t, b);
    var lists, lists' := Lists(t), Lists(DropValue(t, b));
    assert |lists[b]| <= 1 && (lists[b] != [] ==> RemoveAt(lists[b], 0) == []);
    assert lists' == lists[b := []];
    assert lists[b] == [] ==> lists[b := []] == lists;
  }

  lemma ShiftRemoves<V>(t: Table<V>, freed: set<nat>, b: nat)
    requires WellFormed(t) && b < |t.items| && BucketOK(t, b) && t.chains[b] != [] && BlocksOwned(t, freed)
    ensures Removes(t, ShiftHead(t, b), freed, freed + GivenBack(t.items[b]), b, 0)
  {
    ShiftHeadOK(t, freed, b);
    assert Lists(ShiftHead(t, b)) == Lists(t)[b := RemoveAt(Lists(t)[b], 0)];
  }

  lemma CutRemoves<V>(t: Table<V>, freed: set<nat>, b: nat, i: nat)
    requires WellFormed(t) && b < |t.items| && BucketOK(t, b) && 0 < i <= |t.chains[b]| && BlocksOwned(t, freed)
    ensures At(t, b, i) && Removes(t, CutNode(t, b, i), freed, freed + GivenBack(ItemAt(t, b, i)), b, i)
  {
    CutNodeOK(t, freed, b, i);
    assert Lists(CutNode(t, b, i)) == Lists(t)[b := RemoveAt(Lists(t)[b], i)];
  }

  // ---- Growth -----------------------------------------------------------------------------------------

  function Rehashed<V>(entries: seq<Entry<V>>, home: Bytes -> nat, n: nat): seq<seq<Entry<V>>> {
    seq(n, b requires 0 <= b < n => InBucket(entries, home, b))
  }

  /** The occupancy bits growth sets: exactly those of non-empty buckets. */
  function Occupied<V>(entries: seq<Entry<V>>, home: Bytes -> nat, n: nat): set<nat> {
    set b: nat | b < n && |InBucket(entries, home, b)| > 0
  }

  ghost predicate Reached<V>(t: Table<V>, i: nat, pos: nat)
    requires WellFormed(t)
  {
    i <= |t.items| && if i == |t.items| then pos == 0 else pos <= |Lists(t)[i]|
  }

  /** The entries before entry `pos` of bucket i. */
  ghost function Moved<V>(t: Table<V>, i: nat, pos: nat): seq<Entry<V>>
    requires WellFormed(t) && Reached(t, i, pos)
  {
    Flat(Lists(t), i) + if i == |t.items| then [] else Lists(t)[i][..pos]
  }

  lemma MovedNext<V>(t: Table<V>, i: nat, pos: nat)
    requires WellFormed(t) && i < |t.items| && pos < |Lists(t)[i]|
    ensures At(t, i, pos) && ItemAt(t, i, pos).value.Some?
    ensures Moved(t, i, pos + 1) == Moved(t, i, pos) + [EntryOf(ItemAt(t, i, pos))]
  {
    assert BucketOK(t, i);
    assert Lists(t)[i][..pos + 1] == Lists(t)[i][..pos] + [Lists(t)[i][pos]];
  }

  lemma MovedBucket<V>(t: Table<V>, i: nat)
    requires WellFormed(t) && i < |t.items|
    ensures Moved(t, i + 1, 0) == Moved(t, i, |Lists(t)[i]|)
  {
    assert Lists(t)[i][..|Lists(t)[i]|] == Lists(t)[i];
    assert i + 1 < |t.items| ==> Lists(t)[i + 1][..0] == [];
  }

  lemma RehashNext<V>(entries: seq<Entry<V>>, e: Entry<V>, home: Bytes -> nat, n: nat)
    requires home(e.key) < n
    ensures Rehashed(entries + [e], home, n)
         == Rehashed(entries, home, n)[home(e.key) := Rehashed(entries, home, n)[home(e.key)] + [e]]
    ensures Occupied(entries + [e], home, n) == Occupied(entries, home, n) + {home(e.key)}
  {
    var before, now := Rehashed(entries, home, n), Rehashed(entries + [e], home, n);
    forall b: nat | b < n
      ensures now[b] == before[home(e.key) := before[home(e.key)] + [e]][b]
      ensures |InBucket(entries + [e], home, b)| > 0 <==> |InBucket(entries, home, b)| > 0 || b == home(e.key)
    {
      InBucketNext(entries, e, home, b);
      assert InBucket(entries, home, b) + [] == InBucket(entries, home, b);
    }
  }

  /** Key block k belongs to an item of t before entry `pos` of bucket i. */
  ghost predicate UsedBefore<V>(t: Table<V>, i: nat, pos: nat, k: nat) {
    exists c: nat, j: nat :: Uses(t, c, j, k) && (c < i || (c == i && j < pos))
  }

  lemma BlockIsNew<V>(t0: Table<V>, t: Table<V>, freed: set<nat>, i: nat, pos: nat)
    requires BlocksOwned(t0, freed) && At(t0, i, pos)
    requires forall k: nat :: UsedSomewhere(t, k) ==> UsedBefore(t0, i, pos, k)
    ensures NewBlock(t, freed, ItemAt(t0, i, pos).block)
  {
    var block := ItemAt(t0, i, pos).block;
    if block.Some? {
      var k := block.value;
      assert Uses(t0, i, pos, k);
      assert !UsedBefore(t0, i, pos, k);
      forall b: nat, j: nat ensures !Uses(t, b, j, k) {
        assert Uses(t, b, j, k) ==> UsedSomewhere(t, k);
      }
    }
  }

  lemma UsedStep<V>(t0: Table<V>, t: Table<V>, t': Table<V>, i: nat, pos: nat)
    requires At(t0, i, pos)
    requires forall k: nat :: UsedSomewhere(t, k) ==> UsedBefore(t0, i, pos, k)
    requires forall k: nat :: UsedSomewhere(t', k) ==> UsedSomewhere(t, k) || ItemAt(t0, i, pos).block == Some(k)
    ensures forall k: nat :: UsedSomewhere(t', k) ==> UsedBefore(t0, i, pos + 1, k)
  {
    forall k: nat | UsedSomewhere(t', k) ensures UsedBefore(t0, i, pos + 1, k) {
      if ItemAt(t0, i, pos).block == Some(k) {
        assert Uses(t0, i, pos, k);
      } else {
        assert UsedBefore(t0, i, pos, k);
        var c: nat, j: nat :| Uses(t0, c, j, k) && (c < i || (c == i && j < pos));
        assert Uses(t0, c, j, k) && (c < i || (c == i && j < pos + 1));
      }
    }
  }

  lemma {:induction false} RehashTotal<V>(entries: seq<Entry<V>>, home: Bytes -> nat, n: nat)
    requires forall key :: home(key) < n
    ensures Total(Rehashed(entries, home, n)) == |entries|
  {
    if entries == [] {
      NoEntries(Rehashed(entries, home, n));
    } else {
      var last := |entries| - 1;
      var rest, e := entries[..last], entries[last];
      assert entries == rest + [e];
      RehashTotal(rest, home, n);
      RehashNext(rest, e, home, n);
      TotalChange(Rehashed(rest, home, n), Rehashed(entries, home, n), home(e.key));
    }
  }

  lemma {:induction false} NoEntriesTo<V>(lists: seq<seq<Entry<V>>>, n: nat)
    requires n <= |lists| && forall b :: 0 <= b < n ==> lists[b] == []
    ensures TotalTo(lists, n) == 0
  {
    if n > 0 {
      NoEntriesTo(lists, n - 1);
    }
  }

  lemma NoEntries<V>(lists: seq<seq<Entry<V>>>)
    requires forall b :: 0 <= b < |lists| ==> lists[b] == []
    ensures Total(lists) == 0
  {
    NoEntriesTo(lists, |lists|);
  }

  lemma {:induction false} FlatTotal<V>(lists: seq<seq<Entry<V>>>, n: nat)
    requires n <= |lists|
    ensures |Flat(lists, n)| == TotalTo(lists, n)
  {
    if n > 0 {
      FlatTotal(lists, n - 1);
    }
  }

  /** Spreading all entries over new buckets puts each in the bucket of its key. */
  lemma GrowthHome<V>(entries: seq<Entry<V>>, home: Bytes -> nat, n: nat)
    ensures AtHome(Rehashed(entries, home, n), home)
  {
    forall b, i | 0 <= b < n && 0 <= i < |Rehashed(entries, home, n)[b]|
      ensures home(Rehashed(entries, home, n)[b][i].key) == b
    {
      InBucketHome(entries, home, b);
    }
  }

  /** It keeps every key's queue. */
  lemma GrowthQueues<V>(lists: seq<seq<Entry<V>>>, home: Bytes -> nat, home': Bytes -> nat, n: nat, key: Bytes)
    requires AtHome(lists, home) && home(key) < |lists| && home'(key) < n
    ensures Values(Rehashed(Flat(lists, |lists|), home', n)[home'(key)], key) == Values(lists[home(key)], key)
  {
    BucketKeepsValues(Flat(lists, |lists|), home', key);
    FlatValues(lists, home, |lists|, key);
  }

  /** It loses and adds no entry. */
  lemma GrowthTotal<V>(lists: seq<seq<Entry<V>>>, home: Bytes -> nat, n: nat)
    requires forall key :: home(key) < n
    ensures Total(Rehashed(Flat(lists, |lists|), home, n)) == Total(lists)
  {
    RehashTotal(Flat(lists, |lists|), home, n);
    FlatTotal(lists, |lists|);
  }

  // ---- What one insertion or removal does to the queues ----------------------------------------------------

  lemma EnqueuedHome<V>(lists: seq<seq<Entry<V>>>, lists': seq<seq<Entry<V>>>, home: Bytes -> nat, b: nat, e: Entry<V>)
    requires AtHome(lists, home) && b < |lists| && home(e.key) == b && lists' == lists[b := lists[b] + [e]]
    ensures AtHome(lists', home) && Total(lists') == Total(lists) + 1
  {
    TotalChange(lists, lists', b);
    forall c, j | 0 <= c < |lists'| && 0 <= j < |lists'[c]| ensures home(lists'[c][j].key) == c {
      assert (c == b && j == |lists[b]|) || home(lists[c][j].key) == c;
    }
  }

  lemma EnqueuedQueue<V>(list: seq<Entry<V>>, e: Entry<V>, key: Bytes)
    ensures Values(list + [e], key) == Values(list, key) + (if key == e.key then [e.value] else [])
  {
    ValuesAppend(list, [e], key);
    ValuesOne(e, key);
  }

  /** Taking the first entry of a key out of its bucket. */
  ghost predicate Dequeues<V>(lists: seq<seq<Entry<V>>>, lists': seq<seq<Entry<V>>>, home: Bytes -> nat, i: nat, key: Bytes) {
    && AtHome(lists, home) && home(key) < |lists| && i < |lists[home(key)]|
    && lists' == lists[home(key) := RemoveAt(lists[home(key)], i)]
    && lists[home(key)][i].key == key && forall j :: 0 <= j < i ==> lists[home(key)][j].key != key
  }

  lemma DequeuedHome<V>(lists: seq<seq<Entry<V>>>, lists': seq<seq<Entry<V>>>, home: Bytes -> nat, i: nat, key: Bytes)
    requires Dequeues(lists, lists', home, i, key)
    ensures AtHome(lists', home) && Total(lists') == Total(lists) - 1
  {
    var b := home(key);
    TotalChange(lists, lists', b);
    forall c, j | 0 <= c < |lists'| && 0 <= j < |lists'[c]| ensures home(lists'[c][j].key) == c {
      var j' := if c == b && j >= i then j + 1 else j;
      assert lists'[c][j] == lists[c][j'] && home(lists[c][j'].key) == c;
    }
  }

  lemma DequeuedQueue<V>(lists: seq<seq<Entry<V>>>, lists': seq<seq<Entry<V>>>, home: Bytes -> nat, i: nat, key: Bytes, k: Bytes)
    requires Dequeues(lists, lists', home, i, key) && home(k) < |lists|
    ensures Values(lists[home(key)], key) != []
    ensures Values(lists'[home(k)], k) == if k == key then Values(lists[home(key)], key)[1..] else Values(lists[home(k)], k)
  {
    FirstOfKey(lists[home(key)], key, i, k);
  }

  lemma Enqueued<V>(lists: seq<seq<Entry<V>>>, lists': seq<seq<Entry<V>>>, seed: nat, b: nat, e: Entry<V>, queues: imap<Bytes, seq<V>>)
    requires Located(lists, seed) && b == Bucket(e.key, seed, |lists|) && lists' == lists[b := lists[b] + [e]]
    requires Carries(lists, seed, queues)
    ensures Located(lists', seed) && Total(lists') == Total(lists) + 1
    ensures Carries(lists', seed, queues[e.key := queues[e.key] + [e.value]])
  {
    EnqueuedHome(lists, lists', Home(seed, |lists|), b, e);
    var queues' := queues[e.key := queues[e.key] + [e.value]];
    forall key ensures queues'[key] == Values(lists'[Bucket(key, seed, |lists|)], key) {
      EnqueuedQueue(lists[b], e, key);
      assert queues[key] == Values(lists[Bucket(key, seed, |lists|)], key);
    }
  }

  /** Removal of the first entry with the key. */
  lemma Dequeued<V>(lists: seq<seq<Entry<V>>>, lists': seq<seq<Entry<V>>>, seed: nat, i: nat, key: Bytes, queues: imap<Bytes, seq<V>>)
    requires |lists| > 0 && Dequeues(lists, lists', Home(seed, |lists|), i, key) && Carries(lists, seed, queues)
    ensures Located(lists', seed) && Total(lists') == Total(lists) - 1
    ensures queues[key] != [] && Carries(lists', seed, queues[key := queues[key][1..]])
  {
    var home := Home(seed, |lists|);
    DequeuedHome(lists, lists', home, i, key);
    DequeuedQueue(lists, lists', home, i, key, key);
    var queues' := queues[key := queues[key][1..]];
    forall k ensures queues'[k] == Values(lists'[Bucket(k, seed, |lists|)], k) {
      DequeuedQueue(lists, lists', home, i, key, k);
      assert queues[k] == Values(lists[home(k)], k);
    }
  }

  ghost predicate NoMatch<V>(list: seq<Entry<V>>, key: Bytes) {
    forall j :: 0 <= j < |list| ==> list[j].key != key
  }

  lemma NothingQueued<V>(lists: seq<seq<Entry<V>>>, seed: nat, key: Bytes, queues: imap<Bytes, seq<V>>)
    requires |lists| > 0 && Carries(lists, seed, queues)
    requires NoMatch(lists[Bucket(key, seed, |lists|)], key)
    ensures queues[key] == [] && queues[key := []] == queues
  {
    ValuesNone(lists[Bucket(key, seed, |lists|)], key);
  }

  /** Growth keeps every queue and loses no entry. */
  lemma GrowthKeeps<V>(lists: seq<seq<Entry<V>>>, lists': seq<seq<Entry<V>>>, seed: nat, queues: imap<Bytes, seq<V>>)
    requires Located(lists, seed) && |lists'| > 0 && Carries(lists, seed, queues)
    requires lists' == Rehashed(Flat(lists, |lists|), Home(seed, |lists'|), |lists'|)
    ensures Located(lists', seed) && Total(lists') == Total(lists) && Carries(lists', seed, queues)
  {
    var home, home' := Home(seed, |lists|), Home(seed, |lists'|);
    GrowthHome(Flat(lists, |lists|), home', |lists'|);
    GrowthTotal(lists, home', |lists'|);
    forall key ensures queues[key] == Values(lists'[home'(key)], key) {
      GrowthQueues(lists, home, home', |lists'|, key);
    }
  }

  function Increment(n: nat): nat {
    if n == U32 - 1 then 0 else n + 1
  }

  lemma {:induction false} Unused(s: set<nat>)
    ensures exists a: nat :: a !in s && forall b :: b in s ==> b < a
  {
    if s == {} {
      assert 0 !in s;
    } else {
      var x :| x in s;
      Unused(s - {x});
      var a: nat :| a !in s - {x} && forall b :: b in s - {x} ==> b < a;
      var next := if x < a then a else x + 1;
      forall b | b in s ensures b < next {
        assert b == x || b in s - {x};
      }
      assert next !in s && forall b :: b in s ==> b < next;
    }
  }

  /** The new capacity, a 32-bit product. */
  function Quadrupled(n: nat): (m: nat)
    ensures m < U32
  {
    4 * n % U32
  }

  /** The 32-bit counter going down. */
  function Decrement(n: nat): nat {
    if n == 0 then U32 - 1 else n - 1
  }

  function EmptyItem<V>(): Item<V> {
    Item(None, None, [], None)
  }

  class HashMap<V(0)> {
    const seed: nat
    var items: array<Item<V>>
    var nodes: map<nat, Item<V>>
    var size: nat
    var occupation: set<nat>
    ghost var chains: seq<seq<nat>>
    ghost var lists: seq<seq<Entry<V>>>  // the live entries of each bucket, oldest first
    ghost var queues: imap<Bytes, seq<V>>  // the values stored under each key, oldest first
    ghost var count: nat            // number of live entries
    ghost var freed: set<nat>       // key blocks given back

    ghost function Model(): Table<V>
      reads this`items, this`nodes, this`chains, items
    {
      Table(items[..], nodes, chains)
    }

    /** The memory is in order. */
    ghost predicate Sound()
      reads this`items, this`nodes, this`chains, this`lists, this`freed, items
    {
      && WellFormed(Model()) && BlocksOwned(Model(), freed)
      && lists == Lists(Model())
    }

    /** The buckets carry the queues. */
    ghost predicate Queued()
      reads this`items, this`lists, this`queues, this`count
    {
      && 0 < |lists| == items.Length < U32
      && Located(lists, seed) && Carries(lists, seed, queues) && count == Total(lists)
    }

    ghost predicate Valid()
      reads this, items
    {
      Whole(Sound()) && Whole(Queued()) && size < U32
    }

    /** `size` counts the live entries. */
    ghost predicate Exact()
      reads this`size, this`count
    {
      size == count
    }

    /** The occupancy bits are those of the non-empty buckets. */
    ghost predicate OccupiedExactly()
      reads this`occupation, this`lists
    {
      forall b: nat :: b in occupation <==> b < |lists| && lists[b] != []
    }

    constructor (seed: nat, capacity: nat)
      requires 0 < capacity < U32
      ensures Valid() && fresh(items) && items.Length == capacity && this.seed == seed && freed == {}
      ensures forall key :: key in queues && queues[key] == []
      ensures size == count == 0 && occupation == {}
    {
      this.seed := seed;
      items := new Item<V>[capacity](_ => EmptyItem());
      nodes, size, occupation := map[], 0, {};
      chains := seq(capacity, _ => []);
      lists := seq(capacity, _ => []);
      queues, count := imap key: Bytes {:trigger Values<V>([], key)} :: Values([], key), 0;
      freed := {};
      new;
      NoEntries(lists);
    }

    method GetKey(key: Bytes) returns (b: nat)
      requires items.Length > 0
      ensures b == Bucket(key, seed, items.Length) && b < items.Length
    {
      var h := HashLoop(key, seed);
      HashBound(key, seed);
      ProductIs(h, items.Length);
      b := h * items.Length / WORD;
    }

    /** hashmap_get: the oldest live value, NULL if there is none. */
    method Get(key: Bytes) returns (r: Option<V>)
      requires Valid()
      ensures r == if queues[key] == [] then None else Some(queues[key][0])
    {
      var b := GetKey(key);
      var item := items[b];
      ghost var i := 0;
      ghost var t := Model();
      assert BucketOK(t, b);
      while true
        invariant 0 <= i <= |t.chains[b]| && At(t, b, i) && item == ItemAt(t, b, i)
        invariant forall j :: 0 <= j < i ==> j < |Entries(t, b)| && Entries(t, b)[j].key != key
        decreases |t.chains[b]| - i
      {
        if item.key == key {
          if item.value.Some? {
            FirstOfKey(Entries(t, b), key, i, key);
          }
          return item.value;
        }
        if item.next.None? {
          ValuesNone(Entries(t, b), key);
          return None;
        }
        item := nodes[item.next.value];
        i := i + 1;
      }
    }
  
    /** Append an entry to a bucket: an empty head takes it, otherwise a new node goes behind the last
        item. */
    method Link(b: nat, key: Bytes, block: Option<nat>, value: V, ghost kept: set<nat>)
      requires Sound() && b < items.Length && NewBlock(Model(), freed, block)
      requires kept <= nodes.Keys && ChainsOutside(Model(), kept)
      modifies this`nodes, this`chains, this`lists, items
      ensures Sound() && kept <= nodes.Keys
      ensures Appends(old(Model()), Model(), freed, b, Entry(key, value), block, kept)
      ensures lists == old(lists)[b := old(lists)[b] + [Entry(key, value)]]
    {
      ghost var t := Model();
      assert BucketOK(t, b);
      if items[b].value.None? {
        FillHeadAppends(t, freed, b, key, block, value, kept);
        items[b] := Item(None, block, key, Some(value));
        assert Model() == FillHead(t, b, key, block, value);
        lists := Lists(Model());
      } else {
        LinkBehind(b, key, block, value, kept);
      }
    }

    /** The node pool hands out any address that is not in use, earlier ones included. */
    method NewNode() returns (at: nat)
      ensures at !in nodes
    {
      Unused(nodes.Keys);
      at :| at !in nodes;
    }

    /** A new node behind the last item of a bucket that holds entries. */
    method LinkBehind(b: nat, key: Bytes, block: Option<nat>, value: V, ghost kept: set<nat>)
      requires Sound() && b < items.Length && items[b].value.Some? && NewBlock(Model(), freed, block)
      requires kept <= nodes.Keys && ChainsOutside(Model(), kept)
      modifies this`nodes, this`chains, this`lists, items
      ensures Sound() && kept <= nodes.Keys
      ensures Appends(old(Model()), Model(), freed, b, Entry(key, value), block, kept)
      ensures lists == old(lists)[b := old(lists)[b] + [Entry(key, value)]]
    {
      ghost var t := Model();
      assert BucketOK(t, b);
      var at := NewNode();
      var last := FindLast(b);
      LinkTailAppends(t, freed, b, at, key, block, value, kept);
      if last.None? {
        items[b] := items[b].(next := Some(at));
      } else {
        nodes := nodes[last.value := nodes[last.value].(next := Some(at))];
      }
      nodes := nodes[at := Item(None, block, key, Some(value))];
      chains := chains[b := chains[b] + [at]];
      assert Model() == LinkTail(t, b, at, key, block, value);
      lists := Lists(Model());
    }

    /** Walk to the last item of a bucket: the head (None) or a node. */
    method FindLast(b: nat) returns (last: Option<nat>)
      requires WellFormed(Model()) && b < items.Length
      ensures last == if chains[b] == [] then None else Some(chains[b][|chains[b]| - 1])
    {
      ghost var t := Model();
      assert BucketOK(t, b);
      last := None;
      var next := items[b].next;
      assert next == ItemAt(t, b, 0).next;
      ghost var i := 0;
      while next.Some?
        invariant 0 <= i <= |t.chains[b]| && last == if i == 0 then None else Some(t.chains[b][i - 1])
        invariant next == if i < |t.chains[b]| then Some(t.chains[b][i]) else None
        decreases |t.chains[b]| - i
      {
        last := next;
        i := i + 1;
        assert ItemAt(t, b, i) == nodes[last.value];
        next := nodes[last.value].next;
      }
    }
  
    /** Growth is under way: the first i buckets of t0, and `pos` entries of the next, have been moved. */
    ghost predicate Rehashing(t0: Table<V>, i: nat, pos: nat)
      reads this, items
    {
      && WellFormed(t0) && BlocksOwned(t0, freed) && Reached(t0, i, pos)
      && Sound() && ChainsOutside(Model(), t0.nodes.Keys)
      && (forall a :: a in t0.nodes ==> a in nodes && nodes[a] == t0.nodes[a])
      && var moved := Moved(t0, i, pos);
      && lists == Rehashed(moved, Home(seed, items.Length), items.Length)
      && occupation == Occupied(moved, Home(seed, items.Length), items.Length)
      && (forall k: nat :: UsedSomewhere(Model(), k) ==> UsedBefore(t0, i, pos, k))
    }

    /** Move one entry of the old table. */
    method MoveOne(item: Item<V>, ghost t0: Table<V>, ghost i: nat, ghost pos: nat)
      requires OldItem(t0, i, pos, item) && Rehashing(t0, i, pos)
      modifies this`nodes, this`chains, this`lists, this`occupation, items
      ensures Rehashing(t0, i, pos + 1)
    {
      var b := GetKey(item.key);
      ghost var home, n := Home(seed, items.Length), items.Length;
      ghost var moved, e := Moved(t0, i, pos), EntryOf(item);
      ghost var t := Model();
      BlockIsNew(t0, t, freed, i, pos);
      MovedNext(t0, i, pos);
      RehashNext(moved, e, home, n);
      occupation := occupation + {b};
      Link(b, item.key, item.block, item.value.value, t0.nodes.Keys);
      UsedStep(t0, t, Model(), i, pos);
    }

    lemma NextBucket(t0: Table<V>, i: nat)
      requires WellFormed(t0) && i < |t0.items| && Rehashing(t0, i, |Lists(t0)[i]|)
      ensures Rehashing(t0, i + 1, 0)
    {
      MovedBucket(t0, i);
      forall k: nat | UsedBefore(t0, i, |Lists(t0)[i]|, k) ensures UsedBefore(t0, i + 1, 0, k) {
        var c: nat, j: nat :| Uses(t0, c, j, k) && (c < i || (c == i && j < |Lists(t0)[i]|));
        assert Uses(t0, c, j, k) && (c < i + 1 || (c == i + 1 && j < 0));
      }
    }

    /** Growth leaves the old chains readable: following an old item's link leads to the old successor. */
    lemma Successor(t0: Table<V>, i: nat, pos: nat)
      requires WellFormed(t0) && i < |t0.items| && pos < |Lists(t0)[i]| && At(t0, i, pos)
      requires Rehashing(t0, i, pos + 1)
      ensures var next := ItemAt(t0, i, pos).next;
              if next.None? then pos + 1 == |Lists(t0)[i]|
              else next.value in nodes && OldItem(t0, i, pos + 1, nodes[next.value])
    {
      assert BucketOK(t0, i);
    }

    /** Item `pos` of an old bucket, which holds an entry. */
    static ghost predicate OldItem(t0: Table<V>, i: nat, pos: nat, item: Item<V>) {
      && WellFormed(t0) && i < |t0.items| && pos < |Lists(t0)[i]|
      && At(t0, i, pos) && item == ItemAt(t0, i, pos) && item.value.Some?
    }

    /** Move the entries of one old bucket. */
    method MoveBucket(head: Item<V>, ghost t0: Table<V>, ghost i: nat)
      requires OldItem(t0, i, 0, head) && Rehashing(t0, i, 0)
      modifies this`nodes, this`chains, this`lists, this`occupation, items
      ensures Rehashing(t0, i + 1, 0)
    {
      var item := head;
      ghost var pos := 0;
      while true
        invariant OldItem(t0, i, pos, item) && Rehashing(t0, i, pos)
        decreases |Lists(t0)[i]| - pos
      {
        MoveOne(item, t0, i, pos);
        Successor(t0, i, pos);
        pos := pos + 1;
        if item.next.None? {
          break;
        }
        item := nodes[item.next.value];
      }
      NextBucket(t0, i);
    }

    lemma Whether(t0: Table<V>, i: nat)
      requires Rehashing(t0, i, 0) && i < |t0.items|
      ensures if t0.items[i].value.Some? then OldItem(t0, i, 0, t0.items[i]) else Rehashing(t0, i + 1, 0)
    {
      assert BucketOK(t0, i);
      if t0.items[i].value.None? {
        NextBucket(t0, i);
      }
    }

    lemma EmptyTable(t0: Table<V>)
      requires WellFormed(t0) && BlocksOwned(t0, freed) && t0.nodes == nodes && items.Length > 0
      requires occupation == {}
      requires (forall b :: 0 <= b < items.Length ==> items[b] == EmptyItem()) && chains == seq(items.Length, _ => [])
      requires lists == seq(items.Length, _ => [])
      ensures Rehashing(t0, 0, 0)
    {
      var t := Model();
      forall b | 0 <= b < |t.items| ensures BucketOK(t, b) {
        assert t.chains[b] == [];
      }
      assert forall b: nat, i: nat, k: nat :: !Uses(t, b, i, k);
      assert Moved(t0, 0, 0) == [];
    }

    /** The end of the copying loop. */
    lemma Refilled(t0: Table<V>)
      requires WellFormed(t0) && Rehashing(t0, |t0.items|, 0)
      ensures lists == Rehashed(Flat(Lists(t0), |t0.items|), Home(seed, items.Length), items.Length)
      ensures OccupiedExactly()
    {
      var flat, n := Flat(Lists(t0), |t0.items|), items.Length;
      assert Moved(t0, |t0.items|, 0) == flat;
      forall b: nat | b < n ensures lists[b] == InBucket(flat, Home(seed, n), b) {
        assert lists[b] == Rehashed(flat, Home(seed, n), n)[b];
      }
    }

    /** Move one old bucket, if it holds anything. */
    method MoveHead(head: Item<V>, ghost t0: Table<V>, ghost i: nat)
      requires Whole(Rehashing(t0, i, 0)) && i < |t0.items| && head == t0.items[i]
      modifies this`nodes, this`chains, this`lists, this`occupation, items
      ensures Whole(Rehashing(t0, i + 1, 0))
    {
      Whether(t0, i);
      if head.value.Some? {
        MoveBucket(head, t0, i);
      }
    }

    /** The copying loop of hashmap_resize. */
    method Refill(before: array<Item<V>>, ghost t0: Table<V>)
      requires before != items && before[..] == t0.items && Whole(Rehashing(t0, 0, 0))
      modifies this`nodes, this`chains, this`lists, this`occupation, items
      ensures Whole(Rehashing(t0, before.Length, 0))
    {
      for i := 0 to before.Length
        invariant Whole(Rehashing(t0, i, 0))
        invariant before.Length == |t0.items| && forall j :: 0 <= j < before.Length ==> before[j] == t0.items[j]
      {
        MoveHead(before[i], t0, i);
      }
    }

    /** Set up four times as many buckets (on 32 bits) and link every entry again. */
    method Rebuild()
      requires Sound() && |lists| == items.Length > 0 && Quadrupled(|lists|) > 0
      modifies this`items, this`nodes, this`chains, this`lists, this`occupation
      ensures Sound() && OccupiedExactly() && fresh(items) && items.Length == Quadrupled(|old(lists)|)
      ensures lists == Rehashed(Flat(old(lists), |old(lists)|), Home(seed, items.Length), items.Length)
    {
      ghost var t0 := Model();
      var before := items;
      items := new Item<V>[Quadrupled(before.Length)](_ => EmptyItem());
      occupation := {};
      chains := seq(items.Length, _ => []);
      lists := seq(items.Length, _ => []);
      EmptyTable(t0);
      Refill(before, t0);
      Refilled(t0);
    }

    /** hashmap_resize: no queue changes, and the occupancy bits become those of the non-empty buckets. */
    method Resize()
      requires Valid() && Quadrupled(items.Length) > 0
      modifies this`items, this`nodes, this`chains, this`lists, this`occupation
      ensures Valid() && fresh(items) && items.Length == Quadrupled(old(items.Length))
      ensures OccupiedExactly()
    {
      ghost var before := lists;
      Rebuild();
      GrowthKeeps(before, lists, seed, queues);
    }

    /** The caller owns the key block again, be it new or one that was given back before. */
    method TakeBlock(block: Option<nat>)
      requires Valid() && NewBlock(Model(), {}, block)
      modifies this`freed
      ensures Valid() && NewBlock(Model(), freed, block) && freed == old(freed) - Named(block)
    {
      freed := freed - Named(block);
    }

    /** hashmap_insert: the value goes to the end of the key's queue. */
    method Insert(key: Bytes, block: Option<nat>, value: V)
      requires Valid() && NewBlock(Model(), {}, block)
      requires Increment(size) >= items.Length ==> Quadrupled(items.Length) > 0
      modifies this`items, this`nodes, this`chains, this`lists, this`queues, this`count, this`occupation, this`size, this`freed, items
      ensures Valid() && (items == old(items) || fresh(items)) && freed == old(freed) - Named(block)
      ensures key in old(queues) && queues == old(queues)[key := old(queues)[key] + [value]]
      ensures size == Increment(old(size)) && count == old(count) + 1
      ensures old(Exact()) ==> (Exact() <==> old(size) != U32 - 1)
      ensures items.Length == if size >= old(items.Length) then Quadrupled(old(items.Length)) else old(items.Length)
      ensures size < old(items.Length) ==> occupation == old(occupation)
      ensures size >= old(items.Length) ==> OccupiedExactly()
    {
      Enter(key, block, value);
      if size >= items.Length {
        Resize();
      }
    }

    /** Insertion up to the growth. */
    method Enter(key: Bytes, block: Option<nat>, value: V)
      requires Valid() && NewBlock(Model(), {}, block)
      modifies this`nodes, this`chains, this`lists, this`queues, this`count, this`size, this`freed, items
      ensures Valid() && freed == old(freed) - Named(block)
      ensures key in old(queues) && queues == old(queues)[key := old(queues)[key] + [value]]
      ensures size == Increment(old(size)) && count == old(count) + 1
    {
      TakeBlock(block);
      var b := GetKey(key);
      Append(b, key, block, value);
      size := Increment(size);
    }

    /** Insertion up to the counter. */
    method Append(b: nat, key: Bytes, block: Option<nat>, value: V)
      requires Valid() && NewBlock(Model(), freed, block) && b == Bucket(key, seed, items.Length)
      modifies this`nodes, this`chains, this`lists, this`queues, this`count, items
      ensures Valid() && count == old(count) + 1
      ensures key in old(queues) && queues == old(queues)[key := old(queues)[key] + [value]]
    {
      ghost var before := lists;
      Link(b, key, block, value, {});
      AddBack(key, value, before);
    }

    ghost method AddBack(key: Bytes, value: V, before: seq<seq<Entry<V>>>)
      requires 0 < |before| == items.Length < U32 && Located(before, seed)
      requires var b := Bucket(key, seed, |before|); lists == before[b := before[b] + [Entry(key, value)]]
      requires Carries(before, seed, queues) && count == Total(before)
      modifies this`queues, this`count
      ensures Queued() && key in old(queues)
      ensures queues == old(queues)[key := old(queues)[key] + [value]] && count == old(count) + 1
    {
      Enqueued(before, lists, seed, Bucket(key, seed, |before|), Entry(key, value), queues);
      queues, count := queues[key := queues[key] + [value]], count + 1;
    }

    /** The address of item i of bucket b; the head has none. */
    ghost function Address(b: nat, i: nat): Option<nat>
      reads this
      requires b < |chains| && i <= |chains[b]|
    {
      if i == 0 then None else Some(chains[b][i - 1])
    }

    /** The search of hashmap_remove: the first item of the bucket with this key and the one before. Behind
        the live entries only a lone head without value can match. */
    method Find(b: nat, key: Bytes) returns (found: bool, prev: Option<nat>, cur: Option<nat>, ghost i: nat)
      requires Sound() && b < items.Length
      ensures b < |lists| && i <= |lists[b]| && i <= |chains[b]|
      ensures forall j :: 0 <= j < i ==> lists[b][j].key != key
      ensures found ==> cur == Address(b, i) && prev == Address(b, if i == 0 then 0 else i - 1)
      ensures found && i < |lists[b]| ==> lists[b][i].key == key
      ensures found && i == 0 ==> items[b].key == key
      ensures found && i == |lists[b]| ==> items[b].value.None? && items[b].key == key
      ensures !found ==> forall j :: 0 <= j < |lists[b]| ==> lists[b][j].key != key
      ensures !found || i < |lists[b]| ==> !(items[b].value.None? && items[b].key == key)
    {
      ghost var t := Model();
      assert BucketOK(t, b) && lists[b] == Entries(t, b);
      prev, cur, i := None, None, 0;
      var item := items[b];
      while true
        invariant i <= |chains[b]| && At(t, b, i) && item == ItemAt(t, b, i)
        invariant cur == Address(b, i) && prev == Address(b, if i == 0 then 0 else i - 1)
        invariant i <= |lists[b]| && forall j :: 0 <= j < i ==> lists[b][j].key != key
        decreases |chains[b]| - i
      {
        assert i < |lists[b]| ==> lists[b][i] == EntryOf(item);
        if item.key == key {
          return true, prev, cur, i;
        }
        if item.next.None? {
          return false, prev, cur, i;
        }
        prev, cur := cur, item.next;
        item := nodes[item.next.value];
        i := i + 1;
      }
    }

    /** The key of a removed entry lies in its bucket's head, which no longer holds a value. */
    ghost predicate Stale(key: Bytes)
      reads this, items
      requires items.Length > 0
    {
      var head := items[Bucket(key, seed, items.Length)];
      head.value.None? && head.key == key
    }

    /** free_hashmap_item_key: a key block may be given back once. */
    method FreeKey(item: Item<V>)
      requires item.block.Some? ==> item.block.value !in freed
      modifies this`freed
      ensures freed == old(freed) + GivenBack(item)
    {
      freed := freed + GivenBack(item);
    }

    /** Take the head out: a lone one keeps its key, otherwise the successor is copied over it. */
    method UnlinkHead(b: nat)
      requires Sound() && b < items.Length
      modifies this`nodes, this`chains, this`lists, this`freed, items
      ensures Sound() && old(freed) <= freed && |old(lists)| == items.Length
      ensures lists == if 0 < |old(lists)[b]| then old(lists)[b := RemoveAt(old(lists)[b], 0)] else old(lists)
      ensures lists[b] == [] ==> items[b].key == old(items[b].key)
    {
      ghost var t := Model();
      assert BucketOK(t, b);
      var next := items[b].next;
      assert next == ItemAt(t, b, 0).next;
      if next.None? {
        DropRemoves(t, freed, b);
        items[b] := items[b].(value := None);
        assert Model() == DropValue(t, b);
        lists := Lists(Model());
      } else {
        ShiftRemoves(t, freed, b);
        assert forall k: nat :: items[b].block == Some(k) ==> Uses(t, b, 0, k);
        FreeKey(items[b]);
        items[b] := nodes[next.value];
        nodes := nodes - {next.value};
        chains := chains[b := chains[b][1..]];
        assert Model() == ShiftHead(t, b);
        lists := Lists(Model());
      }
    }

    /** Take a chain node out and give it back to the pool. */
    method UnlinkNode(b: nat, prev: Option<nat>, cur: nat, ghost i: nat)
      requires Sound() && b < items.Length && 0 < i <= |chains[b]|
      requires Some(cur) == Address(b, i) && prev == Address(b, i - 1)
      modifies this`nodes, this`chains, this`lists, this`freed, items
      ensures Sound() && old(freed) <= freed && |old(lists)| == items.Length
      ensures lists == if i < |old(lists)[b]| then old(lists)[b := RemoveAt(old(lists)[b], i)] else old(lists)
      ensures lists[b] != []
    {
      ghost var t := Model();
      assert BucketOK(t, b);
      CutRemoves(t, freed, b, i);
      var item := nodes[cur];
      assert forall k: nat :: item.block == Some(k) ==> Uses(t, b, i, k);
      FreeKey(item);
      if prev.None? {
        items[b] := items[b].(next := item.next);
      } else {
        nodes := nodes[prev.value := nodes[prev.value].(next := item.next)];
      }
      nodes := nodes - {cur};
      chains := chains[b := chains[b][..i - 1] + chains[b][i..]];
      assert Model() == CutNode(t, b, i);
      lists := Lists(Model());
    }

    method Unlink(b: nat, prev: Option<nat>, cur: Option<nat>, ghost i: nat)
      requires Sound() && b < items.Length && i <= |chains[b]|
      requires cur == Address(b, i) && prev == Address(b, if i == 0 then 0 else i - 1)
      modifies this`nodes, this`chains, this`lists, this`freed, items
      ensures Sound() && old(freed) <= freed && |old(lists)| == items.Length
      ensures lists == if i < |old(lists)[b]| then old(lists)[b := RemoveAt(old(lists)[b], i)] else old(lists)
      ensures lists[b] == [] ==> i == 0 && items[b].key == old(items[b].key)
    {
      if cur.None? {
        UnlinkHead(b);
      } else {
        UnlinkNode(b, prev, cur.value, i);
      }
    }

    /** Search and unlink; `hit` says that the item found was a live entry. */
    method Detach(key: Bytes) returns (found: bool, ghost hit: bool, ghost i: nat)
      requires Sound() && 0 < |lists| == items.Length && Located(lists, seed)
      modifies this`nodes, this`chains, this`lists, this`freed, items
      ensures Sound() && old(freed) <= freed && items.Length == |old(lists)|
      ensures hit ==> found && Dequeues(old(lists), lists, Home(seed, |old(lists)|), i, key)
      ensures !hit ==> lists == old(lists) && NoMatch(lists[Bucket(key, seed, |old(lists)|)], key)
      ensures old(Stale(key)) <==> found && !hit
      ensures Stale(key) <==> found && lists[Bucket(key, seed, items.Length)] == []
    {
      var b := GetKey(key);
      var prev, cur;
      found, prev, cur, i := Find(b, key);
      hit := found && i < |lists[b]|;
      if found {
        Unlink(b, prev, cur, i);
      }
      EmptyHead(b);
    }

    /** A head holds no value exactly when its bucket holds no entry. */
    lemma EmptyHead(b: nat)
      requires Sound() && b < items.Length
      ensures b < |lists| && (items[b].value.None? <==> lists[b] == [])
    {
      assert BucketOK(Model(), b) && lists[b] == Entries(Model(), b);
    }

    /** Removal up to the counter; says whether the search found an item. */
    method Delete(key: Bytes) returns (found: bool)
      requires Valid()
      modifies this`nodes, this`chains, this`lists, this`queues, this`count, this`freed, items
      ensures Valid() && key in old(queues) && old(freed) <= freed
      ensures queues == old(queues)[key := if old(queues)[key] == [] then [] else old(queues)[key][1..]]
      ensures count == old(count) - (if old(queues)[key] == [] then 0 else 1)
      ensures found <==> old(queues)[key] != [] || old(Stale(key))
      ensures old(Stale(key)) ==> old(queues)[key] == []
      ensures Stale(key) <==> found && lists[Bucket(key, seed, |lists|)] == []
    {
      ghost var before, hit, i := lists, false, 0;
      found, hit, i := Detach(key);
      if hit {
        DropFront(key, before, i);
      } else {
        NothingQueued(before, seed, key, queues);
      }
    }

    /** The queues follow the buckets. */
    ghost method DropFront(key: Bytes, before: seq<seq<Entry<V>>>, i: nat)
      requires 0 < |before| == |lists| == items.Length < U32 && Dequeues(before, lists, Home(seed, |before|), i, key)
      requires Carries(before, seed, queues) && count == Total(before)
      modifies this`queues, this`count
      ensures Queued() && key in old(queues) && old(queues)[key] != []
      ensures queues == old(queues)[key := old(queues)[key][1..]] && count == old(count) - 1
    {
      Dequeued(before, lists, seed, i, key, queues);
      queues, count := queues[key := queues[key][1..]], count - 1;
    }

    /** hashmap_remove: the oldest value leaves the key's queue. `size` goes down also where the key is
        stale, and only then does the count stop being exact. The key is stale afterwards exactly when an
        item with it was found and its bucket is now empty. */
    method Remove(key: Bytes)
      requires Valid()
      modifies this`nodes, this`chains, this`lists, this`queues, this`count, this`freed, this`size, items
      ensures Valid() && key in old(queues) && old(freed) <= freed
      ensures queues == old(queues)[key := if old(queues)[key] == [] then [] else old(queues)[key][1..]]
      ensures count == old(count) - (if old(queues)[key] == [] then 0 else 1)
      ensures size == if old(queues)[key] != [] || old(Stale(key)) then Decrement(old(size)) else old(size)
      ensures old(Exact()) ==> (Exact() <==> !old(Stale(key)))
      ensures Stale(key) <==> (old(queues)[key] != [] || old(Stale(key))) && lists[Bucket(key, seed, |lists|)] == []
    {
      var found := Delete(key);
      if found {
        size := Decrement(size);
      }
    }
  }

  lemma {:induction false} TotalAtLeast<V>(lists: seq<seq<Entry<V>>>, b: nat, n: nat)
    requires b < n <= |lists|
    ensures |lists[b]| <= TotalTo(lists, n)
  {
    if b < n - 1 {
      TotalAtLeast(lists, b, n - 1);
    }
  }

  /** The input that makes the count wrong: a key inserted once and removed twice leaves an empty map of size
      2^32 - 1, whatever the key. */
  method RemovedTwice<V(0)>(seed: nat, capacity: nat, key: Bytes, value: V) returns (m: HashMap<V>)
    requires 1 < capacity < U32
    ensures m.Valid() && m.count == 0 && m.size == U32 - 1 && m.items.Length == capacity
  {
    m := Emptied(seed, capacity, key, value);
    m.Remove(key);
  }

  /** Insert and remove: the map is empty and the key stale. */
  method Emptied<V(0)>(seed: nat, capacity: nat, key: Bytes, value: V) returns (m: HashMap<V>)
    requires 1 < capacity < U32
    ensures fresh(m) && fresh(m.items) && m.Valid() && m.items.Length == capacity
    ensures m.count == m.size == 0 && m.Stale(key)
  {
    m := Single(seed, capacity, key, value);
    m.Remove(key);
    TotalAtLeast(m.lists, Bucket(key, m.seed, |m.lists|), |m.lists|);
  }

  method Single<V(0)>(seed: nat, capacity: nat, key: Bytes, value: V) returns (m: HashMap<V>)
    requires 1 < capacity < U32
    ensures fresh(m) && fresh(m.items) && m.Valid() && m.items.Length == capacity
    ensures m.count == m.size == 1 && key in m.queues && m.queues[key] == [value]
  {
    m := new HashMap<V>(seed, capacity);
    m.Insert(key, None, value);
  }
}
