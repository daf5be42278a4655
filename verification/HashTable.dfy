/** The memory of a chained hash map: an array of inline head items and a pool of chain nodes. */
module HashTable {
  import opened Options

  type Byte = x: nat | x < 256

  type Bytes = seq<Byte>

  /** SwiftNetHashMapItem. `block` is the key's memory block, `key` the bytes in it; a NULL value
      marks a head that holds no entry. */
  datatype Item<V> = Item(next: Option<nat>, block: Option<nat>, key: Bytes, value: Option<V>)

  datatype Entry<V> = Entry(key: Bytes, value: V)

  /** `nodes` are the live chain nodes by address; `chains` lists, per bucket, the addresses that follow
      the head. */
  datatype Table<V> = Table(items: seq<Item<V>>, nodes: map<nat, Item<V>>, chains: seq<seq<nat>>)

  predicate At<V>(t: Table<V>, b: nat, i: nat) {
    b < |t.items| && b < |t.chains| && i <= |t.chains[b]| && (i > 0 ==> t.chains[b][i - 1] in t.nodes)
  }

  /** Item i of bucket b: the head, then the chain. */
  function ItemAt<V>(t: Table<V>, b: nat, i: nat): Item<V>
    requires At(t, b, i)
  {
    if i == 0 then t.items[b] else t.nodes[t.chains[b][i - 1]]
  }

  ghost predicate BucketOK<V>(t: Table<V>, b: nat)
    requires b < |t.items| && b < |t.chains|
  {
    && (forall i :: 0 <= i < |t.chains[b]| ==> t.chains[b][i] in t.nodes)
    && (forall i {:trigger ItemAt(t, b, i)} :: 0 <= i <= |t.chains[b]| ==>
          ItemAt(t, b, i).next == if i < |t.chains[b]| then Some(t.chains[b][i]) else None)
    && (forall i {:trigger ItemAt(t, b, i)} :: 0 < i <= |t.chains[b]| ==> ItemAt(t, b, i).value.Some?)
    && (t.items[b].value.None? ==> t.chains[b] == [])
  }

  predicate InChain<V>(t: Table<V>, b: nat, i: nat) {
    b < |t.chains| && i < |t.chains[b]|
  }

  /** No chain node belongs to two places. */
  ghost predicate NodesApart<V>(t: Table<V>) {
    forall b: nat, i: nat, c: nat, j: nat :: InChain(t, b, i) && InChain(t, c, j) ==>
      (t.chains[b][i] == t.chains[c][j] ==> b == c && i == j)
  }

  ghost predicate WellFormed<V>(t: Table<V>) {
    && |t.items| == |t.chains| > 0
    && (forall b :: 0 <= b < |t.items| ==> BucketOK(t, b))
    && NodesApart(t)
  }

  function EntryOf<V>(item: Item<V>): Entry<V>
    requires item.value.Some?
  {
    Entry(item.key, item.value.value)
  }

  /** The live entries of a bucket, oldest first. */
  ghost function Entries<V>(t: Table<V>, b: nat): seq<Entry<V>>
    requires b < |t.items| && b < |t.chains| && BucketOK(t, b)
  {
    if t.items[b].value.None? then []
    else seq(|t.chains[b]| + 1, i requires 0 <= i < |t.chains[b]| + 1 => EntryOf(ItemAt(t, b, i)))
  }

  predicate Uses<V>(t: Table<V>, b: nat, i: nat, block: nat) {
    At(t, b, i) && ItemAt(t, b, i).block == Some(block)
  }

  /** Key blocks are referred to by one item each, and by none once they were given back. */
  ghost predicate BlocksOwned<V>(t: Table<V>, freed: set<nat>) {
    && (forall b: nat, i: nat, c: nat, j: nat, k: nat :: Uses(t, b, i, k) && Uses(t, c, j, k) ==> b == c && i == j)
    && (forall b: nat, i: nat, k: nat :: Uses(t, b, i, k) ==> k !in freed)
  }

  /** A block no item refers to and nobody gave back. */
  ghost predicate NewBlock<V>(t: Table<V>, freed: set<nat>, block: Option<nat>) {
    block.Some? ==> block.value !in freed && forall b: nat, i: nat :: !Uses(t, b, i, block.value)
  }

  // ---- The four ways in which the code rewrites a bucket ------------------------------------------------

  /** An empty head takes the new entry. */
  function FillHead<V>(t: Table<V>, b: nat, key: Bytes, block: Option<nat>, value: V): Table<V>
    requires b < |t.items|
  {
    t.(items := t.items[b := Item(None, block, key, Some(value))])
  }

  /** A bucket whose items are untouched keeps its entries. */
  lemma SameBucket<V>(t: Table<V>, t': Table<V>, c: nat, same: bool)
    requires c < |t.items| && c < |t.chains| && BucketOK(t, c)
    requires c < |t'.items| && c < |t'.chains| && t'.chains[c] == t.chains[c]
    requires forall i :: 0 <= i < |t.chains[c]| ==> t.chains[c][i] in t'.nodes && t'.nodes[t.chains[c][i]] == t.nodes[t.chains[c][i]]
    requires same ==> t'.items[c] == t.items[c]
    ensures same ==> BucketOK(t', c) && Entries(t', c) == Entries(t, c)
  {
    if same {
      assert forall i :: 0 <= i <= |t.chains[c]| ==> ItemAt(t', c, i) == ItemAt(t, c, i);
    }
  }

  /** One item refers to a new block, all others to what they did before. */
  lemma BlocksAdded<V>(t: Table<V>, t': Table<V>, freed: set<nat>, b: nat, i: nat, block: Option<nat>)
    requires BlocksOwned(t, freed) && NewBlock(t, freed, block)
    requires forall c: nat, j: nat, k: nat :: Uses(t', c, j, k) ==> if c == b && j == i then block == Some(k) else Uses(t, c, j, k)
    ensures BlocksOwned(t', freed)
  {
  }

  /** Item i of bucket b went away with its block, those behind it moved up by one. */
  lemma BlocksRemoved<V>(t: Table<V>, t': Table<V>, freed: set<nat>, b: nat, i: nat)
    requires BlocksOwned(t, freed) && At(t, b, i)
    requires forall c: nat, j: nat, k: nat :: Uses(t', c, j, k) ==> Uses(t, c, if c == b && j >= i then j + 1 else j, k)
    ensures BlocksOwned(t', freed + (if ItemAt(t, b, i).block.Some? then {ItemAt(t, b, i).block.value} else {}))
  {
    var freed' := freed + (if ItemAt(t, b, i).block.Some? then {ItemAt(t, b, i).block.value} else {});
    forall c: nat, j: nat, k: nat | Uses(t', c, j, k) ensures k !in freed' {
      var j' := if c == b && j >= i then j + 1 else j;
      assert Uses(t, c, j', k);
      if ItemAt(t, b, i).block == Some(k) {
        assert Uses(t, b, i, k);
      }
    }
  }

  lemma FillHeadOK<V>(t: Table<V>, freed: set<nat>, b: nat, key: Bytes, block: Option<nat>, value: V)
    requires WellFormed(t) && b < |t.items| && t.items[b].value.None?
    requires BlocksOwned(t, freed) && NewBlock(t, freed, block)
    ensures var t' := FillHead(t, b, key, block, value);
            && WellFormed(t') && BlocksOwned(t', freed)
            && Entries(t', b) == Entries(t, b) + [Entry(key, value)]
            && (forall c :: 0 <= c < |t.items| && c != b ==> Entries(t', c) == Entries(t, c))
  {
    var t' := FillHead(t, b, key, block, value);
    assert BucketOK(t, b);
    forall c | 0 <= c < |t'.items| ensures BucketOK(t', c) && (c != b ==> Entries(t', c) == Entries(t, c)) {
      assert BucketOK(t, c);
      SameBucket(t, t', c, c != b);
    }
    assert forall c: nat, j: nat :: InChain(t', c, j) ==> InChain(t, c, j);
    forall c: nat, j: nat, k: nat | Uses(t', c, j, k)
      ensures if c == b && j == 0 then block == Some(k) else Uses(t, c, j, k)
    {
      if c == b && j == 0 {
      } else {
        assert At(t, c, j);
      }
    }
    BlocksAdded(t, t', freed, b, 0, block);
  }

  /** A chain is extended behind its last item by a node at a new address. */
  function LinkTail<V>(t: Table<V>, b: nat, at: nat, key: Bytes, block: Option<nat>, value: V): Table<V>
    requires b < |t.items| && b < |t.chains| && At(t, b, |t.chains[b]|)
  {
    var n := |t.chains[b]|;
    var node := Item(None, block, key, Some(value));
    var chains := t.chains[b := t.chains[b] + [at]];
    if n == 0 then Table(t.items[b := t.items[b].(next := Some(at))], t.nodes[at := node], chains)
    else
      var last := t.chains[b][n - 1];
      Table(t.items, t.nodes[last := t.nodes[last].(next := Some(at))][at := node], chains)
  }

  /** What LinkTail may assume: a non-empty bucket, an address not in use. */
  ghost predicate CanLink<V>(t: Table<V>, b: nat, at: nat) {
    WellFormed(t) && b < |t.items| && BucketOK(t, b) && t.items[b].value.Some? && at !in t.nodes
  }

  /** Buckets whose nodes are not in b's chain are untouched. */
  lemma OtherBuckets<V>(t: Table<V>, t': Table<V>, b: nat)
    requires WellFormed(t) && b < |t.items|
    requires |t'.items| == |t.items| && |t'.chains| == |t.chains|
    requires forall c :: 0 <= c < |t.items| && c != b ==> t'.items[c] == t.items[c] && t'.chains[c] == t.chains[c]
    requires forall a :: a in t.nodes && a !in t.chains[b] ==> a in t'.nodes && t'.nodes[a] == t.nodes[a]
    ensures forall c: nat :: c < |t.items| && c != b ==> BucketOK(t', c) && Entries(t', c) == Entries(t, c)
    ensures forall c: nat :: c != b ==> SameItems(t, t', c)
  {
    forall c: nat | c < |t.items| && c != b
      ensures BucketOK(t', c) && Entries(t', c) == Entries(t, c) && SameItems(t, t', c)
    {
      assert BucketOK(t, c);
      forall i | 0 <= i < |t.chains[c]| ensures t.chains[c][i] !in t.chains[b] {
        assert InChain(t, c, i);
        assert forall j: nat :: j < |t.chains[b]| ==> InChain(t, b, j);
      }
      SameBucket(t, t', c, true);
    }
  }

  lemma LinkItem<V>(t: Table<V>, b: nat, at: nat, key: Bytes, block: Option<nat>, value: V, i: nat)
    requires CanLink(t, b, at) && i <= |t.chains[b]|
    ensures var t' := LinkTail(t, b, at, key, block, value);
            var n := |t.chains[b]|;
            && At(t', b, i) && At(t, b, i)
            && ItemAt(t', b, i) == ItemAt(t, b, i).(next := if i == n then Some(at) else ItemAt(t, b, i).next)
  {
    var n := |t.chains[b]|;
    if 0 < i {
      assert InChain(t, b, i - 1) && InChain(t, b, n - 1);
      assert t.chains[b][i - 1] in t.nodes;
    }
  }

  lemma LinkNew<V>(t: Table<V>, b: nat, at: nat, key: Bytes, block: Option<nat>, value: V)
    requires CanLink(t, b, at)
    ensures var t' := LinkTail(t, b, at, key, block, value);
            var n := |t.chains[b]|;
            At(t', b, n + 1) && ItemAt(t', b, n + 1) == Item(None, block, key, Some(value))
  {
  }

  lemma LinkBucket<V>(t: Table<V>, b: nat, at: nat, key: Bytes, block: Option<nat>, value: V)
    requires CanLink(t, b, at)
    ensures var t' := LinkTail(t, b, at, key, block, value);
            BucketOK(t', b) && Entries(t', b) == Entries(t, b) + [Entry(key, value)]
  {
    var t' := LinkTail(t, b, at, key, block, value);
    var n := |t.chains[b]|;
    LinkNew(t, b, at, key, block, value);
    forall i: nat | i <= n
      ensures At(t', b, i) && At(t, b, i)
      ensures ItemAt(t', b, i) == ItemAt(t, b, i).(next := if i == n then Some(at) else ItemAt(t, b, i).next)
    {
      LinkItem(t, b, at, key, block, value, i);
    }
    assert |t'.chains[b]| == n + 1 && t'.chains[b][n] == at && t'.chains[b][..n] == t.chains[b];
    forall i | 0 <= i < n + 1 ensures t'.chains[b][i] in t'.nodes {
      assert At(t', b, i + 1);
    }
    forall i: nat | i <= n + 1
      ensures ItemAt(t', b, i).next == if i < n + 1 then Some(t'.chains[b][i]) else None
      ensures i > 0 ==> ItemAt(t', b, i).value.Some?
    {
    }
    assert t'.items[b].value == t.items[b].value by {
      assert ItemAt(t', b, 0).value == ItemAt(t, b, 0).value;
    }
  }

  lemma LinkApart<V>(t: Table<V>, t': Table<V>, b: nat, at: nat)
    requires CanLink(t, b, at) && t'.chains == t.chains[b := t.chains[b] + [at]]
    ensures NodesApart(t')
  {
    var n := |t.chains[b]|;
    forall c: nat, i: nat | InChain(t', c, i) ensures t'.chains[c][i] == at <==> c == b && i == n {
      if !(c == b && i == n) {
        assert InChain(t, c, i) && BucketOK(t, c);
      }
    }
    forall c: nat, i: nat, d: nat, j: nat | InChain(t', c, i) && InChain(t', d, j) && t'.chains[c][i] == t'.chains[d][j]
      ensures c == d && i == j
    {
      if t'.chains[c][i] != at {
        assert InChain(t, c, i) && InChain(t, d, j);
      }
    }
  }

  lemma LinkUse<V>(t: Table<V>, b: nat, at: nat, key: Bytes, block: Option<nat>, value: V, c: nat, j: nat, k: nat)
    requires CanLink(t, b, at) && Uses(LinkTail(t, b, at, key, block, value), c, j, k)
    requires c != b ==> SameItems(t, LinkTail(t, b, at, key, block, value), c)
    ensures if c == b && j == |t.chains[b]| + 1 then block == Some(k) else Uses(t, c, j, k)
  {
    if c == b {
      if j == |t.chains[b]| + 1 {
        LinkNew(t, b, at, key, block, value);
      } else {
        LinkItem(t, b, at, key, block, value, j);
      }
    }
  }

  /** Bucket c has the same items in both. */
  ghost predicate SameItems<V>(t: Table<V>, t': Table<V>, c: nat) {
    forall i: nat :: At(t', c, i) ==> At(t, c, i) && ItemAt(t', c, i) == ItemAt(t, c, i)
  }

  lemma LinkTailOK<V>(t: Table<V>, freed: set<nat>, b: nat, at: nat, key: Bytes, block: Option<nat>, value: V)
    requires CanLink(t, b, at) && BlocksOwned(t, freed) && NewBlock(t, freed, block)
    ensures var t' := LinkTail(t, b, at, key, block, value);
            && WellFormed(t') && BlocksOwned(t', freed)
            && Entries(t', b) == Entries(t, b) + [Entry(key, value)]
            && (forall c :: 0 <= c < |t.items| && c != b ==> Entries(t', c) == Entries(t, c))
  {
    var t' := LinkTail(t, b, at, key, block, value);
    OtherBuckets(t, t', b);
    LinkBucket(t, b, at, key, block, value);
    LinkApart(t, t', b, at);
    forall c: nat, j: nat, k: nat | Uses(t', c, j, k)
      ensures if c == b && j == |t.chains[b]| + 1 then block == Some(k) else Uses(t, c, j, k)
    {
      LinkUse(t, b, at, key, block, value, c, j, k);
    }
    BlocksAdded(t, t', freed, b, |t.chains[b]| + 1, block);
  }

  function RemoveAt<T>(s: seq<T>, i: nat): seq<T>
    requires i < |s|
  {
    s[..i] + s[i + 1..]
  }

  /** A head without successor only loses its value; key and block stay behind. */
  function DropValue<V>(t: Table<V>, b: nat): Table<V>
    requires b < |t.items|
  {
    t.(items := t.items[b := t.items[b].(value := None)])
  }

  lemma DropValueOK<V>(t: Table<V>, freed: set<nat>, b: nat)
    requires WellFormed(t) && b < |t.items| && t.chains[b] == [] && BlocksOwned(t, freed)
    ensures var t' := DropValue(t, b);
            && WellFormed(t') && BlocksOwned(t', freed)
            && Entries(t', b) == []
            && (forall c :: 0 <= c < |t.items| && c != b ==> Entries(t', c) == Entries(t, c))
  {
    var t' := DropValue(t, b);
    assert BucketOK(t, b) && ItemAt(t, b, 0).next == None;
    forall c | 0 <= c < |t'.items| ensures BucketOK(t', c) && (c != b ==> Entries(t', c) == Entries(t, c)) {
      assert BucketOK(t, c);
      SameBucket(t, t', c, c != b);
    }
    assert forall c: nat, j: nat :: InChain(t', c, j) ==> InChain(t, c, j);
    forall c: nat, j: nat, k: nat | Uses(t', c, j, k) ensures Uses(t, c, j, k) {
      assert At(t, c, j);
    }
  }

  /** A head with a successor is overwritten by it, and the successor's node goes back to the pool. */
  function ShiftHead<V>(t: Table<V>, b: nat): Table<V>
    requires b < |t.items| && b < |t.chains| && |t.chains[b]| > 0 && t.chains[b][0] in t.nodes
  {
    var next := t.chains[b][0];
    Table(t.items[b := t.nodes[next]], t.nodes - {next}, t.chains[b := t.chains[b][1..]])
  }

  /** Any later item is unlinked from its predecessor and its node goes back to the pool. */
  function CutNode<V>(t: Table<V>, b: nat, i: nat): Table<V>
    requires 0 < i && At(t, b, i) && At(t, b, i - 1)
  {
    var cur := t.chains[b][i - 1];
    var next := ItemAt(t, b, i).next;
    var chains := t.chains[b := t.chains[b][..i - 1] + t.chains[b][i..]];
    if i == 1 then Table(t.items[b := t.items[b].(next := next)], t.nodes - {cur}, chains)
    else
      var prev := t.chains[b][i - 2];
      Table(t.items, t.nodes[prev := t.nodes[prev].(next := next)] - {cur}, chains)
  }

  /** Bucket b of t' is that of t with item i taken out. */
  ghost predicate TakenOut<V>(t: Table<V>, t': Table<V>, b: nat, i: nat)
    requires b < |t.items| && b < |t.chains| && BucketOK(t, b) && i <= |t.chains[b]|
  {
    && b < |t'.items| && b < |t'.chains| && |t'.chains[b]| == |t.chains[b]| - 1
    && (forall j :: 0 <= j <= |t'.chains[b]| ==>
          && At(t', b, j)
          && var j' := if j < i then j else j + 1;
          ItemAt(t', b, j).key == ItemAt(t, b, j').key && ItemAt(t', b, j).value == ItemAt(t, b, j').value
          && ItemAt(t', b, j).block == ItemAt(t, b, j').block
          && ItemAt(t', b, j).next == if j < |t'.chains[b]| then Some(t'.chains[b][j]) else None)
  }

  lemma TakenOutBucket<V>(t: Table<V>, t': Table<V>, b: nat, i: nat)
    requires b < |t.items| && b < |t.chains| && BucketOK(t, b) && i <= |t.chains[b]| && t.items[b].value.Some?
    requires |t.chains[b]| > 0 && TakenOut(t, t', b, i)
    ensures BucketOK(t', b) && Entries(t', b) == RemoveAt(Entries(t, b), i)
  {
    forall j | 0 <= j < |t'.chains[b]| ensures t'.chains[b][j] in t'.nodes {
      assert At(t', b, j + 1);
    }
    forall j: nat | j <= |t'.chains[b]| ensures ItemAt(t', b, j).value.Some? {
      var j' := if j < i then j else j + 1;
      assert j' == 0 || ItemAt(t, b, j').value.Some?;
    }
    assert ItemAt(t', b, 0) == t'.items[b];
    TakenOutEntries(t, t', b, i);
  }

  lemma TakenOutEntries<V>(t: Table<V>, t': Table<V>, b: nat, i: nat)
    requires b < |t.items| && b < |t.chains| && BucketOK(t, b) && i <= |t.chains[b]| && t.items[b].value.Some?
    requires |t.chains[b]| > 0 && TakenOut(t, t', b, i) && BucketOK(t', b) && t'.items[b].value.Some?
    ensures Entries(t', b) == RemoveAt(Entries(t, b), i)
  {
    var before, now := Entries(t, b), Entries(t', b);
    assert |now| == |before| - 1;
    forall j | 0 <= j < |now| ensures now[j] == RemoveAt(before, i)[j] {
      var j' := if j < i then j else j + 1;
      assert now[j] == EntryOf(ItemAt(t', b, j)) && before[j'] == EntryOf(ItemAt(t, b, j'));
    }
  }

  lemma TakenOutBlocks<V>(t: Table<V>, t': Table<V>, freed: set<nat>, b: nat, i: nat)
    requires b < |t.items| && b < |t.chains| && BucketOK(t, b) && i <= |t.chains[b]|
    requires |t.chains[b]| > 0 && TakenOut(t, t', b, i) && BlocksOwned(t, freed)
    requires forall c: nat :: c != b ==> SameItems(t, t', c)
    ensures At(t, b, i)
    ensures BlocksOwned(t', freed + (if ItemAt(t, b, i).block.Some? then {ItemAt(t, b, i).block.value} else {}))
  {
    forall c: nat, j: nat, k: nat | Uses(t', c, j, k)
      ensures Uses(t, c, if c == b && j >= i then j + 1 else j, k)
    {
      assert At(t', c, j);
      if c != b {
        assert SameItems(t, t', c);
      }
    }
    BlocksRemoved(t, t', freed, b, i);
  }

  lemma ApartSub<V>(t: Table<V>, t': Table<V>, b: nat, i: nat)
    requires NodesApart(t) && b < |t.chains| && i < |t.chains[b]| && t'.chains == t.chains[b := RemoveAt(t.chains[b], i)]
    ensures NodesApart(t')
  {
    forall c: nat, j: nat | InChain(t', c, j)
      ensures var j' := if c == b && j >= i then j + 1 else j; InChain(t, c, j') && t'.chains[c][j] == t.chains[c][j']
    {
    }
  }

  lemma ShiftHeadOK<V>(t: Table<V>, freed: set<nat>, b: nat)
    requires WellFormed(t) && b < |t.items| && BucketOK(t, b) && |t.chains[b]| > 0 && BlocksOwned(t, freed)
    ensures var t' := ShiftHead(t, b);
            && WellFormed(t') && Entries(t', b) == RemoveAt(Entries(t, b), 0)
            && BlocksOwned(t', freed + (if t.items[b].block.Some? then {t.items[b].block.value} else {}))
            && (forall c :: 0 <= c < |t.items| && c != b ==> Entries(t', c) == Entries(t, c))
  {
    var t' := ShiftHead(t, b);
    ShiftTaken(t, b);
    OtherBuckets(t, t', b);
    TakenOutBucket(t, t', b, 0);
    TakenOutBlocks(t, t', freed, b, 0);
    assert t.chains[b][1..] == RemoveAt(t.chains[b], 0);
    ApartSub(t, t', b, 0);
  }

  lemma ShiftTaken<V>(t: Table<V>, b: nat)
    requires WellFormed(t) && b < |t.items| && BucketOK(t, b) && |t.chains[b]| > 0
    ensures TakenOut(t, ShiftHead(t, b), b, 0)
  {
    var t' := ShiftHead(t, b);
    forall j: nat | j <= |t'.chains[b]| ensures At(t', b, j) && ItemAt(t', b, j) == ItemAt(t, b, j + 1) {
      if j > 0 {
        assert InChain(t, b, 0) && InChain(t, b, j);
        assert t.chains[b][j] in t.nodes;
      }
    }
  }

  lemma CutNodeOK<V>(t: Table<V>, freed: set<nat>, b: nat, i: nat)
    requires WellFormed(t) && b < |t.items| && BucketOK(t, b) && 0 < i <= |t.chains[b]| && BlocksOwned(t, freed)
    ensures var t' := CutNode(t, b, i);
            && WellFormed(t') && Entries(t', b) == RemoveAt(Entries(t, b), i)
            && BlocksOwned(t', freed + (if ItemAt(t, b, i).block.Some? then {ItemAt(t, b, i).block.value} else {}))
            && (forall c :: 0 <= c < |t.items| && c != b ==> Entries(t', c) == Entries(t, c))
  {
    var t' := CutNode(t, b, i);
    CutTaken(t, b, i);
    OtherBuckets(t, t', b);
    TakenOutBucket(t, t', b, i);
    TakenOutBlocks(t, t', freed, b, i);
    assert t.chains[b][..i - 1] + t.chains[b][i..] == RemoveAt(t.chains[b], i - 1);
    ApartSub(t, t', b, i - 1);
  }

  lemma CutTaken<V>(t: Table<V>, b: nat, i: nat)
    requires WellFormed(t) && b < |t.items| && BucketOK(t, b) && 0 < i <= |t.chains[b]|
    ensures TakenOut(t, CutNode(t, b, i), b, i)
  {
    var t' := CutNode(t, b, i);
    forall j: nat | j <= |t'.chains[b]|
      ensures At(t', b, j)
      ensures var j' := if j < i then j else j + 1;
              && ItemAt(t', b, j).key == ItemAt(t, b, j').key && ItemAt(t', b, j).value == ItemAt(t, b, j').value
              && ItemAt(t', b, j).block == ItemAt(t, b, j').block
              && ItemAt(t', b, j).next == if j < |t'.chains[b]| then Some(t'.chains[b][j]) else None
    {
      CutItem(t, b, i, j);
    }
  }

  lemma CutItem<V>(t: Table<V>, b: nat, i: nat, j: nat)
    requires WellFormed(t) && b < |t.items| && BucketOK(t, b) && 0 < i <= |t.chains[b]| && j < |t.chains[b]|
    ensures var t' := CutNode(t, b, i);
            var j' := if j < i then j else j + 1;
            && At(t', b, j) && At(t, b, j') && At(t, b, i)
            && ItemAt(t', b, j) == ItemAt(t, b, j').(next := if j == i - 1 then ItemAt(t, b, i).next else ItemAt(t, b, j').next)
  {
    var j' := if j < i then j else j + 1;
    if j > 0 {
      assert InChain(t, b, i - 1) && InChain(t, b, j' - 1) && (i > 1 ==> InChain(t, b, i - 2));
    }
  }
}
