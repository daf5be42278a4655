/** What a hash map means: a queue of values per key, and how buckets carry it. */
module HashSpec {
  import opened HashTable
  import opened Words

  const WORD := 0x1_0000_0000_0000_0000
  const U32 := 0x1_0000_0000

  /** A double word. */
  datatype Wide = Wide(high: nat, low: nat)

  function Sum(w: Wide, a: nat): Wide {
    if w.low + a < WORD then Wide(w.high, w.low + a) else Wide(w.high + 1, w.low + a - WORD)
  }

  /** The 128-bit product of two words, by repeated addition. */
  function Product(a: nat, b: nat): Wide {
    if b == 0 then Wide(0, 0) else Sum(Product(a, b - 1), a)
  }

  lemma {:induction false} ProductIs(a: nat, b: nat)
    requires a < WORD
    ensures Product(a, b).high == a * b / WORD && Product(a, b).low == a * b % WORD
  {
    if b > 0 {
      ProductIs(a, b - 1);
      assert a * b == a * (b - 1) + a;
    }
  }

  lemma {:induction false} XorZero(a: nat)
    ensures Xor(a, 0) == a
  {
    if a > 0 {
      XorZero(a / 2);
    }
  }

  lemma {:induction false} XorBound(a: nat, b: nat, m: nat, n: nat)
    requires a < m * Pow2(n) && b < Pow2(n)
    ensures Xor(a, b) < m * Pow2(n)
  {
    if n == 0 {
      XorZero(a);
    } else {
      assert m * Pow2(n) == 2 * (m * Pow2(n - 1));
      XorBound(a / 2, b / 2, m, n - 1);
    }
  }

  /** A byte touches the low eight bits of a word only. */
  lemma XorWord(a: nat, b: nat)
    requires a < WORD && b < 256
    ensures Xor(a, b) < WORD
  {
    assert Pow2(4) == 16 && Pow2(8) == 16 * Pow2(4);
    XorBound(a, b, 0x100_0000_0000_0000, 8);
  }

  /** hash64: (res ^ byte) * seed on 64 bits, from the first byte to the last. */
  function Hash64(data: Bytes, seed: nat): nat {
    if data == [] then 0
    else
      var last := |data| - 1;
      Product(Xor(Hash64(data[..last], seed), data[last]), seed).low
  }

  lemma {:induction false} HashBound(data: Bytes, seed: nat)
    ensures Hash64(data, seed) < WORD
  {
    if data != [] {
      var last := |data| - 1;
      HashBound(data[..last], seed);
      XorWord(Hash64(data[..last], seed), data[last]);
      ProductIs(Xor(Hash64(data[..last], seed), data[last]), seed);
    }
  }

  /** The hash of one more byte b: it is added bit by bit without carry, and the word is multiplied by the
      seed, modulo 2^64. */
  lemma HashNext(data: Bytes, b: Byte, seed: nat) returns (x: nat)
    ensures forall j: nat :: Bit(x, j) <==> Bit(Hash64(data, seed), j) != Bit(b, j)
    ensures Hash64(data + [b], seed) == x * seed % WORD && Hash64([], seed) == 0
  {
    x := Xor(Hash64(data, seed), b);
    forall j: nat ensures Bit(x, j) <==> Bit(Hash64(data, seed), j) != Bit(b, j) {
      XorBit(Hash64(data, seed), b, j);
    }
    assert (data + [b])[..|data|] == data;
    HashBound(data, seed);
    XorWord(Hash64(data, seed), b);
    ProductIs(x, seed);
  }

  /** get_key: the high word of hash * capacity. */
  function Bucket(key: Bytes, seed: nat, capacity: nat): (b: nat)
    requires capacity > 0
    ensures b < capacity
  {
    BucketBound(key, seed, capacity);
    Product(Hash64(key, seed), capacity).high
  }

  lemma BucketBound(key: Bytes, seed: nat, capacity: nat)
    requires capacity > 0
    ensures Product(Hash64(key, seed), capacity).high < capacity
  {
    HashBound(key, seed);
    ProductIs(Hash64(key, seed), capacity);
    assert Hash64(key, seed) * capacity < WORD * capacity;
  }

  /** The buckets cut the range of the hash into `capacity` equal parts, in order. */
  lemma BucketIs(key: Bytes, seed: nat, capacity: nat)
    requires capacity > 0
    ensures Bucket(key, seed, capacity) * WORD <= Hash64(key, seed) * capacity < (Bucket(key, seed, capacity) + 1) * WORD
  {
    HashBound(key, seed);
    ProductIs(Hash64(key, seed), capacity);
  }

  function Home(seed: nat, capacity: nat): Bytes -> nat
    requires capacity > 0
  {
    (key: Bytes) => Bucket(key, seed, capacity)
  }

  method HashLoop(data: Bytes, seed: nat) returns (res: nat)
    ensures res == Hash64(data, seed)
  {
    res := 0;
    for i := 0 to |data|
      invariant res == Hash64(data[..i], seed)
    {
      assert data[..i + 1][..i] == data[..i];
      HashBound(data[..i], seed);
      XorWord(res, data[i]);
      ProductIs(Xor(res, data[i]), seed);
      res := Xor(res, data[i]) * seed % WORD;
    }
    assert data[..|data|] == data;
  }

  /** The values stored under a key, oldest first. */
  function Values<V>(entries: seq<Entry<V>>, key: Bytes): seq<V> {
    if entries == [] then []
    else
      var last := |entries| - 1;
      Values(entries[..last], key) + (if entries[last].key == key then [entries[last].value] else [])
  }

  lemma {:induction false} ValuesAppend<V>(a: seq<Entry<V>>, b: seq<Entry<V>>, key: Bytes)
    ensures Values(a + b, key) == Values(a, key) + Values(b, key)
    decreases |b|
  {
    if b == [] {
      assert a + b == a;
    } else {
      var last := |b| - 1;
      ValuesAppend(a, b[..last], key);
      assert (a + b)[..|a + b| - 1] == a + b[..last];
    }
  }

  lemma {:induction false} ValuesNone<V>(entries: seq<Entry<V>>, key: Bytes)
    requires forall i :: 0 <= i < |entries| ==> entries[i].key != key
    ensures Values(entries, key) == []
  {
    if entries != [] {
      ValuesNone(entries[..|entries| - 1], key);
    }
  }

  lemma ValuesOne<V>(e: Entry<V>, key: Bytes)
    ensures Values([e], key) == if e.key == key then [e.value] else []
  {
    assert [e][..0] == [];
  }

  /** Entry i is the first with the key: it is the head of the key's queue, and taking it out takes the
      head off that queue and leaves every other queue alone. */
  lemma FirstOfKey<V>(entries: seq<Entry<V>>, key: Bytes, i: nat, other: Bytes)
    requires i < |entries| && entries[i].key == key
    requires forall j :: 0 <= j < i ==> entries[j].key != key
    ensures |Values(entries, key)| > 0 && Values(entries, key)[0] == entries[i].value
    ensures Values(RemoveAt(entries, i), other) == if other == key then Values(entries, key)[1..] else Values(entries, other)
  {
    var e := entries[i];
    assert entries == entries[..i] + [e] + entries[i + 1..];
    ValuesAppend(entries[..i] + [e], entries[i + 1..], key);
    ValuesAppend(entries[..i] + [e], entries[i + 1..], other);
    ValuesAppend(entries[..i], [e], key);
    ValuesAppend(entries[..i], [e], other);
    ValuesAppend(entries[..i], entries[i + 1..], other);
    ValuesOne(e, key);
    ValuesOne(e, other);
    ValuesNone(entries[..i], key);
  }

  /** The entries whose home is bucket b, in order. */
  function InBucket<V>(entries: seq<Entry<V>>, home: Bytes -> nat, b: nat): seq<Entry<V>> {
    if entries == [] then []
    else
      var last := |entries| - 1;
      InBucket(entries[..last], home, b) + (if home(entries[last].key) == b then [entries[last]] else [])
  }

  lemma InBucketNext<V>(entries: seq<Entry<V>>, e: Entry<V>, home: Bytes -> nat, b: nat)
    ensures InBucket(entries + [e], home, b) == InBucket(entries, home, b) + (if home(e.key) == b then [e] else [])
  {
    assert (entries + [e])[..|entries|] == entries;
  }

  /** Sorting entries into buckets loses no key's queue: a key's entries all land in its bucket, in
      their order. */
  lemma {:induction false} BucketKeepsValues<V>(entries: seq<Entry<V>>, home: Bytes -> nat, key: Bytes)
    ensures Values(InBucket(entries, home, home(key)), key) == Values(entries, key)
  {
    if entries != [] {
      var last := |entries| - 1;
      var rest := InBucket(entries[..last], home, home(key));
      BucketKeepsValues(entries[..last], home, key);
      if home(entries[last].key) == home(key) {
        ValuesAppend(rest, [entries[last]], key);
        ValuesOne(entries[last], key);
      } else {
        assert rest + [] == rest;
      }
    }
  }

  lemma {:induction false} InBucketHome<V>(entries: seq<Entry<V>>, home: Bytes -> nat, b: nat)
    ensures forall i :: 0 <= i < |InBucket(entries, home, b)| ==> home(InBucket(entries, home, b)[i].key) == b
  {
    if entries != [] {
      InBucketHome(entries[..|entries| - 1], home, b);
    }
  }

  /** The lists of all buckets below n, one after the other. */
  function Flat<V>(lists: seq<seq<Entry<V>>>, n: nat): seq<Entry<V>>
    requires n <= |lists|
  {
    if n == 0 then [] else Flat(lists, n - 1) + lists[n - 1]
  }

  /** Every entry is in the bucket of its key. */
  ghost predicate AtHome<V>(lists: seq<seq<Entry<V>>>, home: Bytes -> nat) {
    forall b, i {:trigger home(lists[b][i].key)} :: 0 <= b < |lists| && 0 <= i < |lists[b]| ==> home(lists[b][i].key) == b
  }

  lemma {:induction false} FlatNone<V>(lists: seq<seq<Entry<V>>>, home: Bytes -> nat, n: nat, key: Bytes)
    requires n <= |lists| && AtHome(lists, home) && n <= home(key)
    ensures Values(Flat(lists, n), key) == []
  {
    if n > 0 {
      FlatNone(lists, home, n - 1, key);
      NotHere(lists, home, n - 1, key);
      ValuesAppend(Flat(lists, n - 1), lists[n - 1], key);
    }
  }

  lemma {:induction false} FlatValues<V>(lists: seq<seq<Entry<V>>>, home: Bytes -> nat, n: nat, key: Bytes)
    requires n <= |lists| && AtHome(lists, home) && home(key) < n
    ensures Values(Flat(lists, n), key) == Values(lists[home(key)], key)
  {
    ValuesAppend(Flat(lists, n - 1), lists[n - 1], key);
    if home(key) == n - 1 {
      FlatNone(lists, home, n - 1, key);
    } else {
      FlatValues(lists, home, n - 1, key);
      NotHere(lists, home, n - 1, key);
    }
  }

  lemma NotHere<V>(lists: seq<seq<Entry<V>>>, home: Bytes -> nat, b: nat, key: Bytes)
    requires b < |lists| && AtHome(lists, home) && home(key) != b
    ensures Values(lists[b], key) == []
  {
    forall i | 0 <= i < |lists[b]| ensures lists[b][i].key != key {
      assert home(lists[b][i].key) == b;
    }
    ValuesNone(lists[b], key);
  }

  /** Number of entries of the first n buckets. */
  function TotalTo<V>(lists: seq<seq<Entry<V>>>, n: nat): nat
    requires n <= |lists|
  {
    if n == 0 then 0 else TotalTo(lists, n - 1) + |lists[n - 1]|
  }

  /** Number of entries. */
  function Total<V>(lists: seq<seq<Entry<V>>>): nat {
    TotalTo(lists, |lists|)
  }

  lemma {:induction false} TotalSame<V>(a: seq<seq<Entry<V>>>, b: seq<seq<Entry<V>>>, n: nat)
    requires n <= |a| && n <= |b| && forall j :: 0 <= j < n ==> a[j] == b[j]
    ensures TotalTo(a, n) == TotalTo(b, n)
  {
    if n > 0 {
      TotalSame(a, b, n - 1);
    }
  }

  lemma {:induction false} TotalChangeTo<V>(a: seq<seq<Entry<V>>>, b: seq<seq<Entry<V>>>, i: nat, n: nat)
    requires i < n <= |a| == |b| && forall j :: 0 <= j < |a| && j != i ==> a[j] == b[j]
    ensures TotalTo(b, n) == TotalTo(a, n) - |a[i]| + |b[i]|
  {
    if i == n - 1 {
      TotalSame(a, b, i);
    } else {
      TotalChangeTo(a, b, i, n - 1);
    }
  }

  lemma TotalChange<V>(a: seq<seq<Entry<V>>>, b: seq<seq<Entry<V>>>, i: nat)
    requires |a| == |b| && i < |a| && forall j :: 0 <= j < |a| && j != i ==> a[j] == b[j]
    ensures Total(b) == Total(a) - |a[i]| + |b[i]|
  {
    TotalChangeTo(a, b, i, |a|);
  }

  // ---- The abstract value of a map ------------------------------------------------------------------------

  /** Every entry is in its get_key bucket. */
  ghost predicate Located<V>(lists: seq<seq<Entry<V>>>, seed: nat) {
    |lists| > 0 && AtHome(lists, Home(seed, |lists|))
  }

  /** The queues are what the buckets hold: for each key its values, oldest first. */
  ghost predicate Carries<V>(lists: seq<seq<Entry<V>>>, seed: nat, queues: imap<Bytes, seq<V>>)
    requires |lists| > 0
  {
    && (forall key: Bytes :: key in queues)
    && forall key {:trigger queues[key]} :: queues[key] == Values(lists[Bucket(key, seed, |lists|)], key)
  }
}
