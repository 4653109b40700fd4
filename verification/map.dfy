/** `util/map.c`: a hash map with chained buckets. A key that is set twice is shadowed, so each key
    stands for a stack of values. */
module ChainedMap {
  import opened ListSpec

  type Value = nat
  const NULL: Value := 0

  class Pair {
    var key: nat
    var value: Value
    var next: Pair?
    var prev: Pair?

    constructor (key: nat, value: Value, next: Pair?)
      ensures this.key == key && this.value == value && this.next == next && prev == null
    {
      this.key, this.value, this.next, prev := key, value, next, null;
    }
  }

  datatype Entry = Entry(key: nat, value: Value)

  /** The pairs of one bucket, linked in both directions from its head. */
  ghost predicate Chained(head: Pair?, chain: seq<Pair>)
    reads chain
  {
    && NoDuplicates(chain)
    && head == (if chain == [] then null else chain[0])
    && (forall i :: 0 <= i < |chain| - 1 ==> chain[i].next == chain[i + 1])
    && (forall i :: 0 < i < |chain| ==> chain[i].prev == chain[i - 1])
    && (chain != [] ==> chain[0].prev == null && chain[|chain| - 1].next == null)
  }

  ghost predicate Holds(chain: seq<Pair>, entries: seq<Entry>)
    reads chain
  {
    |chain| == |entries| && forall i :: 0 <= i < |chain| ==>
      chain[i].key == entries[i].key && chain[i].value == entries[i].value
  }

  // ---------------------------------------------------------------- what a bucket means

  /** The values of one key, the latest first. */
  function Stack(entries: seq<Entry>, key: nat): seq<Value> {
    if entries == [] then [] else (if entries[0].key == key then [entries[0].value] else []) + Stack(entries[1..], key)
  }

  lemma {:induction false} StackElements(entries: seq<Entry>, key: nat)
    ensures forall v :: v in Stack(entries, key) ==> Entry(key, v) in entries
  {
    if entries != [] { StackElements(entries[1..], key); }
  }

  predicate Absent(entries: seq<Entry>, key: nat) { forall i :: 0 <= i < |entries| ==> entries[i].key != key }

  lemma {:induction false} StackOfAbsent(entries: seq<Entry>, key: nat)
    ensures Absent(entries, key) <==> Stack(entries, key) == []
  {
    if entries != [] {
      StackOfAbsent(entries[1..], key);
      assert entries == [entries[0]] + entries[1..];
      if Absent(entries, key) {
        assert forall i :: 0 <= i < |entries[1..]| ==> entries[1..][i] == entries[i + 1];
      }
    }
  }

  lemma {:induction false} StackAppend(a: seq<Entry>, b: seq<Entry>, key: nat)
    ensures Stack(a + b, key) == Stack(a, key) + Stack(b, key)
  {
    if a == [] {
      assert a + b == b;
    } else {
      var ab := a + b;
      assert ab[1..] == a[1..] + b && ab[0] == a[0];
      StackAppend(a[1..], b, key);
      assert Stack(ab, key) == (if a[0].key == key then [a[0].value] else []) + Stack(a[1..] + b, key);
    }
  }

  /** Removing the first pair of a key pops its stack and leaves the other keys of the bucket alone. */
  lemma StackRemoved(entries: seq<Entry>, k: nat, key: nat)
    requires k < |entries| && entries[k].key == key && Absent(entries[..k], key)
    ensures Stack(entries, key) == [entries[k].value] + Stack(entries[..k] + entries[k + 1..], key)
    ensures forall other :: other != key ==> Stack(entries[..k] + entries[k + 1..], other) == Stack(entries, other)
  {
    forall q ensures Stack(entries, q) == Stack(entries[..k],
      q) + ((if q == key then [entries[k].value] else []) + Stack(entries[k + 1..], q)) {
      assert entries == entries[..k] + ([entries[k]] + entries[k + 1..]);
      StackAppend(entries[..k], [entries[k]] + entries[k + 1..], q);
      assert ([entries[k]] + entries[k + 1..])[1..] == entries[k + 1..];
    }
    forall q ensures Stack(entries[..k] + entries[k + 1..], q) == Stack(entries[..k], q) + Stack(entries[k + 1..], q) {
      StackAppend(entries[..k], entries[k + 1..], q);
    }
    StackOfAbsent(entries[..k], key);
  }

  // ---------------------------------------------------------------- one bucket

  lemma Neighbours(head: Pair?, chain: seq<Pair>, k: nat)
    requires Chained(head, chain) && k < |chain|
    ensures chain[k].next == if k + 1 < |chain| then chain[k + 1] else null
    ensures chain[k].prev == if k > 0 then chain[k - 1] else null
  {
  }

  /** The search loop of c_map_get and c_map_remove. */
  method Find(head: Pair?, key: nat, ghost chain: seq<Pair>, ghost entries: seq<Entry>)
    returns (pair: Pair?, ghost k: nat)
    requires Chained(head, chain) && Holds(chain, entries)
    ensures k <= |chain| && Absent(entries[..k], key)
    ensures pair == if k < |chain| then chain[k] else null
    ensures k < |chain| ==> entries[k].key == key
  {
    pair := head;
    k := 0;
    while pair != null && pair.key != key
      invariant 0 <= k <= |chain| && pair == (if k < |chain| then chain[k] else null)
      invariant Absent(entries[..k], key)
      decreases |chain| - k
    {
      assert entries[..k + 1] == entries[..k] + [entries[k]];
      Neighbours(head, chain, k);
      pair := pair.next;
      k := k + 1;
    }
  }

  /** The four cases of taking a pair out of its chain. */
  method Unlink(head: Pair?, pair: Pair, ghost k: nat, ghost chain: seq<Pair>) returns (head': Pair?)
    requires Chained(head, chain) && k < |chain| && pair == chain[k]
    modifies chain
    ensures Chained(head', chain[..k] + chain[k + 1..])
    ensures forall p :: p in chain ==> p.key == old(p.key) && p.value == old(p.value)
  {
    hide NoDuplicates;
    Distinct(chain, k);
    Neighbours(head, chain, k);
    head' := head;
    if pair.prev == null && pair.next == null {
      head' := null;
      assert chain[..k] + chain[k + 1..] == [];
    } else if pair.prev == null {
      pair.next.prev := null;
      head' := pair.next;
    } else if pair.next == null {
      pair.prev.next := null;
    } else {
      pair.prev.next := pair.next;
      pair.next.prev := pair.prev;
    }
    ghost var rest := chain[..k] + chain[k + 1..];
    assert forall i :: 0 <= i < k ==> rest[i] == chain[i];
    assert forall i :: k <= i < |rest| ==> rest[i] == chain[i + 1];
  }

  lemma Distinct(chain: seq<Pair>, k: nat)
    requires NoDuplicates(chain) && k < |chain|
    ensures NoDuplicates(chain[..k] + chain[k + 1..])
    ensures forall i :: 0 <= i < |chain| && i != k ==> chain[i] != chain[k]
    ensures forall i :: 0 <= i < |chain| && i != k + 1 && k + 1 < |chain| ==> chain[i] != chain[k + 1]
    ensures forall i :: 0 <= i < |chain| && i != k - 1 && k > 0 ==> chain[i] != chain[k - 1]
  {
  }

  function Pushed(entries: seq<Entry>, key: nat, value: Value): seq<Entry> {
    [Entry(key, value)] + if entries != [] && entries[0].value == NULL then entries[1..] else entries
  }

  /** Setting a key pushes onto its stack and leaves the other keys alone, unless the bucket starts with
      a pair whose value is NULL. */
  lemma PushedStack(entries: seq<Entry>, key: nat, value: Value)
    ensures (entries == [] || entries[0].value != NULL) <==>
      && Stack(Pushed(entries, key, value), key) == [value] + Stack(entries, key)
      && forall other :: other != key ==> Stack(Pushed(entries, key, value), other) == Stack(entries, other)
  {
    var rest := if entries != [] && entries[0].value == NULL then entries[1..] else entries;
    assert Pushed(entries, key, value)[1..] == rest;
    if entries != [] && entries[0].value == NULL {
      if entries[0].key == key {
        assert |Stack(entries, key)| == 1 + |Stack(rest, key)|;
      } else {
        var other := entries[0].key;
        assert |Stack(entries, other)| == 1 + |Stack(rest, other)|;
      }
    }
  }

  /** c_map_set on one bucket: a first pair whose value is NULL is used again, whatever its key;
      otherwise a new pair goes in front. */
  method SetIn(head: Pair?, key: nat, value: Value, ghost chain: seq<Pair>, ghost entries: seq<Entry>)
    returns (head': Pair, ghost chain': seq<Pair>)
    requires Chained(head, chain) && Holds(chain, entries)
    modifies chain
    ensures Chained(head', chain') && Holds(chain', Pushed(entries, key, value)) && head'.value == value
    ensures forall p :: p in chain' ==> p in chain || fresh(p)
  {
    if head != null && head.value == NULL {
      head.key := key;
      head.value := value;
      return head, chain;
    }
    head' := new Pair(key, value, head);
    if head != null {
      head.prev := head';
    }
    chain' := [head'] + chain;
    assert forall i :: 0 < i < |chain'| ==> chain'[i] == chain[i - 1];
  }

  /** c_map_remove on one bucket. */
  method RemoveIn(head: Pair?, key: nat, ghost chain: seq<Pair>, ghost entries: seq<Entry>)
    returns (head': Pair?, ghost chain': seq<Pair>, ghost entries': seq<Entry>)
    requires Chained(head, chain) && Holds(chain, entries)
    modifies chain
    ensures Chained(head', chain') && Holds(chain', entries')
    ensures forall p :: p in chain' ==> p in chain
    ensures forall e :: e in entries' ==> e in entries
    ensures Stack(entries', key) == if Stack(entries, key) == [] then [] else Stack(entries, key)[1..]
    ensures forall other :: other != key ==> Stack(entries', other) == Stack(entries, other)
  {
    var pair, k := Find(head, key, chain, entries);
    FoundTop(entries, k, key);
    head', chain', entries' := head, chain, entries;
    if pair != null {
      StackRemoved(entries, k, key);
      head' := Unlink(head, pair, k, chain);
      chain', entries' := chain[..k] + chain[k + 1..], entries[..k] + entries[k + 1..];
    }
  }

  /** Setting a key of a map that stores no NULL. */
  lemma PushedBuckets(buckets: seq<seq<Entry>>, key: nat, value: Value)
    requires |buckets| > 0 && value != NULL
    requires forall n, e :: 0 <= n < |buckets| && e in buckets[n] ==> e.value != NULL
    ensures var after := buckets[key % |buckets| := Pushed(buckets[key % |buckets|], key, value)];
      && (forall n, e :: 0 <= n < |after| && e in after[n] ==> e.value != NULL)
      && Stack(after[key % |buckets|], key) == [value] + Stack(buckets[key % |buckets|], key)
      && forall other: nat :: other != key ==>
        Stack(after[other % |buckets|], other) == Stack(buckets[other % |buckets|], other)
  {
    hide Stack;
    var n := key % |buckets|;
    assert buckets[n] != [] ==> buckets[n][0] in buckets[n];
    PushedStack(buckets[n], key, value);
    var after := buckets[n := Pushed(buckets[n], key, value)];
    forall other: nat | other != key
      ensures Stack(after[other % |buckets|], other) == Stack(buckets[other % |buckets|], other) {
      if other % |buckets| != n { assert after[other % |buckets|] == buckets[other % |buckets|]; }
    }
  }

  lemma PushedHome(entries: seq<Entry>, key: nat, value: Value, size: nat)
    requires size > 0 && forall i :: 0 <= i < |entries| ==> entries[i].key % size == key % size
    ensures forall i :: 0 <= i < |Pushed(entries, key, value)| ==>
      Pushed(entries, key, value)[i].key % size == key % size
  {
  }

  // ---------------------------------------------------------------- the map

  class Map {
    const pairs: array<Pair?>
    ghost var chains: seq<seq<Pair>>
    ghost var buckets: seq<seq<Entry>>
    ghost var region: set<Pair>

    ghost predicate BucketOk(n: nat)
      requires n < pairs.Length && |chains| == |buckets| == pairs.Length
      reads this, pairs, region
    {
      && (forall p :: p in chains[n] ==> p in region)
      && Chained(pairs[n], chains[n]) && Holds(chains[n], buckets[n])
      && (forall i :: 0 <= i < |buckets[n]| ==> buckets[n][i].key % pairs.Length == n)
    }

    ghost predicate Valid()
      reads this, pairs, region
    {
      && pairs.Length > 0 && |chains| == |buckets| == pairs.Length
      && forall n :: 0 <= n < pairs.Length ==> BucketOk(n)
    }

    /** No stored value is NULL. */
    ghost predicate NonNull()
      reads this
    {
      forall n, e :: 0 <= n < |buckets| && e in buckets[n] ==> e.value != NULL
    }

    ghost function Values(key: nat): seq<Value>
      requires pairs.Length > 0 && |buckets| == pairs.Length
      reads this
    {
      Stack(buckets[key % pairs.Length], key)
    }

    constructor (size: nat)
      requires size > 0
      ensures Valid() && NonNull() && fresh(pairs) && fresh(region) && forall key :: Values(key) == []
    {
      pairs := new Pair?[size](_ => null);
      chains := seq(size, _ => []);
      buckets := seq(size, _ => []);
      region := {};
    }

    lemma {:induction false} NoneNull(key: nat)
      requires Valid() && NonNull()
      ensures NULL !in Values(key)
    {
      StackElements(buckets[key % pairs.Length], key);
    }

    /** c_map_get */
    method Get(key: nat) returns (r: Value)
      requires Valid()
      ensures r == if Values(key) == [] then NULL else Values(key)[0]
    {
      var n := key % pairs.Length;
      assert BucketOk(n);
      var pair, k := Find(pairs[n], key, chains[n], buckets[n]);
      FoundTop(buckets[n], k, key);
      if pair != null { return pair.value; }
      return NULL;
    }

    /** A pair is in the bucket its key belongs to, and so in no other. */
    lemma Home(n: nat)
      requires Valid() && n < pairs.Length
      ensures forall p :: p in chains[n] ==> p.key % pairs.Length == n
    {
      assert BucketOk(n);
      forall p | p in chains[n] ensures p.key % pairs.Length == n {
        var i :| 0 <= i < |chains[n]| && chains[n][i] == p;
        assert buckets[n][i].key % pairs.Length == n;
      }
    }

    lemma Apart(n: nat, m: nat)
      requires Valid() && n < pairs.Length && m < pairs.Length && n != m
      ensures forall p :: p in chains[n] ==> p !in chains[m]
    {
      Home(n);
      Home(m);
    }

    lemma OthersApart(n: nat)
      requires Valid() && n < pairs.Length
      ensures forall m :: 0 <= m < pairs.Length && m != n ==> BucketOk(m)
      ensures forall m, p :: 0 <= m < pairs.Length && m != n && p in chains[m] ==> p !in chains[n]
    {
      hide BucketOk;
      forall m, p | 0 <= m < pairs.Length && m != n && p in chains[m] ensures p !in chains[n] { Apart(m, n); }
    }

    /** A bucket whose pairs are as they were is as it was. */
    twostate lemma BucketStays(m: nat)
      requires m < pairs.Length && |chains| == |buckets| == pairs.Length && old(|chains| == |buckets| == pairs.Length)
      requires old(BucketOk(m)) && chains[m] == old(chains[m]) && buckets[m] == old(buckets[m]) && region == old(region)
      requires pairs[m] == old(pairs[m]) && forall i :: 0 <= i < |chains[m]| ==> unchanged(chains[m][i])
      ensures BucketOk(m)
    {
    }

    /** Write a bucket back after its chain has changed. */
    method Store(n: nat, head: Pair?, ghost chain: seq<Pair>, ghost entries: seq<Entry>)
      requires n < pairs.Length && |chains| == |buckets| == pairs.Length
      requires forall m :: 0 <= m < pairs.Length && m != n ==> BucketOk(m)
      requires Chained(head, chain) && Holds(chain, entries) && forall i :: 0 <= i < |entries| ==>
        entries[i].key % pairs.Length == n
      modifies this, pairs
      ensures Valid() && buckets == old(buckets)[n := entries] && region == old(region) + (set p | p in chain)
    {
      hide Chained, Holds;
      pairs[n] := head;
      chains := chains[n := chain];
      buckets := buckets[n := entries];
      region := region + (set p | p in chain);
      forall m | 0 <= m < pairs.Length ensures BucketOk(m) {
        if m != n { assert old(BucketOk(m)); }
      }
    }

    method Set(key: nat, value: Value) returns (r: Value)
      requires Valid()
      modifies this, pairs, region
      ensures Valid() && r == value && fresh(region - old(region))
      ensures buckets == old(buckets)[key % pairs.Length := Pushed(old(buckets)[key % pairs.Length], key, value)]
      ensures old(NonNull()) && value != NULL ==>
        NonNull() && Values(key) == [value] + old(Values(key)) &&
          forall other :: other != key ==> Values(other) == old(Values(other))
    {
      hide Chained, Holds, Stack, Pushed;
      var n := key % pairs.Length;
      if NonNull() && value != NULL { PushedBuckets(buckets, key, value); }
      OthersApart(n);
      assert BucketOk(n);
      var head, chain := SetIn(pairs[n], key, value, chains[n], buckets[n]);
      forall m | 0 <= m < pairs.Length && m != n ensures BucketOk(m) {
        forall i | 0 <= i < |chains[m]| ensures unchanged(chains[m][i]) {
          assert chains[m][i] in chains[m] && chains[m][i] !in chains[n];
        }
        BucketStays(m);
      }
      PushedHome(buckets[n], key, value, pairs.Length);
      Store(n, head, chain, Pushed(buckets[n], key, value));
      return head.value;
    }

    method Remove(key: nat)
      requires Valid()
      modifies this, pairs, region
      ensures Valid() && region == old(region) && |buckets| == |old(buckets)|
      ensures forall m, e :: 0 <= m < |buckets| && e in buckets[m] ==> e in old(buckets)[m]
      ensures Values(key) == if old(Values(key)) == [] then [] else old(Values(key))[1..]
      ensures forall other :: other != key ==> Values(other) == old(Values(other))
      ensures old(NonNull()) ==> NonNull()
    {
      var n := key % pairs.Length;
      OthersApart(n);
      assert BucketOk(n);
      var head, chain, entries := RemoveIn(pairs[n], key, chains[n], buckets[n]);
      forall m | 0 <= m < pairs.Length && m != n ensures BucketOk(m) { BucketStays(m); }
      forall i | 0 <= i < |entries| ensures entries[i].key % pairs.Length == n {
        assert entries[i] in buckets[n];
      }
      Store(n, head, chain, entries);
    }
  }

  lemma FoundTop(entries: seq<Entry>, k: nat, key: nat)
    requires k <= |entries| && Absent(entries[..k], key) && (k < |entries| ==> entries[k].key == key)
    ensures k < |entries| <==> Stack(entries, key) != []
    ensures k < |entries| ==> Stack(entries, key)[0] == entries[k].value
  {
    if k < |entries| {
      StackRemoved(entries, k, key);
    } else {
      assert entries[..k] == entries;
      StackOfAbsent(entries, key);
    }
  }
}
