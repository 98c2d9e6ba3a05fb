/** The generic chained hash table of the spell checker: `size` bucket chains,
    a caller-supplied hash and equality, insertion at the head of the key's
    chain and lookup of the first equal key along it. */
module HashTables {

  datatype Option<T> = None | Some(value: T)

  /** A chain node's payload: its key and data (the `next` link is the
      chain's order). */
  datatype HashBucket<K, D> = HashBucket(key: K, data: D)

  /** The first entry of `chain` whose key `eq` deems equal to `key`. */
  function ChainFind<K, D>(chain: seq<HashBucket<K, D>>, key: K, eq: (K, K) -> bool): (r: Option<D>)
    ensures r.None? <==> forall j :: 0 <= j < |chain| ==> !eq(key, chain[j].key)
    ensures r.Some? ==> exists j :: 0 <= j < |chain| && eq(key, chain[j].key) && chain[j].data == r.value
  {
    if chain == [] then None
    else if eq(key, chain[0].key) then Some(chain[0].data)
    else
      var r := ChainFind(chain[1..], key, eq);
      assert forall j :: 1 <= j < |chain| ==> chain[1..][j - 1] == chain[j];
      r
  }

  /** The entries of `h` that live in bucket `b`, in order. */
  function InBucket<K, D>(h: seq<HashBucket<K, D>>, b: int, hash: K -> nat, size: int): (r: seq<HashBucket<K, D>>)
    requires size >= 1
    ensures forall e :: e in r ==> e in h && hash(e.key) % size == b
  {
    if h == [] then []
    else if hash(h[0].key) % size == b then [h[0]] + InBucket(h[1..], b, hash, size)
    else InBucket(h[1..], b, hash, size)
  }

  /** Keys `eq` deems equal hash to the same bucket. */
  ghost predicate Consistent<K(!new)>(hash: K -> nat, eq: (K, K) -> bool, size: int)
    requires size >= 1
  {
    forall a, b :: eq(a, b) ==> hash(a) % size == hash(b) % size
  }

  /** `struct HashTable`: the two functions, `size` and the array of chains. */
  class HashTable<K(!new), D> {
    const hashFunction: K -> nat
    const equalFunction: (K, K) -> bool
    const size: int
    const data: array<seq<HashBucket<K, D>>>
    /** Every insertion so far, newest first. */
    ghost var history: seq<HashBucket<K, D>>

    ghost predicate Valid()
      reads this, data
    {
      size >= 1 && data.Length == size
      && forall b :: 0 <= b < size ==> data[b] == InBucket(history, b, hashFunction, size)
    }

    /** The data `findData` returns for `key`, or None for NULL. */
    ghost function Lookup(key: K): Option<D>
      requires Valid()
      reads this, data
    {
      ChainFind(data[hashFunction(key) % size], key, equalFunction)
    }

    /** `createHashTable`: `size` empty chains and the two functions. */
    constructor Create(size: int, hashFunction: K -> nat, equalFunction: (K, K) -> bool)
      requires size >= 1
      ensures Valid() && fresh(data) && history == []
      ensures this.size == size && this.hashFunction == hashFunction && this.equalFunction == equalFunction
      ensures forall b :: 0 <= b < size ==> data[b] == []
    {
      this.size, this.hashFunction, this.equalFunction := size, hashFunction, equalFunction;
      data := new seq<HashBucket<K, D>>[size](_ => []);
      history := [];
    }

    /** `insertData`: the pair goes to the head of its key's chain. */
    method InsertData(key: K, d: D)
      requires Valid()
      modifies this, data
      ensures Valid() && history == [HashBucket(key, d)] + old(history)
      ensures data[hashFunction(key) % size] == [HashBucket(key, d)] + old(data[hashFunction(key) % size])
      ensures forall b :: 0 <= b < size && b != hashFunction(key) % size ==> data[b] == old(data[b])
    {
      var b := hashFunction(key) % size;
      data[b] := [HashBucket(key, d)] + data[b];
      history := [HashBucket(key, d)] + history;
    }

    /** `findData`: walks the key's chain from its head to the first equal key;
        with a consistent hash that is the newest equal insertion. */
    method FindData(key: K) returns (r: Option<D>)
      requires Valid()
      ensures r == Lookup(key)
      ensures Consistent(hashFunction, equalFunction, size) ==> r == ChainFind(history, key, equalFunction)
    {
      var chain := data[hashFunction(key) % size];
      var i := 0;
      while i < |chain|
        invariant 0 <= i <= |chain|
        invariant ChainFind(chain[i..], key, equalFunction) == ChainFind(chain, key, equalFunction)
      {
        if equalFunction(key, chain[i].key) {
          r := Some(chain[i].data);
          LookupIsNewest(this, key);
          return;
        }
        assert chain[i..][1..] == chain[i + 1..];
        i := i + 1;
      }
      r := None;
      LookupIsNewest(this, key);
    }
  }

  /** With a consistent hash, the key's chain holds every equal entry, so the
      table finds what a search of the whole history finds. */
  lemma LookupIsNewest<K(!new), D>(t: HashTable<K, D>, key: K)
    requires t.Valid()
    ensures Consistent(t.hashFunction, t.equalFunction, t.size) ==>
      t.Lookup(key) == ChainFind(t.history, key, t.equalFunction)
  {
    if Consistent(t.hashFunction, t.equalFunction, t.size) {
      BucketKeepsEqualKeys(t.history, key, t.hashFunction, t.equalFunction, t.size);
    }
  }

  lemma {:induction false} BucketKeepsEqualKeys<K(!new), D>(h: seq<HashBucket<K, D>>, key: K, hash: K -> nat, eq: (K, K) -> bool, size: int)
    requires size >= 1 && Consistent(hash, eq, size)
    ensures ChainFind(InBucket(h, hash(key) % size, hash, size), key, eq) == ChainFind(h, key, eq)
  {
    if h != [] {
      BucketKeepsEqualKeys(h[1..], key, hash, eq, size);
      if eq(key, h[0].key) {
        assert hash(key) % size == hash(h[0].key) % size;
      }
    }
  }

  /** After inserting (k, d), an equal key finds d, whatever was there before. */
  lemma FindAfterInsert<K, D>(h: seq<HashBucket<K, D>>, k: K, d: D, k2: K, eq: (K, K) -> bool)
    requires eq(k2, k)
    ensures ChainFind([HashBucket(k, d)] + h, k2, eq) == Some(d)
  {
  }

  /** Inserting (k, d) does not change what any key not equal to k finds. */
  lemma InsertKeepsOtherKeys<K, D>(h: seq<HashBucket<K, D>>, k: K, d: D, k2: K, eq: (K, K) -> bool)
    requires !eq(k2, k)
    ensures ChainFind([HashBucket(k, d)] + h, k2, eq) == ChainFind(h, k2, eq)
  {
    assert ([HashBucket(k, d)] + h)[1..] == h;
  }

  /** The keys of a history. */
  function Keys<K, D>(h: seq<HashBucket<K, D>>): (s: set<K>)
    ensures forall j :: 0 <= j < |h| ==> h[j].key in s
    ensures forall k :: k in s ==> exists j :: 0 <= j < |h| && h[j].key == k
  {
    set j | 0 <= j < |h| :: h[j].key
  }

  /** The spell checker's set use: with equality as `eq` and every word stored
      as its own data, a word is found, as itself, exactly when it was inserted. */
  lemma {:induction false} SetMembership<K>(h: seq<HashBucket<K, K>>, s: K, eq: (K, K) -> bool)
    requires forall a, b :: eq(a, b) <==> a == b
    requires forall j :: 0 <= j < |h| ==> h[j].key == h[j].data
    ensures ChainFind(h, s, eq).Some? <==> s in Keys(h)
    ensures ChainFind(h, s, eq).Some? ==> ChainFind(h, s, eq).value == s
  {
    if h != [] && h[0].key != s {
      SetMembership(h[1..], s, eq);
      assert Keys(h) == {h[0].key} + Keys(h[1..]) by {
        assert forall j :: 1 <= j < |h| ==> h[1..][j - 1] == h[j];
      }
    }
  }

  /** A table filled by insertions finds exactly the inserted words. */
  lemma TableSetMembership<K(!new)>(t: HashTable<K, K>, s: K)
    requires t.Valid() && forall a, b :: t.equalFunction(a, b) <==> a == b
    requires forall j :: 0 <= j < |t.history| ==> t.history[j].key == t.history[j].data
    ensures t.Lookup(s).Some? <==> s in Keys(t.history)
    ensures t.Lookup(s).Some? ==> t.Lookup(s).value == s
  {
    LookupIsNewest(t, s);
    SetMembership(t.history, s, t.equalFunction);
  }
}
