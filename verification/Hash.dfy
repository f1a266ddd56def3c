/** The bucket table: items in bucket lists, and handles that refer to items for removal without a lookup. */
module Hash {
  import opened Options

  /** Stored values are addresses of things kept elsewhere. */
  type Ref = nat

  const HASH_INIT: nat := 5381
  const WORD: nat := 0x1_0000_0000

  /** One octet more: times 33 plus the octet, in 32 bits. */
  function HashCompute(hash: nat, octet: nat): (h: nat)
    ensures h < WORD
  {
    (hash * 33 + octet) % WORD
  }

  function HashFrom(hash: nat, key: string): nat
    decreases |key|
  {
    if key == [] then hash else HashFrom(HashCompute(hash, key[0] as nat), key[1..])
  }

  function HashOf(key: string): nat {
    HashFrom(HASH_INIT, key)
  }

  /** Hashing goes left to right, so a longer text continues from the hash of its front. */
  lemma {:induction false} HashFromConcat(hash: nat, x: string, y: string)
    ensures HashFrom(hash, x + y) == HashFrom(HashFrom(hash, x), y)
    decreases |x|
  {
    if x == [] {
      assert x + y == y;
    } else {
      assert (x + y)[1..] == x[1..] + y;
      HashFromConcat(HashCompute(hash, x[0] as nat), x[1..], y);
    }
  }

  function Pow33(n: nat): nat {
    if n == 0 then 1 else 33 * Pow33(n - 1)
  }

  /** The octets of a text as digits to the base 33. */
  function Digits(key: string): nat {
    if key == [] then 0 else (key[0] as nat) * Pow33(|key| - 1) + Digits(key[1..])
  }

  lemma RemainderFirst(a: nat, p: nat, q: nat)
    ensures ((a % WORD) * p + q) % WORD == (a * p + q) % WORD
  {
    var r, d := a % WORD, a / WORD;
    assert a == WORD * d + r;
    assert a * p + q == WORD * (d * p) + (r * p + q);
    WholeWords(d * p, r * p + q);
  }

  lemma WholeWords(n: nat, m: nat)
    ensures (WORD * n + m) % WORD == m % WORD
  {
  }

  lemma Carry(h: nat, c: nat, p: nat, d: nat)
    ensures (h * 33 + c) * p + d == h * (33 * p) + (c * p + d)
  {
  }

  lemma {:induction false} HashFromIs(hash: nat, key: string)
    requires hash < WORD
    ensures HashFrom(hash, key) == (hash * Pow33(|key|) + Digits(key)) % WORD
    decreases |key|
  {
    if key != [] {
      var c, p, d := key[0] as nat, Pow33(|key| - 1), Digits(key[1..]);
      HashFromIs(HashCompute(hash, c), key[1..]);
      RemainderFirst(hash * 33 + c, p, d);
      Carry(hash, c, p, d);
    }
  }

  /** The hash is a polynomial in 33, with 5381 in front, in 32 bits. */
  lemma HashIsPolynomial(key: string)
    ensures HashOf(key) == (5381 * Pow33(|key|) + Digits(key)) % 0x1_0000_0000
  {
    HashFromIs(HASH_INIT, key);
  }

  datatype Item = Item(id: nat, key: string, val: Ref, handle: Option<nat>)
  datatype Handle = Handle(bucket: nat, item: Option<nat>)

  type Buckets = seq<seq<Item>>

  function Slot(key: string, count: nat): (i: nat)
    requires count > 0
    ensures i < count
  {
    HashOf(key) % count
  }

  predicate InTable(b: Buckets, it: Item) {
    |b| > 0 && it in b[Slot(it.key, |b|)]
  }

  /** Items sit in the bucket of their key, and no key and no item occurs twice. */
  ghost predicate BucketsOk(b: Buckets, nextId: nat) {
    && |b| > 0
    && (forall i, j :: 0 <= i < |b| && 0 <= j < |b[i]| ==> Slot(b[i][j].key, |b|) == i && b[i][j].id < nextId)
    && (forall i, j, k :: 0 <= i < |b| && 0 <= j < k < |b[i]| ==> b[i][j].key != b[i][k].key)
    && (forall x, y :: InTable(b, x) && InTable(b, y) && x.id == y.id ==> x == y)
  }

  /** The table holds exactly the given contents. */
  ghost predicate Holds(b: Buckets, m: map<string, Ref>) {
    && (forall x :: InTable(b, x) ==> x.key in m && m[x.key] == x.val)
    && (forall k :: k in m ==> exists x :: InTable(b, x) && x.key == k)
  }

  /** Handles and items point at each other; `keys` gives the key each live handle leads to. */
  ghost predicate HandlesOk(b: Buckets, hs: map<nat, Handle>, keys: map<nat, string>, nextHandle: nat) {
    && |b| > 0
    && (forall h :: h in hs ==> h < nextHandle)
    && (forall h :: h in keys <==> h in hs && hs[h].item.Some?)
    && (forall x :: InTable(b, x) && x.handle.Some? ==>
        x.handle.value in keys && hs[x.handle.value] == Handle(Slot(x.key, |b|), Some(x.id)))
    && (forall h :: h in keys ==> exists x :: InTable(b, x) && x.handle == Some(h) && x.key == keys[h])
  }

  /** A key is in the table at most once. */
  lemma OneItemPerKey(b: Buckets, nextId: nat, x: Item, y: Item)
    requires BucketsOk(b, nextId) && InTable(b, x) && InTable(b, y) && x.key == y.key
    ensures x == y
  {
    var i := Slot(x.key, |b|);
    var j :| 0 <= j < |b[i]| && b[i][j] == x;
    var k :| 0 <= k < |b[i]| && b[i][k] == y;
  }

  lemma Appended(b: Buckets, nextId: nat, x: Item, b': Buckets)
    requires BucketsOk(b, nextId) && x.id == nextId
    requires forall y :: InTable(b, y) ==> y.key != x.key
    requires b' == b[Slot(x.key, |b|) := b[Slot(x.key, |b|)] + [x]]
    ensures BucketsOk(b', nextId + 1)
    ensures forall y :: InTable(b', y) <==> InTable(b, y) || y == x
  {
    var s := Slot(x.key, |b|);
    forall y ensures InTable(b', y) <==> InTable(b, y) || y == x {
      if Slot(y.key, |b|) == s { assert b'[s] == b[s] + [x]; }
    }
    forall j | 0 <= j < |b[s]| ensures b[s][j].key != x.key { assert InTable(b, b[s][j]); }
    forall y | InTable(b, y) ensures y.id < nextId {
      var i := Slot(y.key, |b|);
      var j :| 0 <= j < |b[i]| && b[i][j] == y;
    }
  }

  function WithoutAt<T>(s: seq<T>, k: nat): seq<T>
    requires k < |s|
  {
    s[..k] + s[k + 1..]
  }

  /** In a list without repeated keys, taking one element out takes out just that element. */
  lemma AtGone(l: seq<Item>, k: nat)
    requires k < |l|
    requires forall j, j' :: 0 <= j < j' < |l| ==> l[j].key != l[j'].key
    ensures forall y :: y in WithoutAt(l, k) <==> y in l && y != l[k]
    ensures forall j, j' :: 0 <= j < j' < |WithoutAt(l, k)| ==> WithoutAt(l, k)[j].key != WithoutAt(l, k)[j'].key
  {
    var l' := WithoutAt(l, k);
    assert forall j :: 0 <= j < |l'| ==> l'[j] == l[if j < k then j else j + 1];
    forall y | y in l && y != l[k] ensures y in l' {
      var j :| 0 <= j < |l| && l[j] == y;
      assert l'[if j < k then j else j - 1] == y;
    }
    forall y | y in l' ensures y in l && y != l[k] {
      var j :| 0 <= j < |l'| && l'[j] == y;
      assert l[if j < k then j else j + 1] == y;
    }
  }

  lemma Removed(b: Buckets, nextId: nat, i: nat, k: nat, b': Buckets)
    requires BucketsOk(b, nextId) && i < |b| && k < |b[i]|
    requires b' == b[i := WithoutAt(b[i], k)]
    ensures BucketsOk(b', nextId)
    ensures InTable(b, b[i][k])
    ensures forall y :: InTable(b', y) <==> InTable(b, y) && y != b[i][k]
  {
    var x, l, l' := b[i][k], b[i], WithoutAt(b[i], k);
    assert Slot(x.key, |b|) == i;
    AtGone(l, k);
    forall y ensures InTable(b', y) <==> InTable(b, y) && y != x {
      if Slot(y.key, |b|) == i { assert b'[i] == l'; } else { assert b'[Slot(y.key, |b|)] == b[Slot(y.key, |b|)]; }
    }
    forall j | 0 <= j < |l'| ensures Slot(l'[j].key, |b|) == i && l'[j].id < nextId {
      assert l'[j] in l;
    }
  }

  /** Everything the table keeps true. */
  ghost predicate TableOk(b: Buckets, nextId: nat, m: map<string, Ref>, hs: map<nat, Handle>, keys: map<nat, string>,
                          next: nat, size: nat) {
    BucketsOk(b, nextId) && Holds(b, m) && HandlesOk(b, hs, keys, next) && size == |m|
  }

  lemma AppendedHolds(b: Buckets, x: Item, b': Buckets, m: map<string, Ref>)
    requires Holds(b, m) && x.key !in m
    requires forall y :: InTable(b', y) <==> InTable(b, y) || y == x
    ensures Holds(b', m[x.key := x.val])
  {
    assert InTable(b', x);
  }

  lemma AppendedHandles(b: Buckets, x: Item, b': Buckets, hs: map<nat, Handle>, keys: map<nat, string>, next: nat)
    requires HandlesOk(b, hs, keys, next) && |b'| == |b| && x.handle == Some(next)
    requires forall y :: InTable(b', y) <==> InTable(b, y) || y == x
    ensures HandlesOk(b', hs[next := Handle(Slot(x.key, |b|), Some(x.id))], keys[next := x.key], next + 1)
  {
    assert InTable(b', x);
  }

  /** A new item with a new handle extends what the table holds. */
  lemma AppendKeepsTable(b: Buckets, nextId: nat, m: map<string, Ref>, hs: map<nat, Handle>, keys: map<nat, string>,
                         next: nat, size: nat, x: Item)
    requires TableOk(b, nextId, m, hs, keys, next, size)
    requires x.id == nextId && x.handle == Some(next) && x.key !in m
    ensures var i := Slot(x.key, |b|);
            TableOk(b[i := b[i] + [x]], nextId + 1, m[x.key := x.val], hs[next := Handle(i, Some(x.id))],
                    keys[next := x.key], next + 1, size + 1)
    ensures next !in keys
  {
    var i := Slot(x.key, |b|);
    var b' := b[i := b[i] + [x]];
    Appended(b, nextId, x, b');
    AppendedHolds(b, x, b', m);
    AppendedHandles(b, x, b', hs, keys, next);
  }

  lemma RemovedHolds(b: Buckets, nextId: nat, x: Item, b': Buckets, m: map<string, Ref>)
    requires BucketsOk(b, nextId) && Holds(b, m) && InTable(b, x)
    requires forall y :: InTable(b', y) <==> InTable(b, y) && y != x
    ensures Holds(b', m - {x.key})
  {
    forall y | InTable(b', y) ensures y.key != x.key {
      if y.key == x.key { OneItemPerKey(b, nextId, x, y); }
    }
    forall k | k in m - {x.key} ensures exists y :: InTable(b', y) && y.key == k {
      var y :| InTable(b, y) && y.key == k;
      assert InTable(b', y);
    }
  }

  lemma RemovedHandles(b: Buckets, nextId: nat, x: Item, b': Buckets, hs: map<nat, Handle>, keys: map<nat, string>, next: nat)
    requires BucketsOk(b, nextId) && HandlesOk(b, hs, keys, next) && |b'| == |b| && InTable(b, x)
    requires forall y :: InTable(b', y) <==> InTable(b, y) && y != x
    requires x.handle.Some?
    ensures HandlesOk(b', hs[x.handle.value := hs[x.handle.value].(item := None)], keys - {x.handle.value}, next)
  {
    var h := x.handle.value;
    var hs', keys' := hs[h := hs[h].(item := None)], keys - {h};
    forall y | InTable(b', y) && y.handle.Some?
      ensures y.handle.value in keys' && hs'[y.handle.value] == Handle(Slot(y.key, |b|), Some(y.id))
    {
      assert InTable(b, y);
      assert y.handle.value == h ==> x.id == y.id;
    }
    forall g | g in keys' ensures exists y :: InTable(b', y) && y.handle == Some(g) && y.key == keys'[g] {
      var y :| InTable(b, y) && y.handle == Some(g) && y.key == keys[g];
      assert InTable(b', y);
    }
  }

  lemma RemovedHandlesNone(b: Buckets, x: Item, b': Buckets, hs: map<nat, Handle>, keys: map<nat, string>, next: nat)
    requires HandlesOk(b, hs, keys, next) && |b'| == |b|
    requires forall y :: InTable(b', y) <==> InTable(b, y) && y != x
    requires x.handle.None?
    ensures HandlesOk(b', hs, keys, next)
  {
    forall g | g in keys ensures exists y :: InTable(b', y) && y.handle == Some(g) && y.key == keys[g] {
      var y :| InTable(b, y) && y.handle == Some(g) && y.key == keys[g];
      assert InTable(b', y);
    }
  }

  lemma ItemIsKnown(b: Buckets, m: map<string, Ref>, hs: map<nat, Handle>, keys: map<nat, string>, next: nat, x: Item)
    requires Holds(b, m) && HandlesOk(b, hs, keys, next) && InTable(b, x)
    ensures x.key in m && (x.handle.Some? ==> x.handle.value in hs)
  {
  }

  /** Taking an item out takes out its key and the handle that led to it. */
  lemma RemoveKeepsTable(b: Buckets, nextId: nat, m: map<string, Ref>, hs: map<nat, Handle>, keys: map<nat, string>,
                         next: nat, size: nat, i: nat, k: nat)
    requires TableOk(b, nextId, m, hs, keys, next, size) && i < |b| && k < |b[i]|
    ensures b[i][k].key in m && size > 0
    ensures b[i][k].handle.Some? ==> b[i][k].handle.value in hs
    ensures var x := b[i][k];
            TableOk(b[i := WithoutAt(b[i], k)], nextId, m - {x.key},
                    if x.handle.Some? then hs[x.handle.value := hs[x.handle.value].(item := None)] else hs,
                    if x.handle.Some? then keys - {x.handle.value} else keys, next, size - 1)
  {
    hide BucketsOk, Holds, HandlesOk, WithoutAt;
    var x := b[i][k];
    var b' := b[i := WithoutAt(b[i], k)];
    Removed(b, nextId, i, k, b');
    ItemIsKnown(b, m, hs, keys, next, x);
    RemovedHolds(b, nextId, x, b', m);
    if x.handle.Some? { RemovedHandles(b, nextId, x, b', hs, keys, next); }
    else { RemovedHandlesNone(b, x, b', hs, keys, next); }
    assert m.Keys == (m - {x.key}).Keys + {x.key};
  }

  /** A live handle names the bucket its item is in, and only that item has the identity it names. */
  lemma HandleLeadsToItem(b: Buckets, nextId: nat, m: map<string, Ref>, hs: map<nat, Handle>, keys: map<nat, string>,
                          next: nat, size: nat, h: nat)
    requires TableOk(b, nextId, m, hs, keys, next, size) && h in hs
    ensures h in keys <==> hs[h].item.Some?
    ensures h in keys ==> hs[h].bucket < |b| && exists k :: 0 <= k < |b[hs[h].bucket]| && b[hs[h].bucket][k].id == hs[h].item.value
    ensures h in keys ==> forall k :: 0 <= k < |b[hs[h].bucket]| && b[hs[h].bucket][k].id == hs[h].item.value ==>
              b[hs[h].bucket][k].key == keys[h] && b[hs[h].bucket][k].handle == Some(h)
  {
    if h in keys {
      var x :| InTable(b, x) && x.handle == Some(h) && x.key == keys[h];
      var i := Slot(x.key, |b|);
      assert hs[h] == Handle(i, Some(x.id));
      forall k | 0 <= k < |b[i]| && b[i][k].id == x.id ensures b[i][k] == x {
        assert InTable(b, b[i][k]);
      }
    }
  }

  lemma DropDeadHandle(b: Buckets, nextId: nat, m: map<string, Ref>, hs: map<nat, Handle>, keys: map<nat, string>,
                       next: nat, size: nat, h: nat)
    requires TableOk(b, nextId, m, hs, keys, next, size) && h in hs && hs[h].item.None?
    ensures TableOk(b, nextId, m, hs - {h}, keys - {h}, next, size)
  {
    hide BucketsOk, Holds, HandlesOk;
    DeadHandle(b, hs, keys, next, h);
  }

  lemma DeadHandle(b: Buckets, hs: map<nat, Handle>, keys: map<nat, string>, next: nat, h: nat)
    requires HandlesOk(b, hs, keys, next) && h in hs && hs[h].item.None?
    ensures HandlesOk(b, hs - {h}, keys - {h}, next)
  {
    hide InTable;
    assert keys - {h} == keys;
  }

  lemma Detached(b: Buckets, nextId: nat, i: nat, k: nat, b': Buckets)
    requires BucketsOk(b, nextId) && i < |b| && k < |b[i]|
    requires b' == b[i := b[i][k := b[i][k].(handle := None)]]
    ensures InTable(b, b[i][k])
    ensures forall y :: InTable(b', y) <==> (InTable(b, y) && y != b[i][k]) || y == b[i][k].(handle := None)
  {
    var x, l := b[i][k], b[i];
    var x' := x.(handle := None);
    assert Slot(x.key, |b|) == i && Slot(x'.key, |b|) == i;
    assert b'[i] == l[k := x'];
    forall y ensures InTable(b', y) <==> (InTable(b, y) && y != x) || y == x' {
      if Slot(y.key, |b|) == i {
        if y in b'[i] && y != x' {
          var j :| 0 <= j < |l| && b'[i][j] == y;
          assert j != k && l[j] == y;
          if j < k { assert l[j].key != l[k].key; } else { assert l[k].key != l[j].key; }
        }
        if y in l && y != x {
          var j :| 0 <= j < |l| && l[j] == y;
          assert b'[i][j] == y;
        }
        assert b'[i][k] == x';
      }
    }
  }

  lemma DetachedBuckets(b: Buckets, nextId: nat, i: nat, k: nat, b': Buckets)
    requires BucketsOk(b, nextId) && i < |b| && k < |b[i]|
    requires b' == b[i := b[i][k := b[i][k].(handle := None)]]
    ensures BucketsOk(b', nextId)
  {
    Detached(b, nextId, i, k, b');
    assert forall i', j :: 0 <= i' < |b| && 0 <= j < |b[i']| ==> b'[i'][j].key == b[i'][j].key && b'[i'][j].id == b[i'][j].id;
  }

  lemma DetachKeepsTable(b: Buckets, nextId: nat, m: map<string, Ref>, hs: map<nat, Handle>, keys: map<nat, string>,
                         next: nat, size: nat, i: nat, k: nat, h: nat)
    requires TableOk(b, nextId, m, hs, keys, next, size) && i < |b| && k < |b[i]| && h in hs && b[i][k].handle == Some(h)
    ensures TableOk(b[i := b[i][k := b[i][k].(handle := None)]], nextId, m, hs - {h}, keys - {h}, next, size)
  {
    var x := b[i][k];
    var x' := x.(handle := None);
    var b' := b[i := b[i][k := x']];
    DetachedBuckets(b, nextId, i, k, b');
    Detached(b, nextId, i, k, b');
    DetachedHolds(b, x, x', b', m);
    DetachedHandles(b, nextId, x, x', b', hs, keys, next, h);
  }

  lemma DetachedHolds(b: Buckets, x: Item, x': Item, b': Buckets, m: map<string, Ref>)
    requires Holds(b, m) && InTable(b, x) && x' == x.(handle := None)
    requires forall y :: InTable(b', y) <==> (InTable(b, y) && y != x) || y == x'
    ensures Holds(b', m)
  {
    forall q | q in m ensures exists y :: InTable(b', y) && y.key == q {
      var y :| InTable(b, y) && y.key == q;
      var y' := if y == x then x' else y;
      assert InTable(b', y');
    }
  }

  lemma DetachedHandles(b: Buckets, nextId: nat, x: Item, x': Item, b': Buckets, hs: map<nat, Handle>, keys: map<nat, string>, next: nat, h: nat)
    requires BucketsOk(b, nextId) && HandlesOk(b, hs, keys, next) && |b'| == |b| && InTable(b, x)
    requires x' == x.(handle := None) && x.handle == Some(h)
    requires forall y :: InTable(b', y) <==> (InTable(b, y) && y != x) || y == x'
    ensures HandlesOk(b', hs - {h}, keys - {h}, next)
  {
    forall y | InTable(b', y) && y.handle.Some?
      ensures y.handle.value in keys - {h} && (hs - {h})[y.handle.value] == Handle(Slot(y.key, |b|), Some(y.id))
    {
      assert InTable(b, y);
      assert y.handle.value == h ==> x.id == y.id;
    }
    forall g | g in keys - {h} ensures exists y :: InTable(b', y) && y.handle == Some(g) && y.key == (keys - {h})[g] {
      var y :| InTable(b, y) && y.handle == Some(g) && y.key == keys[g];
      assert InTable(b', y);
    }
  }

  lemma FoundInBucket(b: Buckets, m: map<string, Ref>, key: string, j: nat)
    requires |b| > 0 && Holds(b, m) && j < |b[Slot(key, |b|)]| && b[Slot(key, |b|)][j].key == key
    ensures key in m && b[Slot(key, |b|)][j].val == m[key]
  {
    assert InTable(b, b[Slot(key, |b|)][j]);
  }

  lemma NotInBucket(b: Buckets, m: map<string, Ref>, key: string)
    requires |b| > 0 && Holds(b, m)
    requires forall k :: 0 <= k < |b[Slot(key, |b|)]| ==> b[Slot(key, |b|)][k].key != key
    ensures key !in m
  {
  }

  class HashTable {
    var buckets: Buckets
    var size: nat
    var handles: map<nat, Handle>
    var nextItem: nat
    var nextHandle: nat
    ghost var Contents: map<string, Ref>
    ghost var HandleKeys: map<nat, string>

    ghost predicate Valid()
      reads this
    {
      |buckets| > 0 && TableOk(buckets, nextItem, Contents, handles, HandleKeys, nextHandle, size)
    }

    constructor (count: nat)
      requires count > 0
      ensures Valid() && Contents == map[] && HandleKeys == map[]
    {
      buckets := seq(count, _ => []);
      size, handles, nextItem, nextHandle := 0, map[], 0, 0;
      Contents, HandleKeys := map[], map[];
    }

    /** Walks the bucket that a key's hash names. */
    method FindWithHash(hash: nat, key: string) returns (found: Option<nat>)
      requires Valid() && hash == HashOf(key)
      ensures found.Some? <==> key in Contents
      ensures found.Some? ==> found.value < |buckets[Slot(key, |buckets|)]|
      ensures found.Some? ==> buckets[Slot(key, |buckets|)][found.value].key == key
      ensures found.Some? ==> buckets[Slot(key, |buckets|)][found.value].val == Contents[key]
    {
      hide BucketsOk, Holds, HandlesOk, HashOf;
      var i := hash % |buckets|;
      var j := 0;
      while j < |buckets[i]|
        invariant j <= |buckets[i]|
        invariant forall k :: 0 <= k < j ==> buckets[i][k].key != key
      {
        if buckets[i][j].key == key {
          FoundInBucket(buckets, Contents, key, j);
          return Some(j);
        }
        j := j + 1;
      }
      NotInBucket(buckets, Contents, key);
      found := None;
    }

    method FindItem(key: string) returns (found: Option<nat>)
      requires Valid()
      ensures found.Some? <==> key in Contents
      ensures found.Some? ==> found.value < |buckets[Slot(key, |buckets|)]|
      ensures found.Some? ==> buckets[Slot(key, |buckets|)][found.value].key == key
    {
      hide TableOk;
      found := FindWithHash(HashOf(key), key);
    }

    method RetrieveWithHash(hash: nat, key: string) returns (val: Option<Ref>)
      requires Valid() && hash == HashOf(key)
      ensures val == if key in Contents then Some(Contents[key]) else None
    {
      hide TableOk, HashOf;
      var j := FindWithHash(hash, key);
      val := if j.Some? then Some(buckets[Slot(key, |buckets|)][j.value].val) else None;
    }

    method Retrieve(key: string) returns (val: Option<Ref>)
      requires Valid()
      ensures val == if key in Contents then Some(Contents[key]) else None
    {
      hide TableOk;
      val := RetrieveWithHash(HashOf(key), key);
    }

    /** An existing key keeps its value and gives no handle; a new key gets an item and a handle for it. */
    method Insert(key: string, val: Ref) returns (handle: Option<nat>)
      requires Valid()
      modifies this
      ensures Valid()
      ensures handle.Some? <==> key !in old(Contents)
      ensures handle.None? ==> Contents == old(Contents) && HandleKeys == old(HandleKeys)
      ensures handle.Some? ==> Contents == old(Contents)[key := val]
      ensures handle.Some? ==> handle.value !in old(HandleKeys) && HandleKeys == old(HandleKeys)[handle.value := key]
    {
      hide TableOk;
      var j := FindItem(key);
      if j.Some? {
        return None;
      }
      var i := Slot(key, |buckets|);
      var x := Item(nextItem, key, val, Some(nextHandle));
      AppendKeepsTable(buckets, nextItem, Contents, handles, HandleKeys, nextHandle, size, x);
      buckets := buckets[i := buckets[i] + [x]];
      handles := handles[nextHandle := Handle(i, Some(nextItem))];
      Contents := Contents[key := val];
      HandleKeys := HandleKeys[nextHandle := key];
      handle := Some(nextHandle);
      size, nextItem, nextHandle := size + 1, nextItem + 1, nextHandle + 1;
    }

    /** Takes an item out of its bucket and clears the handle that pointed at it. */
    method RemoveItem(i: nat, k: nat)
      requires Valid() && i < |buckets| && k < |buckets[i]|
      modifies this
      ensures Valid()
      ensures old(buckets[i][k].key) in old(Contents)
      ensures Contents == old(Contents) - {old(buckets[i][k].key)}
      ensures HandleKeys == if old(buckets[i][k].handle).Some? then old(HandleKeys) - {old(buckets[i][k].handle).value} else old(HandleKeys)
      ensures handles.Keys == old(handles).Keys
    {
      hide TableOk;
      var x := buckets[i][k];
      RemoveKeepsTable(buckets, nextItem, Contents, handles, HandleKeys, nextHandle, size, i, k);
      buckets := buckets[i := WithoutAt(buckets[i], k)];
      if x.handle.Some? {
        handles := handles[x.handle.value := handles[x.handle.value].(item := None)];
        HandleKeys := HandleKeys - {x.handle.value};
      }
      Contents := Contents - {x.key};
      size := size - 1;
    }

    /** Removal through a handle takes out the key the handle leads to; a handle whose item is gone does nothing. */
    method RemoveByHandle(h: nat) returns (removed: bool)
      requires Valid() && h in handles
      modifies this
      ensures Valid()
      ensures removed <==> h in old(HandleKeys)
      ensures removed ==> Contents == old(Contents) - {old(HandleKeys)[h]} && HandleKeys == old(HandleKeys) - {h}
      ensures !removed ==> Contents == old(Contents) && HandleKeys == old(HandleKeys)
      ensures handles.Keys == old(handles).Keys
    {
      hide TableOk;
      HandleLeadsToItem(buckets, nextItem, Contents, handles, HandleKeys, nextHandle, size, h);
      var hd := handles[h];
      if hd.item.None? { return false; }
      var k := FindById(hd.bucket, hd.item.value);
      RemoveItem(hd.bucket, k);
      removed := true;
    }

    /** Freeing a handle leaves its item, if any, in place without a handle. */
    method FreeHandle(h: nat)
      requires Valid() && h in handles
      modifies this
      ensures Valid()
      ensures Contents == old(Contents) && HandleKeys == old(HandleKeys) - {h} && handles == old(handles) - {h}
    {
      hide TableOk;
      HandleLeadsToItem(buckets, nextItem, Contents, handles, HandleKeys, nextHandle, size, h);
      var hd := handles[h];
      if hd.item.Some? {
        var k := FindById(hd.bucket, hd.item.value);
        DetachKeepsTable(buckets, nextItem, Contents, handles, HandleKeys, nextHandle, size, hd.bucket, k, h);
        buckets := buckets[hd.bucket := buckets[hd.bucket][k := buckets[hd.bucket][k].(handle := None)]];
      } else {
        DropDeadHandle(buckets, nextItem, Contents, handles, HandleKeys, nextHandle, size, h);
      }
      HandleKeys := HandleKeys - {h};
      handles := handles - {h};
    }

    method FindById(i: nat, id: nat) returns (k: nat)
      requires i < |buckets| && exists j :: 0 <= j < |buckets[i]| && buckets[i][j].id == id
      ensures k < |buckets[i]| && buckets[i][k].id == id
    {
      ghost var kx :| 0 <= kx < |buckets[i]| && buckets[i][kx].id == id;
      k := 0;
      while buckets[i][k].id != id
        invariant k <= kx
        decreases kx - k
      {
        k := k + 1;
      }
    }
  }
}
