/** List transforms that the front end and the search function share:
    `filter` away a set of values, JavaScript `Map` insertion semantics
    (and `Set`, its special case), and positions of first and last
    occurrences. */
module SeqOps {

  /** `s.filter(y => !drop.includes(y))`. */
  function Without<T(==, !new)>(s: seq<T>, drop: seq<T>): (r: seq<T>)
    ensures forall y :: y in r <==> y in s && y !in drop
    ensures |r| <= |s|
  {
    if s == [] then []
    else (if s[0] in drop then [] else [s[0]]) + Without(s[1..], drop)
  }

  /** Filtering distributes over concatenation, so the survivors keep their
      relative order. */
  lemma {:induction false} WithoutAppend<T(!new)>(a: seq<T>, b: seq<T>, drop: seq<T>)
    ensures Without(a + b, drop) == Without(a, drop) + Without(b, drop)
  {
    if a == [] {
      assert a + b == b;
    } else {
      assert (a + b)[0] == a[0];
      assert (a + b)[1..] == a[1..] + b;
      WithoutAppend(a[1..], b, drop);
    }
  }

  /** Filtering removes every copy of a dropped value and no copy of any
      other value. */
  lemma {:induction false} WithoutCounts<T(!new)>(s: seq<T>, drop: seq<T>)
    ensures forall y :: multiset(Without(s, drop))[y] == if y in drop then 0 else multiset(s)[y]
  {
    if s != [] {
      WithoutCounts(s[1..], drop);
      assert s == [s[0]] + s[1..];
    }
  }

  /** Filtering a list that holds no dropped value returns it unchanged. */
  lemma {:induction false} WithoutNothing<T(!new)>(s: seq<T>, drop: seq<T>)
    requires forall i :: 0 <= i < |s| ==> s[i] !in drop
    ensures Without(s, drop) == s
  {
    if s != [] {
      WithoutNothing(s[1..], drop);
    }
  }

  /** `a` is `b` with some elements left out: greedy matching of `a`'s
      elements, in order, against `b`'s. */
  predicate IsSubsequence<T(==)>(a: seq<T>, b: seq<T>)
    decreases |b|
  {
    if a == [] then true
    else if b == [] then false
    else if a[0] == b[0] then IsSubsequence(a[1..], b[1..])
    else IsSubsequence(a, b[1..])
  }

  /** The survivors of a filter appear in the original list in the same
      relative order. */
  lemma {:induction false} WithoutSubsequence<T(!new)>(s: seq<T>, drop: seq<T>)
    ensures IsSubsequence(Without(s, drop), s)
  {
    if s != [] {
      WithoutSubsequence(s[1..], drop);
      var rest := Without(s[1..], drop);
      if s[0] !in drop {
        assert Without(s, drop) == [s[0]] + rest;
        assert ([s[0]] + rest)[1..] == rest;
      } else {
        assert Without(s, drop) == rest;
        if rest != [] {
          assert rest[0] in rest && rest[0] != s[0];
        }
      }
    }
  }

  /** `s.map(key)`. */
  function Keys<T, K>(s: seq<T>, key: T -> K): (r: seq<K>)
    ensures |r| == |s|
    ensures forall i :: 0 <= i < |s| ==> r[i] == key(s[i])
  {
    seq(|s|, i requires 0 <= i < |s| => key(s[i]))
  }

  /** Position of the first occurrence of `k`. */
  function FirstIndex<K(==)>(ks: seq<K>, k: K): (r: nat)
    requires k in ks
    ensures r < |ks| && ks[r] == k
    ensures forall j :: 0 <= j < r ==> ks[j] != k
  {
    if ks[0] == k then 0 else 1 + FirstIndex(ks[1..], k)
  }

  /** The first `k` in `a + [k] + b` is the one after `a` when `a` has
      none. */
  lemma FirstIndexAfter<K>(a: seq<K>, k: K, b: seq<K>)
    requires k !in a
    ensures k in a + [k] + b
    ensures FirstIndex(a + [k] + b, k) == |a|
  {
    var s := a + [k] + b;
    assert s[|a|] == k;
  }

  /** Position of the last occurrence of `k`. */
  function LastIndex<K(==)>(ks: seq<K>, k: K): (r: nat)
    requires k in ks
    ensures r < |ks| && ks[r] == k
    ensures forall j :: r < j < |ks| ==> ks[j] != k
  {
    if ks[|ks| - 1] == k then |ks| - 1 else LastIndex(ks[..|ks| - 1], k)
  }

  /** No two entries share a key. */
  predicate DistinctKeys<T, K(==)>(s: seq<T>, key: T -> K) {
    forall i, j :: 0 <= i < j < |s| ==> key(s[i]) != key(s[j])
  }

  /** One `map.set(key(x), x)` on a JavaScript `Map` whose entries are listed
      in insertion order: a key already present keeps its position and takes
      the new value; a new key is added last. */
  function Upsert<T, K(==)>(entries: seq<T>, x: T, key: T -> K): seq<T>
  {
    if entries == [] then [x]
    else if key(entries[0]) == key(x) then [x] + entries[1..]
    else [entries[0]] + Upsert(entries[1..], x, key)
  }

  /** `Array.from(new Map(s.map(x => [key(x), x])).values())`. */
  function MapDedupe<T, K(==)>(s: seq<T>, key: T -> K): seq<T>
  {
    if s == [] then [] else Upsert(MapDedupe(s[..|s| - 1], key), s[|s| - 1], key)
  }

  /** The identity, as the key of a `Set`. */
  function Self<T>(x: T): T { x }

  /** `[...new Set(s)]`: a `Set` is a `Map` from each value to itself. */
  function SetOrder<T(==)>(s: seq<T>): seq<T>
  {
    MapDedupe(s, Self)
  }

  lemma UpsertNew<T, K>(e: seq<T>, x: T, key: T -> K)
    requires key(x) !in Keys(e, key)
    ensures Upsert(e, x, key) == e + [x]
  {
    if e != [] {
      assert Keys(e[1..], key) == Keys(e, key)[1..];
      UpsertNew(e[1..], x, key);
    }
  }

  lemma {:induction false} UpsertOld<T, K>(e: seq<T>, x: T, key: T -> K)
    requires key(x) in Keys(e, key)
    ensures Upsert(e, x, key) == e[FirstIndex(Keys(e, key), key(x)) := x]
  {
    var ks := Keys(e, key);
    if key(e[0]) != key(x) {
      assert Keys(e[1..], key) == ks[1..];
      UpsertOld(e[1..], x, key);
      var p := FirstIndex(ks[1..], key(x));
      assert FirstIndex(ks, key(x)) == 1 + p;
      assert [e[0]] + e[1..][p := x] == e[p + 1 := x];
    } else {
      assert [x] + e[1..] == e[0 := x];
    }
  }

  lemma KeysSnoc<T, K>(s: seq<T>, key: T -> K)
    requires s != []
    ensures Keys(s, key) == Keys(s[..|s| - 1], key) + [key(s[|s| - 1])]
  {
  }

  /** The value kept for a key lives at that key's last occurrence. */
  ghost predicate KeepsLastValues<T, K>(s: seq<T>, d: seq<T>, key: T -> K) {
    forall i :: 0 <= i < |d| ==>
      key(d[i]) in Keys(s, key) && d[i] == s[LastIndex(Keys(s, key), key(d[i]))]
  }

  /** The keys `dk` are listed by their first occurrence in `ks`. */
  ghost predicate FirstOccurrenceOrder<K>(ks: seq<K>, dk: seq<K>) {
    forall i, j :: 0 <= i < j < |dk| && dk[i] in ks && dk[j] in ks ==>
      FirstIndex(ks, dk[i]) < FirstIndex(ks, dk[j])
  }

  /** Appending one element moves no first occurrence, and no last
      occurrence of any other key. */
  lemma SnocIndexes<K>(ks': seq<K>, k': K)
    ensures forall k :: k in ks' ==> FirstIndex(ks' + [k'], k) == FirstIndex(ks', k)
    ensures forall k :: k in ks' && k != k' ==> LastIndex(ks' + [k'], k) == LastIndex(ks', k)
    ensures LastIndex(ks' + [k'], k') == |ks'|
    ensures k' !in ks' ==> FirstIndex(ks' + [k'], k') == |ks'|
  {
    var ks := ks' + [k'];
    forall k | k in ks'
      ensures FirstIndex(ks, k) == FirstIndex(ks', k)
    {
      var p := FirstIndex(ks', k);
      assert ks[p] == k;
    }
    forall k | k in ks' && k != k'
      ensures LastIndex(ks, k) == LastIndex(ks', k)
    {
      var p := LastIndex(ks, k);
      assert ks'[p] == k;
    }
  }

  /** No two entries of a JavaScript `Map` share a key. */
  lemma {:induction false} MapDedupeDistinct<T, K>(s: seq<T>, key: T -> K)
    ensures DistinctKeys(MapDedupe(s, key), key)
    ensures |MapDedupe(s, key)| <= |s|
  {
    if s != [] {
      var s', x := s[..|s| - 1], s[|s| - 1];
      var d' := MapDedupe(s', key);
      MapDedupeDistinct(s', key);
      UpsertKeys(d', x, key);
      if key(x) in Keys(d', key) {
        UpsertOld(d', x, key);
      } else {
        UpsertNew(d', x, key);
      }
    }
  }

  /** Every key of the `Map` occurs in the list it was built from. */
  lemma {:induction false} MapDedupeNoKeyInvented<T, K>(s: seq<T>, key: T -> K)
    ensures forall i :: 0 <= i < |MapDedupe(s, key)| ==> key(MapDedupe(s, key)[i]) in Keys(s, key)
  {
    if s != [] {
      var s', x := s[..|s| - 1], s[|s| - 1];
      var d', d := MapDedupe(s', key), MapDedupe(s, key);
      MapDedupeNoKeyInvented(s', key);
      KeysSnoc(s, key);
      if key(x) in Keys(d', key) {
        UpsertOld(d', x, key);
      } else {
        UpsertNew(d', x, key);
      }
      forall i | 0 <= i < |d| ensures key(d[i]) in Keys(s, key) {
        if d[i] != x {
          assert d[i] == d'[i];
        }
      }
    }
  }

  /** Every key of the list is a key of the `Map`. */
  lemma {:induction false} MapDedupeNoKeyLost<T, K>(s: seq<T>, key: T -> K)
    ensures forall j :: 0 <= j < |s| ==> key(s[j]) in Keys(MapDedupe(s, key), key)
  {
    if s != [] {
      var s', x := s[..|s| - 1], s[|s| - 1];
      var d', d := MapDedupe(s', key), MapDedupe(s, key);
      MapDedupeNoKeyLost(s', key);
      UpsertKeys(d', x, key);
      forall j | 0 <= j < |s| ensures key(s[j]) in Keys(d, key) {
        if j < |s| - 1 {
          assert s[j] == s'[j];
        }
      }
    }
  }

  lemma NoKeyLostAt<T, K>(s: seq<T>, key: T -> K, k: K)
    requires k in Keys(s, key)
    ensures k in Keys(MapDedupe(s, key), key)
  {
    var j := FirstIndex(Keys(s, key), k);
    MapDedupeNoKeyLost(s, key);
    assert key(s[j]) == k;
  }

  /** A JavaScript `Map` built from a list holds one entry per distinct key,
      and no key is invented or lost. */
  lemma MapDedupeKeys<T, K>(s: seq<T>, key: T -> K)
    ensures DistinctKeys(MapDedupe(s, key), key)
    ensures forall k :: k in Keys(MapDedupe(s, key), key) <==> k in Keys(s, key)
    ensures |MapDedupe(s, key)| <= |s|
  {
    MapDedupeDistinct(s, key);
    var d := MapDedupe(s, key);
    forall k ensures k in Keys(d, key) <==> k in Keys(s, key) {
      if k in Keys(d, key) {
        var i := FirstIndex(Keys(d, key), k);
        MapDedupeNoKeyInvented(s, key);
        assert key(d[i]) == k;
      }
      if k in Keys(s, key) {
        NoKeyLostAt(s, key, k);
      }
    }
  }

  /** One `map.set` keeps every entry at its key's last occurrence. */
  lemma UpsertLastValues<T, K>(s': seq<T>, x: T, d': seq<T>, key: T -> K)
    requires DistinctKeys(d', key)
    requires KeepsLastValues(s', d', key)
    ensures KeepsLastValues(s' + [x], Upsert(d', x, key), key)
  {
    var s, d := s' + [x], Upsert(d', x, key);
    var ks, ks' := Keys(s, key), Keys(s', key);
    assert ks == ks' + [key(x)];
    SnocIndexes(ks', key(x));
    if key(x) in Keys(d', key) {
      UpsertOld(d', x, key);
      var p := FirstIndex(Keys(d', key), key(x));
      forall i | 0 <= i < |d|
        ensures key(d[i]) in ks && d[i] == s[LastIndex(ks, key(d[i]))]
      {
        if i != p {
          assert key(d[i]) != key(x);
          assert d[i] == d'[i];
        }
      }
    } else {
      UpsertNew(d', x, key);
      forall i | 0 <= i < |d|
        ensures key(d[i]) in ks && d[i] == s[LastIndex(ks, key(d[i]))]
      {
        if i < |d'| {
          assert d[i] == d'[i];
          assert key(d'[i]) == Keys(d', key)[i];
        }
      }
    }
  }

  /** Each entry of the `Map` carries the value of its key's last
      occurrence. */
  lemma {:induction false} MapDedupeLastValues<T, K>(s: seq<T>, key: T -> K)
    ensures KeepsLastValues(s, MapDedupe(s, key), key)
  {
    if s != [] {
      var s', x := s[..|s| - 1], s[|s| - 1];
      MapDedupeLastValues(s', key);
      MapDedupeDistinct(s', key);
      assert s == s' + [x];
      UpsertLastValues(s', x, MapDedupe(s', key), key);
    }
  }

  /** Appending to the list of occurrences keeps an ordered key list
      ordered, and a key seen for the first time may follow it. */
  lemma OrderSnoc<K>(ks': seq<K>, k': K, dk: seq<K>)
    requires FirstOccurrenceOrder(ks', dk)
    requires forall i :: 0 <= i < |dk| ==> dk[i] in ks'
    ensures FirstOccurrenceOrder(ks' + [k'], dk)
    ensures k' !in ks' ==> FirstOccurrenceOrder(ks' + [k'], dk + [k'])
  {
    var ks := ks' + [k'];
    SnocIndexes(ks', k');
    if k' !in ks' {
      var dk2 := dk + [k'];
      forall i, j | 0 <= i < j < |dk2| && dk2[i] in ks && dk2[j] in ks
        ensures FirstIndex(ks, dk2[i]) < FirstIndex(ks, dk2[j])
      {
        assert dk2[i] == dk[i];
        if j < |dk| {
          assert dk2[j] == dk[j];
        }
      }
    }
  }

  /** The key-level step of one `map.set`: the keys stay ordered by first
      occurrence whether the key is old or new. */
  lemma OrderStep<K>(ks': seq<K>, dk': seq<K>, k: K)
    requires FirstOccurrenceOrder(ks', dk')
    requires forall i :: 0 <= i < |dk'| ==> dk'[i] in ks'
    requires k in ks' ==> k in dk'
    ensures FirstOccurrenceOrder(ks' + [k], if k in dk' then dk' else dk' + [k])
  {
    OrderSnoc(ks', k, dk');
  }

  /** One `map.set` keeps the keys ordered by first occurrence. */
  lemma UpsertOrder<T, K>(s': seq<T>, x: T, d': seq<T>, key: T -> K)
    requires FirstOccurrenceOrder(Keys(s', key), Keys(d', key))
    requires forall i :: 0 <= i < |Keys(d', key)| ==> Keys(d', key)[i] in Keys(s', key)
    requires key(x) in Keys(s', key) ==> key(x) in Keys(d', key)
    ensures FirstOccurrenceOrder(Keys(s' + [x], key), Keys(Upsert(d', x, key), key))
  {
    OrderStep(Keys(s', key), Keys(d', key), key(x));
    KeysAppendOne(s', x, key);
    UpsertKeys(d', x, key);
  }

  /** Membership of keys, restated on the key lists. */
  lemma KeysCover<T, K>(a: seq<T>, b: seq<T>, key: T -> K)
    requires forall i :: 0 <= i < |a| ==> key(a[i]) in Keys(b, key)
    ensures forall i :: 0 <= i < |Keys(a, key)| ==> Keys(a, key)[i] in Keys(b, key)
  {
  }

  lemma KeysAppendOne<T, K>(s': seq<T>, x: T, key: T -> K)
    ensures Keys(s' + [x], key) == Keys(s', key) + [key(x)]
  {
  }

  /** The keys after one `map.set`. */
  lemma UpsertKeys<T, K>(d': seq<T>, x: T, key: T -> K)
    ensures Keys(Upsert(d', x, key), key) ==
      if key(x) in Keys(d', key) then Keys(d', key) else Keys(d', key) + [key(x)]
  {
    if key(x) in Keys(d', key) {
      UpsertOld(d', x, key);
    } else {
      UpsertNew(d', x, key);
      KeysAppendOne(d', x, key);
    }
  }

  /** The entries of the `Map` are ordered by their keys' first
      occurrences. */
  lemma {:induction false} MapDedupeOrder<T, K>(s: seq<T>, key: T -> K)
    ensures FirstOccurrenceOrder(Keys(s, key), Keys(MapDedupe(s, key), key))
  {
    if s != [] {
      var s', x := s[..|s| - 1], s[|s| - 1];
      MapDedupeOrder(s', key);
      MapDedupeNoKeyInvented(s', key);
      if key(x) in Keys(s', key) {
        NoKeyLostAt(s', key, key(x));
      }
      assert s == s' + [x];
      KeysCover(MapDedupe(s', key), s', key);
      UpsertOrder(s', x, MapDedupe(s', key), key);
    }
  }

  /** `[...new Set(s)]` lists each value of `s` once, in order of first
      occurrence. */
  lemma SetOrderSpec<T>(s: seq<T>)
    ensures forall i, j :: 0 <= i < j < |SetOrder(s)| ==> SetOrder(s)[i] != SetOrder(s)[j]
    ensures forall y :: y in SetOrder(s) <==> y in s
    ensures FirstOccurrenceOrder(s, SetOrder(s))
  {
    var d := SetOrder(s);
    MapDedupeKeys(s, Self);
    MapDedupeOrder(s, Self);
    assert Keys(s, Self) == s;
    assert Keys(d, Self) == d;
  }
}
