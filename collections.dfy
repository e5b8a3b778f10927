/**
 * The parts of Laravel's Collection API the core relies on: `groupBy` (buckets in
 * order of first appearance), `sortBy` / `sortByDesc` (PHP's sort is stable since
 * PHP 8, so ties keep their input order), and flattening nested lists.
 */
module Collections {

  /** Concatenation of a list of lists. */
  function Flatten<T>(ss: seq<seq<T>>): seq<T>
  {
    if ss == [] then [] else ss[0] + Flatten(ss[1..])
  }

  lemma {:induction false} FlattenAppend<T>(ss: seq<seq<T>>, s: seq<T>)
    ensures Flatten(ss + [s]) == Flatten(ss) + s
  {
    if ss == [] {
      assert ss + [s] == [s];
    } else {
      assert (ss + [s])[1..] == ss[1..] + [s];
      FlattenAppend(ss[1..], s);
    }
  }

  /** Appending one element to one inner list adds exactly that element to the flattened multiset. */
  lemma {:induction false} FlattenPush<T>(ss: seq<seq<T>>, i: nat, x: T)
    requires i < |ss|
    ensures multiset(Flatten(ss[i := ss[i] + [x]])) == multiset(Flatten(ss)) + multiset{x}
    ensures |Flatten(ss[i := ss[i] + [x]])| == |Flatten(ss)| + 1
  {
    if i == 0 {
      assert ss[i := ss[i] + [x]][1..] == ss[1..];
    } else {
      var t, rt := ss[i := ss[i] + [x]], ss[1..][i - 1 := ss[i] + [x]];
      assert t[1..] == rt && t[0] == ss[0];
      assert Flatten(t) == ss[0] + Flatten(rt);
      FlattenPush(ss[1..], i - 1, x);
      AddAssoc(multiset(ss[0]), multiset(Flatten(ss[1..])), multiset{x});
    }
  }

  /** The elements of `s` whose key is `k`, in order. */
  function WithKey<T, K(==)>(s: seq<T>, key: T -> K, k: K): (r: seq<T>)
    ensures |r| <= |s|
    ensures forall i :: 0 <= i < |r| ==> key(r[i]) == k
  {
    if s == [] then []
    else (if key(s[0]) == k then [s[0]] else []) + WithKey(s[1..], key, k)
  }

  /** Filtering distributes over appending one element. */
  lemma {:induction false} WithKeyAppend<T, K>(s: seq<T>, key: T -> K, k: K, x: T)
    ensures WithKey(s + [x], key, k) == WithKey(s, key, k) + (if key(x) == k then [x] else [])
  {
    if s == [] {
      assert [x][1..] == [];
    } else {
      assert (s + [x])[0] == s[0] && (s + [x])[1..] == s[1..] + [x];
      WithKeyAppend(s[1..], key, k, x);
    }
  }

  lemma {:induction false} WithKeyMultiset<T, K>(s: seq<T>, key: T -> K, k: K, x: T)
    ensures multiset(WithKey(s, key, k))[x] == if key(x) == k then multiset(s)[x] else 0
  {
    if s != [] {
      WithKeyMultiset(s[1..], key, k, x);
      assert s == [s[0]] + s[1..];
    }
  }

  /** The elements kept by the filter are exactly the elements of `s` with key `k`. */
  lemma WithKeyMembers<T, K>(s: seq<T>, key: T -> K, k: K)
    ensures forall x :: x in WithKey(s, key, k) <==> x in s && key(x) == k
  {
    forall x ensures x in WithKey(s, key, k) <==> x in s && key(x) == k {
      WithKeyMultiset(s, key, k, x);
      assert x in WithKey(s, key, k) <==> multiset(WithKey(s, key, k))[x] > 0;
      assert x in s <==> multiset(s)[x] > 0;
    }
  }

  /** The distinct keys of `s`, in order of first appearance. */
  function DistinctKeys<T, K(==)>(s: seq<T>, key: T -> K): (ks: seq<K>)
    ensures forall i, j :: 0 <= i < j < |ks| ==> ks[i] != ks[j]
    ensures forall i :: 0 <= i < |s| ==> key(s[i]) in ks
    ensures forall k :: k in ks ==> exists i :: 0 <= i < |s| && key(s[i]) == k
  {
    if s == [] then []
    else
      var ks := DistinctKeys(s[..|s| - 1], key);
      assert forall i :: 0 <= i < |s| - 1 ==> s[..|s| - 1][i] == s[i];
      if key(s[|s| - 1]) in ks then ks else ks + [key(s[|s| - 1])]
  }

  /** One bucket per key of `ks`, each holding the elements with that key. */
  function Buckets<T, K(==)>(s: seq<T>, key: T -> K, ks: seq<K>): (bs: seq<seq<T>>)
    ensures |bs| == |ks|
    ensures forall i :: 0 <= i < |bs| ==> bs[i] == WithKey(s, key, ks[i])
  {
    if ks == [] then [] else [WithKey(s, key, ks[0])] + Buckets(s, key, ks[1..])
  }

  /** Laravel's `groupBy(key)`: buckets in order of first appearance of their key. */
  function GroupBy<T, K(==)>(s: seq<T>, key: T -> K): seq<seq<T>>
  {
    Buckets(s, key, DistinctKeys(s, key))
  }

  lemma {:induction false} BucketsMultiset<T, K>(s: seq<T>, key: T -> K, ks: seq<K>, x: T)
    requires forall i, j :: 0 <= i < j < |ks| ==> ks[i] != ks[j]
    ensures multiset(Flatten(Buckets(s, key, ks)))[x] == if key(x) in ks then multiset(s)[x] else 0
  {
    if ks != [] {
      BucketsMultiset(s, key, ks[1..], x);
      WithKeyMultiset(s, key, ks[0], x);
      assert Buckets(s, key, ks)[1..] == Buckets(s, key, ks[1..]);
      assert key(x) in ks <==> key(x) == ks[0] || key(x) in ks[1..];
      assert key(x) == ks[0] ==> key(x) !in ks[1..];
    }
  }

  /** groupBy loses and duplicates nothing: its buckets hold exactly the input. */
  lemma GroupByMultiset<T, K>(s: seq<T>, key: T -> K)
    ensures multiset(Flatten(GroupBy(s, key))) == multiset(s)
  {
    var m, n := multiset(Flatten(GroupBy(s, key))), multiset(s);
    forall x ensures m[x] == n[x] {
      GroupByCount(s, key, x);
    }
    MultisetExt(m, n);
  }

  lemma MultisetExt<T>(m: multiset<T>, n: multiset<T>)
    requires forall x :: m[x] == n[x]
    ensures m == n
  {
  }

  lemma AddAssoc<T>(a: multiset<T>, b: multiset<T>, c: multiset<T>)
    ensures (a + b) + c == a + (b + c)
  {
    MultisetExt((a + b) + c, a + (b + c));
  }

  /** One more occurrence of the same element on both sides can be cancelled. */
  lemma AddCancel<T>(m: multiset<T>, n: multiset<T>, x: T)
    requires m + multiset{x} == n + multiset{x}
    ensures m == n
  {
    forall y ensures m[y] == n[y] {
      assert (m + multiset{x})[y] == (n + multiset{x})[y];
    }
    MultisetExt(m, n);
  }

  lemma TailOfCons<T>(x: T, s: seq<T>)
    ensures ([x] + s)[0] == x && ([x] + s)[1..] == s
  {
  }

  /** A sequence is its part before j, its element at j and its part after j. */
  lemma SplitAt<T>(s: seq<T>, j: nat)
    requires j < |s|
    ensures s == (s[..j] + [s[j]]) + s[j + 1..]
  {
  }

  /** Two orderings of the same elements, less the first of one and an occurrence of it in the other. */
  lemma FirstRemoved<T>(a: seq<T>, b: seq<T>, j: nat)
    requires multiset(a) == multiset(b) && a != [] && j < |b| && b[j] == a[0]
    ensures multiset(a[1..]) == multiset(b[..j] + b[j + 1..])
  {
    var ma, mr := multiset(a[1..]), multiset(b[..j] + b[j + 1..]);
    assert multiset(a) == ma + multiset{a[0]} by {
      RemoveAt(a, 0);
      assert a[..0] + a[1..] == a[1..];
    }
    assert multiset(b) == mr + multiset{a[0]} by {
      RemoveAt(b, j);
    }
    AddCancel(ma, mr, a[0]);
  }

  /** An element between two sequences adds one occurrence to the elements of both. */
  lemma SplitMultiset<T>(l: seq<T>, x: T, r: seq<T>)
    ensures multiset((l + [x]) + r) == multiset(l + r) + multiset{x}
  {
    AddAssoc(multiset(l), multiset{x}, multiset(r));
    assert multiset(l) + multiset(r) + multiset{x} == multiset(l) + multiset{x} + multiset(r);
  }

  /** Taking out the element at j leaves the rest of the multiset. */
  lemma RemoveAt<T>(s: seq<T>, j: nat)
    requires j < |s|
    ensures multiset(s) == multiset(s[..j] + s[j + 1..]) + multiset{s[j]}
  {
    SplitAt(s, j);
    AddAssoc(multiset(s[..j]), multiset{s[j]}, multiset(s[j + 1..]));
  }

  lemma GroupByCount<T, K>(s: seq<T>, key: T -> K, x: T)
    ensures multiset(Flatten(GroupBy(s, key)))[x] == multiset(s)[x]
  {
    var ks := DistinctKeys(s, key);
    BucketsMultiset(s, key, ks, x);
    if x in s {
      var i :| 0 <= i < |s| && s[i] == x;
      assert key(s[i]) in ks;
    } else {
      assert multiset(s)[x] == 0;
    }
  }

  /** Every bucket of groupBy holds one key only. */
  lemma GroupBySameKey<T, K>(s: seq<T>, key: T -> K)
    ensures forall i, j, l :: 0 <= i < |GroupBy(s, key)| && 0 <= j < l < |GroupBy(s, key)[i]| ==>
              key(GroupBy(s, key)[i][j]) == key(GroupBy(s, key)[i][l])
  {
    var bs := GroupBy(s, key);
    var ks := DistinctKeys(s, key);
    forall i, j, l | 0 <= i < |bs| && 0 <= j < l < |bs[i]|
      ensures key(bs[i][j]) == key(bs[i][l])
    {
      assert bs[i] == WithKey(s, key, ks[i]);
    }
  }

  /** Sizes never increase along `bs`. */
  ghost predicate SizesNonIncreasing<T>(bs: seq<seq<T>>)
  {
    forall i, j :: 0 <= i < j < |bs| ==> |bs[i]| >= |bs[j]|
  }

  /** Inserts `b` after every bucket at least as large as it (keeps ties in input order). */
  function InsertBySizeDesc<T>(sorted: seq<seq<T>>, b: seq<T>): (r: seq<seq<T>>)
    requires SizesNonIncreasing(sorted)
    ensures SizesNonIncreasing(r)
    ensures multiset(r) == multiset(sorted) + multiset{b}
    ensures multiset(Flatten(r)) == multiset(Flatten(sorted)) + multiset(b)
  {
    if sorted == [] then [b]
    else if |b| > |sorted[0]| then
      assert ([b] + sorted)[1..] == sorted;
      [b] + sorted
    else
      var rest := InsertBySizeDesc(sorted[1..], b);
      InsertedBehindHead(sorted, b, rest);
      FlattenBehindHead(sorted, b, rest);
      [sorted[0]] + rest
  }

  /** An element of a list that holds `tail` and one more element `x` is `x` or an element of `tail`. */
  lemma InsertedFrom<T>(rest: seq<T>, tail: seq<T>, x: T, i: nat)
    requires multiset(rest) == multiset(tail) + multiset{x} && i < |rest|
    ensures rest[i] == x || rest[i] in tail
  {
    assert rest[i] in multiset(rest);
  }

  /** Keeping the head of a size-sorted list in front of the insertion into its tail. */
  lemma InsertedBehindHead<T>(sorted: seq<seq<T>>, b: seq<T>, rest: seq<seq<T>>)
    requires sorted != [] && SizesNonIncreasing(sorted) && |b| <= |sorted[0]|
    requires SizesNonIncreasing(rest)
    requires multiset(rest) == multiset(sorted[1..]) + multiset{b}
    ensures SizesNonIncreasing([sorted[0]] + rest)
    ensures multiset([sorted[0]] + rest) == multiset(sorted) + multiset{b}
  {
    var r := [sorted[0]] + rest;
    forall i | 0 <= i < |rest| ensures |rest[i]| <= |sorted[0]| {
      InsertedFrom(rest, sorted[1..], b, i);
    }
    forall i, j | 0 <= i < j < |r| ensures |r[i]| >= |r[j]| {
      assert r[j] == rest[j - 1];
      if i > 0 { assert r[i] == rest[i - 1]; }
    }
    assert sorted == [sorted[0]] + sorted[1..];
    AddAssoc(multiset{sorted[0]}, multiset(sorted[1..]), multiset{b});
  }

  lemma FlattenBehindHead<T>(sorted: seq<seq<T>>, b: seq<T>, rest: seq<seq<T>>)
    requires sorted != []
    requires multiset(Flatten(rest)) == multiset(Flatten(sorted[1..])) + multiset(b)
    ensures multiset(Flatten([sorted[0]] + rest)) == multiset(Flatten(sorted)) + multiset(b)
  {
    var r := [sorted[0]] + rest;
    assert r[0] == sorted[0] && r[1..] == rest;
    assert Flatten(r) == sorted[0] + Flatten(rest);
    assert Flatten(sorted) == sorted[0] + Flatten(sorted[1..]);
    AddAssoc(multiset(sorted[0]), multiset(Flatten(sorted[1..])), multiset(b));
  }

  /** Laravel's `sortByDesc(fn ($b) => $b->count())` on a list of buckets: stable, largest first. */
  function SortBySizeDesc<T>(bs: seq<seq<T>>): (r: seq<seq<T>>)
    ensures SizesNonIncreasing(r)
    ensures multiset(r) == multiset(bs)
    ensures multiset(Flatten(r)) == multiset(Flatten(bs))
  {
    if bs == [] then []
    else
      var sorted := SortBySizeDesc(bs[..|bs| - 1]);
      var r := InsertBySizeDesc(sorted, bs[|bs| - 1]);
      SortedSnoc(bs, sorted, r);
      r
  }

  /** Inserting the last bucket into the sorted others holds the same buckets, and elements, as the list. */
  lemma SortedSnoc<T>(bs: seq<seq<T>>, sorted: seq<seq<T>>, r: seq<seq<T>>)
    requires bs != []
    requires multiset(sorted) == multiset(bs[..|bs| - 1])
    requires multiset(Flatten(sorted)) == multiset(Flatten(bs[..|bs| - 1]))
    requires multiset(r) == multiset(sorted) + multiset{bs[|bs| - 1]}
    requires multiset(Flatten(r)) == multiset(Flatten(sorted)) + multiset(bs[|bs| - 1])
    ensures multiset(r) == multiset(bs)
    ensures multiset(Flatten(r)) == multiset(Flatten(bs))
  {
    SnocSplit(bs);
    FlattenAppend(bs[..|bs| - 1], bs[|bs| - 1]);
  }

  /** A non-empty list is its front followed by its last element. */
  lemma PrefixSnoc<T>(s: seq<T>, i: nat)
    requires i < |s|
    ensures s[..i] + [s[i]] == s[..i + 1]
  {
  }

  lemma SnocSplit<T>(s: seq<T>)
    requires s != []
    ensures s == s[..|s| - 1] + [s[|s| - 1]]
  {
  }

  /** Keys never decrease along `s`. */
  ghost predicate KeysNonDecreasing<T>(s: seq<T>, key: T -> int)
  {
    forall i, j :: 0 <= i < j < |s| ==> key(s[i]) <= key(s[j])
  }

  /** Inserts `x` after every element whose key is at most its own (keeps ties in input order). */
  function InsertByKey<T>(sorted: seq<T>, key: T -> int, x: T): (r: seq<T>)
    requires KeysNonDecreasing(sorted, key)
    ensures KeysNonDecreasing(r, key)
    ensures multiset(r) == multiset(sorted) + multiset{x}
  {
    if sorted == [] then [x]
    else if key(x) < key(sorted[0]) then
      assert ([x] + sorted)[1..] == sorted;
      [x] + sorted
    else
      var rest := InsertByKey(sorted[1..], key, x);
      KeyedBehindHead(sorted, key, x, rest);
      [sorted[0]] + rest
  }

  /** Keeping the head of a key-sorted list in front of the insertion into its tail. */
  lemma KeyedBehindHead<T>(sorted: seq<T>, key: T -> int, x: T, rest: seq<T>)
    requires sorted != [] && KeysNonDecreasing(sorted, key) && key(sorted[0]) <= key(x)
    requires KeysNonDecreasing(rest, key)
    requires multiset(rest) == multiset(sorted[1..]) + multiset{x}
    ensures KeysNonDecreasing([sorted[0]] + rest, key)
    ensures multiset([sorted[0]] + rest) == multiset(sorted) + multiset{x}
  {
    var r := [sorted[0]] + rest;
    forall i | 0 <= i < |rest| ensures key(sorted[0]) <= key(rest[i]) {
      InsertedFrom(rest, sorted[1..], x, i);
    }
    forall i, j | 0 <= i < j < |r| ensures key(r[i]) <= key(r[j]) {
      assert r[j] == rest[j - 1];
      if i > 0 { assert r[i] == rest[i - 1]; }
    }
    assert sorted == [sorted[0]] + sorted[1..];
    AddAssoc(multiset{sorted[0]}, multiset(sorted[1..]), multiset{x});
  }

  /** Laravel's `sortBy(key)`: stable, smallest key first. */
  function SortByKey<T>(s: seq<T>, key: T -> int): (r: seq<T>)
    ensures KeysNonDecreasing(r, key)
    ensures multiset(r) == multiset(s)
  {
    if s == [] then []
    else
      var r := InsertByKey(SortByKey(s[..|s| - 1], key), key, s[|s| - 1]);
      assert s == s[..|s| - 1] + [s[|s| - 1]];
      r
  }

  // ---------------------------------------------------------------------------
  // Keyed lists: a PHP array whose entries are lists appended to by key
  // ---------------------------------------------------------------------------

  /** The keys of a keyed list, in order. */
  function KeysOf<K, V>(table: seq<(K, V)>): (ks: seq<K>)
    ensures |ks| == |table|
    ensures forall i :: 0 <= i < |table| ==> ks[i] == table[i].0
  {
    if table == [] then [] else [table[0].0] + KeysOf(table[1..])
  }

  /** The list under key k: that of its first entry, or none when k has no entry. */
  function Lookup<K(==), V>(table: seq<(K, seq<V>)>, k: K): seq<V>
  {
    if table == [] then [] else if table[0].0 == k then table[0].1 else Lookup(table[1..], k)
  }

  ghost predicate NoDuplicates<T>(s: seq<T>)
  {
    forall i, j :: 0 <= i < j < |s| ==> s[i] != s[j]
  }

  /**
   * `$table[$k][] = $v` for each v of vs in turn: the list of a present key grows, a new
   * key gets an entry at the end, and an empty vs creates no entry.
   */
  function AppendUnder<K(==), V>(table: seq<(K, seq<V>)>, k: K, vs: seq<V>): seq<(K, seq<V>)>
  {
    if vs == [] then table
    else if table == [] then [(k, vs)]
    else if table[0].0 == k then [(k, table[0].1 + vs)] + table[1..]
    else [table[0]] + AppendUnder(table[1..], k, vs)
  }

  /** Appending under k lengthens k's list by vs and leaves every other key's list alone. */
  lemma {:induction false} AppendUnderLookup<K, V>(table: seq<(K, seq<V>)>, k: K, vs: seq<V>, j: K)
    ensures Lookup(AppendUnder(table, k, vs), j) == if j == k then Lookup(table, k) + vs else Lookup(table, j)
  {
    if vs != [] && table != [] && table[0].0 != k {
      var r := AppendUnder(table, k, vs);
      assert r[0] == table[0] && r[1..] == AppendUnder(table[1..], k, vs);
      AppendUnderLookup(table[1..], k, vs, j);
    }
  }

  /** The keys after an append are the keys before, in the same order, then k when it is new and vs is not empty. */
  lemma {:induction false} AppendUnderKeys<K, V>(table: seq<(K, seq<V>)>, k: K, vs: seq<V>)
    ensures KeysOf(AppendUnder(table, k, vs)) ==
      if vs == [] || k in KeysOf(table) then KeysOf(table) else KeysOf(table) + [k]
  {
    if vs != [] && table != [] {
      var r := AppendUnder(table, k, vs);
      if table[0].0 == k {
        assert KeysOf(r) == [k] + KeysOf(table[1..]);
      } else {
        assert r[0] == table[0] && r[1..] == AppendUnder(table[1..], k, vs);
        AppendUnderKeys(table[1..], k, vs);
        assert KeysOf(table) == [table[0].0] + KeysOf(table[1..]);
        assert k in KeysOf(table) <==> k in KeysOf(table[1..]);
      }
    }
  }

  /** Appending twice under the same key is appending both lists at once. */
  lemma {:induction false} AppendUnderTwice<K, V>(table: seq<(K, seq<V>)>, k: K, a: seq<V>, b: seq<V>)
    ensures AppendUnder(AppendUnder(table, k, a), k, b) == AppendUnder(table, k, a + b)
  {
    if a == [] {
      assert a + b == b;
    } else if b == [] {
      assert a + b == a;
    } else if table == [] {
    } else if table[0].0 == k {
      var r := AppendUnder(table, k, a);
      assert r[0] == (k, table[0].1 + a) && r[1..] == table[1..];
      assert table[0].1 + a + b == table[0].1 + (a + b);
    } else {
      var r := AppendUnder(table, k, a);
      assert r[0] == table[0] && r[1..] == AppendUnder(table[1..], k, a);
      AppendUnderTwice(table[1..], k, a, b);
    }
  }

  /** `$table[key(x)][] = $v` for each v of list(x), for each x of items in turn, from an empty table. */
  function KeyedLists<T, K(==), V>(items: seq<T>, key: T -> K, list: T -> seq<V>): seq<(K, seq<V>)>
  {
    if items == [] then []
    else
      var last := items[|items| - 1];
      AppendUnder(KeyedLists(items[..|items| - 1], key, list), key(last), list(last))
  }

  /** The lists of every item with key k, one after another in item order. */
  function ListsUnder<T, K(==), V>(items: seq<T>, key: T -> K, list: T -> seq<V>, k: K): seq<V>
  {
    if items == [] then []
    else
      var last := items[|items| - 1];
      ListsUnder(items[..|items| - 1], key, list, k) + (if key(last) == k then list(last) else [])
  }

  /** One more item appends its list under its key. */
  lemma KeyedListsStep<T, K, V>(items: seq<T>, key: T -> K, list: T -> seq<V>, i: nat)
    requires i < |items|
    ensures KeyedLists(items[..i + 1], key, list) == AppendUnder(KeyedLists(items[..i], key, list), key(items[i]), list(items[i]))
  {
    assert items[..i + 1][..i] == items[..i];
  }

  /** The list under a key holds the lists of the items with that key, in item order. */
  lemma {:induction false} KeyedListsLookup<T, K, V>(items: seq<T>, key: T -> K, list: T -> seq<V>, k: K)
    ensures Lookup(KeyedLists(items, key, list), k) == ListsUnder(items, key, list, k)
  {
    if items != [] {
      var last := items[|items| - 1];
      KeyedListsLookup(items[..|items| - 1], key, list, k);
      AppendUnderLookup(KeyedLists(items[..|items| - 1], key, list), key(last), list(last), k);
    }
  }

  /** A key has an entry exactly when some item with that key has a non-empty list. */
  lemma KeyedListsKeys<T, K, V>(items: seq<T>, key: T -> K, list: T -> seq<V>, k: K)
    ensures k in KeysOf(KeyedLists(items, key, list)) <==>
      exists i :: 0 <= i < |items| && key(items[i]) == k && list(items[i]) != []
  {
    if k in KeysOf(KeyedLists(items, key, list)) {
      var i := KeyedListsWitness(items, key, list, k);
    }
    forall i | 0 <= i < |items| && key(items[i]) == k && list(items[i]) != [] {
      KeyedListsHasKey(items, key, list, i);
    }
  }

  /** An item whose key has an entry. */
  lemma {:induction false} KeyedListsWitness<T, K, V>(items: seq<T>, key: T -> K, list: T -> seq<V>, k: K) returns (i: nat)
    requires k in KeysOf(KeyedLists(items, key, list))
    ensures i < |items| && key(items[i]) == k && list(items[i]) != []
  {
    var init := items[..|items| - 1];
    var last := items[|items| - 1];
    AppendUnderKeys(KeyedLists(init, key, list), key(last), list(last));
    if k in KeysOf(KeyedLists(init, key, list)) {
      i := KeyedListsWitness(init, key, list, k);
      assert init[i] == items[i];
    } else {
      i := |items| - 1;
    }
  }

  /** An item with a non-empty list gives its key an entry. */
  lemma {:induction false} KeyedListsHasKey<T, K, V>(items: seq<T>, key: T -> K, list: T -> seq<V>, i: nat)
    requires i < |items| && list(items[i]) != []
    ensures key(items[i]) in KeysOf(KeyedLists(items, key, list))
  {
    var init := items[..|items| - 1];
    var last := items[|items| - 1];
    AppendUnderKeys(KeyedLists(init, key, list), key(last), list(last));
    if i < |init| {
      assert init[i] == items[i];
      KeyedListsHasKey(init, key, list, i);
    }
  }

  /** No key has two entries. */
  lemma {:induction false} KeyedListsUnique<T, K, V>(items: seq<T>, key: T -> K, list: T -> seq<V>)
    ensures NoDuplicates(KeysOf(KeyedLists(items, key, list)))
  {
    if items != [] {
      var last := items[|items| - 1];
      KeyedListsUnique(items[..|items| - 1], key, list);
      AppendUnderKeys(KeyedLists(items[..|items| - 1], key, list), key(last), list(last));
    }
  }

  /** The keys of the first i items lead the keys of all items, in the same order. */
  lemma {:induction false} KeyedListsOrder<T, K, V>(items: seq<T>, key: T -> K, list: T -> seq<V>, i: nat)
    requires i <= |items|
    ensures KeysOf(KeyedLists(items[..i], key, list)) <= KeysOf(KeyedLists(items, key, list))
    decreases |items|
  {
    if i == |items| {
      assert items[..i] == items;
    } else {
      var init := items[..|items| - 1];
      var last := items[|items| - 1];
      KeyedListsOrder(init, key, list, i);
      assert init[..i] == items[..i];
      AppendUnderKeys(KeyedLists(init, key, list), key(last), list(last));
    }
  }

  /** No item has key k: nothing is under k. */
  lemma {:induction false} ListsUnderAbsent<T, K, V>(items: seq<T>, key: T -> K, list: T -> seq<V>, k: K)
    requires forall j :: 0 <= j < |items| ==> key(items[j]) != k
    ensures ListsUnder(items, key, list, k) == []
  {
    if items != [] {
      var init := items[..|items| - 1];
      assert forall j :: 0 <= j < |init| ==> init[j] == items[j];
      ListsUnderAbsent(init, key, list, k);
    }
  }

  /** Only item i has its key: its list is all that is under the key. */
  lemma {:induction false} ListsUnderUnique<T, K, V>(items: seq<T>, key: T -> K, list: T -> seq<V>, i: nat)
    requires i < |items|
    requires forall j :: 0 <= j < |items| && j != i ==> key(items[j]) != key(items[i])
    ensures ListsUnder(items, key, list, key(items[i])) == list(items[i])
  {
    var init := items[..|items| - 1];
    assert forall j :: 0 <= j < |init| ==> init[j] == items[j];
    if i == |items| - 1 {
      ListsUnderAbsent(init, key, list, key(items[i]));
    } else {
      ListsUnderUnique(init, key, list, i);
    }
  }

  // ---------------------------------------------------------------------------
  // Stability: the elements with one key keep their input order
  // ---------------------------------------------------------------------------

  lemma Assoc<T>(a: seq<T>, b: seq<T>, c: seq<T>)
    ensures a + (b + c) == (a + b) + c
  {
  }

  /** No element has key k: the filter keeps nothing. */
  lemma {:induction false} WithKeyNone<T, K>(s: seq<T>, key: T -> K, k: K)
    requires forall i :: 0 <= i < |s| ==> key(s[i]) != k
    ensures WithKey(s, key, k) == []
  {
    if s != [] {
      WithKeyNone(s[1..], key, k);
    }
  }

  /** Filtering a list with a new head. */
  lemma WithKeyCons<T, K>(x: T, s: seq<T>, key: T -> K, k: K)
    ensures WithKey([x] + s, key, k) == (if key(x) == k then [x] else []) + WithKey(s, key, k)
  {
    TailOfCons(x, s);
  }

  /** A list is its head and its tail. */
  lemma ConsSplit<T>(s: seq<T>)
    requires s != []
    ensures [s[0]] + s[1..] == s
  {
  }

  /** An element put in front of a list with none of its key is filtered as if put behind it. */
  lemma FilterFront<T, K>(x: T, s: seq<T>, key: T -> K, k: K)
    requires key(x) == k ==> WithKey(s, key, k) == []
    ensures WithKey([x] + s, key, k) == WithKey(s, key, k) + (if key(x) == k then [x] else [])
  {
    WithKeyCons(x, s, key, k);
  }

  /** Keeping the head in front of an insertion into the tail keeps the filter's order. */
  lemma FilterBehind<T, K>(y: T, s: seq<T>, rest: seq<T>, x: T, key: T -> K, k: K)
    requires WithKey(rest, key, k) == WithKey(s, key, k) + (if key(x) == k then [x] else [])
    ensures WithKey([y] + rest, key, k) == WithKey([y] + s, key, k) + (if key(x) == k then [x] else [])
  {
    WithKeyCons(y, rest, key, k);
    WithKeyCons(y, s, key, k);
    Assoc(if key(y) == k then [y] else [], WithKey(s, key, k), if key(x) == k then [x] else []);
  }

  /** Inserting x by key adds it behind every element with its key. */
  lemma {:induction false} InsertByKeyStable<T>(sorted: seq<T>, key: T -> int, x: T, k: int)
    requires KeysNonDecreasing(sorted, key)
    ensures WithKey(InsertByKey(sorted, key, x), key, k) == WithKey(sorted, key, k) + (if key(x) == k then [x] else [])
  {
    if sorted == [] {
      assert InsertByKey(sorted, key, x) == [x];
      assert WithKey([x], key, k) == if key(x) == k then [x] else [];
    } else if key(x) < key(sorted[0]) {
      if key(x) == k {
        assert forall i :: 0 <= i < |sorted| ==> key(sorted[i]) >= key(sorted[0]);
        WithKeyNone(sorted, key, k);
      }
      FilterFront(x, sorted, key, k);
    } else {
      InsertByKeyStable(sorted[1..], key, x, k);
      FilterBehind(sorted[0], sorted[1..], InsertByKey(sorted[1..], key, x), x, key, k);
      ConsSplit(sorted);
    }
  }

  /** `sortBy` is stable: the elements with any one key come out in their input order. */
  lemma {:induction false} SortByKeyStable<T>(s: seq<T>, key: T -> int, k: int)
    ensures WithKey(SortByKey(s, key), key, k) == WithKey(s, key, k)
  {
    if s != [] {
      var init := s[..|s| - 1];
      SortByKeyStable(init, key, k);
      InsertByKeyStable(SortByKey(init, key), key, s[|s| - 1], k);
      WithKeyAppend(init, key, k, s[|s| - 1]);
      SnocSplit(s);
    }
  }

  function Size<T>(b: seq<T>): int { |b| }

  /** Inserting a bucket by size adds it behind every bucket of its size. */
  lemma {:induction false} InsertBySizeDescStable<T>(sorted: seq<seq<T>>, b: seq<T>, k: int)
    requires SizesNonIncreasing(sorted)
    ensures WithKey(InsertBySizeDesc(sorted, b), Size, k) == WithKey(sorted, Size, k) + (if |b| == k then [b] else [])
  {
    if sorted == [] {
      assert InsertBySizeDesc(sorted, b) == [b];
      assert WithKey([b], Size, k) == if |b| == k then [b] else [];
    } else if |b| > |sorted[0]| {
      if |b| == k {
        assert forall i :: 0 <= i < |sorted| ==> |sorted[i]| <= |sorted[0]|;
        WithKeyNone(sorted, Size, k);
      }
      FilterFront(b, sorted, Size, k);
    } else {
      InsertBySizeDescStable(sorted[1..], b, k);
      FilterBehind(sorted[0], sorted[1..], InsertBySizeDesc(sorted[1..], b), b, Size, k);
      ConsSplit(sorted);
    }
  }

  /** `sortByDesc` on bucket sizes is stable: the buckets of any one size come out in their input order. */
  lemma {:induction false} SortBySizeDescStable<T>(bs: seq<seq<T>>, k: int)
    ensures WithKey(SortBySizeDesc(bs), Size, k) == WithKey(bs, Size, k)
  {
    if bs != [] {
      var init := bs[..|bs| - 1];
      SortBySizeDescStable(init, k);
      InsertBySizeDescStable(SortBySizeDesc(init), bs[|bs| - 1], k);
      WithKeyAppend(init, Size, k, bs[|bs| - 1]);
      SnocSplit(bs);
    }
  }
}
