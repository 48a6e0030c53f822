/**
  Sequence helpers shared by the pipeline stages: keeping the first element
  of each key (the `if x not in seen: seen.add(x); out.append(x)` idiom),
  filtering by key membership (list comprehensions with an `in` test),
  building a key-indexed dictionary (`{key(x): x for x in s}`) and looking
  keys up in it.
*/
module Seqs {

  /** No element occurs twice. */
  predicate NoDups<T(==)>(s: seq<T>) {
    forall i, j :: 0 <= i < j < |s| ==> s[i] != s[j]
  }

  /** No two elements share a key. */
  predicate DistinctKeys<T, K(==)>(s: seq<T>, key: T -> K) {
    forall i, j :: 0 <= i < j < |s| ==> key(s[i]) != key(s[j])
  }

  /** The set of keys of the elements of `s`. */
  function Keys<T(==), K>(s: seq<T>, key: T -> K): set<K> {
    set x | x in s :: key(x)
  }

  /** The keys of the elements of `s`, in order (`[key(x) for x in s]`). */
  function KeySeq<T, K>(s: seq<T>, key: T -> K): (r: seq<K>)
    ensures |r| == |s|
    ensures forall i :: 0 <= i < |s| ==> r[i] == key(s[i])
  {
    if s == [] then [] else KeySeq(s[..|s| - 1], key) + [key(s[|s| - 1])]
  }

  /** The identity key: deduplication by the elements themselves. */
  function Id<T>(x: T): T { x }

  /** `idx` places the elements of `r` at strictly increasing positions of `s`. */
  predicate EmbedsAt<T(==)>(r: seq<T>, s: seq<T>, idx: seq<nat>) {
    && |idx| == |r|
    && (forall k :: 0 <= k < |idx| ==> idx[k] < |s| && r[k] == s[idx[k]])
    && (forall k, l :: 0 <= k < l < |idx| ==> idx[k] < idx[l])
  }

  /** `r` is an ordered subsequence of `s`. */
  ghost predicate Subsequence<T>(r: seq<T>, s: seq<T>) {
    exists idx :: EmbedsAt(r, s, idx)
  }

  lemma KeysAppend<T, K>(a: seq<T>, b: seq<T>, key: T -> K)
    ensures Keys(a + b, key) == Keys(a, key) + Keys(b, key)
  {
    forall k | k in Keys(a + b, key) ensures k in Keys(a, key) + Keys(b, key) {
      var x :| x in a + b && key(x) == k;
      assert x in a || x in b;
    }
    forall k | k in Keys(a, key) + Keys(b, key) ensures k in Keys(a + b, key) {
      if k in Keys(a, key) {
        var x :| x in a && key(x) == k;
        assert x in a + b;
      } else {
        var x :| x in b && key(x) == k;
        assert x in a + b;
      }
    }
  }

  lemma KeysSnoc<T, K>(s: seq<T>, key: T -> K)
    requires s != []
    ensures Keys(s, key) == Keys(s[..|s| - 1], key) + {key(s[|s| - 1])}
  {
    assert s == s[..|s| - 1] + [s[|s| - 1]];
    KeysAppend(s[..|s| - 1], [s[|s| - 1]], key);
    assert Keys([s[|s| - 1]], key) == {key(s[|s| - 1])};
  }

  // ---------------------------------------------------------------------
  // Keeping the first element of each key
  // ---------------------------------------------------------------------

  /**
    Scans `s` from the left and keeps an element only when no kept element
    has its key yet.
  */
  function FirstByKey<T(==), K(==)>(s: seq<T>, key: T -> K): (r: seq<T>)
    ensures |r| <= |s|
    ensures forall x :: x in r ==> x in s
  {
    if s == [] then []
    else
      var d := FirstByKey(s[..|s| - 1], key);
      if key(s[|s| - 1]) in Keys(d, key) then d else d + [s[|s| - 1]]
  }

  /** The position of the first element of `s` whose key is `k`. */
  function FirstIndex<T(==), K(==)>(s: seq<T>, key: T -> K, k: K): (i: nat)
    requires k in Keys(s, key)
    ensures i < |s| && key(s[i]) == k
    ensures forall j :: 0 <= j < i ==> key(s[j]) != k
  {
    if key(s[0]) == k then 0
    else
      assert k in Keys(s[1..], key) by {
        var x :| x in s && key(x) == k;
        assert s == [s[0]] + s[1..];
      }
      1 + FirstIndex(s[1..], key, k)
  }

  /** Every key of the input is kept, and no other. */
  lemma {:induction false} FirstByKeyKeys<T, K>(s: seq<T>, key: T -> K)
    ensures Keys(FirstByKey(s, key), key) == Keys(s, key)
    decreases |s|
  {
    if s != [] {
      var p := s[..|s| - 1];
      var d := FirstByKey(p, key);
      FirstByKeyKeys(p, key);
      KeysSnoc(s, key);
      if key(s[|s| - 1]) !in Keys(d, key) {
        assert d + [s[|s| - 1]] == FirstByKey(s, key);
        KeysSnoc(d + [s[|s| - 1]], key);
        assert (d + [s[|s| - 1]])[..|d|] == d;
      }
    }
  }

  /** The kept elements have pairwise distinct keys. */
  lemma {:induction false} FirstByKeyDistinct<T, K>(s: seq<T>, key: T -> K)
    ensures DistinctKeys(FirstByKey(s, key), key)
    decreases |s|
  {
    if s != [] {
      var p := s[..|s| - 1];
      var d := FirstByKey(p, key);
      FirstByKeyDistinct(p, key);
      if key(s[|s| - 1]) !in Keys(d, key) {
        var r := d + [s[|s| - 1]];
        forall i, j | 0 <= i < j < |r| ensures key(r[i]) != key(r[j]) {
          if j == |d| {
            assert r[i] in d;
          }
        }
      }
    }
  }

  /** One step of the scan: the effect of one more input element. */
  lemma FirstByKeySnoc<T, K>(s: seq<T>, x: T, key: T -> K)
    ensures FirstByKey(s + [x], key) ==
      if key(x) in Keys(FirstByKey(s, key), key) then FirstByKey(s, key) else FirstByKey(s, key) + [x]
  {
    assert (s + [x])[..|s|] == s;
  }

  /** Appending an element leaves the first position of an existing key alone. */
  lemma FirstIndexSnoc<T, K>(s: seq<T>, x: T, key: T -> K, k: K)
    requires k in Keys(s, key)
    ensures k in Keys(s + [x], key)
    ensures FirstIndex(s + [x], key, k) == FirstIndex(s, key, k)
  {
    KeysAppend(s, [x], key);
    var i := FirstIndex(s, key, k);
    assert forall m :: 0 <= m < |s| ==> (s + [x])[m] == s[m];
  }

  /**
    Each kept element is the FIRST element of the input with its key, and
    the kept elements appear in the order of those first positions.
  */
  lemma {:induction false} FirstByKeyFirst<T, K>(s: seq<T>, key: T -> K)
    ensures forall n :: 0 <= n < |FirstByKey(s, key)| ==>
      key(FirstByKey(s, key)[n]) in Keys(s, key) &&
      FirstByKey(s, key)[n] == s[FirstIndex(s, key, key(FirstByKey(s, key)[n]))]
    ensures forall m, n :: 0 <= m < n < |FirstByKey(s, key)| ==>
      key(FirstByKey(s, key)[m]) in Keys(s, key) &&
      key(FirstByKey(s, key)[n]) in Keys(s, key) &&
      FirstIndex(s, key, key(FirstByKey(s, key)[m])) < FirstIndex(s, key, key(FirstByKey(s, key)[n]))
    decreases |s|
  {
    if s != [] {
      var p := s[..|s| - 1];
      var x := s[|s| - 1];
      assert s == p + [x];
      var d := FirstByKey(p, key);
      FirstByKeyFirst(p, key);
      FirstByKeyKeys(p, key);
      FirstByKeySnoc(p, x, key);
      KeysSnoc(s, key);
      forall n | 0 <= n < |d|
        ensures key(d[n]) in Keys(s, key)
        ensures FirstIndex(s, key, key(d[n])) == FirstIndex(p, key, key(d[n]))
        ensures d[n] == s[FirstIndex(s, key, key(d[n]))]
      {
        FirstIndexSnoc(p, x, key, key(d[n]));
        assert p[FirstIndex(p, key, key(d[n]))] == s[FirstIndex(p, key, key(d[n]))];
      }
      if key(x) !in Keys(d, key) {
        forall m | 0 <= m < |p| ensures key(s[m]) != key(x) {
          assert s[m] == p[m];
          assert p[m] in p;
        }
        var i := FirstIndex(s, key, key(x));
        assert i == |p|;
        var r := d + [x];
        forall n | 0 <= n < |r|
          ensures key(r[n]) in Keys(s, key) && r[n] == s[FirstIndex(s, key, key(r[n]))]
        {
          if n < |d| {
            assert r[n] == d[n];
          }
        }
      }
    }
  }

  /** On input whose keys are already distinct, nothing is dropped. */
  lemma {:induction false} FirstByKeyIdentity<T, K>(s: seq<T>, key: T -> K)
    requires DistinctKeys(s, key)
    ensures FirstByKey(s, key) == s
    decreases |s|
  {
    if s != [] {
      var p := s[..|s| - 1];
      var x := s[|s| - 1];
      assert s == p + [x];
      FirstByKeyIdentity(p, key);
      FirstByKeySnoc(p, x, key);
      forall y | y in p ensures key(y) != key(x) {
        var i :| 0 <= i < |p| && p[i] == y;
        assert s[i] == y;
      }
    }
  }

  /** Deduplicating twice is deduplicating once. */
  lemma FirstByKeyIdempotent<T, K>(s: seq<T>, key: T -> K)
    ensures FirstByKey(FirstByKey(s, key), key) == FirstByKey(s, key)
  {
    FirstByKeyDistinct(s, key);
    FirstByKeyIdentity(FirstByKey(s, key), key);
  }

  // ---------------------------------------------------------------------
  // Filtering by key membership
  // ---------------------------------------------------------------------

  /**
    The elements of `s`, in order, whose key is in `keys` (when `inside`)
    or not in `keys` (when `!inside`).
  */
  function Select<T(==), K(==)>(s: seq<T>, key: T -> K, keys: set<K>, inside: bool): (r: seq<T>)
    ensures |r| <= |s|
    ensures forall i :: 0 <= i < |r| ==> r[i] in s && (key(r[i]) in keys) == inside
  {
    if s == [] then []
    else
      var x := s[|s| - 1];
      assert forall y :: y in s ==> y in s[..|s| - 1] || y == x by {
        assert s == s[..|s| - 1] + [x];
      }
      Select(s[..|s| - 1], key, keys, inside) + (if (key(x) in keys) == inside then [x] else [])
  }

  /** One step of the filter: the effect of one more input element. */
  lemma SelectSnoc<T, K>(s: seq<T>, x: T, key: T -> K, keys: set<K>, inside: bool)
    ensures Select(s + [x], key, keys, inside) ==
      Select(s, key, keys, inside) + (if (key(x) in keys) == inside then [x] else [])
  {
    assert (s + [x])[..|s|] == s;
  }

  /** Every element of `s` that passes the test is kept. */
  lemma {:induction false} SelectComplete<T, K>(s: seq<T>, key: T -> K, keys: set<K>, inside: bool)
    ensures forall x :: x in s && (key(x) in keys) == inside ==> x in Select(s, key, keys, inside)
    decreases |s|
  {
    if s != [] {
      var p := s[..|s| - 1];
      var x := s[|s| - 1];
      assert s == p + [x];
      SelectComplete(p, key, keys, inside);
      SelectSnoc(p, x, key, keys, inside);
    }
  }

  /**
    The filter keeps every copy of an element that passes the test and no
    copy of one that fails it.
  */
  lemma {:induction false} SelectMultiplicity<T, K>(s: seq<T>, key: T -> K, keys: set<K>, inside: bool, x: T)
    ensures multiset(Select(s, key, keys, inside))[x] == if (key(x) in keys) == inside then multiset(s)[x] else 0
    decreases |s|
  {
    if s != [] {
      var p := s[..|s| - 1];
      var y := s[|s| - 1];
      assert s == p + [y];
      SelectMultiplicity(p, key, keys, inside, x);
      SelectSnoc(p, y, key, keys, inside);
      assert multiset(s) == multiset(p) + multiset{y};
    }
  }

  /**
    Concatenation is associative. Stated over an arbitrary element type so
    that the solver proves it without the axioms of a particular one.
  */
  lemma ConcatAssoc<T>(x: seq<T>, y: seq<T>, z: seq<T>)
    ensures (x + y) + z == x + (y + z)
  {
  }

  /** The filter keeps the input order. */
  lemma {:induction false} SelectSubsequence<T, K>(s: seq<T>, key: T -> K, keys: set<K>, inside: bool)
    ensures Subsequence(Select(s, key, keys, inside), s)
    decreases |s|
  {
    if s == [] {
      assert EmbedsAt([], s, []);
    } else {
      var p := s[..|s| - 1];
      var x := s[|s| - 1];
      assert s == p + [x];
      SelectSubsequence(p, key, keys, inside);
      SelectSnoc(p, x, key, keys, inside);
      var q := Select(p, key, keys, inside);
      var idx: seq<nat> :| EmbedsAt(q, p, idx);
      assert forall i :: 0 <= i < |p| ==> s[i] == p[i];
      if (key(x) in keys) == inside {
        assert EmbedsAt(q + [x], s, idx + [|p|]);
      } else {
        assert Select(s, key, keys, inside) == q;
        assert EmbedsAt(q, s, idx);
      }
    }
  }

  /** Keys outside the input's own keys have no effect on the filter. */
  lemma {:induction false} SelectRelevantKeys<T, K>(s: seq<T>, key: T -> K, keys: set<K>, inside: bool)
    ensures Select(s, key, keys, inside) == Select(s, key, keys * Keys(s, key), inside)
    decreases |s|
  {
    if s != [] {
      var p := s[..|s| - 1];
      var x := s[|s| - 1];
      assert s == p + [x];
      SelectRelevantKeys(p, key, keys, inside);
      SelectRelevantKeys(p, key, keys * Keys(s, key), inside);
      SelectSnoc(p, x, key, keys, inside);
      SelectSnoc(p, x, key, keys * Keys(s, key), inside);
      KeysSnoc(s, key);
      assert keys * Keys(s, key) * Keys(p, key) == keys * Keys(p, key);
    }
  }

  /** A filter of a sequence with distinct keys has distinct keys. */
  lemma {:induction false} SelectDistinct<T, K>(s: seq<T>, key: T -> K, keys: set<K>, inside: bool)
    requires DistinctKeys(s, key)
    ensures DistinctKeys(Select(s, key, keys, inside), key)
    decreases |s|
  {
    if s != [] {
      var p := s[..|s| - 1];
      var x := s[|s| - 1];
      assert s == p + [x];
      SelectDistinct(p, key, keys, inside);
      SelectSnoc(p, x, key, keys, inside);
      var q := Select(p, key, keys, inside);
      forall y | y in q ensures key(y) != key(x) {
        var t :| 0 <= t < |p| && p[t] == y;
        assert s[t] == y;
      }
      var r := Select(s, key, keys, inside);
      forall i, j | 0 <= i < j < |r| ensures key(r[i]) != key(r[j]) {
        assert r[i] == q[i];
        if j < |q| {
          assert r[j] == q[j];
        } else {
          assert q[i] in q;
        }
      }
    }
  }

  /** An element whose key was seen before is dropped. */
  lemma FirstByKeySnocSeen<T, K>(s: seq<T>, x: T, key: T -> K)
    requires key(x) in Keys(s, key)
    ensures FirstByKey(s + [x], key) == FirstByKey(s, key)
  {
    FirstByKeyKeys(s, key);
    FirstByKeySnoc(s, x, key);
  }

  /** An element with a new key is appended. */
  lemma FirstByKeySnocNew<T, K>(s: seq<T>, x: T, key: T -> K)
    requires key(x) !in Keys(s, key)
    ensures FirstByKey(s + [x], key) == FirstByKey(s, key) + [x]
  {
    FirstByKeyKeys(s, key);
    FirstByKeySnoc(s, x, key);
  }

  lemma FirstByKeyAppendStep<T, K>(a: seq<T>, q: seq<T>, x: T, key: T -> K)
    requires FirstByKey(a + q, key) == FirstByKey(a, key) + Select(q, key, Keys(a, key), false)
    requires key(x) !in Keys(q, key)
    ensures FirstByKey(a + q + [x], key) == FirstByKey(a, key) + Select(q + [x], key, Keys(a, key), false)
  {
    var f := FirstByKey(a, key);
    var sq := Select(q, key, Keys(a, key), false);
    KeysAppend(a, q, key);
    SelectSnoc(q, x, key, Keys(a, key), false);
    if key(x) in Keys(a, key) {
      FirstByKeySnocSeen(a + q, x, key);
      assert Select(q + [x], key, Keys(a, key), false) == sq;
    } else {
      FirstByKeySnocNew(a + q, x, key);
      assert FirstByKey(a + q + [x], key) == (f + sq) + [x];
      assert Select(q + [x], key, Keys(a, key), false) == sq + [x];
      assert (f + sq) + [x] == f + (sq + [x]);
    }
  }

  /**
    Deduplicating `a + b`, when `b` alone has distinct keys, gives the
    deduplicated `a` followed by the elements of `b` whose keys `a` lacks,
    in the order of `b`.
  */
  lemma {:induction false} FirstByKeyAppend<T, K>(a: seq<T>, b: seq<T>, key: T -> K)
    requires DistinctKeys(b, key)
    ensures FirstByKey(a + b, key) == FirstByKey(a, key) + Select(b, key, Keys(a, key), false)
    decreases |b|
  {
    if b == [] {
      assert a + b == a;
      assert Select(b, key, Keys(a, key), false) == [];
      assert FirstByKey(a, key) + [] == FirstByKey(a, key);
    } else {
      var q := b[..|b| - 1];
      var x := b[|b| - 1];
      assert b == q + [x];
      assert a + b == (a + q) + [x];
      FirstByKeyAppend(a, q, key);
      forall y | y in q ensures key(y) != key(x) {
        var t :| 0 <= t < |q| && q[t] == y;
        assert b[t] == y;
      }
      FirstByKeyAppendStep(a, q, x, key);
    }
  }

  // ---------------------------------------------------------------------
  // Dictionaries keyed by a field, and lookups in them
  // ---------------------------------------------------------------------

  /**
    `{key(x): x for x in s}`: every key of `s` maps to an element with that
    key; a later element overwrites an earlier one with the same key.
  */
  function IndexBy<T(==), K(==)>(s: seq<T>, key: T -> K): (m: map<K, T>)
    ensures m.Keys == Keys(s, key)
    ensures forall k :: k in m ==> m[k] in s && key(m[k]) == k
  {
    if s == [] then map[]
    else
      var p := s[..|s| - 1];
      var x := s[|s| - 1];
      KeysSnoc(s, key);
      assert forall y :: y in p ==> y in s;
      IndexBy(p, key)[key(x) := x]
  }

  /** `[m[k] for k in ks if k in m]`. */
  function Lookup<K(==), T(==)>(m: map<K, T>, ks: seq<K>): (r: seq<T>)
    ensures |r| <= |ks|
    ensures forall i :: 0 <= i < |r| ==> r[i] in m.Values
  {
    if ks == [] then []
    else
      var k := ks[|ks| - 1];
      Lookup(m, ks[..|ks| - 1]) + (if k in m then [m[k]] else [])
  }

  /**
    When every entry of `m` is stored under its own key, the lookups'
    keys are exactly the known keys of `ks`, in the order of `ks`.
  */
  lemma {:induction false} LookupKeySeq<K, T>(m: map<K, T>, ks: seq<K>, key: T -> K)
    requires forall k :: k in m ==> key(m[k]) == k
    ensures KeySeq(Lookup(m, ks), key) == Select(ks, Id, m.Keys, true)
    decreases |ks|
  {
    if ks != [] {
      var k := ks[|ks| - 1];
      var p := ks[..|ks| - 1];
      LookupKeySeq(m, p, key);
      var l := Lookup(m, p);
      if k in m {
        assert Lookup(m, ks) == l + [m[k]];
        assert KeySeq(l + [m[k]], key)[..|l|] == KeySeq(l, key) by {
          assert (l + [m[k]])[..|l|] == l;
        }
      } else {
        assert Lookup(m, ks) == l;
      }
    }
  }

  /** One more key to look up. */
  lemma LookupSnoc<K, T>(m: map<K, T>, ks: seq<K>, k: K)
    ensures Lookup(m, ks + [k]) == Lookup(m, ks) + (if k in m then [m[k]] else [])
  {
    assert (ks + [k])[..|ks|] == ks;
  }

  /** Looking up distinct keys yields elements with distinct keys. */
  lemma LookupDistinct<K, T>(m: map<K, T>, ks: seq<K>, key: T -> K)
    requires forall k :: k in m ==> key(m[k]) == k
    requires NoDups(ks)
    ensures DistinctKeys(Lookup(m, ks), key)
  {
    var l := Lookup(m, ks);
    LookupKeySeq(m, ks, key);
    assert DistinctKeys(ks, Id);
    SelectDistinct(ks, Id, m.Keys, true);
    forall i, j | 0 <= i < j < |l| ensures key(l[i]) != key(l[j]) {
      assert KeySeq(l, key)[i] == key(l[i]);
      assert KeySeq(l, key)[j] == key(l[j]);
    }
  }

  /** Distinct keys make distinct elements. */
  lemma DistinctKeysNoDups<T, K>(s: seq<T>, key: T -> K)
    requires DistinctKeys(s, key)
    ensures NoDups(s)
  {
  }

  /** `min(a, b)`. */
  function Min(a: int, b: int): (r: int)
    ensures r <= a && r <= b
    ensures r == a || r == b
  {
    if a <= b then a else b
  }

  // ---------------------------------------------------------------------
  // Permutations
  // ---------------------------------------------------------------------

  /** In a duplicate-free sequence every element occurs exactly once. */
  lemma {:induction false} NoDupsMultiplicity<T>(s: seq<T>, x: T)
    requires NoDups(s)
    ensures multiset(s)[x] == if x in s then 1 else 0
    decreases |s|
  {
    if s != [] {
      var p := s[..|s| - 1];
      var y := s[|s| - 1];
      assert s == p + [y];
      assert NoDups(p);
      NoDupsMultiplicity(p, x);
      forall i | 0 <= i < |p| ensures p[i] != y {
        assert p[i] == s[i];
      }
    }
  }

  /**
    Two duplicate-free sequences with the same elements are permutations of
    each other (so, in particular, they have the same length).
  */
  lemma SameElementsPermutation<T>(a: seq<T>, b: seq<T>)
    requires NoDups(a) && NoDups(b)
    requires forall x :: x in a ==> x in b
    requires forall x :: x in b ==> x in a
    ensures multiset(a) == multiset(b)
    ensures |a| == |b|
  {
    forall x ensures multiset(a)[x] == multiset(b)[x] {
      NoDupsMultiplicity(a, x);
      NoDupsMultiplicity(b, x);
    }
    assert multiset(a) == multiset(b);
    assert |multiset(a)| == |a| && |multiset(b)| == |b|;
  }
}
