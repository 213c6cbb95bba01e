/**
 * Orders and sorting: `sort_index` / `sort_values` on a key that the table
 * guarantees unique (a card id, a copy count, a card name).
 */
module Order {

  /** `lt` is a strict total order: irreflexive, transitive and connected. */
  ghost predicate StrictTotal<K(!new)>(lt: (K, K) -> bool) {
    && (forall a :: !lt(a, a))
    && (forall a, b, c :: lt(a, b) && lt(b, c) ==> lt(a, c))
    && (forall a, b :: a == b || lt(a, b) || lt(b, a))
  }

  /** The order on numeric keys (ids, copy counts). */
  predicate NatLt(a: nat, b: nat) {
    a < b
  }

  /** Python's string comparison: lexicographic by code point, a proper prefix first. */
  predicate NameLt(a: string, b: string)
    decreases |a|
  {
    if a == [] then b != []
    else if b == [] then false
    else a[0] < b[0] || (a[0] == b[0] && NameLt(a[1..], b[1..]))
  }

  lemma NatLtStrictTotal()
    ensures StrictTotal(NatLt)
  {
  }

  lemma {:induction false} NameLtIrreflexive(a: string)
    ensures !NameLt(a, a)
  {
    if a != [] {
      NameLtIrreflexive(a[1..]);
    }
  }

  lemma {:induction false} NameLtTransitive(a: string, b: string, c: string)
    requires NameLt(a, b) && NameLt(b, c)
    ensures NameLt(a, c)
    decreases |a|
  {
    if a != [] && a[0] == b[0] && b[0] == c[0] {
      NameLtTransitive(a[1..], b[1..], c[1..]);
    }
  }

  lemma {:induction false} NameLtConnected(a: string, b: string)
    ensures a == b || NameLt(a, b) || NameLt(b, a)
    decreases |a|
  {
    if a != [] && b != [] && a[0] == b[0] {
      NameLtConnected(a[1..], b[1..]);
      if a[1..] == b[1..] {
        assert a == [a[0]] + a[1..] && b == [b[0]] + b[1..];
      }
    }
  }

  lemma NameLtStrictTotal()
    ensures StrictTotal(NameLt)
  {
    forall a ensures !NameLt(a, a) {
      NameLtIrreflexive(a);
    }
    forall a, b, c | NameLt(a, b) && NameLt(b, c) ensures NameLt(a, c) {
      NameLtTransitive(a, b, c);
    }
    forall a, b ensures a == b || NameLt(a, b) || NameLt(b, a) {
      NameLtConnected(a, b);
    }
  }

  /** A sequence of keys in strictly increasing order. */
  predicate Increasing<K>(s: seq<K>, lt: (K, K) -> bool) {
    forall i, j :: 0 <= i < j < |s| ==> lt(s[i], s[j])
  }

  /** The key of every row, in row order. */
  function KeysOf<T, K>(s: seq<T>, key: T -> K): (ks: seq<K>)
    ensures |ks| == |s|
    ensures forall i :: 0 <= i < |s| ==> ks[i] == key(s[i])
  {
    if s == [] then [] else [key(s[0])] + KeysOf(s[1..], key)
  }

  /** Rows in strictly increasing order of their keys. */
  predicate SortedBy<T, K>(s: seq<T>, key: T -> K, lt: (K, K) -> bool) {
    forall i, j :: 0 <= i < j < |s| ==> lt(key(s[i]), key(s[j]))
  }

  /** No two rows share a key: the key is the table's (or the group-by's) key. */
  predicate KeysDistinct<T, K(==)>(s: seq<T>, key: T -> K) {
    forall i, j :: 0 <= i < j < |s| ==> key(s[i]) != key(s[j])
  }

  /** Inserts a row into rows already sorted by a key it does not share. */
  function InsertBy<T(!new), K(!new)>(x: T, s: seq<T>, key: T -> K, lt: (K, K) -> bool): (r: seq<T>)
    requires StrictTotal(lt) && SortedBy(s, key, lt)
    requires forall y :: y in s ==> key(y) != key(x)
    ensures multiset(r) == multiset(s) + multiset{x}
    ensures forall y :: y in r <==> y == x || y in s
    ensures SortedBy(r, key, lt)
  {
    if s == [] then [x]
    else if lt(key(x), key(s[0])) then [x] + s
    else
      var rest := InsertBy(x, s[1..], key, lt);
      assert s == [s[0]] + s[1..];
      assert lt(key(s[0]), key(x));
      assert forall y :: y in rest ==> lt(key(s[0]), key(y));
      [s[0]] + rest
  }

  /** `sort_index` on a unique key: the same rows, in increasing key order. */
  function SortBy<T(!new), K(!new)>(s: seq<T>, key: T -> K, lt: (K, K) -> bool): (r: seq<T>)
    requires StrictTotal(lt) && KeysDistinct(s, key)
    ensures multiset(r) == multiset(s)
    ensures forall y :: y in r <==> y in s
    ensures |r| == |s|
    ensures SortedBy(r, key, lt)
  {
    if s == [] then []
    else
      var rest := SortBy(s[1..], key, lt);
      assert s == [s[0]] + s[1..];
      assert forall y :: y in s[1..] ==> key(y) != key(s[0]);
      InsertBy(s[0], rest, key, lt)
  }

  /** Inserts a key into an increasing sequence of keys, keeping one copy of each. */
  function InsertKey<K(==,!new)>(x: K, s: seq<K>, lt: (K, K) -> bool): (r: seq<K>)
    requires StrictTotal(lt) && Increasing(s, lt)
    ensures Increasing(r, lt)
    ensures forall k :: k in r <==> k == x || k in s
  {
    if s == [] then [x]
    else if x == s[0] then s
    else if lt(x, s[0]) then [x] + s
    else
      var rest := InsertKey(x, s[1..], lt);
      assert forall k :: k in rest ==> lt(s[0], k);
      [s[0]] + rest
  }

  /** The distinct keys of a column, in increasing order: a group-by's groups after `sort_index`. */
  function SortedKeys<K(==,!new)>(ks: seq<K>, lt: (K, K) -> bool): (r: seq<K>)
    requires StrictTotal(lt)
    ensures Increasing(r, lt)
    ensures forall k :: k in r <==> k in ks
  {
    if ks == [] then [] else InsertKey(ks[0], SortedKeys(ks[1..], lt), lt)
  }

  /** Two increasing sequences with the same elements are the same sequence. */
  lemma {:induction false} IncreasingUnique<K(!new)>(a: seq<K>, b: seq<K>, lt: (K, K) -> bool)
    requires StrictTotal(lt) && Increasing(a, lt) && Increasing(b, lt)
    requires forall k :: k in a <==> k in b
    ensures a == b
  {
    if a != [] {
      assert a[0] in b;
    }
    if b != [] {
      assert b[0] in a;
    }
    if a != [] && b != [] {
      assert a[0] == b[0] by {
        assert a[0] in b;
        var j :| 0 <= j < |b| && b[j] == a[0];
        assert b[0] in a;
        var i :| 0 <= i < |a| && a[i] == b[0];
        if i > 0 && j > 0 {
          assert false;
        }
      }
      forall k ensures k in a[1..] <==> k in b[1..] {
        if k in a[1..] {
          var i :| 1 <= i < |a| && a[i] == k;
          assert lt(a[0], k);
          assert k in b;
          var j :| 0 <= j < |b| && b[j] == k;
          assert j != 0;
          assert b[1..][j - 1] == k;
        }
        if k in b[1..] {
          var i :| 1 <= i < |b| && b[i] == k;
          assert lt(b[0], k);
          assert k in a;
          var j :| 0 <= j < |a| && a[j] == k;
          assert j != 0;
          assert a[1..][j - 1] == k;
        }
      }
      IncreasingUnique(a[1..], b[1..], lt);
      assert a == [a[0]] + a[1..] && b == [b[0]] + b[1..];
    }
  }
}
