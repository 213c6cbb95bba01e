/**
 * Folds standing for the SQL aggregates the queries push to the store:
 * `sum(...)` over a table and `group_by(key)` with `sum` or `count` inside.
 */
module Grouping {
  import opened Order

  /** Σ f(x) over every row. */
  function SumOf<T>(s: seq<T>, f: T -> nat): nat {
    if s == [] then 0 else f(s[0]) + SumOf(s[1..], f)
  }

  /** Σ f(x) over every row, for real-valued columns. */
  function RealSumOf<T>(s: seq<T>, f: T -> real): real {
    if s == [] then 0.0 else f(s[0]) + RealSumOf(s[1..], f)
  }

  /** Σ f(x) over the rows whose key is k: one group of a group-by, 0 for a key that has no row. */
  function KeyedSum<T, K(==)>(s: seq<T>, key: T -> K, k: K, f: T -> nat): nat {
    if s == [] then 0 else (if key(s[0]) == k then f(s[0]) else 0) + KeyedSum(s[1..], key, k, f)
  }

  /** Some row carries key k: the group exists in the group-by result. */
  predicate HasKey<T, K(==)>(s: seq<T>, key: T -> K, k: K) {
    exists i :: 0 <= i < |s| && key(s[i]) == k
  }

  predicate Distinct<K(==)>(ks: seq<K>) {
    forall i, j :: 0 <= i < j < |ks| ==> ks[i] != ks[j]
  }

  /** The distinct keys of a column, in order of first appearance. */
  function FirstSeen<K(==,!new)>(ks: seq<K>): (r: seq<K>)
    ensures Distinct(r)
    ensures forall k :: k in r <==> k in ks
  {
    if ks == [] then []
    else
      var init, last := ks[..|ks| - 1], ks[|ks| - 1];
      assert ks == init + [last];
      var seen := FirstSeen(init);
      if last in seen then seen else seen + [last]
  }

  /** The rows a `where` clause keeps, in fetch order. */
  function Where<T(!new)>(s: seq<T>, keep: T -> bool): (r: seq<T>)
    ensures |r| <= |s|
    ensures forall x :: x in r <==> x in s && keep(x)
  {
    if s == [] then []
    else
      assert forall x :: x in s <==> x == s[0] || x in s[1..];
      (if keep(s[0]) then [s[0]] else []) + Where(s[1..], keep)
  }

  /** Filtering commutes with concatenation: the kept rows stay in fetch order. */
  lemma {:induction false} WhereConcat<T(!new)>(a: seq<T>, b: seq<T>, keep: T -> bool)
    ensures Where(a + b, keep) == Where(a, keep) + Where(b, keep)
  {
    if a == [] {
      assert a + b == b;
    } else {
      assert (a + b)[1..] == a[1..] + b;
      WhereConcat(a[1..], b, keep);
    }
  }

  /** The keys of a group-by on a numeric column after `sort_index`: increasing, each once. */
  function GroupKeys<T>(s: seq<T>, key: T -> nat): (ks: seq<nat>)
    ensures Increasing(ks, NatLt)
    ensures forall k :: k in ks <==> HasKey(s, key, k)
  {
    NatLtStrictTotal();
    var cs := KeysOf(s, key);
    assert forall k :: k in cs <==> HasKey(s, key, k) by {
      forall k ensures k in cs <==> HasKey(s, key, k) {
        if k in cs {
          var i :| 0 <= i < |cs| && cs[i] == k;
          assert key(s[i]) == k;
        }
      }
    }
    SortedKeys(cs, NatLt)
  }

  /** Every row's key is one of the group keys. */
  lemma EveryKeyIsGroupKey<T>(s: seq<T>, key: T -> nat)
    ensures forall x :: x in s ==> key(x) in GroupKeys(s, key)
  {
    forall x | x in s ensures key(x) in GroupKeys(s, key) {
      var i :| 0 <= i < |s| && s[i] == x;
      assert HasKey(s, key, key(x));
    }
  }

  /** Σ over a list of groups of each group's sum. */
  function GroupTotal<T, K(==)>(s: seq<T>, key: T -> K, ks: seq<K>, f: T -> nat): nat {
    if ks == [] then 0 else KeyedSum(s, key, ks[0], f) + GroupTotal(s, key, ks[1..], f)
  }

  lemma {:induction false} GroupTotalOfNoRows<T, K>(key: T -> K, ks: seq<K>, f: T -> nat)
    ensures GroupTotal([], key, ks, f) == 0
  {
    if ks != [] {
      GroupTotalOfNoRows(key, ks[1..], f);
    }
  }

  lemma {:induction false} GroupTotalCons<T, K>(x: T, rest: seq<T>, key: T -> K, ks: seq<K>, f: T -> nat)
    requires Distinct(ks)
    ensures GroupTotal([x] + rest, key, ks, f) == (if key(x) in ks then f(x) else 0) + GroupTotal(rest, key, ks, f)
  {
    assert ([x] + rest)[1..] == rest;
    if ks != [] {
      GroupTotalCons(x, rest, key, ks[1..], f);
      assert key(x) in ks <==> key(x) == ks[0] || key(x) in ks[1..];
      assert key(x) == ks[0] ==> key(x) !in ks[1..];
    }
  }

  /** Adding up the groups of two key lists in turn. */
  lemma {:induction false} GroupTotalConcat<T, K>(s: seq<T>, key: T -> K, a: seq<K>, b: seq<K>, f: T -> nat)
    ensures GroupTotal(s, key, a + b, f) == GroupTotal(s, key, a, f) + GroupTotal(s, key, b, f)
  {
    if a == [] {
      assert a + b == b;
    } else {
      assert (a + b)[0] == a[0] && (a + b)[1..] == a[1..] + b;
      GroupTotalConcat(s, key, a[1..], b, f);
    }
  }

  /** Adding up every group of a group-by gives the total over all rows: no row is lost or counted twice. */
  lemma {:induction false} GroupsPartitionTotal<T, K>(s: seq<T>, key: T -> K, ks: seq<K>, f: T -> nat)
    requires Distinct(ks)
    requires forall x :: x in s ==> key(x) in ks
    ensures GroupTotal(s, key, ks, f) == SumOf(s, f)
  {
    if s == [] {
      GroupTotalOfNoRows(key, ks, f);
    } else {
      assert s == [s[0]] + s[1..];
      GroupsPartitionTotal(s[1..], key, ks, f);
      GroupTotalCons(s[0], s[1..], key, ks, f);
    }
  }

  lemma {:induction false} SumOfConcat<T>(a: seq<T>, b: seq<T>, f: T -> nat)
    ensures SumOf(a + b, f) == SumOf(a, f) + SumOf(b, f)
  {
    if a != [] {
      assert (a + b)[1..] == a[1..] + b;
      SumOfConcat(a[1..], b, f);
    } else {
      assert a + b == b;
    }
  }

  /** Columns that agree row by row have the same sum. */
  lemma {:induction false} SumsAgree<A, B>(a: seq<A>, b: seq<B>, f: A -> nat, g: B -> nat)
    requires |a| == |b| && forall i :: 0 <= i < |a| ==> f(a[i]) == g(b[i])
    ensures SumOf(a, f) == SumOf(b, g)
  {
    if a != [] {
      assert forall i :: 0 <= i < |a[1..]| ==> a[1..][i] == a[i + 1] && b[1..][i] == b[i + 1];
      SumsAgree(a[1..], b[1..], f, g);
    }
  }

  /** A sum does not depend on the order of the rows. */
  lemma {:induction false} SumOfPermutation<T>(a: seq<T>, b: seq<T>, f: T -> nat)
    requires multiset(a) == multiset(b)
    ensures SumOf(a, f) == SumOf(b, f)
  {
    if a == [] {
      assert |b| == |multiset(b)| == 0;
    } else {
      assert a[0] in multiset(b);
      var j :| 0 <= j < |b| && b[j] == a[0];
      var rest := b[..j] + b[j + 1..];
      assert b == b[..j] + ([b[j]] + b[j + 1..]);
      SumOfConcat(b[..j], [b[j]] + b[j + 1..], f);
      assert ([b[j]] + b[j + 1..])[1..] == b[j + 1..];
      SumOfConcat(b[..j], b[j + 1..], f);
      assert a == [a[0]] + a[1..];
      assert multiset(b) == multiset(b[..j]) + multiset{b[j]} + multiset(b[j + 1..]);
      assert multiset(a) == multiset{a[0]} + multiset(a[1..]);
      assert multiset(rest) == multiset(b[..j]) + multiset(b[j + 1..]);
      assert multiset(rest) == multiset(b) - multiset{b[j]};
      assert multiset(a[1..]) == multiset(a) - multiset{a[0]};
      SumOfPermutation(a[1..], rest, f);
    }
  }

  /** One group's sum is the sum of a column that is zero outside the group. */
  lemma {:induction false} KeyedSumIsSumOf<T, K>(s: seq<T>, key: T -> K, k: K, f: T -> nat)
    ensures KeyedSum(s, key, k, f) == SumOf(s, x => if key(x) == k then f(x) else 0)
  {
    if s != [] {
      KeyedSumIsSumOf(s[1..], key, k, f);
    }
  }

  /** A group's sum does not depend on the order of the rows. */
  lemma KeyedSumPermutation<T, K>(a: seq<T>, b: seq<T>, key: T -> K, k: K, f: T -> nat)
    requires multiset(a) == multiset(b)
    ensures KeyedSum(a, key, k, f) == KeyedSum(b, key, k, f)
  {
    KeyedSumIsSumOf(a, key, k, f);
    KeyedSumIsSumOf(b, key, k, f);
    SumOfPermutation(a, b, x => if key(x) == k then f(x) else 0);
  }

  /** A key no row carries sums to 0. */
  lemma {:induction false} KeyedSumAbsent<T, K>(s: seq<T>, key: T -> K, k: K, f: T -> nat)
    requires !HasKey(s, key, k)
    ensures KeyedSum(s, key, k, f) == 0
  {
    if s != [] {
      assert !HasKey(s[1..], key, k) by {
        forall i | 0 <= i < |s[1..]| ensures key(s[1..][i]) != k {
          assert s[1..][i] == s[i + 1];
        }
      }
      KeyedSumAbsent(s[1..], key, k, f);
    }
  }

  /** Where the key is unique, a group's sum is the one row's value. */
  lemma {:induction false} KeyedSumOfUnique<T, K>(s: seq<T>, key: T -> K, j: nat, f: T -> nat)
    requires KeysDistinct(s, key) && j < |s|
    ensures KeyedSum(s, key, key(s[j]), f) == f(s[j])
  {
    assert KeysDistinct(s[1..], key) by {
      forall a, b | 0 <= a < b < |s[1..]| ensures key(s[1..][a]) != key(s[1..][b]) {
        assert s[1..][a] == s[a + 1] && s[1..][b] == s[b + 1];
      }
    }
    if j == 0 {
      assert !HasKey(s[1..], key, key(s[0])) by {
        forall i | 0 <= i < |s[1..]| ensures key(s[1..][i]) != key(s[0]) {
          assert s[1..][i] == s[i + 1];
        }
      }
      KeyedSumAbsent(s[1..], key, key(s[0]), f);
    } else {
      assert s[1..][j - 1] == s[j];
      KeyedSumOfUnique(s[1..], key, j - 1, f);
    }
  }

  lemma {:induction false} KeyedSumConcat<T, K>(a: seq<T>, b: seq<T>, key: T -> K, k: K, f: T -> nat)
    ensures KeyedSum(a + b, key, k, f) == KeyedSum(a, key, k, f) + KeyedSum(b, key, k, f)
  {
    if a == [] {
      assert a + b == b;
    } else {
      assert (a + b)[0] == a[0] && (a + b)[1..] == a[1..] + b;
      KeyedSumConcat(a[1..], b, key, k, f);
    }
  }

  /** A looser `where` clause leaves every group at least as large. */
  lemma {:induction false} KeyedSumWhereMonotone<T(!new), K>(s: seq<T>, key: T -> K, k: K, f: T -> nat,
                                                         narrow: T -> bool, wide: T -> bool)
    requires forall x :: x in s && narrow(x) ==> wide(x)
    ensures KeyedSum(Where(s, narrow), key, k, f) <= KeyedSum(Where(s, wide), key, k, f)
  {
    if s != [] {
      assert forall x :: x in s[1..] ==> x in s;
      KeyedSumWhereMonotone(s[1..], key, k, f, narrow, wide);
      KeyedSumConcat(if narrow(s[0]) then [s[0]] else [], Where(s[1..], narrow), key, k, f);
      KeyedSumConcat(if wide(s[0]) then [s[0]] else [], Where(s[1..], wide), key, k, f);
    }
  }

  /** Filtering keeps a unique key unique. */
  lemma {:induction false} WhereKeepsKeysDistinct<T(!new), K>(s: seq<T>, keep: T -> bool, key: T -> K)
    requires KeysDistinct(s, key)
    ensures KeysDistinct(Where(s, keep), key)
  {
    if s != [] {
      assert KeysDistinct(s[1..], key) by {
        forall a, b | 0 <= a < b < |s[1..]| ensures key(s[1..][a]) != key(s[1..][b]) {
          assert s[1..][a] == s[a + 1] && s[1..][b] == s[b + 1];
        }
      }
      WhereKeepsKeysDistinct(s[1..], keep, key);
      var rest := Where(s[1..], keep);
      if keep(s[0]) {
        forall y | y in rest ensures key(y) != key(s[0]) {
          var j :| 0 <= j < |s[1..]| && s[1..][j] == y;
          assert s[j + 1] == y;
        }
        var r := [s[0]] + rest;
        forall a, b | 0 <= a < b < |r| ensures key(r[a]) != key(r[b]) {
          assert r[b] == rest[b - 1] && r[b] in rest;
          if a > 0 {
            assert r[a] == rest[a - 1];
          }
        }
      } else {
        assert Where(s, keep) == rest;
      }
    }
  }

  /** Keys in strictly increasing order are distinct. */
  lemma IncreasingIsDistinct<K(!new)>(ks: seq<K>, lt: (K, K) -> bool)
    requires StrictTotal(lt) && Increasing(ks, lt)
    ensures Distinct(ks)
  {
  }
}
