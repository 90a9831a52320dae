/** Sequence helpers shared by both pipelines: distinctness, keep-first
    deduplication and key-based exclusion (the dataframe filters). */
module Seqs {

  /** No element occurs twice. */
  ghost predicate NoDup<T>(s: seq<T>) {
    forall i, j :: 0 <= i < j < |s| ==> s[i] != s[j]
  }

  /** `f` applied to every element, in order (a column of rows, or the rows
      of one table made from the rows of a batch). */
  function MapSeq<T, U>(s: seq<T>, f: T -> U): (r: seq<U>)
    ensures |r| == |s|
    ensures forall i :: 0 <= i < |s| ==> r[i] == f(s[i])
  {
    if |s| == 0 then [] else [f(s[0])] + MapSeq(s[1..], f)
  }

  lemma MapSeqAppend<T, U>(a: seq<T>, b: seq<T>, f: T -> U)
    ensures MapSeq(a + b, f) == MapSeq(a, f) + MapSeq(b, f)
  {
  }

  lemma MapSeqMember<T, U>(s: seq<T>, f: T -> U, x: T)
    requires x in s
    ensures f(x) in MapSeq(s, f)
  {
    var i :| 0 <= i < |s| && s[i] == x;
    assert MapSeq(s, f)[i] == f(x);
  }

  /** Two sequences without repetitions whose elements are disjoint
      concatenate to one without repetitions. */
  lemma NoDupAppend<T>(a: seq<T>, b: seq<T>)
    requires NoDup(a) && NoDup(b)
    requires forall i, j :: 0 <= i < |a| && 0 <= j < |b| ==> a[i] != b[j]
    ensures NoDup(a + b)
  {
  }

  /** Two sequences, each without a repeated key and sharing no key, append
      to one without a repeated key. */
  lemma KeysAppend<T, K>(a: seq<T>, b: seq<T>, key: T -> K)
    requires NoDup(MapSeq(a, key)) && NoDup(MapSeq(b, key))
    requires forall x, y :: x in a && y in b ==> key(x) != key(y)
    ensures NoDup(MapSeq(a + b, key))
  {
    var ka, kb := MapSeq(a, key), MapSeq(b, key);
    forall i, j | 0 <= i < |ka| && 0 <= j < |kb| ensures ka[i] != kb[j] {
      assert a[i] in a && b[j] in b;
    }
    NoDupAppend(ka, kb);
    MapSeqAppend(a, b, key);
  }

  /** The distinct elements of `s` in the order of their first occurrence
      (the order in which a dictionary receives its keys). */
  function Distinct<T(==,!new)>(s: seq<T>): (r: seq<T>)
    ensures NoDup(r)
    ensures forall x :: x in r <==> x in s
    ensures |r| <= |s|
    decreases |s|
  {
    if |s| == 0 then []
    else
      var p := Distinct(s[..|s| - 1]);
      assert forall x :: x in s <==> x in s[..|s| - 1] || x == s[|s| - 1];
      if s[|s| - 1] in p then p else p + [s[|s| - 1]]
  }

  /** First-seen order: an element of `Distinct(s)` occurs in `s` before
      every occurrence of any element listed after it. */
  lemma {:induction false} DistinctFirstSeen<T(!new)>(s: seq<T>)
    ensures forall i, j, k :: 0 <= i < j < |Distinct(s)| && 0 <= k < |s| && s[k] == Distinct(s)[j] ==>
      Distinct(s)[i] in s[..k]
    decreases |s|
  {
    if |s| > 0 {
      var n := |s| - 1;
      var pre := s[..n];
      var p := Distinct(pre);
      var r := Distinct(s);
      DistinctFirstSeen(pre);
      forall i, j, k | 0 <= i < j < |r| && 0 <= k < |s| && s[k] == r[j]
        ensures r[i] in s[..k]
      {
        if j < |p| {
          assert r[i] == p[i] && r[j] == p[j];
          if k < n {
            assert pre[k] == s[k] && pre[..k] == s[..k];
          } else {
            assert r[j] in pre;
            var k' :| 0 <= k' < n && pre[k'] == r[j];
            assert p[i] in pre[..k'];
            assert pre[..k'] == s[..k'];
          }
        } else {
          // r[j] is s[n], whose first occurrence is at n
          assert r[j] == s[n] && s[n] !in pre;
          assert forall k' :: 0 <= k' < n ==> s[k'] == pre[k'] && pre[k'] in pre;
          assert k == n;
          assert r[i] == p[i] && p[i] in pre && s[..k] == pre;
        }
      }
    }
  }

  /** `rows` repeat no key and share none with `table`: appending them to a
      table keyed by `key` violates no key constraint. */
  predicate KeysFresh<T(==)>(table: seq<T>, rows: seq<T>, key: T -> string) {
    && (forall i, j :: 0 <= i < j < |rows| ==> key(rows[i]) != key(rows[j]))
    && (forall x, y :: x in table && y in rows ==> key(x) != key(y))
  }

  /** Appending fresh rows to a table without a repeated key leaves one
      without a repeated key. */
  lemma KeysFreshAppend<T>(table: seq<T>, rows: seq<T>, key: T -> string)
    requires NoDup(MapSeq(table, key)) && KeysFresh(table, rows, key)
    ensures NoDup(MapSeq(table + rows, key))
  {
    assert NoDup(MapSeq(rows, key)) by {
      forall i, j | 0 <= i < j < |rows|
        ensures MapSeq(rows, key)[i] != MapSeq(rows, key)[j]
      {
      }
    }
    KeysAppend(table, rows, key);
  }

  /** The elements whose key is not in `keys`, in order (`~df[col].isin(keys)`). */
  function Exclude<T(!new), K(==)>(s: seq<T>, key: T -> K, keys: set<K>): (r: seq<T>)
    ensures forall x :: x in r <==> x in s && key(x) !in keys
    ensures |r| <= |s|
    decreases |s|
  {
    if |s| == 0 then []
    else if key(s[0]) in keys then Exclude(s[1..], key, keys)
    else [s[0]] + Exclude(s[1..], key, keys)
  }

  /** A selection of a sequence without repetitions has none either. */
  lemma {:induction false} ExcludeNoDup<T(!new), K>(s: seq<T>, key: T -> K, keys: set<K>)
    requires NoDup(s)
    ensures NoDup(Exclude(s, key, keys))
    decreases |s|
  {
    if |s| > 0 {
      ExcludeNoDup(s[1..], key, keys);
      assert forall x :: x in Exclude(s[1..], key, keys) ==> x in s[1..];
    }
  }

  /** Filtering keeps a column without repeats free of repeats. */
  lemma {:induction false} ExcludeColumnNoDup<T(!new), K, C>(s: seq<T>, key: T -> K, keys: set<K>, col: T -> C)
    requires NoDup(MapSeq(s, col))
    ensures NoDup(MapSeq(Exclude(s, key, keys), col))
    decreases |s|
  {
    if |s| > 0 {
      var rest := Exclude(s[1..], key, keys);
      assert MapSeq(s[1..], col) == MapSeq(s, col)[1..];
      ExcludeColumnNoDup(s[1..], key, keys, col);
      if key(s[0]) !in keys {
        forall x | x in rest
          ensures col(x) != col(s[0])
        {
          var k :| 0 <= k < |s[1..]| && s[1..][k] == x;
          assert MapSeq(s, col)[k + 1] == col(x);
        }
        assert MapSeq([s[0]] + rest, col) == [col(s[0])] + MapSeq(rest, col);
      }
    }
  }

  /** Keep-first deduplication on a key, skipping keys already in `seen`
      (`drop_duplicates(subset=key, keep='first')` when `seen` is empty). */
  function DedupFrom<T(!new), K(==)>(s: seq<T>, key: T -> K, seen: set<K>): (r: seq<T>)
    ensures forall x :: x in r ==> x in s && key(x) !in seen
    ensures NoDup(MapSeq(r, key))
    ensures forall x :: x in s && key(x) !in seen ==> key(x) in MapSeq(r, key)
    ensures |r| <= |s|
    decreases |s|
  {
    if |s| == 0 then []
    else if key(s[0]) in seen then DedupFrom(s[1..], key, seen)
    else
      var rest := DedupFrom(s[1..], key, seen + {key(s[0])});
      assert MapSeq([s[0]] + rest, key) == [key(s[0])] + MapSeq(rest, key);
      [s[0]] + rest
  }

  /** The element kept for a key is the first element of `s` carrying it. */
  lemma {:induction false} DedupKeepsFirst<T(!new), K>(s: seq<T>, key: T -> K, seen: set<K>, i: nat)
    requires i < |s| && key(s[i]) !in seen
    requires forall j :: 0 <= j < i ==> key(s[j]) != key(s[i])
    ensures s[i] in DedupFrom(s, key, seen)
    decreases i
  {
    if i > 0 {
      var seen' := if key(s[0]) in seen then seen else seen + {key(s[0])};
      DedupKeepsFirst(s[1..], key, seen', i - 1);
    }
  }
}
