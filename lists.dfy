/**
 * The array operations the stores and the storefront use, on sequences:
 * `findIndex`, `find(...) || null`, `filter` on one key and `map` that
 * rewrites the entries with one key. Each takes the key as a function so
 * that the same definition serves ids, slugs, statuses and sort keys.
 */
module Lists {
  import opened Wrappers

  /** `Array.prototype.findIndex`: the first index whose key is `k`, or -1. */
  function FindIndex<T, K(==)>(s: seq<T>, key: T -> K, k: K): (r: int)
    ensures -1 <= r < |s|
    ensures r == -1 <==> forall i :: 0 <= i < |s| ==> key(s[i]) != k
    ensures 0 <= r ==> key(s[r]) == k && forall i :: 0 <= i < r ==> key(s[i]) != k
  {
    if s == [] then -1
    else if key(s[0]) == k then 0
    else
      var j := FindIndex(s[1..], key, k);
      if j == -1 then -1 else j + 1
  }

  /** `Array.prototype.find(...) || null`: the first element whose key is `k`. */
  function Find<T, K(==)>(s: seq<T>, key: T -> K, k: K): (r: Option<T>)
    ensures r.None? <==> forall i :: 0 <= i < |s| ==> key(s[i]) != k
    ensures r.Some? ==> r.value in s && key(r.value) == k
    ensures forall i :: 0 <= i < |s| && key(s[i]) == k && (forall j :: 0 <= j < i ==> key(s[j]) != k) ==> r == Some(s[i])
  {
    var i := FindIndex(s, key, k);
    if i == -1 then None else Some(s[i])
  }

  /** `filter(e => key(e) === k)`: the entries with key `k`, in their original order. */
  function KeepWhere<T, K(==)>(s: seq<T>, key: T -> K, k: K): (r: seq<T>)
    ensures |r| <= |s|
    ensures forall i :: 0 <= i < |r| ==> r[i] in s && key(r[i]) == k
    ensures forall i :: 0 <= i < |s| && key(s[i]) == k ==> s[i] in r
  {
    if s == [] then []
    else (if key(s[0]) == k then [s[0]] else []) + KeepWhere(s[1..], key, k)
  }

  /** `filter(e => key(e) !== k)`: the entries whose key is not `k`, in their original order. */
  function RemoveWhere<T, K(==)>(s: seq<T>, key: T -> K, k: K): (r: seq<T>)
    ensures |r| <= |s|
    ensures forall i :: 0 <= i < |r| ==> r[i] in s && key(r[i]) != k
    ensures forall i :: 0 <= i < |s| && key(s[i]) != k ==> s[i] in r
  {
    if s == [] then []
    else (if key(s[0]) != k then [s[0]] else []) + RemoveWhere(s[1..], key, k)
  }

  /** `map(e => key(e) === k ? f(e) : e)`: every entry with key `k` rewritten, the rest kept. */
  function MapWhere<T, K(==)>(s: seq<T>, key: T -> K, k: K, f: T -> T): (r: seq<T>)
    ensures |r| == |s|
    ensures forall i :: 0 <= i < |s| ==> r[i] == if key(s[i]) == k then f(s[i]) else s[i]
  {
    if s == [] then []
    else [if key(s[0]) == k then f(s[0]) else s[0]] + MapWhere(s[1..], key, k, f)
  }

  /** Filtering a concatenation filters each part. */
  lemma {:induction false} KeepWhereAppend<T, K>(a: seq<T>, b: seq<T>, key: T -> K, k: K)
    ensures KeepWhere(a + b, key, k) == KeepWhere(a, key, k) + KeepWhere(b, key, k)
  {
    if a != [] {
      assert (a + b)[1..] == a[1..] + b;
      KeepWhereAppend(a[1..], b, key, k);
    } else {
      assert a + b == b;
    }
  }

  /** Removing from a concatenation removes from each part. */
  lemma {:induction false} RemoveWhereAppend<T, K>(a: seq<T>, b: seq<T>, key: T -> K, k: K)
    ensures RemoveWhere(a + b, key, k) == RemoveWhere(a, key, k) + RemoveWhere(b, key, k)
  {
    if a != [] {
      assert (a + b)[1..] == a[1..] + b;
      RemoveWhereAppend(a[1..], b, key, k);
    } else {
      assert a + b == b;
    }
  }

  /** Filtering a non-empty list decides its first entry, then filters the rest. */
  lemma FilterFront<T, K>(s: seq<T>, key: T -> K, k: K)
    requires s != []
    ensures KeepWhere(s, key, k) == (if key(s[0]) == k then [s[0]] else []) + KeepWhere(s[1..], key, k)
    ensures RemoveWhere(s, key, k) == (if key(s[0]) != k then [s[0]] else []) + RemoveWhere(s[1..], key, k)
  {
  }

  /** The kept and the removed entries together are exactly the input: filtering only drops. */
  lemma {:induction false} KeepRemovePartition<T, K>(s: seq<T>, key: T -> K, k: K)
    ensures multiset(KeepWhere(s, key, k)) + multiset(RemoveWhere(s, key, k)) == multiset(s)
    ensures |KeepWhere(s, key, k)| + |RemoveWhere(s, key, k)| == |s|
  {
    if s != [] {
      KeepRemovePartition(s[1..], key, k);
      assert s == [s[0]] + s[1..];
    }
  }

  /** Removing entries with key `k` shortens the list exactly when some entry has key `k`. */
  lemma RemoveWhereShrinks<T, K>(s: seq<T>, key: T -> K, k: K)
    ensures |RemoveWhere(s, key, k)| < |s| <==> exists i :: 0 <= i < |s| && key(s[i]) == k
  {
    KeepRemovePartition(s, key, k);
    if exists i :: 0 <= i < |s| && key(s[i]) == k {
      var i :| 0 <= i < |s| && key(s[i]) == k;
      assert s[i] in KeepWhere(s, key, k);
    }
  }

  /** A filter that every entry passes changes nothing. */
  lemma {:induction false} KeepWhereAll<T, K>(s: seq<T>, key: T -> K, k: K)
    requires forall i :: 0 <= i < |s| ==> key(s[i]) == k
    ensures KeepWhere(s, key, k) == s
  {
    if s != [] {
      KeepWhereAll(s[1..], key, k);
    }
  }

  /** Rewriting the entries with key `k` by a map that keeps their key does not move the first entry with key `k`. */
  lemma {:induction false} FindIndexAfterMapWhere<T, K>(s: seq<T>, key: T -> K, k: K, f: T -> T)
    requires forall i :: 0 <= i < |s| && key(s[i]) == k ==> key(f(s[i])) == k
    ensures FindIndex(MapWhere(s, key, k, f), key, k) == FindIndex(s, key, k)
  {
    if s != [] {
      FindIndexAfterMapWhere(s[1..], key, k, f);
      assert MapWhere(s, key, k, f)[1..] == MapWhere(s[1..], key, k, f);
    }
  }

  /** Removing a key that no entry carries changes nothing. */
  lemma {:induction false} RemoveWhereAbsent<T, K>(s: seq<T>, key: T -> K, k: K)
    requires forall i :: 0 <= i < |s| ==> key(s[i]) != k
    ensures RemoveWhere(s, key, k) == s
  {
    if s != [] {
      RemoveWhereAbsent(s[1..], key, k);
    }
  }

  /** Replacing the first entry with key `k`, and dropping the later ones, leaves the other entries as they were. */
  lemma RemoveAfterReplace<T, K>(s: seq<T>, i: nat, x: T, key: T -> K, k: K)
    requires i < |s| && key(s[i]) == k && key(x) == k
    requires forall j :: 0 <= j < i ==> key(s[j]) != k
    ensures RemoveWhere(s[..i] + [x] + RemoveWhere(s[i + 1..], key, k), key, k) == RemoveWhere(s, key, k)
  {
    var front, back := s[..i], s[i + 1..];
    assert s == front + [s[i]] + back;
    RemoveAround(front, s[i], back, key, k);
    RemoveAround(front, x, RemoveWhere(back, key, k), key, k);
    RemoveWhereAbsent(RemoveWhere(back, key, k), key, k);
  }

  /** Removing the entries with key `k` around one that has it drops that one too. */
  lemma RemoveAround<T, K>(front: seq<T>, y: T, back: seq<T>, key: T -> K, k: K)
    requires key(y) == k
    ensures RemoveWhere(front + [y] + back, key, k) == RemoveWhere(front, key, k) + RemoveWhere(back, key, k)
  {
    RemoveWhereAppend(front + [y], back, key, k);
    RemoveWhereAppend(front, [y], key, k);
  }

  /** Appending an entry with key `k` leaves the other entries as they were. */
  lemma RemoveAfterAppend<T, K>(s: seq<T>, x: T, key: T -> K, k: K)
    requires key(x) == k
    ensures RemoveWhere(s + [x], key, k) == RemoveWhere(s, key, k)
  {
    RemoveWhereAppend(s, [x], key, k);
  }

  /** The first match in a concatenation is the first match in the left part, if it has one, else in the right part. */
  lemma {:induction false} FindAppend<T, K>(a: seq<T>, b: seq<T>, key: T -> K, k: K)
    ensures Find(a + b, key, k) == if Find(a, key, k).Some? then Find(a, key, k) else Find(b, key, k)
  {
    if a == [] {
      assert a + b == b;
    } else {
      assert (a + b)[1..] == a[1..] + b;
      FindAppend(a[1..], b, key, k);
    }
  }

  /** An entry with a different key is passed over: the search goes on behind it. */
  lemma FindAroundOther<T, K>(front: seq<T>, x: T, back: seq<T>, key: T -> K, k: K)
    requires key(x) != k
    ensures Find(front + [x] + back, key, k) == if Find(front, key, k).Some? then Find(front, key, k) else Find(back, key, k)
  {
    FindAppend(front + [x], back, key, k);
    FindAppend(front, [x], key, k);
  }

  /** Replacing the first entry with key `k` and dropping the later ones does not change which entry is first for another key. */
  lemma FindAfterReplaceOther<T, K>(s: seq<T>, i: nat, x: T, key: T -> K, k: K, other: K)
    requires i < |s| && key(s[i]) == k && key(x) == k && other != k
    ensures Find(s[..i] + [x] + RemoveWhere(s[i + 1..], key, k), key, other) == Find(s, key, other)
  {
    FindAroundOther(s[..i], s[i], s[i + 1..], key, other);
    FindAroundOther(s[..i], x, RemoveWhere(s[i + 1..], key, k), key, other);
    FindAfterRemoveOther(s[i + 1..], key, k, other);
    assert s == s[..i] + [s[i]] + s[i + 1..];
  }

  /** Removing the entries with one key does not change which entry is first for another key. */
  lemma {:induction false} FindAfterRemoveOther<T, K>(s: seq<T>, key: T -> K, k: K, other: K)
    requires other != k
    ensures Find(RemoveWhere(s, key, k), key, other) == Find(s, key, other)
  {
    if s != [] {
      FindAfterRemoveOther(s[1..], key, k, other);
      var head := if key(s[0]) != k then [s[0]] else [];
      FindAppend(head, RemoveWhere(s[1..], key, k), key, other);
      assert s == [s[0]] + s[1..];
      FindAppend([s[0]], s[1..], key, other);
    }
  }
}
