/**
 * `groupBy(arr, keyFn)`: collect the elements of `arr` under their key, each
 * group in input order, and read the groups back in the order their keys were
 * first seen (`Object.entries` on an object whose keys are not array indices,
 * which holds for conference names).
 */
module Grouping {
  import opened Seqs

  /** The elements of `s` whose key is `k`, in order. */
  function Members<T, K(==)>(s: seq<T>, key: T -> K, k: K): (r: seq<T>)
    ensures |r| <= |s|
  {
    if s == [] then []
    else Members(s[..|s| - 1], key, k) + (if key(s[|s| - 1]) == k then [s[|s| - 1]] else [])
  }

  /** The key k occurs in `s`. */
  predicate HasKey<T, K(==)>(s: seq<T>, key: T -> K, k: K)
  {
    exists j :: 0 <= j < |s| && key(s[j]) == k
  }

  /** The distinct keys of `s`, in the order they are first seen. */
  function KeysOf<T, K(==)>(s: seq<T>, key: T -> K): (ks: seq<K>)
    ensures |ks| <= |s|
  {
    if s == [] then []
    else
      var ks := KeysOf(s[..|s| - 1], key);
      if key(s[|s| - 1]) in ks then ks else ks + [key(s[|s| - 1])]
  }

  /** Index of the first element of `s` with key `k`. */
  function FirstWithKey<T, K(==)>(s: seq<T>, key: T -> K, k: K): (i: nat)
    requires HasKey(s, key, k)
    ensures i < |s| && key(s[i]) == k
    ensures forall j :: 0 <= j < i ==> key(s[j]) != k
  {
    if key(s[0]) == k then 0
    else
      assert HasKey(s[1..], key, k) by {
        var j :| 0 <= j < |s| && key(s[j]) == k;
        assert s[1..][j - 1] == s[j];
      }
      1 + FirstWithKey(s[1..], key, k)
  }

  /** The groups of `arr`: one per key, keys in first-seen order, each group the members with that key. */
  method GroupBy<T, K(==)>(arr: seq<T>, key: T -> K) returns (groups: seq<(K, seq<T>)>)
    ensures |groups| == |KeysOf(arr, key)|
    ensures forall g :: 0 <= g < |groups| ==>
              groups[g].0 == KeysOf(arr, key)[g] && groups[g].1 == Members(arr, key, groups[g].0)
  {
    var m: map<K, seq<T>> := map[];
    var order: seq<K> := [];
    var i := 0;
    while i < |arr|
      invariant 0 <= i <= |arr|
      invariant order == KeysOf(arr[..i], key)
      invariant forall k :: k in m <==> k in order
      invariant forall k :: k in m ==> m[k] == Members(arr[..i], key, k)
    {
      var x := arr[i];
      var k := key(x);
      assert arr[..i + 1][..i] == arr[..i];
      if k !in m {
        assert k !in order;
        KeysOfExact(arr[..i], key);
        assert !HasKey(arr[..i], key, k);
        MembersNotHasKey(arr[..i], key, k);
        order := order + [k];
        m := m[k := [x]];
      } else {
        assert k in order;
        m := m[k := m[k] + [x]];
      }
      i := i + 1;
    }
    assert arr[..i] == arr;
    groups := seq(|order|, g requires 0 <= g < |order| => (order[g], m[order[g]]));
  }

  // ---------- What the groups are ----------

  /** A group holds exactly the elements with its key. */
  lemma {:induction false} MembersAreKeyed<T, K>(s: seq<T>, key: T -> K, k: K, x: T)
    ensures x in Members(s, key, k) <==> x in s && key(x) == k
  {
    if s != [] {
      var p := s[..|s| - 1];
      MembersAreKeyed(p, key, k, x);
      assert s == p + [s[|s| - 1]];
    }
  }

  /** A key that does not occur has an empty group. */
  lemma {:induction false} MembersNotHasKey<T, K>(s: seq<T>, key: T -> K, k: K)
    requires !HasKey(s, key, k)
    ensures Members(s, key, k) == []
  {
    if s != [] {
      var p := s[..|s| - 1];
      forall j | 0 <= j < |p| ensures key(p[j]) != k {
        assert s[j] == p[j];
      }
      MembersNotHasKey(p, key, k);
    }
  }

  /** Every key is listed once, and exactly the keys that occur are listed. */
  lemma {:induction false} KeysOfExact<T, K>(s: seq<T>, key: T -> K)
    ensures Distinct(KeysOf(s, key))
    ensures forall k :: k in KeysOf(s, key) <==> HasKey(s, key, k)
  {
    if s != [] {
      var p := s[..|s| - 1];
      KeysOfExact(p, key);
      forall k ensures HasKey(s, key, k) <==> HasKey(p, key, k) || key(s[|s| - 1]) == k {
        if HasKey(s, key, k) && key(s[|s| - 1]) != k {
          var j :| 0 <= j < |s| && key(s[j]) == k;
          assert p[j] == s[j];
        }
        if HasKey(p, key, k) {
          var j :| 0 <= j < |p| && key(p[j]) == k;
          assert p[j] == s[j];
        }
      }
    }
  }

  /** Keys are listed in the order of their first occurrence. */
  lemma {:induction false} KeysOfFirstSeen<T, K>(s: seq<T>, key: T -> K, a: nat, b: nat)
    requires a < b < |KeysOf(s, key)|
    ensures HasKey(s, key, KeysOf(s, key)[a]) && HasKey(s, key, KeysOf(s, key)[b])
    ensures FirstWithKey(s, key, KeysOf(s, key)[a]) < FirstWithKey(s, key, KeysOf(s, key)[b])
  {
    KeysOfExact(s, key);
    var ks := KeysOf(s, key);
    assert ks[a] in ks && ks[b] in ks;
    var p := s[..|s| - 1];
    var kp := KeysOf(p, key);
    KeysOfExact(p, key);
    if b < |kp| {
      assert ks[a] == kp[a] && ks[b] == kp[b];
      KeysOfFirstSeen(p, key, a, b);
      FirstWithKeyPrefix(s, |s| - 1, key, ks[a]);
      FirstWithKeyPrefix(s, |s| - 1, key, ks[b]);
    } else {
      // ks[b] is the last element's key, seen nowhere before it
      assert ks[b] == key(s[|s| - 1]) && ks[b] !in kp;
      assert ks[a] == kp[a] && kp[a] in kp;
      assert HasKey(p, key, ks[a]);
      FirstWithKeyPrefix(s, |s| - 1, key, ks[a]);
      assert FirstWithKey(s, key, ks[a]) < |p|;
      assert FirstWithKey(s, key, ks[b]) == |s| - 1;
    }
  }

  /** The first match in a prefix that has one is the first match in the whole sequence. */
  lemma {:induction false} FirstWithKeyPrefix<T, K>(s: seq<T>, n: nat, key: T -> K, k: K)
    requires n <= |s| && HasKey(s[..n], key, k)
    ensures HasKey(s, key, k)
    ensures FirstWithKey(s, key, k) == FirstWithKey(s[..n], key, k)
  {
    var j :| 0 <= j < n && key(s[..n][j]) == k;
    assert s[..n][j] == s[j];
    var g := FirstWithKey(s[..n], key, k);
    assert s[..n][g] == s[g];
    forall i | 0 <= i < g ensures key(s[i]) != k {
      assert s[..n][i] == s[i];
    }
  }

  /** The group of a one-element sequence. */
  lemma {:induction false} MembersSingle<T, K>(x: T, key: T -> K, k: K)
    ensures Members([x], key, k) == if key(x) == k then [x] else []
  {
    assert [x][..0] == [];
  }

  /** Grouping a concatenation groups each part. */
  lemma {:induction false} MembersAppend<T, K>(a: seq<T>, b: seq<T>, key: T -> K, k: K)
    ensures Members(a + b, key, k) == Members(a, key, k) + Members(b, key, k)
  {
    if b != [] {
      var p := b[..|b| - 1];
      assert (a + b)[..|a + b| - 1] == a + p;
      MembersAppend(a, p, key, k);
    } else {
      assert a + b == a;
    }
  }
}
