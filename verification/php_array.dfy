/**
  A PHP array as the interpreter sees it: an ordered list of key/value
  entries. Writing a new key appends it at the end, overwriting an existing
  key keeps its position, and unsetting a key drops its entry.
 */
module PhpArray {
  import opened Wrappers

  /** An array key: PHP keys are integers or strings. */
  datatype Key = IntKey(i: int) | StrKey(s: string)

  /** The entries of an array, in iteration order. */
  type Entries<V> = seq<(Key, V)>

  /** No key occurs twice; every array PHP builds has this shape. */
  ghost predicate DistinctKeys<V>(a: Entries<V>) {
    forall i, j :: 0 <= i < j < |a| ==> a[i].0 != a[j].0
  }

  /** True iff `k` is the key of some entry of `a`. */
  ghost predicate Occurs<V>(a: Entries<V>, k: Key) {
    exists i :: 0 <= i < |a| && a[i].0 == k
  }

  /** `$a[$k]`: the value stored under `k`, if any. */
  function Lookup<V>(a: Entries<V>, k: Key): (r: Option<V>)
    ensures r.Some? <==> Occurs(a, k)
    ensures r.Some? ==> exists i :: 0 <= i < |a| && a[i] == (k, r.value)
  {
    if a == [] then None
    else if a[0].0 == k then Some(a[0].1)
    else
      var r := Lookup(a[1..], k);
      assert Occurs(a, k) ==> Occurs(a[1..], k) by {
        if Occurs(a, k) {
          var i :| 0 <= i < |a| && a[i].0 == k;
          assert a[1..][i - 1].0 == k;
        }
      }
      assert r.Some? ==> exists i :: 0 <= i < |a| && a[i] == (k, r.value) by {
        if r.Some? {
          var i :| 0 <= i < |a[1..]| && a[1..][i] == (k, r.value);
          assert a[i + 1] == (k, r.value);
        }
      }
      r
  }

  /** `array_key_exists($k, $a)`. */
  predicate HasKey<V>(a: Entries<V>, k: Key) {
    Lookup(a, k).Some?
  }

  /** In an array with distinct keys the first key does not occur again. */
  lemma HeadNotInTail<V>(a: Entries<V>)
    requires |a| > 0 && DistinctKeys(a)
    ensures DistinctKeys(a[1..]) && !Occurs(a[1..], a[0].0)
  {
    forall i | 0 <= i < |a[1..]|
      ensures a[1..][i].0 != a[0].0
    {
      assert a[1..][i] == a[i + 1];
    }
  }

  /** Putting a fresh key in front keeps the keys distinct. */
  lemma ConsDistinct<V>(e: (Key, V), rest: Entries<V>)
    requires DistinctKeys(rest) && !Occurs(rest, e.0)
    ensures DistinctKeys([e] + rest)
  {
    forall i, j | 0 <= i < j < |[e] + rest|
      ensures ([e] + rest)[i].0 != ([e] + rest)[j].0
    {
      assert ([e] + rest)[j] == rest[j - 1];
      if i > 0 {
        assert ([e] + rest)[i] == rest[i - 1];
      }
    }
  }

  /** `$a[$k] = $v`: overwrite `k` in place, or append it when it is new. */
  function Assign<V>(a: Entries<V>, k: Key, v: V): (r: Entries<V>)
    ensures Lookup(r, k) == Some(v)
    ensures forall j :: j != k ==> Lookup(r, j) == Lookup(a, j)
  {
    if a == [] then [(k, v)]
    else if a[0].0 == k then [(k, v)] + a[1..]
    else
      var r := [a[0]] + Assign(a[1..], k, v);
      assert r[1..] == Assign(a[1..], k, v);
      r
  }

  /**
    Where the assigned entry goes: a new key is appended at the end, and an
    existing key keeps its position, with every key where it was.
   */
  lemma {:induction false} AssignPlacement<V>(a: Entries<V>, k: Key, v: V)
    ensures !HasKey(a, k) ==> Assign(a, k, v) == a + [(k, v)]
    ensures HasKey(a, k) ==>
      |Assign(a, k, v)| == |a| && forall i :: 0 <= i < |a| ==> Assign(a, k, v)[i].0 == a[i].0
    decreases |a|
  {
    if a != [] && a[0].0 != k {
      AssignPlacement(a[1..], k, v);
      var rest := Assign(a[1..], k, v);
      assert Assign(a, k, v) == [a[0]] + rest;
      if !HasKey(a, k) {
        assert a == [a[0]] + a[1..];
      } else {
        forall i | 1 <= i < |a|
          ensures Assign(a, k, v)[i].0 == a[i].0
        {
          assert Assign(a, k, v)[i] == rest[i - 1];
          assert a[i] == a[1..][i - 1];
        }
      }
    }
  }

  /** Assigning keeps the keys distinct. */
  lemma {:induction false} AssignKeepsDistinct<V>(a: Entries<V>, k: Key, v: V)
    requires DistinctKeys(a)
    ensures DistinctKeys(Assign(a, k, v))
    decreases |a|
  {
    if a != [] {
      HeadNotInTail(a);
      if a[0].0 == k {
        ConsDistinct((k, v), a[1..]);
      } else {
        AssignKeepsDistinct(a[1..], k, v);
        var rest := Assign(a[1..], k, v);
        assert Lookup(rest, a[0].0) == Lookup(a[1..], a[0].0);
        ConsDistinct(a[0], rest);
      }
    }
  }

  /** `unset($a[$k])`: drop the entry for `k`, keeping the others in order. */
  function Remove<V>(a: Entries<V>, k: Key): (r: Entries<V>)
    ensures Lookup(r, k) == None
    ensures forall j :: j != k ==> Lookup(r, j) == Lookup(a, j)
  {
    if a == [] then []
    else if a[0].0 == k then Remove(a[1..], k)
    else
      var r := [a[0]] + Remove(a[1..], k);
      assert r[1..] == Remove(a[1..], k);
      r
  }

  /**
    How much an unset removes: nothing when the key is absent, and exactly
    one entry when it is present in an array with distinct keys, which stay
    distinct.
   */
  lemma {:induction false} RemoveCount<V>(a: Entries<V>, k: Key)
    ensures !HasKey(a, k) ==> Remove(a, k) == a
    ensures DistinctKeys(a) && HasKey(a, k) ==> |Remove(a, k)| == |a| - 1
    ensures DistinctKeys(a) ==> DistinctKeys(Remove(a, k))
    decreases |a|
  {
    if a != [] {
      RemoveCount(a[1..], k);
      if DistinctKeys(a) {
        HeadNotInTail(a);
      }
      if a[0].0 != k {
        var rest := Remove(a[1..], k);
        assert Remove(a, k) == [a[0]] + rest;
        if !HasKey(a, k) {
          assert a == [a[0]] + a[1..];
        }
        if DistinctKeys(a) {
          assert Lookup(rest, a[0].0) == Lookup(a[1..], a[0].0);
          ConsDistinct(a[0], rest);
        }
      }
    }
  }

  /**
    Unsetting keeps the other entries in their order: with distinct keys,
    the result is the array with the one entry for `k` cut out.
   */
  lemma {:induction false} RemoveKeepsOrder<V>(a: Entries<V>, k: Key, i: nat)
    requires DistinctKeys(a) && i < |a| && a[i].0 == k
    ensures Remove(a, k) == a[..i] + a[i + 1..]
    decreases |a|
  {
    HeadNotInTail(a);
    if i == 0 {
      RemoveCount(a[1..], k);
    } else {
      assert a[0].0 != k;
      assert a[1..][i - 1] == a[i];
      RemoveKeepsOrder(a[1..], k, i - 1);
      assert Remove(a, k) == [a[0]] + Remove(a[1..], k);
      assert a[..i] == [a[0]] + a[1..][..i - 1];
      assert a[i + 1..] == a[1..][i..];
    }
  }
}
