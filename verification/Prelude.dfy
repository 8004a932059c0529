/** Result types and machine-integer ranges shared by every component of the model. */
module Prelude {

  datatype Option<+T> = None | Some(value: T)

  datatype Result<+T, +E> = Ok(value: T) | Err(error: E) {
    predicate IsFailure() {
      Err?
    }

    function PropagateFailure<U>(): Result<U, E>
      requires Err?
    {
      Err(error)
    }

    function Extract(): T
      requires Ok?
    {
      value
    }
  }

  const U32_MAX := 0xFFFF_FFFF
  const U64_MAX := 0xFFFF_FFFF_FFFF_FFFF

  type byte = x: int | 0 <= x < 0x100
  type u32 = x: int | 0 <= x <= U32_MAX
  type u64 = x: int | 0 <= x <= U64_MAX

  // A span of time in nanoseconds.
  type Duration = nat

  // A wall-clock instant, in nanoseconds since the Unix epoch (negative before it).
  type Instant = int

  const UNIX_EPOCH: Instant := 0

  /** The sequence without the element at index k. */
  function Without<T>(s: seq<T>, k: nat): (r: seq<T>)
    requires k < |s|
    ensures |r| == |s| - 1
    ensures multiset(s) == multiset(r) + multiset{s[k]}
  {
    assert s == s[..k] + [s[k]] + s[k + 1..];
    s[..k] + s[k + 1..]
  }

  lemma WithoutAt<T>(s: seq<T>, k: nat)
    requires k < |s|
    ensures multiset(Without(s, k)) == multiset(s) - multiset{s[k]}
    ensures forall i :: 0 <= i < |s| - 1 ==> Without(s, k)[i] == s[if i < k then i else i + 1]
  {
  }

  predicate DistinctBy<T, K(==)>(s: seq<T>, key: T -> K) {
    forall i, j :: 0 <= i < j < |s| ==> key(s[i]) != key(s[j])
  }

  lemma DistinctWithout<T, K>(s: seq<T>, k: nat, key: T -> K)
    requires k < |s| && DistinctBy(s, key)
    ensures DistinctBy(Without(s, k), key)
    ensures forall x <- Without(s, k) :: key(x) != key(s[k])
  {
    WithoutAt(s, k);
  }

  /** Where a reordering keeps the last element, and what is left on both sides without it. */
  lemma LastOfReordering<T>(a: seq<T>, b: seq<T>) returns (k: nat)
    requires multiset(a) == multiset(b) && a != []
    ensures k < |b| && b[k] == a[|a| - 1]
    ensures multiset(a[..|a| - 1]) == multiset(Without(b, k))
  {
    var last := |a| - 1;
    assert a == a[..last] + [a[last]];
    assert a[last] in multiset(b);
    k :| 0 <= k < |b| && b[k] == a[last];
    assert multiset(a[..last]) == multiset(a) - multiset{a[last]};
    WithoutAt(b, k);
  }

  lemma ReorderingOfNothing<T>(b: seq<T>)
    requires multiset(b) == multiset{}
    ensures b == []
  {
    assert |b| == |multiset(b)|;
  }

  /** Whether keys repeat in a sequence does not depend on its order. */
  lemma {:induction false} DistinctIgnoresOrder<T, K>(a: seq<T>, b: seq<T>, key: T -> K)
    requires multiset(a) == multiset(b) && DistinctBy(a, key)
    ensures DistinctBy(b, key)
    decreases |b|
  {
    if b != [] {
      var last := |b| - 1;
      var k := LastOfReordering(b, a);
      DistinctWithout(a, k, key);
      DistinctIgnoresOrder(Without(a, k), b[..last], key);
      forall i | 0 <= i < last ensures key(b[i]) != key(b[last]) {
        assert b[..last][i] in multiset(Without(a, k));
      }
    }
  }

  function Keys<T(==), K(==,!new)>(s: seq<T>, key: T -> K): (r: set<K>)
    ensures forall k :: k in r <==> exists x <- s :: key(x) == k
  {
    set x <- s :: key(x)
  }

  lemma KeysOfLast<T, K(!new)>(s: seq<T>, key: T -> K)
    requires s != []
    ensures Keys(s, key) == Keys(s[..|s| - 1], key) + {key(s[|s| - 1])}
  {
    assert s == s[..|s| - 1] + [s[|s| - 1]];
  }

  lemma DistinctLast<T, K(!new)>(s: seq<T>, key: T -> K)
    requires s != []
    ensures DistinctBy(s, key) <==>
              DistinctBy(s[..|s| - 1], key) && key(s[|s| - 1]) !in Keys(s[..|s| - 1], key)
  {
    var last := |s| - 1;
    if DistinctBy(s, key) {
      forall x <- s[..last] ensures key(x) != key(s[last]) {
        var i :| 0 <= i < last && s[..last][i] == x;
        assert key(s[i]) != key(s[last]);
      }
    }
    if DistinctBy(s[..last], key) && key(s[last]) !in Keys(s[..last], key) {
      forall i | 0 <= i < last ensures key(s[i]) != key(s[last]) {
        assert s[..last][i] in s[..last];
      }
    }
  }

  /** The keys of a sequence are as many as its elements exactly when none repeats. */
  lemma {:induction false} KeyCount<T, K(!new)>(s: seq<T>, key: T -> K)
    ensures |Keys(s, key)| <= |s|
    ensures |Keys(s, key)| == |s| <==> DistinctBy(s, key)
  {
    if s != [] {
      KeyCount(s[..|s| - 1], key);
      KeysOfLast(s, key);
      DistinctLast(s, key);
    }
  }
}
