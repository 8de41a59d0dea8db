/**
 The contract of Go's `sort.Slice`, which the service calls on slices of sector
 numbers, of (sector, pledge) pairs and of messages.  The library sort is not
 stable, so callers may rely on nothing but these two postconditions: the slice
 is ascending in the key, and it holds the elements it held before.
 */
module Sorting {

  ghost predicate Ascending<T>(s: seq<T>, key: T -> int) {
    forall i, j :: 0 <= i < j < |s| ==> key(s[i]) <= key(s[j])
  }

  method LeastFrom<T>(a: array<T>, key: T -> int, n: nat) returns (least: nat)
    requires n < a.Length
    ensures n <= least < a.Length
    ensures forall k :: n <= k < a.Length ==> key(a[least]) <= key(a[k])
  {
    least := n;
    for j := n + 1 to a.Length
      invariant n <= least < a.Length
      invariant forall k :: n <= k < j ==> key(a[least]) <= key(a[k])
    {
      if key(a[j]) < key(a[least]) {
        least := j;
      }
    }
  }

  method SortSlice<T>(a: array<T>, key: T -> int)
    modifies a
    ensures Ascending(a[..], key)
    ensures multiset(a[..]) == multiset(old(a[..]))
  {
    for n := 0 to a.Length
      invariant Ascending(a[..n], key)
      invariant forall i, j :: 0 <= i < n <= j < a.Length ==> key(a[i]) <= key(a[j])
      invariant multiset(a[..]) == multiset(old(a[..]))
    {
      var least := LeastFrom(a, key, n);
      a[n], a[least] := a[least], a[n];
    }
    assert a[..a.Length] == a[..];
  }
}
