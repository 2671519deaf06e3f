/** Sequence helpers shared by the models: filtering, mapping, concatenating. */
module Seqs {

  lemma Associate<T>(a: seq<T>, b: seq<T>, c: seq<T>)
    ensures a + (b + c) == (a + b) + c
  {
  }

  function Filter<T>(keep: T -> bool, s: seq<T>): seq<T> {
    if s == [] then [] else (if keep(s[0]) then [s[0]] else []) + Filter(keep, s[1..])
  }

  lemma {:induction false} FilterAppend<T>(keep: T -> bool, a: seq<T>, b: seq<T>)
    ensures Filter(keep, a + b) == Filter(keep, a) + Filter(keep, b)
  {
    if a == [] {
      assert a + b == b;
    } else {
      FilterAppend(keep, a[1..], b);
      assert (a + b)[1..] == a[1..] + b;
      Associate(if keep(a[0]) then [a[0]] else [], Filter(keep, a[1..]), Filter(keep, b));
    }
  }

  lemma {:induction false} FilterMembers<T>(keep: T -> bool, s: seq<T>)
    ensures forall x :: x in Filter(keep, s) <==> x in s && keep(x)
  {
    if s != [] {
      FilterMembers(keep, s[1..]);
      assert s == [s[0]] + s[1..];
    }
  }

  lemma {:induction false} FilterAll<T>(keep: T -> bool, s: seq<T>)
    requires forall x :: x in s ==> keep(x)
    ensures Filter(keep, s) == s
  {
    if s != [] {
      FilterAll(keep, s[1..]);
    }
  }

  lemma {:induction false} FilterNone<T>(keep: T -> bool, s: seq<T>)
    requires forall x :: x in s ==> !keep(x)
    ensures Filter(keep, s) == []
  {
    if s != [] {
      FilterNone(keep, s[1..]);
    }
  }

  /** Two tests that agree on every element of `s` keep the same elements of it. */
  lemma {:induction false} FilterAgree<T>(keep: T -> bool, keep': T -> bool, s: seq<T>)
    requires forall x :: x in s ==> keep(x) == keep'(x)
    ensures Filter(keep, s) == Filter(keep', s)
  {
    if s != [] {
      FilterAgree(keep, keep', s[1..]);
    }
  }

  /** Filtering by a weaker test first changes nothing. */
  lemma {:induction false} FilterWithin<T>(keep: T -> bool, wider: T -> bool, s: seq<T>)
    requires forall x :: x in s && keep(x) ==> wider(x)
    ensures Filter(keep, Filter(wider, s)) == Filter(keep, s)
  {
    if s != [] {
      FilterWithin(keep, wider, s[1..]);
      FilterAppend(keep, if wider(s[0]) then [s[0]] else [], Filter(wider, s[1..]));
    }
  }

  /** Filtering picks, in order, exactly the positions that pass the test. */
  lemma {:induction false} FilterPlaces<T>(keep: T -> bool, s: seq<T>) returns (at: seq<nat>)
    ensures |at| == |Filter(keep, s)|
    ensures forall k :: 0 <= k < |at| ==> at[k] < |s| && keep(s[at[k]]) && Filter(keep, s)[k] == s[at[k]]
    ensures forall j, k :: 0 <= j < k < |at| ==> at[j] < at[k]
    ensures forall i: nat :: i < |s| && keep(s[i]) ==> i in at
  {
    if s == [] {
      at := [];
    } else {
      var n := |s| - 1;
      var before := FilterPlaces(keep, s[..n]);
      FilterAppend(keep, s[..n], [s[n]]);
      assert s == s[..n] + [s[n]];
      at := before + if keep(s[n]) then [n] else [];
      forall i: nat | i < |s| && keep(s[i]) ensures i in at {
        assert i < n ==> s[..n][i] == s[i];
      }
    }
  }

  function Map<T, U>(f: T -> U, s: seq<T>): (r: seq<U>)
    ensures |r| == |s|
    ensures forall i :: 0 <= i < |s| ==> r[i] == f(s[i])
  {
    if s == [] then [] else [f(s[0])] + Map(f, s[1..])
  }

  lemma MapAppend<T, U>(f: T -> U, a: seq<T>, b: seq<T>)
    ensures Map(f, a + b) == Map(f, a) + Map(f, b)
  {
  }

  /** Adding to the later of two maps is adding to both. */
  lemma PutLast<K, V>(one: map<K, V>, other: map<K, V>, key: K, value: V)
    ensures (one + other)[key := value] == one + other[key := value]
  {
  }
}
