/** Sequence helpers used to model the in-memory tables: filtering (a delete
    or a select with a condition) and pairwise properties of rows. */
module Seqs {

  /** The elements of `s` that satisfy `keep`, in their original order. */
  function Filter<T(!new)>(s: seq<T>, keep: T -> bool): (r: seq<T>)
    ensures |r| <= |s|
    ensures forall x :: x in r <==> x in s && keep(x)
  {
    if s == [] then []
    else
      var rest := Filter(s[1..], keep);
      assert s == [s[0]] + s[1..];
      if keep(s[0]) then [s[0]] + rest else rest
  }

  /** Filtering keeps every kept element as often as it occurs and drops the
      others entirely. */
  lemma {:induction false} FilterCount<T(!new)>(s: seq<T>, keep: T -> bool)
    ensures forall x :: multiset(Filter(s, keep))[x] == if keep(x) then multiset(s)[x] else 0
  {
    if s != [] {
      FilterCount(s[1..], keep);
      var rest := Filter(s[1..], keep);
      assert s == [s[0]] + s[1..];
      assert multiset(s) == multiset{s[0]} + multiset(s[1..]);
      if keep(s[0]) {
        assert multiset([s[0]] + rest) == multiset{s[0]} + multiset(rest);
      }
    }
  }

  /** `ok` holds of every pair of elements taken in order. */
  ghost predicate Pairwise<T>(s: seq<T>, ok: (T, T) -> bool)
  {
    forall i, j :: 0 <= i < j < |s| ==> ok(s[i], s[j])
  }

  /** Dropping elements never breaks a pairwise property. */
  lemma {:induction false} FilterPairwise<T(!new)>(s: seq<T>, keep: T -> bool, ok: (T, T) -> bool)
    requires Pairwise(s, ok)
    ensures Pairwise(Filter(s, keep), ok)
  {
    if s != [] {
      assert Pairwise(s[1..], ok) by {
        forall i, j | 0 <= i < j < |s| - 1 ensures ok(s[1..][i], s[1..][j]) {
          assert s[1..][i] == s[i + 1] && s[1..][j] == s[j + 1];
        }
      }
      FilterPairwise(s[1..], keep, ok);
      var rest := Filter(s[1..], keep);
      if keep(s[0]) {
        var r := [s[0]] + rest;
        forall i, j | 0 <= i < j < |r| ensures ok(r[i], r[j]) {
          if i == 0 {
            assert r[j] == rest[j - 1] && r[j] in s[1..];
            var k :| 0 <= k < |s[1..]| && s[1..][k] == r[j];
            assert s[k + 1] == r[j];
          } else {
            assert r[i] == rest[i - 1] && r[j] == rest[j - 1];
          }
        }
      }
    }
  }

  /** When keys are pairwise distinct and exactly the element at `i` is
      rejected, filtering removes exactly that element. */
  lemma {:induction false} FilterRemovesOne<T(!new)>(s: seq<T>, keep: T -> bool, i: nat)
    requires i < |s| && !keep(s[i])
    requires forall j :: 0 <= j < |s| && j != i ==> keep(s[j])
    ensures Filter(s, keep) == s[..i] + s[i + 1..]
  {
    var tail := s[1..];
    if i == 0 {
      assert forall j :: 0 <= j < |tail| ==> keep(tail[j]) by {
        forall j | 0 <= j < |tail| ensures keep(tail[j]) { assert tail[j] == s[j + 1]; }
      }
      FilterKeepsAll(tail, keep);
    } else {
      assert forall j :: 0 <= j < |tail| && j != i - 1 ==> keep(tail[j]) by {
        forall j | 0 <= j < |tail| && j != i - 1 ensures keep(tail[j]) { assert tail[j] == s[j + 1]; }
      }
      FilterRemovesOne(tail, keep, i - 1);
      assert Filter(s, keep) == [s[0]] + (tail[..i - 1] + tail[i..]);
      assert [s[0]] + tail[..i - 1] == s[..i] && tail[i..] == s[i + 1..];
    }
  }

  /** Filtering with a condition every element meets changes nothing. */
  lemma {:induction false} FilterKeepsAll<T(!new)>(s: seq<T>, keep: T -> bool)
    requires forall j :: 0 <= j < |s| ==> keep(s[j])
    ensures Filter(s, keep) == s
  {
    if s != [] {
      var tail := s[1..];
      assert forall j :: 0 <= j < |tail| ==> tail[j] == s[j + 1];
      FilterKeepsAll(tail, keep);
      assert s == [s[0]] + tail;
    }
  }

  /** Filtering with a condition no element meets leaves nothing. */
  lemma {:induction false} FilterKeepsNone<T(!new)>(s: seq<T>, keep: T -> bool)
    requires forall x :: x in s ==> !keep(x)
    ensures Filter(s, keep) == []
  {
    if s != [] {
      assert s == [s[0]] + s[1..];
      FilterKeepsNone(s[1..], keep);
    }
  }

  /** Two conditions that agree on every element filter alike. */
  lemma {:induction false} FilterAgree<T(!new)>(s: seq<T>, keep: T -> bool, keep': T -> bool)
    requires forall x :: x in s ==> keep(x) == keep'(x)
    ensures Filter(s, keep) == Filter(s, keep')
  {
    if s != [] {
      assert s == [s[0]] + s[1..];
      FilterAgree(s[1..], keep, keep');
    }
  }

  function Append<T>(s: seq<T>, x: T): seq<T>
  {
    s + [x]
  }

  /** Appending an element that every element agrees with keeps a
      pairwise property. */
  lemma {:induction false} AppendKeepsPairwise<T>(s: seq<T>, x: T, ok: (T, T) -> bool)
    requires Pairwise(s, ok)
    requires forall y :: y in s ==> ok(y, x)
    ensures Pairwise(Append(s, x), ok)
  {
    var r := Append(s, x);
    forall i, j | 0 <= i < j < |r| ensures ok(r[i], r[j]) {
      assert r[i] == s[i];
      assert r[i] in s;
      if j < |s| {
        assert r[j] == s[j];
      } else {
        assert r[j] == x;
      }
    }
  }
}
