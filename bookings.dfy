/** Rows of the `bookings` table and the queries the handlers run on it:
    the e-mail match of `.ilike('email', email)` (as PostgreSQL evaluates it,
    and as the handlers evidently intend it: case-insensitive equality),
    lookup and update and delete by id, and ordering by `created_at`
    descending. */
module Bookings {
  import opened Wrappers
  import opened Json
  import opened Text
  import opened Seqs

  /** A booking row: its primary key, its creation time in milliseconds and
      every other column by name. */
  datatype Booking = Booking(id: string, createdAt: int, columns: map<string, Json>)

  /** The `email` column, when it holds a string. */
  function OwnerEmail(b: Booking): Option<string>
  {
    if "email" in b.columns && b.columns["email"].JStr? then Some(b.columns["email"].s) else None
  }

  /** PostgreSQL `LIKE` on a pattern as PostgREST forwards it: `%` (and its
      URL-safe alias `*`) matches any run of characters, `_` any one
      character, a backslash makes the next character literal; anything else
      matches itself. */
  predicate Like(s: string, p: string)
    decreases |s| + |p|
  {
    if p == [] then s == []
    else if p[0] == '%' || p[0] == '*' then Like(s, p[1..]) || (s != [] && Like(s[1..], p))
    else if p[0] == '\\' && |p| >= 2 then s != [] && s[0] == p[1] && Like(s[1..], p[2..])
    else if p[0] == '_' then s != [] && Like(s[1..], p[1..])
    else s != [] && s[0] == p[0] && Like(s[1..], p[1..])
  }

  predicate IsLikeSpecial(c: char)
  {
    c == '%' || c == '*' || c == '_' || c == '\\'
  }

  /** On a pattern without special characters `LIKE` is plain equality. */
  lemma {:induction false} LikeLiteral(s: string, p: string)
    requires forall i :: 0 <= i < |p| ==> !IsLikeSpecial(p[i])
    ensures Like(s, p) <==> s == p
    decreases |p|
  {
    if p != [] && s != [] {
      LikeLiteral(s[1..], p[1..]);
      if s[0] == p[0] {
        assert s == [s[0]] + s[1..] && p == [p[0]] + p[1..];
      }
    }
  }

  /** A leading `%` lets any prefix through. */
  lemma {:induction false} LikeSkip(u: string, v: string, p: string)
    requires Like(v, p)
    ensures Like(u + v, ['%'] + p)
    decreases |u|
  {
    var pat := ['%'] + p;
    assert pat[0] == '%' && pat[1..] == p;
    if u == [] {
      assert u + v == v;
    } else {
      LikeSkip(u[1..], v, p);
      assert (u + v)[1..] == u[1..] + v;
    }
  }

  /** A literal character matches itself. */
  lemma LikeLiteralStep(c: char, v: string, p: string)
    requires !IsLikeSpecial(c) && Like(v, p)
    ensures Like([c] + v, [c] + p)
  {
    assert ([c] + v)[1..] == v && ([c] + p)[1..] == p;
  }

  /** `.ilike('email', pattern)` as written: `LIKE` after folding case. */
  predicate EmailLike(b: Booking, pattern: string)
  {
    OwnerEmail(b).Some? && Like(ToLower(OwnerEmail(b).value), ToLower(pattern))
  }

  /** The rows `.ilike('email', pattern)` returns, in table order. */
  function WithEmailLike(table: seq<Booking>, pattern: string): (r: seq<Booking>)
    ensures forall b :: b in r <==> b in table && EmailLike(b, pattern)
  {
    Filter(table, LikeMatching(pattern))
  }

  function LikeMatching(pattern: string): Booking -> bool
  {
    (b: Booking) => EmailLike(b, pattern)
  }

  /** The evident intent of `.ilike('email', email)`: the owner's address
      equals `email` up to case. */
  predicate EmailMatches(b: Booking, email: string)
  {
    OwnerEmail(b).Some? && ToLower(OwnerEmail(b).value) == ToLower(email)
  }

  /** The rows of the address, in table order. */
  function WithEmail(table: seq<Booking>, email: string): (r: seq<Booking>)
    ensures forall b :: b in r <==> b in table && EmailMatches(b, email)
  {
    Filter(table, Matching(email))
  }

  function Matching(email: string): Booking -> bool
  {
    (b: Booking) => EmailMatches(b, email)
  }

  predicate DistinctIds(a: Booking, b: Booking)
  {
    a.id != b.id
  }

  /** The primary-key constraint of the table. */
  ghost predicate UniqueIds(table: seq<Booking>)
  {
    Pairwise(table, DistinctIds)
  }

  /** Appending a row whose id is not yet taken keeps the ids unique. */
  lemma AppendFreshKeepsUniqueIds(table: seq<Booking>, b: Booking)
    requires UniqueIds(table) && IndexOfId(table, b.id).None?
    ensures UniqueIds(table + [b])
  {
    var extended := table + [b];
    forall j, k | 0 <= j < k < |extended| ensures DistinctIds(extended[j], extended[k]) {
      if k < |table| { assert DistinctIds(table[j], table[k]); }
    }
  }

  /** The position of the first row with this id. */
  function IndexOfId(table: seq<Booking>, id: string): (r: Option<nat>)
    ensures r.None? <==> forall j :: 0 <= j < |table| ==> table[j].id != id
    ensures r.Some? ==>
      && r.value < |table| && table[r.value].id == id
      && forall j :: 0 <= j < r.value ==> table[j].id != id
  {
    if table == [] then None
    else if table[0].id == id then Some(0)
    else match IndexOfId(table[1..], id)
      case None => None
      case Some(k) => Some(k + 1)
  }

  /** Under the primary key, looking up a row's id finds that row. */
  lemma IndexOfUniqueId(table: seq<Booking>, i: nat)
    requires UniqueIds(table) && i < |table|
    ensures IndexOfId(table, table[i].id) == Some(i)
  {
    forall j | 0 <= j < i ensures table[j].id != table[i].id {
      assert DistinctIds(table[j], table[i]);
    }
  }

  /** `.delete().eq('id', id)`. */
  function WithoutId(table: seq<Booking>, id: string): seq<Booking>
  {
    Filter(table, OtherId(id))
  }

  function OtherId(id: string): Booking -> bool
  {
    (b: Booking) => b.id != id
  }

  /** Columns an update merges into a row: every key except the two the
      model keeps fixed, the primary key and the creation time. */
  function Merge(b: Booking, updates: map<string, Json>): (r: Booking)
    ensures r.id == b.id && r.createdAt == b.createdAt
  {
    b.(columns := b.columns + (updates - {"id", "created_at"}))
  }

  /** `.update(updates).eq('id', id)`. */
  function UpdateId(table: seq<Booking>, id: string, updates: map<string, Json>): (r: seq<Booking>)
    ensures |r| == |table|
    ensures forall j :: 0 <= j < |table| ==>
      r[j] == if table[j].id == id then Merge(table[j], updates) else table[j]
  {
    seq(|table|, j requires 0 <= j < |table| =>
      if table[j].id == id then Merge(table[j], updates) else table[j])
  }

  /** Under the primary key, deleting by id removes exactly the row found. */
  lemma DeleteRemovesRow(table: seq<Booking>, id: string, i: nat)
    requires UniqueIds(table)
    requires IndexOfId(table, id) == Some(i)
    ensures WithoutId(table, id) == table[..i] + table[i + 1..]
  {
    forall j | 0 <= j < |table| && j != i ensures table[j].id != id {
      if j < i { assert DistinctIds(table[j], table[i]); }
      else { assert DistinctIds(table[i], table[j]); }
    }
    FilterRemovesOne(table, OtherId(id), i);
  }

  /** Under the primary key, updating by id changes exactly the row found. */
  lemma UpdateChangesRow(table: seq<Booking>, id: string, updates: map<string, Json>, i: nat)
    requires UniqueIds(table)
    requires IndexOfId(table, id) == Some(i)
    ensures UpdateId(table, id, updates) == table[i := Merge(table[i], updates)]
  {
    forall j | 0 <= j < |table| && j != i ensures table[j].id != id {
      if j < i { assert DistinctIds(table[j], table[i]); }
      else { assert DistinctIds(table[i], table[j]); }
    }
  }

  /** An update never touches a primary key. */
  lemma UpdateKeepsUniqueIds(table: seq<Booking>, id: string, updates: map<string, Json>)
    requires UniqueIds(table)
    ensures UniqueIds(UpdateId(table, id, updates))
  {
    var r := UpdateId(table, id, updates);
    forall j, k | 0 <= j < k < |r| ensures DistinctIds(r[j], r[k]) {
      assert DistinctIds(table[j], table[k]);
    }
  }

  /** Rows ordered by `created_at`, newest first. */
  ghost predicate NewestFirst(s: seq<Booking>)
  {
    forall i, j :: 0 <= i < j < |s| ==> s[i].createdAt >= s[j].createdAt
  }

  /** Inserts `b` before the first row that is not newer than it. */
  function InsertNewestFirst(b: Booking, s: seq<Booking>): (r: seq<Booking>)
    ensures multiset(r) == multiset(s) + multiset{b}
  {
    if s == [] then [b]
    else if b.createdAt >= s[0].createdAt then [b] + s
    else
      assert s == [s[0]] + s[1..];
      [s[0]] + InsertNewestFirst(b, s[1..])
  }

  lemma {:induction false} InsertKeepsOrder(b: Booking, s: seq<Booking>)
    requires NewestFirst(s)
    ensures NewestFirst(InsertNewestFirst(b, s))
  {
    if s != [] && b.createdAt < s[0].createdAt {
      var tail := s[1..];
      assert NewestFirst(tail) by {
        forall i, j | 0 <= i < j < |tail| ensures tail[i].createdAt >= tail[j].createdAt {
          assert tail[i] == s[i + 1] && tail[j] == s[j + 1];
        }
      }
      InsertKeepsOrder(b, tail);
      var rest := InsertNewestFirst(b, tail);
      var r := [s[0]] + rest;
      assert NoNewerThan(tail, s[0].createdAt) by {
        forall m | 0 <= m < |tail| ensures tail[m].createdAt <= s[0].createdAt {
          assert tail[m] == s[m + 1];
        }
      }
      InsertKeepsBound(b, tail, s[0].createdAt);
      forall i, j | 0 <= i < j < |r| ensures r[i].createdAt >= r[j].createdAt {
        if i == 0 { assert r[j] == rest[j - 1]; }
        else { assert r[i] == rest[i - 1] && r[j] == rest[j - 1]; }
      }
    }
  }

  /** No row was created after `t`. */
  predicate NoNewerThan(s: seq<Booking>, t: int)
  {
    forall k :: 0 <= k < |s| ==> s[k].createdAt <= t
  }

  lemma {:induction false} InsertKeepsBound(b: Booking, s: seq<Booking>, t: int)
    requires NoNewerThan(s, t) && b.createdAt <= t
    ensures NoNewerThan(InsertNewestFirst(b, s), t)
  {
    if s != [] && b.createdAt < s[0].createdAt {
      var tail := s[1..];
      assert NoNewerThan(tail, t) by {
        forall m | 0 <= m < |tail| ensures tail[m].createdAt <= t {
          assert tail[m] == s[m + 1];
        }
      }
      InsertKeepsBound(b, tail, t);
      var r := InsertNewestFirst(b, s);
      forall k | 0 <= k < |r| ensures r[k].createdAt <= t {
        if k > 0 { assert r[k] == InsertNewestFirst(b, tail)[k - 1]; }
      }
    }
  }

  /** `.order('created_at', { ascending: false })`: a stable sort. */
  function SortNewestFirst(s: seq<Booking>): (r: seq<Booking>)
    ensures multiset(r) == multiset(s)
  {
    if s == [] then []
    else
      assert s == [s[0]] + s[1..];
      InsertNewestFirst(s[0], SortNewestFirst(s[1..]))
  }

  /** The sort puts the newest row first. */
  lemma {:induction false} SortIsNewestFirst(s: seq<Booking>)
    ensures NewestFirst(SortNewestFirst(s))
  {
    if s != [] {
      SortIsNewestFirst(s[1..]);
      InsertKeepsOrder(s[0], SortNewestFirst(s[1..]));
    }
  }
}
