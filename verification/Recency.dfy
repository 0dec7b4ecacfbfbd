/** Stable sorting by falling activity, and the rank it gives every entry. */
module Recency {

  /** A value with its last activity; `order` is its place in the listing it came from. */
  datatype Timed<T> = Timed(value: T, activity: int, order: nat)

  lemma PrefixGrows<T>(s: seq<T>, i: nat)
    requires i < |s|
    ensures s[..i + 1] == s[..i] + [s[i]]
  {
  }

  ghost predicate DistinctPlaces<T>(items: seq<Timed<T>>) {
    forall i, j :: 0 <= i < j < |items| ==> items[i].order != items[j].order
  }

  /** `a` comes before `b` in a stable sort by falling activity. */
  predicate Ahead<T>(a: Timed<T>, b: Timed<T>) {
    a.activity > b.activity || (a.activity == b.activity && a.order < b.order)
  }

  /** The rank of `x`: how many items are ahead of it. */
  function Rank<T>(items: seq<Timed<T>>, x: Timed<T>): nat {
    if items == [] then 0 else (if Ahead(items[0], x) then 1 else 0) + Rank(items[1..], x)
  }

  function Insert<T>(x: Timed<T>, s: seq<Timed<T>>): seq<Timed<T>> {
    if s == [] || Ahead(x, s[0]) then [x] + s else [s[0]] + Insert(x, s[1..])
  }

  /** `sort_by(|a, b| b.0.cmp(&a.0))`. */
  function NewestFirst<T>(items: seq<Timed<T>>): seq<Timed<T>> {
    if items == [] then [] else Insert(items[0], NewestFirst(items[1..]))
  }

  ghost predicate Descending<T>(s: seq<Timed<T>>) {
    forall i, j :: 0 <= i < j < |s| ==> Ahead(s[i], s[j])
  }

  lemma {:induction false} InsertFacts<T>(x: Timed<T>, s: seq<Timed<T>>, y: Timed<T>)
    ensures |Insert(x, s)| == |s| + 1 && multiset(Insert(x, s)) == multiset(s) + multiset{x}
    ensures y in Insert(x, s) <==> y == x || y in s
    ensures Rank(Insert(x, s), y) == (if Ahead(x, y) then 1 else 0) + Rank(s, y)
  {
    var r := Insert(x, s);
    if s == [] || Ahead(x, s[0]) {
      assert r[1..] == s;
    } else {
      InsertFacts(x, s[1..], y);
      assert r[1..] == Insert(x, s[1..]);
      assert s == [s[0]] + s[1..];
    }
  }

  lemma {:induction false} InsertDescending<T>(x: Timed<T>, s: seq<Timed<T>>)
    requires Descending(s) && forall y :: y in s ==> y.order != x.order
    ensures Descending(Insert(x, s))
  {
    if s != [] && !Ahead(x, s[0]) {
      assert forall y :: y in s[1..] ==> y in s;
      InsertDescending(x, s[1..]);
      var t := Insert(x, s[1..]);
      forall j | 0 <= j < |t| ensures Ahead(s[0], t[j]) {
        InsertFacts(x, s[1..], t[j]);
        assert s[0] in s;
        if t[j] in s[1..] { var i :| 0 <= i < |s[1..]| && s[1..][i] == t[j]; }
      }
    }
  }

  /** Sorting is a permutation that keeps every rank, and puts each item at its rank. */
  lemma {:induction false} SortFacts<T>(items: seq<Timed<T>>, y: Timed<T>)
    ensures |NewestFirst(items)| == |items| && multiset(NewestFirst(items)) == multiset(items)
    ensures y in NewestFirst(items) <==> y in items
    ensures Rank(NewestFirst(items), y) == Rank(items, y)
  {
    if items != [] {
      SortFacts(items[1..], y);
      InsertFacts(items[0], NewestFirst(items[1..]), y);
      assert items == [items[0]] + items[1..];
    }
  }

  lemma {:induction false} SortDescending<T>(items: seq<Timed<T>>)
    requires DistinctPlaces(items)
    ensures Descending(NewestFirst(items))
  {
    if items != [] {
      SortDescending(items[1..]);
      forall y | y in NewestFirst(items[1..]) ensures y.order != items[0].order {
        SortFacts(items[1..], y);
        var i :| 0 <= i < |items[1..]| && items[1..][i] == y;
        assert items[i + 1] == y;
      }
      InsertDescending(items[0], NewestFirst(items[1..]));
    }
  }

  /** Later activity comes first, and of equal activity whatever was listed first. */
  lemma SortIsStable<T>(items: seq<Timed<T>>, i: nat, j: nat)
    requires DistinctPlaces(items) && i < j < |NewestFirst(items)|
    ensures var s := NewestFirst(items);
            s[i].activity > s[j].activity || (s[i].activity == s[j].activity && s[i].order < s[j].order)
  {
    SortDescending(items);
  }

  lemma {:induction false} RankIsPosition<T>(s: seq<Timed<T>>, p: nat)
    requires Descending(s) && p < |s|
    ensures Rank(s, s[p]) == p
    decreases |s|
  {
    if p == 0 {
      NobodyAhead(s[1..], s[0]);
    } else {
      RankIsPosition(s[1..], p - 1);
      assert s[1..][p - 1] == s[p];
    }
  }

  lemma {:induction false} NobodyAhead<T>(s: seq<Timed<T>>, x: Timed<T>)
    requires forall i :: 0 <= i < |s| ==> Ahead(x, s[i])
    ensures Rank(s, x) == 0
  {
    if s != [] { NobodyAhead(s[1..], x); }
  }

  /** Whoever is ahead of `x` is ahead of everything `x` is ahead of. */
  lemma {:induction false} RankMonotone<T>(items: seq<Timed<T>>, x: Timed<T>, y: Timed<T>)
    requires Ahead(x, y)
    ensures Rank(items, x) <= Rank(items, y)
  {
    if items != [] { RankMonotone(items[1..], x, y); }
  }

  /** The cap is used up: exactly the first `cap` ranks are taken. */
  lemma RanksAreTaken<T>(items: seq<Timed<T>>, r: nat) returns (x: Timed<T>)
    requires DistinctPlaces(items) && r < |items|
    ensures x in items && Rank(items, x) == r
    ensures forall y :: y in items && Rank(items, y) == r ==> y == x
  {
    SortDescending(items);
    var s := NewestFirst(items);
    SortFacts(items, items[0]);
    x := s[r];
    SortFacts(items, x);
    RankIsPosition(s, r);
    forall y | y in items && Rank(items, y) == r ensures y == x {
      SortFacts(items, y);
      var p :| 0 <= p < |s| && s[p] == y;
      RankIsPosition(s, p);
    }
  }

  lemma {:induction false} RankAtMost<T>(items: seq<Timed<T>>, x: Timed<T>)
    ensures Rank(items, x) <= |items|
  {
    if items != [] { RankAtMost(items[1..], x); }
  }

  lemma {:induction false} RankBelowLength<T>(items: seq<Timed<T>>, x: Timed<T>)
    requires x in items
    ensures Rank(items, x) < |items|
  {
    if items[0] == x {
      RankAtMost(items[1..], x);
    } else {
      assert items == [items[0]] + items[1..];
      RankBelowLength(items[1..], x);
    }
  }

  lemma {:induction false} RankWithout<T>(items: seq<Timed<T>>, j: nat, x: Timed<T>)
    requires j < |items|
    ensures Rank(items, x) == (if Ahead(items[j], x) then 1 else 0) + Rank(items[..j] + items[j + 1..], x)
    decreases j
  {
    var rest := items[..j] + items[j + 1..];
    if j == 0 {
      assert rest == items[1..];
    } else {
      RankWithout(items[1..], j - 1, x);
      assert items[1..][..j - 1] + items[1..][j..] == rest[1..];
    }
  }

  /** Fewer items, lower ranks. */
  lemma {:induction false} RankSubset<T>(fewer: seq<Timed<T>>, items: seq<Timed<T>>, x: Timed<T>)
    requires DistinctPlaces(fewer) && forall y :: y in fewer ==> y in items
    ensures Rank(fewer, x) <= Rank(items, x)
    decreases |fewer|
  {
    if fewer != [] {
      var h := fewer[0];
      assert h in items;
      var j :| 0 <= j < |items| && items[j] == h;
      var rest := items[..j] + items[j + 1..];
      forall y | y in fewer[1..] ensures y in rest {
        var i :| 0 <= i < |fewer[1..]| && fewer[1..][i] == y;
        assert fewer[i + 1] == y && y != h && y in items;
        var k :| 0 <= k < |items| && items[k] == y;
        if k < j { assert rest[k] == y; } else { assert rest[k - 1] == y; }
      }
      RankSubset(fewer[1..], rest, x);
      RankWithout(items, j, x);
    }
  }
}
