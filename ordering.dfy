/**
 * The date ordering fetch_rss_feeds sorts by: usort with a comparator that
 * puts later timestamps first. PHP 8's sort is stable, so articles with the
 * same timestamp keep the order in which they were collected; the stable
 * insertion sort below is that order.
 */
module Ordering {
  import opened Php
  import opened Feed

  /** Non-increasing by date: every article is at least as recent as any later one. */
  predicate SortedByDateDesc(s: seq<Article>) {
    forall i, j :: 0 <= i < j < |s| ==> s[i].date >= s[j].date
  }

  /** The articles of `s` with timestamp `d`, in their order in `s`. */
  function WithDate(s: seq<Article>, d: int): (r: seq<Article>)
    ensures |r| <= |s|
    ensures forall k :: 0 <= k < |r| ==> r[k].date == d
  {
    if s == [] then []
    else (if s[0].date == d then [s[0]] else []) + WithDate(s[1..], d)
  }

  lemma {:induction false} WithDateAppend(a: seq<Article>, b: seq<Article>, d: int)
    ensures WithDate(a + b, d) == WithDate(a, d) + WithDate(b, d)
  {
    if a == [] {
      assert a + b == b;
    } else {
      assert (a + b)[0] == a[0];
      assert (a + b)[1..] == a[1..] + b;
      WithDateAppend(a[1..], b, d);
      var head := if a[0].date == d then [a[0]] else [];
      assert WithDate(a + b, d) == head + (WithDate(a[1..], d) + WithDate(b, d));
      assert head + (WithDate(a[1..], d) + WithDate(b, d)) == (head + WithDate(a[1..], d)) + WithDate(b, d);
    }
  }

  /** No article of `s` has timestamp `d`. */
  lemma {:induction false} WithDateNone(s: seq<Article>, d: int)
    requires forall k :: 0 <= k < |s| ==> s[k].date != d
    ensures WithDate(s, d) == []
  {
    if s != [] {
      WithDateNone(s[1..], d);
    }
  }

  /**
   * `x` placed into `s` after the leading articles at least as recent as it,
   * so, in a sorted `s`, before only the strictly older ones.
   */
  function Insert(x: Article, s: seq<Article>): (r: seq<Article>)
    ensures |r| == |s| + 1
  {
    if s == [] then [x]
    else if s[0].date >= x.date then [s[0]] + Insert(x, s[1..])
    else [x] + s
  }

  /** Inserting adds `x` and loses nothing. */
  lemma {:induction false} InsertPermutes(x: Article, s: seq<Article>)
    ensures multiset(Insert(x, s)) == multiset(s) + multiset{x}
  {
    if s != [] && s[0].date >= x.date {
      InsertPermutes(x, s[1..]);
      assert Insert(x, s) == [s[0]] + Insert(x, s[1..]);
      assert s == [s[0]] + s[1..];
      assert multiset(s) == multiset{s[0]} + multiset(s[1..]);
    }
  }

  /** An article at least as recent as every article of a sorted list can go in front of it. */
  lemma SortedCons(h: Article, rest: seq<Article>)
    requires SortedByDateDesc(rest)
    requires forall k :: 0 <= k < |rest| ==> rest[k].date <= h.date
    ensures SortedByDateDesc([h] + rest)
  {
    var r := [h] + rest;
    forall i, j | 0 <= i < j < |r| ensures r[i].date >= r[j].date {
      assert r[j] == rest[j - 1];
      if i > 0 {
        assert r[i] == rest[i - 1];
      }
    }
  }

  /** Inserting into a sorted list keeps it sorted. */
  lemma {:induction false} InsertSorted(x: Article, s: seq<Article>)
    requires SortedByDateDesc(s)
    ensures SortedByDateDesc(Insert(x, s))
  {
    if s == [] {
    } else if s[0].date < x.date {
      forall k | 0 <= k < |s| ensures s[k].date <= x.date {
        assert s[0].date >= s[k].date;
      }
      SortedCons(x, s);
    } else {
      var rest := Insert(x, s[1..]);
      InsertSorted(x, s[1..]);
      InsertPermutes(x, s[1..]);
      forall k | 0 <= k < |rest| ensures rest[k].date <= s[0].date {
        assert rest[k] in multiset(rest);
        assert rest[k] in multiset(s[1..]) || rest[k] == x;
      }
      SortedCons(s[0], rest);
    }
  }

  lemma WithDateSingle(y: Article, d: int)
    ensures WithDate([y], d) == if y.date == d then [y] else []
  {
    assert [y][1..] == [];
  }

  /** `x` placed in front of a sorted list whose first article is older than it. */
  lemma InsertBeforeOlder(x: Article, s: seq<Article>, d: int)
    requires SortedByDateDesc(s) && s != [] && s[0].date < x.date
    ensures WithDate(Insert(x, s), d) == WithDate(s, d) + (if x.date == d then [x] else [])
  {
    WithDateSingle(x, d);
    assert Insert(x, s) == [x] + s;
    WithDateAppend([x], s, d);
    if x.date == d {
      forall k | 0 <= k < |s| ensures s[k].date != d {
        assert s[0].date >= s[k].date;
      }
      WithDateNone(s, d);
      assert WithDate(Insert(x, s), d) == [x] + [];
    } else {
      assert WithDate(Insert(x, s), d) == [] + WithDate(s, d);
    }
  }

  /** `x` placed behind the first article of `s`, given where it goes in the rest. */
  lemma InsertBehindHead(x: Article, s: seq<Article>, d: int)
    requires s != [] && s[0].date >= x.date
    requires WithDate(Insert(x, s[1..]), d) == WithDate(s[1..], d) + (if x.date == d then [x] else [])
    ensures WithDate(Insert(x, s), d) == WithDate(s, d) + (if x.date == d then [x] else [])
  {
    var tail := if x.date == d then [x] else [];
    var rest := Insert(x, s[1..]);
    assert Insert(x, s) == [s[0]] + rest;
    WithDateAppend([s[0]], rest, d);
    WithDateAppend([s[0]], s[1..], d);
    assert [s[0]] + s[1..] == s;
    var head := WithDate([s[0]], d);
    assert WithDate(Insert(x, s), d) == head + (WithDate(s[1..], d) + tail);
    AppendAssociates(head, WithDate(s[1..], d), tail);
  }

  /** Inserting `x` adds it at the end of the articles with its own timestamp and leaves the others' order alone. */
  lemma {:induction false} InsertKeepsDateOrder(x: Article, s: seq<Article>, d: int)
    requires SortedByDateDesc(s)
    ensures WithDate(Insert(x, s), d) == WithDate(s, d) + (if x.date == d then [x] else [])
  {
    if s == [] {
      WithDateSingle(x, d);
      assert Insert(x, s) == [x];
    } else if s[0].date >= x.date {
      InsertKeepsDateOrder(x, s[1..], d);
      InsertBehindHead(x, s, d);
    } else {
      InsertBeforeOlder(x, s, d);
    }
  }

  /** The stable sort by date, latest first: each article inserted in turn into the sorted earlier ones. */
  function SortByDateDesc(s: seq<Article>): (r: seq<Article>)
    ensures SortedByDateDesc(r)
    ensures multiset(r) == multiset(s)
    ensures |r| == |s|
  {
    if s == [] then []
    else
      var init := s[..|s| - 1];
      assert s == init + [s[|s| - 1]];
      InsertSorted(s[|s| - 1], SortByDateDesc(init));
      InsertPermutes(s[|s| - 1], SortByDateDesc(init));
      Insert(s[|s| - 1], SortByDateDesc(init))
  }

  /**
   * The sort is stable: the articles with any one timestamp come out in the
   * order they went in.
   */
  lemma {:induction false} SortIsStable(s: seq<Article>, d: int)
    ensures WithDate(SortByDateDesc(s), d) == WithDate(s, d)
  {
    if s != [] {
      var init := s[..|s| - 1];
      var x := s[|s| - 1];
      assert s == init + [x];
      WithDateAppend(init, [x], d);
      var sortedInit := SortByDateDesc(init);
      SortIsStable(init, d);
      InsertKeepsDateOrder(x, sortedInit, d);
    }
  }

  /**
   * Cutting the sorted list after n entries keeps, for each timestamp, the
   * first of the input's articles with it, in their input order.
   */
  lemma SortedCutKeepsTiePrefix(s: seq<Article>, n: nat, d: int)
    requires n <= |s|
    ensures WithDate(SortByDateDesc(s)[..n], d) <= WithDate(s, d)
  {
    var sorted := SortByDateDesc(s);
    assert sorted == sorted[..n] + sorted[n..];
    WithDateAppend(sorted[..n], sorted[n..], d);
    SortIsStable(s, d);
  }

  /**
   * Cutting a sorted list after n entries keeps the latest ones: the two parts
   * together are the whole list, and nothing kept is older than anything cut.
   */
  lemma SortedCutKeepsLatest(s: seq<Article>, n: nat)
    requires SortedByDateDesc(s) && n <= |s|
    ensures multiset(s) == multiset(s[..n]) + multiset(s[n..])
    ensures forall a, b :: a in s[..n] && b in multiset(s[n..]) ==> a.date >= b.date
  {
    assert s == s[..n] + s[n..];
    forall a, b | a in s[..n] && b in multiset(s[n..]) ensures a.date >= b.date {
      var i :| 0 <= i < n && s[i] == a;
      var j :| n <= j < |s| && s[j] == b;
    }
  }

  /**
   * Three articles, two from one feed dated 1 and 3 and one from another
   * dated 2, come out dated 3, 2, 1.
   */
  lemma InterleavedFeeds(a1: Article, a3: Article, b2: Article)
    requires a1.date == 1 && a3.date == 3 && b2.date == 2
    ensures SortByDateDesc([a1, a3, b2]) == [a3, b2, a1]
  {
    assert [a1][..0] == [];
    assert SortByDateDesc([a1]) == [a1];
    assert [a1, a3][..1] == [a1];
    assert SortByDateDesc([a1, a3]) == Insert(a3, [a1]) == [a3, a1];
    assert [a1, a3, b2][..2] == [a1, a3];
    assert [a3, a1][1..] == [a1];
    assert Insert(b2, [a1]) == [b2, a1];
    assert Insert(b2, [a3, a1]) == [a3] + Insert(b2, [a1]);
  }
}
