/** The order of a day's movies in scrape.py: `sorted(movies, key=wantToSee,
    reverse=True)`. Python's sort is stable, also with `reverse=True`: the
    result is non-increasing in `wantToSee` and movies with the same count
    keep their order. The sort is given here as an insertion sort, and the
    lemmas show that it is the only order with those two properties, so
    any stable sort gives the same sequence. */
module Ranking {
  import opened Grouping

  /** Places `x`, which comes before every element of `l` in the input,
      before the first element whose count is not above its own. */
  function Insert(x: MovieDoc, l: seq<MovieDoc>): (r: seq<MovieDoc>)
    ensures |r| == |l| + 1
    ensures multiset(r) == multiset(l) + multiset{x}
  {
    if l == [] || l[0].wantToSee <= x.wantToSee then [x] + l
    else
      assert l == [l[0]] + l[1..];
      [l[0]] + Insert(x, l[1..])
  }

  function SortDesc(s: seq<MovieDoc>): (r: seq<MovieDoc>)
    ensures |r| == |s|
    ensures multiset(r) == multiset(s)
  {
    if s == [] then [] else
      assert s == [s[0]] + s[1..];
      Insert(s[0], SortDesc(s[1..]))
  }

  predicate Descending(s: seq<MovieDoc>) {
    forall i, j :: 0 <= i < j < |s| ==> s[i].wantToSee >= s[j].wantToSee
  }

  /** The movies of `s` whose count is `k`, in order. */
  function WithCount(s: seq<MovieDoc>, k: int): seq<MovieDoc> {
    if s == [] then []
    else (if s[0].wantToSee == k then [s[0]] else []) + WithCount(s[1..], k)
  }

  // ---------------------------------------------------------------------
  // The insertion sort is sorted and stable

  /** No count in `s` is above `w`. */
  predicate AtMost(s: seq<MovieDoc>, w: int) {
    forall i :: 0 <= i < |s| ==> s[i].wantToSee <= w
  }

  lemma {:induction false} InsertAtMost(x: MovieDoc, l: seq<MovieDoc>, w: int)
    requires AtMost(l, w) && x.wantToSee <= w
    ensures AtMost(Insert(x, l), w)
  {
    if !(l == [] || l[0].wantToSee <= x.wantToSee) {
      assert AtMost(l[1..], w) by {
        forall i | 0 <= i < |l[1..]| ensures l[1..][i].wantToSee <= w {
          assert l[1..][i] == l[i + 1];
        }
      }
      InsertAtMost(x, l[1..], w);
    }
  }

  lemma ConsDescending(y: MovieDoc, t: seq<MovieDoc>)
    requires Descending(t) && AtMost(t, y.wantToSee)
    ensures Descending([y] + t)
  {
    var r := [y] + t;
    forall i, j | 0 <= i < j < |r| ensures r[i].wantToSee >= r[j].wantToSee {
      assert r[j] == t[j - 1];
      if i > 0 {
        assert r[i] == t[i - 1];
      }
    }
  }

  lemma DescendingSplit(l: seq<MovieDoc>)
    requires Descending(l) && l != []
    ensures Descending(l[1..]) && AtMost(l, l[0].wantToSee) && AtMost(l[1..], l[0].wantToSee)
  {
    forall i | 0 <= i < |l[1..]| ensures l[1..][i].wantToSee <= l[0].wantToSee {
      assert l[1..][i] == l[i + 1];
    }
    forall i, j | 0 <= i < j < |l| - 1 ensures l[1..][i].wantToSee >= l[1..][j].wantToSee {
      assert l[1..][i] == l[i + 1] && l[1..][j] == l[j + 1];
    }
  }

  lemma {:induction false} InsertDescending(x: MovieDoc, l: seq<MovieDoc>)
    requires Descending(l)
    ensures Descending(Insert(x, l))
  {
    if l == [] {
      ConsDescending(x, l);
    } else if l[0].wantToSee <= x.wantToSee {
      DescendingSplit(l);
      forall i | 0 <= i < |l| ensures l[i].wantToSee <= x.wantToSee {
        assert l[i].wantToSee <= l[0].wantToSee;
      }
      ConsDescending(x, l);
    } else {
      DescendingSplit(l);
      InsertDescending(x, l[1..]);
      InsertAtMost(x, l[1..], l[0].wantToSee);
      ConsDescending(l[0], Insert(x, l[1..]));
    }
  }

  /** The sorted day is non-increasing in `wantToSee` and holds the same
      movies, each as often as before. */
  lemma {:induction false} SortDescending(s: seq<MovieDoc>)
    ensures Descending(SortDesc(s))
  {
    if s != [] {
      SortDescending(s[1..]);
      InsertDescending(s[0], SortDesc(s[1..]));
    }
  }

  lemma {:induction false} InsertWithCount(x: MovieDoc, l: seq<MovieDoc>, k: int)
    ensures WithCount(Insert(x, l), k) == (if x.wantToSee == k then [x] else []) + WithCount(l, k)
  {
    if l == [] || l[0].wantToSee <= x.wantToSee {
      assert ([x] + l)[1..] == l;
    } else {
      InsertWithCount(x, l[1..], k);
      var t := Insert(x, l[1..]);
      assert ([l[0]] + t)[1..] == t;
      Common.AppendAssociates(if l[0].wantToSee == k then [l[0]] else [],
        if x.wantToSee == k then [x] else [], WithCount(l[1..], k));
    }
  }

  /** Stability: the movies with a given count appear in the sorted day in
      their input order. */
  lemma {:induction false} SortStable(s: seq<MovieDoc>, k: int)
    ensures WithCount(SortDesc(s), k) == WithCount(s, k)
  {
    if s != [] {
      SortStable(s[1..], k);
      InsertWithCount(s[0], SortDesc(s[1..]), k);
    }
  }

  /** The movies of one count keep any order the whole sequence has, here
      the order of first appearance of the titles in `ts`. */
  lemma {:induction false} WithCountOrder(s: seq<MovieDoc>, k: int, ts: seq<string>)
    requires InFirstSeenOrder(s, ts)
    ensures InFirstSeenOrder(WithCount(s, k), ts)
  {
    if s != [] {
      OrderTail(s, ts);
      WithCountOrder(s[1..], k, ts);
      if s[0].wantToSee == k {
        WithCountMembers(s[1..], k);
        OrderCons(s, WithCount(s[1..], k), ts);
        assert WithCount(s, k) == [s[0]] + WithCount(s[1..], k);
      } else {
        assert WithCount(s, k) == WithCount(s[1..], k);
      }
    }
  }

  lemma OrderTail(s: seq<MovieDoc>, ts: seq<string>)
    requires s != [] && InFirstSeenOrder(s, ts)
    ensures InFirstSeenOrder(s[1..], ts)
  {
    var rest := s[1..];
    forall i, j | 0 <= i < j < |rest| ensures FirstIndex(ts, rest[i].title) < FirstIndex(ts, rest[j].title) {
      assert rest[i] == s[i + 1] && rest[j] == s[j + 1];
    }
  }

  /** Putting the head of `s` before movies of its tail kept in order. */
  lemma OrderCons(s: seq<MovieDoc>, w: seq<MovieDoc>, ts: seq<string>)
    requires s != [] && InFirstSeenOrder(s, ts) && InFirstSeenOrder(w, ts)
    requires forall d :: d in w ==> d in s[1..]
    ensures InFirstSeenOrder([s[0]] + w, ts)
  {
    var r := [s[0]] + w;
    forall i, j | 0 <= i < j < |r| ensures FirstIndex(ts, r[i].title) < FirstIndex(ts, r[j].title) {
      assert r[j] == w[j - 1];
      if i == 0 {
        assert w[j - 1] in s[1..];
        var m :| 0 <= m < |s| - 1 && s[1..][m] == w[j - 1];
        assert s[m + 1] == w[j - 1];
      } else {
        assert r[i] == w[i - 1];
      }
    }
  }

  // ---------------------------------------------------------------------
  // Sorted and stable determine the order

  lemma {:induction false} WithCountMembers(s: seq<MovieDoc>, k: int)
    ensures forall d :: d in WithCount(s, k) ==> d in s && d.wantToSee == k
    ensures s != [] ==> WithCount(s, s[0].wantToSee) != []
  {
    if s != [] {
      WithCountMembers(s[1..], k);
    }
  }

  /** A count present in a non-increasing sequence is at most its first. */
  lemma CountBelowHead(s: seq<MovieDoc>, k: int)
    requires Descending(s) && WithCount(s, k) != []
    ensures s != [] && k <= s[0].wantToSee
  {
    WithCountMembers(s, k);
    var x := WithCount(s, k)[0];
    assert x in WithCount(s, k);
    var i :| 0 <= i < |s| && s[i] == x;
    assert i == 0 || s[0].wantToSee >= s[i].wantToSee;
  }

  /** Agreeing on every count, two non-empty non-increasing sequences
      start with the same movie, and their tails agree on every count. */
  lemma SameHead(a: seq<MovieDoc>, b: seq<MovieDoc>)
    requires Descending(a) && Descending(b) && a != [] && b != []
    requires forall k :: WithCount(a, k) == WithCount(b, k)
    ensures a[0] == b[0]
    ensures forall k :: WithCount(a[1..], k) == WithCount(b[1..], k)
  {
    var ma, mb := a[0].wantToSee, b[0].wantToSee;
    WithCountMembers(a, ma);
    WithCountMembers(b, mb);
    assert WithCount(a, mb) == WithCount(b, mb);
    CountBelowHead(a, mb);
    assert WithCount(b, ma) == WithCount(a, ma);
    CountBelowHead(b, ma);
    assert WithCount(a, ma)[0] == a[0];
    assert WithCount(b, ma)[0] == b[0];
    forall k ensures WithCount(a[1..], k) == WithCount(b[1..], k) {
      var pre := if ma == k then [a[0]] else [];
      assert WithCount(a, k) == pre + WithCount(a[1..], k);
      assert WithCount(b, k) == pre + WithCount(b[1..], k);
      assert WithCount(a[1..], k) == WithCount(a, k)[|pre|..];
      assert WithCount(b[1..], k) == WithCount(b, k)[|pre|..];
    }
  }

  lemma NonEmptyAgree(a: seq<MovieDoc>, b: seq<MovieDoc>)
    requires forall k :: WithCount(a, k) == WithCount(b, k)
    ensures a == [] <==> b == []
  {
    WithCountMembers(a, 0);
    WithCountMembers(b, 0);
    if a != [] {
      assert WithCount(b, a[0].wantToSee) != [];
    }
    if b != [] {
      assert WithCount(a, b[0].wantToSee) != [];
    }
  }

  /** Two non-increasing sequences that agree on the movies of every count,
      in order, are the same sequence. */
  lemma {:induction false} SortedUnique(a: seq<MovieDoc>, b: seq<MovieDoc>)
    requires Descending(a) && Descending(b)
    requires forall k :: WithCount(a, k) == WithCount(b, k)
    ensures a == b
    decreases |a|
  {
    NonEmptyAgree(a, b);
    if a != [] {
      SameHead(a, b);
      DescendingSplit(a);
      DescendingSplit(b);
      SortedUnique(a[1..], b[1..]);
      assert a == [a[0]] + a[1..] && b == [b[0]] + b[1..];
    }
  }

  /** Any order of the day's movies that is non-increasing in `wantToSee`
      and keeps movies with equal counts in input order is `SortDesc`'s. */
  lemma StableSortIsSortDesc(s: seq<MovieDoc>, r: seq<MovieDoc>)
    requires Descending(r)
    requires forall k :: WithCount(r, k) == WithCount(s, k)
    ensures r == SortDesc(s)
  {
    SortDescending(s);
    forall k ensures WithCount(r, k) == WithCount(SortDesc(s), k) {
      SortStable(s, k);
    }
    SortedUnique(r, SortDesc(s));
  }

  // ---------------------------------------------------------------------
  // Sorting keeps what the grouping established

  lemma {:induction false} InsertDistinct(x: MovieDoc, l: seq<MovieDoc>)
    requires DistinctTitles(l)
    requires forall d :: d in l ==> d.title != x.title
    ensures DistinctTitles(Insert(x, l))
  {
    if l == [] || l[0].wantToSee <= x.wantToSee {
      var r := [x] + l;
      forall i, j | 0 <= i < j < |r| ensures r[i].title != r[j].title {
        assert r[j] == l[j - 1];
        if i > 0 {
          assert r[i] == l[i - 1];
        }
      }
    } else {
      forall d | d in l[1..] ensures d.title != x.title {
        assert d in l;
      }
      InsertDistinct(x, l[1..]);
      var t := Insert(x, l[1..]);
      var r := [l[0]] + t;
      assert multiset(t) == multiset(l[1..]) + multiset{x};
      forall i, j | 0 <= i < j < |r| ensures r[i].title != r[j].title {
        assert r[j] == t[j - 1];
        if i == 0 {
          assert t[j - 1] in multiset(t);
          if t[j - 1] != x {
            assert t[j - 1] in l[1..];
            var m :| 0 <= m < |l[1..]| && l[1..][m] == t[j - 1];
            assert l[m + 1] == t[j - 1];
          }
        } else {
          assert r[i] == t[i - 1];
        }
      }
    }
  }

  /** Sorting neither merges nor duplicates a title. */
  lemma {:induction false} SortDistinct(s: seq<MovieDoc>)
    requires DistinctTitles(s)
    ensures DistinctTitles(SortDesc(s))
  {
    if s != [] {
      assert DistinctTitles(s[1..]) by {
        forall i, j | 0 <= i < j < |s[1..]| ensures s[1..][i].title != s[1..][j].title {
          assert s[1..][i] == s[i + 1] && s[1..][j] == s[j + 1];
        }
      }
      SortDistinct(s[1..]);
      var t := SortDesc(s[1..]);
      forall d | d in t ensures d.title != s[0].title {
        assert d in multiset(t);
        var m :| 0 <= m < |s[1..]| && s[1..][m] == d;
        assert s[m + 1] == d;
      }
      InsertDistinct(s[0], t);
    }
  }

  lemma {:induction false} TotalConcat(a: seq<MovieDoc>, b: seq<MovieDoc>)
    ensures Total(a + b) == Total(a) + Total(b)
    decreases |b|
  {
    if b == [] {
      assert a + b == a;
    } else {
      var n := |b| - 1;
      assert (a + b)[..|a + b| - 1] == a + b[..n];
      TotalConcat(a, b[..n]);
    }
  }

  lemma TotalSingle(d: MovieDoc)
    ensures Total([d]) == BucketTotal(d.seances)
  {
    assert [d][..0] == [];
  }

  lemma {:induction false} InsertTotal(x: MovieDoc, l: seq<MovieDoc>)
    ensures Total(Insert(x, l)) == BucketTotal(x.seances) + Total(l)
  {
    TotalSingle(x);
    if l == [] || l[0].wantToSee <= x.wantToSee {
      TotalConcat([x], l);
    } else {
      InsertTotal(x, l[1..]);
      TotalSingle(l[0]);
      TotalConcat([l[0]], Insert(x, l[1..]));
      TotalConcat([l[0]], l[1..]);
      assert [l[0]] + l[1..] == l;
    }
  }

  /** Sorting keeps every seance. */
  lemma {:induction false} SortTotal(s: seq<MovieDoc>)
    ensures Total(SortDesc(s)) == Total(s)
  {
    if s != [] {
      SortTotal(s[1..]);
      InsertTotal(s[0], SortDesc(s[1..]));
      TotalSingle(s[0]);
      TotalConcat([s[0]], s[1..]);
      assert [s[0]] + s[1..] == s;
    }
  }

  /** What sorting keeps of a day whose titles are distinct: sorted,
      stable, the same titles, each once, and every seance. */
  lemma SortFacts(s: seq<MovieDoc>)
    requires DistinctTitles(s)
    ensures var r := SortDesc(s);
      && Descending(r)
      && (forall k :: WithCount(r, k) == WithCount(s, k))
      && DistinctTitles(r)
      && (forall t :: HasTitle(r, t) <==> HasTitle(s, t))
      && Total(r) == Total(s)
  {
    var r := SortDesc(s);
    SortDescending(s);
    forall k ensures WithCount(r, k) == WithCount(s, k) {
      SortStable(s, k);
    }
    SortDistinct(s);
    forall t ensures HasTitle(r, t) <==> HasTitle(s, t) {
      if HasTitle(r, t) {
        var i :| 0 <= i < |r| && r[i].title == t;
        assert r[i] in multiset(s);
      }
      if HasTitle(s, t) {
        var i :| 0 <= i < |s| && s[i].title == t;
        assert s[i] in multiset(r);
      }
    }
    SortTotal(s);
  }
}
