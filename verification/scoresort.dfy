/**
 * The sort of the fetched articles (services/geminiService.ts): highest
 * score first. `Array.prototype.sort` is stable, so articles with
 * equal scores keep their relative order; a stable sort's result is
 * unique, and a stable insertion sort computes it.
 */
module ScoreSort {
  import opened Seqs
  import opened Model

  /** Non-increasing by score. */
  predicate SortedByScore(s: seq<Article>)
  {
    forall i, j | 0 <= i < j < |s| :: s[i].score >= s[j].score
  }

  /** The articles with score `k`, in order. */
  function WithScore(s: seq<Article>, k: real): seq<Article>
  {
    Filter(s, (a: Article) => a.score == k)
  }

  /** Every group of equal scores appears in the same relative order in both lists. */
  ghost predicate SameTies(s: seq<Article>, t: seq<Article>)
  {
    forall k: real :: WithScore(s, k) == WithScore(t, k)
  }

  /** `x` placed before the first article of `s` whose score is lower than its own. */
  function Insert(x: Article, s: seq<Article>): (r: seq<Article>)
    ensures |r| == |s| + 1
    ensures multiset(r) == multiset(s) + multiset{x}
  {
    if s == [] || x.score >= s[0].score then [x] + s
    else
      assert s == [s[0]] + s[1..];
      [s[0]] + Insert(x, s[1..])
  }

  /** Sort by insertion of each head into the sorted tail. */
  function SortByScore(s: seq<Article>): (r: seq<Article>)
    ensures |r| == |s|
    ensures multiset(r) == multiset(s)
  {
    if s == [] then []
    else
      assert s == [s[0]] + s[1..];
      Insert(s[0], SortByScore(s[1..]))
  }

  /** Inserting into a sorted list keeps it sorted. */
  lemma {:induction false} InsertSorted(x: Article, s: seq<Article>)
    requires SortedByScore(s)
    ensures SortedByScore(Insert(x, s))
  {
    if s != [] && x.score < s[0].score {
      InsertSorted(x, s[1..]);
      var r := Insert(x, s);
      var t := Insert(x, s[1..]);
      assert r == [s[0]] + t;
      assert multiset(t) == multiset(s[1..]) + multiset{x};
      forall j | 0 < j < |r|
        ensures s[0].score >= r[j].score
      {
        assert r[j] == t[j - 1];
        assert r[j] in multiset(t);
        if r[j] != x {
          assert r[j] in multiset(s[1..]);
          var m :| 0 <= m < |s[1..]| && s[1..][m] == r[j];
          assert s[1 + m] == r[j];
        }
      }
    }
  }

  /**
   * Inserting `x` ahead of every lower score keeps each group of equal
   * scores in the order of `[x] + s`: `x` comes first among its equals.
   */
  lemma {:induction false} InsertTies(x: Article, s: seq<Article>, k: real)
    requires SortedByScore(s)
    ensures WithScore(Insert(x, s), k) == WithScore([x] + s, k)
  {
    var keep := (a: Article) => a.score == k;
    if s != [] && x.score < s[0].score {
      InsertTies(x, s[1..], k);
      assert Insert(x, s) == [s[0]] + Insert(x, s[1..]);
      FilterAppend([s[0]], Insert(x, s[1..]), keep);
      FilterAppend([x], s[1..], keep);
      FilterAppend([s[0]], s[1..], keep);
      assert s == [s[0]] + s[1..];
      FilterAppend([x], s, keep);
      if s[0].score == k {
        // x has a lower score than s[0], so x is not in the group of k
        assert !keep(x);
        assert Filter([x], keep) == [];
        assert Filter([x] + s[1..], keep) == Filter(s[1..], keep);
      }
    }
  }

  /** The sort's result is non-increasing by score. */
  lemma {:induction false} SortSorted(s: seq<Article>)
    ensures SortedByScore(SortByScore(s))
  {
    if s != [] {
      SortSorted(s[1..]);
      InsertSorted(s[0], SortByScore(s[1..]));
    }
  }

  /** The sort keeps the articles of score `k` in their original order. */
  lemma {:induction false} SortTiesAt(s: seq<Article>, k: real)
    ensures WithScore(SortByScore(s), k) == WithScore(s, k)
  {
    if s != [] {
      var rest := SortByScore(s[1..]);
      var keep := (a: Article) => a.score == k;
      SortTiesAt(s[1..], k);
      SortSorted(s[1..]);
      InsertTies(s[0], rest, k);
      assert SortByScore(s) == Insert(s[0], rest);
      FilterAppend([s[0]], rest, keep);
      FilterAppend([s[0]], s[1..], keep);
      assert s == [s[0]] + s[1..];
    }
  }

  /**
   * The sort's contract: non-increasing scores, the same articles, and
   * each group of equal scores in its original relative order.
   */
  lemma SortSpec(s: seq<Article>)
    ensures SortedByScore(SortByScore(s))
    ensures multiset(SortByScore(s)) == multiset(s)
    ensures SameTies(SortByScore(s), s)
  {
    SortSorted(s);
    forall k: real
      ensures WithScore(SortByScore(s), k) == WithScore(s, k)
    {
      SortTiesAt(s, k);
    }
  }

  /** The highest score of a sorted non-empty list is its first. */
  lemma HeadIsMax(u: seq<Article>, x: Article)
    requires SortedByScore(u) && x in u
    ensures u[0].score >= x.score
  {
    var i :| 0 <= i < |u| && u[i] == x;
    if i > 0 {
      assert u[0].score >= u[i].score;
    }
  }

  /** The first article of a list is the first of its score group. */
  lemma HeadOfGroup(t: seq<Article>)
    requires t != []
    ensures WithScore(t, t[0].score) == [t[0]] + WithScore(t[1..], t[0].score)
  {
  }

  /** Two sorted lists with the same groups of equal scores are both empty or start alike. */
  lemma SameHead(t: seq<Article>, u: seq<Article>)
    requires SortedByScore(t) && SortedByScore(u) && SameTies(t, u)
    ensures t == [] <==> u == []
    ensures t != [] ==> t[0] == u[0]
  {
    if t != [] {
      HeadOfGroup(t);
      assert t[0] in WithScore(u, t[0].score);
    }
    if u != [] {
      HeadOfGroup(u);
      assert u[0] in WithScore(t, u[0].score);
    }
    if t != [] && u != [] {
      HeadIsMax(u, t[0]);
      HeadIsMax(t, u[0]);
      assert t[0].score == u[0].score;
      assert WithScore(t, t[0].score)[0] == t[0];
      assert WithScore(u, u[0].score)[0] == u[0];
    }
  }

  /** Dropping equal heads keeps the groups of equal scores equal. */
  lemma SameTiesTail(t: seq<Article>, u: seq<Article>)
    requires t != [] && u != [] && t[0] == u[0] && SameTies(t, u)
    ensures SameTies(t[1..], u[1..])
  {
    var m := t[0].score;
    forall k: real
      ensures WithScore(t[1..], k) == WithScore(u[1..], k)
    {
      assert WithScore(t, k) == WithScore(u, k);
      if k == m {
        HeadOfGroup(t);
        HeadOfGroup(u);
        assert WithScore(t[1..], m) == WithScore(t, m)[1..];
        assert WithScore(u[1..], m) == WithScore(u, m)[1..];
      } else {
        assert WithScore(t[1..], k) == WithScore(t, k);
        assert WithScore(u[1..], k) == WithScore(u, k);
      }
    }
  }

  /**
   * A stable sort by score has exactly one possible result: two sorted
   * lists with the same groups of equal scores, in the same orders, are
   * equal.
   */
  lemma {:induction false} SortedTiesUnique(t: seq<Article>, u: seq<Article>)
    requires SortedByScore(t) && SortedByScore(u) && SameTies(t, u)
    ensures t == u
    decreases |t|
  {
    SameHead(t, u);
    if t != [] {
      SameTiesTail(t, u);
      assert SortedByScore(t[1..]) && SortedByScore(u[1..]);
      SortedTiesUnique(t[1..], u[1..]);
      assert t == [t[0]] + t[1..] && u == [u[0]] + u[1..];
    }
  }

  /**
   * Any order of the same articles that is non-increasing by score and
   * keeps the relative order of equal scores is the sort's result: the
   * model agrees with every stable sort the engine may use.
   */
  lemma StableSortIsUnique(s: seq<Article>, t: seq<Article>)
    requires SortedByScore(t) && SameTies(t, s)
    ensures t == SortByScore(s)
  {
    SortSpec(s);
    var u := SortByScore(s);
    forall k: real
      ensures WithScore(t, k) == WithScore(u, k)
    {
      assert WithScore(t, k) == WithScore(s, k);
      assert WithScore(u, k) == WithScore(s, k);
    }
    SortedTiesUnique(t, u);
  }
}
