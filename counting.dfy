/**
 * Python's `collections.Counter(words).most_common(n)`.
 *
 * A `Counter` built from a list keeps its keys in first-occurrence order, and
 * `most_common(n)` sorts its items stably by descending count and keeps the
 * first `n`. The result is therefore the list of distinct words ordered by
 * count (highest first) and, among equal counts, by first occurrence.
 */
module Counting {

  /** One item of a count: a word, how often it occurs, and the index of its
      first occurrence (which decides ties). */
  datatype Tally = Tally(word: string, count: nat, first: nat)

  function Occurrences(s: seq<string>, w: string): nat {
    multiset(s)[w]
  }

  /** Index of the first occurrence of `w` in `s`. */
  function FirstIndex(s: seq<string>, w: string): (i: nat)
    requires w in s
    ensures i < |s| && s[i] == w
    ensures forall j :: 0 <= j < i ==> s[j] != w
  {
    if s[0] == w then 0 else 1 + FirstIndex(s[1..], w)
  }

  /** The distinct words of `s`, each once. */
  function Distinct(s: seq<string>): (d: seq<string>)
    ensures forall w :: w in d <==> w in s
    ensures forall i, j :: 0 <= i < j < |d| ==> d[i] != d[j]
  {
    if s == [] then []
    else
      var p := Distinct(s[..|s| - 1]);
      assert s == s[..|s| - 1] + [s[|s| - 1]];
      if s[|s| - 1] in p then p else p + [s[|s| - 1]]
  }

  /** The tally `Counter` keeps for word `w` of `s`. */
  function TallyOf(s: seq<string>, w: string): Tally
    requires w in s
  {
    Tally(w, Occurrences(s, w), FirstIndex(s, w))
  }

  /** The items of `Counter(s)`, one per distinct word. */
  function Tallies(s: seq<string>): (ts: seq<Tally>)
    ensures |ts| == |Distinct(s)|
  {
    var d := Distinct(s);
    seq(|d|, k requires 0 <= k < |d| => TallyOf(s, d[k]))
  }

  /** `a` comes before `b` in `most_common` order. */
  predicate Precedes(a: Tally, b: Tally) {
    a.count > b.count || (a.count == b.count && a.first < b.first)
  }

  /** Strictly ordered by `Precedes`. */
  predicate Ranked(ts: seq<Tally>) {
    forall i, j :: 0 <= i < j < |ts| ==> Precedes(ts[i], ts[j])
  }

  predicate DistinctFirsts(ts: seq<Tally>) {
    forall i, j :: 0 <= i < j < |ts| ==> ts[i].first != ts[j].first
  }

  /** Insert `e` into a ranked list at its place. */
  function Insert(e: Tally, ts: seq<Tally>): (r: seq<Tally>)
    ensures multiset(r) == multiset(ts) + multiset{e}
  {
    if ts == [] then [e]
    else if Precedes(e, ts[0]) then [e] + ts
    else
      assert ts == [ts[0]] + ts[1..];
      [ts[0]] + Insert(e, ts[1..])
  }

  /** Inserting a tally whose first index is new keeps a list ranked. */
  lemma {:induction false} InsertRanked(e: Tally, ts: seq<Tally>)
    requires Ranked(ts)
    requires forall t :: t in ts ==> t.first != e.first
    ensures Ranked(Insert(e, ts))
  {
    if ts != [] && !Precedes(e, ts[0]) {
      var rest := Insert(e, ts[1..]);
      InsertRanked(e, ts[1..]);
      forall t | t in rest ensures Precedes(ts[0], t) {
        assert t in multiset(ts[1..]) + multiset{e};
        if t != e {
          var j :| 0 <= j < |ts[1..]| && ts[1..][j] == t;
          assert ts[j + 1] == t;
        }
      }
      var r := [ts[0]] + rest;
      forall i, j | 0 <= i < j < |r| ensures Precedes(r[i], r[j]) {
        if i == 0 {
          assert r[j] in rest;
        } else {
          assert r[i] == rest[i - 1] && r[j] == rest[j - 1];
        }
      }
    }
  }

  /** Insertion sort into `most_common` order. */
  function Sort(ts: seq<Tally>): (r: seq<Tally>)
    ensures multiset(r) == multiset(ts)
  {
    if ts == [] then []
    else
      assert ts == [ts[0]] + ts[1..];
      Insert(ts[0], Sort(ts[1..]))
  }

  /** Sorting tallies with distinct first indices ranks them. */
  lemma {:induction false} SortRanked(ts: seq<Tally>)
    requires DistinctFirsts(ts)
    ensures Ranked(Sort(ts))
  {
    if ts != [] {
      var rest := Sort(ts[1..]);
      SortRanked(ts[1..]);
      forall t | t in rest ensures t.first != ts[0].first {
        assert t in multiset(ts[1..]);
        var j :| 0 <= j < |ts[1..]| && ts[1..][j] == t;
        assert ts[j + 1] == t;
      }
      InsertRanked(ts[0], rest);
    }
  }

  /** `Counter(s).most_common(n)`. */
  function MostCommon(s: seq<string>, n: nat): (r: seq<Tally>)
    ensures |r| <= n
  {
    var sorted := Sort(Tallies(s));
    sorted[..if n < |sorted| then n else |sorted|]
  }

  /** The words of a list of tallies, in order. */
  function WordsOf(ts: seq<Tally>): (ws: seq<string>)
    ensures |ws| == |ts| && forall k :: 0 <= k < |ts| ==> ws[k] == ts[k].word
  {
    seq(|ts|, k requires 0 <= k < |ts| => ts[k].word)
  }

  lemma TalliesFacts(s: seq<string>)
    ensures DistinctFirsts(Tallies(s))
    ensures forall t: Tally :: t in Tallies(s) <==> t.word in s && t == TallyOf(s, t.word)
  {
    var ts, d := Tallies(s), Distinct(s);
    forall i, j | 0 <= i < j < |ts| ensures ts[i].first != ts[j].first {
      assert ts[i].word == d[i] && ts[j].word == d[j];
    }
    forall t: Tally | t.word in s && t == TallyOf(s, t.word) ensures t in ts {
      var k :| 0 <= k < |d| && d[k] == t.word;
      assert ts[k] == t;
    }
  }

  /** Every tally in `ts` is the true tally of a word of `s`. */
  predicate Truthful(s: seq<string>, ts: seq<Tally>) {
    forall k :: 0 <= k < |ts| ==> ts[k].word in s && ts[k] == TallyOf(s, ts[k].word)
  }

  /** Every word of `s` has its tally in `ts`. */
  predicate Covers(s: seq<string>, ts: seq<Tally>) {
    forall w :: w in s ==> exists p :: 0 <= p < |ts| && ts[p] == TallyOf(s, w)
  }

  /** The sorted tallies of `s`: one per distinct word, each with its true
      count, ranked, and every word of `s` has its tally somewhere. */
  lemma SortedTalliesFacts(s: seq<string>)
    ensures var sorted := Sort(Tallies(s));
      && |sorted| == |Distinct(s)|
      && Ranked(sorted)
      && Truthful(s, sorted)
      && Covers(s, sorted)
  {
    var ts := Tallies(s);
    var sorted := Sort(ts);
    TalliesFacts(s);
    SortRanked(ts);
    assert |sorted| == |ts| by {
      assert |multiset(sorted)| == |multiset(ts)|;
    }
    forall k | 0 <= k < |sorted| ensures sorted[k].word in s && sorted[k] == TallyOf(s, sorted[k].word) {
      assert sorted[k] in multiset(ts);
    }
    forall w | w in s ensures exists p :: 0 <= p < |sorted| && sorted[p] == TallyOf(s, w) {
      assert TallyOf(s, w) in multiset(sorted);
    }
  }

  /** A prefix of a ranked, truthful and covering list keeps exactly the
      leading tallies: distinct words, still ranked, and every word it leaves
      out ranks after all it keeps. */
  lemma PrefixFacts(s: seq<string>, sorted: seq<Tally>, m: nat)
    requires Ranked(sorted) && Truthful(s, sorted) && Covers(s, sorted) && m <= |sorted|
    ensures Truthful(s, sorted[..m]) && Ranked(sorted[..m])
    ensures forall i, j :: 0 <= i < j < m ==> sorted[i].word != sorted[j].word
    ensures forall w :: w in s && w !in WordsOf(sorted[..m]) ==>
              m < |sorted| && forall k :: 0 <= k < m ==> Precedes(sorted[k], TallyOf(s, w))
  {
    var r := sorted[..m];
    forall i, j | 0 <= i < j < m ensures sorted[i].word != sorted[j].word {
      assert Precedes(sorted[i], sorted[j]);
    }
    forall k | 0 <= k < m ensures sorted[k].word in WordsOf(r) {
      assert WordsOf(r)[k] == sorted[k].word;
    }
    forall w | w in s && w !in WordsOf(r)
      ensures m < |sorted| && forall k :: 0 <= k < m ==> Precedes(sorted[k], TallyOf(s, w))
    {
      var p :| 0 <= p < |sorted| && sorted[p] == TallyOf(s, w);
      assert p >= m;
    }
  }

  /** What `Counter(s).most_common(n)` returns: at most `n` items, one per
      distinct word of `s`, each with its true count; ordered by descending
      count with ties in first-occurrence order; and every word left out comes
      after all that were kept, which can only happen when `n` items were kept. */
  lemma MostCommonSpec(s: seq<string>, n: nat)
    ensures var r := MostCommon(s, n);
      && |r| <= n && |r| <= |Distinct(s)|
      && (|r| < n ==> |r| == |Distinct(s)|)
      && Truthful(s, r)
      && (forall i, j :: 0 <= i < j < |r| ==> r[i].word != r[j].word)
      && Ranked(r)
      && (forall w :: w in s && w !in WordsOf(r) ==>
            |r| == n && forall k :: 0 <= k < |r| ==> Precedes(r[k], TallyOf(s, w)))
  {
    var sorted := Sort(Tallies(s));
    SortedTalliesFacts(s);
    var m := if n < |sorted| then n else |sorted|;
    PrefixFacts(s, sorted, m);
    assert MostCommon(s, n) == sorted[..m];
  }

  /** The words of `most_common(n)`, as `[w for w, _ in ...]` lists them: at
      most `n` distinct words of `s` and no more than there are distinct words,
      ordered by non-increasing count with ties in first-occurrence order; a
      word left out ranks after every word kept, which only happens when `n`
      words were kept. */
  lemma MostCommonWords(s: seq<string>, n: nat)
    ensures var ks := WordsOf(MostCommon(s, n));
      && |ks| <= n && |ks| <= |Distinct(s)|
      && (forall k :: 0 <= k < |ks| ==> ks[k] in s)
      && (forall i, j :: 0 <= i < j < |ks| ==> ks[i] != ks[j])
      && (forall i, j :: 0 <= i < j < |ks| ==>
            Occurrences(s, ks[i]) > Occurrences(s, ks[j]) ||
            (Occurrences(s, ks[i]) == Occurrences(s, ks[j]) && FirstIndex(s, ks[i]) < FirstIndex(s, ks[j])))
      && (forall w :: w in s && w !in ks ==>
            |ks| == n && forall k :: 0 <= k < |ks| ==> Precedes(TallyOf(s, ks[k]), TallyOf(s, w)))
  {
    var r := MostCommon(s, n);
    MostCommonSpec(s, n);
    forall i, j | 0 <= i < j < |r| ensures Precedes(TallyOf(s, r[i].word), TallyOf(s, r[j].word)) {
      assert Precedes(r[i], r[j]);
    }
  }

  /** The `(word, count)` pairs of a list of tallies. */
  function Pairs(ts: seq<Tally>): (r: seq<(string, nat)>)
    ensures |r| == |ts|
  {
    seq(|ts|, k requires 0 <= k < |ts| => (ts[k].word, ts[k].count))
  }

  /** `Counter(s).most_common(n)` as the pairs Python returns: at most `n`
      distinct words of `s` with their true counts, counts never increasing,
      ties in first-occurrence order, and a word left out comes after every
      word kept (fewer occurrences, or as many but first seen later), which
      only happens when `n` pairs were returned. */
  lemma MostCommonPairs(s: seq<string>, n: nat)
    ensures var r := Pairs(MostCommon(s, n));
      && |r| <= n
      && (forall i, j :: 0 <= i < j < |r| ==> r[i].1 >= r[j].1 && r[i].0 != r[j].0)
      && (forall i :: 0 <= i < |r| ==> r[i].0 in s && r[i].1 == Occurrences(s, r[i].0))
      && (forall i, j :: 0 <= i < j < |r| ==>
            r[i].1 > r[j].1 || (r[i].1 == r[j].1 && FirstIndex(s, r[i].0) < FirstIndex(s, r[j].0)))
      && (forall w :: w in s && (forall i :: 0 <= i < |r| ==> r[i].0 != w) ==>
            |r| == n && forall i :: 0 <= i < |r| ==>
              (Occurrences(s, w) < r[i].1 || (Occurrences(s, w) == r[i].1 && FirstIndex(s, r[i].0) < FirstIndex(s, w))))
  {
    MostCommonSpec(s, n);
    RankedPairs(s, MostCommon(s, n), n);
  }

  /** The pair view of a truthful, ranked selection of at most `n` tallies
      that keeps every word it leaves out behind the words it keeps. */
  lemma RankedPairs(s: seq<string>, ts: seq<Tally>, n: nat)
    requires |ts| <= n && Truthful(s, ts) && Ranked(ts)
    requires forall i, j :: 0 <= i < j < |ts| ==> ts[i].word != ts[j].word
    requires forall w :: w in s && w !in WordsOf(ts) ==>
      |ts| == n && forall k :: 0 <= k < |ts| ==> Precedes(ts[k], TallyOf(s, w))
    ensures var r := Pairs(ts);
      && (forall i, j :: 0 <= i < j < |r| ==> r[i].1 >= r[j].1 && r[i].0 != r[j].0)
      && (forall i :: 0 <= i < |r| ==> r[i].0 in s && r[i].1 == Occurrences(s, r[i].0))
      && (forall i, j :: 0 <= i < j < |r| ==>
            r[i].1 > r[j].1 || (r[i].1 == r[j].1 && FirstIndex(s, r[i].0) < FirstIndex(s, r[j].0)))
      && (forall w :: w in s && (forall i :: 0 <= i < |r| ==> r[i].0 != w) ==>
            |r| == n && forall i :: 0 <= i < |r| ==>
              (Occurrences(s, w) < r[i].1 || (Occurrences(s, w) == r[i].1 && FirstIndex(s, r[i].0) < FirstIndex(s, w))))
  {
    PairsOrder(s, ts);
    PairsLeftOut(s, ts, n);
  }

  /** Ranked truthful tallies give pairs ordered by count, then first occurrence. */
  lemma PairsOrder(s: seq<string>, ts: seq<Tally>)
    requires Truthful(s, ts) && Ranked(ts)
    ensures var r := Pairs(ts);
      && (forall i :: 0 <= i < |r| ==> r[i].0 in s && r[i].1 == Occurrences(s, r[i].0))
      && (forall i, j :: 0 <= i < j < |r| ==>
            r[i].1 > r[j].1 || (r[i].1 == r[j].1 && FirstIndex(s, r[i].0) < FirstIndex(s, r[j].0)))
  {
    var r := Pairs(ts);
    forall i | 0 <= i < |r| ensures r[i] == (ts[i].word, ts[i].count) && ts[i].first == FirstIndex(s, ts[i].word) {
      assert ts[i] == TallyOf(s, ts[i].word);
    }
    forall i, j | 0 <= i < j < |r|
      ensures r[i].1 > r[j].1 || (r[i].1 == r[j].1 && FirstIndex(s, r[i].0) < FirstIndex(s, r[j].0))
    {
      assert Precedes(ts[i], ts[j]);
    }
  }

  /** A word of `s` missing from the pairs occurs no more often than any kept word. */
  lemma PairsLeftOut(s: seq<string>, ts: seq<Tally>, n: nat)
    requires Truthful(s, ts)
    requires forall w :: w in s && w !in WordsOf(ts) ==>
      |ts| == n && forall k :: 0 <= k < |ts| ==> Precedes(ts[k], TallyOf(s, w))
    ensures var r := Pairs(ts);
      forall w :: w in s && (forall i :: 0 <= i < |r| ==> r[i].0 != w) ==>
        |r| == n && forall i :: 0 <= i < |r| ==> r[i].0 in s && (Occurrences(s, w) < r[i].1 || (Occurrences(s, w) == r[i].1 && FirstIndex(s, r[i].0) < FirstIndex(s, w)))
  {
    var r := Pairs(ts);
    forall w | w in s && (forall i :: 0 <= i < |r| ==> r[i].0 != w)
      ensures |r| == n && forall i :: 0 <= i < |r| ==> r[i].0 in s && (Occurrences(s, w) < r[i].1 || (Occurrences(s, w) == r[i].1 && FirstIndex(s, r[i].0) < FirstIndex(s, w)))
    {
      forall i | 0 <= i < |ts| ensures WordsOf(ts)[i] != w {
        assert r[i].0 == ts[i].word;
      }
      assert w !in WordsOf(ts);
      forall i | 0 <= i < |r| ensures r[i].0 in s && (Occurrences(s, w) < r[i].1 || (Occurrences(s, w) == r[i].1 && FirstIndex(s, r[i].0) < FirstIndex(s, w))) {
        assert Precedes(ts[i], TallyOf(s, w));
        assert r[i] == (ts[i].word, ts[i].count) && ts[i] == TallyOf(s, ts[i].word);
      }
    }
  }

  /** A single word is its own most common word, once. */
  lemma MostCommonOfOne(w: string, n: nat)
    requires n >= 1
    ensures MostCommon([w], n) == [Tally(w, 1, 0)]
  {
    var s := [w];
    var t := Tally(w, 1, 0);
    assert s[..0] == [];
    assert Distinct(s) == [w];
    assert multiset(s)[w] == 1;
    assert TallyOf(s, w) == t;
    assert Tallies(s) == [t];
    assert Sort([t]) == Insert(t, Sort([]));
  }
}
