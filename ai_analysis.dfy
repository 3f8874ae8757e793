/**
 * The review-analytics pipeline: text cleaning, rating-first sentiment
 * classification, keyword ranking, fixed-lexicon topic counting, praise and
 * complaint excerpts, a two-sentence insight, and the orchestrator
 * `AnalyzeReviews` that produces the trend-log and AI-result records.
 *
 * The polarity scorer is a parameter `scorer: string -> real`; the ISO week
 * and the month of "today" are parameters of `AnalyzeReviews`.
 */
module AiAnalysis {
  import opened Wrappers
  import PyText
  import PyInt
  import Counting

  // ---------------------------------------------------------------------
  // Cleaning
  // ---------------------------------------------------------------------

  /** The characters the class `[a-zA-Z0-9\s]` accepts. */
  predicate Kept(c: char) {
    'a' <= c <= 'z' || PyText.IsUpper(c) || PyInt.IsDigit(c) || PyText.IsSpace(c)
  }

  /** The characters a cleaned text is made of. */
  predicate IsCleanChar(c: char) {
    'a' <= c <= 'z' || PyInt.IsDigit(c) || PyText.IsSpace(c)
  }

  /** `re.sub(r"[^a-zA-Z0-9\s]", "", s)`: drop every character the class rejects. */
  function RemoveUnkept(s: string): (r: string)
    ensures |r| <= |s|
  {
    if s == [] then "" else (if Kept(s[0]) then [s[0]] else "") + RemoveUnkept(s[1..])
  }

  /** Every character left is one the class accepts, taken from `s`. */
  lemma {:induction false} RemoveUnkeptFacts(s: string)
    ensures forall i :: 0 <= i < |RemoveUnkept(s)| ==> Kept(RemoveUnkept(s)[i]) && RemoveUnkept(s)[i] in s
  {
    if s != [] {
      RemoveUnkeptFacts(s[1..]);
      var head: string := if Kept(s[0]) then [s[0]] else "";
      var r := RemoveUnkept(s);
      assert r == head + RemoveUnkept(s[1..]);
      forall i | 0 <= i < |r| ensures Kept(r[i]) && r[i] in s {
        if i >= |head| {
          assert r[i] == RemoveUnkept(s[1..])[i - |head|];
        }
      }
    }
  }

  /** `clean`: absent or empty text gives the empty string; otherwise lower-case
      the text and keep only letters, digits and whitespace. */
  function Clean(text: Option<string>): (r: string)
    ensures text.None? || text == Some("") ==> r == ""
    ensures forall i :: 0 <= i < |r| ==> IsCleanChar(r[i])
  {
    if text.None? || text.value == "" then ""
    else
      var lowered := PyText.Lower(text.value);
      var r := RemoveUnkept(lowered);
      assert forall i :: 0 <= i < |r| ==> IsCleanChar(r[i]) by {
        RemoveUnkeptFacts(lowered);
        forall i | 0 <= i < |r| ensures IsCleanChar(r[i]) {
          var j :| 0 <= j < |lowered| && lowered[j] == r[i];
        }
      }
      r
  }

  lemma {:induction false} RemoveUnkeptConcat(a: string, b: string)
    ensures RemoveUnkept(a + b) == RemoveUnkept(a) + RemoveUnkept(b)
  {
    if a == [] {
      assert a + b == b;
    } else {
      var ab := a + b;
      assert ab[0] == a[0] && ab[1..] == a[1..] + b;
      RemoveUnkeptConcat(a[1..], b);
      var head: string := if Kept(a[0]) then [a[0]] else "";
      assert RemoveUnkept(ab) == head + (RemoveUnkept(a[1..]) + RemoveUnkept(b));
      assert RemoveUnkept(a) == head + RemoveUnkept(a[1..]);
    }
  }

  /** Cleaning works character by character: the clean form of a concatenation
      is the concatenation of the clean forms, and one character is lower-cased
      and kept exactly when the class accepts it. */
  lemma CleanConcat(a: string, b: string)
    ensures Clean(Some(a + b)) == Clean(Some(a)) + Clean(Some(b))
  {
    assert PyText.Lower(a + b) == PyText.Lower(a) + PyText.Lower(b);
    RemoveUnkeptConcat(PyText.Lower(a), PyText.Lower(b));
  }

  lemma CleanChar(c: char)
    ensures Clean(Some([c])) == if Kept(c) then [PyText.LowerChar(c)] else []
  {
    var d := PyText.LowerChar(c);
    assert PyText.Lower([c]) == [d];
    assert RemoveUnkept([d]) == (if Kept(d) then [d] else "") + RemoveUnkept([]);
    assert Kept(d) == Kept(c);
  }

  lemma {:induction false} RemoveUnkeptKeepsCleanText(s: string)
    requires forall i :: 0 <= i < |s| ==> IsCleanChar(s[i])
    ensures RemoveUnkept(s) == s
  {
    if s != [] {
      RemoveUnkeptKeepsCleanText(s[1..]);
    }
  }

  /** `clean` changes nothing in a text that is already clean, so cleaning twice
      is cleaning once. */
  lemma CleanIdempotent(text: Option<string>)
    ensures Clean(Some(Clean(text))) == Clean(text)
  {
    var c := Clean(text);
    if c != "" {
      assert PyText.Lower(c) == c;
      RemoveUnkeptKeepsCleanText(c);
    }
  }

  // ---------------------------------------------------------------------
  // Sentiment
  // ---------------------------------------------------------------------

  datatype Sentiment = Pos | Neg | Neu

  /** `get_sentiment_score`: 0 for absent or empty text, otherwise the polarity
      the scorer gives the original (uncleaned) text. */
  function SentimentScore(text: Option<string>, scorer: string -> real): (score: real)
    ensures text.None? || text == Some("") ==> score == 0.0
    ensures text.Some? && text.value != "" ==> score == scorer(text.value)
  {
    if text.None? || text.value == "" then 0.0 else scorer(text.value)
  }

  /** `classify_sentiment`: the rating decides when it is at least 4 or at most
      2; a rating of 3 falls back to the score with strict bounds at 0.2. */
  function Classify(score: real, rating: int): (s: Sentiment)
    ensures rating >= 4 ==> s == Pos
    ensures rating <= 2 ==> s == Neg
    ensures rating == 3 ==> (s == Pos <==> score > 0.2) && (s == Neg <==> score < -0.2)
    ensures rating == 3 && -0.2 <= score <= 0.2 ==> s == Neu
  {
    if rating >= 4 then Pos
    else if rating <= 2 then Neg
    else if score > 0.2 then Pos
    else if score < -0.2 then Neg
    else Neu
  }

  // ---------------------------------------------------------------------
  // Keywords
  // ---------------------------------------------------------------------

  /** The whitespace tokens of one cleaned text; absent or empty texts have none. */
  function TextTokens(t: Option<string>): seq<string> {
    if t.None? || t.value == "" then [] else PyText.Split(Clean(t))
  }

  /** The concatenation of `f(t)` over the texts, in order. */
  function Gather(texts: seq<Option<string>>, f: Option<string> -> seq<string>): seq<string> {
    if texts == [] then [] else Gather(texts[..|texts| - 1], f) + f(texts[|texts| - 1])
  }

  lemma {:induction false} GatherOrigin(texts: seq<Option<string>>, f: Option<string> -> seq<string>, w: string)
    ensures w in Gather(texts, f) <==> exists i :: 0 <= i < |texts| && w in f(texts[i])
  {
    if texts != [] {
      var init, last := texts[..|texts| - 1], texts[|texts| - 1];
      GatherOrigin(init, f, w);
      if w in Gather(init, f) {
        var i :| 0 <= i < |init| && w in f(init[i]);
        assert texts[i] == init[i];
      } else if w !in f(last) {
        forall i | 0 <= i < |texts| ensures w !in f(texts[i]) {
          if i < |init| {
            assert init[i] == texts[i];
          }
        }
      }
    }
  }

  /** The `words` list `extract_keywords` builds: all tokens, text by text. */
  function AllTokens(texts: seq<Option<string>>): seq<string> {
    Gather(texts, TextTokens)
  }

  /** A token of the batch is a token of one of its texts, and conversely. */
  lemma AllTokensOrigin(texts: seq<Option<string>>, w: string)
    ensures w in AllTokens(texts) <==> exists i :: 0 <= i < |texts| && w in TextTokens(texts[i])
  {
    GatherOrigin(texts, TextTokens, w);
  }

  /** `extract_keywords(texts, n)`: the `n` most common tokens. */
  function Keywords(texts: seq<Option<string>>, n: nat): seq<string> {
    Counting.WordsOf(Counting.MostCommon(AllTokens(texts), n))
  }

  /** What `extract_keywords(texts, n)` returns: at most `n` distinct tokens
      of the batch, ordered by non-increasing total count with ties in
      first-occurrence order; and a token left out is ranked after every token
      kept, which only happens when `n` tokens were kept. */
  lemma KeywordsSpec(texts: seq<Option<string>>, n: nat)
    ensures var ks, words := Keywords(texts, n), AllTokens(texts);
      && |ks| <= n && |ks| <= |Counting.Distinct(words)|
      && (forall k :: 0 <= k < |ks| ==> ks[k] in words)
      && (forall i, j :: 0 <= i < j < |ks| ==> ks[i] != ks[j])
      && (forall i, j :: 0 <= i < j < |ks| ==>
            Counting.Occurrences(words, ks[i]) > Counting.Occurrences(words, ks[j]) ||
            (Counting.Occurrences(words, ks[i]) == Counting.Occurrences(words, ks[j]) &&
             Counting.FirstIndex(words, ks[i]) < Counting.FirstIndex(words, ks[j])))
      && (forall w :: w in words && w !in ks ==>
            |ks| == n && forall k :: 0 <= k < |ks| ==>
              Counting.Precedes(Counting.TallyOf(words, ks[k]), Counting.TallyOf(words, w)))
  {
    Counting.MostCommonWords(AllTokens(texts), n);
  }

  /** Every keyword is a whitespace token of the clean form of some input text. */
  lemma KeywordsOrigin(texts: seq<Option<string>>, n: nat)
    ensures forall w :: w in Keywords(texts, n) ==> exists i :: 0 <= i < |texts| && w in TextTokens(texts[i])
  {
    KeywordsSpec(texts, n);
    forall w | w in Keywords(texts, n) ensures exists i :: 0 <= i < |texts| && w in TextTokens(texts[i]) {
      AllTokensOrigin(texts, w);
    }
  }

  /** `extract_keywords`: collect the tokens of every non-empty text, then rank them. */
  method ExtractKeywords(texts: seq<Option<string>>, n: nat) returns (keywords: seq<string>)
    ensures keywords == Keywords(texts, n)
    ensures |keywords| <= n
    ensures forall w :: w in keywords ==> exists i :: 0 <= i < |texts| && w in TextTokens(texts[i])
  {
    var words: seq<string> := [];
    for i := 0 to |texts|
      invariant words == AllTokens(texts[..i])
    {
      assert texts[..i + 1][..i] == texts[..i];
      var t := texts[i];
      if t.None? || t.value == "" {
        continue;
      }
      words := words + PyText.Split(Clean(t));
    }
    assert texts[..|texts|] == texts;
    keywords := Counting.WordsOf(Counting.MostCommon(words, n));
    KeywordsOrigin(texts, n);
  }

  // ---------------------------------------------------------------------
  // Topics
  // ---------------------------------------------------------------------

  /** `TOPIC_KEYWORDS`: five topics, numbered in declaration order, each
      with its trigger words. */
  const TopicCount: nat := 5

  function TopicName(k: nat): string
    requires k < TopicCount
  {
    if k == 0 then "service"
    else if k == 1 then "food"
    else if k == 2 then "price"
    else if k == 3 then "cleanliness"
    else "ambience"
  }

  function TopicWords(k: nat): seq<string>
    requires k < TopicCount
  {
    if k == 0 then ["service", "staff", "waiter", "attitude", "behaviour"]
    else if k == 1 then ["food", "taste", "quality", "dish", "tasty"]
    else if k == 2 then ["price", "expensive", "cheap", "worth"]
    else if k == 3 then ["clean", "dirty", "hygiene"]
    else ["ambience", "atmosphere", "environment", "place"]
  }

  /** The five topic names. */
  function TopicNames(): set<string> {
    set k | 0 <= k < TopicCount :: TopicName(k)
  }

  /** The topic names are "service", "food", "price", "cleanliness" and "ambience". */
  lemma TopicNamesAre()
    ensures TopicNames() == {"service", "food", "price", "cleanliness", "ambience"}
  {
    assert TopicName(0) == "service" && TopicName(1) == "food" && TopicName(2) == "price";
    assert TopicName(3) == "cleanliness" && TopicName(4) == "ambience";
  }

  /** Topic names are pairwise distinct, so a topic's counter is its own. */
  lemma TopicNamesDistinct(p: nat, q: nat)
    requires p < TopicCount && q < TopicCount && p != q
    ensures TopicName(p) != TopicName(q)
  {
    assert |TopicName(p)| != |TopicName(q)|;
  }

  /** Number of `words` that occur as substrings of `c`. */
  function Hits(words: seq<string>, c: string): (h: nat)
    ensures h <= |words|
  {
    if words == [] then 0
    else Hits(words[..|words| - 1], c) + (if PyText.IsSubstring(words[|words| - 1], c) then 1 else 0)
  }

  /** What one text adds to topic `k`: one per trigger word of that topic that
      occurs in its clean form, nothing for an absent or empty text. */
  function TextHits(t: Option<string>, k: nat): nat
    requires k < TopicCount
  {
    if t.None? || t.value == "" then 0 else Hits(TopicWords(k), Clean(t))
  }

  /** The counter of topic `k` after processing `texts`. */
  function TopicTotal(texts: seq<Option<string>>, k: nat): nat
    requires k < TopicCount
  {
    if texts == [] then 0 else TopicTotal(texts[..|texts| - 1], k) + TextHits(texts[|texts| - 1], k)
  }

  /** The dictionary `extract_topics` returns. */
  function TopicTrends(texts: seq<Option<string>>): (trends: map<string, nat>)
    ensures trends.Keys == TopicNames() && HasTopics(trends)
    ensures forall k :: 0 <= k < TopicCount ==> trends[TopicName(k)] == TopicTotal(texts, k)
  {
    assert forall p, q :: 0 <= p < q < TopicCount ==> TopicName(p) != TopicName(q) by {
      forall p, q | 0 <= p < q < TopicCount ensures TopicName(p) != TopicName(q) {
        TopicNamesDistinct(p, q);
      }
    }
    map k | 0 <= k < TopicCount :: TopicName(k) := TopicTotal(texts, k)
  }

  /** Topic counts add up over a split of the batch, so each text contributes
      independently of the others. */
  lemma {:induction false} TopicTotalAppend(a: seq<Option<string>>, b: seq<Option<string>>, k: nat)
    requires k < TopicCount
    ensures TopicTotal(a + b, k) == TopicTotal(a, k) + TopicTotal(b, k)
    decreases |b|
  {
    if b == [] {
      assert a + b == a;
    } else {
      var b' := b[..|b| - 1];
      TopicTotalAppend(a, b', k);
      assert (a + b)[..|a + b| - 1] == a + b';
    }
  }

  /** One text adds to a topic exactly the number of that topic's trigger words
      found in its clean form; absent and empty texts add nothing. */
  lemma TopicTrendsAppend(texts: seq<Option<string>>, t: Option<string>)
    ensures forall k :: 0 <= k < TopicCount ==>
      TopicTrends(texts + [t])[TopicName(k)] == TopicTrends(texts)[TopicName(k)] + TextHits(t, k)
    ensures t.None? || t == Some("") ==> TopicTrends(texts + [t]) == TopicTrends(texts)
  {
    var longer := texts + [t];
    assert longer[..|longer| - 1] == texts && longer[|longer| - 1] == t;
    forall k | 0 <= k < TopicCount
      ensures TopicTotal(longer, k) == TopicTotal(texts, k) + TextHits(t, k)
    {
    }
    if t.None? || t == Some("") {
      var a, b := TopicTrends(longer), TopicTrends(texts);
      forall key | key in a.Keys ensures a[key] == b[key] {
        var k :| 0 <= k < TopicCount && TopicName(k) == key;
      }
    }
  }

  /** The loops of `extract_topics` over the topics and their trigger words,
      for one cleaned text `c`: each topic's counter grows by the number of its
      trigger words found in `c`. */
  method AddTopicHits(counts: map<string, nat>, c: string) returns (updated: map<string, nat>)
    requires counts.Keys == TopicNames()
    ensures updated.Keys == TopicNames()
    ensures forall k :: 0 <= k < TopicCount ==>
      updated[TopicName(k)] == counts[TopicName(k)] + Hits(TopicWords(k), c)
  {
    updated := counts;
    for k := 0 to TopicCount
      invariant updated.Keys == TopicNames()
      invariant forall q :: 0 <= q < k ==> updated[TopicName(q)] == counts[TopicName(q)] + Hits(TopicWords(q), c)
      invariant forall q :: k <= q < TopicCount ==> updated[TopicName(q)] == counts[TopicName(q)]
    {
      var topic, words := TopicName(k), TopicWords(k);
      assert topic == TopicName(k) && topic in updated;
      forall q | 0 <= q < TopicCount && q != k ensures TopicName(q) != topic {
        TopicNamesDistinct(q, k);
      }
      ghost var before := updated;
      for j := 0 to |words|
        invariant updated.Keys == TopicNames()
        invariant updated[topic] == counts[topic] + Hits(words[..j], c)
        invariant forall q :: 0 <= q < TopicCount && q != k ==> updated[TopicName(q)] == before[TopicName(q)]
      {
        assert words[..j + 1][..j] == words[..j];
        if PyText.IsSubstring(words[j], c) {
          updated := updated[topic := updated[topic] + 1];
        }
      }
      assert words[..|words|] == words;
    }
  }

  /** `extract_topics`: a counter per topic, incremented once per trigger word
      found in each non-empty text. */
  method ExtractTopics(texts: seq<Option<string>>) returns (topicCounts: map<string, nat>)
    ensures topicCounts == TopicTrends(texts)
  {
    topicCounts := map k | 0 <= k < TopicCount :: TopicName(k) := 0;
    for i := 0 to |texts|
      invariant topicCounts.Keys == TopicNames()
      invariant forall k :: 0 <= k < TopicCount ==> topicCounts[TopicName(k)] == TopicTotal(texts[..i], k)
    {
      var t := texts[i];
      assert texts[..i + 1][..i] == texts[..i];
      if t.None? || t.value == "" {
        continue;
      }
      topicCounts := AddTopicHits(topicCounts, Clean(t));
    }
    assert texts[..|texts|] == texts;
  }

  // ---------------------------------------------------------------------
  // Praises and complaints
  // ---------------------------------------------------------------------

  const PositiveWords: seq<string> := ["good", "great", "amazing", "awesome", "nice", "love", "excellent"]
  const NegativeWords: seq<string> := ["bad", "poor", "terrible", "worst", "dirty", "slow", "expensive"]

  /** At most this many excerpts are kept. */
  const MaxExcerpts: nat := 10

  /** Some word of the lexicon occurs in `c`. */
  predicate Mentions(lexicon: seq<string>, c: string) {
    exists j :: 0 <= j < |lexicon| && PyText.IsSubstring(lexicon[j], c)
  }

  /** The present, non-empty texts that `keep` accepts, in input order. */
  function Filter(texts: seq<Option<string>>, keep: string -> bool): seq<string> {
    if texts == [] then []
    else
      var t := texts[|texts| - 1];
      Filter(texts[..|texts| - 1], keep) + (if t.Some? && t.value != "" && keep(t.value) then [t.value] else [])
  }

  predicate KeepAll(s: string) {
    true
  }

  /** The non-empty texts of the batch, in order. */
  function Present(texts: seq<Option<string>>): seq<string> {
    Filter(texts, KeepAll)
  }

  /** The test of the comprehension in `extract_praises`/`extract_complaints`:
      the text, once cleaned, mentions a word of the lexicon. */
  function MentionsIn(lexicon: seq<string>): string -> bool {
    s => Mentions(lexicon, Clean(Some(s)))
  }

  /** Filtering keeps a subsequence of the present texts. */
  lemma {:induction false} FilterSubsequence(texts: seq<Option<string>>, keep: string -> bool)
    ensures PyText.IsSubsequence(Filter(texts, keep), Present(texts))
  {
    if texts != [] {
      var init := texts[..|texts| - 1];
      var t := texts[|texts| - 1];
      FilterSubsequence(init, keep);
      if t.Some? && t.value != "" && keep(t.value) {
        assert Present(texts) == Present(init) + [t.value];
        PyText.SubsequenceExtend(Filter(init, keep), Present(init), t.value);
      } else if t.Some? && t.value != "" {
        assert Present(texts) == Present(init) + [t.value];
        assert Filter(texts, keep) == Filter(init, keep);
        PyText.SubsequenceGrow(Filter(init, keep), Present(init), t.value);
      } else {
        assert Present(texts) == Present(init);
        assert Filter(texts, keep) == Filter(init, keep);
      }
    }
  }

  /** Everything kept is non-empty and accepted by `keep`. */
  lemma {:induction false} FilterSound(texts: seq<Option<string>>, keep: string -> bool)
    ensures forall e :: e in Filter(texts, keep) ==> e != "" && keep(e)
  {
    if texts != [] {
      FilterSound(texts[..|texts| - 1], keep);
    }
  }

  /** Every present, non-empty text that `keep` accepts is kept. */
  lemma {:induction false} FilterComplete(texts: seq<Option<string>>, keep: string -> bool)
    ensures forall i :: 0 <= i < |texts| && texts[i].Some? && texts[i].value != "" && keep(texts[i].value) ==>
              texts[i].value in Filter(texts, keep)
  {
    if texts != [] {
      var init := texts[..|texts| - 1];
      FilterComplete(init, keep);
      forall i | 0 <= i < |texts| && texts[i].Some? && texts[i].value != "" && keep(texts[i].value)
        ensures texts[i].value in Filter(texts, keep)
      {
        if i < |init| {
          assert init[i] == texts[i];
        }
      }
    }
  }

  /** The first `MaxExcerpts` texts that `keep` accepts. */
  function FirstKept(texts: seq<Option<string>>, keep: string -> bool): seq<string> {
    var m := Filter(texts, keep);
    if |m| <= MaxExcerpts then m else m[..MaxExcerpts]
  }

  /** At most `MaxExcerpts` present texts, in order, each accepted by `keep`;
      when fewer were kept, all accepted texts are among them. */
  lemma FirstKeptSpec(texts: seq<Option<string>>, keep: string -> bool)
    ensures var r := FirstKept(texts, keep);
      && |r| <= MaxExcerpts
      && PyText.IsSubsequence(r, Present(texts))
      && (forall e :: e in r ==> e != "" && keep(e))
      && (|r| < MaxExcerpts ==>
            forall i :: 0 <= i < |texts| && texts[i].Some? && texts[i].value != "" && keep(texts[i].value) ==>
              texts[i].value in r)
  {
    var m := Filter(texts, keep);
    FilterSubsequence(texts, keep);
    FilterSound(texts, keep);
    FilterComplete(texts, keep);
    if |m| > MaxExcerpts {
      PyText.SubsequencePrefix(m, Present(texts), MaxExcerpts);
      forall e | e in m[..MaxExcerpts] ensures e in m {
        var k :| 0 <= k < MaxExcerpts && m[k] == e;
      }
    }
  }

  /** Scanning one more text: it is kept exactly when fewer than
      `MaxExcerpts` texts were kept so far and it passes the test. With
      `FirstKept([], keep) == []` this determines the result: the first
      `MaxExcerpts` passing texts, in order, duplicates included. */
  lemma FirstKeptAppend(texts: seq<Option<string>>, t: Option<string>, keep: string -> bool)
    ensures FirstKept([], keep) == []
    ensures FirstKept(texts + [t], keep) ==
      if |FirstKept(texts, keep)| < MaxExcerpts && t.Some? && t.value != "" && keep(t.value)
      then FirstKept(texts, keep) + [t.value]
      else FirstKept(texts, keep)
  {
    var longer := texts + [t];
    assert longer[..|longer| - 1] == texts && longer[|longer| - 1] == t;
    var m := Filter(texts, keep);
    var m' := Filter(longer, keep);
    assert m' == m + (if t.Some? && t.value != "" && keep(t.value) then [t.value] else []);
    if |m| >= MaxExcerpts {
      assert m'[..MaxExcerpts] == m[..MaxExcerpts];
    }
  }

  /** What `extract_praises` / `extract_complaints` return: at most 10 of the
      non-empty input texts, unmodified and in input order, each mentioning a
      lexicon word once cleaned; when fewer than 10 were returned, every
      matching text is among them. */
  function Excerpts(texts: seq<Option<string>>, lexicon: seq<string>): seq<string> {
    FirstKept(texts, MentionsIn(lexicon))
  }

  lemma ExcerptsSpec(texts: seq<Option<string>>, lexicon: seq<string>)
    ensures var r := Excerpts(texts, lexicon);
      && |r| <= MaxExcerpts
      && PyText.IsSubsequence(r, Present(texts))
      && (forall e :: e in r ==> e != "" && Mentions(lexicon, Clean(Some(e))))
      && (|r| < MaxExcerpts ==>
            forall i :: (0 <= i < |texts| && texts[i].Some? && texts[i].value != "" &&
                         Mentions(lexicon, Clean(texts[i]))) ==> texts[i].value in r)
  {
    var keep := MentionsIn(lexicon);
    FirstKeptSpec(texts, keep);
    forall i | 0 <= i < |texts| && texts[i].Some? && texts[i].value != "" && Mentions(lexicon, Clean(texts[i]))
      ensures keep(texts[i].value)
    {
      assert texts[i] == Some(texts[i].value);
    }
  }

  /** `extract_praises` / `extract_complaints` scan the batch in order: a text
      is added exactly when fewer than 10 were found so far and its clean form
      mentions a lexicon word; an empty batch gives no excerpts. */
  lemma ExcerptsAppend(texts: seq<Option<string>>, t: Option<string>, lexicon: seq<string>)
    ensures Excerpts([], lexicon) == []
    ensures Excerpts(texts + [t], lexicon) ==
      if |Excerpts(texts, lexicon)| < MaxExcerpts && t.Some? && t.value != "" && Mentions(lexicon, Clean(t))
      then Excerpts(texts, lexicon) + [t.value]
      else Excerpts(texts, lexicon)
  {
    FirstKeptAppend(texts, t, MentionsIn(lexicon));
    if t.Some? {
      assert t == Some(t.value);
      assert MentionsIn(lexicon)(t.value) == Mentions(lexicon, Clean(t));
    }
  }

  /** The loop of `extract_praises` / `extract_complaints`: append every
      present, non-empty text that the test accepts. */
  method CollectTexts(texts: seq<Option<string>>, keep: string -> bool) returns (results: seq<string>)
    ensures results == Filter(texts, keep)
  {
    results := [];
    for i := 0 to |texts|
      invariant results == Filter(texts[..i], keep)
    {
      assert texts[..i + 1][..i] == texts[..i];
      var t := texts[i];
      if t.Some? && t.value != "" && keep(t.value) {
        results := results + [t.value];
      }
    }
    assert texts[..|texts|] == texts;
  }

  /** `extract_praises` / `extract_complaints` for a given lexicon: the texts
      mentioning it, then `results[:10]`. */
  method SelectExcerpts(texts: seq<Option<string>>, lexicon: seq<string>) returns (excerpts: seq<string>)
    ensures excerpts == Excerpts(texts, lexicon)
    ensures |excerpts| <= MaxExcerpts && PyText.IsSubsequence(excerpts, Present(texts))
    ensures forall e :: e in excerpts ==> e != "" && Mentions(lexicon, Clean(Some(e)))
  {
    var results := CollectTexts(texts, MentionsIn(lexicon));
    excerpts := if |results| <= MaxExcerpts then results else results[..MaxExcerpts];
    ExcerptsSpec(texts, lexicon);
  }

  /** `extract_praises`. */
  method ExtractPraises(texts: seq<Option<string>>) returns (praises: seq<string>)
    ensures praises == Excerpts(texts, PositiveWords)
    ensures |praises| <= MaxExcerpts && PyText.IsSubsequence(praises, Present(texts))
  {
    praises := SelectExcerpts(texts, PositiveWords);
  }

  /** `extract_complaints`. */
  method ExtractComplaints(texts: seq<Option<string>>) returns (complaints: seq<string>)
    ensures complaints == Excerpts(texts, NegativeWords)
    ensures |complaints| <= MaxExcerpts && PyText.IsSubsequence(complaints, Present(texts))
  {
    complaints := SelectExcerpts(texts, NegativeWords);
  }

  // ---------------------------------------------------------------------
  // Insights
  // ---------------------------------------------------------------------

  const PositiveVerdict: string := "Overall customer sentiment is positive."
  const NegativeVerdict: string := "Customer sentiment is negative \U{2014} major improvements required."
  const NeutralVerdict: string := "Customer sentiment is neutral."

  /** The first sentence, chosen by the average score with strict bounds at 0.2. */
  function Verdict(avg: real): string {
    if avg > 0.2 then PositiveVerdict else if avg < -0.2 then NegativeVerdict else NeutralVerdict
  }

  function TopicSentence(topic: string): string {
    "The most discussed topic is '" + topic + "'."
  }

  /** Every topic has a counter in `trends`. */
  predicate HasTopics(trends: map<string, nat>) {
    forall k :: 0 <= k < TopicCount ==> TopicName(k) in trends
  }

  /** `max(topic_trends, key=...)` over the first `k` topics in lexicon order:
      the index of the first topic with the largest count. */
  function TopIndex(trends: map<string, nat>, k: nat): (b: nat)
    requires 1 <= k <= TopicCount && HasTopics(trends)
    ensures b < k
    ensures forall q :: 0 <= q < k ==> trends[TopicName(q)] <= trends[TopicName(b)]
    ensures forall q :: 0 <= q < b ==> trends[TopicName(q)] < trends[TopicName(b)]
  {
    if k == 1 then 0
    else
      var b := TopIndex(trends, k - 1);
      if trends[TopicName(k - 1)] > trends[TopicName(b)] then k - 1 else b
  }

  /** `generate_ai_insights`: the verdict, then, when some topic was mentioned
      at all, the sentence naming the first topic with the largest count,
      joined by one space. */
  method GenerateInsights(trends: map<string, nat>, avg: real) returns (text: string)
    requires trends.Keys == TopicNames()
    ensures HasTopics(trends)
    ensures var top := TopicName(TopIndex(trends, TopicCount));
      text == if trends[top] > 0 then Verdict(avg) + " " + TopicSentence(top) else Verdict(avg)
    ensures forall key :: key in trends ==> trends[key] <= trends[TopicName(TopIndex(trends, TopicCount))]
  {
    assert HasTopics(trends);
    var b := TopIndex(trends, TopicCount);
    forall key | key in trends ensures trends[key] <= trends[TopicName(b)] {
      var k :| 0 <= k < TopicCount && TopicName(k) == key;
    }
    var insights: seq<string> := [];
    if avg > 0.2 {
      insights := insights + [PositiveVerdict];
    } else if avg < -0.2 {
      insights := insights + [NegativeVerdict];
    } else {
      insights := insights + [NeutralVerdict];
    }
    var topTopic := TopicName(TopIndex(trends, TopicCount));
    if trends[topTopic] > 0 {
      insights := insights + [TopicSentence(topTopic)];
    }
    text := PyText.Join(" ", insights);
    assert |insights| == 1 ==> text == insights[0];
    assert |insights| == 2 ==> text == insights[0] + " " + insights[1] by {
      if |insights| == 2 {
        assert insights[1..] == [insights[1]];
        assert PyText.Join(" ", insights[1..]) == insights[1];
      }
    }
  }

  // ---------------------------------------------------------------------
  // The pipeline
  // ---------------------------------------------------------------------

  /** One input record: `text` and `rating` are `None` when the key is absent. */
  datatype ReviewRecord = ReviewRecord(text: Option<string>, rating: Option<string>)

  /** The rating string used when a record has no `"rating"` key. */
  const DefaultRating: string := "0 stars"

  /** `int(rating_str.split()[0])` does not raise. */
  predicate RatingParses(rating: Option<string>) {
    var s := rating.GetOr(DefaultRating);
    PyText.Split(s) != [] && PyInt.IsIntLiteral(PyText.Split(s)[0])
  }

  /** The numeric rating of a record: the integer value of the first
      whitespace token of its rating string. */
  function RatingOf(r: ReviewRecord): int
    requires RatingParses(r.rating)
  {
    PyInt.LiteralValue(PyText.Split(r.rating.GetOr(DefaultRating))[0])
  }

  /** A record without a rating counts as rating 0, hence as negative whatever its text. */
  lemma MissingRatingIsNegative(r: ReviewRecord, scorer: string -> real)
    requires r.rating.None?
    ensures RatingParses(r.rating) && RatingOf(r) == 0
    ensures Classify(SentimentScore(r.text, scorer), RatingOf(r)) == Neg
  {
    var zero := PyInt.IntToString(0);
    PyInt.IntToStringRoundTrip(0);
    assert zero == "0";
    assert DefaultRating == zero + " " + "stars";
    PyText.SplitFirstWord(zero, "stars");
  }

  predicate AllRatingsParse(reviews: seq<ReviewRecord>) {
    forall i :: 0 <= i < |reviews| ==> RatingParses(reviews[i].rating)
  }

  /** The numeric rating of every record, in order (the `ratings` list). */
  function RatingsOf(reviews: seq<ReviewRecord>): (ratings: seq<int>)
    requires AllRatingsParse(reviews)
    ensures |ratings| == |reviews| && forall i :: 0 <= i < |reviews| ==> ratings[i] == RatingOf(reviews[i])
  {
    seq(|reviews|, i requires 0 <= i < |reviews| && AllRatingsParse(reviews) => RatingOf(reviews[i]))
  }

  /** The class of each text with its rating, in order. */
  function ClassesOf(texts: seq<Option<string>>, ratings: seq<int>, scorer: string -> real): (cs: seq<Sentiment>)
    requires |texts| == |ratings|
    ensures |cs| == |texts|
    ensures forall i :: 0 <= i < |texts| ==> cs[i] == Classify(SentimentScore(texts[i], scorer), ratings[i])
  {
    seq(|texts|, i requires 0 <= i < |texts| && |texts| == |ratings| => Classify(SentimentScore(texts[i], scorer), ratings[i]))
  }

  /** Number of records counted in class `s`. */
  function CountLabel(reviews: seq<ReviewRecord>, scorer: string -> real, s: Sentiment): nat
    requires AllRatingsParse(reviews)
  {
    multiset(ClassesOf(TextsOf(reviews), RatingsOf(reviews), scorer))[s]
  }

  /** Every element of a list of classes is in exactly one class. */
  lemma {:induction false} ClassesConserve(cs: seq<Sentiment>)
    ensures multiset(cs)[Pos] + multiset(cs)[Neg] + multiset(cs)[Neu] == |cs|
  {
    if cs != [] {
      var init := cs[..|cs| - 1];
      ClassesConserve(init);
      var x := cs[|cs| - 1];
      assert cs == init + [x];
      assert multiset(cs) == multiset(init) + multiset{x};
      match x
      case Pos =>
      case Neg =>
      case Neu =>
    }
  }

  /** Every record is counted in exactly one class. */
  lemma CountsConserve(reviews: seq<ReviewRecord>, scorer: string -> real)
    requires AllRatingsParse(reviews)
    ensures CountLabel(reviews, scorer, Pos) + CountLabel(reviews, scorer, Neg) + CountLabel(reviews, scorer, Neu) == |reviews|
  {
    ClassesConserve(ClassesOf(TextsOf(reviews), RatingsOf(reviews), scorer));
  }

  function TextsOf(reviews: seq<ReviewRecord>): (texts: seq<Option<string>>)
    ensures |texts| == |reviews| && forall i :: 0 <= i < |reviews| ==> texts[i] == reviews[i].text
  {
    seq(|reviews|, i requires 0 <= i < |reviews| => reviews[i].text)
  }

  function Sum(xs: seq<real>): real {
    if xs == [] then 0.0 else Sum(xs[..|xs| - 1]) + xs[|xs| - 1]
  }

  /** The per-record polarity scores. */
  function Scores(texts: seq<Option<string>>, scorer: string -> real): (scores: seq<real>)
    ensures |scores| == |texts| && forall i :: 0 <= i < |texts| ==> scores[i] == SentimentScore(texts[i], scorer)
  {
    seq(|texts|, i requires 0 <= i < |texts| => SentimentScore(texts[i], scorer))
  }

  /** `sum(scores) / len(scores)`. */
  function Mean(xs: seq<real>): real
    requires xs != []
  {
    Sum(xs) / (|xs| as real)
  }

  lemma {:induction false} SumBounds(xs: seq<real>, lo: real, hi: real)
    requires forall i :: 0 <= i < |xs| ==> lo <= xs[i] <= hi
    ensures (|xs| as real) * lo <= Sum(xs) <= (|xs| as real) * hi
  {
    if xs != [] {
      var init := xs[..|xs| - 1];
      SumBounds(init, lo, hi);
      assert (|xs| as real) * lo == (|init| as real) * lo + lo;
      assert (|xs| as real) * hi == (|init| as real) * hi + hi;
    }
  }

  /** The mean of scores that lie in `[lo, hi]` lies in `[lo, hi]`. */
  lemma MeanBounds(xs: seq<real>, lo: real, hi: real)
    requires xs != []
    requires forall i :: 0 <= i < |xs| ==> lo <= xs[i] <= hi
    ensures lo <= Mean(xs) <= hi
  {
    SumBounds(xs, lo, hi);
    var n := |xs| as real;
    assert Sum(xs) / n >= (n * lo) / n;
    assert Sum(xs) / n <= (n * hi) / n;
  }

  /** A scorer with values in `[-1, 1]`, like TextBlob's polarity, gives a
      trend score (the mean rounded to three places) in `[-1, 1]`; absent
      and empty texts score 0. */
  lemma TrendScoreInRange(texts: seq<Option<string>>, scorer: string -> real)
    requires texts != []
    requires forall t :: -1.0 <= scorer(t) <= 1.0
    ensures -1.0 <= PyInt.Round3(Mean(Scores(texts, scorer))) <= 1.0
  {
    var xs := Scores(texts, scorer);
    forall i | 0 <= i < |xs| ensures -1.0 <= xs[i] <= 1.0 {
      assert xs[i] == SentimentScore(texts[i], scorer);
    }
    MeanBounds(xs, -1.0, 1.0);
    PyInt.Round3Bounds(Mean(xs), -1000, 1000);
  }

  /** The `TrendLog` record. */
  datatype TrendLog = TrendLog(
    businessId: string, week: int, month: int, sentimentScore: real, topicTrends: map<string, nat>)

  /** The `AIResult` record. */
  datatype AIResult = AIResult(
    businessId: string,
    sentimentPos: nat, sentimentNeg: nat, sentimentNeu: nat,
    topTopics: map<string, nat>,
    keywords: seq<string>,
    topPraises: seq<string>, topComplaints: seq<string>,
    aiInsights: string)

  /** The first loop of `analyze_reviews`: each record's text, and its
      rating string's first token read as an integer. */
  method ReadRecords(reviews: seq<ReviewRecord>) returns (texts: seq<Option<string>>, ratings: seq<int>)
    requires AllRatingsParse(reviews)
    ensures texts == TextsOf(reviews) && ratings == RatingsOf(reviews)
  {
    texts, ratings := [], [];
    for i := 0 to |reviews|
      invariant |texts| == |ratings| == i
      invariant forall j :: 0 <= j < i ==> texts[j] == reviews[j].text && ratings[j] == RatingOf(reviews[j])
    {
      var r := reviews[i];
      texts := texts + [r.text];
      var ratingStr := r.rating.GetOr(DefaultRating);
      var ratingNum := PyInt.LiteralValue(PyText.Split(ratingStr)[0]);
      ratings := ratings + [ratingNum];
    }
  }

  /** The second loop of `analyze_reviews`: score every text, classify it with
      its rating, and count the classes. */
  method CountSentiments(texts: seq<Option<string>>, ratings: seq<int>, scorer: string -> real)
    returns (pos: nat, neg: nat, neu: nat, scores: seq<real>)
    requires |texts| == |ratings|
    ensures pos == multiset(ClassesOf(texts, ratings, scorer))[Pos]
    ensures neg == multiset(ClassesOf(texts, ratings, scorer))[Neg]
    ensures neu == multiset(ClassesOf(texts, ratings, scorer))[Neu]
    ensures scores == Scores(texts, scorer)
  {
    pos, neg, neu := 0, 0, 0;
    scores := [];
    ghost var classes := ClassesOf(texts, ratings, scorer);
    for i := 0 to |texts|
      invariant |scores| == i
      invariant forall j :: 0 <= j < i ==> scores[j] == SentimentScore(texts[j], scorer)
      invariant pos == multiset(classes[..i])[Pos]
      invariant neg == multiset(classes[..i])[Neg]
      invariant neu == multiset(classes[..i])[Neu]
    {
      assert classes[..i + 1] == classes[..i] + [classes[i]];
      var sc := SentimentScore(texts[i], scorer);
      scores := scores + [sc];
      var sentiment := Classify(sc, ratings[i]);
      if sentiment == Pos {
        pos := pos + 1;
      } else if sentiment == Neg {
        neg := neg + 1;
      } else {
        neu := neu + 1;
      }
    }
    assert classes[..|classes|] == classes;
  }

  /** `analyze_reviews`: parse the records, score and classify each, average
      the scores, and run every extractor over the texts. */
  method AnalyzeReviews(businessId: string, reviews: seq<ReviewRecord>, scorer: string -> real, week: int, month: int)
    returns (trend: TrendLog, result: AIResult)
    requires reviews != []
    requires AllRatingsParse(reviews)
    ensures result.sentimentPos + result.sentimentNeg + result.sentimentNeu == |reviews|
    ensures result.sentimentPos == CountLabel(reviews, scorer, Pos)
    ensures result.sentimentNeg == CountLabel(reviews, scorer, Neg)
    ensures result.sentimentNeu == CountLabel(reviews, scorer, Neu)
    ensures trend.sentimentScore == PyInt.Round3(Mean(Scores(TextsOf(reviews), scorer)))
    ensures trend.topicTrends == result.topTopics == TopicTrends(TextsOf(reviews))
    ensures result.keywords == Keywords(TextsOf(reviews), 10) && |result.keywords| <= 10
    ensures result.topPraises == Excerpts(TextsOf(reviews), PositiveWords) && |result.topPraises| <= MaxExcerpts
    ensures result.topComplaints == Excerpts(TextsOf(reviews), NegativeWords) && |result.topComplaints| <= MaxExcerpts
    ensures var top := TopicName(TopIndex(result.topTopics, TopicCount));
      var verdict := Verdict(Mean(Scores(TextsOf(reviews), scorer)));
      result.aiInsights == if result.topTopics[top] > 0 then verdict + " " + TopicSentence(top) else verdict
    ensures trend.businessId == result.businessId == businessId
    ensures trend.week == week && trend.month == month
  {
    var texts, ratings := ReadRecords(reviews);
    var pos, neg, neu, scores := CountSentiments(texts, ratings, scorer);
    CountsConserve(reviews, scorer);

    var avgSentiment := Sum(scores) / (|scores| as real);
    assert avgSentiment == Mean(Scores(TextsOf(reviews), scorer));

    var topicTrends := ExtractTopics(texts);
    var keywords := ExtractKeywords(texts, 10);
    var praises := ExtractPraises(texts);
    var complaints := ExtractComplaints(texts);
    var insights := GenerateInsights(topicTrends, avgSentiment);

    trend := TrendLog(businessId, week, month, PyInt.Round3(avgSentiment), topicTrends);
    result := AIResult(businessId, pos, neg, neu, topicTrends, keywords, praises, complaints, insights);
  }
}
