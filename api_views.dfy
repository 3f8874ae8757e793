/**
 * The logic helpers of the dashboard API: the tolerant rating parser, the
 * fallback keyword counter, the rating-to-label rules of the review list and
 * of scraped reviews, the escalations figure, and the part of the pipeline
 * runner that turns stored reviews into the records the analysis reads.
 */
module ApiViews {
  import opened Wrappers
  import PyText
  import PyInt
  import Counting
  import AiAnalysis

  // ---------------------------------------------------------------------
  // Ratings
  // ---------------------------------------------------------------------

  /** A stored or scraped rating, by its Python type; `OtherRating` stands
      for `None` and every value that is not an `int`, `float` or `str`. */
  datatype RatingValue = IntRating(i: int) | FloatRating(x: real) | StrRating(s: string) | OtherRating

  /** Index of the first ASCII digit of `s`, or `|s|` when there is none. */
  function FirstDigit(s: string): (i: nat)
    ensures i <= |s|
  {
    if s == [] || PyInt.IsDigit(s[0]) then 0 else 1 + FirstDigit(s[1..])
  }

  /** Length of the run of digits at the start of `s`. */
  function DigitRun(s: string): (n: nat)
    ensures n <= |s|
  {
    if s == [] || !PyInt.IsDigit(s[0]) then 0 else 1 + DigitRun(s[1..])
  }

  lemma {:induction false} FirstDigitFacts(s: string)
    ensures forall j :: 0 <= j < FirstDigit(s) ==> !PyInt.IsDigit(s[j])
    ensures FirstDigit(s) < |s| ==> PyInt.IsDigit(s[FirstDigit(s)])
  {
    if s != [] && !PyInt.IsDigit(s[0]) {
      FirstDigitFacts(s[1..]);
    }
  }

  lemma {:induction false} DigitRunFacts(s: string)
    ensures forall j :: 0 <= j < DigitRun(s) ==> PyInt.IsDigit(s[j])
    ensures DigitRun(s) < |s| ==> !PyInt.IsDigit(s[DigitRun(s)])
  {
    if s != [] && PyInt.IsDigit(s[0]) {
      DigitRunFacts(s[1..]);
    }
  }

  /** `re.search(r"\d+", s)`: the bounds `(start, end)` of the match. */
  function DigitSpan(s: string): (m: Option<(nat, nat)>)
    ensures m.Some? ==> m.value.0 < m.value.1 <= |s|
  {
    var i := FirstDigit(s);
    if i == |s| then None
    else
      FirstDigitFacts(s);
      Some((i, i + 1 + DigitRun(s[i + 1..])))
  }

  /** The match is the leftmost maximal run of digits, and there is none
      exactly when `s` holds no digit. */
  lemma DigitSpanSpec(s: string)
    ensures DigitSpan(s).None? <==> forall j :: 0 <= j < |s| ==> !PyInt.IsDigit(s[j])
    ensures DigitSpan(s).Some? ==>
      var (i, k) := DigitSpan(s).value;
      && (forall j :: 0 <= j < i ==> !PyInt.IsDigit(s[j]))
      && (forall j :: i <= j < k ==> PyInt.IsDigit(s[j]))
      && (k == |s| || !PyInt.IsDigit(s[k]))
  {
    FirstDigitFacts(s);
    var i := FirstDigit(s);
    if i < |s| {
      DigitRunFacts(s[i + 1..]);
    }
  }

  /** `int(match.group())`: the decimal value of the matched digits. */
  function MatchValue(s: string): (v: nat)
    requires DigitSpan(s).Some?
  {
    var (i, k) := DigitSpan(s).value;
    DigitSpanSpec(s);
    PyInt.GroupValue(s[i..k])
  }

  /** `_parse_rating`: never fails; an `int` is returned unchanged, a `float`
      is rounded to the nearest integer, a string gives the value of its first
      run of digits (so never a negative number), and anything else gives 0. */
  function ParseRating(v: RatingValue): (r: int)
    ensures v.IntRating? ==> r == v.i
    ensures v.FloatRating? ==> -0.5 <= v.x - r as real <= 0.5
    ensures v.StrRating? ==> r >= 0
    ensures v.StrRating? && (forall j :: 0 <= j < |v.s| ==> !PyInt.IsDigit(v.s[j])) ==> r == 0
    ensures v.OtherRating? ==> r == 0
  {
    match v
    case IntRating(i) => i
    case FloatRating(x) => PyInt.RoundHalfEven(x)
    case StrRating(s) =>
      DigitSpanSpec(s);
      if DigitSpan(s).None? then 0 else MatchValue(s)
    case OtherRating => 0
  }

  /** A minus sign is not part of the digits `re.search` finds. */
  lemma NegativeStringRating()
    ensures ParseRating(StrRating("-3 stars")) == 3
  {
    var s := "-3 stars";
    assert FirstDigit(s) == 1 by {
      assert !PyInt.IsDigit(s[0]) && PyInt.IsDigit(s[1]);
      assert s[1..][0] == '3';
    }
    assert s[2..] == " stars";
    assert DigitRun(s[2..]) == 0;
    assert s[1..2] == "3";
    assert PyInt.GroupValue("3") == 3 by {
      assert "3"[..0] == [];
    }
  }

  /** Only the first run of digits counts: `"4.5 stars"` gives 4. */
  lemma DecimalStringRating()
    ensures ParseRating(StrRating("4.5 stars")) == 4
  {
    var s := "4.5 stars";
    assert FirstDigit(s) == 0;
    assert s[1..][0] == '.';
    assert DigitRun(s[1..]) == 0;
    assert s[0..1] == "4";
    assert PyInt.GroupValue("4") == 4 by {
      assert "4"[..0] == [];
    }
  }

  /** `round` sends halves to the even neighbour: 2.5 gives 2, 3.5 gives 4. */
  lemma FloatRatingTies()
    ensures ParseRating(FloatRating(2.5)) == 2
    ensures ParseRating(FloatRating(3.5)) == 4
  {
    assert (2.5).Floor == 2;
    assert (3.5).Floor == 3;
  }

  // ---------------------------------------------------------------------
  // Fallback keywords
  // ---------------------------------------------------------------------

  const Punctuation: set<char> := {'.', ',', '!', '?'}

  /** `w.lower().strip(".,!?")`. */
  function NormalizeWord(w: string): string {
    PyText.Strip(PyText.Lower(w), Punctuation)
  }

  /** `[w.lower().strip(".,!?") for w in tokens if len(w) > 3]`. */
  function LongWords(tokens: seq<string>): seq<string> {
    if tokens == [] then []
    else
      var w := tokens[|tokens| - 1];
      LongWords(tokens[..|tokens| - 1]) + (if |w| > 3 then [NormalizeWord(w)] else [])
  }

  /** `v` is the normalised form of one of `tokens` longer than three characters. */
  predicate FromLongToken(tokens: seq<string>, v: string) {
    exists k :: 0 <= k < |tokens| && |tokens[k]| > 3 && NormalizeWord(tokens[k]) == v
  }

  /** Every word kept comes from a token longer than three characters. */
  lemma {:induction false} LongWordsOrigin(tokens: seq<string>)
    ensures forall v :: v in LongWords(tokens) ==>
      exists k :: 0 <= k < |tokens| && |tokens[k]| > 3 && NormalizeWord(tokens[k]) == v
  {
    if tokens != [] {
      var init := tokens[..|tokens| - 1];
      LongWordsOrigin(init);
      forall v | v in LongWords(tokens)
        ensures exists k :: 0 <= k < |tokens| && |tokens[k]| > 3 && NormalizeWord(tokens[k]) == v
      {
        if v in LongWords(init) {
          var k :| 0 <= k < |init| && |init[k]| > 3 && NormalizeWord(init[k]) == v;
          assert tokens[k] == init[k];
        } else {
          assert tokens[|tokens| - 1] == tokens[|tokens| - 1];
        }
      }
    }
  }

  /** The whitespace tokens of `" ".join(filter(None, [r.text or "" ...]))`. */
  function KeywordTokens(texts: seq<Option<string>>): seq<string> {
    PyText.Split(PyText.Join(" ", AiAnalysis.Present(texts)))
  }

  /** Joining the texts with spaces before splitting gives the words of each
      text in turn. */
  lemma KeywordTokensEach(texts: seq<Option<string>>)
    ensures KeywordTokens(texts) == PyText.SplitEach(AiAnalysis.Present(texts))
  {
    PyText.SplitJoin(AiAnalysis.Present(texts));
  }

  /** A further review adds the words of its text at the end; a review
      without text, or with an empty one, adds nothing. */
  lemma KeywordTokensAppend(texts: seq<Option<string>>, t: Option<string>)
    ensures KeywordTokens(texts + [t])
         == KeywordTokens(texts) + (if t.Some? && t.value != "" then PyText.Split(t.value) else [])
  {
    var more := texts + [t];
    assert more[..|more| - 1] == texts && more[|more| - 1] == t;
    KeywordTokensEach(texts);
    KeywordTokensEach(more);
    if t.Some? && t.value != "" {
      assert AiAnalysis.Present(more) == AiAnalysis.Present(texts) + [t.value];
      PyText.SplitEachAppend(AiAnalysis.Present(texts), t.value);
    } else {
      assert AiAnalysis.Present(more) == AiAnalysis.Present(texts) + [];
      assert AiAnalysis.Present(more) == AiAnalysis.Present(texts);
    }
  }

  /** The counted words of `_aggregate_keywords`. */
  function AggregatedWords(texts: seq<Option<string>>): seq<string> {
    LongWords(KeywordTokens(texts))
  }

  /** `_aggregate_keywords`: the `(word, count)` pairs of `most_common(5)`. */
  function AggregateKeywords(texts: seq<Option<string>>): (r: seq<(string, nat)>)
    ensures |r| <= 5
  {
    Counting.Pairs(Counting.MostCommon(AggregatedWords(texts), 5))
  }

  /** At most five distinct words with their true counts, counts never
      increasing and equal counts in first-occurrence order; each word is a
      normalised token longer than three characters, and a word left out
      comes after every word kept: it occurs less often, or as often but
      later. */
  lemma AggregateKeywordsSpec(texts: seq<Option<string>>)
    ensures var r, words, tokens := AggregateKeywords(texts), AggregatedWords(texts), KeywordTokens(texts);
      && |r| <= 5
      && (forall i, j :: 0 <= i < j < |r| ==> r[i].1 >= r[j].1 && r[i].0 != r[j].0)
      && (forall i :: 0 <= i < |r| ==> r[i].0 in words && r[i].1 == Counting.Occurrences(words, r[i].0))
      && (forall i, j :: 0 <= i < j < |r| ==>
            r[i].1 > r[j].1 ||
            (r[i].1 == r[j].1 && Counting.FirstIndex(words, r[i].0) < Counting.FirstIndex(words, r[j].0)))
      && (forall i :: 0 <= i < |r| ==> FromLongToken(tokens, r[i].0))
      && (forall w :: w in words && (forall i :: 0 <= i < |r| ==> r[i].0 != w) ==>
            |r| == 5 && forall i :: 0 <= i < |r| ==>
              Counting.Occurrences(words, w) < r[i].1 ||
              (Counting.Occurrences(words, w) == r[i].1 && Counting.FirstIndex(words, r[i].0) < Counting.FirstIndex(words, w)))
  {
    var r, words, tokens := AggregateKeywords(texts), AggregatedWords(texts), KeywordTokens(texts);
    assert words == LongWords(tokens);
    Counting.MostCommonPairs(words, 5);
    PairsOrigin(tokens, r);
  }

  /** Pairs on counted words name words that come from long tokens. */
  lemma PairsOrigin(tokens: seq<string>, r: seq<(string, nat)>)
    requires forall i :: 0 <= i < |r| ==> r[i].0 in LongWords(tokens)
    ensures forall i :: 0 <= i < |r| ==> FromLongToken(tokens, r[i].0)
  {
    LongWordsOrigin(tokens);
    forall i | 0 <= i < |r| ensures FromLongToken(tokens, r[i].0) {
      assert r[i].0 in LongWords(tokens);
    }
  }

  /** A single text without whitespace is a single token. */
  lemma OneTextTokens(w: string)
    requires w != [] && forall i :: 0 <= i < |w| ==> !PyText.IsSpace(w[i])
    ensures KeywordTokens([Some(w)]) == [w]
  {
    var texts := [Some(w)];
    assert AiAnalysis.Present(texts) == [w] by {
      assert texts[..|texts| - 1] == [];
      assert AiAnalysis.Filter([], AiAnalysis.KeepAll) == [];
      assert texts[|texts| - 1] == Some(w) && w != "" && AiAnalysis.KeepAll(w);
    }
    assert PyText.Join(" ", [w]) == w;
    PyText.SplitOneWord(w);
  }

  /** A long token made of punctuation normalises to the empty word. */
  lemma PunctuationWords(w: string)
    requires |w| > 3 && forall i :: 0 <= i < |w| ==> w[i] in Punctuation
    ensures LongWords([w]) == [""]
  {
    PyText.LowerWithoutUpper(w);
    PyText.StripEverything(w, Punctuation);
    var tokens := [w];
    assert tokens[..0] == [];
    assert LongWords(tokens) == LongWords(tokens[..0]) + [NormalizeWord(w)];
  }

  /** Length is checked before stripping, so a single review made of four
      or more punctuation marks yields the empty word as its only keyword. */
  lemma PunctuationKeyword(w: string)
    requires |w| > 3 && forall i :: 0 <= i < |w| ==> w[i] in Punctuation
    ensures AggregateKeywords([Some(w)]) == [("", 1)]
  {
    OneTextTokens(w);
    PunctuationWords(w);
    assert AggregatedWords([Some(w)]) == [""];
    Counting.MostCommonOfOne("", 5);
  }

  // ---------------------------------------------------------------------
  // Labels by rating
  // ---------------------------------------------------------------------

  /** Whether the review list keeps a review of rating `rating` under the
      `sentiment` query parameter; an absent, empty or unknown parameter
      keeps everything. */
  predicate FilterAdmits(sentiment: Option<string>, rating: int) {
    match sentiment
    case None => true
    case Some(s) =>
      if s == "positive" then rating >= 4
      else if s == "negative" then rating <= 2
      else if s == "neutral" then rating == 3
      else true
  }

  /** The label given to a scraped review. */
  function ScrapedLabel(rating: int): string {
    if rating >= 4 then "positive" else if rating <= 2 then "negative" else "neutral"
  }

  /** On the integers the two rules agree: the list filter for a label keeps
      exactly the ratings the scraper gives that label, so the three filters
      split every set of ratings into three disjoint parts. */
  lemma LabelRulesAgree(rating: int, name: string)
    requires name == "positive" || name == "negative" || name == "neutral"
    ensures FilterAdmits(Some(name), rating) <==> ScrapedLabel(rating) == name
  {
  }

  /** The names of `classify_sentiment`'s classes in the API. */
  function SentimentName(s: AiAnalysis.Sentiment): string {
    match s
    case Pos => "positive"
    case Neg => "negative"
    case Neu => "neutral"
  }

  /** Away from rating 3 the rating alone decides, and the API's label is the
      class `classify_sentiment` picks, whatever the polarity score. */
  lemma ScrapedLabelMatchesClassify(rating: int, score: real)
    requires rating != 3
    ensures ScrapedLabel(rating) == SentimentName(AiAnalysis.Classify(score, rating))
  {
  }

  /** At rating 3 the two can differ: the API says neutral, the analysis
      follows the polarity score. */
  lemma RatingThreeMayDiffer()
    ensures ScrapedLabel(3) == "neutral" && AiAnalysis.Classify(0.5, 3) == AiAnalysis.Pos
  {
  }

  /** The ratings the review list keeps, in order. */
  function Admitted(ratings: seq<int>, sentiment: Option<string>): (kept: seq<int>)
    ensures |kept| <= |ratings|
  {
    if ratings == [] then []
    else
      var x := ratings[|ratings| - 1];
      Admitted(ratings[..|ratings| - 1], sentiment) + (if FilterAdmits(sentiment, x) then [x] else [])
  }

  /** Adding a review at the end adds it to the list when the filter admits it. */
  lemma AdmittedStep(init: seq<int>, x: int, sentiment: Option<string>)
    ensures Admitted(init + [x], sentiment)
         == Admitted(init, sentiment) + (if FilterAdmits(sentiment, x) then [x] else [])
  {
    var ratings := init + [x];
    assert ratings[..|ratings| - 1] == init && ratings[|ratings| - 1] == x;
  }

  /** The reviews the list keeps appear in the list in their order. */
  lemma {:induction false} AdmittedOrder(ratings: seq<int>, sentiment: Option<string>)
    ensures PyText.IsSubsequence(Admitted(ratings, sentiment), ratings)
  {
    if ratings != [] {
      var init, x := ratings[..|ratings| - 1], ratings[|ratings| - 1];
      assert ratings == init + [x];
      AdmittedOrder(init, sentiment);
      AdmittedStep(init, x, sentiment);
      if FilterAdmits(sentiment, x) {
        PyText.SubsequenceExtend(Admitted(init, sentiment), init, x);
      } else {
        assert Admitted(init, sentiment) + [] == Admitted(init, sentiment);
        PyText.SubsequenceGrow(Admitted(init, sentiment), init, x);
      }
    }
  }

  /** A review is kept exactly when the filter admits its rating. */
  lemma {:induction false} AdmittedMembers(ratings: seq<int>, sentiment: Option<string>)
    ensures forall x :: x in Admitted(ratings, sentiment) <==> x in ratings && FilterAdmits(sentiment, x)
  {
    if ratings != [] {
      var init, x := ratings[..|ratings| - 1], ratings[|ratings| - 1];
      assert ratings == init + [x];
      AdmittedMembers(init, sentiment);
      AdmittedStep(init, x, sentiment);
      forall y ensures y in Admitted(ratings, sentiment) <==> y in ratings && FilterAdmits(sentiment, y) {
        assert y in ratings <==> y in init || y == x;
      }
    }
  }

  /** Filtering by one of the three labels keeps exactly the reviews the
      scraper gives that label. */
  lemma LabelledMembers(ratings: seq<int>, name: string)
    requires name == "positive" || name == "negative" || name == "neutral"
    ensures forall x :: x in Admitted(ratings, Some(name)) <==> x in ratings && ScrapedLabel(x) == name
  {
    AdmittedMembers(ratings, Some(name));
    forall x ensures FilterAdmits(Some(name), x) <==> ScrapedLabel(x) == name {
      LabelRulesAgree(x, name);
    }
  }

  /** The multiset form of `AdmittedStep`. */
  lemma AdmittedStepMultiset(init: seq<int>, x: int, sentiment: Option<string>)
    ensures multiset(Admitted(init + [x], sentiment))
         == multiset(Admitted(init, sentiment)) + (if FilterAdmits(sentiment, x) then multiset{x} else multiset{})
  {
    AdmittedStep(init, x, sentiment);
    if !FilterAdmits(sentiment, x) {
      assert Admitted(init, sentiment) + [] == Admitted(init, sentiment);
    }
  }

  /** The positive, negative and neutral lists together hold every review
      exactly once: as multisets they add up to the whole list. */
  lemma {:induction false} FilterPartition(ratings: seq<int>)
    ensures multiset(Admitted(ratings, Some("positive"))) + multiset(Admitted(ratings, Some("negative")))
          + multiset(Admitted(ratings, Some("neutral"))) == multiset(ratings)
  {
    if ratings != [] {
      var init, x := ratings[..|ratings| - 1], ratings[|ratings| - 1];
      assert ratings == init + [x];
      FilterPartition(init);
      AdmittedStepMultiset(init, x, Some("positive"));
      AdmittedStepMultiset(init, x, Some("negative"));
      AdmittedStepMultiset(init, x, Some("neutral"));
      LabelRulesAgree(x, "positive");
      LabelRulesAgree(x, "negative");
      LabelRulesAgree(x, "neutral");
      assert multiset(ratings) == multiset(init) + multiset{x};
    }
  }

  /** Counting the three lists gives the number of reviews. */
  lemma FilterPartitionLengths(ratings: seq<int>)
    ensures |Admitted(ratings, Some("positive"))| + |Admitted(ratings, Some("negative"))|
          + |Admitted(ratings, Some("neutral"))| == |ratings|
  {
    FilterPartition(ratings);
    var p, n, u := Admitted(ratings, Some("positive")), Admitted(ratings, Some("negative")),
      Admitted(ratings, Some("neutral"));
    assert |multiset(p) + multiset(n) + multiset(u)| == |multiset(p)| + |multiset(n)| + |multiset(u)|;
  }

  /** `max(0, negative // 2)`; for a positive divisor Dafny's `/` is Python's
      floor division, negative counts included. */
  function Escalations(negative: int): (e: nat)
    ensures negative >= 0 ==> 2 * e <= negative < 2 * e + 2
    ensures negative < 0 ==> e == 0
  {
    var half := negative / 2;
    if half > 0 then half else 0
  }

  // ---------------------------------------------------------------------
  // Running the pipeline
  // ---------------------------------------------------------------------

  /** A stored review as the pipeline reads it. */
  datatype StoredReview = StoredReview(text: Option<string>, rating: RatingValue)

  /** `f"{n} stars"`. */
  function StarsString(n: int): string {
    PyInt.IntToString(n) + " stars"
  }

  /** The rating string the runner builds is read back by the analysis as the
      same integer. */
  lemma StarsRoundTrip(n: int, text: Option<string>)
    ensures AiAnalysis.RatingParses(Some(StarsString(n)))
    ensures AiAnalysis.RatingOf(AiAnalysis.ReviewRecord(text, Some(StarsString(n)))) == n
  {
    PyInt.IntToStringRoundTrip(n);
    PyText.SplitFirstWord(PyInt.IntToString(n), "stars");
    assert StarsString(n) == PyInt.IntToString(n) + " " + "stars";
  }

  /** `{"text": r.text or "", "rating": f"{_parse_rating(r.rating)} stars"}`. */
  function Marshal(r: StoredReview): AiAnalysis.ReviewRecord {
    AiAnalysis.ReviewRecord(Some(r.text.GetOr("")), Some(StarsString(ParseRating(r.rating))))
  }

  /** The records handed to the analysis: one per stored review, in order,
      each with a text and a rating string the analysis reads back as the
      parsed rating of the stored review. */
  function MarshalAll(stored: seq<StoredReview>): (rs: seq<AiAnalysis.ReviewRecord>)
    ensures |rs| == |stored| && AiAnalysis.AllRatingsParse(rs)
    ensures forall i :: 0 <= i < |stored| ==>
      && rs[i].text == Some(stored[i].text.GetOr(""))
      && AiAnalysis.RatingParses(rs[i].rating)
      && AiAnalysis.RatingOf(rs[i]) == ParseRating(stored[i].rating)
  {
    var rs := seq(|stored|, i requires 0 <= i < |stored| => Marshal(stored[i]));
    assert forall i :: 0 <= i < |stored| ==> AiAnalysis.RatingParses(rs[i].rating) && AiAnalysis.RatingOf(rs[i]) == ParseRating(stored[i].rating) by {
      forall i | 0 <= i < |stored|
        ensures AiAnalysis.RatingParses(rs[i].rating) && AiAnalysis.RatingOf(rs[i]) == ParseRating(stored[i].rating)
      {
        StarsRoundTrip(ParseRating(stored[i].rating), rs[i].text);
      }
    }
    rs
  }

  /** The class of one stored review, read straight from the stored fields. */
  function StoredClass(r: StoredReview, scorer: string -> real): AiAnalysis.Sentiment {
    AiAnalysis.Classify(AiAnalysis.SentimentScore(Some(r.text.GetOr("")), scorer), ParseRating(r.rating))
  }

  /** Number of stored reviews of class `s`. */
  function CountStored(stored: seq<StoredReview>, scorer: string -> real, s: AiAnalysis.Sentiment): nat {
    multiset(seq(|stored|, i requires 0 <= i < |stored| => StoredClass(stored[i], scorer)))[s]
  }

  /** Marshalling loses nothing the counts depend on: the analysis counts the
      marshalled records as the stored reviews' own ratings and texts say. */
  lemma MarshalledCounts(stored: seq<StoredReview>, scorer: string -> real, s: AiAnalysis.Sentiment)
    ensures AiAnalysis.CountLabel(MarshalAll(stored), scorer, s) == CountStored(stored, scorer, s)
  {
    var rs := MarshalAll(stored);
    var cs := AiAnalysis.ClassesOf(AiAnalysis.TextsOf(rs), AiAnalysis.RatingsOf(rs), scorer);
    var ds := seq(|stored|, i requires 0 <= i < |stored| => StoredClass(stored[i], scorer));
    assert cs == ds;
  }

  /** A five-star and a one-star review count as one positive and one
      negative, whatever their texts say. */
  lemma FiveAndOneStar(a: Option<string>, b: Option<string>, scorer: string -> real)
    ensures var stored := [StoredReview(a, IntRating(5)), StoredReview(b, IntRating(1))];
      && CountStored(stored, scorer, AiAnalysis.Pos) == 1
      && CountStored(stored, scorer, AiAnalysis.Neg) == 1
      && CountStored(stored, scorer, AiAnalysis.Neu) == 0
  {
    var stored := [StoredReview(a, IntRating(5)), StoredReview(b, IntRating(1))];
    var cs := seq(|stored|, i requires 0 <= i < |stored| => StoredClass(stored[i], scorer));
    assert cs == [AiAnalysis.Pos, AiAnalysis.Neg];
  }

  /** A single three-star review without text scores 0 and counts as neutral. */
  lemma EmptyThreeStar(text: Option<string>, scorer: string -> real)
    requires text.None? || text == Some("")
    ensures CountStored([StoredReview(text, IntRating(3))], scorer, AiAnalysis.Neu) == 1
  {
    var stored := [StoredReview(text, IntRating(3))];
    var cs := seq(|stored|, i requires 0 <= i < |stored| => StoredClass(stored[i], scorer));
    assert cs == [AiAnalysis.Neu];
  }

  /** The analysis part of `_run_ai_pipeline`: nothing for a business without
      reviews, otherwise the analysis of the marshalled reviews. */
  method RunPipeline(businessId: string, stored: seq<StoredReview>, scorer: string -> real, week: int, month: int)
    returns (trend: Option<AiAnalysis.TrendLog>, result: Option<AiAnalysis.AIResult>)
    ensures stored == [] ==> trend.None? && result.None?
    ensures stored != [] ==> trend.Some? && result.Some?
    ensures result.Some? ==>
      && result.value.sentimentPos == CountStored(stored, scorer, AiAnalysis.Pos)
      && result.value.sentimentNeg == CountStored(stored, scorer, AiAnalysis.Neg)
      && result.value.sentimentNeu == CountStored(stored, scorer, AiAnalysis.Neu)
      && result.value.sentimentPos + result.value.sentimentNeg + result.value.sentimentNeu == |stored|
      && result.value.businessId == businessId
      && |result.value.keywords| <= 10
      && |result.value.topPraises| <= AiAnalysis.MaxExcerpts
      && |result.value.topComplaints| <= AiAnalysis.MaxExcerpts
    ensures trend.Some? ==>
      && trend.value.topicTrends == AiAnalysis.TopicTrends(AiAnalysis.TextsOf(MarshalAll(stored)))
      && trend.value.week == week && trend.value.month == month
    ensures result.Some? ==>
      var texts := AiAnalysis.TextsOf(MarshalAll(stored));
      && result.value.topTopics == AiAnalysis.TopicTrends(texts)
      && result.value.keywords == AiAnalysis.Keywords(texts, 10)
      && result.value.topPraises == AiAnalysis.Excerpts(texts, AiAnalysis.PositiveWords)
      && result.value.topComplaints == AiAnalysis.Excerpts(texts, AiAnalysis.NegativeWords)
    ensures result.Some? && trend.Some? ==>
      var texts := AiAnalysis.TextsOf(MarshalAll(stored));
      var avg := AiAnalysis.Mean(AiAnalysis.Scores(texts, scorer));
      var trends := AiAnalysis.TopicTrends(texts);
      var top := AiAnalysis.TopicName(AiAnalysis.TopIndex(trends, AiAnalysis.TopicCount));
      && trend.value.sentimentScore == PyInt.Round3(avg)
      && result.value.aiInsights ==
           if trends[top] > 0 then AiAnalysis.Verdict(avg) + " " + AiAnalysis.TopicSentence(top) else AiAnalysis.Verdict(avg)
  {
    if stored == [] {
      return None, None;
    }
    var records := MarshalAll(stored);
    var t, r := AiAnalysis.AnalyzeReviews(businessId, records, scorer, week, month);
    MarshalledCounts(stored, scorer, AiAnalysis.Pos);
    MarshalledCounts(stored, scorer, AiAnalysis.Neg);
    MarshalledCounts(stored, scorer, AiAnalysis.Neu);
    trend, result := Some(t), Some(r);
  }
}
