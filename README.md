# Review analytics: a verified model

This project models the review-analytics core of a small business-dashboard
application, in Dafny. It covers every function of `myapp/ai_analysis.py`:

- `clean` lowercases a text and keeps only ASCII letters, digits and whitespace;
- `get_sentiment_score` asks an external polarity scorer for a score;
- `classify_sentiment` decides by the star rating first and falls back to the
  score at rating 3;
- `extract_keywords` returns the most common tokens;
- `extract_topics` counts trigger words per topic over a fixed five-topic lexicon;
- `extract_praises` and `extract_complaints` return up to ten excerpts;
- `generate_ai_insights` writes a verdict sentence and names the top topic;
- the `analyze_reviews` pipeline produces the `TrendLog` and `AIResult` records.

It also covers the logic helpers of `myapp/api_views.py`:

- `_parse_rating`, the tolerant rating parser;
- `_aggregate_keywords`, the dashboard's fallback keyword counter;
- the rating-to-label rules of the review-list filter and of scraped reviews;
- the escalations figure;
- the part of `_run_ai_pipeline` that skips a business without reviews and
  turns stored reviews into `{"text", "rating": "N stars"}` records.

The modules follow the program's structure:

- `Wrappers` holds `Option`.
- `PyText` holds the Python `str` operations the code uses, on ASCII text:
  `lower`, `split()`, `strip`, `join`, `in`.
- `PyInt` holds `int(token)`, `str(n)` and `round`.
- `Counting` holds `collections.Counter(...).most_common(n)`. That is a stable
  sort by count over first-occurrence order, modelled as an insertion sort of
  `(word, count, first index)` tallies.
- `AiAnalysis` is `ai_analysis.py`.
- `ApiViews` is the helpers of `api_views.py`.

The loops of `extract_keywords`, `extract_topics`, the excerpt collectors and
the two loops of `analyze_reviews` are Dafny methods with loop invariants.
`generate_ai_insights` has no loop; it is a method that builds its list of
sentences as the source does. Each method is proved equal to a specification
function, and the properties the code promises are proved as lemmas about those
functions. The
polarity scorer is a parameter `scorer: string -> real`. The ISO week and month
of "today" are parameters of `AnalyzeReviews`.

Two preconditions of `AnalyzeReviews` come from what the code does on bad input:

- `analyze_reviews` divides by the number of scores
  (`myapp/ai_analysis.py:155`), which raises on an empty batch, so
  `AnalyzeReviews` requires a non-empty batch. `RunPipeline` shows that the
  API's runner never calls the analysis with an empty batch
  (`myapp/api_views.py:66-67`).
- `int(rating_str.split()[0])` (`myapp/ai_analysis.py:137`) raises on a rating
  string whose first token is not an integer literal, so `AnalyzeReviews`
  requires `AllRatingsParse`: every rating string starts with a token `int()`
  accepts. `ApiViews.MarshalAll` proves that the records the runner builds
  always meet this. Only a record without a `"rating"` key falls back to
  `"0 stars"`, rating 0, which `MissingRatingIsNegative` covers.

`clean` lowercases first and then removes the characters outside
`[a-zA-Z0-9\s]` (`myapp/ai_analysis.py:14`); the model does the same.

## Model

| member | source | states |
|---|---|---|
| `PyText.LowerConcat` | myapp/ai_analysis.py:14 | `str.lower` distributes over concatenation: `(a + b).lower() == a.lower() + b.lower()` |
| `PyText.LowerIdempotent` | myapp/ai_analysis.py:14 | lower-casing twice is lower-casing once, and a lower-cased string holds no upper-case letter |
| `PyText.SplitWords` | myapp/ai_analysis.py:50 | every token `split()` returns is non-empty and holds no whitespace |
| `PyText.SplitOneWord` | myapp/api_views.py:290 | a non-empty string without whitespace splits into exactly itself |
| `PyText.SplitEmpty` | myapp/ai_analysis.py:50 | the empty string has no words |
| `PyText.SplitSpaceFirst` | myapp/ai_analysis.py:50 | leading whitespace is skipped: it yields no empty word |
| `PyText.SplitWordFirst` | myapp/ai_analysis.py:50 | a string that starts with a word yields the maximal non-whitespace run first, then the words of the rest |
| `PyText.SplitAt` | myapp/ai_analysis.py:50 | whitespace at any position separates the words before it from the words after it, so runs of whitespace never produce empty words |
| `PyText.SplitAtSpace` | myapp/api_views.py:289-290 | the words of `a + c + b`, for a whitespace character `c`, are the words of `a` followed by the words of `b` |
| `PyText.SplitJoin` | myapp/api_views.py:289-290 | `" ".join(xs).split()` is the words of each string of `xs` in turn: joining with a space neither merges nor breaks words |
| `PyText.SplitEachAppend` | myapp/ai_analysis.py:46-50 | splitting one more string appends its words, as `words.extend(clean(t).split())` does |
| `PyText.IsSubstringAt` | myapp/ai_analysis.py:76 | the substring test `w in c` holds exactly when `w` occurs at some offset of `c` |
| `PyText.StripLeft` | myapp/api_views.py:290 | `lstrip(chars)` returns a suffix whose first character is not in `chars`, after a prefix made only of `chars` |
| `PyText.StripRight` | myapp/api_views.py:290 | `rstrip(chars)` returns a prefix whose last character is not in `chars`, before a suffix made only of `chars` |
| `PyText.StripEverything` | myapp/api_views.py:290 | stripping a string made only of stripped characters leaves the empty string |
| `PyInt.IntToStringRoundTrip` | myapp/api_views.py:70 | `str(n)` is always a literal `int()` accepts, and `int(str(n)) == n` for every integer |
| `PyInt.RoundHalfEven` | myapp/api_views.py:40 | `round(x)` lies within 0.5 of `x`, and an exact half goes to the even neighbour |
| `PyInt.RoundHalfEvenNearest` | myapp/api_views.py:40 | no integer is strictly nearer to `x` than `round(x)` |
| `PyInt.Round3` | myapp/ai_analysis.py:173 | `round(x, 3)` lies within 0.0005 of `x` |
| `PyInt.Round3Bounds` | myapp/ai_analysis.py:173 | rounding to three places keeps a value that lies between two multiples of 0.001 between them |
| `Counting.Distinct` | myapp/ai_analysis.py:52 | the keys of the counter: each word of the input once, and nothing else |
| `Counting.FirstIndex` | myapp/ai_analysis.py:52 | the first position of a word, the counter's insertion order |
| `Counting.Sort` | myapp/ai_analysis.py:53 | the sorted tallies are a permutation of the tallies |
| `Counting.SortRanked` | myapp/ai_analysis.py:53 | tallies with distinct first positions come out strictly ordered by count descending, then first position ascending |
| `Counting.MostCommonSpec` | myapp/ai_analysis.py:53 | `most_common(n)` keeps at most `n` tallies, and all of them when there are fewer. Each tally is a true count. The words are distinct and the order is strict. Any word left out is ranked after every word kept |
| `Counting.MostCommonWords` | myapp/ai_analysis.py:53 | the same facts stated for the list of words |
| `Counting.MostCommonPairs` | myapp/api_views.py:291 | `most_common(n)` as `(word, count)` pairs: at most `n`, distinct words of the input with their true counts, counts non-increasing and equal counts in first-occurrence order. A word left out is ranked after every kept word: it occurs fewer times, or as many times but is first seen later. Leaving a word out happens only when `n` pairs were returned |
| `Counting.MostCommonOfOne` | myapp/api_views.py:291 | a one-word list has that word once as its only common word |
| `AiAnalysis.Clean` | myapp/ai_analysis.py:11-14 | absent or empty text gives `""`; the result holds only a-z, digits and whitespace |
| `AiAnalysis.CleanConcat` | myapp/ai_analysis.py:14 | cleaning works character by character: the clean form of `a + b` is the clean form of `a` followed by that of `b` |
| `AiAnalysis.CleanChar` | myapp/ai_analysis.py:14 | one character becomes its lower case when the class `[a-zA-Z0-9\s]` accepts it and disappears otherwise |
| `AiAnalysis.CleanIdempotent` | myapp/ai_analysis.py:11-14 | cleaning a cleaned text changes nothing |
| `AiAnalysis.SentimentScore` | myapp/ai_analysis.py:20-24 | absent or empty text scores exactly 0; otherwise the score is the scorer's value on the original text |
| `AiAnalysis.Classify` | myapp/ai_analysis.py:27-39 | rating at least 4 gives positive and rating at most 2 gives negative, whatever the score. At rating 3 it is positive exactly when score > 0.2 and negative exactly when score < -0.2, so 0.2 and -0.2 themselves give neutral |
| `AiAnalysis.AllTokensOrigin` | myapp/ai_analysis.py:46-50 | a word is in the collected token list exactly when it is a token of the clean form of some input text |
| `AiAnalysis.KeywordsSpec` | myapp/ai_analysis.py:45-53 | at most `n` distinct tokens, and no more than there are distinct tokens. Each is a token of the batch. They are ordered by total count descending, ties by first occurrence. A token left out is ranked after every kept one, which happens only when `n` were kept |
| `AiAnalysis.KeywordsOrigin` | myapp/ai_analysis.py:45-53 | every keyword is a token of the clean form of some input text |
| `AiAnalysis.ExtractKeywords` | myapp/ai_analysis.py:45-53 | the loop over the texts yields exactly the specified keywords, at most `n` of them |
| `AiAnalysis.TopicNamesAre` | myapp/ai_analysis.py:59-65 | the lexicon's topics are service, food, price, cleanliness and ambience |
| `AiAnalysis.TopicNamesDistinct` | myapp/ai_analysis.py:59-65 | the five topic names are pairwise distinct |
| `AiAnalysis.Hits` | myapp/ai_analysis.py:75-77 | one text adds at most as many hits to a topic as the topic has trigger words |
| `AiAnalysis.TopicTrends` | myapp/ai_analysis.py:67-79 | the result has exactly the five topic keys, each holding its total number of trigger-word hits |
| `AiAnalysis.TopicTotalAppend` | myapp/ai_analysis.py:70-77 | topic counts add up over any split of the batch |
| `AiAnalysis.TopicTrendsAppend` | myapp/ai_analysis.py:70-77 | one more text adds to each topic the number of its trigger words found in the clean text. An absent or empty text changes nothing |
| `AiAnalysis.AddTopicHits` | myapp/ai_analysis.py:74-77 | the nested loops over topics and trigger words add to each topic's counter the number of its words found in the text, and keep the five keys |
| `AiAnalysis.ExtractTopics` | myapp/ai_analysis.py:67-79 | the method's dictionary equals `TopicTrends` of the batch |
| `AiAnalysis.FilterSubsequence` | myapp/ai_analysis.py:90-93 | the collected texts are an order-preserving subsequence of the batch's non-empty texts |
| `AiAnalysis.FilterSound` | myapp/ai_analysis.py:92 | every collected text is non-empty and passes the test |
| `AiAnalysis.FilterComplete` | myapp/ai_analysis.py:92 | every non-empty text that passes the test is collected |
| `AiAnalysis.FirstKeptSpec` | myapp/ai_analysis.py:89-102 | at most 10 texts, in input order and unmodified, each passing the test. When fewer than 10 come back, every passing text is among them |
| `AiAnalysis.ExcerptsSpec` | myapp/ai_analysis.py:85-102 | praises and complaints: at most 10 original texts, in order, each of whose clean form contains a lexicon word. When fewer than 10 come back, every such text is there |
| `AiAnalysis.FirstKeptAppend` | myapp/ai_analysis.py:90-94 | an empty batch keeps nothing; one more text is appended exactly when fewer than 10 were kept and it passes the test, so the result is the first 10 passing texts in order, duplicates included |
| `AiAnalysis.ExcerptsAppend` | myapp/ai_analysis.py:89-102 | praises and complaints of an empty batch are empty; one more text is appended exactly when fewer than 10 were found and its clean form mentions a lexicon word, so the result is the first 10 matching texts, each as often as it occurs |
| `AiAnalysis.CollectTexts` | myapp/ai_analysis.py:90-93 | the collecting loop returns exactly the filtered texts |
| `AiAnalysis.SelectExcerpts` | myapp/ai_analysis.py:89-102 | the loop and the `[:10]` slice give the specified excerpts: at most 10, in order, each mentioning a lexicon word |
| `AiAnalysis.ExtractPraises` | myapp/ai_analysis.py:89-94 | the excerpts for the positive lexicon, at most 10, in input order |
| `AiAnalysis.ExtractComplaints` | myapp/ai_analysis.py:97-102 | the excerpts for the negative lexicon, at most 10, in input order |
| `AiAnalysis.TopIndex` | myapp/ai_analysis.py:119 | `max(..., key=...)` picks a topic whose count is maximal, and every earlier topic has a strictly smaller count, so ties go to the first in lexicon order |
| `AiAnalysis.GenerateInsights` | myapp/ai_analysis.py:108-123 | for the dictionary of the five topics: the verdict for the average, with strict bounds at 0.2. The top topic has a count no smaller than any key's. When that count is positive, one space and the sentence naming that topic follow |
| `AiAnalysis.MissingRatingIsNegative` | myapp/ai_analysis.py:136-137 | a record without a rating reads as `"0 stars"`, rating 0, and is classified negative whatever its text |
| `AiAnalysis.ClassesConserve` | myapp/ai_analysis.py:150-152 | every classified review lands in exactly one of the three counters |
| `AiAnalysis.CountsConserve` | myapp/ai_analysis.py:141-152 | positive + negative + neutral equals the number of records |
| `AiAnalysis.SumBounds` | myapp/ai_analysis.py:155 | scores within `[lo, hi]` sum to a value within `n*lo` and `n*hi` |
| `AiAnalysis.MeanBounds` | myapp/ai_analysis.py:155 | the mean of scores within `[lo, hi]` lies within `[lo, hi]` |
| `AiAnalysis.TrendScoreInRange` | myapp/ai_analysis.py:155-173 | with a scorer whose values lie in [-1, 1], the trend score (the mean rounded to three places) lies in [-1, 1] |
| `AiAnalysis.ReadRecords` | myapp/ai_analysis.py:131-138 | the first loop yields the texts and parsed ratings of all records, in order |
| `AiAnalysis.CountSentiments` | myapp/ai_analysis.py:141-152 | the second loop's three counters are the class counts of the batch, and its score list holds every record's score |
| `AiAnalysis.AnalyzeReviews` | myapp/ai_analysis.py:129-190 | the counts are the class counts and sum to the batch size. The trend score is the rounded mean score. Trend and result share the topic dictionary and the business id. Keywords, praises, complaints and insights are the specified ones, and week and month are today's |
| `ApiViews.DigitSpanSpec` | myapp/api_views.py:42 | `re.search(r"\d+")` finds nothing exactly when there is no digit. Otherwise its match is the leftmost maximal run of digits |
| `ApiViews.ParseRating` | myapp/api_views.py:35-48 | an int comes back unchanged and a float within 0.5 of its value. A string gives a non-negative value, and 0 when it holds no digit. Any other value gives 0 |
| `ApiViews.NegativeStringRating` | myapp/api_views.py:42-45 | `"-3 stars"` parses as 3, because the sign is not part of the match |
| `ApiViews.DecimalStringRating` | myapp/api_views.py:42-45 | `"4.5 stars"` parses as 4, because only the first digit run counts |
| `ApiViews.FloatRatingTies` | myapp/api_views.py:40 | 2.5 parses as 2 and 3.5 as 4 |
| `ApiViews.LongWordsOrigin` | myapp/api_views.py:290 | every counted word is the lowered, stripped form of a token longer than three characters |
| `ApiViews.AggregateKeywords` | myapp/api_views.py:288-291 | at most five pairs |
| `ApiViews.AggregateKeywordsSpec` | myapp/api_views.py:288-291 | at most five distinct words, each with its true count, counts non-increasing and equal counts in first-occurrence order. Each word comes from a token longer than three characters. A word left out is ranked after every kept word: it occurs fewer times, or as many times but is first seen later. Leaving a word out happens only when five were kept |
| `ApiViews.OneTextTokens` | myapp/api_views.py:289 | a single text without whitespace is a single token |
| `ApiViews.KeywordTokensEach` | myapp/api_views.py:289-290 | the tokens of the joined texts are the words of each present text in turn |
| `ApiViews.KeywordTokensAppend` | myapp/api_views.py:289-290 | one more review appends the words of its text; a review with no text or an empty one adds nothing |
| `ApiViews.PunctuationWords` | myapp/api_views.py:290 | a token of four or more punctuation marks counts as the empty word, because the length test comes before the strip |
| `ApiViews.PunctuationKeyword` | myapp/api_views.py:288-291 | a single review made only of four or more punctuation marks yields `[("", 1)]` |
| `ApiViews.LabelRulesAgree` | myapp/api_views.py:200-206 | the review list's filter for a label admits exactly the ratings that the scraper's rule at `myapp/api_views.py:480` gives that label |
| `ApiViews.ScrapedLabelMatchesClassify` | myapp/api_views.py:480 | away from rating 3 the scraper's label is the class `classify_sentiment` picks, whatever the score |
| `ApiViews.RatingThreeMayDiffer` | myapp/api_views.py:480 | at rating 3 the two differ: the label is neutral while a score of 0.5 is classified positive |
| `ApiViews.Admitted` | myapp/api_views.py:200-206 | the filtered list is no longer than the list |
| `ApiViews.AdmittedStep` | myapp/api_views.py:200-206 | one more review is appended to the filtered list exactly when the filter admits its rating |
| `ApiViews.AdmittedOrder` | myapp/api_views.py:200-206 | the filtered list is a subsequence of the list: the reviews it keeps stay in their order |
| `ApiViews.AdmittedMembers` | myapp/api_views.py:200-206 | a rating is in the filtered list exactly when it is in the list and the filter admits it |
| `ApiViews.LabelledMembers` | myapp/api_views.py:200-206 | filtering by `positive`, `negative` or `neutral` keeps exactly the reviews that the scraper's rule at `myapp/api_views.py:480` gives that label |
| `ApiViews.FilterPartition` | myapp/api_views.py:200-206 | as multisets, the positive, negative and neutral lists add up to the whole list: every review is in exactly one of them |
| `ApiViews.FilterPartitionLengths` | myapp/api_views.py:200-206 | the three list lengths add up to the number of reviews |
| `ApiViews.Escalations` | myapp/api_views.py:314 | `max(0, negative // 2)` is half the negative count rounded down, and 0 for a negative input |
| `ApiViews.StarsRoundTrip` | myapp/api_views.py:70 | the string `f"{n} stars"` the runner builds is read back by the analysis as `n` |
| `ApiViews.MarshalAll` | myapp/api_views.py:69-71 | one record per stored review, in order. Each has a text (`""` for none) and a rating string that parses back to `_parse_rating` of the stored rating |
| `ApiViews.MarshalledCounts` | myapp/api_views.py:69-73 | the analysis counts each class of the marshalled records as the stored reviews' own texts and parsed ratings decide |
| `ApiViews.FiveAndOneStar` | myapp/api_views.py:69-73 | a five-star review and a one-star review count as one positive and one negative, whatever their texts |
| `ApiViews.EmptyThreeStar` | myapp/api_views.py:69-73 | one three-star review without text counts as neutral |
| `ApiViews.RunPipeline` | myapp/api_views.py:65-73 | no reviews gives `(None, None)`; otherwise both records. Their counts are those of the stored reviews and sum to their number. The topic dictionary, keywords, praises, complaints, rounded mean score and insight text are those the analysis specifies for the marshalled texts, and the dates carry over |

## Left out

- TextBlob is not part of this model: the polarity scorer is an arbitrary function parameter, and no range is assumed (`MeanBounds` gives the range of the mean for any bounded scorer, and `TrendScoreInRange` the range of the rounded score for one with values in [-1, 1]).
- Floating point: scores, the 0.2 thresholds and averages are exact reals, so binary-float rounding of `0.2`, of the sum and of the division is not modelled.
- `PyInt.Round3`: states only the 0.0005 bound (`Round3Bounds` adds that rounding keeps a range whose ends are multiples of 0.001). It computes half-to-even on the exact real, where Python rounds the nearest binary float, so exact ties can differ.
- `ApiViews.ParseRating`: the contract states the bounds and the no-digit case only. The exact value for a string is the decimal value of the digit span that `DigitSpanSpec` characterises.
- `ApiViews.AggregateKeywords`: its own contract gives only the length bound; the full properties are in `AggregateKeywordsSpec`.
- NaN and infinite float ratings, on which `round` raises, are not modelled. Neither are `bool` ratings, which Python treats as `int`.
- The 4300-digit limit of CPython's `int()` and `str()` is not modelled. It is the only way to reach the `except` branch at `myapp/api_views.py:46-47`.
- Text is ASCII-only: `\s`, `isspace` and `lower` are modelled on ASCII characters, and no Unicode case mapping or Unicode whitespace is modelled.
- Digits are ASCII-only: `\d` in `re.search(r"\d+")` (`myapp/api_views.py:42`) and `int()` (`myapp/api_views.py:45`, `myapp/ai_analysis.py:137`) also accept other Unicode decimal digits. Python parses `"\u0663 stars"` (Arabic-Indic three) as 3; `ParseRating` gives 0.
- Dictionary order: the topic dictionaries `topicTrends` and `topTopics` are Dafny maps and carry no order. The key order the source builds (`myapp/ai_analysis.py:68`) appears only as the topics' numbering 0-4, which `TopIndex` uses for `max`'s tie-break.
- The date: `datetime.date.today()` and the ISO week are inputs `week` and `month`.
- The ORM, persistence and HTTP layers are left out. They cover `update_or_create` of `TrendLog`/`AIResult`, the reuse of an existing `AIResult` when `refresh` is false, the missing-business guard, query ordering by review date, serializers and authentication. `RunPipeline` takes the stored reviews as a sequence already in query order.
- The `__main__` demo block of `ai_analysis.py` (I/O only).
- The other dashboard figures (averages, NPS) and the scraper's I/O are outside the modelled helpers.
