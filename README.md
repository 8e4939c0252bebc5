# StreamSmart recommender core in Dafny

This project models and proves properties of StreamSmart's scoring and
ranking engine. StreamSmart is a mood-aware movie recommender.

- A viewer sends a free-text prompt. A rule table, or a language-model
  service, turns it into a `{mood, tone}` signal.
- Each catalogue row is scored. The keyword variants (the eager
  `recommender.py` and the lazy `recommender_ml_optimized.py`) score by
  keyword-index hits normalised to 0.4. They add a watch-history boost and a
  mood-classifier boost.
- The top-N rows are returned.
- Before scoring, the eager variant consults a precomputed-result cache.
- The ultra-light variant scores by prompt/row word overlap normalised
  to 1. It boosts by a movie-by-movie similarity matrix built from a binary
  term matrix over the 50 most frequent words.
- The legacy recommender filters rows by mood or tone. It combines two given
  similarities with a weighted sum.
- Around the engine sit small stores:
  - the conversation memory (the last 50 conversations per user, mood and
    genre counts);
  - the legacy watch history;
  - the feedback store and its statistics;
  - the analytics endpoints built on them.

Modules follow the source files:

| module | file | source |
|---|---|---|
| `Text` | `text.dfy` | Python string operations the core uses: `lower`, `split`, `strip`, `in`, `find`, `split(sep)` |
| `Ranking` | `ranking.dfy` | top-N selection of row indices by score |
| `Catalog` | `catalog.dfy` | catalogue and user rows, keyword text, the response dictionary |
| `KeywordIndex` | `keyword_index.dfy` | `_word_index` construction |
| `HybridScoring` | `hybrid_scoring.dfy` | the in-place score array of the keyword variants |
| `PrecomputedCache` | `precomputed_cache.dfy` | `_find_precomputed` and the cache-hit path |
| `EagerRecommender` | `eager_recommender.dfy` | `recommender.py` |
| `LazyRecommender` | `lazy_recommender.dfy` | `recommender_ml_optimized.py` |
| `UltraLight` | `ultra_light.dfy` | `recommender_ultra_light.py` |
| `MoodExtractor` | `mood_extractor.dfy` | both `mood_extractor.py` files |
| `LegacyRecommender` | `legacy_recommender.dfy` | `recommender/app/recommender.py` |
| `UserProfile` | `user_profile.dfy` | `recommender/app/user_profile.py` |
| `ConversationMemory` | `conversation_memory.dfy` | `conversation_memory.py` |
| `Feedback` | `feedback.dfy` | `routers/feedback.py` |
| `Analytics` | `analytics.dfy` | `routers/analytics.py` |

Scores are `real`. A Python exception is a `Result` error, or `None` where
the caller catches it. Module globals and JSON-backed stores are classes whose
methods are proved against the functions that specify them. A Python dict
that is filled in a loop and later read in insertion order (a counting dict,
`Counter`) is a sequence of key/count pairs in insertion order.

## Model

| member | source | states |
|---|---|---|
| Text.Lower | streamsmart-backend/app/recommender/recommender.py:288 | `lower()` keeps the length and maps each character by the ASCII case rule |
| Text.LowerIdempotent | streamsmart-backend/app/recommender/mood_extractor.py:127 | lower-casing twice is lower-casing once |
| Text.LowerConcat | streamsmart-backend/app/recommender/recommender.py:57-59 | lower-casing distributes over concatenation |
| Text.SplitTokensAreWords | streamsmart-backend/app/recommender/recommender.py:60 | every token of `split()` is non-empty and holds no whitespace |
| Text.SplitJoin | streamsmart-backend/app/recommender/recommender.py:57-60 | texts joined by a whitespace character split into the tokens of each, in order |
| Text.FirstIndex | streamsmart-backend/app/recommender/mood_extractor.py:66-69 | the first position where the needle occurs, or none when it never occurs |
| Text.ContainsIffOccurs | streamsmart-backend/app/recommender/mood_extractor.py:128 | the `in` test on strings holds exactly when the needle occurs at some position |
| Text.ContainsChars | streamsmart-backend/app/recommender/mood_extractor.py:128 | every character of a contained needle occurs in the haystack |
| Text.SplitOn | streamsmart-backend/app/recommender/mood_extractor.py:66-69 | `split(sep)` gives at least one piece, two or more exactly when the separator occurs, and the first piece holds no separator |
| Text.FirstPieceFree | streamsmart-backend/app/recommender/mood_extractor.py:66-69 | the piece before the first separator holds no separator |
| Text.SplitOnAbsent | streamsmart-backend/app/recommender/mood_extractor.py:69 | a text without the separator splits into itself alone |
| Text.StripTrims | streamsmart-backend/app/recommender/mood_extractor.py:72 | a stripped text is empty or has no whitespace at either end |
| Text.StripSpaceFront | streamsmart-backend/app/recommender/mood_extractor.py:72 | leading whitespace does not change the stripped text |
| Text.StripSpaceBack | streamsmart-backend/app/recommender/mood_extractor.py:72 | trailing whitespace does not change the stripped text |
| Text.Dedup | streamsmart-backend/app/recommender/conversation_memory.py:42 | the distinct elements, each once, exactly the elements of the input |
| Ranking.ScanFindsFirstMax | streamsmart-backend/app/recommender/recommender.py:336 | the scan returns the first untaken index of maximal score, or none when every index is taken |
| Ranking.Pigeonhole | streamsmart-backend/app/recommender/recommender.py:336 | distinct indices below n number at most n, and fewer than n miss one |
| Ranking.RankingExtend | streamsmart-backend/app/recommender/recommender.py:336 | appending the first maximum among the untaken indices keeps a ranking |
| Ranking.TopIndicesRank | streamsmart-backend/app/recommender/recommender.py:336 | exactly min(k, n) distinct indices, non-increasing scores, ties in index order, no omitted index scoring above a chosen one |
| Ranking.TopIndicesAll | streamsmart-backend/app/recommender/recommender.py:336 | asking for at least n rows selects every index |
| Ranking.SelectTop | streamsmart-backend/app/recommender/recommender.py:336 | the selection loop returns the top-N ranking `TopIndices` specifies |
| Catalog.KeywordsAreFieldTokens | streamsmart-backend/app/recommender/recommender.py:56-60 | a row's keywords are the tokens of its title, genre and tags, in that order; missing fields add none |
| Text.Positions | streamsmart-backend/app/recommender/recommender.py:281 | the positions a boolean mask keeps: strictly increasing, each satisfying position listed and no other |
| Catalog.ProfileRows | streamsmart-backend/app/recommender/recommender.py:281 | the positions of the user rows with the requested id, strictly increasing, each matching position listed and no other |
| Catalog.UserProfile | streamsmart-backend/app/recommender/recommender.py:281 | the profile is the user rows at `ProfileRows`, in row order, duplicates kept, as the boolean mask keeps them |
| KeywordIndex.BuildIndex | streamsmart-backend/app/recommender/recommender.py:63-68 | the nested loop builds the index `IndexOf` specifies |
| KeywordIndex.ExpectedPostingsCount | streamsmart-backend/app/recommender/recommender.py:63-68 | in the expected postings of w, row i appears as often as w occurs among its tokens, and only catalogue rows appear |
| KeywordIndex.ExpectedPostingsSorted | streamsmart-backend/app/recommender/recommender.py:63-68 | postings are in row order |
| KeywordIndex.AddTokensPostings | streamsmart-backend/app/recommender/recommender.py:64-68 | adding one row's tokens appends that row to w's postings once per occurrence of w, and w becomes a key iff it was one or is among the tokens |
| KeywordIndex.IndexPostings | streamsmart-backend/app/recommender/recommender.py:63-68 | the index's postings of w are exactly the expected postings, and w is a key iff some row has it as a token |
| KeywordIndex.IndexExact | streamsmart-backend/app/recommender/recommender.py:63-68 | row i is listed under w exactly as often as w occurs among its tokens; no other row is listed; postings are in row order; w is a key iff some row has it |
| KeywordIndex.CatalogueIndexExact | streamsmart-backend/app/recommender/recommender.py:56-68 | the same for the catalogue's keyword column, with missing fields read as empty |
| HybridScoring.PromptWords | streamsmart-backend/app/recommender/recommender.py:288 | the prompt's distinct lower-cased tokens, each once |
| HybridScoring.HitsAreMatches | streamsmart-backend/app/recommender/recommender.py:288-292 | a row's raw score is the number of its keyword tokens that are prompt words |
| HybridScoring.MatchesNone | streamsmart-backend/app/recommender/recommender.py:288-292 | a row with no prompt word among its tokens scores 0 |
| HybridScoring.KeywordScores | streamsmart-backend/app/recommender/recommender.py:285-292 | the in-place loop leaves the raw keyword scores in the array |
| HybridScoring.AddPostings | streamsmart-backend/app/recommender/recommender.py:291-292 | each listed row gains 1 per listing, no other entry changes |
| HybridScoring.MaxOf | streamsmart-backend/app/recommender/recommender.py:295 | the loop returns the maximum `SeqMax` specifies |
| HybridScoring.SeqMax | streamsmart-backend/app/recommender/recommender.py:295 | the maximum bounds every score and is one of them |
| HybridScoring.Normalise | streamsmart-backend/app/recommender/recommender.py:295-296 | the array becomes the normalised scores |
| HybridScoring.NormalisedProperties | streamsmart-backend/app/recommender/recommender.py:295-296 | scores stay in [0, ceiling] and keep their order; the best row gets the ceiling when any row scored; an all-zero vector is unchanged |
| HybridScoring.NormalisedCounts | streamsmart-backend/app/recommender/recommender.py:295-296 | the same, stated for scores that are match counts |
| HybridScoring.RawScoresCount | streamsmart-backend/app/recommender/recommender.py:288-292 | every raw keyword score is the row's match count |
| HybridScoring.KeywordScoresOrder | streamsmart-backend/app/recommender/recommender.py:288-296 | keyword scores lie in [0, 0.4] and order rows by their match counts |
| HybridScoring.KeywordScoresTop | streamsmart-backend/app/recommender/recommender.py:288-296 | some row scores exactly 0.4 iff some row matched a prompt word; otherwise every score is 0 |
| HybridScoring.HistoryBoost | streamsmart-backend/app/recommender/recommender.py:299-305 | the loop over watched rows leaves the history-boosted scores in the array |
| HybridScoring.GenreHitsBounds | streamsmart-backend/app/recommender/recommender.py:303-305 | a watched row with a genre counts at least one genre hit for itself; a row no watched row shares a genre with counts none |
| HybridScoring.HistoryBoostedProperties | streamsmart-backend/app/recommender/recommender.py:299-305 | no score goes down; a watched row with a genre gains at least 0.3; a row that is neither watched nor of a watched row's genre keeps its score |
| HybridScoring.EncodedMood | streamsmart-backend/app/recommender/recommender.py:312-318 | the request's mood if the encoder knows it, else "neutral" if it knows that, else none |
| HybridScoring.FirstWithId | streamsmart-backend/app/recommender/recommender.py:322-323 | the first row with the predicted `movie_id`, or none when no row has it |
| HybridScoring.PredictedRow | streamsmart-backend/app/recommender/recommender.py:308-323 | a boosted row exists only with a classifier and a mood it can encode, and then is the first row with the `movie_id` the classifier predicts; no row is boosted only when the classifier is absent, the mood cannot be encoded, nothing is predicted or no row has the predicted id |
| HybridScoring.ClassifierBoost | streamsmart-backend/app/recommender/recommender.py:320-330 | the array becomes the classifier-boosted scores |
| HybridScoring.ClassifierBoostedProperties | streamsmart-backend/app/recommender/recommender.py:320-330 | no score goes down; the predicted row gains at least 0.5, exactly 0.7 with a genre; with no prediction, or for a row of another genre, the score is kept |
| HybridScoring.FinalScoresProperties | streamsmart-backend/app/recommender/recommender.py:285-330 | every final score is at least the keyword score, so never negative; with no history and no prediction the final scores are the keyword scores |
| HybridScoring.ScoreCatalogue | streamsmart-backend/app/recommender/recommender.py:285-330 | the four in-place steps leave the final scores |
| HybridScoring.Ranked | streamsmart-backend/app/recommender/recommender.py:336-338 | min(top_n, n) rows, non-increasing scores, and the rows are those at a ranking: distinct catalogue rows, none left out scoring higher than a listed one |
| HybridScoring.LiveResponse | streamsmart-backend/app/recommender/recommender.py:336-347 | the response echoes the id, the mood and the user's profile rows, and lists min(top_n, n) distinct rows of a ranking of the scores |
| HybridScoring.TopRatedFallback | streamsmart-backend/app/recommender/recommender.py:356-364 | min(top_n, n) rows by non-increasing rating, each scored 0.5, with a neutral mood and an empty profile; the rows are the catalogue rows at a ranking of the ratings, so distinct |
| HybridScoring.FallbackIsTopRated | streamsmart-backend/app/recommender/recommender.py:356 | no catalogue row missing from the fallback's list has a higher rating than a listed one |
| HybridScoring.Live | streamsmart-backend/app/recommender/recommender.py:276-347 | the live path answers exactly when neither the mood nor the tone is `null`, the users table was read and the catalogue is non-empty; otherwise it raises |
| HybridScoring.LiveShape | streamsmart-backend/app/recommender/recommender.py:285-347 | a live response echoes the id, the mood and the profile rows, and lists min(top_n, n) distinct rows with their final scores, non-negative and non-increasing, none left out scoring higher |
| PrecomputedCache.ExactFrom | streamsmart-backend/app/recommender/recommender.py:142-144 | the first entry at or after k whose lower-cased message is the prompt, or none |
| PrecomputedCache.KeyFrom | streamsmart-backend/app/recommender/recommender.py:162-165 | the first entry at or after k whose key contains the bucket name, or none |
| PrecomputedCache.FindPrecomputed | streamsmart-backend/app/recommender/recommender.py:133-167 | a found key is an index entry's key |
| PrecomputedCache.BucketFromSound | streamsmart-backend/app/recommender/recommender.py:160-165 | a found key belongs to an entry keyed by a later triggering bucket; nothing is found only when no later bucket both triggers and names a key |
| PrecomputedCache.ExactMatchFirst | streamsmart-backend/app/recommender/recommender.py:135-144 | an empty index finds nothing; the first case-insensitive exact match wins before any keyword test |
| PrecomputedCache.KeywordStage | streamsmart-backend/app/recommender/recommender.py:147-167 | without an exact match, a found key belongs to a triggering bucket; nothing is found iff no bucket triggers and names a key |
| PrecomputedCache.BucketFromFirst | streamsmart-backend/app/recommender/recommender.py:160-165 | buckets are tried in table order and the first key naming the first such bucket wins |
| PrecomputedCache.ActionBucketFirst | streamsmart-backend/app/recommender/recommender.py:147-165 | a prompt mentioning "action" is answered from the first entry when its key contains "action" |
| PrecomputedCache.ActionFindsEnergeticAction | streamsmart-backend/app/recommender/recommender.py:162-165 | with "energetic_action" stored before "action", a prompt mentioning action is answered from "energetic_action" |
| PrecomputedCache.ExactMatchIgnoresCase | streamsmart-backend/app/recommender/recommender.py:139-144 | an exact match ignores letter case and comes before the keyword stage |
| PrecomputedCache.Restamp | streamsmart-backend/app/recommender/recommender.py:262 | the result's `user_id` becomes the caller's and every other field is kept |
| PrecomputedCache.RestampTwice | streamsmart-backend/app/recommender/recommender.py:262 | restamping twice keeps only the second id |
| PrecomputedCache.CacheHit | streamsmart-backend/app/recommender/recommender.py:257-264 | a hit is the document stored under the found key, restamped with the caller's id; there is no hit exactly when no usable document is stored under a found key |
| PrecomputedCache.CacheHitOnlyRestamps | streamsmart-backend/app/recommender/recommender.py:257-264 | a hit equals the stored result except for `user_id` |
| EagerRecommender.Fallback | streamsmart-backend/app/recommender/recommender.py:356-364 | the intended fallback answers with the top-rated rows whenever the movies table was read |
| EagerRecommender.FallbackAsWritten | streamsmart-backend/app/recommender/recommender.py:355 | the fallback as written always raises |
| EagerRecommender.CacheAnswersFirst | streamsmart-backend/app/recommender/recommender.py:257-264 | a usable cache hit is answered from the cache, differing from the stored result only in `user_id` |
| EagerRecommender.ComputedAnswer | streamsmart-backend/app/recommender/recommender.py:243-364 | with the intended fallback, without a hit: live scoring when loaded, non-empty and without a `null` mood or tone, otherwise the top-rated rows; an error only when the movies table was never read; always min(top_n, n) rows |
| EagerRecommender.FallbackRaisesAsWritten | streamsmart-backend/app/recommender/recommender.py:350-356 | whenever the live path raises and the cache has nothing, the code as written raises `NameError` while the intended fallback answers |
| EagerRecommender.EmptyCatalogueExample | streamsmart-backend/app/recommender/recommender.py:355 | a loaded empty catalogue with an empty cache: as written an error, as intended an empty list |
| EagerRecommender.Recommender.constructor | streamsmart-backend/app/recommender/recommender.py:36-96 | import-time loading stops at the first failed read; the data counts as loaded iff both tables were read |
| EagerRecommender.Recommender.GetRecommendations | streamsmart-backend/app/recommender/recommender.py:243-364 | the request's answer is `Serve` over the current globals, which it does not change |
| LazyRecommender.InitIdempotent | streamsmart-backend/app/recommender/recommender_ml_optimized.py:32-98 | once loaded, initialising changes nothing whatever the files hold; twice is once; success leaves coherent loaded globals |
| LazyRecommender.ServeOutcome | streamsmart-backend/app/recommender/recommender_ml_optimized.py:163-272 | fails iff never loaded and unreadable, leaving the data unloaded with at most `_movies_df` newly set; otherwise loaded and answering min(top_n, n) rows, live unless the catalogue is empty or the mood or tone is `null` |
| LazyRecommender.LoadedOnce | streamsmart-backend/app/recommender/recommender_ml_optimized.py:39-97 | after one successful request, later requests neither reload nor fail |
| LazyRecommender.Recommender.constructor | streamsmart-backend/app/recommender/recommender_ml_optimized.py:25-30 | the globals start unset |
| LazyRecommender.Recommender.LazyInit | streamsmart-backend/app/recommender/recommender_ml_optimized.py:32-98 | the globals become `AfterInit` of the old ones: `_movies_df` is assigned before the users read, which may then fail |
| LazyRecommender.Recommender.GetRecommendations | streamsmart-backend/app/recommender/recommender_ml_optimized.py:163-272 | reply and new globals are `Serve` of the old globals |
| UltraLight.AllTokensFrom | streamsmart-backend/app/recommender/recommender_ultra_light.py:72-74 | a word is in the list iff it is a token of some row |
| UltraLight.CountOf | streamsmart-backend/app/recommender/recommender_ultra_light.py:78-80 | each distinct word's count is its number of occurrences in the catalogue's tokens |
| UltraLight.TopWordsAt | streamsmart-backend/app/recommender/recommender_ultra_light.py:82 | the a-th top word is the distinct word the count ranking puts a-th |
| UltraLight.TopWordsFromCatalogue | streamsmart-backend/app/recommender/recommender_ultra_light.py:78-82 | at most 50 distinct words, each a token of some row |
| UltraLight.TopWordsOrdered | streamsmart-backend/app/recommender/recommender_ultra_light.py:82 | the top words come by non-increasing count |
| UltraLight.TopWordsDominate | streamsmart-backend/app/recommender/recommender_ultra_light.py:82 | no word left out occurs more often than a word kept |
| UltraLight.TopWordsAll | streamsmart-backend/app/recommender/recommender_ultra_light.py:82 | with at most 50 distinct words every word is kept |
| UltraLight.Norm | streamsmart-backend/app/recommender/recommender_ultra_light.py:96-98 | a norm is never zero: a zero norm is replaced by 1 |
| UltraLight.DotBinary | streamsmart-backend/app/recommender/recommender_ultra_light.py:96 | a 0/1 row's squared norm is non-negative and zero iff the row is all zero |
| UltraLight.DotSymmetric | streamsmart-backend/app/recommender/recommender_ultra_light.py:101 | the dot product is symmetric |
| UltraLight.DotOver | streamsmart-backend/app/recommender/recommender_ultra_light.py:98-101 | dividing two rows by n and m divides their dot product by n·m |
| UltraLight.Similarity | streamsmart-backend/app/recommender/recommender_ultra_light.py:56-106 | the similarity is n by n |
| UltraLight.SimilaritySymmetric | streamsmart-backend/app/recommender/recommender_ultra_light.py:101 | the similarity is symmetric |
| UltraLight.FeatureZeros | streamsmart-backend/app/recommender/recommender_ultra_light.py:87-98 | after normalisation an entry is 0 iff the row lacks that top word |
| UltraLight.ZeroRowsStayZero | streamsmart-backend/app/recommender/recommender_ultra_light.py:96-101 | a row with none of the top words stays zero, so its similarity row and column are zero |
| UltraLight.UnitDiagonal | streamsmart-backend/app/recommender/recommender_ultra_light.py:96-101 | with an exact square root, a row holding a top word has self-similarity 1 |
| UltraLight.SimilarityNonNegative | streamsmart-backend/app/recommender/recommender_ultra_light.py:96-101 | with a non-negative square root every similarity is non-negative |
| UltraLight.OverlapIsIntersection | streamsmart-backend/app/recommender/recommender_ultra_light.py:151-156 | the overlap is the size of the intersection of the two word sets: positive iff they share a word, at most the number of prompt words |
| UltraLight.OverlapScoresProperties | streamsmart-backend/app/recommender/recommender_ultra_light.py:148-160 | scores lie in [0, 1] and keep the overlaps' order; some row scores exactly 1 iff some row overlaps |
| UltraLight.BoostProperties | streamsmart-backend/app/recommender/recommender_ultra_light.py:163-168 | no change when no watched title is in the catalogue, nor for a row holding no top word; with a non-negative root no score goes down |
| UltraLight.WatchedRowGains | streamsmart-backend/app/recommender/recommender_ultra_light.py:165-168 | a watched row holding a top word gains at least 0.3 from its own similarity |
| UltraLight.AfterLoad | streamsmart-backend/app/recommender/recommender_ultra_light.py:32-54 | a load that returns normally leaves the movies table set |
| UltraLight.LoadOnce | streamsmart-backend/app/recommender/recommender_ultra_light.py:36-37 | loading is idempotent, ignores the files once the movies table is set, and keeps the state coherent |
| UltraLight.HeadFallback | streamsmart-backend/app/recommender/recommender_ultra_light.py:203-213 | the first min(top_n, n) rows in order, each scored 0.5, with a neutral mood |
| UltraLight.ServeOutcome | streamsmart-backend/app/recommender/recommender_ultra_light.py:129-221 | under the corrected load: live scoring, as a ranking, when loaded (the first request included), non-empty and the mood is not `null`; the first rows when the movies table is set and the mood is `null` or the catalogue empty; an empty reply only when it cannot be read, leaving the state unchanged |
| UltraLight.PartialLoadSticks | streamsmart-backend/app/recommender/recommender_ultra_light.py:36-49 | after a failed users read, every later request gets the first rows, whatever the files hold |
| UltraLight.ServeAsWrittenOutcome | streamsmart-backend/app/recommender/recommender_ultra_light.py:129-208 | as written, whenever the top words are not one per row (so for every catalogue of more than 50 rows): the first request gets the first rows, later ones are scored on the overlap alone, or get the first rows when a watched title is in the catalogue |
| UltraLight.TopWordsColumnRaises | streamsmart-backend/app/recommender/recommender_ultra_light.py:104 | the column assignment fits only when n equals the number of top words, never for more than 50 rows; when it does not fit, the similarity stays unset for good, while the corrected load stores it |
| UltraLight.BuildBinary | streamsmart-backend/app/recommender/recommender_ultra_light.py:85-93 | the nested loops fill the array with `Binary` |
| UltraLight.RowNorms | streamsmart-backend/app/recommender/recommender_ultra_light.py:96-98 | the array holds each row's norm, zero replaced by 1 |
| UltraLight.DivideRows | streamsmart-backend/app/recommender/recommender_ultra_light.py:98 | the array holds each row divided by its norm |
| UltraLight.GramOf | streamsmart-backend/app/recommender/recommender_ultra_light.py:101 | the new array is n by n with each entry the dot product of two rows |
| UltraLight.ComputeSimilarity | streamsmart-backend/app/recommender/recommender_ultra_light.py:56-101 | returns the top words and the similarity of the catalogue |
| UltraLight.OverlapScores | streamsmart-backend/app/recommender/recommender_ultra_light.py:151-156 | the loop leaves each row's overlap in the array |
| UltraLight.BoostBySimilarity | streamsmart-backend/app/recommender/recommender_ultra_light.py:163-168 | the loop leaves the boosted scores in the array |
| UltraLight.Recommender.constructor | streamsmart-backend/app/recommender/recommender_ultra_light.py:26-30 | the globals start unset |
| UltraLight.Recommender.LoadData | streamsmart-backend/app/recommender/recommender_ultra_light.py:32-54 | the globals become the corrected `AfterLoad` of the old ones |
| UltraLight.Recommender.GetRecommendations | streamsmart-backend/app/recommender/recommender_ultra_light.py:129-221 | reply and new globals are `Serve` of the old globals |
| MoodExtractor.FirstRule | streamsmart-backend/app/recommender/mood_extractor.py:128-135 | the first rule at or after k that fires, or none |
| MoodExtractor.FirstRuleWins | streamsmart-backend/app/recommender/mood_extractor.py:123-136 | rule k's mood and tone iff one of its triggers occurs in the lower-cased prompt and no earlier rule's does; neutral iff no trigger occurs |
| MoodExtractor.RuleBasedRange | streamsmart-backend/app/recommender/mood_extractor.py:128-136 | both keys are present, with values from a fixed set |
| MoodExtractor.RuleBasedIgnoresCase | streamsmart-backend/app/recommender/mood_extractor.py:127 | the result does not depend on letter case |
| MoodExtractor.BadmintonIsBad | streamsmart-backend/app/recommender/mood_extractor.py:128-129 | "badminton" fires the "bad" rule |
| MoodExtractor.ExcitingIsNeutral | streamsmart-backend/app/recommender/mood_extractor.py:132-136 | "I want exciting action movies" is neutral/neutral |
| MoodExtractor.NeutralWithout | streamsmart-backend/app/recommender/mood_extractor.py:128-136 | a prompt without d, l, r, h and b in either case is neutral/neutral |
| MoodExtractor.NoRuleFires | streamsmart-backend/app/recommender/mood_extractor.py:128-135 | no rule fires in a text without those letters |
| MoodExtractor.DispatchProperties | streamsmart-backend/app/recommender/mood_extractor.py:12-154 | with neither OpenAI nor both Azure settings configured the rules answer, whatever a service would say; a failed service call falls back to the rules; Azure is chosen whenever both its settings are set |
| MoodExtractor.LegacyIsRuleBased | recommender/app/mood_extractor.py:4-51 | with `USE_GPT = False` the legacy extractor is the rule table |
| MoodExtractor.StripIdempotent | streamsmart-backend/app/recommender/mood_extractor.py:72 | stripping twice is stripping once |
| MoodExtractor.NoTickNoFence | streamsmart-backend/app/recommender/mood_extractor.py:66-72 | a text without backticks contains no fence |
| MoodExtractor.JsonFenceExtracted | streamsmart-backend/app/recommender/mood_extractor.py:66-72 | a reply with one json fence pair yields the trimmed body |
| MoodExtractor.PlainFenceExtracted | streamsmart-backend/app/recommender/mood_extractor.py:68-72 | a reply with one plain fence pair yields the trimmed body |
| MoodExtractor.UnfencedTrimmed | streamsmart-backend/app/recommender/mood_extractor.py:72 | a reply without a fence is only stripped, and the result never starts with whitespace |
| LegacyRecommender.MatchingRows | recommender/app/recommender.py:30-33 | exactly the rows whose lower-cased mood tag or tone matches, in row order |
| LegacyRecommender.CandidatesExact | recommender/app/recommender.py:29-39 | both neutral: every row; otherwise the matching rows, or every row when none matches; always distinct rows in order |
| LegacyRecommender.HistorySimilarity | recommender/app/recommender.py:45-56 | one history similarity per catalogue row |
| LegacyRecommender.CandidateScores | recommender/app/recommender.py:59-62 | each candidate's score is the weighted sum of its two similarities |
| LegacyRecommender.TopOf | recommender/app/recommender.py:65 | the kept positions rank the candidates' scores, min(top_n, candidates) of them |
| LegacyRecommender.ThroughRanking | recommender/app/recommender.py:65 | ranked positions give distinct candidates, and no candidate left out scores above a kept one |
| LegacyRecommender.NoHistoryNoBoost | recommender/app/recommender.py:45-62 | without history, or with no watched title in the catalogue, the history term is 0 and the score is the prompt term |
| LegacyRecommender.HistoryBoost | recommender/app/recommender.py:47-53 | with a watched title in the catalogue the history term is the similarity to the watched embedding |
| LegacyRecommender.RecommendShape | recommender/app/recommender.py:16-73 | the response echoes the user and mood and lists min(top_n, candidates) rows with their own columns and scores |
| LegacyRecommender.RecommendRanked | recommender/app/recommender.py:59-73 | the listed rows are distinct candidates by non-increasing score, and no candidate left out scores higher |
| LegacyRecommender.LegacyMood | recommender/app/recommender.py:18-20 | the extracted mood is the rule table's |
| UserProfile.WithTitleProperties | recommender/app/user_profile.py:20-26 | the title is appended at the end iff it was absent and is then present; other users are unchanged |
| UserProfile.WithTitleIdempotent | recommender/app/user_profile.py:23 | adding a title twice is adding it once; duplicate-free lists stay so |
| UserProfile.HistoryStore.constructor | recommender/app/user_profile.py:9-14 | a store without a file is empty |
| UserProfile.HistoryStore.AddToHistory | recommender/app/user_profile.py:20-26 | the store becomes `WithTitle` of the old store |
| UserProfile.HistoryStore.GetUserHistory | recommender/app/user_profile.py:28-30 | the user's titles, none for an unknown user |
| ConversationMemory.EntryProperties | streamsmart-backend/app/recommender/conversation_memory.py:37-43 | the entry keeps message and mood, the titles of the first min(3, n) recommendations in order, and each of their genres once |
| ConversationMemory.WithConversationProperties | streamsmart-backend/app/recommender/conversation_memory.py:30-50 | the user's list ends with the new entry and holds min(old + 1, 50) entries, the newest old ones first; other users are unchanged |
| ConversationMemory.AddKeepsBounded | streamsmart-backend/app/recommender/conversation_memory.py:47-48 | every list stays at most 50 long |
| ConversationMemory.RecentProperties | streamsmart-backend/app/recommender/conversation_memory.py:52-56 | none for an unknown user; the last min(limit, n) for a positive limit; all for 0; for a negative limit all but the first -limit; always a suffix |
| ConversationMemory.BumpProperties | streamsmart-backend/app/recommender/conversation_memory.py:63-78 | one more for the key and the total, no other count changes, a new key is appended, keys stay distinct |
| ConversationMemory.GetOfKeys | streamsmart-backend/app/recommender/conversation_memory.py:66 | a key the dict lacks has count 0 |
| ConversationMemory.MoodCountsProperties | streamsmart-backend/app/recommender/conversation_memory.py:58-68 | each mood counts the entries carrying it; keys are the distinct moods; the counts add up to the number of entries |
| ConversationMemory.MissingMoodIsNeutral | streamsmart-backend/app/recommender/conversation_memory.py:65 | an entry without a mood counts as "neutral", one with a `null` mood under `None` |
| ConversationMemory.GenreCountsProperties | streamsmart-backend/app/recommender/conversation_memory.py:70-80 | a genre's count is the number of entries listing it, at most the number of entries; keys are distinct |
| ConversationMemory.ConversationStore.constructor | streamsmart-backend/app/recommender/conversation_memory.py:12-20 | a store without a file is empty |
| ConversationMemory.ConversationStore.AddConversation | streamsmart-backend/app/recommender/conversation_memory.py:30-50 | the store becomes `WithConversation` of the old store |
| ConversationMemory.ConversationStore.GetUserConversations | streamsmart-backend/app/recommender/conversation_memory.py:52-56 | returns `Recent` of the store |
| ConversationMemory.ConversationStore.GetUserMoodHistory | streamsmart-backend/app/recommender/conversation_memory.py:58-68 | the loop returns `MoodCounts` |
| ConversationMemory.ConversationStore.GetUserGenrePreferences | streamsmart-backend/app/recommender/conversation_memory.py:70-80 | the loops return `GenreCounts` |
| Feedback.LoadFeedback | streamsmart-backend/app/routers/feedback.py:28-35 | a missing file gives the empty structure, otherwise its contents |
| Feedback.RateShowProperties | streamsmart-backend/app/routers/feedback.py:44-69 | fails, changing nothing, iff `show_ratings` is absent; otherwise the entry is appended, the other list kept, the entry echoed |
| Feedback.RateRecommendationProperties | streamsmart-backend/app/routers/feedback.py:71-95 | the same for `recommendation_feedback` |
| Feedback.MeanBounds | streamsmart-backend/app/routers/feedback.py:108-109 | 0 without scores, otherwise between any bounds of the scores |
| Feedback.HelpfulAtMost | streamsmart-backend/app/routers/feedback.py:111 | the helpful count is at most the number of entries, equal iff all are helpful |
| Feedback.HelpfulPercentageBounds | streamsmart-backend/app/routers/feedback.py:111-112 | in [0, 100], 0 without feedback, 100 iff all feedback was helpful |
| Feedback.StatsProperties | streamsmart-backend/app/routers/feedback.py:97-120 | totals are the list lengths, averages within the score bounds, the share a percentage; a missing file gives zeros |
| Feedback.RatingCounted | streamsmart-backend/app/routers/feedback.py:44-120 | a successful rating adds one to its own total and leaves the other |
| Feedback.FeedbackStore.constructor | streamsmart-backend/app/routers/feedback.py:28-35 | the store holds the given file |
| Feedback.FeedbackStore.RateShow | streamsmart-backend/app/routers/feedback.py:44-69 | file and answer are `AfterRateShow` of the old file |
| Feedback.FeedbackStore.RateRecommendation | streamsmart-backend/app/routers/feedback.py:71-95 | file and answer are `AfterRateRecommendation` of the old file |
| Analytics.MostFrequentProperties | streamsmart-backend/app/routers/analytics.py:26 | the chosen key has a maximal count and every earlier key a smaller one |
| Analytics.MostFrequentMax | streamsmart-backend/app/routers/analytics.py:26 | with distinct keys the chosen key is a key and no key counts more |
| Analytics.TopGenresShape | streamsmart-backend/app/routers/analytics.py:29-30 | at most three genres, three when there are that many, distinct keys of the dict |
| Analytics.TopGenresOrder | streamsmart-backend/app/routers/analytics.py:29-30 | non-increasing counts, and no genre left out counts more than a listed one |
| Analytics.InsightsProperties | streamsmart-backend/app/routers/analytics.py:14-43 | history and at most five conversations counted; top mood "neutral" without conversations, else a mood none outnumbers (`None` when that is a stored `null`); top genres listed by some conversation |
| Analytics.TrendingProperties | streamsmart-backend/app/routers/analytics.py:45-68 | empty trending iff no conversation lists a genre; otherwise the top genre is listed and none is listed more often |
| Analytics.NoGenresListed | streamsmart-backend/app/routers/analytics.py:53 | the genre counts are empty iff no conversation lists a genre |

## Left out

- Reading and writing CSV, JSON and pickle files is not modelled. Each file is an `Option` input (`None` for missing or unreadable), or a field of the store class.
- The scikit-learn classifier and its label encoders are an opaque `Classifier` value: a set of known mood labels and a mood-to-movie-id function. Training a fallback model is not modelled.
- Sentence embeddings and cosine similarity in the legacy recommender are given real sequences.
- Calls to the OpenAI and Azure services are a given reply text and a given JSON parser.
- `round(…, 2)` in the feedback statistics is not modelled; the statistics are exact reals.
- Timestamps (`datetime.now`), print and traceback logging, and the web and UI layers are not modelled.
- `recommender_old.py`, `precompute_recommendations.py` and `app/recommender/main.py` are not part of this model.
- `app/recommender/user_profile.py` is not part of this model. The analytics endpoints and the keyword variants take the user's watch history as a parameter.
- `lower()`, `split()` and `strip()` follow the ASCII case and whitespace rules; Unicode case mapping and the Unicode whitespace that Python's `split()` and `strip()` also remove are not modelled.
- Ranking.TopIndices: numpy's `argsort(...)[::-1]` and pandas' `sort_values` do not fix an order among equal scores. The model picks the lowest index first, which is what `nlargest` and Python's stable `sorted` do.
- Text.Dedup: `list(set(...))` has no fixed order in Python; the model keeps each element at its first occurrence.
- The ultra-light random "ML" boost is not modelled. It is nondeterministic, and it is unreachable because its model global is never set.
- UltraLight.Norm: the square root is a parameter `root`. Unit length and non-negativity are proved under the assumption that `root` is exact and non-negative.
- UltraLight.Recommender.LoadData, UltraLight.Recommender.GetRecommendations, UltraLight.AfterLoad, UltraLight.Serve, UltraLight.ServeOutcome, UltraLight.LoadOnce, UltraLight.PartialLoadSticks: these follow the corrected load of the Findings table, so `_similarity_matrix` is stored. The as-written load is `AfterLoadAsWritten` and the as-written serving is `ServeAsWritten`, whose behaviour `ServeAsWrittenOutcome` states for every catalogue whose top words are not one per row.
- Catalog.MoodInfo, MoodExtractor.ExtractMood: the mood service's reply is assumed to be a JSON object with at most the keys "mood" and "tone". A reply that parses to a non-object (`null`, a list, a string), on which `mood_info.get` raises and each keyword or ultra-light variant falls back, is not modelled, and neither are extra keys, which `extracted_mood` would echo.
- `MoodInfo` values are absent, `null` or strings; a JSON number or other non-string value under "mood" or "tone", on which `.lower()` also raises, is not modelled.
- EagerRecommender.Recommender.GetRecommendations, EagerRecommender.Serve, EagerRecommender.ComputedAnswer: these follow the corrected fallback of the Findings table, so they answer with the top-rated rows where the code as written raises `NameError`. The as-written request is the function `ServeAsWritten`.
- Ratings and release years are assumed present: a missing (NaN) rating, which `nlargest` puts last, is not modelled.
- The trending endpoint's message is a fixed string plus the genre; string formatting is not modelled.
- HybridScoring.Request, LegacyRecommender.Query: `top_n` is a `nat` in the eager, lazy, ultra-light and legacy variants. A negative `top_n`, which `[:top_n]`, `nlargest` and `head` each accept with their own meaning, is not modelled.

## Findings

| source | as written | input that shows it | evidently intended | confidence | as-written member | corrected member |
|---|---|---|---|---|---|---|
| streamsmart-backend/app/recommender/recommender.py:355 | the fallback first calls `_lazy_init()`, which this module never defines, so it raises `NameError` | an empty catalogue that was loaded, with an empty cache: `scores.max()` raises, and then so does the fallback | answer with the `top_n` highest-rated rows | not executed | EagerRecommender.FallbackRaisesAsWritten | EagerRecommender.Fallback |
| streamsmart-backend/app/recommender/recommender_ultra_light.py:104 | the `top_words` list (length min(50, distinct words)) is assigned as a DataFrame column, which pandas refuses unless its length equals the row count | any catalogue of more than 50 rows (or any whose row count differs from min(50, distinct words), such as 3 rows holding 10 distinct words): the first load raises, and `_movies_df` is already set, so the similarity matrix is never stored; the first request gets `head(top_n)`, later requests are scored without the history boost, and any request with a watched title gets `head(top_n)` | store the top words beside the matrix, not as a column | not executed | UltraLight.ServeAsWrittenOutcome, UltraLight.TopWordsColumnRaises | UltraLight.AfterLoad, UltraLight.Recommender.LoadData |
