# Expert finding: crawler, graph store and scoring

This project models the core of an expert-finding system. A crawler walks a
social network one user at a time. It keeps a sliding window of the most
recently visited users and stores every resource it finds (a profile or a
post) in a graph database. Each resource is linked to the window members at
a distance of 0, 1 or 2. A scoring pass then rates every resource against a
query and rates every user from their resources. The best located resources
of the best users are the answer.

The model has five modules:

- `Wrappers`: `Option` and `FirstIndex`. `FirstIndex` is the first row a
  `query.get()` returns.
- `ResourceUtil` (resourceutil.py): `format_url`, the deterministic steps of
  `sanitize_content`, `is_english` and `extract_stems`. These are pure
  functions over `string`.
  - The regular expressions for user names and e-mail addresses are
    abstract position masks.
  - The tokenizer, the stemmer, `isalnum` and the stopword lists are fields
    of a `Toolkit` value.
- `GraphManager` (graphmanager.py): the tables as a `Tables` value, and the
  database as the `GraphStore` class with one `seq` field per table. Keys
  are positions, since rows are only appended.
  - `add_user`, `add_resource` and `map_user_with_resource` are methods
    proved against the functions `UpsertUser` and `IngestResource`.
  - Vocabulary get-or-create is `Intern` and `InternAll`.
  - Link expansion and entity extraction are fields of an `Analyzer` value.
- `AnswerQuery` (answerquery.py): `compute_resource_score`,
  `compute_user_score` and `get_best_results`. Each is a method with the
  source's loops, proved equal to a specification function.
  - The lemmas bound, order and exemplify those functions.
  - `ORDER BY score DESC LIMIT n` is an insertion sort followed by a
    prefix.
  - Scores are `real`.
- `Crawling` (crawler.py): one iteration of the `while True` loop of
  `Crawler.run` is `Crawler.Step`. It is proved equal to the function
  `CrawlStep`, about which the lemmas state the window and completion
  rules.
  - The social network is a `Source` value.

Some behaviours of the code worth noting:

- The oldest of three users is removed from the window, and marked
  completed, in the step that fills the window; the other two stay. So the
  window holds at most two users between steps, and visiting U1, U2, U3
  completes U1 in the third step (`Crawling.CompletionOrder`).
- A user is marked completed once: only an uncompleted window member can be
  evicted, and a completed user is never selected again
  (`Crawling.CrawlStepCompletion`, `Crawling.CompletedStaysOut`).
- Score rows are appended, not overwritten. `compute_resource_score` and
  `compute_user_score` save a new row on every call.
- `compute_user_score` reads the first score row of a resource and the
  first edge between the user and the resource.
- User-resource edges are always appended, even for a pair that is already
  linked.

## Model

| member | source | states |
|---|---|---|
| ResourceUtil.LowerChar | resourceutil.py:62 | an upper-case ASCII letter becomes the letter 32 code points higher (its lower case), any other character is unchanged, and whitespace stays whitespace |
| ResourceUtil.ReplaceHashtags | resourceutil.py:49 | the length is kept, each `#` or `＃` becomes a space, every other character is unchanged, and no hashtag mark remains |
| ResourceUtil.Delete | resourceutil.py:51-53 | (Deleted) a `sub('')` removes exactly the matched characters: the result has one character per unmatched position, each unmatched character sits at the number of unmatched positions before it, so the survivors keep their order; with no match it returns the input unchanged |
| ResourceUtil.BlankSymbols | resourceutil.py:55-56 | the length is kept, each emoji or miscellaneous symbol becomes a space, every other character is unchanged, and no such symbol remains |
| ResourceUtil.Strip | resourceutil.py:58 | the result is empty exactly when every character of the input is whitespace (Blank); otherwise it is the contiguous part of the input between its leading and its trailing whitespace, and neither starts nor ends with whitespace |
| ResourceUtil.ControlToSpace | resourceutil.py:59 | the length is kept, each `\n`, `\t` or `\r` becomes a space, and every other character is unchanged |
| ResourceUtil.CollapseSpaces | resourceutil.py:60 | (Collapsed) the non-`\s` characters are kept in order with each maximal `\s` run between them turned into a single character (the skeleton is kept); no two adjacent `\s` characters remain; no new character appears except a space; the result is empty only when the input is, a non-`\s` first or last character is kept and a `\s` start stays `\s` |
| ResourceUtil.CollapseSpacesNoRuns | resourceutil.py:60 | a text without two adjacent `\s` characters is left unchanged, so a lone `\s` character keeps its value |
| ResourceUtil.Lower | resourceutil.py:62 | the length is kept, with character-wise lowering |
| ResourceUtil.NormalizeSpacing | resourceutil.py:59-62 | after a strip, the last three steps leave no hashtag mark, no `\n`, `\t` or `\r`, no two adjacent ASCII `\s` characters, no surrounding whitespace and no upper-case ASCII letter |
| ResourceUtil.LowerKeeps | resourceutil.py:62 | lowering keeps the absence of hashtag marks, of `\n`, `\t` and `\r`, of two adjacent ASCII `\s` characters and of surrounding whitespace, and leaves no upper-case ASCII letter |
| ResourceUtil.SanitizeContentNormalForm | resourceutil.py:47-63 | sanitize_content's result has no hashtag mark, no `\n`, `\t` or `\r`, no two adjacent ASCII `\s` characters, no leading or trailing whitespace, and no upper-case ASCII letter |
| ResourceUtil.NonEnglishStopwords | resourceutil.py:27 | the non-English stopwords are disjoint from the English ones, and drawn from all stopwords |
| ResourceUtil.EnglishNeedsEnglishStopword | resourceutil.py:151-153 | a text is English only if one of its tokens is an English stopword, so a text without stopwords is not English |
| ResourceUtil.EnglishWithoutForeignStopwords | resourceutil.py:151-153 | a text with an English stopword and no non-English stopword among its tokens is English |
| ResourceUtil.FilterAppend | resourceutil.py:102-104 | a list comprehension filter keeps the input order: filtering a concatenation is the concatenation of the filtered parts |
| ResourceUtil.FilterMultiplicity | resourceutil.py:102-104 | a filter keeps every occurrence of a kept value and none of a dropped one |
| ResourceUtil.ContentWordsMultiplicity | resourceutil.py:102-104 | the surviving tokens are exactly the alphanumeric non-stopwords, each as often as among the tokens |
| ResourceUtil.ContentWordsAppend | resourceutil.py:102-104 | the surviving tokens of a concatenation are those of each part, in order |
| ResourceUtil.ExtractStems | resourceutil.py:94-107 | there are never more stems than tokens |
| ResourceUtil.ExtractStemsSpec | resourceutil.py:98-106 | one stem per surviving token, in token order; every surviving token is a token, not an English stopword, and alphanumeric |
| ResourceUtil.Find | resourceutil.py:83 | `str.find`: -1, or the first index where the pattern occurs |
| ResourceUtil.FormatUrl | resourceutil.py:81-92 | the result always starts with "http" |
| ResourceUtil.FormatUrlFromHttp | resourceutil.py:83-85 | with an "http" in the URL, the result is the suffix from its first occurrence |
| ResourceUtil.FormatUrlFromWww | resourceutil.py:88-90 | without "http", the result is "http://" followed by the suffix from the first case-insensitive "www" |
| ResourceUtil.FormatUrlFallback | resourceutil.py:89-90 | with neither, find returns -1 and `url[-1:]` keeps only the last character after "http://" |
| GraphManager.CountInNetwork | graphmanager.py:89 | the count is at most the number of users, and is 0 exactly when no user belongs to the network |
| GraphManager.GraphStore.IsFirstRun | graphmanager.py:87-89 | true exactly when no stored user belongs to the network |
| GraphManager.GraphStore.constructor | graphmanager.py:72-85 | a new store is well formed and every table is empty |
| GraphManager.UpsertUserSpec | graphmanager.py:91-100 | add_user keeps the store well formed; it inserts nothing for a known identity and exactly one row otherwise; the returned row is stored, has the identity, and is the only row with it |
| GraphManager.UpsertUserIdempotent | graphmanager.py:93-100 | a second add_user with the same identity changes nothing and returns the same row |
| GraphManager.GraphStore.AddUser | graphmanager.py:91-100 | the users and the returned row are those of UpsertUser; the store stays well formed, existing rows are kept, and the returned row is stored with the identity asked for |
| GraphManager.Intern | graphmanager.py:123-129 | get-or-create returns a row holding the string; for a present string the vocabulary is unchanged and the key is its first row; for an absent string one row is appended |
| GraphManager.InternAll | graphmanager.py:122-129 | one key per word, and the existing vocabulary rows stay in place |
| GraphManager.InternAllSnoc | graphmanager.py:140-147 | one more word is one more get-or-create on the vocabulary the earlier words left |
| GraphManager.InternAllRows | graphmanager.py:122-153 | every word gets the key of a vocabulary row holding that word |
| GraphManager.InternAllReuses | graphmanager.py:123-129 | a word already in the vocabulary gets its existing row, never a new one |
| GraphManager.InternReuses | graphmanager.py:141-147 | a string of the original vocabulary keeps its row however many rows were appended |
| GraphManager.InternAllNew | graphmanager.py:141-147 | every added vocabulary row holds one of the words |
| GraphManager.InternAllDistinct | graphmanager.py:123-129 | a vocabulary without repeats stays without repeats |
| GraphManager.InternDistinct | graphmanager.py:141-147 | one get-or-create never stores a string twice |
| GraphManager.GraphStore.GetOrCreateEntity | graphmanager.py:123-129 | the new Entity table and the key are those of Intern |
| GraphManager.GraphStore.GetOrCreateStem | graphmanager.py:141-147 | the new Stem table and the key are those of Intern |
| GraphManager.SanitizeUnicode | graphmanager.py:107 | the length is kept, every storable character is unchanged, and every character outside U+0000-U+D7FF and U+E000-U+FFFF (the class defined at graphmanager.py:6) becomes U+25FD |
| GraphManager.SanitizeUnicodeSpec | graphmanager.py:107-110 | after sanitisation every character is storable, and sanitising again changes nothing |
| GraphManager.WithEntityLinksSnoc | graphmanager.py:122-136 | linking one more mention is one more entity get-or-create and one more ResourceEntity row with its rho |
| GraphManager.WithStemLinksSnoc | graphmanager.py:140-153 | linking one more stem is one more stem get-or-create and one more ResourceStem row |
| GraphManager.SaveResourceWellFormed | graphmanager.py:117-118 | saving a resource whose identity is new keeps the store well formed |
| GraphManager.WithEntityLinksWellFormed | graphmanager.py:120-136 | the entity rows of a stored resource keep the store well formed |
| GraphManager.WithStemLinksWellFormed | graphmanager.py:138-153 | the stem rows of a stored resource keep the store well formed |
| GraphManager.IngestResourceWellFormed | graphmanager.py:102-159 | add_resource keeps the store well formed |
| GraphManager.IngestResourceFrame | graphmanager.py:102-159 | add_resource leaves users, edges and scores alone, and only appends resources |
| GraphManager.IngestResourceSpec | graphmanager.py:102-159 | a returned row is stored and has the requested identity; a known identity changes nothing and returns the stored row; None is returned exactly for a new non-English text, and then nothing changes |
| GraphManager.IngestResourceNew | graphmanager.py:113-153 | a new English resource is saved as the last row, then linked to its entities, then to its stems |
| GraphManager.IngestedLinks | graphmanager.py:118-153 | a new English resource gets one ResourceEntity row per extracted entity, with its rho and pointing at the row with its name, and one ResourceStem row per stem, repeats included |
| GraphManager.EntityLinkRows | graphmanager.py:120-136 | the entity rows of a resource: one per mention, with its rho and the row of its name |
| GraphManager.StemLinkRows | graphmanager.py:138-153 | the stem rows of a resource: one per word, pointing at the row of the word |
| GraphManager.FindAppendedResource | graphmanager.py:103-105 | a resource appended with a new identity is the row the lookup then finds |
| GraphManager.IngestResourceIdempotent | graphmanager.py:102-159 | adding the same resource twice stores it at most once and returns the same result |
| GraphManager.GraphStore.LinkEntity | graphmanager.py:122-136 | one mention: an entity get-or-create and a ResourceEntity row |
| GraphManager.GraphStore.LinkEntities | graphmanager.py:121-136 | the loop over entities leaves the tables as WithEntityLinks says |
| GraphManager.GraphStore.LinkStem | graphmanager.py:140-153 | one stem: a stem get-or-create and a ResourceStem row |
| GraphManager.GraphStore.LinkStems | graphmanager.py:139-153 | the loop over stems leaves the tables as WithStemLinks says |
| GraphManager.GraphStore.SaveAndLink | graphmanager.py:118-153 | save, then link entities, then link stems |
| GraphManager.GraphStore.AddResource | graphmanager.py:102-159 | the tables and the result are those of IngestResource; the store stays well formed, resources are only appended, and a returned row is stored with the requested identity |
| GraphManager.GraphStore.MapUserWithResource | graphmanager.py:162-167 | exactly one edge row is appended, even for a pair that is already linked, and the store stays well formed |
| GraphManager.GraphStore.MarkCompleted | crawler.py:103-104 | only the user's row changes, to the same user marked completed |
| GraphManager.GraphStore.SaveResourceScore | answerquery.py:80-83 | a ResourceScore row is appended; existing rows are not replaced |
| GraphManager.GraphStore.SaveUserScore | answerquery.py:115-118 | a UserScore row is appended; existing rows are not replaced |
| AnswerQuery.StemCount | answerquery.py:21-33 | the count is at most the number of rows, and is 0 exactly when no row matches |
| AnswerQuery.StemCountRestricted | answerquery.py:21-33 | tf counts a subset of the rows rf counts, so tf is at most rf |
| AnswerQuery.Inverse | answerquery.py:34-37 | irf is in (0, 1], and is 1/rf when rf > 0, so there is never a division by zero |
| AnswerQuery.StemTermBounds | answerquery.py:21-39 | when tf is at most rf, a stem adds between 0 and 1, and 0 exactly when tf is 0 |
| AnswerQuery.StemScoreBounds | answerquery.py:18-39 | the stem score lies between 0 and the number of query stems, and is 0 when no query stem occurs in the resource |
| AnswerQuery.EntityRows | answerquery.py:44-50 | the rows returned are matching rows of the table; there are none exactly when no row matches |
| AnswerQuery.EntityRowsRestricted | answerquery.py:44-56 | ef counts a subset of the rows the entity's rf counts |
| AnswerQuery.SumRhoBounds | answerquery.py:64-68 | with each rho in [0, 1], the sum lies between 0 and the number of rows |
| AnswerQuery.SumRhoNonNegative | answerquery.py:64-68 | with non-negative rho, the sum is non-negative |
| AnswerQuery.EntityWeightRange | answerquery.py:62-73 | the weight is 0 without rows; with rho in [0, 1] it is either 0 or in (1, 2] |
| AnswerQuery.EntityTermNonNegative | answerquery.py:62-74 | with non-negative rho, weight · ef · eirf² is non-negative |
| AnswerQuery.EntityScoreNonNegative | answerquery.py:41-74 | with non-negative rho, the entity score is non-negative |
| AnswerQuery.EntityScoreZero | answerquery.py:41-74 | the entity score is 0 when the resource mentions no query entity |
| AnswerQuery.ResourceScoreZero | answerquery.py:17-77 | a resource containing no query stem and mentioning no query entity scores 0 |
| AnswerQuery.ResourceScoreNonNegative | answerquery.py:17-77 | with non-negative rho the score is non-negative; without query entities it is at most 0.6 times the number of query stems |
| AnswerQuery.ExampleTf | answerquery.py:21-27 | tf counts the stem's rows of the given resource: 3 in the example table |
| AnswerQuery.ExampleRf | answerquery.py:29-33 | rf counts the stem's rows of every resource: 5 in the example table |
| AnswerQuery.ResourceScoreExample | answerquery.py:17-77 | tf = 3, rf = 5 and no entities give 0.6 · 3/25 = 0.072 |
| AnswerQuery.StemScoreOf | answerquery.py:18-39 | the loop over query stems computes StemScore |
| AnswerQuery.EntityWeightOf | answerquery.py:62-73 | the innermost loop computes the mean rho plus 1 when positive, which is EntityWeight |
| AnswerQuery.EntityTermOf | answerquery.py:44-74 | one iteration over query entities computes EntityTerm of the resource's rows and the entity's rf |
| AnswerQuery.WeightedEntityTerm | answerquery.py:57-74 | weight · ef · eirf² for given rows and rf |
| AnswerQuery.EntityScoreOf | answerquery.py:41-74 | the loop over query entities computes EntityScore |
| AnswerQuery.ResourceScoreOf | answerquery.py:17-77 | the value computed is ResourceScoreValue, 0.6 · stem score + 0.4 · entity score |
| AnswerQuery.ComputeResourceScore | answerquery.py:17-83 | a ResourceScore row with that value is appended, and no other row changes |
| AnswerQuery.Insert | answerquery.py:93 | inserting adds exactly one row |
| AnswerQuery.InsertPermutes | answerquery.py:93 | inserting adds the row to the multiset and changes nothing else |
| AnswerQuery.InsertSorted | answerquery.py:93 | inserting into a descending sequence keeps it descending |
| AnswerQuery.InsertSpec | answerquery.py:93 | inserting is a permutation that keeps a descending sequence descending |
| AnswerQuery.SortDescSpec | answerquery.py:93 | `ORDER BY score DESC` yields a descending permutation of its rows |
| AnswerQuery.Take | answerquery.py:94 | `LIMIT n` keeps at most n rows, and never more than the input has |
| AnswerQuery.TakeRest | answerquery.py:94 | what a limit drops is exactly the tail past the limit |
| AnswerQuery.TakeSpec | answerquery.py:94 | a limit keeps a descending sub-multiset |
| AnswerQuery.TakeDominates | answerquery.py:93-94 | no row the limit drops outscores a row it keeps |
| AnswerQuery.TopSpec | answerquery.py:93-94 | `ORDER BY score DESC LIMIT n` keeps at most n input rows, in descending order, and no dropped row outscores a kept one |
| AnswerQuery.TopMembers | answerquery.py:93-94 | every kept row is an input row |
| AnswerQuery.ScoresOf | answerquery.py:91 | every joined score row of a resource is one of its ResourceScore rows |
| AnswerQuery.ScoresOfMultiplicity | answerquery.py:91 | the joined rows of a resource hold each of its score rows exactly as often as the ResourceScore table does, and nothing of other resources |
| AnswerQuery.UserRows | answerquery.py:87-92 | every joined row is a stored resource with one of its score rows, reached by one of the user's edges |
| AnswerQuery.EdgeRows | answerquery.py:87-92 | the rows one edge contributes are score rows of its stored resource, and only for an edge of the user |
| AnswerQuery.EdgeRowsMultiplicity | answerquery.py:87-92 | one edge of the user contributes each score row of its stored resource once, and other edges nothing |
| AnswerQuery.UserRowsMultiplicity | answerquery.py:87-92 | the join holds each score row of a stored resource once per edge of the user to it, and nothing else |
| AnswerQuery.DistanceWeight | answerquery.py:107-111 | the weight is 0.75 at distance 1, 0.5 at distance 2 and 1 at any other distance (0 included), so it always lies between 0.5 and 1 |
| AnswerQuery.UserRowsResolve | answerquery.py:95-106 | every row of the join has a score row and an edge for the two `get()` lookups to find |
| AnswerQuery.ContributionBounds | answerquery.py:95-113 | with a non-negative score, a row adds between half its resource's score and that score |
| AnswerQuery.WeightedSumNonNegative | answerquery.py:86-113 | with non-negative scores, the weighted sum is non-negative |
| AnswerQuery.UserScoreSpec | answerquery.py:85-113 | the user score sums at most 100 rows, every lookup succeeds, and it is non-negative when every score is |
| AnswerQuery.UserExampleRows | answerquery.py:87-94 | in the example the join yields both resources, the better one first |
| AnswerQuery.UserExampleContributions | answerquery.py:95-113 | in the example, scores 10 and 5 at distances 0 and 1 add 10 and 3.75 |
| AnswerQuery.UserExampleSum | answerquery.py:86-113 | in the example the weighted sum is 13.75 |
| AnswerQuery.UserScoreExample | answerquery.py:85-113 | scores [10, 5] at distances [0, 1] give a user score of 13.75 |
| AnswerQuery.WeightedSumOf | answerquery.py:86-113 | the loop over the rows computes WeightedSum |
| AnswerQuery.UserScoreOf | answerquery.py:85-113 | the value computed is UserScoreValue |
| AnswerQuery.ComputeUserScore | answerquery.py:85-118 | a UserScore row with that value is appended, and no other row changes |
| AnswerQuery.ScoredUsers | answerquery.py:124 | every joined user row is a stored user |
| AnswerQuery.ScoredUsersMultiplicity | answerquery.py:124 | the join holds each UserScore row of a stored user exactly once per occurrence, and nothing for other owners |
| AnswerQuery.Located | answerquery.py:131 | the rows kept are input rows whose resource has a location |
| AnswerQuery.LocatedMultiplicity | answerquery.py:131 | the filter keeps every row whose resource has a location, repeats included, and drops every other row |
| AnswerQuery.CandidateRows | answerquery.py:127-133 | the inner query keeps at most two of the user's located joined rows, by decreasing score, and no located row left out outscores a kept one |
| AnswerQuery.Candidates | answerquery.py:126-133 | the candidates are the stored resources of the candidate rows, in the same order: at most two, each with a location |
| AnswerQuery.AdmitOne | answerquery.py:134-136 | appending a presentable resource with a new external id keeps the results consistent |
| AnswerQuery.AdmitConsistent | answerquery.py:134-136 | the inner loop keeps `unique` equal to the results' external ids, which are distinct and presentable |
| AnswerQuery.AdmitGrows | answerquery.py:126-136 | the inner loop only appends, at most one result per candidate |
| AnswerQuery.AdmitFrom | answerquery.py:126-136 | the inner loop appends candidates only |
| AnswerQuery.GatherSpec | answerquery.py:124-136 | the outer loop keeps the results consistent, drawn from the stored resources, and at most 11 |
| AnswerQuery.AllCandidates | answerquery.py:124-133 | the candidates of a sequence of users, in order, number at most two per user |
| AnswerQuery.AdmitSubsequence | answerquery.py:126-136 | the inner loop appends a subsequence of the user's candidates |
| AnswerQuery.GatherSubsequence | answerquery.py:124-136 | the outer loop's results are a subsequence of the candidates of the users it has seen, in order |
| AnswerQuery.FirstPresentable | answerquery.py:134 | the resource found is a candidate with the given external id and a non-blank location; none is found exactly when no such candidate exists |
| AnswerQuery.FirstPresentableIndex | answerquery.py:134 | the resource found is the candidate at the lowest position that has the given external id and a non-blank location |
| AnswerQuery.AdmitFirst | answerquery.py:126-136 | if every earlier result was the first acceptable candidate of its external id, and every acceptable candidate seen had its id taken, the inner loop keeps both facts over the user's candidates, and never drops a taken id |
| AnswerQuery.AdmitCovers | answerquery.py:126-136 | after the inner loop every acceptable candidate of the user has its external id in `unique`, and earlier ids stay |
| AnswerQuery.GatherFirst | answerquery.py:124-136 | every result of the outer loop is the first acceptable candidate with its external id among the candidates of the users seen, in order; while fewer than 10 results are held, every acceptable candidate seen has its id taken |
| AnswerQuery.CandListsAt | answerquery.py:126-133 | the candidate list for the i-th user is that user's candidates |
| AnswerQuery.HeldAt | answerquery.py:125 | the count the length test reads at the i-th user is the number of results gathered from the users before it |
| AnswerQuery.GatherReached | answerquery.py:124-136 | every acceptable candidate of a user that the outer loop reached with fewer than 10 results has its external id taken |
| AnswerQuery.BestResultsIncludes | answerquery.py:121-137 | each result is the first acceptable candidate with its external id in loop order; every acceptable candidate of the i-th top user, reached when the results gathered from the users before it were fewer than 10, has a result with its external id; with fewer than 10 results that holds for every acceptable candidate |
| AnswerQuery.BestResultsShape | answerquery.py:121-137 | get_best_results returns at most 11 stored resources, no two sharing an external id and none without a non-blank location; they are a subsequence of the candidates of at most ten users taken by decreasing user score, each user's at most two candidates by decreasing resource score |
| AnswerQuery.BestResultsSpec | answerquery.py:121-137 | all of BestResultsShape and BestResultsIncludes together: what get_best_results keeps out, in which order, and which first acceptable candidates it must include |
| AnswerQuery.AdmitAll | answerquery.py:126-136 | the inner loop computes Admit |
| AnswerQuery.GetBestResults | answerquery.py:121-137 | the loops compute BestResults |
| Crawling.SelectUserSpec | crawler.py:52-66 | the selected user is the first uncompleted user of the network whose uid is not in the window; there is none exactly when every such user is in the window |
| Crawling.AdvanceSpec | crawler.py:71 | the visited user heads a window of one or two; the oldest member leaves exactly when the window held two, and the rest keep their order |
| Crawling.CompletionOrder | crawler.py:101-104 | visiting U1..U4 from an empty window completes U1 in step 3 and U2 in step 4 |
| Crawling.ProfileEdgesSpec | crawler.py:80-84 | a profile gets one edge per window member, at the member's position as distance |
| Crawling.PostEdgesSpec | crawler.py:92-94 | a post gets edges to the first two window members at their position plus one, so never at distance 0 |
| Crawling.IngestAndLinkFrame | crawler.py:77-94 | the users stay; when add_resource returns None no edge is added, otherwise exactly the part's edges are appended |
| Crawling.IngestAndLinkOutcome | crawler.py:77-94 | the part's edges are added to the tables add_resource leaves, exactly when it returns a resource |
| Crawling.IngestAndLinkWellFormed | crawler.py:77-94 | linking a resource to stored window members keeps the store well formed |
| Crawling.LinkProfileWellFormed | crawler.py:74-84 | the profile part keeps the store well formed |
| Crawling.LinkProfileEdges | crawler.py:76-84 | the profile part leaves the users alone and only appends edges at distance 0 to 2, each to the window member at that position |
| Crawling.LinkPostsWellFormed | crawler.py:87-94 | the loop over posts keeps the store well formed |
| Crawling.LinkPostsEdges | crawler.py:87-94 | the loop over posts only appends edges at distance 1 or 2, each to the member at that position minus one |
| Crawling.AddFolloweesSpec | crawler.py:97-98 | the followees only add users and keep the store well formed |
| Crawling.AddFolloweesUsers | crawler.py:97-98 | add_user on each followee keeps every stored user row |
| Crawling.LinkedPreserves | crawler.py:74-98 | profile, posts and followees keep the store well formed and the window stored |
| Crawling.VisitPreserves | crawler.py:71-104 | visiting a stored, uncompleted user outside the window keeps the store well formed, and the window at most two distinct stored users, none completed |
| Crawling.CompletePreserves | crawler.py:101-104 | completing the oldest of three distinct window members keeps the store well formed and the other two stored |
| Crawling.FirstRunVisit | crawler.py:48-50 | on the first run the window is empty, and the first user is appended as a new uncompleted row and visited |
| Crawling.SelectedVisit | crawler.py:51-66 | otherwise the selected user is stored, uncompleted, outside the window, and visited |
| Crawling.CrawlStepPreserves | crawler.py:47-104 | a step keeps the store well formed and the window at most two distinct stored users, none completed; empty, with no user of the network stored, while firstRun holds |
| Crawling.CrawlStepOutcome | crawler.py:47-104 | without a user to visit nothing changes; otherwise firstRun is cleared, the visited user heads the window, and the oldest member is evicted exactly when the window was full |
| Crawling.CrawlStepCompletion | crawler.py:100-104 | a step marks at most one stored user completed, the evicted one, which was not completed before; every other stored user row is unchanged, and users are only appended |
| Crawling.CompletedStaysOut | crawler.py:47-104 | a completed user stays completed and is not in the window after the step, so it is never visited or completed again |
| Crawling.VisitUsers | crawler.py:71-104 | visiting keeps every stored user row except the evicted one, which is marked completed |
| Crawling.Crawler.constructor | crawler.py:41-42 | the window starts empty, and firstRun holds exactly when the network has no stored user |
| Crawling.Crawler.MapProfileResource | crawler.py:79-84 | the three map_user_with_resource calls append exactly the profile's edges |
| Crawling.Crawler.MapPostResource | crawler.py:91-94 | the two map_user_with_resource calls append exactly a post's edges |
| Crawling.Crawler.VisitProfile | crawler.py:73-84 | the store afterwards is LinkProfile of the store before, with the users unchanged |
| Crawling.Crawler.VisitPost | crawler.py:90-94 | one post: the store afterwards is IngestAndLink of the store before |
| Crawling.Crawler.VisitPosts | crawler.py:86-94 | the loop over posts leaves the store as LinkPosts says, with the users unchanged |
| Crawling.Crawler.VisitFollowees | crawler.py:96-98 | the loop over followees leaves the store as AddFollowees says |
| Crawling.Crawler.AdvanceWindow | crawler.py:100-104 | the window moves as Advance says, and only the evicted user is marked completed |
| Crawling.Crawler.VisitUser | crawler.py:71-104 | the loop body after selection gives Visit's store, window and outcome, and keeps the window invariant |
| Crawling.Crawler.Step | crawler.py:47-104 | one loop iteration gives CrawlStep's store, window, flag and outcome, and keeps the crawler valid |

## Left out

- Network I/O is left out: the Instagram crawler, AlchemyAPI link expansion
  and TAGME entity extraction. These are the `Source` and `Analyzer`
  functions. Their retry loops and sleeps are not modelled.
- `print` statements, the statistics and the loop timing at
  crawler.py:106-110 are left out.
- The peewee/MySQL layer is left out: the connection, `create_table`, and
  the SQL the ORM builds. Tables are sequences, keys are positions, and a
  `get()` matching several rows returns the first in table order.
- The contents of the regular expressions are abstract. USERNAME_REGEX and
  EMAIL_REGEX matches are masks supplied by a `Toolkit`, and
  `wordpunct_tokenize`, the Porter stemmer and the stopword lists are
  `Toolkit` fields.
- Strings are sequences of Unicode code points, as on a UCS-4 (wide) Python
  2 build. On that build EMOJI_REGEX (resourceutil.py:34) matches one
  character above U+FFFF. On a UCS-2 (narrow) build a string is a sequence
  of UTF-16 code units, and EMOJI_REGEX is the surrogate-pair pattern of
  resourceutil.py:37. The narrow build is not modelled.
- GraphManager.SanitizeUnicode: writes one U+25FD per character outside
  U+0000-U+D7FF and U+E000-U+FFFF, which holds on a UCS-4 build only. On a
  UCS-2 build the class of graphmanager.py:6, applied at graphmanager.py:107
  and graphmanager.py:110, matches each surrogate of a pair on its own, so
  one character above U+FFFF becomes two U+25FD.
- ResourceUtil.Strip, ResourceUtil.BlankSymbols, ResourceUtil.Delete: the
  positions their contracts state count code points. On a UCS-2 build they
  would count code units, and every position after a character above U+FFFF
  would shift by one.
- URL_REGEX and `extract_content_from_url` are not modelled; `format_url` is
  modelled on its own.
- Floating-point scores are `real`, so rounding is not modelled.
- The order of rows with equal scores under `ORDER BY ... DESC` is not fixed
  by the database. The model's insertion sort is one admissible order.
- ResourceUtil.LowerChar: lowercases ASCII letters only. The Unicode case
  mapping of `unicode.lower()` is not modelled.
- Crawling.Crawler.Step and Crawling.CrawlStepPreserves take, on the first
  run, a first user of the crawled network that is not completed, as
  instagram_crawler.py:21-44 builds it; the base class leaves
  `get_first_user` abstract.
- Crawling.Crawler.Step: when `User.get` finds no user to visit the source
  raises and ends the loop. The model returns the outcome
  `NoUncompletedUser` and changes nothing.
- The crawler's `Source` returns a list of posts and of followees. A `None`
  from those sources, which the source's `for` loops would reject, is not
  modelled.
- GraphManager.IngestResource: on the non-English path the source also
  rewrites the caller's resource object in memory, with sanitised content
  and location. Nothing is stored then, so the model does not carry that
  object.
- AnswerQuery.Contribution: its 0.0 branch, for a lookup that finds no row,
  never applies to a row of the join (`UserRowsResolve`). Where the source
  would raise, the model adds 0.
- `compute_resource_score` takes entity dictionaries. The model takes their
  `'entity'` names, the only field it reads.
- `get_best_results` is bounded by 11 results, not 10, because its length
  check gates each user rather than each append. The model keeps this; a
  tighter bound does not hold.
