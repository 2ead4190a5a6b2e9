# Reddit lead discovery and qualification — a Dafny model

This project models the two service functions at the heart of the lead-finding app.

- **Search** (`searchReddit` and `executeSearch`, module `RedditSearch`):
  - normalises the community names (drops a leading `r/` in either case, trims, drops empty names);
  - builds the keyword clause from the first five keywords and the subreddit clause;
  - joins the non-empty clauses into the targeted query;
  - runs it, and runs the keyword clause alone when the targeted query finds nothing and a subreddit was given;
  - turns a search response into leads, with per-field fallbacks. Every failure of the request or of its response gives the empty list.
- **Qualification** (`qualifyLeads`, module `LeadQualifier`):
  - with no leads, returns at once without calling the model;
  - otherwise builds the batched prompt, giving each lead's position, author, subreddit, title and first 400 characters;
  - merges the model's evaluations onto the leads by position: the first matching entry wins, and each missing field gets its default;
  - sorts the result stably by descending score.
- **Shared shapes** (`types.ts`, module `Types`): the analysis, the lead and the time filter.
- **Text** (module `Text`): the JavaScript string operations the code relies on — `trim`, `join`, `substring(0, n)` and the decimal rendering of an index.

Two calls are oracles passed in as function parameters:
- the HTTP request: `fetch`, from a request (token, query text, time window) to its outcome;
- the generative-model call together with parsing its reply: `generate`, from the prompt text to a failure or an array of evaluations.

Everything the services do with those outcomes is modelled.

`searchReddit` reassigns `items` to run its fallback tier, so it is a method. `SearchReddit` also returns the list of query texts it sent, so its contract can say which requests were made and in what order. All other operations are pure functions.

The stable sort is specified by two things: sortedness, and "for every score, the leads with that score appear in their input order" (`WithScore`). `StableSortUnique` proves that exactly one sequence meets both. So the insertion sort used as the reference definition gives the same result as any stable sort, including the engine's `Array.prototype.sort`.

Cleaning strips the prefix before trimming, so `" r/foo "` becomes `"r/foo"`; `CleanNameLeadingSpaceKeepsPrefix` proves it.

## Model

| member | source | states |
|---|---|---|
| Text.LeadingSpaceEnd | services/redditService.ts:59 | returns the position of the first non-whitespace character; every character before it is whitespace |
| Text.TrailingSpaceStart | services/redditService.ts:59 | returns the position just after the last non-whitespace character; every character from it on is whitespace |
| Text.Trim | services/redditService.ts:59 | the trimmed string is no longer than the input and has no whitespace at either end |
| Text.TrimIsTrimOf | services/redditService.ts:59 | the trimmed string is the input minus a leading run and a trailing run of whitespace |
| Text.TrimUnique | services/redditService.ts:59 | any slice of the input that has only whitespace around it and none at its own ends is the trimmed string |
| Text.TrimOfPadded | services/redditService.ts:59 | trimming whitespace-padded text with no edge whitespace gives back exactly that text |
| Text.Join | services/redditService.ts:63 | definition: `Array.prototype.join(sep)` over strings (also used at lines 67 and 71, and at services/geminiService.ts:75) |
| Text.JoinConcat | services/redditService.ts:67 | joining a concatenation of two non-empty lists is joining each and putting one separator between them |
| Text.JoinContains | services/geminiService.ts:75 | every element of the list occurs in the joined text |
| Text.ContainsWithin | services/geminiService.ts:66-76 | text placed around a string keeps every part of it |
| Text.JoinPair | services/redditService.ts:71 | joining two strings puts the separator between them |
| Text.JoinAppend | services/redditService.ts:63 | join matches the left-to-right accumulation `R + sep + next` |
| Text.Prefix | services/geminiService.ts:75 | `substring(0, n)` returns a prefix of length min(n, length) |
| Text.NatToString | services/geminiService.ts:75 | an index renders as a non-empty string of digits, with a leading '0' only for 0 |
| Text.ParseNatToString | services/geminiService.ts:75 | reading the rendered digits back gives the index (round trip) |
| Text.LeadingDigits | services/geminiService.ts:75 | returns the longest run of digits at the start of a string |
| Text.LeadingDigitsOfConcat | services/geminiService.ts:75 | digits followed by a non-digit are read back as exactly those digits |
| Types.StringOr | services/redditService.ts:104-106 | definition: the JavaScript or-with-fallback on a string gives v when v is a non-empty string, otherwise the fallback (also services/geminiService.ts:107-109) |
| Types.IntOrZero | services/redditService.ts:110 | definition: the JavaScript `or 0` on a number gives 0 for a missing value and for 0, and the value otherwise (also services/geminiService.ts:106 and :111) |
| RedditSearch.StripSubredditPrefix | services/redditService.ts:59 | `/^r\//i` is removed exactly when the name starts with "r/" or "R/"; any other name is returned unchanged |
| RedditSearch.CleanName | services/redditService.ts:59 | a cleaned name is no longer than the input and has no whitespace at either end |
| RedditSearch.DropEmpty | services/redditService.ts:60 | the filtered list is no longer than the input and contains no empty name |
| RedditSearch.DropEmptyKeeps | services/redditService.ts:60 | every non-empty name is kept |
| RedditSearch.DropEmptySource | services/redditService.ts:60 | every kept name comes from the input |
| RedditSearch.DropEmptyIsEmpty | services/redditService.ts:60 | nothing is left exactly when every name is empty |
| RedditSearch.DropEmptyPair | services/redditService.ts:60 | two non-empty names are both kept, in order |
| RedditSearch.DropEmptyAppend | services/redditService.ts:60 | the filter keeps the input order (it distributes over concatenation) |
| RedditSearch.CleanNames | services/redditService.ts:59 | the mapped list has one entry per input name, and entry k is the cleaned form of name k |
| RedditSearch.CleanAll | services/redditService.ts:58-60 | the cleaned list is no longer than the input; each entry is non-empty with no whitespace at either end |
| RedditSearch.CleanAllKeeps | services/redditService.ts:58-60 | every name whose cleaned form is non-empty appears in the cleaned list |
| RedditSearch.CleanAllSource | services/redditService.ts:58-60 | every entry of the cleaned list is the cleaned form of some input name |
| RedditSearch.CleanAllEmpty | services/redditService.ts:58-60 | the cleaned list is empty exactly when every name cleans to "" |
| RedditSearch.CleanNamesAppend | services/redditService.ts:59 | the map step works name by name, in order |
| RedditSearch.CleanAllAppend | services/redditService.ts:58-60 | cleaning keeps the input order (it distributes over concatenation) |
| RedditSearch.CleanSubreddits | services/redditService.ts:58-60 | definition: `subreddits or []`, then cleaned; an absent list counts as empty |
| RedditSearch.CleanNameCases | services/redditService.ts:59 | a name starting with "r/" or "R/" loses the prefix and is then trimmed; any other name is only trimmed |
| RedditSearch.CleanNameLeadingSpaceKeepsPrefix | services/redditService.ts:59 | the prefix is removed only at the very start, so " r/foo " cleans to "r/foo" |
| RedditSearch.CleanNamePrefixedExample | services/redditService.ts:59 | "r/startups" cleans to "startups" |
| RedditSearch.CleanNamePaddedExample | services/redditService.ts:59 | " SaaS " cleans to "SaaS" |
| RedditSearch.CleanAllPair | services/redditService.ts:58-60 | two names with non-empty cleaned forms give both cleaned forms, in order |
| RedditSearch.CleanSubredditsExample | services/redditService.ts:58-60 | ["r/startups", " SaaS "] cleans to ["startups", "SaaS"] |
| RedditSearch.KeywordClause | services/redditService.ts:62-64 | the clause is "" exactly when there are no keywords; otherwise it is "(" + the first min(5, n) keywords joined by " OR " + ")" |
| RedditSearch.KeywordClauseIgnoresExtra | services/redditService.ts:63 | keywords after the fifth never affect the clause |
| RedditSearch.KeywordClauseUnderCap | services/redditService.ts:63 | with one to five keywords, every keyword is an OR-term |
| RedditSearch.KeywordClausePair | services/redditService.ts:62-64 | two keywords give "(k1 OR k2)" |
| RedditSearch.Scoped | services/redditService.ts:67 | definition: each cleaned name becomes the term "subreddit:" + name, in order |
| RedditSearch.ScopedAppend | services/redditService.ts:67 | the terms are made name by name, in order (it distributes over concatenation) |
| RedditSearch.SubredditClause | services/redditService.ts:66-68 | the clause is "" exactly when no cleaned name is left |
| RedditSearch.SubredditClauseAppend | services/redditService.ts:66-68 | for two non-empty lists a and b, the clause for a + b ORs the terms of a and then the terms of b, inside one pair of parentheses |
| RedditSearch.SubredditClausePair | services/redditService.ts:66-68 | two names give "(subreddit:a OR subreddit:b)" |
| RedditSearch.TargetedQuery | services/redditService.ts:71 | both clauses present: they are joined by one space; one clause empty: the query is the other clause |
| RedditSearch.TargetedWithoutSubredditsIsBroad | services/redditService.ts:66-71 | with no cleaned subreddit, the targeted query is the keyword clause |
| RedditSearch.ToLead | services/redditService.ts:102-112 | a lead built from a result has no AI field; it keeps id, subreddit and time; its url is "https://reddit.com" + permalink; it is a post iff the result has a non-empty title; title, content and author are never empty |
| RedditSearch.ToLeadFallbacks | services/redditService.ts:104-111 | a post keeps its title and a comment gets "Reddit Conversation"; the content is the selftext if non-empty, else the body if non-empty, else "No content available."; a non-empty author is kept, and a missing or empty one becomes "anonymous"; a present score is kept and a missing one gives 0 |
| RedditSearch.MapChildren | services/redditService.ts:102 | mapping fails exactly when some child lacks `data`; otherwise lead k comes from child k |
| RedditSearch.ExecuteSearch | services/redditService.ts:86-117 | a search returns only raw leads; a non-empty result means an ok, well-formed response, mapped one child to one lead |
| RedditSearch.ExecuteSearchSuccess | services/redditService.ts:97-112 | a well-formed ok response gives exactly one lead per child, in order |
| RedditSearch.ExecuteSearchFailures | services/redditService.ts:97-116 | a thrown request, a non-ok status, a non-JSON body, missing `data` or `children`, or a child without `data` each give [] |
| RedditSearch.RunSearch | services/redditService.ts:72 | one search tier sends one request for the query and returns only raw leads (also line 77) |
| RedditSearch.SearchReddit | services/redditService.ts:52-81 | the targeted query is sent first; the keyword clause is sent second exactly when the first result is empty and a subreddit survived cleaning; the leads returned are the last query's; with no subreddit only the keyword clause is sent; every lead is raw |
| LeadQualifier.Prompt | services/geminiService.ts:66-76 | every lead's line occurs in the prompt |
| LeadQualifier.PromptHead | services/geminiService.ts:66-74 | definition: the business name and summary, the number of entries and the instructions, as in the template |
| LeadQualifier.PromptItems | services/geminiService.ts:75 | every lead's line occurs in the item list |
| LeadQualifier.PromptLine | services/geminiService.ts:75 | definition: "ID " + position, then author, subreddit, title and the first 400 characters of content |
| LeadQualifier.LineBody | services/geminiService.ts:75 | the text after a lead's position starts with ':' |
| LeadQualifier.PromptLines | services/geminiService.ts:75 | there is one line per lead, and line k presents lead k under its own position |
| LeadQualifier.PromptLineAnnouncesIndex | services/geminiService.ts:75 | reading the number after "ID " on lead i's line gives back exactly i |
| LeadQualifier.PromptLineIgnoresContentTail | services/geminiService.ts:75 | a lead's line depends only on its author, subreddit, title and first 400 characters of content |
| LeadQualifier.FindEvaluation | services/geminiService.ts:103 | finds no entry exactly when no entry has index i; otherwise returns the first entry with index i |
| LeadQualifier.FindEvaluationAppend | services/geminiService.ts:103 | searching a concatenation looks at the second part only when the first part has no match |
| LeadQualifier.ScoreFrom | services/geminiService.ts:106 | definition: the found entry's score with `or 0`, or 0 when no entry was found |
| LeadQualifier.TextFrom | services/geminiService.ts:107-109 | definition: the found entry's text field if non-empty, otherwise the field's default |
| LeadQualifier.WithEvaluation | services/geminiService.ts:104-110 | qualifying a lead keeps all of its own fields and sets all four AI fields |
| LeadQualifier.Merge | services/geminiService.ts:102-110 | the merged list has one lead per input lead, each with its own fields intact and its AI fields set from the first evaluation for its position |
| LeadQualifier.MergeFields | services/geminiService.ts:103-109 | a lead with no evaluation gets 0, "N/A", "Potential user" and ""; otherwise it gets the first matching entry's fields, with each falsy field replaced by its default |
| LeadQualifier.MergeIgnoresUnmatched | services/geminiService.ts:103 | an entry whose index is missing, out of range or already answered changes nothing |
| LeadQualifier.MergeGapIsLocal | services/geminiService.ts:103 | appending an entry for another position leaves a lead's result unchanged |
| LeadQualifier.Key | services/geminiService.ts:111 | definition: the comparator's sort key, the score with `or 0` |
| LeadQualifier.Insert | services/geminiService.ts:111 | definition: place a lead in front of the first lead whose score does not exceed its own |
| LeadQualifier.InsertPermutes | services/geminiService.ts:111 | insertion adds exactly the inserted lead (as a multiset) |
| LeadQualifier.InsertBounded | services/geminiService.ts:111 | insertion introduces no score above a common bound |
| LeadQualifier.InsertSorted | services/geminiService.ts:111 | inserting into a list sorted by descending score keeps it sorted |
| LeadQualifier.InsertWithScore | services/geminiService.ts:111 | the inserted lead comes first among the leads of its own score; other scores are untouched |
| LeadQualifier.WithScoreCons | services/geminiService.ts:111 | the leads of score k in y + t are y (if its score is k) followed by those of t |
| LeadQualifier.InsertStep | services/geminiService.ts:111 | inserting one more lead into a stable sort of t gives a stable sort of that lead followed by t |
| LeadQualifier.SortByScore | services/geminiService.ts:111 | the sort keeps length and multiset, sorts by non-increasing score, and keeps leads of equal score in input order |
| LeadQualifier.StableSortUnique | services/geminiService.ts:111 | two sequences sorted by score with the same per-score order are equal |
| LeadQualifier.WithScoreTail | services/geminiService.ts:111 | dropping the first lead drops it from its own score group only |
| LeadQualifier.SortedTail | services/geminiService.ts:111 | a suffix of a sorted list is sorted |
| LeadQualifier.WithScoreMember | services/geminiService.ts:111 | a sorted list that contains a lead of score k starts with a score of at least k |
| LeadQualifier.SortByScoreUnique | services/geminiService.ts:111 | any sorted list with the same per-score order as s is the sort of s |
| LeadQualifier.Qualify | services/geminiService.ts:60-112 | no leads: returns [] without calling the model; it fails exactly when the model call fails or its reply cannot be parsed; on success the result has one qualified lead per input lead, sorted by descending score |
| LeadQualifier.Ids | services/geminiService.ts:105 | lists the leads' ids, position by position |
| LeadQualifier.InsertIds | services/geminiService.ts:111 | insertion adds one occurrence of the inserted lead's id |
| LeadQualifier.SortByScoreKeepsIds | services/geminiService.ts:111 | sorting adds, drops or duplicates no id |
| LeadQualifier.QualifyCorrect | services/geminiService.ts:102-111 | a successful qualification is a reordering of the merged leads, with the same length and the same multiset of ids as the input; it is sorted, and leads of equal score stay in input order |
| LeadQualifier.QualifyIsTheStableSort | services/geminiService.ts:111 | any ordering of the merged leads that is sorted and keeps equal scores in input order is the qualification's result |
| LeadQualifier.QualifyDependsOnlyOnPrompt | services/geminiService.ts:66-78 | the model is consulted only on the prompt: two models that answer that prompt alike give the same qualification |

## Left out

- The OAuth token request (`getAccessToken`), the request URL with `encodeURIComponent`, the headers and the network: the request is the `fetch` oracle. It receives the token, the query text and the time window.
- `SearchReddit`: `encodeURIComponent` (services/redditService.ts:87) runs before the `try` at line 89. A query holding a lone UTF-16 surrogate makes it throw a URIError that escapes `searchReddit`. Dafny strings cannot hold lone surrogates, so that error is not modelled.
- Logging (`console.log`, `console.error`): it has no effect on results.
- `analyzeService` and the UI component `components/LeadCard.tsx` are not part of this model, nor is the `AppState` interface of `types.ts`.
- The generative-model call, its configuration and response schema, and `JSON.parse` of the reply are not modelled: the `generate` oracle stands for them. A JSON reply that is not an array makes `.find` throw, and counts as an unparseable reply.
- `FindEvaluation`: null entries in the reply array are not modelled. In the source, `.find` throws on a null entry only when it reaches that entry before finding a match.
- `Qualify`: the SDK's reply-text accessor (`response.text()`) is library code outside this model. The model assumes the accessor yields the reply text.
- `Qualify`: scores (`aiScore`) and times (`createdAt`) are JavaScript numbers. The model uses unbounded integers: no fractional scores, NaN or infinities, and the comparator's subtraction is exact.
- `Evaluation`: an entry's `index` is all the merge looks at. A non-integer index can never be `===` to a position, so it is modelled as missing. Evaluation fields of unexpected JSON types are not modelled.
- `RawPost`: `id`, `subreddit` and `permalink` are modelled as present strings. An absent `permalink` would render as the text "undefined" in the url; that case is not modelled.
- `Text.Prefix`: counts characters, while JavaScript's `substring` counts UTF-16 code units. The two differ only for text outside the Basic Multilingual Plane.
- `LeadQualifier.Prompt`: the exact instruction text is kept as one constant. The proofs rely only on the item lines and the lead count in it.

