/**
 * Search-query construction, the two-tier (targeted, then keyword-only) search, and the
 * normalisation of raw search results into leads.
 *
 * The HTTP request is not modelled: a search is an oracle `fetch` from a request (token,
 * query text, time window) to the outcome of the request, and everything the service does
 * with that outcome is modelled.
 */
module RedditSearch {
  import opened Types
  import opened Text

  /** At most this many keywords go into the keyword clause. */
  const MaxKeywords: nat := 5

  const DefaultTitle := "Reddit Conversation"
  const DefaultContent := "No content available."
  const DefaultAuthor := "anonymous"
  const LinkBase := "https://reddit.com"

  function Min(a: nat, b: nat): nat
  {
    if a <= b then a else b
  }

  // ---------------------------------------------------------------------------------------
  // Subreddit cleaning

  /** `s.replace(/^r\//i, '')`: drop a leading "r/" or "R/". */
  function StripSubredditPrefix(s: string): (r: string)
    ensures |s| >= 2 && s[..2] in {"r/", "R/"} ==> r == s[2..]
    ensures !(|s| >= 2 && s[..2] in {"r/", "R/"}) ==> r == s
  {
    if |s| >= 2 then
      assert s[..2] == [s[0], s[1]];
      if (s[0] == 'r' || s[0] == 'R') && s[1] == '/' then s[2..] else s
    else s
  }

  /** One subreddit name as cleaned: prefix removed first, then trimmed. */
  function CleanName(s: string): (r: string)
    ensures |r| <= |s|
    ensures NoEdgeSpace(r)
  {
    Trim(StripSubredditPrefix(s))
  }

  /** `.filter(s => s.length > 0)`: the non-empty strings, in order. */
  function DropEmpty(ys: seq<string>): (r: seq<string>)
    ensures |r| <= |ys|
    ensures forall k :: 0 <= k < |r| ==> r[k] != ""
  {
    if ys == [] then []
    else if ys[0] == "" then DropEmpty(ys[1..])
    else [ys[0]] + DropEmpty(ys[1..])
  }

  /** Every non-empty string is kept. */
  lemma {:induction false} DropEmptyKeeps(ys: seq<string>, k: nat)
    requires k < |ys| && ys[k] != ""
    ensures ys[k] in DropEmpty(ys)
  {
    if k > 0 {
      assert ys[1..][k - 1] == ys[k];
      DropEmptyKeeps(ys[1..], k - 1);
    }
  }

  /** Every kept string comes from the input. */
  lemma {:induction false} DropEmptySource(ys: seq<string>, k: nat)
    requires k < |DropEmpty(ys)|
    ensures exists i :: 0 <= i < |ys| && ys[i] == DropEmpty(ys)[k]
  {
    if ys[0] == "" || k > 0 {
      var k' := if ys[0] == "" then k else k - 1;
      DropEmptySource(ys[1..], k');
      var i :| 0 <= i < |ys[1..]| && ys[1..][i] == DropEmpty(ys[1..])[k'];
      assert ys[i + 1] == DropEmpty(ys)[k];
    }
  }

  /** Nothing is left exactly when every string is empty. */
  lemma {:induction false} DropEmptyIsEmpty(ys: seq<string>)
    ensures DropEmpty(ys) == [] <==> forall k :: 0 <= k < |ys| ==> ys[k] == ""
  {
    if ys != [] {
      DropEmptyIsEmpty(ys[1..]);
      assert forall k :: 1 <= k < |ys| ==> ys[k] == ys[1..][k - 1];
    }
  }

  lemma DropEmptyPair(a: string, b: string)
    requires a != "" && b != ""
    ensures DropEmpty([a, b]) == [a, b]
  {
    assert [a, b][1..] == [b] && [b][1..] == [];
  }

  /** Filtering goes element by element, so it keeps the input order. */
  lemma {:induction false} DropEmptyAppend(xs: seq<string>, ys: seq<string>)
    ensures DropEmpty(xs + ys) == DropEmpty(xs) + DropEmpty(ys)
  {
    if xs == [] {
      assert xs + ys == ys;
    } else {
      assert (xs + ys)[0] == xs[0];
      assert (xs + ys)[1..] == xs[1..] + ys;
      DropEmptyAppend(xs[1..], ys);
    }
  }

  /** `.map(s => s.replace(/^r\//i, '').trim())`. */
  function CleanNames(xs: seq<string>): (r: seq<string>)
    ensures |r| == |xs|
    ensures forall k :: 0 <= k < |r| ==> r[k] == CleanName(xs[k])
  {
    if xs == [] then [] else [CleanName(xs[0])] + CleanNames(xs[1..])
  }

  /** The cleaned names in order, the empty ones dropped: none of them is empty or has a
      space at either end. */
  function CleanAll(xs: seq<string>): (r: seq<string>)
    ensures |r| <= |xs|
    ensures forall k :: 0 <= k < |r| ==> r[k] != "" && NoEdgeSpace(r[k])
  {
    var r := DropEmpty(CleanNames(xs));
    assert forall k :: 0 <= k < |r| ==> NoEdgeSpace(r[k]) by {
      forall k | 0 <= k < |r| ensures NoEdgeSpace(r[k]) {
        DropEmptySource(CleanNames(xs), k);
      }
    }
    r
  }

  /** Every name that does not clean to "" is kept. */
  lemma CleanAllKeeps(xs: seq<string>, k: nat)
    requires k < |xs| && CleanName(xs[k]) != ""
    ensures CleanName(xs[k]) in CleanAll(xs)
  {
    DropEmptyKeeps(CleanNames(xs), k);
  }

  /** Every kept name is the cleaned form of some input name. */
  lemma CleanAllSource(xs: seq<string>, k: nat)
    requires k < |CleanAll(xs)|
    ensures exists i :: 0 <= i < |xs| && CleanName(xs[i]) == CleanAll(xs)[k]
  {
    DropEmptySource(CleanNames(xs), k);
  }

  /** Nothing is left exactly when every name cleans to "". */
  lemma CleanAllEmpty(xs: seq<string>)
    ensures CleanAll(xs) == [] <==> forall k :: 0 <= k < |xs| ==> CleanName(xs[k]) == ""
  {
    DropEmptyIsEmpty(CleanNames(xs));
  }

  lemma {:induction false} CleanNamesAppend(xs: seq<string>, ys: seq<string>)
    ensures CleanNames(xs + ys) == CleanNames(xs) + CleanNames(ys)
  {
    if xs == [] {
      assert xs + ys == ys;
    } else {
      assert (xs + ys)[0] == xs[0];
      assert (xs + ys)[1..] == xs[1..] + ys;
      CleanNamesAppend(xs[1..], ys);
    }
  }

  /** Cleaning keeps the input order. */
  lemma CleanAllAppend(xs: seq<string>, ys: seq<string>)
    ensures CleanAll(xs + ys) == CleanAll(xs) + CleanAll(ys)
  {
    CleanNamesAppend(xs, ys);
    DropEmptyAppend(CleanNames(xs), CleanNames(ys));
  }

  /** `(subreddits || []).map(...).filter(...)`: an absent list counts as empty. */
  function CleanSubreddits(subreddits: Option<seq<string>>): seq<string>
  {
    match subreddits
    case None => []
    case Some(xs) => CleanAll(xs)
  }

  /** A name carrying the prefix loses it and then its surrounding spaces; any other name is
      only trimmed. */
  lemma CleanNameCases(s: string)
    ensures IsTrimOf(CleanName(s), if |s| >= 2 && s[..2] in {"r/", "R/"} then s[2..] else s)
  {
    if |s| >= 2 && s[..2] in {"r/", "R/"} {
      assert s[0] == s[..2][0] && s[1] == s[..2][1];
    } else if |s| >= 2 && (s[0] == 'r' || s[0] == 'R') && s[1] == '/' {
      assert s[..2] == [s[0], s[1]];
    }
    TrimIsTrimOf(StripSubredditPrefix(s));
  }

  /** The prefix is removed only at the very start, before trimming: a name with a leading
      space keeps its "r/". */
  lemma CleanNameLeadingSpaceKeepsPrefix()
    ensures CleanName(" r/foo ") == "r/foo"
  {
    assert StripSubredditPrefix(" r/foo ") == " r/foo ";
    assert " r/foo " == " " + "r/foo" + " ";
    TrimOfPadded(" ", "r/foo", " ");
  }

  // ---------------------------------------------------------------------------------------
  // Query clauses

  /** `(k1 OR ... OR k5)` over the first five keywords, or "" with no keywords. */
  function KeywordClause(keywords: seq<string>): (r: string)
    ensures r == "" <==> keywords == []
    ensures keywords != [] ==> r == "(" + Join(" OR ", keywords[..Min(MaxKeywords, |keywords|)]) + ")"
  {
    if |keywords| > 0 then "(" + Join(" OR ", keywords[..Min(MaxKeywords, |keywords|)]) + ")" else ""
  }

  /** Keywords after the fifth never reach the query. */
  lemma KeywordClauseIgnoresExtra(keywords: seq<string>, extra: seq<string>)
    requires |keywords| >= MaxKeywords
    ensures KeywordClause(keywords + extra) == KeywordClause(keywords[..MaxKeywords])
  {
    assert (keywords + extra)[..MaxKeywords] == keywords[..MaxKeywords];
    assert keywords[..MaxKeywords][..MaxKeywords] == keywords[..MaxKeywords];
  }

  /** With at most five keywords, every one of them is an OR-term of the clause. */
  lemma KeywordClauseUnderCap(keywords: seq<string>)
    requires 0 < |keywords| <= MaxKeywords
    ensures KeywordClause(keywords) == "(" + Join(" OR ", keywords) + ")"
  {
    assert keywords[..Min(MaxKeywords, |keywords|)] == keywords;
  }

  /** The per-subreddit scoping terms `subreddit:<name>`. */
  function Scoped(names: seq<string>): seq<string>
  {
    if names == [] then [] else ["subreddit:" + names[0]] + Scoped(names[1..])
  }

  lemma {:induction false} ScopedAppend(a: seq<string>, b: seq<string>)
    ensures Scoped(a + b) == Scoped(a) + Scoped(b)
  {
    if a == [] {
      assert a + b == b;
    } else {
      assert (a + b)[0] == a[0];
      assert (a + b)[1..] == a[1..] + b;
      ScopedAppend(a[1..], b);
    }
  }

  /** `(subreddit:a OR subreddit:b ...)` over the cleaned names, or "" with none. */
  function SubredditClause(cleanSubs: seq<string>): (r: string)
    ensures r == "" <==> cleanSubs == []
  {
    if |cleanSubs| > 0 then "(" + Join(" OR ", Scoped(cleanSubs)) + ")" else ""
  }

  /** `[keywordQuery, subQuery].filter(Boolean).join(' ')`. */
  function TargetedQuery(keywordQuery: string, subQuery: string): (r: string)
    ensures keywordQuery != "" && subQuery != "" ==> r == keywordQuery + " " + subQuery
    ensures keywordQuery == "" ==> r == subQuery
    ensures subQuery == "" ==> r == keywordQuery
  {
    var parts := [keywordQuery, subQuery];
    assert parts[1..] == [subQuery] && [subQuery][1..] == [];
    assert DropEmpty([subQuery]) == (if subQuery != "" then [subQuery] else []) + DropEmpty([]);
    assert DropEmpty(parts) == (if keywordQuery != "" then [keywordQuery] else []) + DropEmpty([subQuery]);
    assert keywordQuery != "" && subQuery != "" ==> DropEmpty(parts) == parts;
    JoinPair(" ", keywordQuery, subQuery);
    Join(" ", DropEmpty(parts))
  }

  /** With no subreddit left after cleaning, the targeted query is the keyword-only one. */
  lemma TargetedWithoutSubredditsIsBroad(keywords: seq<string>, subreddits: Option<seq<string>>)
    requires CleanSubreddits(subreddits) == []
    ensures TargetedQuery(KeywordClause(keywords), SubredditClause(CleanSubreddits(subreddits)))
         == KeywordClause(keywords)
  {
  }

  /** Example: a prefixed name loses its prefix. */
  lemma CleanNamePrefixedExample()
    ensures CleanName("r/startups") == "startups"
  {
    assert StripSubredditPrefix("r/startups") == "startups";
    TrimOfPadded("", "startups", "");
    assert "" + "startups" + "" == "startups";
  }

  /** Example: a padded name loses its spaces. */
  lemma CleanNamePaddedExample()
    ensures CleanName(" SaaS ") == "SaaS"
  {
    assert StripSubredditPrefix(" SaaS ") == " SaaS " == " " + "SaaS" + " ";
    TrimOfPadded(" ", "SaaS", " ");
  }

  lemma CleanAllPair(x: string, y: string)
    requires CleanName(x) != "" && CleanName(y) != ""
    ensures CleanAll([x, y]) == [CleanName(x), CleanName(y)]
  {
    assert CleanNames([x, y]) == [CleanName(x), CleanName(y)];
    DropEmptyPair(CleanName(x), CleanName(y));
  }

  /** Example: a list of one prefixed and one padded name, cleaned. */
  lemma CleanSubredditsExample()
    ensures CleanSubreddits(Some(["r/startups", " SaaS "])) == ["startups", "SaaS"]
  {
    CleanNamePrefixedExample();
    CleanNamePaddedExample();
    CleanAllPair("r/startups", " SaaS ");
  }

  /** Two keywords give one parenthesised OR of both, in order. */
  lemma KeywordClausePair(k1: string, k2: string)
    ensures KeywordClause([k1, k2]) == "(" + k1 + " OR " + k2 + ")"
  {
    KeywordClauseUnderCap([k1, k2]);
    JoinPair(" OR ", k1, k2);
  }

  /** Two cleaned names give one parenthesised OR of both scoping terms, in order. */
  lemma SubredditClausePair(c1: string, c2: string)
    ensures SubredditClause([c1, c2])
         == "(" + ("subreddit:" + c1) + " OR " + ("subreddit:" + c2) + ")"
  {
    assert [c1, c2][1..] == [c2] && [c2][1..] == [];
    assert Scoped([c2]) == ["subreddit:" + c2] + Scoped([]);
    assert Scoped([c1, c2]) == ["subreddit:" + c1] + Scoped([c2]);
    JoinPair(" OR ", "subreddit:" + c1, "subreddit:" + c2);
    assert SubredditClause([c1, c2]) == "(" + Join(" OR ", Scoped([c1, c2])) + ")";
  }

  /** The clause for a + b ORs the scoping terms of a and then those of b, in one pair of
      parentheses. */
  lemma SubredditClauseAppend(a: seq<string>, b: seq<string>)
    requires a != [] && b != []
    ensures SubredditClause(a + b)
         == "(" + Join(" OR ", Scoped(a)) + " OR " + Join(" OR ", Scoped(b)) + ")"
  {
    ScopedAppend(a, b);
    JoinConcat(" OR ", Scoped(a), Scoped(b));
  }

  // ---------------------------------------------------------------------------------------
  // One search request and the normalisation of its results

  /** What the service sends: the bearer token, the query text and the time window. */
  datatype SearchRequest = SearchRequest(token: string, query: string, time: TimeFilter)

  /** The fields of one result's `data` object that the service reads. */
  datatype RawPost = RawPost(
    id: string,
    title: Option<string>,
    selftext: Option<string>,
    body: Option<string>,
    author: Option<string>,
    subreddit: string,
    permalink: string,
    createdUtc: int,
    score: Option<int>)

  /** One element of `data.children`; its own `data` may be missing. */
  datatype RawChild = RawChild(data: Option<RawPost>)

  /** The `data` object of the response; `children` may be missing. */
  datatype Listing = Listing(children: Option<seq<RawChild>>)

  /** The response body: not valid JSON, or JSON whose `data` may be missing. */
  datatype ResponseBody = Unparseable | Json(data: Option<Listing>)

  /** The request threw, or it completed with a status (ok or not) and a body. */
  datatype FetchOutcome = Threw | Completed(ok: bool, body: ResponseBody)

  /** One raw result as a lead. */
  function ToLead(p: RawPost): (l: RedditLead)
    ensures IsRaw(l)
    ensures l.id == p.id && l.subreddit == p.subreddit && l.createdAt == p.createdUtc
    ensures l.url == LinkBase + p.permalink
    ensures l.leadType == Post <==> Truthy(p.title)
    ensures l.title != "" && l.content != "" && l.author != ""
  {
    RedditLead(
      id := p.id,
      title := StringOr(p.title, DefaultTitle),
      content := StringOr(p.selftext, StringOr(p.body, DefaultContent)),
      author := StringOr(p.author, DefaultAuthor),
      subreddit := p.subreddit,
      url := LinkBase + p.permalink,
      createdAt := p.createdUtc,
      score := IntOrZero(p.score),
      aiScore := None, aiReasoning := None, suggestedReply := None, profileInsight := None,
      leadType := if Truthy(p.title) then Post else Comment)
  }

  /** A post keeps its own title; a comment (no title) gets the placeholder. A post's text is
      its selftext, a comment's its body, and the placeholder only when neither is there. */
  lemma ToLeadFallbacks(p: RawPost)
    ensures ToLead(p).leadType == Post ==> ToLead(p).title == p.title.value
    ensures ToLead(p).leadType == Comment ==> ToLead(p).title == DefaultTitle
    ensures Truthy(p.selftext) ==> ToLead(p).content == p.selftext.value
    ensures !Truthy(p.selftext) && Truthy(p.body) ==> ToLead(p).content == p.body.value
    ensures !Truthy(p.selftext) && !Truthy(p.body) ==> ToLead(p).content == DefaultContent
    ensures !Truthy(p.author) ==> ToLead(p).author == DefaultAuthor
    ensures Truthy(p.author) ==> ToLead(p).author == p.author.value
    ensures p.score.None? ==> ToLead(p).score == 0
    ensures p.score.Some? ==> ToLead(p).score == p.score.value
  {
  }

  /** `children.map(item => ...)`: None when some child has no `data` (the access throws),
      otherwise one lead per child, in order. */
  function MapChildren(children: seq<RawChild>): (r: Option<seq<RedditLead>>)
    ensures r.Some? <==> forall k :: 0 <= k < |children| ==> children[k].data.Some?
    ensures r.Some? ==> |r.value| == |children|
    ensures r.Some? ==> forall k :: 0 <= k < |children| ==> r.value[k] == ToLead(children[k].data.value)
  {
    if children == [] then Some([])
    else
      match children[0].data
      case None => None
      case Some(p) =>
        match MapChildren(children[1..])
        case None => None
        case Some(rest) => Some([ToLead(p)] + rest)
  }

  /** The outcome of one search request as the list of leads the service hands back: every
      failure (thrown error, non-ok status, body that is not JSON, missing `data` or
      `children`, a child without `data`) gives the empty list. */
  function ExecuteSearch(outcome: FetchOutcome): (leads: seq<RedditLead>)
    ensures forall k :: 0 <= k < |leads| ==> IsRaw(leads[k])
    ensures leads != [] ==>
      outcome.Completed? && outcome.ok && outcome.body.Json? && outcome.body.data.Some? &&
      outcome.body.data.value.children.Some? &&
      MapChildren(outcome.body.data.value.children.value) == Some(leads)
  {
    match outcome
    case Threw => []
    case Completed(ok, body) =>
      if !ok then []
      else
        match body
        case Unparseable => []
        case Json(data) =>
          match data
          case None => []
          case Some(listing) =>
            match listing.children
            case None => []
            case Some(children) =>
              match MapChildren(children)
              case None => []
              case Some(leads) => leads
  }

  /** A well-formed successful response yields exactly one lead per child, in order. */
  lemma ExecuteSearchSuccess(children: seq<RawChild>)
    requires forall k :: 0 <= k < |children| ==> children[k].data.Some?
    ensures var leads := ExecuteSearch(Completed(true, Json(Some(Listing(Some(children))))));
      |leads| == |children| &&
      forall k :: 0 <= k < |children| ==> leads[k] == ToLead(children[k].data.value)
  {
  }

  /** Every failure path degrades to the empty list instead of an error. */
  lemma ExecuteSearchFailures(outcome: FetchOutcome)
    requires
      || outcome.Threw?
      || !outcome.ok
      || outcome.body.Unparseable?
      || outcome.body.data.None?
      || outcome.body.data.value.children.None?
      || exists k :: 0 <= k < |outcome.body.data.value.children.value| &&
                     outcome.body.data.value.children.value[k].data.None?
    ensures ExecuteSearch(outcome) == []
  {
  }

  /** One search tier: issue the request and normalise what comes back. */
  function RunSearch(fetch: SearchRequest -> FetchOutcome, token: string, query: string,
                     time: TimeFilter): (leads: seq<RedditLead>)
    ensures forall k :: 0 <= k < |leads| ==> IsRaw(leads[k])
  {
    ExecuteSearch(fetch(SearchRequest(token, query, time)))
  }

  // ---------------------------------------------------------------------------------------
  // The two-tier search

  /** Runs the targeted query and, only when it finds nothing and some subreddit survived
      cleaning, the keyword-only query. `queries` is the sequence of query texts sent. */
  method SearchReddit(fetch: SearchRequest -> FetchOutcome, token: string, keywords: seq<string>,
                      subreddits: Option<seq<string>>, time: TimeFilter)
    returns (items: seq<RedditLead>, queries: seq<string>)
    ensures 1 <= |queries| <= 2
    ensures queries[0] == TargetedQuery(KeywordClause(keywords),
                                        SubredditClause(CleanSubreddits(subreddits)))
    ensures |queries| == 2 <==>
      RunSearch(fetch, token, queries[0], time) == [] && CleanSubreddits(subreddits) != []
    ensures |queries| == 2 ==> queries[1] == KeywordClause(keywords)
    ensures items == RunSearch(fetch, token, queries[|queries| - 1], time)
    ensures CleanSubreddits(subreddits) == [] ==> queries == [KeywordClause(keywords)]
    ensures CleanSubreddits(subreddits) != [] && RunSearch(fetch, token, queries[0], time) == []
      ==> items == RunSearch(fetch, token, KeywordClause(keywords), time)
    ensures forall k :: 0 <= k < |items| ==> IsRaw(items[k])
  {
    var cleanSubs := CleanSubreddits(subreddits);
    var keywordQuery := KeywordClause(keywords);
    var subQuery := SubredditClause(cleanSubs);
    var finalQuery := TargetedQuery(keywordQuery, subQuery);
    items := ExecuteSearch(fetch(SearchRequest(token, finalQuery, time)));
    queries := [finalQuery];
    if |items| == 0 && |cleanSubs| > 0 {
      items := ExecuteSearch(fetch(SearchRequest(token, keywordQuery, time)));
      queries := queries + [keywordQuery];
    }
  }
}
