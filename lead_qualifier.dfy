/**
 * Lead qualification: the batched prompt the model receives, the merge of the model's
 * per-index evaluations back onto the leads (with per-lead defaults), and the final stable
 * sort by descending score.
 *
 * The generative-model call and the JSON parsing of its reply are not modelled: the call is an
 * oracle `generate` from the prompt text to its outcome, either a failure or the parsed array
 * of evaluations.
 */
module LeadQualifier {
  import opened Types
  import opened Text

  /** Characters of each lead's content shown to the model. */
  const ContentPreviewLength: nat := 400

  const DefaultScore: int := 0
  const DefaultReasoning := "N/A"
  const DefaultInsight := "Potential user"
  const DefaultReply := ""

  /** One entry of the model's reply. Any field may be missing; `index` is missing also when
      it is not an integer number, since `===` against the position then never holds. */
  datatype Evaluation = Evaluation(
    index: Option<int>,
    aiScore: Option<int>,
    aiReasoning: Option<string>,
    profileInsight: Option<string>,
    suggestedReply: Option<string>)

  /** The model call failed, its reply was not a JSON array of objects (`JSON.parse` or
      `.find` throws), or it parsed to an array of evaluations. */
  datatype GenerateOutcome = CallFailed | Unparseable | Parsed(evaluations: seq<Evaluation>)

  datatype QualifyError = ModelCallFailed | MalformedReply

  datatype Result<T> = Ok(value: T) | Err(error: QualifyError)

  // ---------------------------------------------------------------------------------------
  // The prompt

  /** The line that presents lead i to the model. */
  function PromptLine(i: nat, l: RedditLead): string
  {
    "ID " + NatToString(i) + LineBody(l)
  }

  /** What follows the position on a lead's line. */
  function LineBody(l: RedditLead): (r: string)
    ensures |r| > 0 && r[0] == ':'
  {
    var r := ": [Author: u/" + l.author + "] [Sub: r/" + l.subreddit + "] " +
             l.title + " - " + Prefix(l.content, ContentPreviewLength);
    assert r == ":" + r[1..];
    r
  }

  /** The lines for leads[from..], numbered from `from`. */
  function PromptLines(leads: seq<RedditLead>, from: nat): (r: seq<string>)
    requires from <= |leads|
    ensures |r| == |leads| - from
    ensures forall k :: 0 <= k < |r| ==> r[k] == PromptLine(from + k, leads[from + k])
    decreases |leads| - from
  {
    if from == |leads| then [] else [PromptLine(from, leads[from])] + PromptLines(leads, from + 1)
  }

  /** The item list of the prompt: one line per lead, by position, separated by newlines.
      Every lead's line occurs in it. */
  function PromptItems(leads: seq<RedditLead>): (r: string)
    ensures forall i :: 0 <= i < |leads| ==> Contains(r, PromptLine(i, leads[i]))
  {
    var lines := PromptLines(leads, 0);
    forall i | 0 <= i < |leads| ensures Contains(Join("\n", lines), PromptLine(i, leads[i])) {
      JoinContains("\n", lines, i);
    }
    Join("\n", lines)
  }

  const Instructions :=
    "  For each entry:\n" +
    "  1. Provide a score (1-100) based on how likely the AUTHOR is to be a paying customer.\n" +
    "  2. Write \"aiReasoning\": why they are a lead.\n" +
    "  3. Write \"profileInsight\": Describe the profile/persona of this user based on their post (e.g., \"Early stage founder\", \"Frustrated developer\").\n" +
    "  4. Write \"suggestedReply\": A non-spammy, helpful reply.\n" +
    "  \n" +
    "  Items:\n"

  /** The whole text sent to the model. */
  function Prompt(analysis: ServiceAnalysis, leads: seq<RedditLead>): (r: string)
    ensures forall i :: 0 <= i < |leads| ==> Contains(r, PromptLine(i, leads[i]))
  {
    var head, items := PromptHead(analysis, |leads|), PromptItems(leads);
    forall i | 0 <= i < |leads| ensures Contains(head + items + PromptEnd, PromptLine(i, leads[i])) {
      ContainsWithin(head, items, PromptEnd, PromptLine(i, leads[i]));
    }
    head + items + PromptEnd
  }

  /** The prompt up to its item list: the business, the number of entries, the instructions. */
  function PromptHead(analysis: ServiceAnalysis, count: nat): string
  {
    "You are a growth hacker for " + analysis.name + " (" + analysis.summary + ").\n" +
    "  Analyze these " + NatToString(count) + " Reddit entries.\n" +
    Instructions + "  "
  }

  const PromptEnd := "\n  "

  /** The position a line announces: the digits after the leading "ID ". */
  function AnnouncedIndex(line: string): Option<nat>
  {
    if |line| >= 3 && line[..3] == "ID " then
      var d := LeadingDigits(line[3..]);
      if |d| > 0 then Some(ParseNat(d)) else None
    else None
  }

  /** Each line announces exactly the position of its lead, which is the number the model is
      to give back as `index`. */
  lemma PromptLineAnnouncesIndex(i: nat, l: RedditLead)
    ensures AnnouncedIndex(PromptLine(i, l)) == Some(i)
  {
    var digits := NatToString(i);
    var line := PromptLine(i, l);
    assert line[..3] == "ID ";
    assert line[3..] == digits + LineBody(l);
    LeadingDigitsOfConcat(digits, LineBody(l));
    ParseNatToString(i);
  }

  /** What a lead contributes to the prompt depends only on its position, author, subreddit,
      title and the first 400 characters of its content. */
  lemma PromptLineIgnoresContentTail(i: nat, a: RedditLead, b: RedditLead)
    requires a.author == b.author && a.subreddit == b.subreddit && a.title == b.title
    requires Prefix(a.content, ContentPreviewLength) == Prefix(b.content, ContentPreviewLength)
    ensures PromptLine(i, a) == PromptLine(i, b)
  {
  }

  // ---------------------------------------------------------------------------------------
  // Merging the evaluations back onto the leads

  /** `evaluations.find(e => e.index === i)`: the first entry announcing position i. */
  function FindEvaluation(evals: seq<Evaluation>, i: int): (r: Option<Evaluation>)
    ensures r.None? <==> forall k :: 0 <= k < |evals| ==> evals[k].index != Some(i)
    ensures r.Some? ==>
      exists k :: 0 <= k < |evals| && evals[k] == r.value && evals[k].index == Some(i) &&
                  forall j :: 0 <= j < k ==> evals[j].index != Some(i)
  {
    if evals == [] then None
    else if evals[0].index == Some(i) then Some(evals[0])
    else
      var r := FindEvaluation(evals[1..], i);
      assert forall k :: 1 <= k < |evals| ==> evals[k] == evals[1..][k - 1];
      r
  }

  /** A search over a concatenation looks in the second part only when the first has no match. */
  lemma {:induction false} FindEvaluationAppend(a: seq<Evaluation>, b: seq<Evaluation>, i: int)
    ensures FindEvaluation(a + b, i)
         == if FindEvaluation(a, i).Some? then FindEvaluation(a, i) else FindEvaluation(b, i)
  {
    if a == [] {
      assert a + b == b;
    } else {
      assert (a + b)[0] == a[0];
      assert (a + b)[1..] == a[1..] + b;
      FindEvaluationAppend(a[1..], b, i);
    }
  }

  /** `evalItem?.aiScore || 0`. */
  function ScoreFrom(e: Option<Evaluation>): int
  {
    if e.Some? then IntOrZero(e.value.aiScore) else DefaultScore
  }

  /** `evalItem?.<field> || fallback` for a string field. */
  function TextFrom(e: Option<Evaluation>, field: Evaluation -> Option<string>, fallback: string): string
  {
    if e.Some? then StringOr(field(e.value), fallback) else fallback
  }

  /** `{...lead, aiScore, aiReasoning, profileInsight, suggestedReply}`. */
  function WithEvaluation(lead: RedditLead, e: Option<Evaluation>): (q: RedditLead)
    ensures SameBase(q, lead) && IsQualified(q)
  {
    lead.(
      aiScore := Some(ScoreFrom(e)),
      aiReasoning := Some(TextFrom(e, (v: Evaluation) => v.aiReasoning, DefaultReasoning)),
      profileInsight := Some(TextFrom(e, (v: Evaluation) => v.profileInsight, DefaultInsight)),
      suggestedReply := Some(TextFrom(e, (v: Evaluation) => v.suggestedReply, DefaultReply)))
  }

  /** `leads.map((lead, i) => ...)`: lead i qualified by the first evaluation for i. */
  function Merge(leads: seq<RedditLead>, evals: seq<Evaluation>): (r: seq<RedditLead>)
    ensures |r| == |leads|
    ensures forall i :: 0 <= i < |leads| ==> SameBase(r[i], leads[i]) && IsQualified(r[i])
    ensures forall i :: 0 <= i < |leads| ==> r[i] == WithEvaluation(leads[i], FindEvaluation(evals, i))
  {
    seq(|leads|, i requires 0 <= i < |leads| => WithEvaluation(leads[i], FindEvaluation(evals, i)))
  }

  /** A lead no evaluation answers for gets the four defaults; one that is answered for takes
      the first answer's truthy fields and a default for each falsy one. */
  lemma MergeFields(leads: seq<RedditLead>, evals: seq<Evaluation>, i: nat)
    requires i < |leads|
    ensures var q := Merge(leads, evals)[i];
      (forall k :: 0 <= k < |evals| ==> evals[k].index != Some(i)) ==>
        q.aiScore == Some(DefaultScore) && q.aiReasoning == Some(DefaultReasoning) &&
        q.profileInsight == Some(DefaultInsight) && q.suggestedReply == Some(DefaultReply)
    ensures var q := Merge(leads, evals)[i];
      forall k :: 0 <= k < |evals| && evals[k].index == Some(i) &&
                  (forall j :: 0 <= j < k ==> evals[j].index != Some(i)) ==>
        q.aiScore == Some(IntOrZero(evals[k].aiScore)) &&
        q.aiReasoning == Some(StringOr(evals[k].aiReasoning, DefaultReasoning)) &&
        q.profileInsight == Some(StringOr(evals[k].profileInsight, DefaultInsight)) &&
        q.suggestedReply == Some(StringOr(evals[k].suggestedReply, DefaultReply))
  {
    var r := FindEvaluation(evals, i);
    forall k | 0 <= k < |evals| && evals[k].index == Some(i) &&
               (forall j :: 0 <= j < k ==> evals[j].index != Some(i))
      ensures r == Some(evals[k])
    {
      var m :| 0 <= m < |evals| && evals[m] == r.value && evals[m].index == Some(i) &&
               forall j :: 0 <= j < m ==> evals[j].index != Some(i);
      assert !(m < k) && !(k < m);
    }
  }

  /** An extra evaluation changes nothing when its index is missing, outside [0, n), or
      already answered by an earlier evaluation. */
  lemma MergeIgnoresUnmatched(leads: seq<RedditLead>, a: seq<Evaluation>, e: Evaluation, b: seq<Evaluation>)
    requires || e.index.None?
             || e.index.value < 0 || e.index.value >= |leads|
             || exists j :: 0 <= j < |a| && a[j].index == e.index
    ensures Merge(leads, a + [e] + b) == Merge(leads, a + b)
  {
    forall i | 0 <= i < |leads|
      ensures FindEvaluation(a + [e] + b, i) == FindEvaluation(a + b, i)
    {
      FindEvaluationAppend(a, [e] + b, i);
      FindEvaluationAppend([e], b, i);
      FindEvaluationAppend(a, b, i);
      assert a + [e] + b == a + ([e] + b);
      assert [e][1..] == [];
    }
  }

  /** A gap in the reply only affects the lead it concerns: appending an entry whose index is
      not i leaves lead i's result unchanged. */
  lemma MergeGapIsLocal(leads: seq<RedditLead>, evals: seq<Evaluation>, e: Evaluation, i: nat)
    requires i < |leads|
    requires e.index != Some(i)
    ensures Merge(leads, evals + [e])[i] == Merge(leads, evals)[i]
  {
    FindEvaluationAppend(evals, [e], i);
    assert [e][1..] == [];
  }

  // ---------------------------------------------------------------------------------------
  // Sorting by descending score, stably

  /** `lead.aiScore || 0`. */
  function Key(l: RedditLead): int
  {
    IntOrZero(l.aiScore)
  }

  /** Non-increasing by score: the comparator `(b.aiScore || 0) - (a.aiScore || 0)` is never
      positive for a pair in output order. */
  predicate SortedByScore(s: seq<RedditLead>)
  {
    forall i, j :: 0 <= i < j < |s| ==> Key(s[i]) >= Key(s[j])
  }

  /** The leads of s with score k, in their order in s. */
  function WithScore(s: seq<RedditLead>, k: int): seq<RedditLead>
  {
    if s == [] then [] else (if Key(s[0]) == k then [s[0]] else []) + WithScore(s[1..], k)
  }

  /** Place x in front of the first lead whose score does not exceed x's. */
  function Insert(x: RedditLead, ys: seq<RedditLead>): seq<RedditLead>
  {
    if ys == [] then [x]
    else if Key(x) >= Key(ys[0]) then [x] + ys
    else [ys[0]] + Insert(x, ys[1..])
  }

  lemma {:induction false} InsertPermutes(x: RedditLead, ys: seq<RedditLead>)
    ensures multiset(Insert(x, ys)) == multiset{x} + multiset(ys)
  {
    if ys != [] && Key(x) < Key(ys[0]) {
      InsertPermutes(x, ys[1..]);
      assert ys == [ys[0]] + ys[1..];
    }
  }

  /** Inserting a lead whose score is at most b among leads whose scores are at most b
      leaves every score at most b. */
  lemma {:induction false} InsertBounded(x: RedditLead, ys: seq<RedditLead>, b: int)
    requires Key(x) <= b && forall j :: 0 <= j < |ys| ==> Key(ys[j]) <= b
    ensures forall m :: 0 <= m < |Insert(x, ys)| ==> Key(Insert(x, ys)[m]) <= b
  {
    if ys != [] && Key(x) < Key(ys[0]) {
      InsertBounded(x, ys[1..], b);
      assert Insert(x, ys) == [ys[0]] + Insert(x, ys[1..]);
    }
  }

  /** Inserting into a sorted sequence keeps it sorted. */
  lemma {:induction false} InsertSorted(x: RedditLead, ys: seq<RedditLead>)
    requires SortedByScore(ys)
    ensures SortedByScore(Insert(x, ys))
  {
    if ys != [] && Key(x) < Key(ys[0]) {
      SortedTail(ys);
      InsertSorted(x, ys[1..]);
      var rest := Insert(x, ys[1..]);
      InsertBounded(x, ys[1..], Key(ys[0]));
      assert Insert(x, ys) == [ys[0]] + rest;
    }
  }

  /** x goes in front of every lead of its own score; the other scores are untouched. */
  lemma {:induction false} InsertWithScore(x: RedditLead, ys: seq<RedditLead>, k: int)
    ensures WithScore(Insert(x, ys), k) == (if Key(x) == k then [x] else []) + WithScore(ys, k)
  {
    if ys == [] {
      WithScoreCons(x, [], k);
    } else if Key(x) >= Key(ys[0]) {
      WithScoreCons(x, ys, k);
    } else {
      var rest := Insert(x, ys[1..]);
      InsertWithScore(x, ys[1..], k);
      WithScoreCons(ys[0], rest, k);
      WithScoreCons(ys[0], ys[1..], k);
      assert [ys[0]] + ys[1..] == ys;
      assert Key(ys[0]) != k || Key(x) != k;
    }
  }

  lemma WithScoreCons(y: RedditLead, t: seq<RedditLead>, k: int)
    ensures WithScore([y] + t, k) == (if Key(y) == k then [y] else []) + WithScore(t, k)
  {
    assert ([y] + t)[1..] == t;
  }

  /** Inserting x into a stable sort of t gives a stable sort of [x] + t. */
  lemma InsertStep(x: RedditLead, ys: seq<RedditLead>, t: seq<RedditLead>)
    requires multiset(ys) == multiset(t) && SortedByScore(ys)
    requires forall k :: WithScore(ys, k) == WithScore(t, k)
    ensures multiset(Insert(x, ys)) == multiset([x] + t)
    ensures |Insert(x, ys)| == |t| + 1
    ensures SortedByScore(Insert(x, ys))
    ensures forall k :: WithScore(Insert(x, ys), k) == WithScore([x] + t, k)
  {
    var r := Insert(x, ys);
    InsertPermutes(x, ys);
    InsertSorted(x, ys);
    assert ([x] + t)[1..] == t;
    forall k ensures WithScore(r, k) == WithScore([x] + t, k) {
      InsertWithScore(x, ys, k);
    }
    assert |r| == |multiset(r)| == |multiset([x] + t)| == |[x] + t|;
  }

  /** Insertion sort: the reference definition of a stable sort by descending score. */
  function SortByScore(s: seq<RedditLead>): (r: seq<RedditLead>)
    ensures |r| == |s|
    ensures multiset(r) == multiset(s)
    ensures SortedByScore(r)
    ensures forall k :: WithScore(r, k) == WithScore(s, k)
  {
    if s == [] then []
    else
      InsertStep(s[0], SortByScore(s[1..]), s[1..]);
      assert s == [s[0]] + s[1..];
      Insert(s[0], SortByScore(s[1..]))
  }

  /** A sequence sorted by score with the same leads per score as another sorted one is that
      one: any stable sort gives SortByScore's result, whatever algorithm computes it. */
  lemma {:induction false} StableSortUnique(a: seq<RedditLead>, b: seq<RedditLead>)
    requires SortedByScore(a) && SortedByScore(b)
    requires forall k :: WithScore(a, k) == WithScore(b, k)
    ensures a == b
  {
    assert a != [] ==> b != [] by {
      if a != [] { assert WithScore(b, Key(a[0])) == WithScore(a, Key(a[0])) != []; }
    }
    assert b != [] ==> a != [] by {
      if b != [] { assert WithScore(a, Key(b[0])) == WithScore(b, Key(b[0])) != []; }
    }
    if a != [] {
      var ka, kb := Key(a[0]), Key(b[0]);
      assert WithScore(b, ka) != [] by { assert WithScore(a, ka) != []; }
      WithScoreMember(b, ka);
      assert WithScore(a, kb) != [] by { assert WithScore(b, kb) != []; }
      WithScoreMember(a, kb);
      assert ka == kb;
      assert a[0] == WithScore(a, ka)[0] && b[0] == WithScore(b, ka)[0];
      forall k ensures WithScore(a[1..], k) == WithScore(b[1..], k) {
        WithScoreTail(a, k);
        WithScoreTail(b, k);
      }
      SortedTail(a);
      SortedTail(b);
      StableSortUnique(a[1..], b[1..]);
      assert a == [a[0]] + a[1..] && b == [b[0]] + b[1..];
    }
  }

  lemma WithScoreTail(s: seq<RedditLead>, k: int)
    requires s != []
    ensures WithScore(s[1..], k) == if Key(s[0]) == k then WithScore(s, k)[1..] else WithScore(s, k)
  {
    var tail := WithScore(s[1..], k);
    if Key(s[0]) == k {
      assert WithScore(s, k) == [s[0]] + tail;
      assert ([s[0]] + tail)[1..] == tail;
    } else {
      assert WithScore(s, k) == [] + tail;
    }
  }

  lemma SortedTail(s: seq<RedditLead>)
    requires s != [] && SortedByScore(s)
    ensures SortedByScore(s[1..])
  {
    assert forall j :: 0 <= j < |s| - 1 ==> s[1..][j] == s[j + 1];
  }

  /** A sorted sequence holding a lead of score k starts with a score of at least k. */
  lemma {:induction false} WithScoreMember(s: seq<RedditLead>, k: int)
    requires SortedByScore(s) && WithScore(s, k) != []
    ensures s != [] && Key(s[0]) >= k
  {
    if Key(s[0]) != k {
      SortedTail(s);
      WithScoreMember(s[1..], k);
      assert s[1..][0] == s[1];
    }
  }

  // ---------------------------------------------------------------------------------------
  // The whole qualification step

  /** `qualifyLeads`: no leads, no model call; otherwise one call with the prompt, then the
      merge and the sort. A failed call or an unparseable reply fails the whole step. */
  function Qualify(leads: seq<RedditLead>, analysis: ServiceAnalysis,
                   generate: string -> GenerateOutcome): (r: Result<seq<RedditLead>>)
    ensures leads == [] ==> r == Ok([])
    ensures r.Err? <==> leads != [] && !generate(Prompt(analysis, leads)).Parsed?
    ensures r.Ok? ==> |r.value| == |leads| && SortedByScore(r.value)
    ensures r.Ok? ==> forall o :: o in r.value ==> IsQualified(o)
  {
    if |leads| == 0 then Ok([])
    else
      match generate(Prompt(analysis, leads))
      case CallFailed => Err(ModelCallFailed)
      case Unparseable => Err(MalformedReply)
      case Parsed(evals) =>
        var merged := Merge(leads, evals);
        var out := SortByScore(merged);
        assert forall o :: o in out ==> o in multiset(merged);
        Ok(out)
  }

  /** The ids of the leads, in order. */
  function Ids(s: seq<RedditLead>): (r: seq<string>)
    ensures |r| == |s|
    ensures forall i :: 0 <= i < |s| ==> r[i] == s[i].id
  {
    if s == [] then [] else [s[0].id] + Ids(s[1..])
  }

  /** Inserting a lead adds one occurrence of its id. */
  lemma {:induction false} InsertIds(x: RedditLead, ys: seq<RedditLead>)
    ensures multiset(Ids(Insert(x, ys))) == multiset{x.id} + multiset(Ids(ys))
  {
    if ys != [] {
      if Key(x) >= Key(ys[0]) {
        assert ([x] + ys)[1..] == ys;
      } else {
        var rest := Insert(x, ys[1..]);
        InsertIds(x, ys[1..]);
        assert ([ys[0]] + rest)[1..] == rest;
      }
    }
  }

  /** Sorting reorders the leads without adding, dropping or duplicating an id. */
  lemma {:induction false} SortByScoreKeepsIds(s: seq<RedditLead>)
    ensures multiset(Ids(SortByScore(s))) == multiset(Ids(s))
  {
    if s != [] {
      var rest := SortByScore(s[1..]);
      assert SortByScore(s) == Insert(s[0], rest);
      SortByScoreKeepsIds(s[1..]);
      InsertIds(s[0], rest);
      assert Ids(s) == [s[0].id] + Ids(s[1..]);
    }
  }

  /** Any ordering that is sorted by score and keeps the per-score order of s is the one
      SortByScore gives. */
  lemma SortByScoreUnique(s: seq<RedditLead>, t: seq<RedditLead>)
    requires SortedByScore(t)
    requires forall k :: WithScore(t, k) == WithScore(s, k)
    ensures t == SortByScore(s)
  {
    var r := SortByScore(s);
    assert forall k :: WithScore(t, k) == WithScore(r, k);
    StableSortUnique(t, r);
  }

  /** What a successful qualification returns: the merged leads (same length, each lead's
      own fields intact, AI fields from the first matching evaluation or the defaults),
      reordered by descending score, leads of equal score in their input order; every id
      occurs as often as in the input. The sorted order is the only one with these
      properties. */
  lemma QualifyCorrect(leads: seq<RedditLead>, analysis: ServiceAnalysis,
                       generate: string -> GenerateOutcome, evals: seq<Evaluation>)
    requires leads != []
    requires generate(Prompt(analysis, leads)) == Parsed(evals)
    ensures Qualify(leads, analysis, generate).Ok?
    ensures var out := Qualify(leads, analysis, generate).value;
      |out| == |leads| &&
      multiset(out) == multiset(Merge(leads, evals)) &&
      multiset(Ids(out)) == multiset(Ids(leads)) &&
      SortedByScore(out) &&
      (forall k :: WithScore(out, k) == WithScore(Merge(leads, evals), k))
  {
    var merged := Merge(leads, evals);
    var out := SortByScore(merged);
    assert Qualify(leads, analysis, generate) == Ok(out);
    SortByScoreKeepsIds(merged);
    assert Ids(merged) == Ids(leads);
  }

  /** Any ordering of the merged leads that is sorted by score and keeps leads of equal score
      in their input order is the qualification's result. */
  lemma QualifyIsTheStableSort(leads: seq<RedditLead>, analysis: ServiceAnalysis,
                               generate: string -> GenerateOutcome, evals: seq<Evaluation>,
                               t: seq<RedditLead>)
    requires leads != []
    requires generate(Prompt(analysis, leads)) == Parsed(evals)
    requires SortedByScore(t)
    requires forall k :: WithScore(t, k) == WithScore(Merge(leads, evals), k)
    ensures Qualify(leads, analysis, generate) == Ok(t)
  {
    SortByScoreUnique(Merge(leads, evals), t);
  }

  /** The model is consulted once, on the prompt, and on nothing else. */
  lemma QualifyDependsOnlyOnPrompt(leads: seq<RedditLead>, analysis: ServiceAnalysis,
                                   g1: string -> GenerateOutcome, g2: string -> GenerateOutcome)
    requires leads != [] ==> g1(Prompt(analysis, leads)) == g2(Prompt(analysis, leads))
    ensures Qualify(leads, analysis, g1) == Qualify(leads, analysis, g2)
  {
  }
}
