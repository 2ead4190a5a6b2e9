/** The data shapes shared by the search and qualification services. */
module Types {

  datatype Option<+T> = None | Some(value: T)

  /** JavaScript truthiness of an optional string: absent and "" are both falsy. */
  predicate Truthy(v: Option<string>)
  {
    v.Some? && v.value != ""
  }

  /** `v || fallback` for an optional string. */
  function StringOr(v: Option<string>, fallback: string): string
  {
    if Truthy(v) then v.value else fallback
  }

  /** `v || 0` for an optional integer: absent and 0 both give 0. */
  function IntOrZero(v: Option<int>): int
  {
    match v
    case Some(n) => n
    case None => 0
  }

  /** The time window of a search. */
  datatype TimeFilter = Hour | Day | Week | Month | Year | All

  datatype LeadType = Post | Comment

  /** The business profile produced by the analysis step. */
  datatype ServiceAnalysis = ServiceAnalysis(
    name: string,
    summary: string,
    keywords: seq<string>,
    suggestedSubreddits: seq<string>,
    targetAudience: string)

  /** One discovered post or comment. The four AI fields are absent until qualification. */
  datatype RedditLead = RedditLead(
    id: string,
    title: string,
    content: string,
    author: string,
    subreddit: string,
    url: string,
    createdAt: int,
    score: int,
    aiScore: Option<int>,
    aiReasoning: Option<string>,
    suggestedReply: Option<string>,
    profileInsight: Option<string>,
    leadType: LeadType)

  /** A lead as the search returns it: no AI field set. */
  predicate IsRaw(l: RedditLead)
  {
    l.aiScore.None? && l.aiReasoning.None? && l.suggestedReply.None? && l.profileInsight.None?
  }

  /** A lead after qualification: every AI field set. */
  predicate IsQualified(l: RedditLead)
  {
    l.aiScore.Some? && l.aiReasoning.Some? && l.suggestedReply.Some? && l.profileInsight.Some?
  }

  /** a and b agree on every field that is not an AI field. */
  predicate SameBase(a: RedditLead, b: RedditLead)
  {
    a.id == b.id && a.title == b.title && a.content == b.content && a.author == b.author &&
    a.subreddit == b.subreddit && a.url == b.url && a.createdAt == b.createdAt &&
    a.score == b.score && a.leadType == b.leadType
  }
}
