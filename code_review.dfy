/** The review script: it builds one prompt from the first change signal
    there is (the digest, the file summaries or the commit text, else a
    request for a generic checklist), asks the chat service for a review and
    posts it as one comment on the pull request. */
module CodeReview {
  import opened Base
  import opened Text
  import opened PrHelpers
  import opened GitHub

  // The prompts are sent as written, without stripping. The arrow between
  // the branches is kept as the file has it: the three characters that the
  // UTF-8 bytes of U+2192 read as in Windows-1252.

  const Arrow := "\U{E2}\U{2020}\U{2019}"

  const DiffIntro :=
      "\n"
      + ReviewerRole
      + "\n"
      + "Review the following DIFF and provide:\n"
      + "\n"
      + "1. High-level feedback\n"
      + "2. Potential bugs or logical issues\n"
      + "3. Security concerns\n"
      + "4. Performance considerations\n"
      + "5. Code style / readability issues\n"
      + "6. Suggestions for improvement\n"
      + "7. Any missing tests or validation\n"
      + "\n"
      + "PR Context:\n"

  const DiffLabel := "\n\nUnified Diff:\n"

  function DiffHead(ctx: PrContext): string {
    DiffIntro + ContextLines(ctx, Arrow) + DiffLabel
  }

  const DiffTail :=
      "\n"
      + "\n"
      + "Rules:\n"
      + "- Base your review ONLY on the diff.\n"
      + "- Be specific and actionable.\n"
      + "- Do not rewrite the code unless necessary to illustrate a fix.\n"

  const SummariesHead :=
      "\n"
      + ReviewerRole
      + "\n"
      + "No line-level diff is available. Review the PR based on the file-level changes:\n"
      + "\n"

  const SummariesTail :=
      "\n"
      + "\n"
      + "Provide:\n"
      + "- Potential risks\n"
      + "- Missing tests\n"
      + "- Architecture concerns\n"
      + "- Naming / structure issues\n"
      + "- Any red flags based on file roles\n"
      + "\n"
      + "Do not invent code details beyond filenames.\n"

  const CommitsHead :=
      "\n"
      + ReviewerRole
      + "\n"
      + "No file diffs were available. Review based on commit messages:\n"
      + "\n"

  const CommitsTail :=
      "\n"
      + "\n"
      + "Provide:\n"
      + "- Risks\n"
      + "- Missing tests\n"
      + "- Architecture concerns\n"
      + "- Any red flags\n"

  const Fallback :=
      "\n"
      + "No diff, file summaries, or commit messages available.\n"
      + "Provide a generic checklist for the author to verify before merging.\n"

  /** The prompt for the first signal there is. */
  function Prompt(ctx: PrContext): string {
    match SignalOf(ctx)
    case FromDiff => DiffHead(ctx) + ctx.diff + DiffTail
    case FromSummaries => SummariesHead + ctx.summaries + SummariesTail
    case FromCommits => CommitsHead + ctx.commits + CommitsTail
    case NoSignal => Fallback
  }

  /** The prompt holds the chosen signal's text as it is, and is the
      checklist request exactly when there is no signal. */
  lemma PromptEmbeds(ctx: PrContext)
    ensures ctx.diff != "" ==> Occurs(ctx.diff, Prompt(ctx))
    ensures ctx.diff == "" && ctx.summaries != "" ==> Occurs(ctx.summaries, Prompt(ctx))
    ensures ctx.diff == "" && ctx.summaries == "" && ctx.commits != "" ==> Occurs(ctx.commits, Prompt(ctx))
    ensures Prompt(ctx) == Fallback <==> ctx.diff == "" && ctx.summaries == "" && ctx.commits == ""
  {
    match SignalOf(ctx)
    case FromDiff =>
      OccursInMiddle(DiffHead(ctx), ctx.diff, DiffTail);
      NotFallback(DiffHead(ctx), ctx.diff, DiffTail);
    case FromSummaries =>
      OccursInMiddle(SummariesHead, ctx.summaries, SummariesTail);
      NotFallback(SummariesHead, ctx.summaries, SummariesTail);
    case FromCommits =>
      OccursInMiddle(CommitsHead, ctx.commits, CommitsTail);
      NotFallback(CommitsHead, ctx.commits, CommitsTail);
    case NoSignal =>
  }

  /** A framed prompt is never the checklist request: each head alone is
      longer than the whole request. */
  lemma NotFallback(head: string, x: string, tail: string)
    requires |head| > |Fallback|
    ensures head + x + tail != Fallback
  {
  }

  const FailureText := "AI code review generation failed."

  const CommentHeader := "### AI Code Review\n\n"

  /** The comment that carries a review. */
  function Comment(review: string): string {
    CommentHeader + review
  }

  /** The review a comment carries, if it is one of this script's. */
  function ReviewOf(comment: string): Option<string> {
    if CommentHeader <= comment then Some(comment[|CommentHeader|..]) else None
  }

  /** A posted comment gives back exactly the review it was made from. */
  lemma CommentRoundTrip(review: string)
    ensures ReviewOf(Comment(review)) == Some(review)
  {
    assert Comment(review)[..|CommentHeader|] == CommentHeader;
    assert Comment(review)[|CommentHeader|..] == review;
  }

  /** The review text posted for a reply: without outer whitespace, and the
      failure text when the call fails. */
  lemma ReviewTextSpec(r: Reply)
    ensures Trimmed(ReplyText(r, FailureText))
    ensures !(r.Replied? && r.content.Some?) ==> ReplyText(r, FailureText) == FailureText
  {
    assert Trimmed(FailureText);
    ReplyTextSpec(r, FailureText);
  }

  /** One run of the script on a gathered context: the service is asked once
      and exactly one comment is added. */
  method Review(pr: PullRequest, client: ChatClient, ctx: PrContext)
    modifies pr`comments, client`prompts
    ensures pr.comments == old(pr.comments) + [Comment(ReplyText(client.answer(Prompt(ctx)), FailureText))]
    ensures client.prompts == old(client.prompts) + [Prompt(ctx)]
  {
    var prompt := Prompt(ctx);
    var reply := client.Complete(prompt);
    var review := ReplyText(reply, FailureText);
    pr.CreateIssueComment(CommentHeader + review);
  }
}
