/** The prompt builders of the combined review-and-description script. Each
    prompt is a text frame around one change signal (the digest, the file
    summaries or the commit text), chosen in that order of priority, with the
    outer whitespace stripped; with no signal a fixed text is used instead. */
module PrAssistant {
  import opened Base
  import opened Text
  import opened PrHelpers

  // The frames are written one line of text per piece, which keeps the
  // verifier's work on them small.

  const Arrow := "\U{2192}"

  // ---------------------------------------------------------------------------
  // The review prompt
  // ---------------------------------------------------------------------------

  const ReviewDiffIntro :=
      "\n"
      + ReviewerRole
      + "\n"
      + "Review the following DIFF and provide:\n"
      + "1. High-level feedback\n"
      + "2. Potential bugs or logical issues\n"
      + "3. Security concerns\n"
      + "4. Performance considerations\n"
      + "5. Code style / readability issues\n"
      + "6. Suggestions for improvement\n"
      + "7. Any missing tests or validation\n"
      + "\n"
      + "PR Context:\n"

  const ReviewDiffLabel := "\n\nUnified Diff (may be truncated):\n"

  function ReviewDiffHead(ctx: PrContext): string {
    ReviewDiffIntro + ContextLines(ctx, Arrow) + ReviewDiffLabel
  }

  const ReviewDiffTail :=
      "\n"
      + "\n"
      + "Rules:\n"
      + "- Base your review ONLY on the diff.\n"
      + "- Be specific and actionable.\n"
      + "- Do not rewrite code unless needed to illustrate a fix.\n"

  const ReviewSummariesHead :=
      "\n"
      + ReviewerRole
      + "\n"
      + "No line-level diff is available. Review the PR based on the file-level changes:\n"
      + "\n"

  const ReviewSummariesTail :=
      "\n"
      + "\n"
      + "Provide:\n"
      + "- Potential risks\n"
      + "- Missing tests\n"
      + "- Architecture concerns\n"
      + "- Naming / structure issues\n"
      + "- Any red flags based on file roles\n"
      + "\n"
      + "Do not invent code details beyond filenames.\n"

  const ReviewCommitsHead :=
      "\n"
      + ReviewerRole
      + "\n"
      + "No file diffs were available. Review based on commit messages:\n"
      + "\n"

  const ReviewCommitsTail :=
      "\n"
      + "\n"
      + "Provide:\n"
      + "- Risks\n"
      + "- Missing tests\n"
      + "- Architecture concerns\n"
      + "- Any red flags\n"

  const ReviewFallback :=
      "No diff, file summaries, or commit messages available. Provide a concise, generic review checklist."

  /** `make_review_prompt` */
  function ReviewPrompt(ctx: PrContext): string {
    match SignalOf(ctx)
    case FromDiff => Strip(ReviewDiffHead(ctx) + ctx.diff + ReviewDiffTail)
    case FromSummaries => Strip(ReviewSummariesHead + ctx.summaries + ReviewSummariesTail)
    case FromCommits => Strip(ReviewCommitsHead + ctx.commits + ReviewCommitsTail)
    case NoSignal => ReviewFallback
  }

  /** The review prompt holds the chosen signal's text as it is, and is the
      fixed checklist request when there is no signal. */
  lemma ReviewPromptEmbeds(ctx: PrContext)
    ensures ctx.diff != "" ==> Occurs(ctx.diff, ReviewPrompt(ctx))
    ensures ctx.diff == "" && ctx.summaries != "" ==> Occurs(ctx.summaries, ReviewPrompt(ctx))
    ensures ctx.diff == "" && ctx.summaries == "" && ctx.commits != "" ==> Occurs(ctx.commits, ReviewPrompt(ctx))
    ensures ctx.diff == "" && ctx.summaries == "" && ctx.commits == "" ==> ReviewPrompt(ctx) == ReviewFallback
  {
    match SignalOf(ctx)
    case FromDiff => FramedReviewDiff(ctx);
    case FromSummaries => FramedReviewSummaries(ctx.summaries);
    case FromCommits => FramedReviewCommits(ctx.commits);
    case NoSignal =>
  }

  /** A signal of higher priority hides the lower ones: with a digest the
      summaries and commits play no part, and with summaries (and no digest)
      neither the commits nor the pull-request metadata do. */
  lemma ReviewPromptPriority(ctx: PrContext, other: PrContext)
    ensures ctx.diff != "" && other.diff == ctx.diff && other.title == ctx.title && other.branch == ctx.branch
            && other.baseBranch == ctx.baseBranch && other.labels == ctx.labels && other.linked == ctx.linked
            ==> ReviewPrompt(other) == ReviewPrompt(ctx)
    ensures ctx.diff == "" && ctx.summaries != "" && other.diff == "" && other.summaries == ctx.summaries
            ==> ReviewPrompt(other) == ReviewPrompt(ctx)
    ensures ctx.diff == "" && ctx.summaries == "" && ctx.commits != ""
            && other.diff == "" && other.summaries == "" && other.commits == ctx.commits
            ==> ReviewPrompt(other) == ReviewPrompt(ctx)
  {
    if ctx.diff != "" && other.diff == ctx.diff {
      assert SignalOf(other) == FromDiff;
    }
  }

  // ---------------------------------------------------------------------------
  // The description prompt
  // ---------------------------------------------------------------------------

  const DescriptionDiffIntro :=
      "\n"
      + WriterRole
      + "\n"
      + "Write a concise and informative pull request description based on the DIFF below.\n"
      + "Prioritize what changed and why. Use clear, scannable bullet points.\n"
      + "\n"
      + "PR Context:\n"

  const DescriptionDiffLabel := "\n\nUnified Diff (truncated if too long):\n"

  function DescriptionDiffHead(ctx: PrContext): string {
    DescriptionDiffIntro + ContextLines(ctx, Arrow) + DescriptionDiffLabel
  }

  const DescriptionDiffTail :=
      "\n"
      + "\n"
      + "Sections required:\n"
      + "* Purpose\n"
      + "* Changes\n"
      + "* Impact\n"
      + "* Testing\n"
      + "  - Include steps/commands\n"
      + "  - Note where to add local testing screenshots\n"
      + "\n"
      + "Rules:\n"
      + "- Base summary only on the diff and PR metadata above.\n"
      + "- If anything is unknown, state it explicitly.\n"
      + "- Keep bullets short; avoid long paragraphs.\n"

  const DescriptionSummariesHead :=
      "\n"
      + WriterRole
      + "\n"
      + "No line-level diff is available, but the PR includes these file changes:\n"

  const DescriptionSummariesContext := "\n\nPR Context:\n"

  const DescriptionSummariesRules :=
      "\n"
      + "\n"
      + "Write a concise PR description with:\n"
      + "* Purpose\n"
      + "* Changes (call out newly added files explicitly and their likely role)\n"
      + "* Impact (risk, performance, security, infra considerations)\n"
      + "* Testing (how to validate locally/CI; where to add screenshots)\n"
      + "\n"
      + "Rules:\n"
      + "- Be specific to the files listed.\n"
      + "- Do not invent code details beyond what filenames/paths imply.\n"
      + "- Use short bullet points.\n"

  function DescriptionSummariesTail(ctx: PrContext): string {
    DescriptionSummariesContext + ContextLines(ctx, Arrow) + DescriptionSummariesRules
  }

  const DescriptionCommitsHead :=
      "\n"
      + WriterRole
      + "\n"
      + "No file diffs were available for this PR. Use the commit messages below:\n"

  const DescriptionCommitsTail :=
      "\n"
      + "\n"
      + "Produce a concise PR description with:\n"
      + "* Purpose\n"
      + "* Changes\n"
      + "* Impact\n"
      + "* Testing (steps; where to add local screenshots)\n"
      + "\n"
      + "Rules:\n"
      + "- Stay faithful to commit messages; do not speculate beyond them.\n"
      + "- Use bullet points; avoid long paragraphs.\n"

  /** `make_description_prompt` */
  function DescriptionPrompt(ctx: PrContext): string {
    match SignalOf(ctx)
    case FromDiff => Strip(DescriptionDiffHead(ctx) + ctx.diff + DescriptionDiffTail)
    case FromSummaries => Strip(DescriptionSummariesHead + ctx.summaries + DescriptionSummariesTail(ctx))
    case FromCommits => Strip(DescriptionCommitsHead + ctx.commits + DescriptionCommitsTail)
    case NoSignal => DescriptionTemplate
  }

  /** As for reviews, a signal of higher priority hides the lower ones; the
      summary-based description still shows the pull-request metadata. */
  lemma DescriptionPromptPriority(ctx: PrContext, other: PrContext)
    ensures ctx.diff != "" && other.diff == ctx.diff && other.title == ctx.title && other.branch == ctx.branch
            && other.baseBranch == ctx.baseBranch && other.labels == ctx.labels && other.linked == ctx.linked
            ==> DescriptionPrompt(other) == DescriptionPrompt(ctx)
    ensures ctx.diff == "" && ctx.summaries != "" && other.diff == "" && other.summaries == ctx.summaries
            && other.title == ctx.title && other.branch == ctx.branch && other.baseBranch == ctx.baseBranch
            && other.labels == ctx.labels && other.linked == ctx.linked
            ==> DescriptionPrompt(other) == DescriptionPrompt(ctx)
    ensures ctx.diff == "" && ctx.summaries == "" && ctx.commits != ""
            && other.diff == "" && other.summaries == "" && other.commits == ctx.commits
            ==> DescriptionPrompt(other) == DescriptionPrompt(ctx)
  {
    if ctx.diff != "" && other.diff == ctx.diff {
      assert SignalOf(other) == FromDiff;
    }
  }

  /** The description prompt holds the chosen signal's text as it is, and is
      the fill-in template itself when there is no signal. */
  lemma DescriptionPromptEmbeds(ctx: PrContext)
    ensures ctx.diff != "" ==> Occurs(ctx.diff, DescriptionPrompt(ctx))
    ensures ctx.diff == "" && ctx.summaries != "" ==> Occurs(ctx.summaries, DescriptionPrompt(ctx))
    ensures ctx.diff == "" && ctx.summaries == "" && ctx.commits != "" ==> Occurs(ctx.commits, DescriptionPrompt(ctx))
    ensures ctx.diff == "" && ctx.summaries == "" && ctx.commits == "" ==> DescriptionPrompt(ctx) == DescriptionTemplate
  {
    match SignalOf(ctx)
    case FromDiff => FramedDescriptionDiff(ctx);
    case FromSummaries => FramedDescriptionSummaries(ctx);
    case FromCommits => FramedDescriptionCommits(ctx.commits);
    case NoSignal =>
  }

  /** On a gathered context the review prompt is built on the digest exactly
      when there are files, so it is never built on the summaries. */
  lemma ReviewFollowsFiles(title: Option<string>, branch: string, baseBranch: string, labels: string,
                           body: Option<string>, files: seq<FileEntry>, messages: seq<string>, maxChars: int)
    ensures var ctx := ContextOf(title, branch, baseBranch, labels, body, files, messages, maxChars);
            && (files != [] ==> Occurs(ctx.diff, ReviewPrompt(ctx)))
            && (files == [] && ctx.commits != "" ==> Occurs(ctx.commits, ReviewPrompt(ctx)))
            && (files == [] && ctx.commits == "" ==> ReviewPrompt(ctx) == ReviewFallback)
  {
    SummariesNeverChosen(title, branch, baseBranch, labels, body, files, messages, maxChars);
    ReviewPromptEmbeds(ContextOf(title, branch, baseBranch, labels, body, files, messages, maxChars));
  }

  /** The same holds for the description prompt. */
  lemma DescriptionFollowsFiles(title: Option<string>, branch: string, baseBranch: string, labels: string,
                                body: Option<string>, files: seq<FileEntry>, messages: seq<string>, maxChars: int)
    ensures var ctx := ContextOf(title, branch, baseBranch, labels, body, files, messages, maxChars);
            && (files != [] ==> Occurs(ctx.diff, DescriptionPrompt(ctx)))
            && (files == [] && ctx.commits != "" ==> Occurs(ctx.commits, DescriptionPrompt(ctx)))
            && (files == [] && ctx.commits == "" ==> DescriptionPrompt(ctx) == DescriptionTemplate)
  {
    SummariesNeverChosen(title, branch, baseBranch, labels, body, files, messages, maxChars);
    DescriptionPromptEmbeds(ContextOf(title, branch, baseBranch, labels, body, files, messages, maxChars));
  }

  // ---------------------------------------------------------------------------
  // Each frame starts with a line break and its role line, whose full stop is
  // not whitespace; each tail has a letter after its two line breaks (for the
  // commit-based description, the colon ending that line, at index 39). So
  // stripping keeps the text in between.
  // ---------------------------------------------------------------------------

  lemma FramedReviewDiff(ctx: PrContext)
    ensures Occurs(ctx.diff, Strip(ReviewDiffHead(ctx) + ctx.diff + ReviewDiffTail))
  {
    RolesEndInFullStop();
    OccursStripped(ReviewDiffHead(ctx), ctx.diff, ReviewDiffTail, |ReviewerRole| - 1, 2);
  }

  lemma FramedReviewSummaries(x: string)
    ensures Occurs(x, Strip(ReviewSummariesHead + x + ReviewSummariesTail))
  {
    RolesEndInFullStop();
    OccursStripped(ReviewSummariesHead, x, ReviewSummariesTail, |ReviewerRole| - 1, 2);
  }

  lemma FramedReviewCommits(x: string)
    ensures Occurs(x, Strip(ReviewCommitsHead + x + ReviewCommitsTail))
  {
    RolesEndInFullStop();
    OccursStripped(ReviewCommitsHead, x, ReviewCommitsTail, |ReviewerRole| - 1, 2);
  }

  lemma FramedDescriptionDiff(ctx: PrContext)
    ensures Occurs(ctx.diff, Strip(DescriptionDiffHead(ctx) + ctx.diff + DescriptionDiffTail))
  {
    RolesEndInFullStop();
    OccursStripped(DescriptionDiffHead(ctx), ctx.diff, DescriptionDiffTail, |WriterRole| - 1, 2);
  }

  lemma FramedDescriptionSummaries(ctx: PrContext)
    ensures Occurs(ctx.summaries, Strip(DescriptionSummariesHead + ctx.summaries + DescriptionSummariesTail(ctx)))
  {
    RolesEndInFullStop();
    OccursStripped(DescriptionSummariesHead, ctx.summaries, DescriptionSummariesTail(ctx), |WriterRole| - 1, 2);
  }

  lemma FramedDescriptionCommits(x: string)
    ensures Occurs(x, Strip(DescriptionCommitsHead + x + DescriptionCommitsTail))
  {
    RolesEndInFullStop();
    OccursStripped(DescriptionCommitsHead, x, DescriptionCommitsTail, |WriterRole| - 1, 39);
  }
}
