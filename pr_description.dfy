/** The description script: it builds one prompt from the first change signal
    there is (the digest, the file summaries or the commit text), asks the
    chat service for a description and appends it to the pull request's body
    under a divider naming the signal. With no signal at all it appends the
    fill-in template instead and asks nothing. */
module PrDescription {
  import opened Base
  import opened Text
  import opened PrHelpers
  import opened GitHub

  // The prompts are sent as written, without stripping. Their texts differ
  // from the combined script's in a blank line before each list and in one
  // word of the digest rules.

  const Arrow := "\U{2192}"

  const DiffIntro :=
      "\n"
      + WriterRole
      + "\n"
      + "Write a concise and informative pull request description based on the DIFF below.\n"
      + "Prioritize what changed and why. Use clear, scannable bullet points.\n"
      + "\n"
      + "PR Context:\n"

  const DiffLabel := "\n\nUnified Diff (truncated if too long):\n"

  function DiffHead(ctx: PrContext): string {
    DiffIntro + ContextLines(ctx, Arrow) + DiffLabel
  }

  const DiffTail :=
      "\n"
      + "\n"
      + "Sections required:\n"
      + "\n"
      + "* Purpose\n"
      + "* Changes\n"
      + "* Impact\n"
      + "* Testing\n"
      + "  - Include steps/commands\n"
      + "  - Mention where to add local testing screenshots\n"
      + "\n"
      + "Rules:\n"
      + "- Base summary only on the diff and PR metadata above.\n"
      + "- If anything is unknown, state it explicitly.\n"
      + "- Keep bullets short; avoid long paragraphs.\n"

  const SummariesHead :=
      "\n"
      + WriterRole
      + "\n"
      + "No line-level diff is available, but the PR includes these file changes:\n"

  const SummariesContext := "\n\nPR Context:\n"

  const SummariesRules :=
      "\n"
      + "\n"
      + "Write a concise PR description with:\n"
      + "\n"
      + "* Purpose\n"
      + "* Changes (call out newly added files explicitly and their likely role)\n"
      + "* Impact (risk, performance, security, infra considerations)\n"
      + "* Testing (how to validate locally/CI; where to add screenshots)\n"
      + "\n"
      + "Rules:\n"
      + "- Be specific to the files listed.\n"
      + "- Do not invent code details beyond what filenames/paths imply.\n"
      + "- Use short bullet points.\n"

  function SummariesTail(ctx: PrContext): string {
    SummariesContext + ContextLines(ctx, Arrow) + SummariesRules
  }

  const CommitsHead :=
      "\n"
      + WriterRole
      + "\n"
      + "No file diffs were available for this PR. Use the commit messages below:\n"

  const CommitsTail :=
      "\n"
      + "\n"
      + "Produce a concise PR description with:\n"
      + "\n"
      + "* Purpose\n"
      + "* Changes\n"
      + "* Impact\n"
      + "* Testing (steps; where to add local screenshots)\n"
      + "\n"
      + "Rules:\n"
      + "- Stay faithful to commit messages; do not speculate beyond them.\n"
      + "- Use bullet points; avoid long paragraphs.\n"

  /** The prompt for the first signal there is, or `None` when there is none
      (the template path, which asks nothing). */
  function Prompt(ctx: PrContext): (p: Option<string>)
    ensures p.None? <==> ctx.diff == "" && ctx.summaries == "" && ctx.commits == ""
  {
    match SignalOf(ctx)
    case FromDiff => Some(DiffHead(ctx) + ctx.diff + DiffTail)
    case FromSummaries => Some(SummariesHead + ctx.summaries + SummariesTail(ctx))
    case FromCommits => Some(CommitsHead + ctx.commits + CommitsTail)
    case NoSignal => None
  }

  /** The prompt holds the chosen signal's text as it is. */
  lemma PromptEmbeds(ctx: PrContext)
    ensures ctx.diff != "" ==> Prompt(ctx).Some? && Occurs(ctx.diff, Prompt(ctx).value)
    ensures ctx.diff == "" && ctx.summaries != "" ==> Prompt(ctx).Some? && Occurs(ctx.summaries, Prompt(ctx).value)
    ensures ctx.diff == "" && ctx.summaries == "" && ctx.commits != "" ==> Prompt(ctx).Some? && Occurs(ctx.commits, Prompt(ctx).value)
  {
    match SignalOf(ctx)
    case FromDiff => OccursInMiddle(DiffHead(ctx), ctx.diff, DiffTail);
    case FromSummaries => OccursInMiddle(SummariesHead, ctx.summaries, SummariesTail(ctx));
    case FromCommits => OccursInMiddle(CommitsHead, ctx.commits, CommitsTail);
    case NoSignal =>
  }

  /** The divider's label names the signal the text was built on. */
  function Label(ctx: PrContext): (l: string)
    ensures l == "diff-based" <==> ctx.diff != ""
    ensures l == "file-summary" <==> ctx.diff == "" && ctx.summaries != ""
    ensures l == "commits" <==> ctx.diff == "" && ctx.summaries == "" && ctx.commits != ""
    ensures l == "template" <==> Prompt(ctx).None?
  {
    match SignalOf(ctx)
    case FromDiff => "diff-based"
    case FromSummaries => "file-summary"
    case FromCommits => "commits"
    case NoSignal => "template"
  }

  function Divider(name: string): string {
    "\n\n---\n**AI Generated Description (" + name + "):**\n"
  }

  const FailureText := "AI description generation failed."

  /** What is appended below the divider: the template, or the service's
      reply to the prompt. */
  function Addition(ctx: PrContext, answer: string -> Reply): string {
    match Prompt(ctx)
    case None => DescriptionTemplate
    case Some(p) => ReplyText(answer(p), FailureText)
  }

  /** The body the pull request is left with. */
  function NewBody(existing: Option<string>, ctx: PrContext, answer: string -> Reply): string {
    OrEmpty(existing) + Divider(Label(ctx)) + Addition(ctx, answer)
  }

  /** One run of the script on a gathered context. The edit is the only
      change to the pull request, and the service is asked at most once. */
  method Describe(pr: PullRequest, client: ChatClient, ctx: PrContext)
    modifies pr`body, client`prompts
    ensures pr.body == Some(NewBody(old(pr.body), ctx, client.answer))
    ensures client.prompts == old(client.prompts) + (if Prompt(ctx).Some? then [Prompt(ctx).value] else [])
  {
    var prompt := Prompt(ctx);
    if prompt.None? {
      var existing := OrEmpty(pr.body);
      pr.Edit(existing + Divider("template") + DescriptionTemplate);
      return;
    }
    var reply := client.Complete(prompt.value);
    var description := ReplyText(reply, FailureText);
    var existing := OrEmpty(pr.body);
    pr.Edit(existing + Divider(Label(ctx)) + description);
  }

  // ---------------------------------------------------------------------------
  // Properties of the new body
  // ---------------------------------------------------------------------------

  /** The old body is kept as it is at the front, the new body is strictly
      longer, and what follows the old body is the divider for the signal and
      then the addition. */
  lemma NewBodyAppends(existing: Option<string>, ctx: PrContext, answer: string -> Reply)
    ensures var b := NewBody(existing, ctx, answer);
            && OrEmpty(existing) < b
            && b[|OrEmpty(existing)|..] == Divider(Label(ctx)) + Addition(ctx, answer)
  {
    DividerNotEmpty(Label(ctx));
    AppendedTail(OrEmpty(existing), Divider(Label(ctx)), Addition(ctx, answer));
  }

  lemma DividerNotEmpty(name: string)
    ensures Divider(name) != []
  {
    assert Divider(name)[0] == '\n';
  }

  /** Text appended after a non-empty piece leaves a strictly longer text
      that starts with the old one. */
  lemma AppendedTail(e: string, d: string, a: string)
    requires d != []
    ensures e < e + d + a && (e + d + a)[|e|..] == d + a
  {
    assert (e + d + a)[..|e|] == e;
  }

  /** Running the script twice stacks two sections: unlike the combined
      script's marked block, the body grows with every run. */
  lemma RerunStacks(existing: Option<string>, ctx: PrContext, answer: string -> Reply)
    ensures var once := NewBody(existing, ctx, answer);
            once < NewBody(Some(once), ctx, answer)
  {
    NewBodyAppends(Some(NewBody(existing, ctx, answer)), ctx, answer);
  }

  /** With no signal the section is the template whatever the service would
      answer; with a signal the text below the divider is the stripped reply,
      or the failure text when the call fails. */
  lemma AdditionSpec(ctx: PrContext, answer: string -> Reply)
    ensures Prompt(ctx).None? ==> Addition(ctx, answer) == DescriptionTemplate
    ensures Prompt(ctx).Some? ==> Trimmed(Addition(ctx, answer))
    ensures Prompt(ctx).Some? && !(answer(Prompt(ctx).value).Replied? && answer(Prompt(ctx).value).content.Some?)
            ==> Addition(ctx, answer) == FailureText
  {
    if Prompt(ctx).Some? {
      assert Trimmed(FailureText);
      ReplyTextSpec(answer(Prompt(ctx).value), FailureText);
    }
  }
}
