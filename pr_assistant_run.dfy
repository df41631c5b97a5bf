/** The entry point of the combined review-and-description script. With the
    description step on, the service's text replaces the marked block of the
    pull-request body (or is appended as a new block); with the review step
    on, one review comment is posted. The description step asks first. */
module PrAssistantRun {
  import opened Base
  import opened Text
  import opened PrHelpers
  import opened GitHub
  import opened Upsert
  import PrAssistant
  import CodeReview

  /** `call_openai`: the stripped content, or "" when the call fails. */
  function Answer(r: Reply): string {
    ReplyText(r, "")
  }

  /** The review text posted: the service's text, or the failure text when
      that is empty (the review script's failure text and comment header,
      written out again in this script). */
  function ReviewText(r: Reply): string {
    if Answer(r) == "" then CodeReview.FailureText else Answer(r)
  }

  /** The posted review is never empty and has no outer whitespace; it is the
      failure text for a failed call or blank content, and the content itself
      when that is already trimmed and not empty. */
  lemma ReviewTextSpec(r: Reply)
    ensures ReviewText(r) != "" && Trimmed(ReviewText(r))
    ensures !(r.Replied? && r.content.Some?) ==> ReviewText(r) == CodeReview.FailureText
    ensures r.Replied? && r.content.Some? && Strip(r.content.value) == "" ==> ReviewText(r) == CodeReview.FailureText
    ensures r.Replied? && r.content.Some? && Trimmed(r.content.value) && r.content.value != "" ==> ReviewText(r) == r.content.value
  {
    ReplyTextSpec(r, "");
    CodeReview.ReviewTextSpec(r);
    if Answer(r) == "" {
      assert ReviewText(r) == CodeReview.FailureText;
      assert CodeReview.FailureText[0] == 'A';
    }
  }

  /** The body the description step leaves for the text `ai`: as it was when
      the service gave nothing, else the body (`None` read as "") with the
      marked block written in by `upsert_block` as the script has it. */
  function DescribedBody(body: Option<string>, ai: string): Option<string>
    requires '\\' !in ai
  {
    if ai == "" then body else Some(UpsertDescription(Some(OrEmpty(body)), ai))
  }

  /** Running the description step again with the same text changes nothing
      when the body holds no begin marker without an end marker after it:
      the marked block is replaced in place, not stacked (unlike the
      stand-alone description script). */
  lemma DescribedTwice(body: Option<string>, ai: string)
    requires '\\' !in ai && !Occurs(DescEnd, ai)
    requires NextBlock(DescBegin, DescEnd, OrEmpty(body), 0).Some? || Find(DescBegin, OrEmpty(body), 0) == None
    ensures DescribedBody(DescribedBody(body, ai), ai) == DescribedBody(body, ai)
  {
    if ai != "" {
      var once := UpsertDescription(Some(OrEmpty(body)), ai);
      UpsertIdempotent(OrEmpty(body), ai);
      assert OrEmpty(Some(once)) == once;
    }
  }

  /** The exclusion is needed: on a body that is only the begin marker, a
      second description step with the text "x" changes the body again. */
  lemma DescribedTwiceDangling()
    ensures DescribedBody(DescribedBody(Some(DescBegin), "x"), "x") != DescribedBody(Some(DescBegin), "x")
  {
    DanglingBeginBreaksIdempotence();
    var once := UpsertDescription(Some(DescBegin), "x");
    assert DescribedBody(Some(DescBegin), "x") == Some(once);
    assert OrEmpty(Some(once)) == once;
  }

  /** A non-empty text always ends up in the body, inside a complete block. */
  lemma DescribedHoldsBlock(body: Option<string>, ai: string)
    requires '\\' !in ai && ai != ""
    ensures DescribedBody(body, ai).Some?
    ensures Occurs(Block(DescBegin, ai, DescEnd), DescribedBody(body, ai).value)
  {
    MarkersFit();
    MarkersPlain();
    WrittenHoldsBlock(OrEmpty(body), ai, DescBegin, DescEnd);
  }

  /** The update, whichever path it takes, leaves the block it writes in the
      result. */
  lemma WrittenHoldsBlock(b: string, content: string, begin: string, end: string)
    requires '\\' !in content && '\\' !in begin && '\\' !in end && |begin| + |end| > 0
    ensures Occurs(Block(begin, content, end), UpsertBlock(Some(b), content, begin, end))
  {
    var block := Block(begin, content, end);
    if NextBlock(begin, end, b, 0).Some? {
      var m := NextBlock(begin, end, b, 0).value;
      UpsertMatched(b, content, begin, end);
      SubAllStep(begin, end, block, b, 0, m.0, m.1);
      OccursInMiddle(b[0..m.0], block, SubAll(begin, end, block, b, m.1));
    } else {
      var sep := if HasText(b) then Separator else "";
      assert UpsertBlock(Some(b), content, begin, end) == b + sep + block + "";
      OccursInMiddle(b + sep, block, "");
    }
  }

  /** `main` on a gathered context. The description prompt is sent first and
      the body is edited only when the service gave some text; the review
      prompt is sent second and its comment is always posted. */
  method Run(pr: PullRequest, client: ChatClient, ctx: PrContext, enableDescription: bool, enableReview: bool)
    requires enableDescription ==> '\\' !in Answer(client.answer(PrAssistant.DescriptionPrompt(ctx)))
    modifies pr`body, pr`comments, client`prompts
    ensures pr.body == if enableDescription
                       then DescribedBody(old(pr.body), Answer(client.answer(PrAssistant.DescriptionPrompt(ctx))))
                       else old(pr.body)
    ensures pr.comments == old(pr.comments)
                           + if enableReview then [CodeReview.Comment(ReviewText(client.answer(PrAssistant.ReviewPrompt(ctx))))] else []
    ensures client.prompts == old(client.prompts)
                              + (if enableDescription then [PrAssistant.DescriptionPrompt(ctx)] else [])
                              + (if enableReview then [PrAssistant.ReviewPrompt(ctx)] else [])
  {
    RunSteps(pr, client, PrAssistant.DescriptionPrompt(ctx), PrAssistant.ReviewPrompt(ctx), enableDescription, enableReview);
  }

  /** The two steps of `main` for given prompts. */
  method RunSteps(pr: PullRequest, client: ChatClient, descPrompt: string, reviewPrompt: string,
                  enableDescription: bool, enableReview: bool)
    requires enableDescription ==> '\\' !in Answer(client.answer(descPrompt))
    modifies pr`body, pr`comments, client`prompts
    ensures pr.body == if enableDescription then DescribedBody(old(pr.body), Answer(client.answer(descPrompt))) else old(pr.body)
    ensures pr.comments == old(pr.comments) + if enableReview then [CodeReview.Comment(ReviewText(client.answer(reviewPrompt)))] else []
    ensures client.prompts == old(client.prompts)
                              + (if enableDescription then [descPrompt] else [])
                              + (if enableReview then [reviewPrompt] else [])
  {
    if enableDescription {
      var reply := client.Complete(descPrompt);
      var ai := Answer(reply);
      if ai != "" {
        var newBody := UpsertDescription(Some(OrEmpty(pr.body)), ai);
        pr.Edit(newBody);
      }
    }
    if enableReview {
      var reply := client.Complete(reviewPrompt);
      var review := ReviewText(reply);
      pr.CreateIssueComment(CodeReview.Comment(review));
    }
  }
}
