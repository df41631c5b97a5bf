/** The two services the pull-request scripts talk to, as oracles: the chat
    completion service answers each prompt with a reply fixed in advance, and
    the pull request holds the body that is edited and the comments that are
    posted. */
module GitHub {
  import opened Base
  import opened Text

  /** What `client.chat.completions.create(...)` yields: the first choice's
      message content (`None` when the service sends null), or the message of
      the exception it raises. */
  datatype Reply = Replied(content: Option<string>) | Raised(message: string)

  /** The text a script keeps from a reply: `content.strip()`, or `failure`
      when the call raised or the content was null (stripping `None` raises
      too, and lands in the same handler). */
  function ReplyText(r: Reply, failure: string): string {
    if r.Replied? && r.content.Some? then Strip(r.content.value) else failure
  }

  /** The kept text has no outer whitespace when the failure text has none;
      it is the failure text for a failed call; and it is the content itself
      whenever the content already had no outer whitespace. */
  lemma ReplyTextSpec(r: Reply, failure: string)
    requires Trimmed(failure)
    ensures Trimmed(ReplyText(r, failure))
    ensures !(r.Replied? && r.content.Some?) ==> ReplyText(r, failure) == failure
    ensures r.Replied? && r.content.Some? && Trimmed(r.content.value) ==> ReplyText(r, failure) == r.content.value
  {
    if r.Replied? && r.content.Some? {
      StripSpec(r.content.value);
      if Trimmed(r.content.value) {
        StripTrimmed(r.content.value);
      }
    }
  }

  /** The chat completion service. */
  class ChatClient {
    /** The reply the service gives to each prompt. */
    const answer: string -> Reply
    /** The prompts sent so far. */
    ghost var prompts: seq<string>

    constructor (answer: string -> Reply)
      ensures this.answer == answer && prompts == []
    {
      this.answer := answer;
      prompts := [];
    }

    /** One completion request with `prompt` as the single user message. */
    method Complete(prompt: string) returns (r: Reply)
      modifies this`prompts
      ensures r == answer(prompt)
      ensures prompts == old(prompts) + [prompt]
    {
      r := answer(prompt);
      prompts := prompts + [prompt];
    }
  }

  /** The pull request: its body (`None` when GitHub has none) and the issue
      comments posted on it. */
  class PullRequest {
    var body: Option<string>
    var comments: seq<string>

    constructor (body: Option<string>)
      ensures this.body == body && comments == []
    {
      this.body := body;
      comments := [];
    }

    /** `pr.edit(body=text)` */
    method Edit(text: string)
      modifies this`body
      ensures body == Some(text)
    {
      body := Some(text);
    }

    /** `pr.create_issue_comment(text)` */
    method CreateIssueComment(text: string)
      modifies this`comments
      ensures comments == old(comments) + [text]
    {
      comments := comments + [text];
    }
  }
}
