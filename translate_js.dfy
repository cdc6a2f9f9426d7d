/** The `/api/translate` handler of the Node server: one model call per
    request, with the module-level `llm_history` as context. The language
    model is not modelled; what its stream finally yields is a parameter. */
module TranslateJs {
  import opened Common
  import opened Conversation

  /** How `stream.finalMessage()` settles: with the model's message, or by
      rejecting (any error thrown by the SDK). The API always gives the
      message the role "assistant", so only its content varies. */
  datatype StreamResult = FinalMessage(content: seq<Block>) | Rejected

  /** What the handler does with the HTTP response: `res.send(text)`, where the
      text is `undefined` when the message has no content, or `next(error)`. */
  datatype HttpReply = Send(body: Option<string>) | NextWithError

  /** `message.content[0]?.text` */
  function FirstText(content: seq<Block>): (t: Option<string>)
    ensures t.Some? <==> |content| > 0
    ensures t.Some? ==> t.value == content[0].text
  {
    if |content| == 0 then None else Some(content[0].text)
  }

  class TranslateServer {
    /** `llm_history`, reassigned on every successful translation. */
    var llmHistory: seq<Entry>

    ghost predicate Valid()
      reads this
    {
      |llmHistory| <= Cap && Alternating(llmHistory)
    }

    constructor ()
      ensures Valid() && llmHistory == []
    {
      llmHistory := [];
    }

    /** One POST to `/api/translate` with body `{text, language}`. `request` is
        the message list handed to the model; the history changes only once the
        model's final message has arrived. */
    method Translate(text: string, language: string, result: StreamResult)
      returns (request: seq<Entry>, reply: HttpReply)
      requires Valid()
      modifies this
      ensures Valid()
      ensures request == old(llmHistory) + [UserPrompt(text, language)]
      ensures result.Rejected? ==> reply == NextWithError && llmHistory == old(llmHistory)
      ensures result.FinalMessage? ==>
        && reply == Send(FirstText(result.content))
        && llmHistory == Append2(old(llmHistory), UserPrompt(text, language), Entry(Assistant, result.content))
    {
      var userPrompt := UserPrompt(text, language);
      request := llmHistory + [userPrompt];
      match result
      case Rejected =>
        reply := NextWithError;
      case FinalMessage(content) =>
        reply := Send(FirstText(content));
        AlternationPreserved(llmHistory, userPrompt, Entry(Assistant, content));
        llmHistory := llmHistory + [userPrompt, Entry(Assistant, content)];
        if |llmHistory| > Cap {
          llmHistory := llmHistory[|llmHistory| - Cap..];
        }
    }
  }
}
