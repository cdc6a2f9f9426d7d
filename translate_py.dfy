/** `AnthropicTranslateObject` of the Python server: the same bounded history,
    kept on the object and mutated in place. The model call's outcome is a
    parameter. */
module TranslatePy {
  import opened Conversation

  /** How `messages.create` ends: with a response, with `RateLimitError`, or
      with any other exception (which `translate` does not catch). A response
      always has the role "assistant", so only its content varies. */
  datatype CreateResult = Response(content: seq<Block>) | RateLimitError | OtherError

  /** The exception `translate` raises to its caller. */
  datatype Exception = ApiError | IndexError

  /** What `translate` does for its caller: return a string or raise. */
  datatype Outcome = Returned(value: string) | Raised(error: Exception)

  const RateLimitMessage: string := "(Error: Rate Limit)"

  class AnthropicTranslator {
    var llmHistory: seq<Entry>

    ghost predicate Valid()
      reads this
    {
      |llmHistory| <= Cap && Alternating(llmHistory)
    }

    constructor ()
      ensures Valid() && llmHistory == []
    {
      llmHistory := [];
    }

    /** `translate(text, language)`. A response whose content is empty still
        extends the history before `response.content[0]` raises. */
    method Translate(text: string, language: string, result: CreateResult)
      returns (request: seq<Entry>, outcome: Outcome)
      requires Valid()
      modifies this
      ensures Valid()
      ensures request == old(llmHistory) + [UserPrompt(text, language)]
      ensures result.RateLimitError? ==> outcome == Returned(RateLimitMessage) && llmHistory == old(llmHistory)
      ensures result.OtherError? ==> outcome == Raised(ApiError) && llmHistory == old(llmHistory)
      ensures result.Response? ==>
        && llmHistory == Append2(old(llmHistory), UserPrompt(text, language), Entry(Assistant, result.content))
        && outcome == if |result.content| == 0 then Raised(IndexError) else Returned(result.content[0].text)
    {
      var userPrompt := UserPrompt(text, language);
      request := llmHistory + [userPrompt];
      match result
      case RateLimitError =>
        outcome := Returned(RateLimitMessage);
      case OtherError =>
        outcome := Raised(ApiError);
      case Response(content) =>
        Record(userPrompt, Entry(Assistant, content));
        if |content| == 0 {
          outcome := Raised(IndexError);
        } else {
          outcome := Returned(content[0].text);
        }
    }

    /** The two `append`s and the `[-128:]` cut after a successful response. */
    method Record(userPrompt: Entry, reply: Entry)
      requires Valid() && userPrompt.role == User && reply.role == Assistant
      modifies this
      ensures Valid()
      ensures llmHistory == Append2(old(llmHistory), userPrompt, reply)
    {
      ghost var before := llmHistory;
      AlternationPreserved(before, userPrompt, reply);
      Append2IsWindow(before, userPrompt, reply);
      llmHistory := llmHistory + [userPrompt];
      llmHistory := llmHistory + [reply];
      assert llmHistory == before + [userPrompt, reply];
      if |llmHistory| > Cap {
        llmHistory := llmHistory[|llmHistory| - Cap..];
      }
    }
  }
}
