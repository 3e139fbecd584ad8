/**
 * The result handling of `generate_study_plan`. The prompt, the chat
 * completion call and the Markdown converter are not modelled: the reply of
 * the call and the converter come in as parameters.
 */
module Generator {
  import opened Optional
  import opened Text

  /** The message of one completion choice; `content` is `None` when the service sent no text. */
  datatype Message = Message(content: Option<string>)

  /** What the completion call gives back: an exception, or a list of choices. */
  datatype Reply = CallFailed | Answered(choices: seq<Message>)

  /**
   * What a call of `generate_study_plan` ends in: a returned value (Python's
   * `None` or a string), or an exception that escapes it and the request.
   */
  datatype Generation = Returned(plan: Option<string>) | Raised

  /**
   * Lines 50-66: the first choice's text is stripped; empty text, or a missing
   * text (an `AttributeError` on `None.strip()`), returns `None`; otherwise it
   * is converted to HTML and stripped again. Only `KeyError` and
   * `AttributeError` are caught, so a failed call or an empty list of choices
   * (an `IndexError`) escapes.
   */
  function GenerateStudyPlan(reply: Reply, markdown: string -> string): (g: Generation)
    ensures g.Raised? <==> reply.CallFailed? || reply.choices == []
    ensures g == Returned(None) <==>
      && reply.Answered? && reply.choices != []
      && (reply.choices[0].content.None? || Strip(reply.choices[0].content.value) == [])
    ensures g.Returned? && g.plan.Some? ==> NoEdgeSpace(g.plan.value)
    ensures g.Returned? && g.plan.Some? ==>
      var text := Strip(reply.choices[0].content.value);
      text != [] && g.plan.value == Strip(markdown(text))
  {
    match reply
    case CallFailed => Raised
    case Answered(choices) =>
      if choices == [] then Raised
      else match choices[0].content
        case None => Returned(None)
        case Some(content) =>
          var text := Strip(content);
          if text == [] then Returned(None) else Returned(Some(Strip(markdown(text))))
  }
}
