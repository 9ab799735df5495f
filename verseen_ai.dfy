/**
 * The result extraction of `VerseenAI.get_response` (app/client/verseen_ai.py):
 * from a chat-completion response, the argument string of the first tool
 * call of the first choice, or `None`.
 *
 * The chat-completion request itself (model name, system prompt, tool
 * schema, token limit) is sent to an external service and is not modelled:
 * the response arrives as a value of `ChatCompletion`.
 */
module VerseenAI {
  import opened Wrappers
  import opened PyStr

  /** The `function` part of a tool call: its name and its JSON argument text. */
  datatype FunctionCall = FunctionCall(name: String, arguments: String)

  datatype ToolCall = ToolCall(functionCall: FunctionCall)

  /** An assistant message; `toolCalls` is `None` when the model called no tool. */
  datatype Message = Message(content: Option<String>, toolCalls: Option<seq<ToolCall>>)

  datatype Choice = Choice(message: Message)

  datatype ChatCompletion = ChatCompletion(choices: seq<Choice>)

  /** The first choice's tool calls, when they are present and not empty. */
  predicate HasToolCall(response: ChatCompletion) {
    && response.choices != []
    && response.choices[0].message.toolCalls.Some?
    && response.choices[0].message.toolCalls.value != []
  }

  /**
   * The value `get_response` returns: the argument text of the first tool
   * call of the first choice when the choice list is non-empty and that
   * choice's tool-call list is present and non-empty (Python treats an empty
   * list and `None` alike as false), and `None` otherwise.
   */
  function GetResponse(response: ChatCompletion): (arguments: Option<String>)
    ensures arguments.Some? <==> HasToolCall(response)
  {
    if response.choices != [] then
      match response.choices[0].message.toolCalls
      case Some(calls) =>
        if calls != [] then Some(calls[0].functionCall.arguments) else None
      case None => None
    else None
  }

  /** No choice, no interpretation. */
  lemma NoChoices()
    ensures GetResponse(ChatCompletion([])) == None
  {
  }

  /** A first choice with no tool calls, absent or empty, gives no interpretation. */
  lemma NoToolCalls(message: Message, more: seq<Choice>)
    requires message.toolCalls == None || message.toolCalls == Some([])
    ensures GetResponse(ChatCompletion([Choice(message)] + more)) == None
  {
  }

  /**
   * Otherwise the result is the first tool call's argument string, returned
   * as it is and not decoded.
   */
  lemma FirstToolCallArguments(content: Option<String>, call: ToolCall, calls: seq<ToolCall>, more: seq<Choice>)
    ensures GetResponse(ChatCompletion([Choice(Message(content, Some([call] + calls)))] + more))
      == Some(call.functionCall.arguments)
  {
  }

  /** Choices after the first never affect the result. */
  lemma LaterChoicesIgnored(first: Choice, more: seq<Choice>)
    ensures GetResponse(ChatCompletion([first] + more)) == GetResponse(ChatCompletion([first]))
  {
  }

  /** Tool calls after the first never affect the result. */
  lemma LaterToolCallsIgnored(content: Option<String>, call: ToolCall, calls: seq<ToolCall>, more: seq<Choice>)
    ensures GetResponse(ChatCompletion([Choice(Message(content, Some([call] + calls)))] + more))
      == GetResponse(ChatCompletion([Choice(Message(content, Some([call])))]))
  {
  }
}
