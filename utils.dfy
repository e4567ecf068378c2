/**
 * The chat-message canonicalisers of `Utils`: they turn the loosely typed user inputs
 * and model responses of the system into lists of `{"role": ..., "content": ...}`
 * records. Python's `str(x)` is the opaque parameter `render`.
 */
module Utils {
  import opened Wrappers
  import opened PyValues

  /** A chat message record: a dictionary, normally with "role" and "content". */
  type Message = map<string, Value>

  /** The record `{"role": role, "content": content}`. */
  function Msg(role: string, content: Value): Message
  {
    map["role" := PyStr(role), "content" := content]
  }

  /** A dictionary that already carries both a "role" and a "content". */
  predicate IsMessage(v: Value)
  {
    v.PyDict? && "role" in v.entries && "content" in v.entries
  }

  /** How `canonicalize_user_input` rewrites one element of a list input. */
  function UserMessage(render: Value -> string, item: Value): Message
  {
    if IsMessage(item) then item.entries else Msg("user", PyStr(render(item)))
  }

  /**
   * `canonicalize_user_input`: a list keeps its length and order, element by element;
   * a string becomes one user message; a dict is wrapped unchanged, whatever keys it
   * has; anything else becomes one user message holding its rendering.
   */
  method CanonicalizeUserInput(render: Value -> string, userInput: Value) returns (r: seq<Message>)
    ensures userInput.PyList? ==>
      |r| == |userInput.items| &&
      forall i :: 0 <= i < |r| ==>
        r[i] == if IsMessage(userInput.items[i]) then userInput.items[i].entries
                else Msg("user", PyStr(render(userInput.items[i])))
    ensures userInput.PyStr? ==> r == [Msg("user", userInput)]
    ensures userInput.PyDict? ==> r == [userInput.entries]
    ensures !(userInput.PyList? || userInput.PyStr? || userInput.PyDict?) ==>
      r == [Msg("user", PyStr(render(userInput)))]
    ensures !userInput.PyDict? ==> forall i :: 0 <= i < |r| ==> "role" in r[i] && "content" in r[i]
  {
    if userInput.PyList? {
      var results: seq<Message> := [];
      for i := 0 to |userInput.items|
        invariant |results| == i
        invariant forall k :: 0 <= k < i ==> results[k] == UserMessage(render, userInput.items[k])
      {
        var item := userInput.items[i];
        if IsMessage(item) {
          results := results + [item.entries];
        } else {
          results := results + [Msg("user", PyStr(render(item)))];
        }
      }
      r := results;
    } else if userInput.PyStr? {
      r := [Msg("user", userInput)];
    } else if userInput.PyDict? {
      r := [userInput.entries];
    } else {
      r := [Msg("user", PyStr(render(userInput)))];
    }
  }

  /**
   * How `canonicalize_query_response` rewrites one response item: a string, a dict
   * with "response" and anything else become assistant messages; a dict that already
   * has "role" and "content" passes through, and that test comes before the
   * "response" test.
   */
  function AssistantMessage(render: Value -> string, item: Value): (m: Message)
    ensures "role" in m && "content" in m
    ensures !IsMessage(item) ==> m["role"] == PyStr("assistant")
    ensures IsMessage(item) ==> m == item.entries
    ensures item.PyDict? && !IsMessage(item) && "response" in item.entries ==>
      m["content"] == item.entries["response"]
    ensures item.PyStr? ==> m == Msg("assistant", item)
    ensures !item.PyStr? && !IsMessage(item) && !(item.PyDict? && "response" in item.entries) ==>
      m == Msg("assistant", PyStr(render(item)))
  {
    if item.PyStr? then Msg("assistant", item)
    else if IsMessage(item) then item.entries
    else if item.PyDict? && "response" in item.entries then Msg("assistant", item.entries["response"])
    else Msg("assistant", PyStr(render(item)))
  }

  /**
   * The items a response is iterated over as: a list itself, anything else wrapped
   * in a one-item list; so only the empty list yields no items.
   */
  function ResponseItems(response: Value): (items: seq<Value>)
    ensures response.PyList? ==> items == response.items
    ensures !response.PyList? ==> items == [response]
    ensures items == [] <==> response == PyList([])
  {
    if response.PyList? then response.items else [response]
  }

  /** Every response item rewritten, in order: what the docstring promises. */
  function AllResponses(render: Value -> string, response: Value): (r: seq<Message>)
    ensures |r| == |ResponseItems(response)|
    ensures forall i :: 0 <= i < |r| ==> "role" in r[i] && "content" in r[i]
  {
    var items := ResponseItems(response);
    seq(|items|, i requires 0 <= i < |items| => AssistantMessage(render, items[i]))
  }

  /**
   * What `canonicalize_query_response` returns as written: the `return` inside the
   * loop ends it after the first item, and an empty list never enters the loop.
   */
  function FirstResponseOnly(render: Value -> string, response: Value): (r: Option<seq<Message>>)
    ensures r.None? <==> ResponseItems(response) == []
    ensures r.Some? ==> r.value == AllResponses(render, response)[..1]
  {
    var items := ResponseItems(response);
    if items == [] then None else Some([AssistantMessage(render, items[0])])
  }

  /** `canonicalize_query_response` as written, early `return` included. */
  method CanonicalizeQueryResponse(render: Value -> string, response: Value) returns (r: Option<seq<Message>>)
    ensures r == FirstResponseOnly(render, response)
  {
    var items := if response.PyList? then response.items else [response];
    var results: seq<Message> := [];
    for i := 0 to |items|
      invariant i == 0 && results == []
    {
      var resultItem := AssistantMessage(render, items[i]);
      results := results + [resultItem];
      assert results == [AssistantMessage(render, ResponseItems(response)[0])];
      return Some(results);
    }
    return None;
  }

  /** `canonicalize_query_response` with the `return` after the loop. */
  method CanonicalizeQueryResponseIntended(render: Value -> string, response: Value) returns (r: seq<Message>)
    ensures r == AllResponses(render, response)
  {
    var items := if response.PyList? then response.items else [response];
    var results: seq<Message> := [];
    for i := 0 to |items|
      invariant results == AllResponses(render, response)[..i]
    {
      var resultItem := AssistantMessage(render, items[i]);
      results := results + [resultItem];
    }
    r := results;
  }

  /** The early return loses every item after the first, and turns `[]` into `None`. */
  lemma {:induction false} EarlyReturnDropsItems(render: Value -> string, response: Value)
    ensures |ResponseItems(response)| != 1 ==>
      FirstResponseOnly(render, response) != Some(AllResponses(render, response))
    ensures |ResponseItems(response)| >= 2 ==>
      |FirstResponseOnly(render, response).value| < |AllResponses(render, response)|
  {
  }
}
