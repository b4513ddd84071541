/**
 * The Streamlit sales bot: the per-session state holding the model name and
 * the conversation, and one run of the script per user event. The
 * conversation is seeded once with the system role, rendered without its
 * system messages, replayed in full to the completion endpoint, and grows
 * by a user message and then an assistant message per non-empty input.
 */
module ChatSession {
  import opened Options

  datatype Role = System | User | Assistant

  /** A stored `{"role": ..., "content": ...}` entry of the conversation. */
  datatype Message = Message(role: Role, content: string)

  /** An entry of the `messages` argument sent to the completion endpoint. */
  datatype WireMessage = WireMessage(role: string, content: string)

  /** What one script run sends to the completion endpoint. */
  datatype CompletionRequest = CompletionRequest(model: string, messages: seq<WireMessage>)

  const SystemRole: string :=
    "You are a sales person eager to sell mobile phones no matter what. "
    + "Whatever the user tells you, you should redirect the conversation to convince them to buy a phone from you."

  const DefaultModel: string := "gpt-3.5-turbo-0125"

  function RoleName(role: Role): (name: string)
  {
    match role
    case System => "system"
    case User => "user"
    case Assistant => "assistant"
  }

  /** The messages shown in the chat, in stored order: every one whose role is not system. */
  function Visible(messages: seq<Message>): (shown: seq<Message>)
  {
    if messages == [] then []
    else if messages[0].role == System then Visible(messages[1..])
    else [messages[0]] + Visible(messages[1..])
  }

  /** The replay list: one `{role, content}` entry per stored message, in order. */
  function Replay(messages: seq<Message>): (wire: seq<WireMessage>)
    ensures |wire| == |messages|
    ensures forall i :: 0 <= i < |messages| ==>
      wire[i] == WireMessage(RoleName(messages[i].role), messages[i].content)
  {
    seq(|messages|, i requires 0 <= i < |messages| => WireMessage(RoleName(messages[i].role), messages[i].content))
  }

  /** Filtering a concatenation filters each part. */
  lemma {:induction false} VisibleAppend(a: seq<Message>, b: seq<Message>)
    ensures Visible(a + b) == Visible(a) + Visible(b)
  {
    if a == [] {
      assert a + b == b;
    } else {
      assert (a + b)[0] == a[0];
      assert (a + b)[1..] == a[1..] + b;
      VisibleAppend(a[1..], b);
    }
  }

  /** The shown messages are exactly the stored non-system ones. */
  lemma {:induction false} VisibleMembers(messages: seq<Message>)
    ensures forall m :: m in Visible(messages) <==> m in messages && m.role != System
  {
    if messages != [] {
      VisibleMembers(messages[1..]);
      assert messages == [messages[0]] + messages[1..];
    }
  }

  /** A conversation without system messages is shown unchanged. */
  lemma {:induction false} VisibleWithoutSystem(messages: seq<Message>)
    requires forall i :: 0 <= i < |messages| ==> messages[i].role != System
    ensures Visible(messages) == messages
  {
    if messages != [] {
      VisibleWithoutSystem(messages[1..]);
      assert messages == [messages[0]] + messages[1..];
    }
  }

  /** Replaying a concatenation replays each part, so appending only extends the replay. */
  lemma ReplayAppend(a: seq<Message>, b: seq<Message>)
    ensures Replay(a + b) == Replay(a) + Replay(b)
  {
  }

  /** Each role has its own name on the wire. */
  lemma RoleNameInjective(a: Role, b: Role)
    requires RoleName(a) == RoleName(b)
    ensures a == b
  {
  }

  /** The replay loses nothing: different conversations are sent as different lists. */
  lemma {:induction false} ReplayInjective(a: seq<Message>, b: seq<Message>)
    requires Replay(a) == Replay(b)
    ensures a == b
  {
    assert |a| == |Replay(a)| == |Replay(b)| == |b|;
    forall i | 0 <= i < |a| ensures a[i] == b[i] {
      assert Replay(a)[i] == Replay(b)[i];
      RoleNameInjective(a[i].role, b[i].role);
    }
  }

  /** The stored conversation keeps its seed first and holds no other system message. */
  ghost predicate SeededHistory(messages: seq<Message>)
  {
    && |messages| >= 1
    && messages[0] == Message(System, SystemRole)
    && forall i :: 1 <= i < |messages| ==> messages[i].role != System
  }

  /** A seeded conversation is shown as everything after the seed, and replayed seed first. */
  lemma SeededHistoryViews(messages: seq<Message>)
    requires SeededHistory(messages)
    ensures Visible(messages) == messages[1..]
    ensures Replay(messages)[0] == WireMessage("system", SystemRole)
  {
    VisibleWithoutSystem(messages[1..]);
    assert messages == [messages[0]] + messages[1..];
  }

  /** `st.session_state` as far as this script uses it. */
  class SessionState {
    /** `st.session_state["openai_model"]`, present when `hasModel` */
    var modelName: string
    var hasModel: bool
    /** `st.session_state.messages`, present when `hasMessages` */
    var messages: seq<Message>
    var hasMessages: bool

    ghost predicate Valid()
      reads this
    {
      && (!hasMessages ==> messages == [])
      && (hasMessages ==> SeededHistory(messages))
    }

    /** A new browser session: neither key is present yet. */
    constructor ()
      ensures Valid()
      ensures !hasModel && !hasMessages && messages == []
    {
      modelName := "";
      hasModel := false;
      messages := [];
      hasMessages := false;
    }

    /**
     * The top of the script: each key is set only when it is not present
     * yet, so rerunning on an existing session changes nothing.
     */
    method Seed()
      requires Valid()
      modifies this
      ensures Valid() && hasModel && hasMessages
      ensures old(hasModel) ==> modelName == old(modelName)
      ensures !old(hasModel) ==> modelName == DefaultModel
      ensures old(hasMessages) ==> messages == old(messages)
      ensures !old(hasMessages) ==> messages == [Message(System, SystemRole)]
    {
      if !hasModel {
        modelName := DefaultModel;
        hasModel := true;
      }
      if !hasMessages {
        messages := [];
        messages := messages + [Message(System, SystemRole)];
        hasMessages := true;
      }
    }

    /** The rendering loop: every stored message whose role is not system, in order. */
    method Render() returns (shown: seq<Message>)
      ensures shown == Visible(messages)
    {
      shown := [];
      for i := 0 to |messages|
        invariant shown == Visible(messages[..i])
      {
        var message := messages[i];
        VisibleAppend(messages[..i], [message]);
        assert messages[..i + 1] == messages[..i] + [message];
        if message.role != System {
          shown := shown + [message];
        }
      }
      assert messages[..|messages|] == messages;
    }

    /**
     * The bottom of the script, for the value of `st.chat_input`: `None` and
     * the empty string do nothing. Otherwise the user message is appended,
     * the whole conversation is sent, and the assistant's reply is appended.
     * `reply` is the streamed response, or `None` when the completion call
     * raised, which ends the script with only the user message appended.
     */
    method Turn(chatInput: Option<string>, reply: Option<string>) returns (request: Option<CompletionRequest>)
      requires Valid() && hasModel && hasMessages
      modifies this`messages
      ensures Valid() && modelName == old(modelName)
      ensures chatInput == None || chatInput == Some("") ==> messages == old(messages) && request == None
      ensures chatInput.Some? && chatInput.value != "" ==>
        && request == Some(CompletionRequest(modelName, Replay(old(messages) + [Message(User, chatInput.value)])))
        && messages == old(messages) + [Message(User, chatInput.value)]
             + (if reply.Some? then [Message(Assistant, reply.value)] else [])
    {
      if chatInput.None? || chatInput.value == "" {
        return None;
      }
      var prompt := chatInput.value;
      messages := messages + [Message(User, prompt)];
      request := Some(CompletionRequest(modelName, Replay(messages)));
      if reply.None? {
        return;
      }
      var response := reply.value;
      messages := messages + [Message(Assistant, response)];
    }

    /**
     * One run of the script: seed the state, render the stored conversation,
     * then handle the chat input. Returns what was rendered from the history
     * and what was sent to the completion endpoint.
     */
    method Run(chatInput: Option<string>, reply: Option<string>)
      returns (shown: seq<Message>, request: Option<CompletionRequest>)
      requires Valid()
      modifies this
      ensures Valid() && hasModel && hasMessages
      ensures modelName == (if old(hasModel) then old(modelName) else DefaultModel)
      ensures request.Some? ==> request.value.model == modelName
      ensures old(hasMessages) ==> shown == old(messages)[1..]
      ensures !old(hasMessages) ==> shown == []
      ensures var history := if old(hasMessages) then old(messages) else [Message(System, SystemRole)];
        && |history| <= |messages| && messages[..|history|] == history
        && (chatInput == None || chatInput == Some("") ==> messages == history && request == None)
        && (chatInput.Some? && chatInput.value != "" ==>
              && messages == history + [Message(User, chatInput.value)]
                   + (if reply.Some? then [Message(Assistant, reply.value)] else [])
              && request.Some? && request.value.messages == Replay(history) + [WireMessage("user", chatInput.value)])
    {
      Seed();
      shown := Render();
      SeededHistoryViews(messages);
      ghost var history := messages;
      request := Turn(chatInput, reply);
      if chatInput.Some? && chatInput.value != "" {
        ReplayAppend(history, [Message(User, chatInput.value)]);
      }
    }
  }
}
