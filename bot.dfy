/** One turn of the Telegram bot (bot.py, generate_response and handle_message):
    load the user's conversation, append the message, render the window, call the
    model, and on success append the reply and save. The model call is the
    `outcome` parameter; the system prompt and the two timestamps are opaque
    strings the caller supplies. */
module Bot {
  import opened Chat
  import opened Text
  import opened History
  import opened Store

  const ClearCommand: string := "/clear"
  const ClearAck: string := "\U{2705} Conversation cleared."
  const ErrorPrefix: string := "Error: "
  const ContextHeader: string := "Conversation:\n"

  function UserRecord(message: string, stamp: string): Message
  {
    Message("user", message, Some(stamp))
  }

  function AssistantRecord(reply: string, stamp: string): Message
  {
    Message("assistant", reply, Some(stamp))
  }

  /** The two messages sent to the model: the system prompt, then one user turn
      holding the rendered history. */
  function Request(systemPrompt: string, history: string): seq<Message>
  {
    [Message("system", systemPrompt, None), Message("user", ContextHeader + history, None)]
  }

  /** The result of generate_response: what is saved (nothing on failure), the
      text returned, and the request sent to the model. */
  datatype Turn = Turn(saved: Option<seq<Message>>, response: string, request: seq<Message>)

  function Respond(stored: seq<Message>, systemPrompt: string, message: string,
                   userStamp: string, outcome: Outcome, replyStamp: string): Turn
  {
    var conversation := stored + [UserRecord(message, userStamp)];
    var request := Request(systemPrompt, HistoryText(conversation, DefaultLimit));
    match outcome
    case Success(content) =>
      Turn(Some(conversation + [AssistantRecord(Strip(content), replyStamp)]), Strip(content), request)
    case Failure(error) =>
      Turn(None, ErrorPrefix + error, request)
  }

  /** The result of handle_message: the files afterwards, the reply sent to the
      chat (none when the update carries no text) and the model request, if any. */
  datatype Handled = Handled(table: map<string, seq<Message>>, reply: Option<string>,
                             request: Option<seq<Message>>)

  predicate IsClear(message: string)
  {
    Lower(message) == ClearCommand
  }

  function Handle(table: map<string, seq<Message>>, userId: string, text: Option<string>,
                  systemPrompt: string, userStamp: string, outcome: Outcome,
                  replyStamp: string): Handled
  {
    if text.None? || text.value == "" then Handled(table, None, None)
    else
      var message := Strip(text.value);
      if IsClear(message) then Handled(table[userId := []], Some(ClearAck), None)
      else
        var turn := Respond(Stored(table, userId), systemPrompt, message, userStamp, outcome, replyStamp);
        Handled(if turn.saved.Some? then table[userId := turn.saved.value] else table,
                Some(turn.response), Some(turn.request))
  }

  /** generate_response on the store. */
  method GenerateResponse(store: ConversationStore, userId: string, message: string,
                          systemPrompt: string, userStamp: string, outcome: Outcome,
                          replyStamp: string)
    returns (response: string, request: seq<Message>)
    modifies store
    ensures var turn := Respond(Stored(old(store.files), userId), systemPrompt, message,
                                userStamp, outcome, replyStamp);
            && response == turn.response && request == turn.request
            && store.files == if turn.saved.Some? then old(store.files)[userId := turn.saved.value]
                              else old(store.files)
  {
    var conversation := store.Load(userId);
    ghost var turn := Respond(conversation, systemPrompt, message, userStamp, outcome, replyStamp);
    conversation := conversation + [UserRecord(message, userStamp)];
    var history := GetHistoryText(conversation, DefaultLimit);
    request := Request(systemPrompt, history);
    assert request == turn.request;
    match outcome
    case Success(content) =>
      var reply := Strip(content);
      conversation := conversation + [AssistantRecord(reply, replyStamp)];
      assert turn.saved == Some(conversation);
      store.Save(userId, conversation);
      response := reply;
    case Failure(error) =>
      response := ErrorPrefix + error;
  }

  /** handle_message on the store: `text` is None when the update has no message
      or no text. */
  method HandleMessage(store: ConversationStore, userId: string, text: Option<string>,
                       systemPrompt: string, userStamp: string, outcome: Outcome,
                       replyStamp: string)
    returns (reply: Option<string>, request: Option<seq<Message>>)
    modifies store
    ensures var h := Handle(old(store.files), userId, text, systemPrompt, userStamp,
                            outcome, replyStamp);
            store.files == h.table && reply == h.reply && request == h.request
  {
    if text.None? || text.value == "" {
      return None, None;
    }
    var message := Strip(text.value);
    if Lower(message) == ClearCommand {
      store.Save(userId, []);
      return Some(ClearAck), None;
    }
    var response, sent := GenerateResponse(store, userId, message, systemPrompt,
                                           userStamp, outcome, replyStamp);
    reply, request := Some(response), Some(sent);
  }

  /** An update without text changes nothing and gets no reply. */
  lemma NoTextNoReply(table: map<string, seq<Message>>, userId: string, text: Option<string>,
                      systemPrompt: string, userStamp: string, outcome: Outcome, replyStamp: string)
    requires text.None? || text.value == ""
    ensures Handle(table, userId, text, systemPrompt, userStamp, outcome, replyStamp)
            == Handled(table, None, None)
  {
  }

  /** "/clear", in any letter case and with surrounding whitespace (as the handler
      sees it; the update filters in front of it are not modelled), empties the
      user's conversation, is acknowledged, and makes no model call. */
  lemma ClearEmpties(table: map<string, seq<Message>>, userId: string, t: string,
                     systemPrompt: string, userStamp: string, outcome: Outcome, replyStamp: string)
    requires IsClear(Strip(t))
    ensures var h := Handle(table, userId, Some(t), systemPrompt, userStamp, outcome, replyStamp);
            && h.table == table[userId := []] && Stored(h.table, userId) == []
            && h.reply == Some(ClearAck) && h.request == None
  {
  }

  /** A successful call stores the old conversation plus the stripped message and
      the stripped reply, and the reply is what the user gets back. */
  lemma SuccessAppendsTurn(table: map<string, seq<Message>>, userId: string, t: string,
                           systemPrompt: string, userStamp: string, content: string,
                           replyStamp: string)
    requires t != "" && !IsClear(Strip(t))
    ensures var h := Handle(table, userId, Some(t), systemPrompt, userStamp,
                            Success(content), replyStamp);
            var after := Stored(table, userId) + [UserRecord(Strip(t), userStamp),
                                                  AssistantRecord(Strip(content), replyStamp)];
            && h.table == table[userId := after] && Stored(h.table, userId) == after
            && h.reply == Some(Strip(content))
  {
    var stored := Stored(table, userId);
    var u, a := UserRecord(Strip(t), userStamp), AssistantRecord(Strip(content), replyStamp);
    assert stored + [u] + [a] == stored + [u, a];
    var turn := Respond(Stored(table, userId), systemPrompt, Strip(t), userStamp,
                        Success(content), replyStamp);
    assert turn.saved == Some(Stored(table, userId) + [UserRecord(Strip(t), userStamp),
                                                       AssistantRecord(Strip(content), replyStamp)]);
  }

  /** A failed call saves nothing and answers "Error: " followed by the error. */
  lemma FailureKeepsStore(table: map<string, seq<Message>>, userId: string, t: string,
                          systemPrompt: string, userStamp: string, error: string,
                          replyStamp: string)
    requires t != "" && !IsClear(Strip(t))
    ensures var h := Handle(table, userId, Some(t), systemPrompt, userStamp,
                            Failure(error), replyStamp);
            h.table == table && h.reply == Some(ErrorPrefix + error)
  {
  }

  /** Whatever the outcome, the model is sent the system prompt and the rendered
      window of the conversation with the new message appended, and that window
      ends with the new message's own "User: " line. */
  lemma RequestHoldsNewMessage(table: map<string, seq<Message>>, userId: string, t: string,
                               systemPrompt: string, userStamp: string, outcome: Outcome,
                               replyStamp: string)
    requires t != "" && !IsClear(Strip(t))
    ensures var h := Handle(table, userId, Some(t), systemPrompt, userStamp, outcome, replyStamp);
            var history := HistoryText(Stored(table, userId) + [UserRecord(Strip(t), userStamp)],
                                       DefaultLimit);
            var line := "User: " + Strip(t);
            && h.request == Some(Request(systemPrompt, history))
            && |history| >= |line| && history[|history| - |line|..] == line
  {
    var m := UserRecord(Strip(t), userStamp);
    var history := HistoryText(Stored(table, userId) + [m], DefaultLimit);
    var h := Handle(table, userId, Some(t), systemPrompt, userStamp, outcome, replyStamp);
    assert h.request == Some(Request(systemPrompt, history));
    HistoryEndsWithLast(Stored(table, userId), m, DefaultLimit);
    assert RenderLine(m) == "User: " + Strip(t) by {
      assert Label("user") == "User" by { assert "user"[0] != "assistant"[0]; }
    }
  }

  /** A turn touches no other user's conversation. */
  lemma OtherUsersUntouched(table: map<string, seq<Message>>, userId: string, text: Option<string>,
                            systemPrompt: string, userStamp: string, outcome: Outcome,
                            replyStamp: string, other: string)
    requires other != userId
    ensures Stored(Handle(table, userId, text, systemPrompt, userStamp, outcome, replyStamp).table, other)
            == Stored(table, other)
  {
  }

  /** Every record of `c` is a user or an assistant turn. */
  predicate OnlyTurns(c: seq<Message>)
  {
    forall i :: 0 <= i < |c| ==> c[i].role == "user" || c[i].role == "assistant"
  }

  /** Every conversation of `table` holds only user and assistant turns. */
  predicate AllTurns(table: map<string, seq<Message>>)
  {
    forall id :: id in table ==> OnlyTurns(table[id])
  }

  /** The bot never stores a system record: a store that holds only user and
      assistant turns keeps holding only those. */
  lemma HandleKeepsOnlyTurns(table: map<string, seq<Message>>, userId: string, text: Option<string>,
                             systemPrompt: string, userStamp: string, outcome: Outcome,
                             replyStamp: string)
    requires AllTurns(table)
    ensures AllTurns(Handle(table, userId, text, systemPrompt, userStamp, outcome, replyStamp).table)
  {
    if text.None? || text.value == "" {
      NoTextNoReply(table, userId, text, systemPrompt, userStamp, outcome, replyStamp);
    } else if IsClear(Strip(text.value)) {
      ClearEmpties(table, userId, text.value, systemPrompt, userStamp, outcome, replyStamp);
      UpdateKeepsTurns(table, userId, []);
    } else if outcome.Failure? {
      FailureKeepsStore(table, userId, text.value, systemPrompt, userStamp, outcome.error, replyStamp);
    } else {
      var stored := Stored(table, userId);
      var added := [UserRecord(Strip(text.value), userStamp),
                    AssistantRecord(Strip(outcome.content), replyStamp)];
      SuccessAppendsTurn(table, userId, text.value, systemPrompt, userStamp, outcome.content, replyStamp);
      AppendTurns(stored, added);
      UpdateKeepsTurns(table, userId, stored + added);
    }
  }

  lemma UpdateKeepsTurns(table: map<string, seq<Message>>, userId: string, c: seq<Message>)
    requires AllTurns(table) && OnlyTurns(c)
    ensures AllTurns(table[userId := c])
  {
  }

  lemma AppendTurns(c: seq<Message>, d: seq<Message>)
    requires OnlyTurns(c) && OnlyTurns(d)
    ensures OnlyTurns(c + d)
  {
    forall i | 0 <= i < |c + d|
      ensures (c + d)[i].role == "user" || (c + d)[i].role == "assistant"
    {
      if i < |c| { assert (c + d)[i] == c[i]; }
      else { assert (c + d)[i] == d[i - |c|]; }
    }
  }
}
