# Chat front-ends: conversation store, context window and chat loop

This project models the logic of two small chat front-ends that forward user
text to a hosted chat-completion endpoint:

- **the Telegram bot** (`bot.py`): per-user conversations kept as one JSON file
  per user id, the rendering of the last 20 records as a `"User: ..."` /
  `"Assistant: ..."` block, and one bot turn (`/clear`, or load, append, render,
  call, append the reply, save);
- **the terminal demo** (`afrikaans.py`): a loop over typed lines with an
  in-memory, append-only conversation; blank lines are skipped, `stop`/`exit`/`quit`
  end the session, anything else is sent with the fixed Afrikaans system prompt and
  the whole conversation.

Modules, one per component:

- `Chat` (chat.dfy): the record `Message(role, content, timestamp)` and the abstract
  outcome of a model call, `Success(content)` or `Failure(error)`.
- `Text` (text.dfy): Python's `strip()`, `lower()` and `"\n".join`, with `split("\n")`
  as the inverse of the join.
- `History` (history.dfy): `get_history_text`, both as the method with the source's
  loop (`GetHistoryText`) and as the function that specifies it (`HistoryText`).
- `Store` (store.dfy): the files as a class with a `map` field from user id to
  conversation; `Load` and `Save` as its methods.
- `Bot` (bot.dfy): `generate_response` and `handle_message` as methods on the
  store, each proved against a function of the old files (`Respond`, `Handle`);
  the lemmas about those functions state what a turn does.
- `Terminal` (terminal.dfy): `main`'s loop as a method over a sequence of inputs
  (`RunSession`), proved against the functions `Step` (one pass of the loop body)
  and `Session` (the whole loop); the lemmas state what each kind of line does
  and that the conversation only grows.

The model call, the clock and the prompt file are parameters: the call's outcome
is passed in (for the terminal, paired with each typed line), the two timestamps
of a bot turn are opaque strings, and the bot's system prompt is an opaque string.

Three behaviours of the code a reader may not expect:

- On a failed model call the bot saves nothing: the save sits inside the `try`
  (bot.py:73-94), so the user's message is lost and only `"Error: ..."` is
  returned. Neither the user turn nor an error turn is persisted.
- `handle_message` recognises `/clear` after stripping whitespace and in any
  letter case (bot.py:101-104). This is the handler's own behaviour: the filters
  registered at bot.py:123-124 (not modelled) deliver slash-command text to it only
  when it matches the case-sensitive `^/clear$`.
- An update whose text is only whitespace is not ignored: it strips to `""`, is not
  `/clear`, and runs a turn with an empty message (bot.py:97-110).

## Model

| member | source | states |
|---|---|---|
| Text.TrimStartCuts | bot.py:101 | the front cut by `strip()` is all whitespace and what remains is a suffix that does not start with whitespace |
| Text.TrimEndCuts | bot.py:101 | the back cut by `strip()` is all whitespace and what remains is a prefix that does not end with whitespace |
| Text.StripCuts | bot.py:101 | `strip()` returns the piece of the input between a whitespace-only front and a whitespace-only back, itself neither starting nor ending with whitespace |
| Text.StripEmptyIffBlank | afrikaans.py:49-55 | a line strips to the empty string exactly when every character is whitespace |
| Text.StripKeepsTrimmed | bot.py:101 | a string without leading or trailing whitespace is its own strip |
| Text.StripIdempotent | bot.py:101 | stripping twice is stripping once |
| Text.Lower | bot.py:104 | lowering keeps the length |
| Text.LowerAt | bot.py:104 | lowering maps each character on its own through LowerChar |
| Text.LowerIdempotent | bot.py:104 | lowering leaves no capital letter to lower: lowering twice is lowering once |
| Text.SplitLines | bot.py:50 | splitting on newlines always gives at least one piece |
| Text.SplitJoinLines | bot.py:50 | joining newline-free lines with `"\n"` and splitting the result gives the same lines back |
| Text.JoinLinesSnoc | bot.py:50 | joining one more line appends it after a newline, or gives the line alone when there was none before |
| History.RenderLines | bot.py:46-49 | one rendered line per record |
| History.RenderLinesAt | bot.py:47-49 | line k is the rendering of record k, in the original order |
| History.GetHistoryText | bot.py:44-50 | the loop's result is the newline join of the rendered lines of `conversation[-limit:]` |
| History.RecentIsLastMessages | bot.py:45 | for a positive limit the window holds exactly min(length, limit) records, the last ones, in order |
| History.ShortConversationInFull | bot.py:45 | a conversation no longer than the limit is used whole, without padding |
| History.NonPositiveLimit | bot.py:45 | a limit of 0 takes the whole conversation and a negative one drops its first -limit records |
| History.EmptyHistory | bot.py:46-50 | an empty conversation renders to the empty string |
| History.RenderLineByRole | bot.py:48-49 | a record renders as "Assistant: "+content exactly when its role is "assistant" and as "User: "+content exactly for every other role |
| History.ParseRenderLine | bot.py:48-49 | a rendered line reads back as its speaker label and the record's content |
| History.HistoryLinesReadBack | bot.py:44-50 | when no record in the window holds a newline, the block splits into exactly min(length, limit) lines, each reading back as the speaker and content of the matching one of the last records |
| History.HistoryEndsWithLast | bot.py:64-71 | the block of a conversation ending in a record ends with that record's line, after a newline when the window holds more |
| History.TwoRecordExample | bot.py:44-50 | a user "hi" then an assistant "hello" render as "User: hi\nAssistant: hello" |
| Store.ConversationStore.constructor | bot.py:17 | the first-run state: a data directory with no files yet (Load, Save, GenerateResponse and HandleMessage are proved for any store) |
| Store.ConversationStore.Load | bot.py:30-36 | loading gives the saved conversation, or [] for an id never saved |
| Store.ConversationStore.Save | bot.py:38-42 | saving overwrites the whole conversation of that id and nothing else |
| Store.NeverSavedLoadsEmpty | bot.py:33-36 | an id with no file loads as [] |
| Store.SaveThenLoad | bot.py:30-42 | after a save the id loads what was saved and every other id loads what it did before |
| Bot.GenerateResponse | bot.py:59-94 | the response, the request and the new files are those of Respond on the old files: saved only on success |
| Bot.HandleMessage | bot.py:96-111 | the reply, the request and the new files are those of Handle on the old files |
| Bot.NoTextNoReply | bot.py:97-98 | an update without text changes nothing, sends no reply and makes no call |
| Bot.ClearEmpties | bot.py:101-107 | "/clear" in any case and with surrounding whitespace empties the user's conversation, replies with the acknowledgement and makes no call |
| Bot.SuccessAppendsTurn | bot.py:61-92 | on success the user's conversation becomes the old one plus the stripped message plus the stripped reply, and the reply is returned |
| Bot.FailureKeepsStore | bot.py:73-94 | on failure the files are unchanged and the answer is "Error: " followed by the error |
| Bot.RequestHoldsNewMessage | bot.py:64-81 | the request is the system prompt and the rendered window of the conversation with the new message, which ends with "User: "+message |
| Bot.OtherUsersUntouched | bot.py:90 | a turn changes no other user's conversation |
| Bot.HandleKeepsOnlyTurns | bot.py:64-68 | a store holding only user and assistant records keeps holding only those |
| Terminal.RunSession | afrikaans.py:37-77 | the loop's final conversation, its requests in order and why it ended are those of Session over the inputs |
| Terminal.BlankLineSkipped | afrikaans.py:49-55 | a whitespace-only line changes nothing, sends nothing, and the loop goes on |
| Terminal.ExitKeywordStops | afrikaans.py:57-59 | stop/exit/quit in any case end the loop with nothing sent and nothing changed |
| Terminal.OtherLineCalls | afrikaans.py:61-77 | any other line is appended as a user turn before the call; the request is the system prompt and the whole conversation (one message longer than it); success appends the stripped reply and failure leaves the user turn without one |
| Terminal.StopIgnoresRest | afrikaans.py:50-59 | once the loop stops, no later input is read |
| Terminal.StepAppends | afrikaans.py:61-73 | one pass of the loop only appends to the conversation |
| Terminal.SessionAppendOnly | afrikaans.py:37-77 | over a whole session the conversation keeps its start as a prefix and the requests already sent stay in front |
| Terminal.StepRequestSeesHistory | afrikaans.py:61-69 | a pass's request is the system prompt followed by the conversation that pass leaves, up to its user turn |
| Terminal.RequestsSeeFinalHistory | afrikaans.py:61-73 | every request of a session is the system prompt followed by a prefix of the final conversation ending in a user turn |

## Left out

- The chat-completion call itself (model name, `max_tokens`, the network): each call
  is an abstract outcome supplied by the caller; what the endpoint answers does not
  depend on the request in this model.
- The Telegram plumbing (`Update`, `reply_text`, the application, the two message
  filters, polling, `async`): `HandleMessage` returns the reply instead of sending it,
  and the filters that decide which updates reach it are not modelled.
- Files and JSON: the data directory is a map; `os.makedirs`, paths, the encoding,
  and what happens to a file that is not a list of records with a string `role`
  and `content` are not modelled.
- I/O failures: the model's store never fails. In the code, a failing load
  (bot.py:61) or prompt read (bot.py:60) propagates out of the turn; a failing save
  after a successful call (bot.py:90) is inside the `try` of bot.py:73-94 and is
  turned into an `"Error: ..."` answer; a failing `/clear` save (bot.py:105) is in
  no `try`, so it propagates out of `handle_message` and no acknowledgement is sent.
- `load_config`, `load_system_prompt` and the client set-up (bot.py:20-28, 52-57;
  afrikaans.py:22-35): the bot's system prompt is a parameter; `main` in bot.py
  (bot.py:113-127) only reads the token, prints and starts polling.
- Printing: the banner, the replies, the `Fout: ...` error line and the farewells
  are not part of the terminal model; the ending (exit keyword, interrupt, end of
  input) is returned instead.
- An interrupt during the model call (KeyboardInterrupt is not an `Exception`, so it
  ends the program) is not modelled; only interrupts at the prompt are.
- Timestamps (`datetime.now().isoformat()`) are opaque strings passed in.
- Text.Lower: folds only the ASCII letters, because Python's full Unicode case
  mapping is not modelled; stripping uses Python's full whitespace set. For the two
  comparisons it feeds (bot.py:104, afrikaans.py:57) this gives the same answers:
  the only non-ASCII characters Python lowers to ASCII letters are U+212A (to "k")
  and U+0130 (to "i" followed by U+0307), and neither can produce "/clear", "stop",
  "exit" or "quit".
- The same-user read-modify-write race between concurrent handlers: concurrency is
  not modelled; each turn runs alone.
