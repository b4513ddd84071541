# SellMeAnything sales chatbot — verified model

This project models, in Dafny, the deterministic logic of two small sales
chatbots.

The console bot (`SellMeAnything-chatbot/vendedor.py`) talks to a local
completion endpoint. Each line the user types goes through these steps:

- `exit` or `quit`, in any letter case, ends the loop.
- Otherwise a keyword classifier labels the line `positive`, `negative` or
  `neutral`.
- The label picks one of three fixed prompt prefixes, and the line follows
  the prefix unchanged.
- The prompt is sent together with the current context token. The endpoint
  answers with a sequence of line records. `generate` concatenates their
  `response` fields up to the first record marked `done`, and that record's
  `context` becomes the token for the next call.
- An HTTP error status, an `error` field, or a reply without a `done` record
  ends the conversation.

The Streamlit bot (`vendedor.py`) keeps a per-session conversation:

- The conversation is seeded once with a system message.
- It is rendered without its system messages.
- Every call replays all of it to the completion endpoint.
- Each non-empty input appends a user message and then the assistant's reply.

Modules:

- `Options` (options.dfy): the optional value used for absent keys and `None`.
- `Sentiment` (sentiment.dfy): `infer_psychological_state`. `Contains` is
  Python's substring test. It is proved equal to the existence of an
  occurrence index. The label is then characterised by which keywords occur.
- `Generation` (generation.dfy): the record fold of `generate`. `Fold` is a
  recursive specification. `Generate` is the loop of the source, proved
  equal to it. The fold itself is described by lemmas that use the first
  `done` record and the first `error` record.
- `ConsoleChat` (console_chat.dfy): the exit check, the prompt choice and
  the `chat` loop.
  - `StepOf` turns one input line into a step: quit, or a call with a prompt
    and the endpoint's answer.
  - `Run` threads the context through the steps, and `RunChat` is the whole
    conversation.
  - `Chat` is the `while True` loop, proved equal to `RunChat`.
  - The `RunChat…` lemmas restate the `Run…` lemmas in terms of the typed
    lines.
- `ChatSession` (session.dfy): the class `SessionState` for
  `st.session_state`. Its invariant: the conversation starts with the seed
  system message and holds no other system message. Its methods are
  `Seed`, `Render`, `Turn` and `Run`, where `Run` is one run of the script.

The network, the endpoint and the user are inputs of the model:

- Each `Turn` of the console bot pairs the typed line with the `Reply`
  (HTTP status and parsed records) the endpoint would give.
- In the Streamlit bot, the chat input and the streamed reply are
  parameters. A reply of `None` means the completion call raised.

One consequence of the code as written is proved in `Sentiment.DislikeIsPositive`.
The negative keyword `dislike` contains the positive keyword `like`, so a
message containing `dislike` is always classified positive.

Two details of the code that the model keeps:

- An empty or absent chat input is silently ignored (vendedor.py:43).
- `body.get('done', False)` is tested for truthiness; the model reads it as
  a boolean whose absence means false.

## Model

| member | source | states |
|---|---|---|
| `Sentiment.InferPsychologicalState` | SellMeAnything-chatbot/vendedor.py:10-18 | the result is always one of `positive`, `negative`, `neutral` |
| `Sentiment.InferMatchesKeywords` | SellMeAnything-chatbot/vendedor.py:11-18 | `positive` exactly when `love`, `like` or `enjoy` occurs as a substring; `negative` exactly when none of those but one of `hate`, `dislike`, `bad` occurs; `neutral` exactly when no keyword occurs |
| `Sentiment.ContainsIsOccurs` | SellMeAnything-chatbot/vendedor.py:13 | Python's `word in message` holds exactly when the word occurs at some index as a contiguous, case-sensitive substring |
| `Sentiment.AnyContainedIsSomeOccurs` | SellMeAnything-chatbot/vendedor.py:13-15 | `any(word in message for word in keywords)` holds exactly when some keyword of the list occurs in the message |
| `Sentiment.PositiveTakesPriority` | SellMeAnything-chatbot/vendedor.py:13-16 | a message containing both a positive and a negative keyword is positive |
| `Sentiment.UnlikelyIsPositive` | SellMeAnything-chatbot/vendedor.py:13 | containment is not word matching: `"unlikely"` is positive |
| `Sentiment.UpperCaseIsNeutral` | SellMeAnything-chatbot/vendedor.py:13-18 | matching is case-sensitive: `"LOVE"` is neutral |
| `Sentiment.DislikeIsPositive` | SellMeAnything-chatbot/vendedor.py:11-14 | any message containing the negative keyword `dislike` is classified positive, because it contains `like` |
| `Generation.Generate` | SellMeAnything-chatbot/vendedor.py:33-47 | the loop returns exactly the specification `Answer`: an HTTP status in 400..599 fails, otherwise the fold of the records |
| `Generation.FoldStopsAtFirstDone` | SellMeAnything-chatbot/vendedor.py:35-47 | when record k is the first `done` record and no record up to it has `error`, the result is the concatenation of the `response` fields of records 0..k (absent means "") with record k's `context` (absent means []) |
| `Generation.FoldFailsAtFirstError` | SellMeAnything-chatbot/vendedor.py:39-41 | an `error` record reached before any `done` record fails the call with its message, even when it is itself `done` |
| `Generation.FoldWithoutDone` | SellMeAnything-chatbot/vendedor.py:37-47 | when no record is `done` or has `error`, the function returns nothing |
| `Generation.FoldOkHasFirstDone` | SellMeAnything-chatbot/vendedor.py:45-47 | a successful result always comes from a first `done` record with no `error` before or at it |
| `Generation.FoldIgnoresTail` | SellMeAnything-chatbot/vendedor.py:40-47 | records after the one that returns or raises do not change the result |
| `Generation.FoldContinues` | SellMeAnything-chatbot/vendedor.py:37-43 | records that neither fail nor finish only prepend their `response` text to the result of the remaining records |
| `ConsoleChat.ExitCommandExamples` | SellMeAnything-chatbot/vendedor.py:53 | `exit`, `EXIT` and `Quit` end the loop; `exit ` (trailing space), `exits` and the empty line do not |
| `ConsoleChat.ExitCommandIgnoresCase` | SellMeAnything-chatbot/vendedor.py:53 | the exit check gives the same answer for a line and its lower-cased form |
| `ConsoleChat.PromptFor` | SellMeAnything-chatbot/vendedor.py:59-64 | the input is a proper suffix of the prompt; the enthusiastic prefix is used exactly for `positive`, the empathetic one exactly for `negative`, the charismatic one for every other label |
| `ConsoleChat.PromptFollowsKeywords` | SellMeAnything-chatbot/vendedor.py:57-64 | the prompt for a line is the enthusiastic one exactly when a positive keyword occurs, the empathetic one exactly when only negative keywords occur, the charismatic one exactly when no keyword occurs |
| `ConsoleChat.RunLengths` | SellMeAnything-chatbot/vendedor.py:51-75 | a run makes at most one call per turn, prints at most one reply per call, and makes at most one call without a printed reply |
| `ConsoleChat.RunRequest` | SellMeAnything-chatbot/vendedor.py:57-71 | call j is made for step j, which is a call, with that step's prompt; the first call sends the initial context, each later call the context returned by the previous call |
| `ConsoleChat.RunOutput` | SellMeAnything-chatbot/vendedor.py:71-72 | printed reply j is the text of step j's successful answer |
| `ConsoleChat.RunStops` | SellMeAnything-chatbot/vendedor.py:51-75 | a run ending on exit stopped at a quit step with every call answered; one ending on failure stopped right after the failed call, whose answer is the cause; end of input comes after every step succeeded; the final context is the last returned one, or the initial one |
| `ConsoleChat.RunQuitsAt` | SellMeAnything-chatbot/vendedor.py:52-55 | a quit step after only successful calls ends the run with exactly that many calls |
| `ConsoleChat.RunFinalContext` | SellMeAnything-chatbot/vendedor.py:71 | after at least one answered call, the context a run holds is the one returned by the last answered step |
| `ConsoleChat.RunChatRequest` | SellMeAnything-chatbot/vendedor.py:52-71 | call j is made for typed line j, which is not an exit command, with the prompt built from that line; its context is the initial one or the one the previous line's call returned |
| `ConsoleChat.RunChatOutput` | SellMeAnything-chatbot/vendedor.py:71-72 | printed reply j is the text returned for typed line j |
| `ConsoleChat.RunChatStops` | SellMeAnything-chatbot/vendedor.py:51-75 | an exit command ends the conversation before that line is classified or sent; a failed call (HTTP error, `error` record, no `done` record) ends it right after that call; end of input comes after every line was answered |
| `ConsoleChat.RunChatFinalContext` | SellMeAnything-chatbot/vendedor.py:71 | when k + 1 replies were printed, typed line k exists and was answered, and the context held at the end is the one its call returned |
| `ConsoleChat.ExitStopsTheLoop` | SellMeAnything-chatbot/vendedor.py:52-55 | the first exit command, after only answered lines, ends the conversation with exactly one call per earlier line |
| `ConsoleChat.Chat` | SellMeAnything-chatbot/vendedor.py:49-75 | the `while True` loop produces exactly the calls, printed replies, final context and ending of `RunChat` |
| `ChatSession.VisibleAppend` | vendedor.py:38-41 | rendering a concatenation renders each part in order |
| `ChatSession.VisibleMembers` | vendedor.py:38-41 | a message is rendered exactly when it is stored and its role is not system |
| `ChatSession.VisibleWithoutSystem` | vendedor.py:38-41 | a conversation without system messages is rendered unchanged and in order |
| `ChatSession.SeededHistoryViews` | vendedor.py:33-41 | a seeded conversation is rendered as everything after the seed, and its replay starts with the system entry carrying the system role text |
| `ChatSession.ReplayAppend` | vendedor.py:51-54 | the replay of a concatenation is the concatenation of the replays, so appending messages only extends what is sent |
| `ChatSession.ReplayInjective` | vendedor.py:51-54 | the replay copies role and content without loss: two conversations with the same replay are equal |
| `ChatSession.SessionState.constructor` | vendedor.py:24-34 | a new session has neither the model key nor the message list |
| `ChatSession.SessionState.Seed` | vendedor.py:24-35 | a missing model name is set to `gpt-3.5-turbo-0125` and a missing conversation to the single system message; present ones are left unchanged, so rerunning adds nothing |
| `ChatSession.SessionState.Render` | vendedor.py:38-41 | the rendering loop shows exactly the stored messages whose role is not system, in stored order |
| `ChatSession.SessionState.Turn` | vendedor.py:43-58 | an absent or empty input changes nothing and sends nothing; otherwise exactly a user message and then, if the call returned, an assistant message are appended, earlier messages are unchanged, and the request replays every stored message including the new user one; the seed stays first and alone in its role |
| `ChatSession.SessionState.Run` | vendedor.py:24-58 | one script run seeds the state, sets the model name to `gpt-3.5-turbo-0125` only if it was absent, sends requests under that model name, renders the history after the seed, and then extends the history by exactly the turn's messages, sending the replayed history plus the new user entry |

## Left out

- The HTTP request itself (`requests.post`, the URL, the model name
  `mistral:latest`, the JSON body) and the line splitting of the answer.
  The endpoint's answer is an input (`Reply`). `Generate` does not take the
  prompt, context and sampling options. The console loop records them in
  each `Request`.
- `raise_for_status` is modelled as failing exactly for statuses 400 to 599,
  as that library method documents. Redirect handling and transport errors
  are not modelled.
- `json.loads`: records arrive parsed and well typed. Unparsable lines and
  non-object JSON are not modelled. A `response` value that is not a string
  raises at line 43; that is not modelled. A `context` value that is not a
  list of integers is kept and sent unchanged with the next request; the
  model's `seq<int>` cannot represent it.
- `Generation.Record`: a present `"error": null` still makes the call fail,
  because `'error' in body` is true (lines 40-41). The `Option<string>`
  field cannot represent a present null error.
- The sampling options `top_k`, `top_p` and `temperature` are constants
  passed through unchanged.
- Console I/O. The text printed on exit and on errors is not modelled. The
  printed replies are the transcript's `outputs`. End of input (`input()`
  raising) is modelled as the `EndOfInput` ending.
- `ConsoleChat.ExitCommandIgnoresCase`: `str.lower()` is modelled for ASCII
  letters only. Non-ASCII characters are left unchanged. This does not
  affect which inputs are exit commands, since no non-ASCII character
  lower-cases to one of the letters of `exit` or `quit` alone.
- The OpenAI client, streaming with `st.write_stream`, and the Streamlit
  widgets and title. The assistant's reply is an opaque input string, and
  the user message that the script echoes to the chat as it arrives
  (vendedor.py:45-46) is not part of `Render`.
- The API key and the client construction (vendedor.py:20).
- No emotion classifier, logger or catalog code is modelled.
