# Zezti bot: session dispatcher and model fallback

A model of the deterministic core of the Zezti chat bot (`bot.py`), with proofs.

- **Session dispatcher** (`on_message`). Each user is asleep or awake. A user is awake exactly when the process-wide map `active_chats` has an entry for them. The entry holds the id of the bot's last message to that user. Each inbound message takes the first branch that applies:
  - messages from bots are ignored;
  - the wake word `zezti` in the lower-cased, stripped text wakes an inactive user;
  - an awake user's message that is not a reply to the bot puts them to sleep;
  - messages from inactive users are ignored;
  - otherwise the bot replies with the completion text, or with a random fallback line.
- **Completion client** (`get_ai`). It answers None at once when AI is disabled. Otherwise it asks each model of `MODELS` in order and answers the stripped text of the first request that succeeds. It answers None when every request fails.

Files:

- `wrappers.dfy`: the Option datatype, standing for Python's `None`-or-value.
- `text.dfy` (module `Text`): Python's `lower()`, `strip()` and substring `in`.
- `completion.dfy` (module `Completion`): the roster `MODELS`.
  - `GetAi` is the `for` loop with early return. It is proved against the first-success search `FirstSuccess` and the request count `AttemptCount`.
  - The lemmas characterise that search.
- `session.dfy` (module `Session`): the constants `WAKE_WORD`, `FALLBACK` and the two notices.
  - `React` is the pure effect of one message on the map.
  - The lemmas state each branch's promise.
  - The class `Zezti` holds the map `activeChats` as a field. Its method `OnMessage` updates the field in place and is proved equal to `React`.

Environment inputs become parameters:

- The provider's behaviour is a function `Provider` from (model name, prompt) to `Ok(content)` or `Failed`.
- The index `random.choice` draws is a `FallbackIndex`.
- The id the platform gives the sent message is `sentId`.
- `USE_AI` is a constant field, fixed when the bot is constructed.
- `reply_to_bot` is a boolean field of the inbound message.

Facts about `bot.py` that the model follows:

- `bot.py` keeps no conversation history. The prompt is `"User: " + content + "\nZezti:"`, built from the raw content and not the normalized text (bot.py:162).
- "Reply to the bot" means a reply to *any* message the bot wrote (bot.py:130-134). The id stored in `active_chats` is written but never read.
- A truthy test decides between the AI reply and the fallback (bot.py:166). So a successful model whose text strips to `""` gives a fallback line. `get_ai` does not go on to the next model in that case.

## Model

| member | source | states |
|---|---|---|
| Text.IsSpace | bot.py:126 | the characters a bare `strip()` removes, Python's `isspace()` set; no letter is whitespace |
| Text.LowerChar | bot.py:126 | lower-casing maps each ASCII capital to its own small letter (same offset from `a` as from `A`), leaves every other character alone and never turns a space into a non-space or back |
| Text.Lower | bot.py:126 | `lower()` keeps the length, lower-cases each character in place, leaves no ASCII capital and keeps whitespace where it was |
| Text.Strip | bot.py:126 | `strip()` result is no longer than the input, starts and ends with a non-space, and is empty exactly when the input is all whitespace |
| Text.StripIsSlice | bot.py:126 | `strip()` keeps one contiguous slice of the input, and everything it cuts away on either side is whitespace |
| Text.StripIdempotent | bot.py:126 | stripping an already stripped text changes nothing |
| Text.Contains | bot.py:138 | `w in s` holds exactly when `w` occurs in `s` at some index |
| Text.ContainsIgnoresStrip | bot.py:126-138 | a non-empty word without whitespace occurs in `strip(s)` exactly when it occurs in `s` |
| Completion.FirstSuccess | bot.py:92-104 | the first-success search: any answer is the stripped text of some model in the roster whose request succeeded |
| Completion.AttemptCount | bot.py:92-108 | the number of requests the search issues is at most the roster's length and at least one when the roster is non-empty |
| Completion.AiReply | bot.py:89-110 | with AI disabled the answer is None whatever the provider does; any answer needs AI enabled and a successful model |
| Completion.Asked | bot.py:89-108 | the models asked are a prefix of the roster; none when AI is disabled; otherwise the first model is always asked |
| Completion.GetAi | bot.py:87-110 | the answer is None, with no model asked, when AI is disabled; otherwise it is the stripped text of the first model to succeed; the models asked are a prefix of the roster, up to and including the first success |
| Completion.NoneIffAllFail | bot.py:92-110 | the search answers None exactly when every model fails, and then it has asked every model |
| Completion.FirstSuccessIsFirstOk | bot.py:92-104 | if model k is the first to succeed, the answer is its stripped text and exactly k+1 requests were issued |
| Completion.ReplyComesFromLastAsked | bot.py:92-108 | any answer comes from the last model asked, and every model asked before it failed |
| Completion.FirstSuccessAppend | bot.py:92-104 | models after the first success are never consulted: extending the roster changes the answer only when all earlier models fail |
| Completion.ReplyIsStripped | bot.py:104 | an answer never starts or ends with whitespace, though it may be empty |
| Session.Normalize | bot.py:126 | the normalized text is no longer than the content, has no ASCII capital, and neither starts nor ends with whitespace |
| Session.Prompt | bot.py:162 | the prompt is `User: `, then the raw content verbatim, then a newline and `Zezti:` |
| Session.Truthy | bot.py:166 | Python truthiness of `get_ai`'s answer: None and "" are falsy, and a truthy answer is a non-empty string |
| Session.Classify | bot.py:123-157 | the dispatch order: wake only for a user not in the map; sleep and continue only for a user in it; ignore-inactive only without the wake word; an awake human sleeps or continues by `reply_to_bot` alone |
| Session.React | bot.py:121-178 | the branch taken is the first match of the dispatch order; other users' entries are untouched; nothing is sent exactly on the two ignore branches, and then the map is unchanged; `get_ai` is called exactly on the continue branch |
| Session.BotMessageIgnored | bot.py:123-124 | a bot's message sends nothing, calls no model and leaves the map unchanged |
| Session.WakeIff | bot.py:126-142 | the wake branch fires exactly for a human not yet awake whose normalized text contains `zezti`; it sends the acknowledgement alone, and afterwards the user's entry is the id of that message while all other entries are as before |
| Session.SleepOnNonReply | bot.py:147-151 | an awake user's non-reply removes the entry, sends the sleep notice alone and does not call `get_ai` |
| Session.InactiveIgnored | bot.py:138-157 | an inactive user's message without the wake word sends nothing and leaves the map unchanged |
| Session.AwakeUserIgnoresWakeWord | bot.py:138-151 | an awake user never takes the wake branch: the message sleeps or continues by `reply_to_bot` alone |
| Session.ContinueReplies | bot.py:156-178 | an awake user's reply to the bot gets exactly one message: the AI reply verbatim when truthy, otherwise a line of `FALLBACK` (None and "" included); the user stays awake with the entry moved to the new message id |
| Session.WakeTestIgnoresStrip | bot.py:126-138 | the `strip()` before the wake test never matters, because the wake word has no whitespace; only lower-casing does |
| Session.OthersLeaveSessionAlone | bot.py:121-178 | over any run of messages from other users, a user's awake state and stored id stay as they were |
| Session.HelloWakeNiceScenario | bot.py:121-157 | "hello" from an inactive user is ignored; "yo zezti what's good" wakes them; a non-reply "nice" puts them back to sleep, restoring the map; no model is called |
| Session.Zezti.constructor | bot.py:37 | at startup nobody is awake |
| Session.Zezti.OnMessage | bot.py:121-178 | handling one message changes `active_chats` and sends exactly what `React` prescribes for the answer `get_ai` gives; the models asked are those `get_ai` asks on the continue branch, and none on any other branch |

## Left out

- The messaging transport is not modelled: `channel.send`, events, intents, `bot.run` and the resolution of `message.reference`. `reply_to_bot` is a boolean input, and the sent message's id is a parameter.
- A failing `channel.send` is not modelled; every send succeeds here. In the source, a send that raises on the sleep branch leaves the entry already deleted (bot.py:149-150). On the wake and continue branches it raises before the entry is written (bot.py:140-141, 168-169).
- A reference test that raises is not modelled. For a reply to a deleted message, `message.reference.resolved` is a deleted-message placeholder without `.author`, so bot.py:133 raises and the message is dropped. No value of `replyToBot` reproduces that.
- The provider HTTP call is not modelled, nor `temperature=0.8` (a float), `max_tokens` or `SYSTEM_PROMPT`. Each request is an abstract outcome. A malformed response, such as no choices or `None` content, raises in the source and is a `Failed` outcome here.
- The environment and credential loading at bot.py:11-24 are not modelled, including the startup exception for a missing `DISCORD_TOKEN`. `USE_AI` is a constructor argument.
- Logging with `print` (bot.py:20, 107, 117) and `on_ready` are not modelled.
- The `ping` command (bot.py:183-185) is not modelled as a command. `on_message` replaces the library's handler (bot.py:120-121) and never calls `bot.process_commands`, so `!ping` never runs. It reaches `on_message` as an ordinary message, and the model handles it that way.
- `random.choice` is not modelled. The drawn index is an input, so the model does not say the draw is uniform.
- Async interleaving is not modelled. Two messages from the same user handled at once can race on `active_chats`. The model handles one message at a time, as a whole.
- Text.Lower and Text.LowerChar: lower-case ASCII capitals only. Python's `str.lower()` covers all of Unicode, and there a non-ASCII capital can lower-case to text holding `zezti`: `İ` becomes `i` plus a combining dot. The model misses wake-ups through such characters.
