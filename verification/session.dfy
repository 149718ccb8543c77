/**
  The message handler `on_message` (bot.py:121-178): a per-user wake/sleep
  machine over the process-wide map `active_chats`, from a user id to the id
  of the bot's last message to that user. A user is awake exactly when the
  map has an entry for them.
 */
module Session {
  import opened Wrappers
  import opened Text
  import opened Completion

  type UserId = nat
  type MessageId = nat

  const WAKE_WORD: string := "zezti"
  const WAKE_ACK: string := "I'm awake. Don't waste it \U{1F60F}"
  const SLEEP_NOTICE: string := "Zezti offline \U{1F634} Ping me again."

  /** The canned lines sent when no model produces a usable reply. */
  const FALLBACK: seq<string> := [
    "Say that again slowly \U{1F60F}",
    "Bro what \U{1F480}",
    "Interesting\U{2026} go on \U{1F440}",
    "Lowkey facts.",
    "Try again, I blinked \U{1F62D}"
  ]

  /** The index `random.choice(FALLBACK)` draws. */
  type FallbackIndex = k: nat | k < |FALLBACK|

  /** An inbound message as the handler sees it. `replyToBot` is the value of
      the reference test at bot.py:130-134: the message answers a message
      whose resolved author is the bot itself. */
  datatype Inbound = Inbound(authorIsBot: bool, content: string, user: UserId, replyToBot: bool)

  /** `message.content.lower().strip()`. */
  function Normalize(content: string): (r: string)
    ensures |r| <= |content|
    ensures r == "" || (!IsSpace(r[0]) && !IsSpace(r[|r| - 1]))
    ensures forall k :: 0 <= k < |r| ==> !('A' <= r[k] <= 'Z')
  {
    var low := Lower(content);
    StripIsSlice(low);
    Strip(low)
  }

  /** The single user turn handed to `get_ai`; it quotes the raw content,
      not the normalized text. */
  function Prompt(content: string): (r: string)
    ensures |r| == |content| + 13
    ensures r[6..|r| - 7] == content
    ensures r[..6] == "User: " && r[|r| - 7..] == "\nZezti:"
  {
    "User: " + content + "\nZezti:"
  }

  /** Python truthiness of `get_ai`'s answer: neither None nor "". */
  predicate Truthy(reply: Option<string>)
    ensures reply == None ==> !Truthy(reply)
    ensures reply == Some("") ==> !Truthy(reply)
    ensures Truthy(reply) ==> reply.Some? && |reply.value| > 0
  {
    reply.Some? && reply.value != ""
  }

  /** The branch of the handler a message takes; the first that applies wins. */
  datatype Route = IgnoreBot | Wake | Sleep | IgnoreInactive | Continue

  function Classify(chats: map<UserId, MessageId>, m: Inbound): (r: Route)
    ensures r == Wake ==> m.user !in chats
    ensures r in {Sleep, Continue} ==> m.user in chats
    ensures r == IgnoreInactive ==> m.user !in chats && !Contains(Normalize(m.content), WAKE_WORD)
    ensures !m.authorIsBot && m.user in chats ==> r == if m.replyToBot then Continue else Sleep
  {
    if m.authorIsBot then IgnoreBot
    else if Contains(Normalize(m.content), WAKE_WORD) && m.user !in chats then Wake
    else if m.user in chats && !m.replyToBot then Sleep
    else if m.user !in chats then IgnoreInactive
    else Continue
  }

  /** What handling one message does: the branch taken, the one message sent
      (if any), the prompt passed to `get_ai` (None when it is not called),
      and the map afterwards. */
  datatype Reaction = Reaction(route: Route, sent: Option<string>, prompt: Option<string>,
                               chats: map<UserId, MessageId>)

  /** The effect of one inbound message `m` on `chats`. `ai` is what `get_ai`
      answers for this message's prompt, `pick` the fallback line drawn, and
      `sentId` the id the platform gives the message the bot sends. */
  function React(chats: map<UserId, MessageId>, m: Inbound, ai: Option<string>,
                 pick: FallbackIndex, sentId: MessageId): (r: Reaction)
    ensures r.route == Classify(chats, m)
    ensures forall u :: u != m.user ==> (u in r.chats <==> u in chats)
    ensures forall u :: u != m.user && u in chats ==> r.chats[u] == chats[u]
    ensures r.sent == None <==> r.route in {IgnoreBot, IgnoreInactive}
    ensures r.sent == None ==> r.chats == chats
    ensures r.prompt.Some? <==> r.route == Continue
  {
    match Classify(chats, m)
    case IgnoreBot => Reaction(IgnoreBot, None, None, chats)
    case Wake => Reaction(Wake, Some(WAKE_ACK), None, chats[m.user := sentId])
    case Sleep => Reaction(Sleep, Some(SLEEP_NOTICE), None, chats - {m.user})
    case IgnoreInactive => Reaction(IgnoreInactive, None, None, chats)
    case Continue =>
      var text := if Truthy(ai) then ai.value else FALLBACK[pick];
      Reaction(Continue, Some(text), Some(Prompt(m.content)), chats[m.user := sentId])
  }

  /** The outcome of `React` on each branch of the dispatch, given the
      conditions the handler tests in order. */
  lemma ReactOnRoute(chats: map<UserId, MessageId>, m: Inbound, ai: Option<string>,
                     pick: FallbackIndex, sentId: MessageId)
    ensures var r := React(chats, m, ai, pick, sentId);
      var wake := Contains(Normalize(m.content), WAKE_WORD);
      && (m.authorIsBot ==> r == Reaction(IgnoreBot, None, None, chats))
      && (!m.authorIsBot && wake && m.user !in chats ==>
            r == Reaction(Wake, Some(WAKE_ACK), None, chats[m.user := sentId]))
      && (!m.authorIsBot && m.user in chats && !m.replyToBot ==>
            r == Reaction(Sleep, Some(SLEEP_NOTICE), None, chats - {m.user}))
      && (!m.authorIsBot && !wake && m.user !in chats ==> r == Reaction(IgnoreInactive, None, None, chats))
      && (!m.authorIsBot && m.user in chats && m.replyToBot ==>
            r == Reaction(Continue, Some(if Truthy(ai) then ai.value else FALLBACK[pick]),
                          Some(Prompt(m.content)), chats[m.user := sentId]))
  {
  }

  /** A message from a bot is dropped: nothing sent, `get_ai` not called,
      the map unchanged. */
  lemma BotMessageIgnored(chats: map<UserId, MessageId>, m: Inbound, ai: Option<string>,
                          pick: FallbackIndex, sentId: MessageId)
    requires m.authorIsBot
    ensures var r := React(chats, m, ai, pick, sentId);
      r.sent == None && r.prompt == None && r.chats == chats
  {
  }

  /** The wake branch fires exactly for a human, not yet awake, whose
      normalized message contains the wake word; it sends the acknowledgement
      alone and records its id for that user. */
  lemma WakeIff(chats: map<UserId, MessageId>, m: Inbound, ai: Option<string>,
                pick: FallbackIndex, sentId: MessageId)
    ensures var r := React(chats, m, ai, pick, sentId);
      r.route == Wake <==> (!m.authorIsBot && Contains(Normalize(m.content), WAKE_WORD) && m.user !in chats)
    ensures var r := React(chats, m, ai, pick, sentId);
      r.route == Wake ==>
        r.sent == Some(WAKE_ACK) && r.prompt == None
        && m.user in r.chats && r.chats[m.user] == sentId && r.chats - {m.user} == chats
  {
    if Classify(chats, m) == Wake {
      var r := React(chats, m, ai, pick, sentId);
      assert r == Reaction(Wake, Some(WAKE_ACK), None, chats[m.user := sentId]);
      AddThenRemove(chats, m.user, sentId);
    }
  }

  /** Adding an entry for a user without one and then removing it gives
      back the map. */
  lemma AddThenRemove(chats: map<UserId, MessageId>, u: UserId, id: MessageId)
    requires u !in chats
    ensures chats[u := id] - {u} == chats
  {
    assert (chats[u := id] - {u}).Keys == chats.Keys;
  }

  /** An awake user whose message is not a reply to the bot is put to sleep:
      the entry goes, the sleep notice alone is sent, `get_ai` is not called. */
  lemma SleepOnNonReply(chats: map<UserId, MessageId>, m: Inbound, ai: Option<string>,
                        pick: FallbackIndex, sentId: MessageId)
    requires !m.authorIsBot && m.user in chats && !m.replyToBot
    ensures var r := React(chats, m, ai, pick, sentId);
      r.route == Sleep && r.sent == Some(SLEEP_NOTICE) && r.prompt == None
      && r.chats == chats - {m.user}
  {
  }

  /** An inactive user who does not say the wake word is ignored. */
  lemma InactiveIgnored(chats: map<UserId, MessageId>, m: Inbound, ai: Option<string>,
                        pick: FallbackIndex, sentId: MessageId)
    requires m.user !in chats && !Contains(Normalize(m.content), WAKE_WORD)
    ensures var r := React(chats, m, ai, pick, sentId);
      r.sent == None && r.prompt == None && r.chats == chats
  {
  }

  /** The wake branch never fires for an awake user: the wake word makes no
      difference, the message sleeps or continues by `replyToBot` alone. */
  lemma AwakeUserIgnoresWakeWord(chats: map<UserId, MessageId>, m: Inbound, ai: Option<string>,
                                 pick: FallbackIndex, sentId: MessageId)
    requires !m.authorIsBot && m.user in chats
    ensures React(chats, m, ai, pick, sentId).route == if m.replyToBot then Continue else Sleep
  {
  }

  /** An awake user replying to the bot gets exactly one message: the AI
      reply verbatim when it is truthy, otherwise a fallback line; the user
      stays awake with the pointer moved to the new message. */
  lemma ContinueReplies(chats: map<UserId, MessageId>, m: Inbound, ai: Option<string>,
                        pick: FallbackIndex, sentId: MessageId)
    requires !m.authorIsBot && m.user in chats && m.replyToBot
    ensures var r := React(chats, m, ai, pick, sentId);
      && r.route == Continue && r.sent.Some?
      && r.prompt == Some(Prompt(m.content))
      && m.user in r.chats && r.chats[m.user] == sentId
      && r.chats.Keys == chats.Keys
      && (Truthy(ai) ==> r.sent == ai)
      && (!Truthy(ai) ==> r.sent.value in FALLBACK)
  {
  }

  /** The wake word contains no whitespace, so the `strip()` in the
      normalization never decides whether a message wakes the bot: only
      lower-casing does. */
  lemma WakeTestIgnoresStrip(content: string)
    ensures Contains(Normalize(content), WAKE_WORD) <==> Contains(Lower(content), WAKE_WORD)
  {
    ContainsIgnoresStrip(Lower(content), WAKE_WORD);
  }

  /** One handled message of a run, with the environment's answers for it. */
  datatype Event = Event(m: Inbound, ai: Option<string>, pick: FallbackIndex, sentId: MessageId)

  /** The map after handling `events` in order, starting from `chats`. */
  function Replay(chats: map<UserId, MessageId>, events: seq<Event>): map<UserId, MessageId>
    decreases |events|
  {
    if events == [] then chats
    else
      var e := events[0];
      Replay(React(chats, e.m, e.ai, e.pick, e.sentId).chats, events[1..])
  }

  /** Messages from other users never touch a user's session: whether `u` is
      awake, and the pointer kept for `u`, survive any run of them. */
  lemma {:induction false} OthersLeaveSessionAlone(chats: map<UserId, MessageId>, events: seq<Event>, u: UserId)
    requires forall k :: 0 <= k < |events| ==> events[k].m.user != u
    ensures var after := Replay(chats, events);
      (u in after <==> u in chats) && (u in chats ==> after[u] == chats[u])
    decreases |events|
  {
    if events != [] {
      var e := events[0];
      var next := React(chats, e.m, e.ai, e.pick, e.sentId).chats;
      assert e.m.user != u;
      forall k | 0 <= k < |events| - 1 ensures events[1..][k].m.user != u {
        assert events[1..][k] == events[k + 1];
      }
      OthersLeaveSessionAlone(next, events[1..], u);
    }
  }

  /** A scenario: an inactive user says "hello" (ignored), then
      "yo zezti what's good" (the bot wakes), then "nice" without replying
      (the bot sleeps again); `get_ai` is never called. */
  lemma {:induction false} HelloWakeNiceScenario(chats: map<UserId, MessageId>, u: UserId,
                                                 ai: Option<string>, pick: FallbackIndex, id1: MessageId, id2: MessageId, id3: MessageId)
    requires u !in chats
    ensures var r1 := React(chats, Inbound(false, "hello", u, false), ai, pick, id1);
      var r2 := React(r1.chats, Inbound(false, "yo zezti what's good", u, false), ai, pick, id2);
      var r3 := React(r2.chats, Inbound(false, "nice", u, false), ai, pick, id3);
      && r1.sent == None && r1.chats == chats
      && r2.sent == Some(WAKE_ACK) && r2.chats == chats[u := id2]
      && r3.sent == Some(SLEEP_NOTICE) && r3.chats == chats
      && r1.prompt == None && r2.prompt == None && r3.prompt == None
  {
    var m1 := Inbound(false, "hello", u, false);
    var m2 := Inbound(false, "yo zezti what's good", u, false);
    var m3 := Inbound(false, "nice", u, false);
    HelloHasNoWakeWord();
    ReactOnRoute(chats, m1, ai, pick, id1);
    YoZeztiHasWakeWord();
    ReactOnRoute(chats, m2, ai, pick, id2);
    ReactOnRoute(chats[u := id2], m3, ai, pick, id3);
    AddThenRemove(chats, u, id2);
  }

  /** "hello" does not wake the bot. */
  lemma HelloHasNoWakeWord()
    ensures !Contains(Normalize("hello"), WAKE_WORD)
  {
    NormalizeKeepsPlainText("hello");
    assert "hello"[..5] != WAKE_WORD;
    assert "hello"[1..] == "ello";
  }

  /** "yo zezti what's good" does. */
  lemma YoZeztiHasWakeWord()
    ensures Contains(Normalize("yo zezti what's good"), WAKE_WORD)
  {
    var wake := "yo zezti what's good";
    NormalizeKeepsPlainText(wake);
    assert wake[3..8] == ['z', 'e', 'z', 't', 'i'] == WAKE_WORD;
    assert OccursAt(wake, WAKE_WORD, 3);
  }

  /** Text without capitals and without whitespace at either end is its own
      normalization. */
  lemma NormalizeKeepsPlainText(s: string)
    requires forall k :: 0 <= k < |s| ==> !('A' <= s[k] <= 'Z')
    requires s != "" && !IsSpace(s[0]) && !IsSpace(s[|s| - 1])
    ensures Normalize(s) == s
  {
    assert Lower(s) == s;
    assert LeadingSpaces(s) == 0;
    assert TrailingSpaces(s) == 0;
  }

  /** The bot's process-wide state: whether AI is enabled (fixed at startup)
      and the map `active_chats`. */
  class Zezti {
    const useAi: bool
    var activeChats: map<UserId, MessageId>

    /** The bot at startup: nobody is awake. */
    constructor (useAi: bool)
      ensures this.useAi == useAi && activeChats == map[]
    {
      this.useAi := useAi;
      activeChats := map[];
    }

    /** `on_message`: handles one inbound message. `call` is how the
        provider answers each request, `pick` the fallback line drawn, and
        `sentId` the id the platform gives the message sent. Returns the
        message sent (if any) and the models `get_ai` asked. */
    method OnMessage(m: Inbound, call: Provider, pick: FallbackIndex, sentId: MessageId)
      returns (sent: Option<string>, tried: seq<string>)
      modifies this
      ensures var r := React(old(activeChats), m, AiReply(useAi, MODELS, Prompt(m.content), call),
                             pick, sentId);
        && activeChats == r.chats
        && sent == r.sent
        && tried == (if r.prompt.Some? then Asked(useAi, MODELS, r.prompt.value, call) else [])
    {
      ghost var chats := activeChats;
      ghost var ai := AiReply(useAi, MODELS, Prompt(m.content), call);
      if m.authorIsBot {
        ReactOnRoute(chats, m, ai, pick, sentId);
        return None, [];
      }
      var text := Strip(Lower(m.content));
      var user := m.user;
      assert text == Normalize(m.content);

      if Contains(text, WAKE_WORD) && user !in activeChats {
        activeChats := activeChats[user := sentId];
        ReactOnRoute(chats, m, ai, pick, sentId);
        return Some(WAKE_ACK), [];
      }

      if user in activeChats && !m.replyToBot {
        activeChats := activeChats - {user};
        ReactOnRoute(chats, m, ai, pick, sentId);
        return Some(SLEEP_NOTICE), [];
      }

      if user !in activeChats {
        ReactOnRoute(chats, m, ai, pick, sentId);
        return None, [];
      }

      ReactOnRoute(chats, m, ai, pick, sentId);
      var prompt := "User: " + m.content + "\nZezti:";
      assert prompt == Prompt(m.content);
      var aiReply;
      aiReply, tried := GetAi(useAi, MODELS, prompt, call);
      if aiReply.Some? && aiReply.value != "" {
        activeChats := activeChats[user := sentId];
        return aiReply, tried;
      }

      var reply := FALLBACK[pick];
      activeChats := activeChats[user := sentId];
      sent := Some(reply);
    }
  }
}
