/** The message lists of the three chat front ends: the React chat widget,
    the simplified React chatbot and the static page's chat box. Message ids
    (clock readings) and reply delays are not modelled; a delayed reply is a
    separate `TimerFires` event. */
module ChatLog {
  import opened Wrappers
  import opened Seqs
  import opened Text
  import opened Replies

  datatype Sender = User | Bot

  datatype Message = Message(text: string, sender: Sender)

  /** The texts sent by `s`, in order. */
  function TextsBy(ms: seq<Message>, s: Sender): (r: seq<string>)
    ensures |r| <= |ms|
  {
    if |ms| == 0 then []
    else TextsBy(ms[..|ms| - 1], s) + (if ms[|ms| - 1].sender == s then [ms[|ms| - 1].text] else [])
  }

  // ---- The chat widget ----

  const WidgetGreeting := "Hello! I'm your MediCode Bridge assistant. I can help you with questions about NAMASTE-ICD11 mappings, API usage, and traditional medicine coding. How can I assist you today?"

  const PredefinedQuestions: seq<string> := [
    "What is ICD-11 code for Vata Vyadhi?",
    "How do I map NAMASTE codes to ICD-11?",
    "What is the difference between AYUSH and traditional medicine coding?",
    "How accurate are the code mappings?"
  ]

  /** Only the first two predefined questions are offered. */
  const QuickQuestionsOffered: nat := 2

  /** The widget's state; `pending` is the text whose delayed reply has not arrived yet. */
  datatype Widget = Widget(messages: seq<Message>, input: string, isTyping: bool, pending: Option<string>)

  const WidgetInitial := Widget([Message(WidgetGreeting, Bot)], "", false, None)

  /** The quick questions are shown only while the list holds at most the greeting. */
  predicate QuickQuestionsVisible(st: Widget) { |st.messages| <= 1 }

  /** Sending `text`, up to the point where the reply is scheduled. */
  function WidgetSend(st: Widget, text: string): (r: Widget)
    ensures IsBlank(text) ==> r == st
    ensures !IsBlank(text) ==> r.messages == st.messages + [Message(text, User)]
    ensures !IsBlank(text) ==> r.input == "" && r.isTyping && r.pending == Some(text)
  {
    if Trim(text) == "" then st
    else Widget(st.messages + [Message(text, User)], "", true, Some(text))
  }

  /** The delayed callback: the reply `respond` gives to the pending text is appended and typing stops. */
  function WidgetReplyArrives(st: Widget, respond: string -> string): (r: Widget)
    ensures st.pending.None? ==> r == st
    ensures st.pending.Some? ==> r.messages == st.messages + [Message(respond(st.pending.value), Bot)]
    ensures st.pending.Some? ==> !r.isTyping && r.pending.None? && r.input == st.input
  {
    match st.pending
    case None => st
    case Some(t) => Widget(st.messages + [Message(respond(t), Bot)], st.input, false, None)
  }

  datatype WidgetEvent = TypeText(value: string) | PressEnter | ClickSend | ClickQuestion(index: nat) | TimerFires

  /** One user or timer event, for a widget answering with `respond`. The input and the send button
      are disabled while typing, the button also while the input is blank, and quick questions exist
      only while visible. */
  function WidgetStepWith(st: Widget, ev: WidgetEvent, respond: string -> string): Widget
  {
    match ev
    case TypeText(v) => if st.isTyping then st else st.(input := v)
    case PressEnter => if st.isTyping then st else WidgetSend(st, st.input)
    case ClickSend => if Trim(st.input) == "" || st.isTyping then st else WidgetSend(st, st.input)
    case ClickQuestion(i) =>
      if QuickQuestionsVisible(st) && i < QuickQuestionsOffered then WidgetSend(st, PredefinedQuestions[i]) else st
    case TimerFires => WidgetReplyArrives(st, respond)
  }

  /** The widget as shipped, answering with the keyword responder. */
  function WidgetStep(st: Widget, ev: WidgetEvent): Widget
  {
    WidgetStepWith(st, ev, WidgetReply)
  }

  /** What every reachable widget state satisfies: the greeting first, then user and bot messages
      alternating, no blank user message, every later bot message answering the user message just
      before it, and a pending reply exactly while typing, for the last message when it is the user's. */
  ghost predicate WidgetInvWith(st: Widget, respond: string -> string)
  {
    var ms := st.messages;
    && |ms| >= 1
    && ms[0] == Message(WidgetGreeting, Bot)
    && (forall i :: 1 <= i < |ms| ==> ms[i].sender != ms[i - 1].sender)
    && (forall i :: 0 <= i < |ms| && ms[i].sender == User ==> !IsBlank(ms[i].text))
    && (forall i :: 1 <= i < |ms| && ms[i].sender == Bot ==> ms[i].text == respond(ms[i - 1].text))
    && (st.isTyping <==> st.pending.Some?)
    && (st.pending.Some? <==> ms[|ms| - 1].sender == User)
    && (st.pending.Some? ==> ms[|ms| - 1].text == st.pending.value)
  }

  /** The invariant of the widget as shipped. */
  ghost predicate WidgetInv(st: Widget)
  {
    WidgetInvWith(st, WidgetReply)
  }

  lemma WidgetInitialInv(respond: string -> string)
    ensures WidgetInvWith(WidgetInitial, respond)
  {
  }

  /** A send while no reply is pending keeps the invariant. */
  lemma WidgetSendInv(st: Widget, text: string, respond: string -> string)
    requires WidgetInvWith(st, respond) && st.pending.None?
    ensures WidgetInvWith(WidgetSend(st, text), respond)
  {
    if !IsBlank(text) {
      var r := WidgetSend(st, text);
      var n := |st.messages|;
      assert forall i :: 0 <= i < n ==> r.messages[i] == st.messages[i];
      assert r.messages[n] == Message(text, User);
    }
  }

  /** The arrival of a pending reply keeps the invariant. */
  lemma WidgetReplyArrivesInv(st: Widget, respond: string -> string)
    requires WidgetInvWith(st, respond)
    ensures WidgetInvWith(WidgetReplyArrives(st, respond), respond)
  {
    if st.pending.Some? {
      var r := WidgetReplyArrives(st, respond);
      var n := |st.messages|;
      assert forall i :: 0 <= i < n ==> r.messages[i] == st.messages[i];
      assert r.messages[n] == Message(respond(st.messages[n - 1].text), Bot);
    }
  }

  lemma WidgetStepWithInv(st: Widget, ev: WidgetEvent, respond: string -> string)
    requires WidgetInvWith(st, respond)
    ensures WidgetInvWith(WidgetStepWith(st, ev, respond), respond)
  {
    match ev
    case TypeText(v) =>
    case PressEnter =>
      if !st.isTyping { WidgetSendInv(st, st.input, respond); }
    case ClickSend =>
      if !st.isTyping { WidgetSendInv(st, st.input, respond); }
    case ClickQuestion(i) =>
      if QuickQuestionsVisible(st) && i < QuickQuestionsOffered { WidgetSendInv(st, PredefinedQuestions[i], respond); }
    case TimerFires =>
      WidgetReplyArrivesInv(st, respond);
  }

  /** Every event keeps the shipped widget's invariant. */
  lemma WidgetStepInv(st: Widget, ev: WidgetEvent)
    requires WidgetInv(st)
    ensures WidgetInv(WidgetStep(st, ev))
  {
    WidgetStepWithInv(st, ev, WidgetReply);
  }

  /** The quick questions are visible exactly until the first message is sent. */
  lemma QuickQuestionsUntilFirstSend(st: Widget, respond: string -> string)
    requires WidgetInvWith(st, respond)
    ensures QuickQuestionsVisible(st) <==> TextsBy(st.messages, User) == []
  {
    if |st.messages| > 1 {
      assert st.messages[1].sender == User;
      UserTextPresent(st.messages, 1);
    } else {
      assert st.messages == [Message(WidgetGreeting, Bot)];
      assert TextsBy(st.messages, User) == TextsBy([], User);
    }
  }

  /** A message sent by `User` at index `i` shows up among the user texts. */
  lemma {:induction false} UserTextPresent(ms: seq<Message>, i: nat)
    requires i < |ms| && ms[i].sender == User
    ensures TextsBy(ms, User) != []
  {
    if i < |ms| - 1 {
      UserTextPresent(ms[..|ms| - 1], i);
    }
  }

  // ---- The simplified chatbot ----

  const SimpleGreeting := "Hello! I'm your MediCode Bridge assistant. How can I help you today?"

  /** The simplified chatbot's state; every reply comes after the same fixed delay, so
      the texts awaiting a reply form a first-in first-out queue. */
  datatype Simple = Simple(messages: seq<Message>, input: string, pending: seq<string>)

  const SimpleInitial := Simple([Message(SimpleGreeting, Bot)], "", [])

  /** Sending the input: blank input is a no-op; otherwise the raw input becomes one user message and the input clears. */
  function SimpleSend(st: Simple): (r: Simple)
    ensures IsBlank(st.input) ==> r == st
    ensures !IsBlank(st.input) ==> r.messages == st.messages + [Message(st.input, User)]
    ensures !IsBlank(st.input) ==> r.input == "" && r.pending == st.pending + [st.input]
  {
    if Trim(st.input) == "" then st
    else Simple(st.messages + [Message(st.input, User)], "", st.pending + [st.input])
  }

  /** The oldest scheduled reply arrives: the answer `respond` gives to the oldest pending text. */
  function SimpleReplyArrives(st: Simple, respond: string -> string): (r: Simple)
    ensures st.pending == [] ==> r == st
    ensures st.pending != [] ==> r.messages == st.messages + [Message(respond(st.pending[0]), Bot)]
    ensures st.pending != [] ==> r.pending == st.pending[1..] && r.input == st.input
  {
    if st.pending == [] then st
    else Simple(st.messages + [Message(respond(st.pending[0]), Bot)], st.input, st.pending[1..])
  }

  datatype SimpleEvent = SimpleType(value: string) | SimpleSubmit | SimpleTimerFires

  /** Enter and the send button both run the send handler (the button is merely disabled when it would be a no-op). */
  function SimpleStepWith(st: Simple, ev: SimpleEvent, respond: string -> string): Simple
  {
    match ev
    case SimpleType(v) => st.(input := v)
    case SimpleSubmit => SimpleSend(st)
    case SimpleTimerFires => SimpleReplyArrives(st, respond)
  }

  /** The simplified chatbot as shipped, answering with its keyword responder. */
  function SimpleStep(st: Simple, ev: SimpleEvent): Simple
  {
    SimpleStepWith(st, ev, SimpleReply)
  }

  /** Reachable states: after the greeting, the bot texts are the replies to the user texts in
      sending order, for all user texts except the still-pending tail. */
  ghost predicate SimpleInvWith(st: Simple, respond: string -> string)
  {
    var users := TextsBy(st.messages, User);
    var bots := TextsBy(st.messages, Bot);
    && |st.pending| <= |users|
    && st.pending == users[|users| - |st.pending|..]
    && bots == [SimpleGreeting] + Map(users[..|users| - |st.pending|], respond)
  }

  /** The invariant of the simplified chatbot as shipped. */
  ghost predicate SimpleInv(st: Simple)
  {
    SimpleInvWith(st, SimpleReply)
  }

  lemma SimpleInitialInv(respond: string -> string)
    ensures SimpleInvWith(SimpleInitial, respond)
  {
    assert TextsBy(SimpleInitial.messages, Bot) == TextsBy([], Bot) + [SimpleGreeting];
    assert TextsBy(SimpleInitial.messages, User) == TextsBy([], User);
  }

  lemma SimpleStepWithInv(st: Simple, ev: SimpleEvent, respond: string -> string)
    requires SimpleInvWith(st, respond)
    ensures SimpleInvWith(SimpleStepWith(st, ev, respond), respond)
  {
    match ev
    case SimpleType(v) =>
    case SimpleSubmit => SimpleSendInv(st, respond);
    case SimpleTimerFires => SimpleReplyArrivesInv(st, respond);
  }

  /** Every event keeps the shipped simplified chatbot's invariant. */
  lemma SimpleStepInv(st: Simple, ev: SimpleEvent)
    requires SimpleInv(st)
    ensures SimpleInv(SimpleStep(st, ev))
  {
    SimpleStepWithInv(st, ev, SimpleReply);
  }

  lemma SimpleSendInv(st: Simple, respond: string -> string)
    requires SimpleInvWith(st, respond)
    ensures SimpleInvWith(SimpleSend(st), respond)
  {
      if !IsBlank(st.input) {
        var r := SimpleSend(st);
        assert r.messages[..|r.messages| - 1] == st.messages;
        var users := TextsBy(st.messages, User);
        var k := |users| - |st.pending|;
        assert TextsBy(r.messages, User) == users + [st.input];
        assert TextsBy(r.messages, Bot) == TextsBy(st.messages, Bot);
        assert (users + [st.input])[..k] == users[..k];
      }
  }

  lemma SimpleReplyArrivesInv(st: Simple, respond: string -> string)
    requires SimpleInvWith(st, respond)
    ensures SimpleInvWith(SimpleReplyArrives(st, respond), respond)
  {
      if st.pending != [] {
        var r := SimpleReplyArrives(st, respond);
        assert r.messages[..|r.messages| - 1] == st.messages;
        var users := TextsBy(st.messages, User);
        var k := |users| - |st.pending|;
        assert users[k] == st.pending[0];
        assert users[..k + 1] == users[..k] + [users[k]];
        assert Map(users[..k + 1], respond) == Map(users[..k], respond) + [respond(users[k])];
        assert TextsBy(r.messages, User) == users;
        assert TextsBy(r.messages, Bot) == TextsBy(st.messages, Bot) + [respond(st.pending[0])];
      }
  }

  /** Once every scheduled reply has arrived, the n-th bot reply after the greeting answers the n-th user message. */
  lemma SimpleRepliesInOrder(st: Simple, n: nat, respond: string -> string)
    requires SimpleInvWith(st, respond) && st.pending == []
    requires n < |TextsBy(st.messages, User)|
    ensures TextsBy(st.messages, Bot)[n + 1] == respond(TextsBy(st.messages, User)[n])
  {
    var users := TextsBy(st.messages, User);
    var replies := Map(users[..|users|], respond);
    assert users[..|users|] == users;
    assert TextsBy(st.messages, Bot) == [SimpleGreeting] + replies;
    assert ([SimpleGreeting] + replies)[n + 1] == replies[n];
  }

  // ---- The static page's chat box ----

  /** The reply shown when the chatbot request fails. */
  const ChatErrorText := "Sorry, I encountered an error. Please try again."

  /** The bot line for a request: the endpoint's `response`, or the error text when the request fails. */
  function JsAnswer(server: string -> Option<string>, message: string): string
  {
    match server(message)
    case Some(a) => a
    case None => ChatErrorText
  }

  /** The static page's chat box. Its initial messages come from the page markup; `pending` holds
      the texts whose request is still in flight, in the order they were sent. The input is never
      disabled, so several requests can be in flight at once. */
  datatype JsChat = JsChat(messages: seq<Message>, input: string, pending: seq<string>)

  /** Text with no white space at either end and at least one character. */
  predicate Trimmed(t: string)
  {
    |t| > 0 && !IsSpace(t[0]) && !IsSpace(t[|t| - 1])
  }

  /** `sendChatMessage` up to its `await`: a blank input is a no-op; otherwise the trimmed text is
      shown as the user line, the input is cleared and the request for that text is in flight. */
  function JsSend(st: JsChat): (r: JsChat)
    ensures IsBlank(st.input) ==> r == st
    ensures !IsBlank(st.input) ==> |r.messages| == |st.messages| + 1 && r.messages[..|st.messages|] == st.messages
    ensures !IsBlank(st.input) ==> r.messages[|st.messages|] == Message(Trim(st.input), User) && Trimmed(Trim(st.input))
    ensures !IsBlank(st.input) ==> r.input == "" && r.pending == st.pending + [Trim(st.input)]
  {
    var message := Trim(st.input);
    if message == "" then st
    else JsChat(st.messages + [Message(message, User)], "", st.pending + [message])
  }

  /** The request for the `k`-th text in flight completes: after the 500 ms timer (or at once on a
      failure) its bot line is appended. Requests may complete in any order. */
  function JsReplyArrives(st: JsChat, k: nat, server: string -> Option<string>): (r: JsChat)
    ensures k >= |st.pending| ==> r == st
    ensures k < |st.pending| ==> r.messages == st.messages + [Message(JsAnswer(server, st.pending[k]), Bot)]
    ensures k < |st.pending| ==> r.input == st.input && |r.pending| == |st.pending| - 1
    ensures k < |st.pending| ==> multiset(r.pending) + multiset{st.pending[k]} == multiset(st.pending)
  {
    if k < |st.pending| then
      assert st.pending == st.pending[..k] + [st.pending[k]] + st.pending[k + 1..];
      JsChat(st.messages + [Message(JsAnswer(server, st.pending[k]), Bot)], st.input, st.pending[..k] + st.pending[k + 1..])
    else st
  }

  /** Typing, the send button, a key press in the input (Enter sends), and the completion of a request. */
  datatype JsEvent = JsType(text: string) | JsSendClick | JsKeyPress(key: string) | JsRequestDone(index: nat)

  function JsStep(st: JsChat, ev: JsEvent, server: string -> Option<string>): JsChat
  {
    match ev
    case JsType(text) => st.(input := text)
    case JsSendClick => JsSend(st)
    case JsKeyPress(key) => if key == "Enter" then JsSend(st) else st
    case JsRequestDone(k) => JsReplyArrives(st, k, server)
  }

  /** `ms[j]` is a user line after the markup's `n0` messages, and the bot line `text` answers it. */
  ghost predicate AnswersSome(ms: seq<Message>, n0: nat, i: nat, text: string, server: string -> Option<string>)
  {
    exists j :: n0 <= j < i && j < |ms| && ms[j].sender == User && text == JsAnswer(server, ms[j].text)
  }

  ghost predicate UserLinesTrimmed(ms: seq<Message>, n0: nat)
  {
    forall i :: n0 <= i < |ms| && ms[i].sender == User ==> Trimmed(ms[i].text)
  }

  ghost predicate PendingSent(ms: seq<Message>, n0: nat, pending: seq<string>)
  {
    n0 <= |ms| && forall k :: 0 <= k < |pending| ==> Message(pending[k], User) in ms[n0..]
  }

  ghost predicate BotLinesAnswer(ms: seq<Message>, n0: nat, server: string -> Option<string>)
  {
    forall i :: n0 <= i < |ms| && ms[i].sender == Bot ==> AnswersSome(ms, n0, i, ms[i].text, server)
  }

  /** What every reachable chat box satisfies after the `n0` messages of the markup: user lines are
      trimmed and non-empty, every text in flight was sent as a user line, every bot line answers an
      earlier user line, and each user line has either its bot line or its request in flight. */
  ghost predicate JsInv(st: JsChat, n0: nat, server: string -> Option<string>)
  {
    && n0 <= |st.messages|
    && UserLinesTrimmed(st.messages, n0)
    && PendingSent(st.messages, n0, st.pending)
    && BotLinesAnswer(st.messages, n0, server)
    && |TextsBy(st.messages[n0..], User)| == |TextsBy(st.messages[n0..], Bot)| + |st.pending|
  }

  /** Appending one message extends the texts of its sender only. */
  lemma TextsByAppend(ms: seq<Message>, m: Message, s: Sender)
    ensures TextsBy(ms + [m], s) == TextsBy(ms, s) + (if m.sender == s then [m.text] else [])
  {
    assert (ms + [m])[..|ms|] == ms;
  }

  /** After appending `m`, each sender's count after the markup grows by one exactly when `m` is theirs. */
  lemma CountsAppend(ms: seq<Message>, n0: nat, m: Message)
    requires n0 <= |ms|
    ensures |TextsBy((ms + [m])[n0..], User)| == |TextsBy(ms[n0..], User)| + (if m.sender == User then 1 else 0)
    ensures |TextsBy((ms + [m])[n0..], Bot)| == |TextsBy(ms[n0..], Bot)| + (if m.sender == Bot then 1 else 0)
  {
    assert (ms + [m])[n0..] == ms[n0..] + [m];
    TextsByAppend(ms[n0..], m, User);
    TextsByAppend(ms[n0..], m, Bot);
  }

  /** Bot lines keep their answers when a message is appended after them. */
  lemma BotLinesAppend(ms: seq<Message>, n0: nat, m: Message, server: string -> Option<string>)
    requires BotLinesAnswer(ms, n0, server)
    requires m.sender == Bot ==> AnswersSome(ms, n0, |ms|, m.text, server)
    ensures BotLinesAnswer(ms + [m], n0, server)
  {
    var ms' := ms + [m];
    forall i | n0 <= i < |ms'| && ms'[i].sender == Bot
      ensures AnswersSome(ms', n0, i, ms'[i].text, server)
    {
      var t := if i < |ms| then ms[i].text else m.text;
      assert ms'[i].text == t;
      var j :| n0 <= j < i && j < |ms| && ms[j].sender == User && t == JsAnswer(server, ms[j].text);
      assert ms'[j] == ms[j];
    }
  }

  /** A text in flight was sent as a user line, so its answer answers that line. */
  lemma PendingAnswered(ms: seq<Message>, n0: nat, pending: seq<string>, k: nat, server: string -> Option<string>)
    requires PendingSent(ms, n0, pending) && k < |pending|
    ensures AnswersSome(ms, n0, |ms|, JsAnswer(server, pending[k]), server)
  {
    var tail := ms[n0..];
    assert Message(pending[k], User) in tail;
    var j0 :| 0 <= j0 < |tail| && tail[j0] == Message(pending[k], User);
    assert ms[n0 + j0] == Message(pending[k], User);
  }

  /** Texts still in flight after one completes were all in flight before. */
  lemma PendingRemove(ms: seq<Message>, n0: nat, pending: seq<string>, k: nat, m: Message)
    requires PendingSent(ms, n0, pending) && k < |pending|
    ensures PendingSent(ms + [m], n0, pending[..k] + pending[k + 1..])
  {
    var rest := pending[..k] + pending[k + 1..];
    assert (ms + [m])[n0..] == ms[n0..] + [m];
    forall q | 0 <= q < |rest| ensures Message(rest[q], User) in (ms + [m])[n0..] {
      var q0 := if q < k then q else q + 1;
      assert rest[q] == pending[q0];
    }
  }

  /** Sending appends the new text in flight after the others. */
  lemma PendingAdd(ms: seq<Message>, n0: nat, pending: seq<string>, t: string)
    requires PendingSent(ms, n0, pending)
    ensures PendingSent(ms + [Message(t, User)], n0, pending + [t])
  {
    var ms' := ms + [Message(t, User)];
    assert ms'[n0..] == ms[n0..] + [Message(t, User)];
    forall q | 0 <= q < |pending + [t]| ensures Message((pending + [t])[q], User) in ms'[n0..] {
      if q < |pending| {
        assert (pending + [t])[q] == pending[q];
      }
    }
  }

  lemma JsInitialInv(markup: seq<Message>, server: string -> Option<string>)
    ensures JsInv(JsChat(markup, "", []), |markup|, server)
  {
    assert markup[|markup|..] == [];
  }

  lemma JsSendInv(st: JsChat, n0: nat, server: string -> Option<string>)
    requires JsInv(st, n0, server)
    ensures JsInv(JsSend(st), n0, server)
  {
    if !IsBlank(st.input) {
      var m := Message(Trim(st.input), User);
      assert JsSend(st).messages == st.messages + [m];
      CountsAppend(st.messages, n0, m);
      BotLinesAppend(st.messages, n0, m, server);
      PendingAdd(st.messages, n0, st.pending, Trim(st.input));
    }
  }

  lemma JsReplyArrivesInv(st: JsChat, k: nat, n0: nat, server: string -> Option<string>)
    requires JsInv(st, n0, server)
    ensures JsInv(JsReplyArrives(st, k, server), n0, server)
  {
    if k < |st.pending| {
      var m := Message(JsAnswer(server, st.pending[k]), Bot);
      assert JsReplyArrives(st, k, server).messages == st.messages + [m];
      CountsAppend(st.messages, n0, m);
      PendingAnswered(st.messages, n0, st.pending, k, server);
      BotLinesAppend(st.messages, n0, m, server);
      PendingRemove(st.messages, n0, st.pending, k, m);
    }
  }

  /** Every event keeps the invariant, whatever the endpoint answers. */
  lemma JsStepInv(st: JsChat, ev: JsEvent, n0: nat, server: string -> Option<string>)
    requires JsInv(st, n0, server)
    ensures JsInv(JsStep(st, ev, server), n0, server)
  {
    match ev
    case JsType(text) =>
    case JsSendClick => JsSendInv(st, n0, server);
    case JsKeyPress(key) => JsSendInv(st, n0, server);
    case JsRequestDone(k) => JsReplyArrivesInv(st, k, n0, server);
  }

  /** Requests overlap: a second send before the first reply puts both user lines first, and the
      second reply may come back before the first. */
  lemma JsOverlappingSends(st: JsChat, a: string, b: string, server: string -> Option<string>)
    requires !IsBlank(a) && !IsBlank(b) && st.pending == []
    ensures var s2 := JsSend(JsSend(st.(input := a)).(input := b));
            var s3 := JsReplyArrives(s2, 1, server);
            s3.messages == st.messages + [Message(Trim(a), User), Message(Trim(b), User), Message(JsAnswer(server, Trim(b)), Bot)]
            && s3.pending == [Trim(a)]
  {
  }

  /** The endpoint of the accompanying server, which always answers. */
  function FlaskServer(message: string): Option<string>
  {
    Some(ChatbotResponse(Some(message)))
  }

  /** Against the accompanying server, every completed request shows the chatbot reply to a user line
      that was sent, and surrounding white space never changes what is sent. */
  lemma JsAgainstFlask(st: JsChat, k: nat, n0: nat, pad: string)
    requires JsInv(st, n0, FlaskServer)
    requires k < |st.pending| && IsBlank(pad)
    ensures JsReplyArrives(st, k, FlaskServer).messages[|st.messages|].text == ChatbotResponse(Some(st.pending[k]))
    ensures Message(st.pending[k], User) in st.messages[n0..]
    ensures var padded := JsSend(st.(input := pad + st.input + pad));
            padded.messages == JsSend(st).messages && padded.pending == JsSend(st).pending
  {
    TrimPadded(pad, st.input);
    assert JsReplyArrives(st, k, FlaskServer).messages == st.messages + [Message(JsAnswer(FlaskServer, st.pending[k]), Bot)];
  }
}
