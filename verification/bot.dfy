/** The bot's message handling in index.ts: the per-chat session registry
    (`init` and its `singletones` map) and the `bot.on('message')` command
    dispatch.

    The chat transport is not modelled: an inbound message is a chat id and
    its optional text, and the handler's sends are returned as `Outgoing`
    values.  The clock is the `now` parameter, in milliseconds. */
module Bot {

  import opened Wrappers
  import opened StateMachine
  import opened Store
  import opened Activity

  /** What `init` registers per chat: the chat's machine.  (The session's
      store is `Store(chat)`, the chat's slice of the shared storage.) */
  datatype Session = Session(chat: ChatId, machine: Machine<Mode>)

  /** `singletones`: sessions by chat id.  No session is ever removed. */
  type Sessions = map<ChatId, Session>

  /** The registry after `init`, and the session it returned. */
  datatype Registered = Registered(sessions: Sessions, session: Session)

  /** `init(chat)`: the chat's session, created with a fresh machine on the
      chat's first message and returned unchanged ever after. */
  function Init(sessions: Sessions, chat: ChatId): (r: Registered)
    ensures r.sessions.Keys == sessions.Keys + {chat}
    ensures r.sessions[chat] == r.session
    ensures forall c :: c in sessions ==> r.sessions[c] == sessions[c]
    ensures chat !in sessions ==> r.session.chat == chat && r.session.machine.value == Rest
  {
    if chat in sessions then Registered(sessions, sessions[chat])
    else
      var session := Session(chat, CreateMachine(Table()));
      Registered(sessions[chat := session], session)
  }

  /** Every session is registered under its own chat id. */
  ghost predicate Keyed(sessions: Sessions)
  {
    forall c :: c in sessions ==> sessions[c].chat == c
  }

  /** `init` registers sessions under their own chat ids. */
  lemma InitKeepsKeyed(sessions: Sessions, chat: ChatId)
    requires Keyed(sessions)
    ensures Keyed(Init(sessions, chat).sessions)
    ensures Init(sessions, chat).session.chat == chat
  {
  }

  /** `init` is memoised: a second call for the same chat returns the same
      session and creates nothing. */
  lemma InitMemoised(sessions: Sessions, chat: ChatId)
    ensures var first := Init(sessions, chat);
            Init(first.sessions, chat) == first
  {
  }

  /** `String.prototype.toLowerCase` on one character.  Only ASCII letters are
      mapped; every other character is kept as it is. */
  function LowerChar(c: char): char
  {
    if 'A' <= c <= 'Z' then (c as int - 'A' as int + 'a' as int) as char else c
  }

  /** `text.toLowerCase()`, character by character. */
  function ToLower(s: string): (r: string)
    ensures |r| == |s|
    ensures forall i :: 0 <= i < |s| ==> r[i] == LowerChar(s[i])
    ensures forall i :: 0 <= i < |r| ==> !('A' <= r[i] <= 'Z')
  {
    if s == [] then [] else [LowerChar(s[0])] + ToLower(s[1..])
  }

  /** Lower-casing twice is lower-casing once. */
  lemma ToLowerIdempotent(s: string)
    ensures ToLower(ToLower(s)) == ToLower(s)
  {
    var r := ToLower(s);
    assert forall i :: 0 <= i < |r| ==> LowerChar(r[i]) == r[i];
  }

  /** The commands the handler acts on. */
  datatype Command = Transit(event: Event) | Status

  /** The command a lower-cased text names, if any: exact matches only. */
  function Parse(text: string): (r: Option<Command>)
    ensures r == Some(Transit(Start)) <==> text == "start"
    ensures r == Some(Transit(End)) <==> text == "end"
    ensures r == Some(Status) <==> text == "status"
  {
    if text == "start" then Some(Transit(Start))
    else if text == "end" then Some(Transit(End))
    else if text == "status" then Some(Status)
    else None
  }

  /** A message sent by the bot: an announcement from a state's `onEnter`,
      or a plain text reply. */
  datatype Outgoing = Announce(chat: ChatId, notice: Notice) | Reply(chat: ChatId, text: string)

  /** An inbound message; a message without text (a sticker, say) has none. */
  datatype Incoming = Incoming(chat: ChatId, text: Option<string>)

  /** Everything the handler reads and writes: the registry and the storage. */
  datatype BotState = BotState(sessions: Sessions, storage: Storage<int>)

  /** The bot before its first message. */
  const Empty: BotState := BotState(map[], map[])

  /** After one message: the bot, the callbacks the engine made, the
      messages sent.  `Threw` when the handler raised before doing anything. */
  datatype Handled =
    | Handled(bot: BotState, trace: seq<Callback<Mode, Event>>, sent: seq<Outgoing>)
    | Threw

  /** `workStatus`: the reply to `status`. */
  function StatusText(a: Mode): string
  {
    "Status \"" + Name(a) + "\""
  }

  /** The announcements of one chat, as messages to that chat. */
  function Announcements(chat: ChatId, notices: seq<Notice>): (r: seq<Outgoing>)
    ensures |r| == |notices|
    ensures forall i :: 0 <= i < |r| ==> r[i] == Announce(chat, notices[i])
  {
    if notices == [] then [] else [Announce(chat, notices[0])] + Announcements(chat, notices[1..])
  }

  /** The chat's state before a message arrives: its session's value, or the
      initial state when it has no session yet. */
  function StateOf(bot: BotState, chat: ChatId): Mode
  {
    if chat in bot.sessions then bot.sessions[chat].machine.value else Table().initialState
  }

  /** The `message` handler.  The text is lower-cased (a message without
      text makes `msg.text.toString()` throw), the chat's session is fetched
      or created, and then `start`/`end` become a transition from the
      machine's current value, `status` replies with the state's name, and any
      other text does nothing more. */
  function HandleMessage(bot: BotState, msg: Incoming, now: int): (h: Handled)
    ensures h.Threw? <==> msg.text.None?
    ensures h.Handled? ==> h.bot.sessions.Keys == bot.sessions.Keys + {msg.chat}
  {
    match msg.text
    case None => Threw
    case Some(raw) =>
      var reg := Init(bot.sessions, msg.chat);
      var session := reg.session;
      match Parse(ToLower(raw))
      case Some(Transit(e)) =>
        var st := Transition(Table(), session.machine, session.machine.value, e);
        var fx := PerformAll(bot.storage, msg.chat, now, st.trace);
        var sessions := reg.sessions[msg.chat := Session(msg.chat, st.machine)];
        Handled(BotState(sessions, fx.storage), st.trace, Announcements(msg.chat, fx.notices))
      case Some(Status) =>
        Handled(BotState(reg.sessions, bot.storage), [], [Reply(msg.chat, StatusText(session.machine.value))])
      case None =>
        Handled(BotState(reg.sessions, bot.storage), [], [])
  }

  /** A `start` or `end` message (in any letter case) moves the chat's
      machine as the controller's table says, and makes exactly the callbacks
      of that move. */
  lemma HandleTransition(bot: BotState, chat: ChatId, text: string, e: Event, now: int)
    requires Parse(ToLower(text)) == Some(Transit(e))
    ensures var h := HandleMessage(bot, Incoming(chat, Some(text)), now);
            var before := StateOf(bot, chat);
            && h.Handled?
            && h.bot.sessions[chat].machine.value == Next(before, e)
            && (Next(before, e) == before ==> h.trace == [] && h.sent == [] && h.bot.storage == bot.storage)
            && (Next(before, e) != before ==>
                  var fx := Perform(bot.storage, chat, now, Enter(Next(before, e)));
                  && h.trace == [Guard(before, e), Exit(before), Enter(Next(before, e))]
                  && h.bot.storage == fx.storage
                  && h.sent == Announcements(chat, fx.notices))
  {
    var reg := Init(bot.sessions, chat);
    var before := StateOf(bot, chat);
    ControllerTransition(reg.session.machine, reg.session.machine.value, e);
    PerformMove(bot.storage, chat, now, before, e, Next(before, e));
  }

  /** `status` (in any letter case) replies with the name of the chat's
      state and changes neither the state nor the storage. */
  lemma HandleStatus(bot: BotState, chat: ChatId, text: string, now: int)
    requires ToLower(text) == "status"
    ensures var h := HandleMessage(bot, Incoming(chat, Some(text)), now);
            && h.Handled?
            && h.sent == [Reply(chat, StatusText(StateOf(bot, chat)))]
            && h.bot.sessions[chat].machine.value == StateOf(bot, chat)
            && h.bot.storage == bot.storage
  {
  }

  /** Any other text registers the chat and does nothing else: no callback,
      no message, no state change, no write. */
  lemma HandleOtherText(bot: BotState, chat: ChatId, text: string, now: int)
    requires Parse(ToLower(text)).None?
    ensures var h := HandleMessage(bot, Incoming(chat, Some(text)), now);
            && h == Handled(BotState(Init(bot.sessions, chat).sessions, bot.storage), [], [])
            && h.bot.sessions[chat].machine.value == StateOf(bot, chat)
  {
  }

  /** The handler keeps every session registered under its own chat id. */
  lemma HandleKeepsKeyed(bot: BotState, msg: Incoming, now: int)
    requires Keyed(bot.sessions)
    ensures var h := HandleMessage(bot, msg, now);
            h.Handled? ==> Keyed(h.bot.sessions) && h.bot.sessions[msg.chat].chat == msg.chat
  {
    if msg.text.Some? {
      InitKeepsKeyed(bot.sessions, msg.chat);
    }
  }

  /** A message touches only its own chat: every other chat keeps its
      session and its record. */
  lemma HandleStaysInChat(bot: BotState, msg: Incoming, now: int, c: ChatId)
    requires c != msg.chat
    ensures var h := HandleMessage(bot, msg, now);
            h.Handled? ==>
              && (c in h.bot.sessions <==> c in bot.sessions)
              && (c in bot.sessions ==> h.bot.sessions[c] == bot.sessions[c])
              && (c in h.bot.storage <==> c in bot.storage)
              && (c in bot.storage ==> h.bot.storage[c] == bot.storage[c])
  {
    var h := HandleMessage(bot, msg, now);
    if h.Handled? {
      var reg := Init(bot.sessions, msg.chat);
      var e := Parse(ToLower(msg.text.value));
      if e.Some? && e.value.Transit? {
        var st := Transition(Table(), reg.session.machine, reg.session.machine.value, e.value.event);
        PerformAllStaysInChat(bot.storage, msg.chat, now, st.trace, c);
      }
    }
  }

  /** A text message of the chat, with the instant it arrives. */
  datatype Said = Said(text: string, at: int)

  /** The bot after the chat's text messages are handled one after another. */
  function Converse(bot: BotState, chat: ChatId, messages: seq<Said>): BotState
    decreases |messages|
  {
    if messages == [] then bot
    else
      var h := HandleMessage(bot, Incoming(chat, Some(messages[0].text)), messages[0].at);
      Converse(if h.Handled? then h.bot else bot, chat, messages[1..])
  }

  /** The event of the last `start` or `end` message of a conversation. */
  function LastEvent(messages: seq<Said>): Option<Event>
    decreases |messages|
  {
    if messages == [] then None
    else
      match LastEvent(messages[1..])
      case Some(e) => Some(e)
      case None =>
        match Parse(ToLower(messages[0].text))
        case Some(Transit(e)) => Some(e)
        case _ => None
  }

  /** Whatever else is said, a chat is working after its last `start` or
      `end` message exactly when that message was `start`; with neither, its
      state is what it was. */
  lemma {:induction false} ConverseFollowsLastEvent(bot: BotState, chat: ChatId, messages: seq<Said>)
    ensures StateOf(Converse(bot, chat, messages), chat)
            == match LastEvent(messages)
               case None => StateOf(bot, chat)
               case Some(Start) => Work
               case Some(End) => Rest
    decreases |messages|
  {
    if messages != [] {
      var m := messages[0];
      var h := HandleMessage(bot, Incoming(chat, Some(m.text)), m.at);
      match Parse(ToLower(m.text)) {
        case Some(Transit(e)) =>
          HandleTransition(bot, chat, m.text, e, m.at);
        case Some(Status) =>
          HandleStatus(bot, chat, m.text, m.at);
        case None =>
          HandleOtherText(bot, chat, m.text, m.at);
      }
      ConverseFollowsLastEvent(h.bot, chat, messages[1..]);
    }
  }

  /** A working chat has its start of work on record. */
  ghost predicate StartRecorded(bot: BotState, chat: ChatId)
  {
    StateOf(bot, chat) == Work ==> Get(bot.storage, chat, StartTimeKey).Some?
  }

  /** Every message keeps a working chat's start of work on record: only
      `start` makes a chat work, and `work.onEnter` records the instant. */
  lemma HandleKeepsStartTime(bot: BotState, chat: ChatId, text: string, now: int)
    requires StartRecorded(bot, chat)
    ensures var h := HandleMessage(bot, Incoming(chat, Some(text)), now);
            h.Handled? && StartRecorded(h.bot, chat)
  {
    match Parse(ToLower(text)) {
      case Some(Transit(e)) =>
        HandleTransition(bot, chat, text, e, now);
      case Some(Status) =>
        HandleStatus(bot, chat, text, now);
      case None =>
        HandleOtherText(bot, chat, text, now);
    }
  }

  /** A conversation keeps a working chat's start of work on record. */
  lemma {:induction false} ConverseKeepsStartTime(bot: BotState, chat: ChatId, messages: seq<Said>)
    requires StartRecorded(bot, chat)
    ensures StateOf(Converse(bot, chat, messages), chat) == Work
            ==> Get(Converse(bot, chat, messages).storage, chat, StartTimeKey).Some?
    decreases |messages|
  {
    if messages != [] {
      var m := messages[0];
      HandleKeepsStartTime(bot, chat, m.text, m.at);
      var h := HandleMessage(bot, Incoming(chat, Some(m.text)), m.at);
      ConverseKeepsStartTime(h.bot, chat, messages[1..]);
    }
  }

  /** Over one chat's messages from the empty bot, a chat in `work` has
      `startTime` on record, so the `end` that runs `rest.onEnter` always
      finds it. */
  lemma WorkingChatHasStartTime(chat: ChatId, messages: seq<Said>)
    ensures StateOf(Converse(Empty, chat, messages), chat) == Work
            ==> Get(Converse(Empty, chat, messages).storage, chat, StartTimeKey).Some?
  {
    ConverseKeepsStartTime(Empty, chat, messages);
  }

  /** A message of any chat, with the instant it arrives. */
  datatype Delivery = Delivery(msg: Incoming, at: int)

  /** The bot and the callbacks of every chat's machine, in order. */
  datatype Served = Served(bot: BotState, trace: seq<Callback<Mode, Event>>)

  /** The bot after the messages of all chats are handled one after
      another; a message whose handler throws changes nothing. */
  function Serve(bot: BotState, deliveries: seq<Delivery>): Served
    decreases |deliveries|
  {
    if deliveries == [] then Served(bot, [])
    else
      var before := Serve(bot, deliveries[..|deliveries| - 1]);
      var d := deliveries[|deliveries| - 1];
      var h := HandleMessage(before.bot, d.msg, d.at);
      if h.Handled? then Served(h.bot, before.trace + h.trace) else before
  }

  /** No chat is working. */
  ghost predicate AllResting(bot: BotState)
  {
    forall c :: c in bot.sessions ==> bot.sessions[c].machine.value == Rest
  }

  /** Every `rest.onEnter` in the trace comes after some `rest.onExit`. */
  ghost predicate AbortsFirst(trace: seq<Callback<Mode, Event>>)
  {
    forall i :: 0 <= i < |trace| && trace[i] == Enter(Rest) ==> Exit(Rest) in trace[..i]
  }

  /** One message keeps both facts: until some `rest.onExit` has run every
      chat is resting, and no `rest.onEnter` runs before one has. */
  lemma HandleAbortsFirst(bot: BotState, trace: seq<Callback<Mode, Event>>, d: Delivery)
    requires Exit(Rest) !in trace ==> AllResting(bot)
    requires AbortsFirst(trace)
    ensures var h := HandleMessage(bot, d.msg, d.at);
            h.Handled? ==>
              && (Exit(Rest) !in trace + h.trace ==> AllResting(h.bot))
              && AbortsFirst(trace + h.trace)
  {
    var h := HandleMessage(bot, d.msg, d.at);
    if h.Handled? {
      var chat := d.msg.chat;
      var text := d.msg.text.value;
      var t := trace + h.trace;
      assert t[..|trace|] == trace;
      forall c | c != chat
        ensures (c in h.bot.sessions <==> c in bot.sessions)
        ensures c in bot.sessions ==> h.bot.sessions[c] == bot.sessions[c]
      {
        HandleStaysInChat(bot, d.msg, d.at, c);
      }
      match Parse(ToLower(text)) {
        case Some(Transit(e)) =>
          HandleTransition(bot, chat, text, e, d.at);
          var before := StateOf(bot, chat);
          if Next(before, e) != before {
            assert h.trace == [Guard(before, e), Exit(before), Enter(Next(before, e))];
            assert t[|trace| + 1] == Exit(before);
            if before == Work {
              assert Exit(Rest) in trace;
            } else {
              assert t[..|trace| + 2][|trace| + 1] == Exit(Rest);
            }
          }
        case Some(Status) =>
          HandleStatus(bot, chat, text, d.at);
          assert h.trace == [];
        case None =>
          HandleOtherText(bot, chat, text, d.at);
          assert h.trace == [];
      }
    }
  }

  /** Over the messages of all chats from the empty bot, the first
      `rest.onExit`, which aborts the shared controller, comes before the
      first `rest.onEnter`, which is what starts a rest deadline.  So the
      process's first abort finds no deadline to cancel. */
  lemma {:induction false} AbortPrecedesEveryRest(deliveries: seq<Delivery>)
    ensures var s := Serve(Empty, deliveries);
            && (Exit(Rest) !in s.trace ==> AllResting(s.bot))
            && AbortsFirst(s.trace)
    decreases |deliveries|
  {
    if deliveries != [] {
      var front := deliveries[..|deliveries| - 1];
      AbortPrecedesEveryRest(front);
      var before := Serve(Empty, front);
      HandleAbortsFirst(before.bot, before.trace, deliveries[|deliveries| - 1]);
    }
  }

  /** A new chat's first `Start`: the chat is registered working, its record
      holds the start instant, and the start is announced. */
  lemma FirstStart(chat: ChatId, t0: int)
    ensures HandleMessage(Empty, Incoming(chat, Some("Start")), t0)
            == Handled(BotState(map[chat := Session(chat, Machine(Work))], map[chat := map[StartTimeKey := t0]]),
                       [Guard(Rest, Start), Exit(Rest), Enter(Work)],
                       [Announce(chat, WorkStarted(t0))])
  {
    var start := "Start";
    assert ToLower(start) == "start";
    HandleTransition(Empty, chat, start, Start, t0);
  }

  /** The first exchange of a chat: `Start` at `t0`, then `END` one hundred
      minutes and thirty seconds later.  Work was announced at `t0`, twenty
      minutes of rest are granted until twenty minutes after the `END`, and
      the chat's record holds both instants. */
  lemma FirstWorkPeriod(chat: ChatId, t0: int)
    ensures var h1 := HandleMessage(Empty, Incoming(chat, Some("Start")), t0);
            var t1 := t0 + 100 * RestTime.MsInMinute + 30000;
            && h1.Handled?
            && h1.sent == [Announce(chat, WorkStarted(t0))]
            && var h2 := HandleMessage(h1.bot, Incoming(chat, Some("END")), t1);
               && h2.Handled?
               && h2.bot.sessions[chat].machine.value == Rest
               && h2.sent == [Announce(chat, RestGranted(20, t1 + 20 * RestTime.MsInMinute))]
               && h2.bot.storage == map[chat := map[StartTimeKey := t0, RestEndTimeKey := t1 + 20 * RestTime.MsInMinute]]
  {
    FirstStart(chat, t0);
    FirstEnd(chat, t0, t0 + 100 * RestTime.MsInMinute + 30000);
  }

  /** `END` from the state the first `Start` left. */
  lemma FirstEnd(chat: ChatId, t0: int, t1: int)
    requires t1 == t0 + 100 * RestTime.MsInMinute + 30000
    ensures var working := BotState(map[chat := Session(chat, Machine(Work))], map[chat := map[StartTimeKey := t0]]);
            var until := t1 + 20 * RestTime.MsInMinute;
            HandleMessage(working, Incoming(chat, Some("END")), t1)
            == Handled(BotState(map[chat := Session(chat, Machine(Rest))], map[chat := map[StartTimeKey := t0, RestEndTimeKey := until]]),
                       [Guard(Work, End), Exit(Work), Enter(Rest)],
                       [Announce(chat, RestGranted(20, until))])
  {
    var working := BotState(map[chat := Session(chat, Machine(Work))], map[chat := map[StartTimeKey := t0]]);
    var stop := "END";
    assert ToLower(stop) == "end";
    HandleTransition(working, chat, stop, End, t1);
    FirstRestGrant(chat, t0, t1);
  }

  /** Ending work one hundred minutes and thirty seconds after it started
      grants twenty minutes of rest. */
  lemma FirstRestGrant(chat: ChatId, t0: int, t1: int)
    requires t1 == t0 + 100 * RestTime.MsInMinute + 30000
    ensures var until := t1 + 20 * RestTime.MsInMinute;
            EnterRest(map[chat := map[StartTimeKey := t0]], chat, t1)
            == Effects(map[chat := map[StartTimeKey := t0, RestEndTimeKey := until]], [RestGranted(20, until)])
  {
    RestTime.DiffMinutesOfWholeMinutes(t0, 100, 30000);
    RestTime.RestTimeUnique(100, 20);
    assert StartedAt(map[chat := map[StartTimeKey := t0]], chat, t1) == t0;
  }
}
