/** The activity controller of index.ts: the two-state table handed to
    `createMachine` in `init`, and what the states' `onEnter` actions do to the
    chat's record.

    `work.onExit` only clears its ticker.  `rest.onExit` also aborts the
    controller shared by every chat, but the process's first abort comes
    before any rest deadline exists (`Bot.AbortPrecedesEveryRest`), so it
    cancels nothing.  Neither the timers nor the controller are modelled, so
    exits have no effect on the record here.  Message texts that go through
    moment's formatting are kept as the numbers they show. */
module Activity {

  import opened Wrappers
  import opened StateMachine
  import opened Store
  import opened RestTime

  /** The machine's states, `'work'` and `'rest'`. */
  datatype Mode = Work | Rest

  /** The events the table knows, `'start'` and `'end'`. */
  datatype Event = Start | End

  /** A state's name as the source spells it. */
  function Name(a: Mode): string
  {
    match a
    case Work => "work"
    case Rest => "rest"
  }

  /** The definition `init` builds: `rest` is initial, `rest` moves to `work`
      on `start`, `work` moves to `rest` on `end`, and both guards return true. */
  function Table(): Definition<Mode, Event>
  {
    Definition(Rest, map[
      Work := StateDef(map[End := Edge(Rest, true)]),
      Rest := StateDef(map[Start := Edge(Work, true)])
    ])
  }

  /** The intended behaviour of the controller, written out case by case:
      `start` begins work, `end` ends it, anything else changes nothing. */
  function Next(a: Mode, e: Event): Mode
  {
    match (a, e)
    case (Rest, Start) => Work
    case (Work, End) => Rest
    case _ => a
  }

  /** A new session's machine is resting. */
  lemma InitialStateIsRest()
    ensures CreateMachine(Table()).value == Rest
  {
  }

  /** Every transition in the table is accepted: its guard returns true and
      its target is a state of the table, so the engine never throws on it. */
  lemma GuardsAlwaysAccept(a: Mode, e: Event)
    ensures Lookup(Table(), a, e).Some? ==>
              Lookup(Table(), a, e).value.accepts && Lookup(Table(), a, e).value.target in Table().states
  {
  }

  /** The engine on the controller's table does exactly what `Next` says:
      a move exits the old state and enters the new one; every other pair of
      state and event is a silent no-op. */
  lemma ControllerTransition(m: Machine<Mode>, a: Mode, e: Event)
    ensures Next(a, e) != a ==>
              Transition(Table(), m, a, e)
              == Step(Machine(Next(a, e)), Value(Next(a, e)), [Guard(a, e), Exit(a), Enter(Next(a, e))])
    ensures Next(a, e) == a ==> Transition(Table(), m, a, e) == Step(m, Undefined, [])
  {
  }

  /** Driven with its own value, the machine ends up in the state the last
      event names: working after a `start`, resting after an `end`. */
  lemma {:induction false} RunReflectsLastEvent(m: Machine<Mode>, events: seq<Event>)
    ensures Run(Table(), m, events).value
            == if events == [] then m.value
               else if events[|events| - 1] == Start then Work else Rest
    decreases |events|
  {
    if events != [] {
      var next := Transition(Table(), m, m.value, events[0]).machine;
      ControllerTransition(m, m.value, events[0]);
      RunReflectsLastEvent(next, events[1..]);
    }
  }

  /** The record fields the controller writes. */
  const StartTimeKey: string := "startTime"
  const RestEndTimeKey: string := "restEndTime"

  /** The announcements the `onEnter` actions send, with the numbers the
      formatted text shows: the start of work, and the rest granted with the
      instant it ends. */
  datatype Notice = WorkStarted(at: int) | RestGranted(minutes: int, until: int)

  /** The chat's record after an action, and the announcements it sent. */
  datatype Effects = Effects(storage: Storage<int>, notices: seq<Notice>)

  /** The recorded start of work, or `now` when none is recorded.  moment
      reads the `undefined` of a missing field as the current time.  A chat
      with no record at all reads `null` instead, which moment turns into an
      invalid instant; that case is not modelled, because `rest.onEnter` only
      runs after `work.onEnter` has written `startTime`
      (`Bot.WorkingChatHasStartTime`). */
  function StartedAt(storage: Storage<int>, chat: ChatId, now: int): int
  {
    Get(storage, chat, StartTimeKey).GetOr(now)
  }

  /** `work.onEnter`: stamp `startTime` and announce it. */
  function EnterWork(storage: Storage<int>, chat: ChatId, now: int): (fx: Effects)
    ensures Get(fx.storage, chat, StartTimeKey) == Some(now)
    ensures forall k :: k != StartTimeKey ==> Get(fx.storage, chat, k) == Get(storage, chat, k)
    ensures fx.notices == [WorkStarted(now)]
  {
    Effects(Set(storage, chat, StartTimeKey, now).storage, [WorkStarted(now)])
  }

  /** `rest.onEnter`: grant the rest earned by the whole minutes worked since
      `startTime`, stamp when it ends as `restEndTime`, and announce both. */
  function EnterRest(storage: Storage<int>, chat: ChatId, now: int): (fx: Effects)
    ensures |fx.notices| == 1 && fx.notices[0].RestGranted?
    ensures var worked := DiffMinutes(now, StartedAt(storage, chat, now));
            var granted := fx.notices[0].minutes;
            100 * granted - 50 <= worked * RestPercent < 100 * granted + 50
    ensures fx.notices[0].until == now + fx.notices[0].minutes * MsInMinute
    ensures Get(fx.storage, chat, RestEndTimeKey) == Some(fx.notices[0].until)
    ensures forall k :: k != RestEndTimeKey ==> Get(fx.storage, chat, k) == Get(storage, chat, k)
  {
    var timeFromStart := DiffMinutes(now, StartedAt(storage, chat, now));
    var restDuration := CalculateRestTime(timeFromStart);
    var restEndTime := now + restDuration * MsInMinute;
    Effects(Set(storage, chat, RestEndTimeKey, restEndTime).storage, [RestGranted(restDuration, restEndTime)])
  }

  /** The effect of one callback the engine made. */
  function Perform(storage: Storage<int>, chat: ChatId, now: int, c: Callback<Mode, Event>): Effects
  {
    match c
    case Enter(Work) => EnterWork(storage, chat, now)
    case Enter(Rest) => EnterRest(storage, chat, now)
    case _ => Effects(storage, [])   // the guard logs; `onExit` writes no record
  }

  /** The effects of a trace of callbacks, in the order they were made. */
  function PerformAll(storage: Storage<int>, chat: ChatId, now: int, trace: seq<Callback<Mode, Event>>): Effects
    decreases |trace|
  {
    if trace == [] then Effects(storage, [])
    else
      var first := Perform(storage, chat, now, trace[0]);
      var rest := PerformAll(first.storage, chat, now, trace[1..]);
      Effects(rest.storage, first.notices + rest.notices)
  }

  /** A move's trace has the effect of its `onEnter` alone: the guard and
      `onExit` write nothing to the record. */
  lemma PerformMove(storage: Storage<int>, chat: ChatId, now: int, a: Mode, e: Event, b: Mode)
    ensures PerformAll(storage, chat, now, [Guard(a, e), Exit(a), Enter(b)]) == Perform(storage, chat, now, Enter(b))
  {
    var fx := Perform(storage, chat, now, Enter(b));
    var t: seq<Callback<Mode, Event>> := [Guard(a, e), Exit(a), Enter(b)];
    var last: seq<Callback<Mode, Event>> := [Enter(b)];
    assert last[1..] == [];
    assert fx.notices + [] == fx.notices;
    assert PerformAll(storage, chat, now, last) == fx;
    assert t[1..][1..] == last;
    assert PerformAll(storage, chat, now, t[1..]) == fx;
  }

  /** Callbacks only ever touch the record of the chat they belong to. */
  lemma {:induction false} PerformAllStaysInChat(storage: Storage<int>, chat: ChatId, now: int,
                                                 trace: seq<Callback<Mode, Event>>, c: ChatId)
    requires c != chat
    ensures c in PerformAll(storage, chat, now, trace).storage <==> c in storage
    ensures c in storage ==> PerformAll(storage, chat, now, trace).storage[c] == storage[c]
    decreases |trace|
  {
    if trace != [] {
      var first := Perform(storage, chat, now, trace[0]);
      PerformAllStaysInChat(first.storage, chat, now, trace[1..], c);
    }
  }

  /** What the work ticker shows at `now`: whole minutes worked and the rest
      they have earned so far. */
  datatype WorkReading = WorkReading(worked: int, earned: int)

  function ReadWork(storage: Storage<int>, chat: ChatId, now: int): (r: WorkReading)
    ensures r.worked == DiffMinutes(now, StartedAt(storage, chat, now))
    ensures 100 * r.earned - 50 <= r.worked * RestPercent < 100 * r.earned + 50
  {
    var worked := DiffMinutes(now, StartedAt(storage, chat, now));
    WorkReading(worked, CalculateRestTime(worked))
  }

  /** What the rest ticker shows at `now`: whole minutes left until
      `restEndTime`.  `rest.onEnter` writes that field before it sends its
      announcement, and the ticker starts only once that announcement has
      been sent, so the field is always there; a missing one would read as
      `now`. */
  function ReadRestLeft(storage: Storage<int>, chat: ChatId, now: int): int
  {
    DiffMinutes(Get(storage, chat, RestEndTimeKey).GetOr(now), now)
  }

  /** The rest granted on `end` is the rest the work ticker showed as earned
      at that same instant. */
  lemma GrantedIsEarned(storage: Storage<int>, chat: ChatId, now: int)
    ensures EnterRest(storage, chat, now).notices[0].minutes == ReadWork(storage, chat, now).earned
  {
  }

  /** `REFRESH_MS`: the tickers' interval.  A ticker's first reading comes
      one interval after its announcement is sent, and so at least this long
      after the `onEnter` that sent it. */
  const RefreshMs: int := 2000

  /** At the instant of `rest.onEnter` the time left equals the rest
      granted, and at the stored end time it is zero. */
  lemma RestCountdown(storage: Storage<int>, chat: ChatId, now: int)
    ensures var fx := EnterRest(storage, chat, now);
            && ReadRestLeft(fx.storage, chat, now) == fx.notices[0].minutes
            && ReadRestLeft(fx.storage, chat, fx.notices[0].until) == 0
  {
    var fx := EnterRest(storage, chat, now);
    DiffMinutesOfMinutes(now, fx.notices[0].minutes);
  }

  /** The rest ticker read `elapsed` milliseconds after `rest.onEnter`,
      before the rest ends: every minute begun is spent, so it shows the
      grant less the elapsed time rounded up to whole minutes. */
  lemma RestTickerCountdown(storage: Storage<int>, chat: ChatId, now: int, elapsed: int)
    requires var granted := EnterRest(storage, chat, now).notices[0].minutes;
             0 <= elapsed <= granted * MsInMinute
    ensures var fx := EnterRest(storage, chat, now);
            ReadRestLeft(fx.storage, chat, now + elapsed)
            == fx.notices[0].minutes - (elapsed + MsInMinute - 1) / MsInMinute
  {
    var fx := EnterRest(storage, chat, now);
    MinutesLeft(now, fx.notices[0].minutes, elapsed);
  }

  /** The rest ticker's first reading, one interval after the announcement
      and still within the first minute, already shows one minute less than
      the grant. */
  lemma RestTickerFirstReading(storage: Storage<int>, chat: ChatId, now: int, elapsed: int)
    requires RefreshMs <= elapsed < MsInMinute
    requires EnterRest(storage, chat, now).notices[0].minutes >= 1
    ensures var fx := EnterRest(storage, chat, now);
            ReadRestLeft(fx.storage, chat, now + elapsed) == fx.notices[0].minutes - 1
  {
    RestTickerCountdown(storage, chat, now, elapsed);
  }

  /** Through the last minute of the rest the rest ticker shows zero. */
  lemma RestTickerLastMinute(storage: Storage<int>, chat: ChatId, now: int, elapsed: int)
    requires var granted := EnterRest(storage, chat, now).notices[0].minutes;
             0 <= elapsed && (granted - 1) * MsInMinute < elapsed <= granted * MsInMinute
    ensures var fx := EnterRest(storage, chat, now);
            ReadRestLeft(fx.storage, chat, now + elapsed) == 0
  {
    RestTickerCountdown(storage, chat, now, elapsed);
  }
}
