# Flowtime bot: a Dafny model of its state machine and controller

The Flowtime bot is a Telegram bot that tracks work and rest. A chat sends
`start` when it begins working and `end` when it stops. For each 100 minutes
worked it earns 20 minutes of rest, rounded to the nearest minute. While a
period lasts, a status message is edited in place. This project models the
parts of the bot that are plain logic:

- `state_machine.dfy` (module `StateMachine`): the generic engine of
  `state-machine.ts`. `createMachine` and `transition` take an abstract
  definition table. `Transition` is a pure function. It returns the new
  machine, what `transition` returned (`undefined`, a state, or a thrown
  exception), and the trace of the guard, `onExit` and `onEnter` calls it made.
- `activity.dfy` (module `Activity`): the two-state table that `init` builds.
  `rest` is initial, `start` moves `rest` to `work`, `end` moves `work` to
  `rest`, and every guard returns true. The module also holds what the
  `onEnter` actions write to the chat's record and announce, and what the
  work and rest tickers read.
- `rest_time.dfy` (module `RestTime`): `calculateRestTime` and moment's
  whole-minute difference, with instants as integer milliseconds.
- `store.dfy` (module `Store`): the per-chat key/value `Store` with its
  merge-on-set `set`.
- `ticker.dfy` (module `StatusTicker`): the "edit only if the text changed"
  suppression that both tickers share.
- `bot.dfy` (module `Bot`): the memoised session registry `init` and the
  `message` handler's command dispatch.
- `wrappers.dfy` (module `Wrappers`): `Option`.

The clock and the chat transport are parameters and results. The current
time is an input `now`. Messages the bot sends are returned as values.

The model covers `index.ts` as written: the states `work` and `rest`, a rest
ratio of 20%, and whole minutes.

## Model

| member | source | states |
|---|---|---|
| StateMachine.CreateMachine | state-machine.ts:3-5 | A new machine's value is the definition's `initialState`. |
| StateMachine.Transition | state-machine.ts:6-27 | If the current state's table has no entry for the event, the call returns `undefined`, makes no callback and leaves the machine alone. The guard always runs before any action. If the guard declines, nothing else runs, nothing changes, and `machine.value` (not the argument) is returned. An accepted transition calls `onExit` of the source and then `onEnter` of the target, once each, then commits the target and returns it. Nothing else ever commits. A state missing from the definition throws. |
| StateMachine.TransitionFromValue | state-machine.ts:7-23 | When the caller passes `machine.value` as the current state, the committed value is the table's successor of the old value. |
| StateMachine.TransitionIgnoresValue | state-machine.ts:7-23 | The lookup uses the `currentState` argument, not `machine.value`. Two machines make the same calls, and a committing transition leaves them equal. |
| StateMachine.RunFollowsTable | state-machine.ts:6-27 | Feeding a machine a sequence of events, each time from its own value, ends in the state reached by following the table. Events without an accepted entry are no-ops. |
| Store.Get | index.ts:42-45 | `get` yields a value exactly when the chat has a record holding that field, and the value is the one stored. |
| Store.Set | index.ts:46-53 | `set` returns the value it wrote, and reading that field back yields it. Every other field of the chat's record is kept. The chat gains a record if it had none. Every other chat's record is untouched. |
| Store.GetAfterSet | index.ts:42-53 | Reading a field just written yields the written value. |
| Store.SetKeepsOthers | index.ts:47-51 | A write of one field leaves every other (chat, field) pair reading what it read before. |
| Store.GetWithoutRecord | index.ts:43-44 | A chat with no stored record reads every field as absent. |
| Store.FirstSetCreatesRecord | index.ts:47-51 | A chat's first write creates a record holding only that field, because spreading `null` adds nothing. |
| Store.SetSetSameKey | index.ts:46-52 | Last write wins: two writes of one field equal the second write alone. |
| Store.SetCommutes | index.ts:46-52 | Writes to different fields or different chats commute. |
| RestTime.CalculateRestTime | index.ts:59-62 | The rest earned for `t` minutes is the integer nearest to `t * 20 / 100`, with halves rounded up as `Math.round` does. |
| RestTime.RestTimeUnique | index.ts:59-62 | Only one integer satisfies the nearest-integer condition, so that condition alone defines the result. |
| RestTime.RestTimeIntegerForm | index.ts:59-62 | The result equals `(2t + 5) / 10` with flooring integer division. |
| RestTime.RestTimeBounds | index.ts:59-62 | For `t >= 0` the earned rest is between 0 and `t`. |
| RestTime.RestTimeMonotone | index.ts:59-62 | The earned rest never decreases as `t` grows. |
| RestTime.DiffMinutes | index.ts:123 | moment's `diff(…, 'minutes')` gives the millisecond difference divided by a minute and truncated toward zero, for intervals in both directions. |
| RestTime.DiffMinutesOfWholeMinutes | index.ts:123 | A whole number of minutes plus less than one minute counts as that whole number of minutes. |
| RestTime.DiffMinutesOfMinutes | index.ts:131 | A whole number of minutes, forward or backward, is exactly that many minutes. |
| RestTime.MinutesLeft | index.ts:131 | Counting down to an instant whole minutes ahead, every minute begun counts as spent: the reading is the minutes less the elapsed time rounded up to whole minutes. |
| StatusTicker.OnTick | index.ts:95-98 | A tick edits the message exactly when its text differs from the last text sent, and the edit carries that text. Afterwards the remembered text is the new text. |
| StatusTicker.EditsKeepMessageCurrent | index.ts:89-103 | Suppression never lets the ticker fall behind: after any run of ticks, the text the ticker last sent is the most recently computed text. |
| StatusTicker.EditsNeverRepeat | index.ts:95-98 | No edit is redundant. The first edit differs from the text the ticker last sent (`oldText`), and every edit differs from the edit before it. |
| StatusTicker.EditsComeFromTicks | index.ts:128-141 | Every edit carries a text some tick computed, and there are never more edits than ticks. |
| StatusTicker.RepeatedTextEditsOnce | index.ts:95-98 | Ticks that keep computing the same text edit the message at most once, and not at all if it already reads that text. |
| StatusTicker.RunTicker | index.ts:128-141 | A fresh ticker (`oldText = ''`) driven tick by tick issues exactly the edits of `Edits`: one for every tick whose text differs from the previous tick's (the first tick compared with `''`). Its last edit is the last computed text. The first edit is not `''`, no two consecutive edits are equal, every edit carries a text some tick computed, and there are at most as many edits as ticks. |
| Activity.InitialStateIsRest | index.ts:82 | A new session's machine starts in `rest`. |
| Activity.Table | index.ts:81-167 | The definition `init` hands to `createMachine`. No contract of its own; characterised by `Activity.InitialStateIsRest`, `Activity.GuardsAlwaysAccept` and `Activity.ControllerTransition`, which equate the engine on it with `Next`. |
| Activity.GuardsAlwaysAccept | index.ts:110-165 | Every entry of the controller's table has a guard that returns true and a target that is a defined state. |
| Activity.ControllerTransition | index.ts:110-165 | On the controller's table, `start` from `rest` enters `work` and `end` from `work` enters `rest`, each with the trace guard, exit, enter. Every other (state, event) pair returns `undefined` and changes nothing. |
| Activity.RunReflectsLastEvent | index.ts:110-165 | After any sequence of events the machine is in `work` if the last event was `start` and in `rest` if it was `end`. An empty sequence leaves it where it was. |
| Activity.EnterWork | index.ts:85-87 | `work.onEnter` stores `startTime = now`, keeps every other field, and announces the start. |
| Activity.EnterRest | index.ts:121-126 | `rest.onEnter` grants the nearest integer to 20% of the whole minutes worked since `startTime`. It stores `restEndTime = now + granted minutes`, keeps every other field, and announces one grant with that end time. |
| Activity.StartedAt | index.ts:123 | `store.get('startTime')` read through moment, a missing field reading as `now`. No contract of its own; characterised by `Activity.EnterRest` and `Activity.ReadWork`, and `Bot.WorkingChatHasStartTime` shows `rest.onEnter` always finds the field. |
| Activity.Perform | index.ts:85-155 | The effect of one engine callback: `onEnter` of `work` or `rest`, or nothing for a guard or `onExit`. No contract of its own; characterised by `Activity.PerformMove`, `Activity.EnterWork` and `Activity.EnterRest`. |
| Activity.PerformMove | index.ts:106-108 | A move's guard and `onExit` write nothing to the record, so the move has the modelled effect of the target's `onEnter` alone. |
| Activity.PerformAllStaysInChat | index.ts:79-86 | The callbacks of a chat's machine touch only that chat's record. |
| Activity.ReadWork | index.ts:91-93 | The work ticker shows the whole minutes since `startTime` and the nearest integer to 20% of them. |
| Activity.GrantedIsEarned | index.ts:122-124 | The rest granted on `end` equals the "earned" figure the work ticker shows at the same instant. |
| Activity.ReadRestLeft | index.ts:130-131 | The rest ticker's reading: whole minutes from now until `restEndTime`. No contract of its own; characterised by `Activity.RestCountdown` and `Activity.RestTickerCountdown`. |
| Activity.RestCountdown | index.ts:125-132 | At the instant of `rest.onEnter` the time left until the stored `restEndTime` equals the grant, and at the stored end time it is zero. |
| Activity.RestTickerCountdown | index.ts:125-141 | Read `elapsed` ms after `rest.onEnter` and before the rest ends, the rest ticker shows the grant less the elapsed time rounded up to whole minutes. |
| Activity.RestTickerFirstReading | index.ts:127-141 | The ticker's first reading comes at least `REFRESH_MS` = 2000 ms after `rest.onEnter`; within the first minute, for a grant of at least one minute, it shows the grant less one. |
| Activity.RestTickerLastMinute | index.ts:129-132 | Through the last minute before the stored end time the rest ticker shows zero. |
| Bot.Init | index.ts:73-174 | `init` registers the chat and returns the session registered for it. Existing sessions are kept unchanged. A chat's first session is created for that chat with its machine in `rest`. |
| Bot.InitMemoised | index.ts:73-76 | A second `init` for the same chat returns the same session and changes nothing. |
| Bot.InitKeepsKeyed | index.ts:168-172 | `init` keeps every session registered under its own chat id. |
| Bot.ToLower | index.ts:177 | Lower-casing keeps the length, maps each character, and leaves no upper-case ASCII letter. |
| Bot.ToLowerIdempotent | index.ts:177 | Lower-casing twice is the same as lower-casing once. |
| Bot.Parse | index.ts:182-190 | A lower-cased text names `start`, `end` or `status` exactly when it equals that word. |
| Bot.StatusText | index.ts:64-67 | The `workStatus` reply, `Status "<state>"`. No contract of its own; characterised by `Bot.HandleStatus`. |
| Bot.HandleMessage | index.ts:176-192 | The handler throws exactly when the message has no text. Otherwise it registers the chat and no other. |
| Bot.HandleTransition | index.ts:182-187 | `start`/`end` in any letter case moves the chat's machine from its current value as the table says. A move makes the guard, exit and enter calls, stores what the entered state's `onEnter` stores, and sends its announcement. A no-op makes no call, sends nothing and writes nothing. |
| Bot.HandleStatus | index.ts:188-190 | `status` in any letter case replies `Status "<state>"` and changes neither the state nor the storage. |
| Bot.HandleOtherText | index.ts:176-192 | Any other text only registers the chat. It makes no call, sends nothing, and changes no state or storage. |
| Bot.HandleKeepsKeyed | index.ts:168-173 | Handling a message keeps every session registered under its own chat id. |
| Bot.HandleStaysInChat | index.ts:176-192 | A message leaves every other chat's session and record untouched. |
| Bot.HandleKeepsStartTime | index.ts:85-86 | If a working chat has `startTime` on record, it still has after any message: only `start` makes a chat work, and `work.onEnter` records the instant. |
| Bot.ConverseKeepsStartTime | index.ts:176-192 | If a working chat has `startTime` on record before a conversation (or is not working), then after any conversation it is either not working or has `startTime` on record. |
| Bot.WorkingChatHasStartTime | index.ts:121-124 | Over one chat's messages from the bot's empty state, a chat in `work` has `startTime` on record, so the `end` that runs `rest.onEnter` never reads a chat without a record. |
| Bot.ConverseFollowsLastEvent | index.ts:182-187 | After any conversation, the chat is in `work` if its last `start`/`end` message was `start` and in `rest` if it was `end`. With no such message its state is unchanged, whatever else was said. |
| Bot.Serve | index.ts:176-192 | The handler run over the messages of all chats in arrival order, collecting every machine's callbacks. No contract of its own; characterised by `Bot.AbortPrecedesEveryRest`. |
| Bot.HandleAbortsFirst | index.ts:151-152 | One message of any chat keeps two facts: until some `rest.onExit` has run, every chat is resting; and no `rest.onEnter` runs before some `rest.onExit` has. |
| Bot.AbortPrecedesEveryRest | index.ts:143-152 | Over the messages of all chats from the empty bot, every `rest.onEnter` (which starts a rest deadline) comes after some `rest.onExit` (which aborts the shared controller). So the process's first abort, the only one with any effect (index.ts:30-32), comes before any deadline exists and cancels nothing. |
| Bot.FirstStart | index.ts:182-184 | A new chat's first `Start` registers it in `work`, records `startTime`, makes the guard, exit and enter calls, and announces the start. |
| Bot.FirstRestGrant | index.ts:121-126 | 100 minutes and 30 seconds of work grant 20 minutes of rest, ending 20 minutes after the end of work. |
| Bot.FirstEnd | index.ts:185-187 | `END` 100.5 minutes after that start moves the chat to `rest`, records the rest's end, and announces the 20-minute grant. |
| Bot.FirstWorkPeriod | index.ts:85-126 | A new chat sends `Start` at `t0` and `END` 100.5 minutes later. It is announced work at `t0` and granted 20 minutes of rest ending 20 minutes after the `END`. Its record then holds exactly `startTime` and `restEndTime`. |

## Left out

- The Telegram transport is not modelled: `sendMessage`, `editMessageText`, polling and the `polling_error` hook. Sent messages are returned as `Outgoing` values.
- Message wording that goes through moment (`HH:mm`) or the `dur` duration format is not modelled. Announcements carry the numbers they show, and tickers are modelled over the sequence of texts they compute. The status reply is written out in full.
- The interval timers, the rest deadline `delay` and the shared `AbortController` are not modelled. They are asynchronous scheduling. `work.onExit` only clears its ticker. `rest.onExit` also aborts the controller shared by every chat. A process's first abort comes from its first `start`, before any rest deadline exists (`Bot.AbortPrecedesEveryRest`), and later aborts do nothing, because an abort listener added after the controller has fired never runs. So no rest deadline is ever cancelled: each runs its full length and sends "The rest is over", and "The rest is over before finish time" is never sent. None of this is modelled, so exits have no effect in the model.
- The interleaving of a ticker's `msPromise.then` with a quick following command is not modelled. A timer started after its `onExit` has run may never be cleared.
- Disk persistence and JSON serialisation by `node-localstorage` are not modelled. The storage is an in-memory map, and a field read back is assumed to be the value written.
- A chat with no record at all: `get` then returns `null`, and moment turns it into an invalid instant. The model reads a missing `startTime` as `now` instead. `Bot.WorkingChatHasStartTime` shows that `rest.onEnter` never meets this case.
- The bot-token check, `process.exit` and `console.log` are not modelled.
- Bot.ToLower: maps ASCII letters only. For the three command words this is enough, since no other character lower-cases to a single ASCII letter that occurs in them.
- RestTime.CalculateRestTime: computed in exact integer arithmetic. It assumes the floating-point product `t * 0.2` rounds like the exact `t / 5`, which cannot fall on a half.
- StateMachine.Transition: a guard is modelled as the truth value it returns. A definition state without an `actions` object is not modelled. Event names inherited from `Object.prototype` are not modelled.
