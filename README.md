# Attendance bot (ponto.js) — a Dafny model of its session tracker and daily ledger

The bot tracks "ponto" (clock-in/clock-out) sessions of users of a chat server.
A user starts a session with `/ponto` while connected to the required voice
channel. The user can then pause it (`pausar`), resume it (`reabrir`) and end it
(`terminar`). The session is also closed when the user leaves the voice channel,
and a watchdog that polls every 1.5 s drops it when the user is no longer there.
When a session closes, its duration (`now - start - pauseDuration`) is added to
the user's total for the current day in the daily ledger (`dailyData`).

The model has four modules:

- `Duration` (duration.dfy): `formatDuration` as an hours/minutes/seconds triple,
  with JavaScript's truncating `%` written out.
- `Ledger` (ledger.dfy): the ledger `userId -> (day -> ms)` and the additive update
  that closing a session performs.
- `Sessions` (sessions.dfy): the per-user session record as a value, the pause and
  resume steps, the timeline invariant, and what a clock that never runs
  backwards guarantees about the recorded duration.
- `Attendance` (attendance.dfy): class `Tracker`, holding `sessions` (`pontoData`)
  and `ledger` (`dailyData`). Each handler branch is a method that updates these
  fields and states their new value.

These come from the runtime and are parameters of the model:
- the clock (`now`, integer milliseconds);
- the day key (`today`, an opaque string standing for `toLocaleDateString()`);
- the time labels of timeline entries (`stamp`, standing for `toLocaleTimeString()`);
- the outcome of the voice-channel lookup (`inRequiredChannel`).

Where the code departs from what a clock-in tracker evidently intends, the model follows the code
(the one exception is the date read when a session closes; see "## Findings" and "## Left out"):
- Closing a session while it is paused does not subtract the pause in progress
  (`Sessions.WorkedIncludesOpenPause`, `Sessions.Scenarios`).
- A watchdog drop records nothing in the ledger (`Attendance.Tracker.WatchdogTick`).
- A negative duration (the clock ran backwards) is recorded as it is, not truncated to 0.
- Resuming does not clear `pauseStart`.

## Model

| member | source | states |
|---|---|---|
| Duration.JsRem | ponto.js:46-47 | JavaScript remainder by a positive divisor: a - r is a multiple of b, and r lies in [0, b) for a non-negative dividend and in (-b, 0] for a negative one, which fixes r |
| Duration.FormatDuration | ponto.js:44-49 | for ms >= 0: hours >= 0, minutes and seconds in [0, 60), and h*3600000 + m*60000 + s*1000 <= ms < that + 1000; for ms < 0: hours < 0, minutes and seconds in [-60, 0] |
| Duration.FormatDurationUnique | ponto.js:44-49 | for ms >= 0 the triple is the only one with minutes and seconds in range that reads ms exactly to the second |
| Duration.FormatDurationNegative | ponto.js:44-49 | -1 ms formats as (-1, -1, -1), which stands for -3661000 ms; -3599999 ms formats as (-1, -60, -60) |
| Ledger.Record | ponto.js:296-299 | the (user, today) total grows by exactly the duration (an absent entry counts as 0) and exists afterwards; every other day of that user and every other user are unchanged |
| Ledger.RecordAsWritten | ponto.js:70-73 | the update as written, with the key day and the looked-up day taken separately; equals Record when the two are the same day |
| Ledger.MidnightLostUpdate | ponto.js:296-299 | when the day changes between the two date calls, the key day's total becomes just this session's duration; the earlier total is lost, where Record would have kept it |
| Ledger.MidnightExample | ponto.js:70-73 | concrete case: 5000 ms stored, a 1000 ms session closing across midnight leaves 1000 ms where 6000 ms were due |
| Ledger.RecordCommutes | ponto.js:296-299 | two recordings give the same ledger in either order, for any users and days |
| Ledger.RecordAdds | ponto.js:70-73 | recording a then b for one user and day is recording a + b once |
| Ledger.RecordExample | ponto.js:296-299 | recording 1000 ms then 2000 ms adds 3000 ms, and the order does not matter |
| Ledger.RecordNeverDecreases | ponto.js:296-299 | recording a non-negative duration lowers no total and removes no entry |
| Sessions.Opened | ponto.js:146-153 | the new session is well formed (timeline [Início]) and not paused |
| Sessions.Paused | ponto.js:221-224 | pausing a well-formed running session gives a well-formed paused one |
| Sessions.Resumed | ponto.js:258-262 | resuming a well-formed paused session gives a well-formed running one |
| Sessions.WorkedIncludesOpenPause | ponto.js:292 | the recorded duration equals the time actually worked, plus now - pauseStart when the session is closed while paused |
| Sessions.PauseResumeSameInstant | ponto.js:221-262 | pause then resume at the same instant leaves start, pauseDuration and the recorded duration unchanged and appends [Pausa, Volta] |
| Sessions.Scenarios | ponto.js:290-299 | start at 0, pause at 5000, resume at 8000, close at 10000 records 7000 ms; closing at 10000 while paused since 5000 records 10000 ms, of which 5000 were worked |
| Sessions.WorkedBounds | ponto.js:292 | for a session consistent with the clock, 0 <= recorded duration <= now - start |
| Sessions.Apply | ponto.js:216-262 | a pause or resume press, refused in the wrong state, keeps the session well formed |
| Sessions.Replay | ponto.js:216-262 | any series of presses keeps the session well formed, its start and channel, and only appends to its timeline |
| Sessions.ApplyConsistent | ponto.js:216-262 | one press at a later instant keeps the session consistent with the clock |
| Sessions.ReplayConsistent | ponto.js:216-262 | presses in clock order keep the session consistent with the clock at the last press |
| Sessions.RecordedDurationBounds | ponto.js:290-299 | if the clock never runs backwards, the duration a session records is between 0 and the time since `/ponto`, whatever pauses and resumes happened |
| Attendance.Tracker.constructor | ponto.js:20-21 | no session is open and the ledger is the stored one |
| Attendance.Tracker.Start | ponto.js:128-153 | wrong voice channel is rejected first; an existing session is rejected next; both leave all state unchanged; otherwise exactly one session is added (start = now, pauseDuration 0, not paused, timeline [Início]) and the ledger is untouched |
| Attendance.Tracker.Pause | ponto.js:209-224 | no session or already paused: rejected, nothing changes; otherwise paused with pauseStart = now, one Pausa entry appended, start and pauseDuration unchanged |
| Attendance.Tracker.Resume | ponto.js:252-262 | no session or not paused: rejected, nothing changes; otherwise pauseDuration grows by exactly now - pauseStart, the session runs, pauseStart is kept, one Volta entry appended |
| Attendance.Tracker.Close | ponto.js:290-299 | records now - start - pauseDuration under (user, today) via Record, removes the session, replies with the duration, its formatted reading and the timeline plus Termino; with a sane clock the duration is >= 0 and no total goes down |
| Attendance.Tracker.End | ponto.js:290-314 | no session: rejected, nothing changes; otherwise the session is closed as by Close, paused or not |
| Attendance.Tracker.LeaveVoice | ponto.js:59-93 | a user with a session whose new voice channel is not the required one is closed exactly as by End; any other update changes nothing |
| Attendance.Tracker.WatchdogTick | ponto.js:178-193 | for a user with an open session (the only case in which its interval is live) who is outside the required channel, the session is deleted and the ledger is unchanged; otherwise nothing changes |

## Findings

| source | as written | input that shows it | evidently intended | confidence | as-written member | corrected member |
|---|---|---|---|---|---|---|
| ponto.js:296-299 | The new entry's key and the day whose old total is read come from two separate `toLocaleDateString()` calls. The same code is at lines 70-73. | 5000 ms stored for day d1; a 1000 ms session closes as the date turns, so the key is d1 and the lookup is d2. d1 becomes 1000 ms. | The same day is read and written, so d1 becomes 6000 ms. | low: needs midnight to fall between two calls a moment apart; not executed | Ledger.RecordAsWritten, Ledger.MidnightExample | Ledger.Record |

## Left out

- Attendance.Tracker.Close (and so End and LeaveVoice): one `today` stands for both `toLocaleDateString()` calls at ponto.js:72 and 298, and the tracker applies the corrected `Ledger.Record`. The case where the two calls return different days is modelled by `Ledger.RecordAsWritten` (see "## Findings"), not by the tracker.
- Persistence (`loadDailyData`, `saveDailyData`): the constructor takes the stored ledger as a value, and a save does not change the model state. The JSON round trip is not modelled.
- The `historico` listing: it is presentation built on member lookups on the chat platform.
- Messages, embeds, buttons and replies: `Reply` only says which message a handler sends.
- The text of `formatDuration`: the model stops at the triple it interpolates.
- Time: the 1.5 s polling interval is not modelled. A watchdog tick is an explicit event.
- The interval handle `checkInterval`: the watchdog counts as live exactly while its session exists.
- Async interleaving: every handler runs atomically. In the code, the interval is created after an awaited reply, so a session ended during that await leaves a watchdog running. That watchdog can later delete a newer session of the same user. This is not modelled.
- Failed sends and writes: a send or the ledger file write (`saveDailyData`, ponto.js:75 and 301) that throws after the ledger update skips the session's deletion, so a later close would record it again. This is not modelled.
- The `replied`/`deferred` guard on buttons and custom ids other than the three the bot creates.
- In-place mutation: the code mutates the session object in place. No other reference to it is observable, so the model replaces the session's value in the map instead.
- Numbers: JavaScript numbers are doubles. The model uses unbounded integers, which are exact for millisecond counts below 2^53.
