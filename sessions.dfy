/** One user's open attendance session (an entry of `pontoData`) as a value, the
    pause and resume steps the buttons apply to it, and what the clock lets us
    conclude about the duration recorded when it closes. */
module Sessions {

  datatype Option<T> = None | Some(value: T)

  /** The id of the text channel where `/ponto` was issued. */
  type ChannelId = string

  /** A wall-clock time label (toLocaleTimeString); opaque here. */
  type TimeLabel = string

  /** The kinds of timeline entry, by the names the bot shows. */
  datatype EntryKind = Inicio | Pausa | Volta | Termino

  datatype Entry = Entry(kind: EntryKind, time: TimeLabel)

  /** The record stored per user. `pauseStart` is absent until the first pause
      and, since resuming never clears it, stays set from then on. All instants
      and durations are milliseconds. */
  datatype Session = Session(
    start: int,
    pauseDuration: int,
    isPaused: bool,
    pauseStart: Option<int>,
    timestamps: seq<Entry>,
    channelId: ChannelId)

  /** The timeline always reads Início, Pausa, Volta, Pausa, Volta, ...; the
      session is paused exactly when the last entry is a Pausa, and a paused
      session knows when its pause began. */
  ghost predicate WellFormed(s: Session) {
    && |s.timestamps| >= 1
    && s.timestamps[0].kind == Inicio
    && (forall i :: 1 <= i < |s.timestamps| ==>
          s.timestamps[i].kind == (if i % 2 == 1 then Pausa else Volta))
    && (s.isPaused <==> |s.timestamps| % 2 == 0)
    && (s.isPaused ==> s.pauseStart.Some?)
  }

  /** The session `/ponto` creates at `now`. */
  function Opened(now: int, channel: ChannelId, stamp: TimeLabel): (r: Session)
    ensures WellFormed(r) && !r.isPaused && r.timestamps[|r.timestamps| - 1].kind == Inicio
  {
    Session(now, 0, false, None, [Entry(Inicio, stamp)], channel)
  }

  /** The `pausar` step on a running session. */
  function Paused(s: Session, now: int, stamp: TimeLabel): (r: Session)
    ensures WellFormed(s) && !s.isPaused ==> WellFormed(r) && r.isPaused
  {
    s.(isPaused := true, pauseStart := Some(now), timestamps := s.timestamps + [Entry(Pausa, stamp)])
  }

  /** The `reabrir` step on a paused session; `pauseStart` is left as it was. */
  function Resumed(s: Session, now: int, stamp: TimeLabel): (r: Session)
    requires s.pauseStart.Some?
    ensures WellFormed(s) && s.isPaused ==> WellFormed(r) && !r.isPaused
  {
    s.(pauseDuration := s.pauseDuration + (now - s.pauseStart.value),
       isPaused := false,
       timestamps := s.timestamps + [Entry(Volta, stamp)])
  }

  /** The duration recorded when the session closes at `now`: elapsed time
      minus the pauses already resumed. A pause still in progress is NOT
      subtracted. */
  function Worked(s: Session, now: int): int {
    now - s.start - s.pauseDuration
  }

  /** Reference definition: the time actually spent working up to `now`, an
      in-progress pause excluded. */
  function ActiveWorked(s: Session, now: int): int
    requires s.isPaused ==> s.pauseStart.Some?
  {
    if s.isPaused then s.pauseStart.value - s.start - s.pauseDuration else now - s.start - s.pauseDuration
  }

  /** The recorded duration equals the time actually worked, plus the pause in
      progress when the session is closed while paused. */
  lemma WorkedIncludesOpenPause(s: Session, now: int)
    requires s.isPaused ==> s.pauseStart.Some?
    ensures !s.isPaused ==> Worked(s, now) == ActiveWorked(s, now)
    ensures s.isPaused ==> Worked(s, now) == ActiveWorked(s, now) + (now - s.pauseStart.value)
  {
  }

  /** Pausing and resuming at the same instant leaves the accounting as it was:
      same start, same accumulated pause, same recorded duration at any later
      close; only the two timeline entries are added. */
  lemma PauseResumeSameInstant(s: Session, t: int, l1: TimeLabel, l2: TimeLabel, now: int)
    requires !s.isPaused
    ensures Resumed(Paused(s, t, l1), t, l2).start == s.start
    ensures Resumed(Paused(s, t, l1), t, l2).pauseDuration == s.pauseDuration
    ensures !Resumed(Paused(s, t, l1), t, l2).isPaused
    ensures Worked(Resumed(Paused(s, t, l1), t, l2), now) == Worked(s, now)
    ensures Resumed(Paused(s, t, l1), t, l2).timestamps == s.timestamps + [Entry(Pausa, l1), Entry(Volta, l2)]
  {
  }

  /** Start at 0, pause at 5000, resume at 8000, close at 10000: 7000 ms are
      recorded. Closing at 10000 while still paused since 5000 records 10000 ms,
      of which only 5000 were worked. */
  lemma Scenarios()
    ensures Worked(Resumed(Paused(Opened(0, "c", "t0"), 5000, "t1"), 8000, "t2"), 10000) == 7000
    ensures Worked(Paused(Opened(0, "c", "t0"), 5000, "t1"), 10000) == 10000
    ensures ActiveWorked(Paused(Opened(0, "c", "t0"), 5000, "t1"), 10000) == 5000
  {
  }

  /** What a clock that never runs backwards guarantees at instant `now`: the
      accumulated pause is non-negative and fits, with the start, before `now`
      and before the pause in progress, which itself began by `now`. */
  ghost predicate Consistent(s: Session, now: int) {
    && 0 <= s.pauseDuration
    && s.start + s.pauseDuration <= now
    && (s.isPaused ==> s.pauseStart.Some? && s.start + s.pauseDuration <= s.pauseStart.value <= now)
  }

  /** A consistent session never records a negative duration, nor more than the
      wall time since its start. */
  lemma WorkedBounds(s: Session, now: int)
    requires Consistent(s, now)
    ensures 0 <= Worked(s, now) <= now - s.start
  {
  }

  /** A button press on a session, with the instant and the time label of the
      moment it is handled. */
  datatype Press = PressPause(at: int, stamp: TimeLabel) | PressResume(at: int, stamp: TimeLabel)

  /** A press as the handler treats it: pausing a paused session and resuming
      a running one are refused and change nothing. */
  function Apply(s: Session, p: Press): (r: Session)
    requires WellFormed(s)
    ensures WellFormed(r)
  {
    match p
    case PressPause(t, l) => if s.isPaused then s else Paused(s, t, l)
    case PressResume(t, l) => if !s.isPaused then s else Resumed(s, t, l)
  }

  /** The session after a series of presses, in order. */
  function Replay(s: Session, ps: seq<Press>): (r: Session)
    requires WellFormed(s)
    ensures WellFormed(r)
    ensures r.start == s.start && r.channelId == s.channelId
    ensures |r.timestamps| >= |s.timestamps| && r.timestamps[..|s.timestamps|] == s.timestamps
    decreases |ps|
  {
    if ps == [] then s else Replay(Apply(s, ps[0]), ps[1..])
  }

  /** The presses come at instants that never decrease, starting from `t`. */
  ghost predicate Chronological(t: int, ps: seq<Press>)
    decreases |ps|
  {
    ps == [] || (t <= ps[0].at && Chronological(ps[0].at, ps[1..]))
  }

  /** The instant of the last press, or `t` when there is none. */
  function LastTime(t: int, ps: seq<Press>): int
    decreases |ps|
  {
    if ps == [] then t else LastTime(ps[0].at, ps[1..])
  }

  /** One press keeps a session consistent, the clock having moved forward. */
  lemma ApplyConsistent(s: Session, t: int, p: Press)
    requires WellFormed(s) && Consistent(s, t) && t <= p.at
    ensures Consistent(Apply(s, p), p.at)
  {
  }

  /** A consistent session stays so as the clock moves on. */
  lemma ConsistentLater(s: Session, t: int, later: int)
    requires Consistent(s, t) && t <= later
    ensures Consistent(s, later)
  {
  }

  /** Any series of presses in clock order keeps a session consistent. */
  lemma {:induction false} ReplayConsistent(s: Session, t: int, ps: seq<Press>)
    requires WellFormed(s) && Consistent(s, t) && Chronological(t, ps)
    ensures t <= LastTime(t, ps)
    ensures Consistent(Replay(s, ps), LastTime(t, ps))
    decreases |ps|
  {
    if ps != [] {
      ApplyConsistent(s, t, ps[0]);
      ReplayConsistent(Apply(s, ps[0]), ps[0].at, ps[1..]);
    }
  }

  /** If the clock never runs backwards, the duration a session records when it
      closes is never negative and never exceeds the time since `/ponto`,
      whatever pauses and resumes happened in between. */
  lemma RecordedDurationBounds(t0: int, channel: ChannelId, stamp: TimeLabel, ps: seq<Press>, now: int)
    requires Chronological(t0, ps) && LastTime(t0, ps) <= now
    ensures 0 <= Worked(Replay(Opened(t0, channel, stamp), ps), now) <= now - t0
  {
    var s := Opened(t0, channel, stamp);
    ReplayConsistent(s, t0, ps);
    ConsistentLater(Replay(s, ps), LastTime(t0, ps), now);
    WorkedBounds(Replay(s, ps), now);
  }
}
