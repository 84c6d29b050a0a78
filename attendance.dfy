/** The bot's process-wide state and its event handlers: the `/ponto` command,
    the `pausar`, `reabrir` and `terminar` buttons, a voice-state update and one
    tick of a session's watchdog. The clock (`now`), the day key (`today`), the
    time labels shown in the timeline and the result of the voice-channel lookup
    (`inRequiredChannel`) are supplied by the caller. */
module Attendance {
  import opened Duration
  import opened Ledger
  import opened Sessions

  /** What a handler answers; the comments give the message the bot sends. */
  datatype Reply =
    | WrongChannel     // "Favor entrar no canal de voz correto para iniciar o ponto."
    | AlreadyActive    // "..., você já iniciou o ponto."
    | Started          // "... iniciou o ponto!"
    | NoActiveSession  // "Você não tem um ponto ativo."
    | AlreadyPaused    // "Você já está em pausa."
    | NotPaused        // "O ponto não está pausado."
    | NowPaused        // "... pausou o ponto."
    | NowWorking       // "... reabriu o ponto."
    // "... terminou o ponto. Duração total: ..." after `terminar`; "Ponto fechado pois o
    // usuário ... não estava conectado ao canal de voz correto." after leaving the voice channel
    | Ended(worked: int, shown: Hms, history: seq<Entry>)
    | Dropped          // "Usuário ... foi desconectado por não estar na ligação!"
    | Unchanged        // the event is ignored

  class Tracker {
    /** `pontoData`: the open session of each user. */
    var sessions: map<UserId, Session>
    /** `dailyData`: the accumulated milliseconds per user and day. */
    var ledger: Daily

    ghost predicate Valid()
      reads this
    {
      forall u :: u in sessions ==> WellFormed(sessions[u])
    }

    /** Every open session is consistent with a clock reading `now`. */
    ghost predicate ClockedAt(now: int)
      reads this
    {
      forall u :: u in sessions ==> Consistent(sessions[u], now)
    }

    /** The process starts with no session and with the ledger read from its
        file (`stored`, empty when there is no file). */
    constructor (stored: Daily)
      ensures Valid() && sessions == map[] && ledger == stored
    {
      sessions := map[];
      ledger := stored;
    }

    /** `/ponto`: the voice-channel check comes first, then the one-session-per-
        user check; only when both pass is a fresh session stored. */
    method Start(user: UserId, inRequiredChannel: bool, channel: ChannelId, now: int, stamp: TimeLabel)
      returns (reply: Reply)
      requires Valid()
      modifies this
      ensures Valid()
      ensures ledger == old(ledger)
      ensures !inRequiredChannel ==> reply == WrongChannel && sessions == old(sessions)
      ensures inRequiredChannel && user in old(sessions) ==> reply == AlreadyActive && sessions == old(sessions)
      ensures inRequiredChannel && user !in old(sessions) ==>
        && reply == Started
        && sessions == old(sessions)[user := Opened(now, channel, stamp)]
        && sessions[user].start == now && sessions[user].pauseDuration == 0 && !sessions[user].isPaused
        && sessions[user].timestamps == [Entry(Inicio, stamp)]
      ensures old(ClockedAt(now)) ==> ClockedAt(now)
    {
      if !inRequiredChannel {
        return WrongChannel;
      }
      if user in sessions {
        return AlreadyActive;
      }
      sessions := sessions[user := Opened(now, channel, stamp)];
      reply := Started;
    }

    /** `pausar`: refused without a session or when already paused; otherwise
        the pause begins at `now` and a Pausa entry is appended. */
    method Pause(user: UserId, now: int, stamp: TimeLabel) returns (reply: Reply)
      requires Valid()
      modifies this
      ensures Valid()
      ensures ledger == old(ledger)
      ensures user !in old(sessions) ==> reply == NoActiveSession && sessions == old(sessions)
      ensures user in old(sessions) && old(sessions)[user].isPaused ==>
        reply == AlreadyPaused && sessions == old(sessions)
      ensures user in old(sessions) && !old(sessions)[user].isPaused ==>
        && reply == NowPaused
        && sessions == old(sessions)[user := Paused(old(sessions)[user], now, stamp)]
        && sessions[user].isPaused && sessions[user].pauseStart == Some(now)
        && sessions[user].start == old(sessions)[user].start
        && sessions[user].pauseDuration == old(sessions)[user].pauseDuration
        && sessions[user].timestamps == old(sessions)[user].timestamps + [Entry(Pausa, stamp)]
      ensures old(ClockedAt(now)) ==> ClockedAt(now)
    {
      if user !in sessions {
        return NoActiveSession;
      }
      var s := sessions[user];
      if s.isPaused {
        return AlreadyPaused;
      }
      s := s.(pauseStart := Some(now));
      s := s.(isPaused := true);
      s := s.(timestamps := s.timestamps + [Entry(Pausa, stamp)]);
      sessions := sessions[user := s];
      reply := NowPaused;
    }

    /** `reabrir`: refused without a session or when not paused; otherwise the
        pause that began at `pauseStart` is added to `pauseDuration`, the session
        runs again, and `pauseStart` keeps its value. */
    method Resume(user: UserId, now: int, stamp: TimeLabel) returns (reply: Reply)
      requires Valid()
      modifies this
      ensures Valid()
      ensures ledger == old(ledger)
      ensures user !in old(sessions) ==> reply == NoActiveSession && sessions == old(sessions)
      ensures user in old(sessions) && !old(sessions)[user].isPaused ==>
        reply == NotPaused && sessions == old(sessions)
      ensures user in old(sessions) && old(sessions)[user].isPaused ==>
        && reply == NowWorking
        && sessions == old(sessions)[user := Resumed(old(sessions)[user], now, stamp)]
        && !sessions[user].isPaused
        && sessions[user].pauseDuration
             == old(sessions)[user].pauseDuration + (now - old(sessions)[user].pauseStart.value)
        && sessions[user].pauseStart == old(sessions)[user].pauseStart
        && sessions[user].start == old(sessions)[user].start
        && sessions[user].timestamps == old(sessions)[user].timestamps + [Entry(Volta, stamp)]
      ensures old(ClockedAt(now)) ==> ClockedAt(now)
    {
      if user !in sessions {
        return NoActiveSession;
      }
      var s := sessions[user];
      if !s.isPaused {
        return NotPaused;
      }
      var paused := now - s.pauseStart.value;
      s := s.(pauseDuration := s.pauseDuration + paused);
      s := s.(isPaused := false);
      s := s.(timestamps := s.timestamps + [Entry(Volta, stamp)]);
      sessions := sessions[user := s];
      reply := NowWorking;
    }

    /** Closing the user's session: the duration is `now - start - pauseDuration`
        (a pause in progress included), it is added to the user's total for
        `today`, and the session is removed. The reply carries the duration, its
        formatted reading and the timeline with a Termino entry appended. With a
        clock that never ran backwards the duration is not negative and no
        ledger total goes down. */
    method Close(user: UserId, now: int, today: DateKey, stamp: TimeLabel) returns (reply: Reply)
      requires Valid() && user in sessions
      modifies this
      ensures Valid()
      ensures sessions == old(sessions) - {user}
      ensures ledger == Record(old(ledger), user, today, Worked(old(sessions)[user], now))
      ensures reply == Ended(Worked(old(sessions)[user], now),
                             FormatDuration(Worked(old(sessions)[user], now)),
                             old(sessions)[user].timestamps + [Entry(Termino, stamp)])
      ensures old(ClockedAt(now)) ==> ClockedAt(now) && reply.worked >= 0
      ensures old(ClockedAt(now)) ==> forall u, d :: DayTotal(ledger, u, d) >= DayTotal(old(ledger), u, d)
    {
      var s := sessions[user];
      var total := Worked(s, now);
      var shown := FormatDuration(total);
      s := s.(timestamps := s.timestamps + [Entry(Termino, stamp)]);
      ghost var before := ledger;
      ledger := Record(ledger, user, today, total);
      sessions := sessions - {user};
      reply := Ended(total, shown, s.timestamps);
      if old(ClockedAt(now)) {
        WorkedBounds(old(sessions)[user], now);
        RecordNeverDecreases(before, user, today, total);
      }
    }

    /** `terminar`: refused without a session; otherwise the session closes,
        whether paused or not. */
    method End(user: UserId, now: int, today: DateKey, stamp: TimeLabel) returns (reply: Reply)
      requires Valid()
      modifies this
      ensures Valid()
      ensures user !in old(sessions) ==>
        reply == NoActiveSession && sessions == old(sessions) && ledger == old(ledger)
      ensures user in old(sessions) ==>
        && sessions == old(sessions) - {user}
        && ledger == Record(old(ledger), user, today, Worked(old(sessions)[user], now))
        && reply == Ended(Worked(old(sessions)[user], now),
                          FormatDuration(Worked(old(sessions)[user], now)),
                          old(sessions)[user].timestamps + [Entry(Termino, stamp)])
      ensures old(ClockedAt(now)) ==> ClockedAt(now)
      ensures old(ClockedAt(now)) ==> forall u, d :: DayTotal(ledger, u, d) >= DayTotal(old(ledger), u, d)
    {
      if user !in sessions {
        return NoActiveSession;
      }
      reply := Close(user, now, today, stamp);
    }

    /** A voice-state update: a user with an open session whose new voice
        channel is not the required one has the session closed exactly as
        `terminar` closes it; any other update changes nothing. */
    method LeaveVoice(user: UserId, inRequiredChannel: bool, now: int, today: DateKey, stamp: TimeLabel)
      returns (reply: Reply)
      requires Valid()
      modifies this
      ensures Valid()
      ensures user !in old(sessions) || inRequiredChannel ==>
        reply == Unchanged && sessions == old(sessions) && ledger == old(ledger)
      ensures user in old(sessions) && !inRequiredChannel ==>
        && sessions == old(sessions) - {user}
        && ledger == Record(old(ledger), user, today, Worked(old(sessions)[user], now))
        && reply == Ended(Worked(old(sessions)[user], now),
                          FormatDuration(Worked(old(sessions)[user], now)),
                          old(sessions)[user].timestamps + [Entry(Termino, stamp)])
      ensures old(ClockedAt(now)) ==> ClockedAt(now)
      ensures old(ClockedAt(now)) ==> forall u, d :: DayTotal(ledger, u, d) >= DayTotal(old(ledger), u, d)
    {
      if user in sessions && !inRequiredChannel {
        reply := Close(user, now, today, stamp);
      } else {
        reply := Unchanged;
      }
    }

    /** One watchdog tick. The watchdog of a session is live exactly while the
        session is open (closing it clears the interval), so a tick for a user
        without a session does nothing. Otherwise, when the user is no longer in
        the required voice channel the session is deleted and nothing is
        recorded; when the user is still there nothing changes. */
    method WatchdogTick(user: UserId, inRequiredChannel: bool) returns (reply: Reply)
      requires Valid()
      modifies this
      ensures Valid()
      ensures ledger == old(ledger)
      ensures user !in old(sessions) || inRequiredChannel ==> reply == Unchanged && sessions == old(sessions)
      ensures user in old(sessions) && !inRequiredChannel ==> reply == Dropped && sessions == old(sessions) - {user}
      ensures forall now :: old(ClockedAt(now)) ==> ClockedAt(now)
    {
      if user in sessions && !inRequiredChannel {
        sessions := sessions - {user};
        reply := Dropped;
      } else {
        reply := Unchanged;
      }
    }
  }
}
