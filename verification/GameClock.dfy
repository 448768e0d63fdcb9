/** A live game as a value, and its authoritative clock. Instants are microseconds, clock times milliseconds. */
module GameClock {
  import opened Common
  import opened Chess

  type UserId = nat

  datatype Color = White | Black

  datatype GameStatus = Active | Checkmate | Stalemate | Drawn | Resigned | TimedOut | Aborted

  datatype GameResult = WhiteWins | BlackWins | Draw

  datatype Reason =
    | ByCheckmate | ByStalemate | ByDraw | ByRepetition | ByResignation | ByIdentityFailure | ByAgreement
    | ByDisconnectTimeout | ByClockTimeout | ByAutoAbort

  datatype Game = Game(
    whiteId: UserId, blackId: UserId,
    initialMs: nat, incrementMs: nat, whiteMs: int, blackMs: int,
    clockStart: Option<int>, absent: Option<UserId>, graceUntil: Option<int>,
    status: GameStatus, result: Option<GameResult>, fen: string,
    startedAt: int, endedAt: Option<int>, reason: Option<Reason>)

  datatype PauseReason = Disconnected | GameOver

  datatype Snapshot = Snapshot(whiteMs: int, blackMs: int, activeColor: Option<Color>, paused: Option<PauseReason>)

  function ActiveColor<P>(c: Rules<P>, g: Game): Option<Color>
  {
    if g.status != Active then None
    else if c.whiteToMove(c.parse(g.fen)) then Some(White) else Some(Black)
  }

  function ActivePlayer<P>(c: Rules<P>, g: Game): Option<UserId>
  {
    match ActiveColor(c, g)
    case Some(White) => Some(g.whiteId)
    case Some(Black) => Some(g.blackId)
    case None => None
  }

  /** max(0, int(seconds * 1000)): truncation, and never negative. */
  function ElapsedMs(from: int, to: int): nat { if to < from then 0 else (to - from) / 1000 }

  predicate ClockRunning(g: Game)
  {
    g.status == Active && g.clockStart.Some? && g.graceUntil.None?
  }

  function Capture<P>(c: Rules<P>, g: Game, now: int): Snapshot
  {
    var color := ActiveColor(c, g);
    var elapsed := if ClockRunning(g) then ElapsedMs(g.clockStart.value, now) else 0;
    var paused := if g.graceUntil.Some? then Some(Disconnected)
                  else if g.status != Active then Some(GameOver) else None;
    Snapshot(
      if ClockRunning(g) && color == Some(White) then Max(0, g.whiteMs - elapsed) else g.whiteMs,
      if ClockRunning(g) && color == Some(Black) then Max(0, g.blackMs - elapsed) else g.blackMs,
      if paused.None? then color else None,
      paused)
  }

  /** `active_remaining_time_ms`: one millisecond stands for "not running out". */
  function RemainingMs<P>(c: Rules<P>, g: Game, now: int): int
  {
    if g.status != Active || g.graceUntil.Some? then 1
    else
      match Capture(c, g, now).activeColor
      case Some(White) => Capture(c, g, now).whiteMs
      case Some(Black) => Capture(c, g, now).blackMs
      case None => 1
  }

  function SideMs(g: Game, color: Color): int { if color == White then g.whiteMs else g.blackMs }
}
