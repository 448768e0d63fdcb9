/** Clock accounting over whole runs: what a side is charged against the time its clock really ran. */
module ClockLaws {
  import opened Common
  import opened Chess
  import opened GameClock
  import opened GameOutcomes
  import opened GameService
  import opened GameLaws

  /** White moves first, and then the sides take turns. */
  function Turn(row: Row): Color { if |row.moves| % 2 == 0 then White else Black }

  function MovesBy(color: Color, n: nat): nat { if color == White then (n + 1) / 2 else n / 2 }

  /** A game is on and nobody is being waited for. */
  predicate Ticking(g: Game) { g.status == Active && g.graceUntil.None? }

  predicate OnMove(row: Row, color: Color) { Ticking(row.game) && Turn(row) == color }

  /** The instant of the last request that changed the game; its creation, at first. */
  function LastChange<P>(c: Rules<P>, row: Row, start: int, events: seq<GameEvent>): int
  {
    match LastChanger(c, row, events)
    case None => start
    case Some(e) => e.now
  }

  /** One side's account, kept from the requests alone: microseconds from change to change of the game while the side
      was on the move, how many of these stretches, and whether one was longer than the time the side had left. */
  datatype Account = Account(runUs: nat, charges: nat, clamped: bool)

  function RunUs(from: int, to: int): nat { if to < from then 0 else to - from }

  /** The account after a request turned `before`, last changed at `since`, into `after`. */
  function Charge(before: Row, since: int, e: GameEvent, after: Row, color: Color, a: Account): Account
  {
    var us := RunUs(since, e.now);
    if OnMove(before, color) && after != before
    then Account(a.runUs + us, a.charges + 1, a.clamped || SideMs(before.game, color) < us / 1000)
    else a
  }

  function AccountOf<P>(c: Rules<P>, row: Row, start: int, events: seq<GameEvent>, color: Color): Account
  {
    if events == [] then Account(0, 0, false)
    else
      var n := |events| - 1;
      Charge(RunRow(c, row, events[..n]), LastChange(c, row, start, events[..n]), events[n], RunRow(c, row, events),
             color, AccountOf(c, row, start, events[..n], color))
  }

  /** The side that lost on time, whose clock the code sets to zero. */
  predicate LostOnTime(g: Game, color: Color)
  {
    g.status == TimedOut && g.result == Some(if color == White then BlackWins else WhiteWins)
  }

  /** The time in microseconds a side should have left: its initial time and increments less the time it used. */
  function DueUs(row: Row, color: Color, usedUs: int): int
  {
    1000 * row.game.initialMs + 1000 * (row.game.incrementMs * MovesBy(color, |row.moves|)) - usedUs
  }

  ghost predicate Accounted(row: Row, color: Color, a: Account)
  {
    && SideMs(row.game, color) >= 0
    && (LostOnTime(row.game, color) ==> SideMs(row.game, color) == 0)
    && (!LostOnTime(row.game, color) && !a.clamped ==>
          0 <= 1000 * SideMs(row.game, color) - DueUs(row, color, a.runUs) <= 999 * a.charges)
  }

  // ---------------------------------------------------------------- when the clock was started

  lemma StepStartsClock<P>(c: Rules<P>, row: Row, e: GameEvent)
    requires StepRow(c, row, e) != row
    ensures Ticking(StepRow(c, row, e).game) ==> StepRow(c, row, e).game.clockStart == Some(e.now)
  {
    hide Capture, RemainingMs, ActivePlayer, BoardFor, IsCheckmate, IsStalemate, IsFiftyMoves, IsRepetition;
  }

  /** In every run a ticking clock was started at the last change of the game: every move, and every return of an
      absentee, restarts it, and nothing else that leaves it ticking touches it. */
  lemma {:induction false} ClockStartsAtLastChange<P>(c: Rules<P>, row: Row, start: int, events: seq<GameEvent>)
    requires Ticking(row.game) ==> row.game.clockStart == Some(start)
    ensures var g := RunRow(c, row, events).game;
            Ticking(g) ==> g.clockStart == Some(LastChange(c, row, start, events))
  {
    hide StepRow;
    if events != [] {
      var n := |events| - 1;
      ClockStartsAtLastChange(c, row, start, events[..n]);
      if RunRow(c, row, events) != RunRow(c, row, events[..n]) {
        StepStartsClock(c, RunRow(c, row, events[..n]), events[n]);
      }
    }
  }

  // ---------------------------------------------------------------- one request

  function CapturedMs<P>(c: Rules<P>, g: Game, now: int, color: Color): int
  {
    if ClockRunning(g) && ActiveColor(c, g) == Some(color)
    then Max(0, SideMs(g, color) - ElapsedMs(g.clockStart.value, now))
    else SideMs(g, color)
  }

  lemma CaptureIs<P>(c: Rules<P>, g: Game, now: int)
    ensures Capture(c, g, now).whiteMs == CapturedMs(c, g, now, White)
    ensures Capture(c, g, now).blackMs == CapturedMs(c, g, now, Black)
  {
  }

  /** Whatever a request does, each clock becomes its captured value, plus the increment for a move made. */
  ghost predicate Settles<P>(c: Rules<P>, row: Row, e: GameEvent, row': Row, color: Color)
  {
    && row'.game.initialMs == row.game.initialMs && row'.game.incrementMs == row.game.incrementMs
    && if LostOnTime(row'.game, color) then SideMs(row'.game, color) == 0 && |row'.moves| == |row.moves|
       else
         var moved := Turn(row) == color && |row'.moves| == |row.moves| + 1;
         && SideMs(row'.game, color)
            == CapturedMs(c, row.game, e.now, color) + (if moved then row.game.incrementMs else 0)
         && (|row'.moves| == |row.moves| || |row'.moves| == |row.moves| + 1)
  }

  lemma OutcomeKeepsClocks<P>(c: Rules<P>, g: Game, b: seq<P>, now: int)
    requires b != [] && g.status == Active
    ensures var g' := AfterBoardOutcome(c, g, b, now);
            && g'.whiteMs == g.whiteMs && g'.blackMs == g.blackMs && g'.initialMs == g.initialMs
            && g'.incrementMs == g.incrementMs
            && g'.status != TimedOut
  {
  }

  lemma MoveSettles<P(!new)>(c: Rules<P>, row: Row, row': Row, b: seq<P>, uci: Uci, now: int, color: Color)
    requires Lawful(c) && Recorded(c, row, b) && row.game.status == Active && Extends(c, row, row', b, uci, now)
    ensures forall e: GameEvent | e.now == now :: Settles(c, row, e, row', color)
  {
    var g := Stamped(c, row.game, b, uci, now);
    CaptureIs(c, row.game, now);
    RecordedLength(c, row, b);
    assert c.whiteToMove(c.parse(row.game.fen)) == c.whiteToMove(Now(b));
    ExtendOne(c, row, row', b, uci, now);
    OutcomeKeepsClocks(c, g, b + [c.push(Now(b), uci)], now);
    hide Capture, AfterBoardOutcome, CapturedMs, Lawful, Recorded;
  }

  lemma OtherSettles<P>(c: Rules<P>, row: Row, e: GameEvent, color: Color)
    requires row.game.status == Active && Lifecycle(row.game) && !e.MoveMade? && StepRow(c, row, e) != row
    ensures Settles(c, row, e, StepRow(c, row, e), color)
  {
    CaptureIs(c, row.game, e.now);
    hide Capture, RemainingMs, ActivePlayer;
  }

  lemma FlagSettles<P>(c: Rules<P>, row: Row, e: GameEvent, color: Color)
    requires row.game.status == Active && e.MoveMade?
    requires var row' := StepRow(c, row, e); row' != row && row'.moves == row.moves
    ensures Settles(c, row, e, StepRow(c, row, e), color)
  {
    CaptureIs(c, row.game, e.now);
    hide Capture, RemainingMs, ActivePlayer, BoardFor, AfterBoardOutcome;
  }

  lemma StepSettles<P(!new)>(c: Rules<P>, row: Row, e: GameEvent, b: seq<P>, color: Color)
    requires Lawful(c) && Inv(c, row, b) && StepRow(c, row, e) != row
    ensures Settles(c, row, e, StepRow(c, row, e), color)
  {
    assert row.game.status == Active;
    if e.MoveMade? {
      MoveCases(c, row, e.user, e.uci, e.now, b);
      if Extends(c, row, StepRow(c, row, e), b, e.uci, e.now) {
        MoveSettles(c, row, StepRow(c, row, e), b, e.uci, e.now, color);
      } else {
        FlagSettles(c, row, e, color);
      }
    } else {
      OtherSettles(c, row, e, color);
    }
  }

  lemma ChargeArithmetic(due: int, gainUs: int, us: nat, ms: int, charges: int)
    requires us / 1000 <= ms && 0 <= 1000 * ms - due <= 999 * charges
    ensures 0 <= 1000 * (ms - us / 1000) + gainUs - (due + gainUs - us) <= 999 * (charges + 1)
  {
  }

  /** A move earns its side one increment. */
  lemma MoveEarns(row: Row, row': Row, color: Color, usedUs: int)
    requires row'.game.initialMs == row.game.initialMs && row'.game.incrementMs == row.game.incrementMs
    requires |row'.moves| == |row.moves| || |row'.moves| == |row.moves| + 1
    ensures DueUs(row', color, usedUs)
         == DueUs(row, color, usedUs)
            + if Turn(row) == color && |row'.moves| == |row.moves| + 1 then 1000 * row.game.incrementMs else 0
  {
    var n, increment := |row.moves|, row.game.incrementMs;
    assert MovesBy(color, n + 1) == MovesBy(color, n) + if Turn(row) == color then 1 else 0;
    assert increment * (MovesBy(color, n) + 1) == increment * MovesBy(color, n) + increment;
  }

  lemma TurnIsActive<P(!new)>(c: Rules<P>, row: Row, b: seq<P>)
    requires Lawful(c) && Recorded(c, row, b) && row.game.status == Active
    ensures ActiveColor(c, row.game) == Some(Turn(row))
  {
    RecordedLength(c, row, b);
    assert c.whiteToMove(c.parse(row.game.fen)) == c.whiteToMove(Now(b));
  }

  lemma DueLess(row: Row, color: Color, usedUs: int, us: int)
    ensures DueUs(row, color, usedUs + us) == DueUs(row, color, usedUs) - us
  {
  }

  lemma SettledAccount<P>(c: Rules<P>, row: Row, since: int, e: GameEvent, row': Row, color: Color, a: Account)
    requires row.game.status == Active && row' != row && Settles(c, row, e, row', color) && Accounted(row, color, a)
    requires Lifecycle(row.game) && ActiveColor(c, row.game) == Some(Turn(row))
    requires Ticking(row.game) ==> row.game.clockStart == Some(since)
    ensures Accounted(row', color, Charge(row, since, e, row', color, a))
  {
    var g, us := row.game, RunUs(since, e.now);
    assert ElapsedMs(since, e.now) == us / 1000;
    assert ClockRunning(g) == Ticking(g);
    hide ActiveColor, DueUs, Lifecycle, ElapsedMs;
    MoveEarns(row, row', color, a.runUs);
    if OnMove(row, color) {
      DueLess(row', color, a.runUs, us);
      if !a.clamped && us / 1000 <= SideMs(g, color) {
        ChargeArithmetic(DueUs(row, color, a.runUs), DueUs(row', color, a.runUs) - DueUs(row, color, a.runUs), us,
          SideMs(g, color), a.charges);
      }
    }
  }

  lemma StepAccounted<P(!new)>(c: Rules<P>, row: Row, since: int, e: GameEvent, b: seq<P>, color: Color, a: Account)
    requires Lawful(c) && Inv(c, row, b) && Accounted(row, color, a)
    requires Ticking(row.game) ==> row.game.clockStart == Some(since)
    ensures Accounted(StepRow(c, row, e), color, Charge(row, since, e, StepRow(c, row, e), color, a))
  {
    var row' := StepRow(c, row, e);
    if row' != row {
      StepSettles(c, row, e, b, color);
      assert row.game.status == Active;
      TurnIsActive(c, row, b);
      assert Lifecycle(row.game);
      hide StepRow, Inv, Lawful, Settles, Accounted, Lifecycle, Charge;
      SettledAccount(c, row, since, e, row', color, a);
    }
  }

  // ---------------------------------------------------------------- whole runs

  lemma {:induction false} RunAccounted<P(!new)>(c: Rules<P>, row: Row, start: int, events: seq<GameEvent>, b: seq<P>,
      color: Color)
    requires Lawful(c) && Inv(c, row, b) && Accounted(row, color, Account(0, 0, false))
    requires Ticking(row.game) ==> row.game.clockStart == Some(start)
    ensures Accounted(RunRow(c, row, events), color, AccountOf(c, row, start, events, color))
  {
    hide Lawful, Inv, StepRow, Accounted, Charge, LastChange;
    if events != [] {
      var n := |events| - 1;
      RunAccounted(c, row, start, events[..n], b, color);
      var mid := RunKeeps(c, row, events[..n], b);
      ClockStartsAtLastChange(c, row, start, events[..n]);
      StepAccounted(c, RunRow(c, row, events[..n]), LastChange(c, row, start, events[..n]), events[n], mid, color,
                    AccountOf(c, row, start, events[..n], color));
    }
  }

  lemma CreatedAccount<P(!new)>(
    c: Rules<P>, whiteId: UserId, blackId: UserId, initialMs: nat, incrementMs: nat, start: int, color: Color)
    requires Lawful(c)
    ensures var created := Created(whiteId, blackId, initialMs, incrementMs, start);
            && Inv(c, created, [c.start]) && Accounted(created, color, Account(0, 0, false))
            && created.game.clockStart == Some(start)
  {
    NewGameInv(c, whiteId, blackId, initialMs, incrementMs, start);
  }

  /** In every run a side that was never clamped at zero has at least its initial time and its increments less the time
      it was on the move up to the last change of the game, and less than a millisecond more for each stretch charged.
      The side that lost on time has zero. */
  lemma ClocksAccountForRunningTime<P(!new)>(
    c: Rules<P>, whiteId: UserId, blackId: UserId, initialMs: nat, incrementMs: nat, start: int, events: seq<GameEvent>,
    color: Color)
    requires Lawful(c)
    ensures var created := Created(whiteId, blackId, initialMs, incrementMs, start);
            var row, a := RunRow(c, created, events), AccountOf(c, created, start, events, color);
            && SideMs(row.game, color) >= 0
            && (LostOnTime(row.game, color) ==> SideMs(row.game, color) == 0)
            && (!LostOnTime(row.game, color) && !a.clamped ==>
                  0 <= 1000 * SideMs(row.game, color) - DueUs(row, color, a.runUs) <= 999 * a.charges)
  {
    hide Lawful, RunRow, AccountOf;
    CreatedAccount(c, whiteId, blackId, initialMs, incrementMs, start, color);
    RunAccounted(c, Created(whiteId, blackId, initialMs, incrementMs, start), start, events, [c.start], color);
  }

  // ---------------------------------------------------------------- the wall clock

  function LastInstant(start: int, events: seq<GameEvent>): int
  {
    if events == [] then start else events[|events| - 1].now
  }

  predicate InOrder(start: int, events: seq<GameEvent>)
  {
    events == []
    || (InOrder(start, events[..|events| - 1])
        && LastInstant(start, events[..|events| - 1]) <= LastInstant(start, events))
  }

  /** Wall-clock microseconds during which a side was on the move, from request to request whether or not it changed
      anything; time with the game paused or over is nobody's. */
  function WallUs<P>(c: Rules<P>, row: Row, start: int, events: seq<GameEvent>, color: Color): int
  {
    if events == [] then 0
    else
      var n := |events| - 1;
      var passed := events[n].now - LastInstant(start, events[..n]);
      WallUs(c, row, start, events[..n], color) + if OnMove(RunRow(c, row, events[..n]), color) then passed else 0
  }

  lemma {:induction false} ChangedInOrder<P>(c: Rules<P>, row: Row, start: int, events: seq<GameEvent>)
    requires InOrder(start, events)
    ensures start <= LastChange(c, row, start, events) <= LastInstant(start, events)
  {
    hide RunRow;
    if events != [] { ChangedInOrder(c, row, start, events[..|events| - 1]); }
  }

  /** With requests in order, the account is the wall-clock time the side was on the move up to the last change. */
  lemma {:induction false} AccountIsWallTime<P>(c: Rules<P>, row: Row, start: int, events: seq<GameEvent>, color: Color)
    requires InOrder(start, events)
    ensures WallUs(c, row, start, events, color)
         == AccountOf(c, row, start, events, color).runUs
            + if OnMove(RunRow(c, row, events), color)
              then LastInstant(start, events) - LastChange(c, row, start, events)
              else 0
  {
    hide StepRow, OnMove;
    if events != [] {
      var n := |events| - 1;
      AccountIsWallTime(c, row, start, events[..n], color);
      ChangedInOrder(c, row, start, events[..n]);
    }
  }

  function ShownMs<P>(c: Rules<P>, g: Game, now: int, color: Color): int
  {
    if color == White then Capture(c, g, now).whiteMs else Capture(c, g, now).blackMs
  }

  lemma RunAsOf<P(!new)>(c: Rules<P>, row: Row, start: int, events: seq<GameEvent>, b: seq<P>, color: Color)
    returns (b': seq<P>)
    requires Lawful(c) && Inv(c, row, b) && Accounted(row, color, Account(0, 0, false)) && InOrder(start, events)
    requires Ticking(row.game) ==> row.game.clockStart == Some(start)
    ensures var row', since := RunRow(c, row, events), LastChange(c, row, start, events);
            && Inv(c, row', b') && since <= LastInstant(start, events)
            && (Ticking(row'.game) ==> row'.game.clockStart == Some(since))
            && Accounted(row', color, AccountOf(c, row, start, events, color))
  {
    hide *;
    RunAccounted(c, row, start, events, b, color);
    ClockStartsAtLastChange(c, row, start, events);
    ChangedInOrder(c, row, start, events);
    b' := RunKeeps(c, row, events, b);
  }

  lemma ReadClock<P(!new)>(c: Rules<P>, row: Row, b: seq<P>, since: int, now: int, color: Color, a: Account)
    requires Lawful(c) && Inv(c, row, b) && Accounted(row, color, a) && since <= now
    requires Ticking(row.game) ==> row.game.clockStart == Some(since)
    ensures var used := a.runUs + if OnMove(row, color) then now - since else 0;
            var shown := ShownMs(c, row.game, now, color);
            shown > 0 && !a.clamped ==> 0 <= 1000 * shown - DueUs(row, color, used) <= 999 * (a.charges + 1)
  {
    CaptureIs(c, row.game, now);
    if row.game.status == Active { TurnIsActive(c, row, b); }
    assert ClockRunning(row.game) == Ticking(row.game);
    assert now >= since ==> ElapsedMs(since, now) == (now - since) / 1000;
    hide Capture, ActiveColor, Lawful, Inv, DueUs, ElapsedMs;
    DueLess(row, color, a.runUs, now - since);
    var inTime := (now - since) / 1000 <= SideMs(row.game, color);
    if OnMove(row, color) && !a.clamped && inTime && !LostOnTime(row.game, color) {
      ChargeArithmetic(DueUs(row, color, a.runUs), 0, now - since, SideMs(row.game, color), a.charges);
    }
  }

  /** In every run with requests in order, and at any later instant, the clock a side is shown above zero is its initial
      time and increments less the wall-clock time it has been on the move, to within a millisecond for each stretch
      charged and one for the reading, always in the side's favour, unless it was clamped at zero before. */
  lemma ShownClockIsTrue<P(!new)>(
    c: Rules<P>, whiteId: UserId, blackId: UserId, initialMs: nat, incrementMs: nat, start: int, events: seq<GameEvent>,
    now: int, color: Color)
    requires Lawful(c) && InOrder(start, events) && LastInstant(start, events) <= now
    ensures var created := Created(whiteId, blackId, initialMs, incrementMs, start);
            var row, a := RunRow(c, created, events), AccountOf(c, created, start, events, color);
            var used := WallUs(c, created, start, events, color)
                        + if OnMove(row, color) then now - LastInstant(start, events) else 0;
            var shown := ShownMs(c, row.game, now, color);
            shown > 0 && !a.clamped ==> 0 <= 1000 * shown - DueUs(row, color, used) <= 999 * (a.charges + 1)
  {
    hide *;
    var created := Created(whiteId, blackId, initialMs, incrementMs, start);
    CreatedAccount(c, whiteId, blackId, initialMs, incrementMs, start, color);
    var row := RunRow(c, created, events);
    var since, a := LastChange(c, created, start, events), AccountOf(c, created, start, events, color);
    var b := RunAsOf(c, created, start, events, [c.start], color);
    ReadClock(c, row, b, since, now, color, a);
    AccountIsWallTime(c, created, start, events, color);
  }

  // ---------------------------------------------------------------- pauses

  /** While a game is paused its clocks stand still, at any instant. */
  lemma PausedClocksStandStill<P>(c: Rules<P>, g: Game, now: int)
    requires g.graceUntil.Some?
    ensures Capture(c, g, now).whiteMs == g.whiteMs && Capture(c, g, now).blackMs == g.blackMs
    ensures RemainingMs(c, g, now) == 1
  {
  }

  lemma SplitDivision(x: nat, y: nat)
    ensures x / 1000 + y / 1000 <= (x + y) / 1000 <= x / 1000 + y / 1000 + 1
  {
  }

  /** A pause from `t1` to `t2` costs at most a millisecond of drift, in the player's favour, against the clock
      that was never paused and started as much later as the pause lasted; the other clock is untouched. */
  lemma PauseCostsAtMostOneMs<P>(c: Rules<P>, g: Game, user: UserId, graceSeconds: int, t1: int, t2: int, t3: int,
      color: Color)
    requires ClockRunning(g) && g.clockStart.value <= t1 <= t2 <= t3 && SideMs(g, color) >= 0
    ensures var paused := AfterPause(g, user, Capture(c, g, t1), t1, graceSeconds);
            var unpaused := g.(clockStart := Some(g.clockStart.value + (t2 - t1)));
            var with, without := CapturedMs(c, AfterResume(paused, t2), t3, color), CapturedMs(c, unpaused, t3, color);
            without <= with <= without + 1
  {
    CaptureIs(c, g, t1);
    var start := g.clockStart.value;
    SplitDivision(t1 - start, t3 - t2);
    assert ElapsedMs(start, t1) == (t1 - start) / 1000 && ElapsedMs(t2, t3) == (t3 - t2) / 1000;
    assert ElapsedMs(start + (t2 - t1), t3) == (t1 - start + (t3 - t2)) / 1000;
    hide Capture, ElapsedMs;
  }
}
