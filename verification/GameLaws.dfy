/** What every run of requests on a stored game keeps: the lifecycle, the recorded history, the rules
    that end games by themselves, and a bound on the number of moves. */
module GameLaws {
  import opened Common
  import opened Chess
  import opened GameClock
  import opened GameOutcomes
  import opened GameService

  // ---------------------------------------------------------------- the lifecycle

  /** An active game is running, or paused with a participant recorded as absent; a finished game has
      neither clock nor absentee, and a result unless it was aborted. */
  ghost predicate Lifecycle(g: Game)
  {
    if g.status == Active then
      && g.result.None? && g.endedAt.None? && g.reason.None?
      && (if g.graceUntil.Some? then g.clockStart.None? && g.absent.Some? && Participant(g, g.absent.value)
          else g.clockStart.Some? && g.absent.None?)
    else
      && g.clockStart.None? && g.absent.None? && g.graceUntil.None? && g.endedAt.Some? && g.reason.Some?
      && match g.status
         case Aborted => g.result.None?
         case Stalemate => g.result == Some(Draw)
         case Drawn => g.result == Some(Draw)
         case _ => g.result == Some(WhiteWins) || g.result == Some(BlackWins)
  }

  lemma StepLifecycle<P>(c: Rules<P>, row: Row, e: GameEvent)
    requires Lifecycle(row.game)
    ensures Lifecycle(StepRow(c, row, e).game)
  {
    hide Capture, RemainingMs, ActivePlayer, BoardFor, IsCheckmate, IsStalemate, IsFiftyMoves, IsRepetition;
  }

  function RunRow<P>(c: Rules<P>, row: Row, events: seq<GameEvent>): Row
  {
    if events == [] then row else StepRow(c, RunRow(c, row, events[..|events| - 1]), events[|events| - 1])
  }

  /** Nothing changes a finished game. */
  lemma {:induction false} FinishedIsAbsorbing<P>(c: Rules<P>, row: Row, events: seq<GameEvent>)
    requires row.game.status != Active
    ensures RunRow(c, row, events) == row
  {
    if events != [] { FinishedIsAbsorbing(c, row, events[..|events| - 1]); }
  }

  // ---------------------------------------------------------------- the recorded history

  ghost predicate RecordedMove<P>(c: Rules<P>, g: Game, m: MoveRow, i: nat, after: P)
  {
    m.number == i + 1 && m.fenAfter == c.fen(after) && m.userId == if i % 2 == 0 then g.whiteId else g.blackId
  }

  ghost predicate RecordedMoves<P>(c: Rules<P>, g: Game, moves: seq<MoveRow>, b: seq<P>)
    requires |b| == |moves| + 1
  {
    forall i | 0 <= i < |moves| :: RecordedMove(c, g, moves[i], i, b[i + 1])
  }

  ghost predicate TakesTurns<P>(c: Rules<P>, b: seq<P>)
  {
    forall i | 0 <= i < |b| :: c.whiteToMove(b[i]) == (i % 2 == 0)
  }

  /** The stored moves replay, from the initial position, to exactly the stored positions; they are numbered
      from one, and the players took turns, White first. */
  ghost predicate Recorded<P>(c: Rules<P>, row: Row, b: seq<P>)
  {
    && Replay(c, Ucis(row.moves)) == Some(b)
    && c.fen(Now(b)) == row.game.fen
    && TakesTurns(c, b)
    && |b| == |row.moves| + 1
    && RecordedMoves(c, row.game, row.moves, b)
  }

  /** The board of a game still going on: there is a move and material to go on with, the half-move clock is below 100,
      and no position has occurred three times. */
  ghost predicate Playable<P>(c: Rules<P>, b: seq<P>)
  {
    && b != [] && c.hasMove(Now(b)) && !c.deadMaterial(Now(b)) && c.halfmove(Now(b)) < 100
    && forall k :: Sum(HasKey(c, k), b) <= 2
  }

  /** Each move spends a unit of this. */
  function Fuel<P>(c: Rules<P>, p: P): int { 100 * c.potential(p) + 100 - c.halfmove(p) }

  ghost predicate Inv<P(!new)>(c: Rules<P>, row: Row, b: seq<P>)
  {
    && Lifecycle(row.game)
    && Recorded(c, row, b)
    && (row.game.status == Active ==> Playable(c, b))
    && c.halfmove(Now(b)) <= 100
    && |row.moves| + Fuel(c, Now(b)) <= Fuel(c, c.start)
  }

  /** The replay never disagrees with the stored position, so the stack is never thrown away. */
  lemma FallbackNeverFires<P(!new)>(c: Rules<P>, row: Row, b: seq<P>)
    requires Lawful(c) && Recorded(c, row, b)
    ensures BoardFor(c, row.game.fen, row.moves) == b
  {
    if row.moves == [] { assert b == [c.start]; }
  }

  lemma ReplaySnoc<P>(c: Rules<P>, moves: seq<MoveRow>, m: MoveRow, b: seq<P>)
    requires Replay(c, Ucis(moves)) == Some(b) && c.legal(Now(b), m.uci)
    ensures Replay(c, Ucis(moves + [m])) == Some(b + [c.push(Now(b), m.uci)])
  {
    assert (moves + [m])[..|moves|] == moves;
    assert Ucis(moves + [m])[..|moves|] == Ucis(moves);
  }

  /** What an accepted move does to the row. */
  ghost predicate Extends<P>(c: Rules<P>, row: Row, row': Row, b: seq<P>, uci: Uci, now: int)
  {
    && b != [] && c.legal(Now(b), uci)
    && var b' := b + [c.push(Now(b), uci)];
       && row'.game == AfterBoardOutcome(c, Stamped(c, row.game, b, uci, now), b', now)
       && row'.moves == row.moves + [MoveRow(if c.whiteToMove(Now(b)) then row.game.whiteId else row.game.blackId,
                                             uci, row'.game.fen, |row.moves| + 1)]
  }

  lemma OutcomeKeeps<P>(c: Rules<P>, g: Game, b: seq<P>, now: int)
    requires b != []
    ensures var g' := AfterBoardOutcome(c, g, b, now);
            && g'.fen == g.fen && g'.whiteId == g.whiteId && g'.blackId == g.blackId
            && (g'.status == Active && g.status == Active ==>
                  && c.hasMove(Now(b)) && !c.deadMaterial(Now(b)) && c.halfmove(Now(b)) < 100
                  && Sum(HasKey(c, c.key(Now(b))), b) < 3)
  {
    hide Sum;
  }

  lemma ExtendsBy<P>(c: Rules<P>, row: Row, row': Row, b: seq<P>, uci: Uci, now: int) returns (m: MoveRow)
    requires Extends(c, row, row', b, uci, now) && c.whiteToMove(Now(b)) == (|row.moves| % 2 == 0)
    ensures row'.moves == row.moves + [m] && m.uci == uci
            && RecordedMove(c, row'.game, m, |row.moves|, c.push(Now(b), uci))
    ensures row'.game.fen == c.fen(c.push(Now(b), uci)) && row'.game.whiteId == row.game.whiteId
            && row'.game.blackId == row.game.blackId
  {
    hide AfterBoardOutcome;
    m := row'.moves[|row.moves|];
    OutcomeKeeps(c, Stamped(c, row.game, b, uci, now), b + [c.push(Now(b), uci)], now);
  }

  lemma LastOf<P>(b: seq<P>, q: P)
    ensures Now(b + [q]) == q
  {
  }

  lemma RecordedSnoc<P>(c: Rules<P>, g: Game, g': Game, moves: seq<MoveRow>, m: MoveRow, b: seq<P>, q: P)
    requires |b| == |moves| + 1 && RecordedMoves(c, g, moves, b) && RecordedMove(c, g', m, |moves|, q)
    requires g'.whiteId == g.whiteId && g'.blackId == g.blackId
    requires TakesTurns(c, b) && c.whiteToMove(q) == (|b| % 2 == 0)
    ensures TakesTurns(c, b + [q]) && RecordedMoves(c, g', moves + [m], b + [q])
  {
    forall i | 0 <= i < |moves| ensures RecordedMove(c, g', moves[i], i, b[i + 1]) {
      assert RecordedMove(c, g, moves[i], i, b[i + 1]);
    }
  }

  lemma ExtendParts<P>(c: Rules<P>, row: Row, row': Row, b: seq<P>, uci: Uci, now: int)
    requires |b| == |row.moves| + 1 && Replay(c, Ucis(row.moves)) == Some(b) && TakesTurns(c, b)
    requires RecordedMoves(c, row.game, row.moves, b) && Extends(c, row, row', b, uci, now) && c.legal(Now(b), uci)
    requires c.whiteToMove(Now(b)) == (|row.moves| % 2 == 0)
             && c.whiteToMove(c.push(Now(b), uci)) != c.whiteToMove(Now(b))
    ensures |row'.moves| == |row.moves| + 1
    ensures var b' := b + [c.push(Now(b), uci)];
            && Replay(c, Ucis(row'.moves)) == Some(b') && TakesTurns(c, b')
            && RecordedMoves(c, row'.game, row'.moves, b')
            && row'.game.fen == c.fen(Now(b'))
  {
    hide *;
    var m := ExtendsBy(c, row, row', b, uci, now);
    LastOf(b, c.push(Now(b), uci));
    ReplaySnoc(c, row.moves, m, b);
    RecordedSnoc(c, row.game, row'.game, row.moves, m, b, c.push(Now(b), uci));
  }

  lemma RecordedLength<P>(c: Rules<P>, row: Row, b: seq<P>)
    requires Recorded(c, row, b)
    ensures |b| == |row.moves| + 1 && c.whiteToMove(Now(b)) == (|row.moves| % 2 == 0)
  {
  }

  lemma ExtendRecorded<P(!new)>(c: Rules<P>, row: Row, row': Row, b: seq<P>, uci: Uci, now: int)
    requires Lawful(c) && Recorded(c, row, b) && Extends(c, row, row', b, uci, now)
    ensures Recorded(c, row', b + [c.push(Now(b), uci)])
  {
    assert c.legal(Now(b), uci) && c.whiteToMove(c.push(Now(b), uci)) != c.whiteToMove(Now(b)) by {
      assert LawfulMove(c, Now(b), c.push(Now(b), uci));
    }
    RecordedLength(c, row, b);
    hide Lawful, LawfulMove, Extends, Replay, Ucis, TakesTurns, RecordedMoves, Now;
    ExtendParts(c, row, row', b, uci, now);
  }

  lemma ExtendPlayable<P(!new)>(c: Rules<P>, row: Row, row': Row, b: seq<P>, uci: Uci, now: int)
    requires Lawful(c) && Playable(c, b) && Extends(c, row, row', b, uci, now) && row.game.status == Active
    ensures var b' := b + [c.push(Now(b), uci)];
            && (row'.game.status == Active ==> Playable(c, b'))
            && c.halfmove(Now(b')) <= 100 && Fuel(c, Now(b')) <= Fuel(c, Now(b)) - 1
  {
    var q := c.push(Now(b), uci);
    var b' := b + [q];
    OutcomeKeeps(c, Stamped(c, row.game, b, uci, now), b', now);
    assert LawfulMove(c, Now(b), q);
    hide Sum, AfterBoardOutcome;
    forall k ensures Sum(HasKey(c, k), b') == Sum(HasKey(c, k), b) + if c.key(q) == k then 1 else 0 {
      SumSnoc(HasKey(c, k), b, q);
    }
  }

  /** A move request is a flag fall, a refusal that changes nothing, or one more recorded move. */
  lemma MoveCases<P(!new)>(c: Rules<P>, row: Row, user: UserId, uci: Uci, now: int, b: seq<P>)
    requires Lawful(c) && Recorded(c, row, b)
    ensures var row' := MakeMoveRow(c, row, user, uci, now).0;
            || row' == row
            || (row'.moves == row.moves && row'.game.fen == row.game.fen && row'.game.status == TimedOut
                && row'.game.whiteId == row.game.whiteId && row'.game.blackId == row.game.blackId)
            || Extends(c, row, row', b, uci, now)
  {
    FallbackNeverFires(c, row, b);
    hide BoardFor, Capture, RemainingMs, AfterBoardOutcome, Stamped, Recorded, Lawful;
  }

  lemma SamePosition<P(!new)>(c: Rules<P>, row: Row, row': Row, b: seq<P>)
    requires Inv(c, row, b) && Lifecycle(row'.game)
    requires row'.moves == row.moves && row'.game.fen == row.game.fen
    requires row'.game.whiteId == row.game.whiteId && row'.game.blackId == row.game.blackId
    requires row.game.status == Active
    ensures Inv(c, row', b)
  {
  }

  lemma ExtendOne<P>(c: Rules<P>, row: Row, row': Row, b: seq<P>, uci: Uci, now: int)
    requires Extends(c, row, row', b, uci, now)
    ensures |row'.moves| == |row.moves| + 1
  {
  }

  lemma SameMoves<P>(c: Rules<P>, row: Row, e: GameEvent)
    requires !e.MoveMade?
    ensures var row' := StepRow(c, row, e);
            && row'.moves == row.moves && row'.game.fen == row.game.fen
            && row'.game.whiteId == row.game.whiteId && row'.game.blackId == row.game.blackId
  {
    hide Capture, RemainingMs, ActivePlayer;
  }

  /** Every committed request keeps the invariant; the replayed board only ever grows. */
  lemma StepKeeps<P(!new)>(c: Rules<P>, row: Row, e: GameEvent, b: seq<P>) returns (b': seq<P>)
    requires Lawful(c) && Inv(c, row, b)
    ensures Inv(c, StepRow(c, row, e), b') && b <= b'
  {
    b' := b;
    var row' := StepRow(c, row, e);
    StepLifecycle(c, row, e);
    if row.game.status == Active {
      if e.MoveMade? {
        MoveCases(c, row, e.user, e.uci, e.now, b);
        if Extends(c, row, row', b, e.uci, e.now) {
          b' := b + [c.push(Now(b), e.uci)];
          hide StepRow, AfterBoardOutcome, Extends, Playable, Lifecycle, Lawful;
          ExtendRecorded(c, row, row', b, e.uci, e.now);
          ExtendPlayable(c, row, row', b, e.uci, e.now);
          ExtendOne(c, row, row', b, e.uci, e.now);
        } else if row' != row {
          hide StepRow, Inv, Lawful;
          SamePosition(c, row, row', b);
        }
      } else {
        SameMoves(c, row, e);
        hide StepRow, Inv, Lawful;
        SamePosition(c, row, row', b);
      }
    }
  }

  lemma NewGameInv<P(!new)>(c: Rules<P>, whiteId: UserId, blackId: UserId, initialMs: nat, incrementMs: nat, now: int)
    requires Lawful(c)
    ensures Inv(c, Row(NewGame(whiteId, blackId, initialMs, incrementMs, now), []), [c.start])
  {
    var row := Row(NewGame(whiteId, blackId, initialMs, incrementMs, now), []);
    assert Replay(c, Ucis(row.moves)) == Some([c.start]);
    forall k ensures Sum(HasKey(c, k), [c.start]) <= 1 { SumOne(HasKey(c, k), c.start); }
  }

  lemma {:induction false} RunKeeps<P(!new)>(c: Rules<P>, row: Row, events: seq<GameEvent>, b: seq<P>)
    returns (b': seq<P>)
    requires Lawful(c) && Inv(c, row, b)
    ensures Inv(c, RunRow(c, row, events), b') && b <= b'
  {
    hide Inv, Lawful, StepRow;
    if events == [] {
      b' := b;
    } else {
      var n := |events| - 1;
      var mid := RunKeeps(c, row, events[..n], b);
      b' := StepKeeps(c, RunRow(c, row, events[..n]), events[n], mid);
    }
  }

  // ---------------------------------------------------------------- what every run of a created game satisfies

  function Created(whiteId: UserId, blackId: UserId, initialMs: nat, incrementMs: nat, now: int): Row
  {
    Row(NewGame(whiteId, blackId, initialMs, incrementMs, now), [])
  }

  /** In every run the stored moves replay to exactly the stored positions, and the board a move is
      judged on is that replay, with its full history. */
  lemma HistoryIsFaithful<P(!new)>(c: Rules<P>, g: Row, events: seq<GameEvent>, whiteId: UserId, blackId: UserId,
      initialMs: nat, incrementMs: nat, now: int)
    requires Lawful(c) && g == RunRow(c, Created(whiteId, blackId, initialMs, incrementMs, now), events)
    ensures Lifecycle(g.game)
    ensures Replay(c, Ucis(g.moves)).Some? && Recorded(c, g, Replay(c, Ucis(g.moves)).value)
    ensures BoardFor(c, g.game.fen, g.moves) == Replay(c, Ucis(g.moves)).value
  {
    hide Lawful, RunRow, Lifecycle, BoardFor;
    NewGameInv(c, whiteId, blackId, initialMs, incrementMs, now);
    var b := RunKeeps(c, Created(whiteId, blackId, initialMs, incrementMs, now), events, [c.start]);
    FallbackNeverFires(c, g, b);
  }

  /** A game in progress has a legal move, enough material, no position that occurred three times and a half-move clock
      below 100, and no run of any length ever stores more than 100 * (potential + 1) moves: every game ends. */
  lemma EveryGameEnds<P(!new)>(c: Rules<P>, g: Row, events: seq<GameEvent>, whiteId: UserId, blackId: UserId,
      initialMs: nat, incrementMs: nat, now: int)
    requires Lawful(c) && g == RunRow(c, Created(whiteId, blackId, initialMs, incrementMs, now), events)
    ensures |g.moves| <= 100 * (c.potential(c.start) + 1)
    ensures Replay(c, Ucis(g.moves)).Some?
    ensures g.game.status == Active ==> Playable(c, Replay(c, Ucis(g.moves)).value)
  {
    NewGameInv(c, whiteId, blackId, initialMs, incrementMs, now);
    assert c.halfmove(c.start) == 0;
    hide Lawful, RunRow, Lifecycle, Playable;
    var b := RunKeeps(c, Created(whiteId, blackId, initialMs, incrementMs, now), events, [c.start]);
  }

  // ---------------------------------------------------------------- when a move is accepted

  predicate Flagged<P>(c: Rules<P>, g: Game, now: int)
  {
    g.status == Active && g.graceUntil.None? && g.clockStart.Some?
    && SideMs(g, if c.whiteToMove(c.parse(g.fen)) then White else Black) <= ElapsedMs(g.clockStart.value, now)
  }

  lemma FlaggedIff<P>(c: Rules<P>, g: Game, now: int)
    requires Lifecycle(g)
    ensures Flagged(c, g, now) <==> RemainingMs(c, g, now) <= 0
    ensures RemainingMs(c, g, now) <= 0 ==> ActivePlayer(c, g).Some?
  {
  }

  /** An active game records a move exactly when the mover is the side to move, the move is legal, and the
      mover's clock has not run out or the game is paused, whatever time a paused mover has left. */
  lemma MoveAcceptedIff<P(!new)>(c: Rules<P>, row: Row, b: seq<P>, user: UserId, uci: Uci, now: int)
    requires Lawful(c) && Inv(c, row, b) && row.game.status == Active
    ensures |StepRow(c, row, MoveMade(user, uci, now)).moves| == |row.moves| + 1
       <==> && user == (if |row.moves| % 2 == 0 then row.game.whiteId else row.game.blackId)
            && c.legal(Now(b), uci)
            && !Flagged(c, row.game, now)
  {
    FallbackNeverFires(c, row, b);
    FlaggedIff(c, row.game, now);
    RecordedLength(c, row, b);
    hide Lawful, Inv, Lifecycle, Flagged, RemainingMs, Capture, BoardFor, AfterBoardOutcome, Stamped, ActivePlayer;
  }

  /** A side with no time left may still move while its opponent is away. */
  lemma PausedSideMovesOnZero<P(!new)>(c: Rules<P>, uci: Uci)
    requires Lawful(c) && c.legal(c.start, uci)
    ensures var white, black := 1, 2;
            var g := RunRow(c, Created(white, black, 60_000, 0, 0), [Disconnect(black, 60_000_000, 20)]);
            && g.game.status == Active && g.game.whiteMs == 0
            && |StepRow(c, g, MoveMade(white, uci, 61_000_000)).moves| == 1
  {
    var start := Created(1, 2, 60_000, 0, 0);
    var e := Disconnect(2, 60_000_000, 20);
    NewGameInv(c, 1, 2, 60_000, 0, 0);
    assert [e][..0] == [];
    var g := StepRow(c, start, e);
    assert g == RunRow(c, start, [e]);
    assert c.parse(start.game.fen) == c.start;
    assert g.game.whiteMs == 0 && g.moves == [] && g.game.graceUntil.Some?;
    var b := StepKeeps(c, start, e, [c.start]);
    assert b == [c.start];
    hide RunRow, Lawful;
    MoveAcceptedIff(c, g, b, 1, uci, 61_000_000);
  }

  // ---------------------------------------------------------------- the monitor

  /** What a monitor pass looks for. */
  predicate Overdue<P>(c: Rules<P>, g: Game, now: int)
  {
    g.status == Active && if g.graceUntil.Some? then g.graceUntil.value <= now else Flagged(c, g, now)
  }

  /** A pass ends exactly the overdue games: none is overdue after it, no other game is touched, and a second
      pass at the same instant finds nothing. A game not yet meaningfully started is aborted when its absentee
      stays away; otherwise the absentee, or the side whose flag fell, loses on time. */
  lemma MonitorIsComplete<P>(c: Rules<P>, row: Row, now: int)
    requires Lifecycle(row.game)
    ensures var row' := MonitoredRow(c, row, now);
            && (row' != row <==> Overdue(c, row.game, now))
            && !Overdue(c, row'.game, now)
            && MonitoredRow(c, row', now) == row'
            && Lifecycle(row'.game)
            && (row' != row ==>
                  if row.game.graceUntil.Some? && |row.moves| < 2 then row'.game.status == Aborted
                  else row'.game.status == TimedOut
                       && var loser := if row.game.graceUntil.Some? then row.game.absent else ActivePlayer(c, row.game);
                          row'.game.result == Some(LossFor(row.game, loser.value)))
  {
    FlaggedIff(c, row.game, now);
    hide Capture, RemainingMs, Flagged;
  }

  /** The instant by which an active game is overdue unless something happens to it first. */
  function Deadline<P>(c: Rules<P>, g: Game): int
  {
    if g.graceUntil.Some? then g.graceUntil.value
    else if g.clockStart.None? then 0
    else g.clockStart.value + 1000 * Max(0, SideMs(g, if c.whiteToMove(c.parse(g.fen)) then White else Black))
  }

  /** No game is left open for ever: any pass from its deadline on ends it. */
  lemma MonitorEndsIdleGames<P>(c: Rules<P>, row: Row, now: int)
    requires Lifecycle(row.game) && now >= Deadline(c, row.game)
    ensures MonitoredRow(c, row, now).game.status != Active
  {
    MonitorIsComplete(c, row, now);
    hide MonitoredRow;
  }

  // ---------------------------------------------------------------- how long a pause lasts

  /** The last request that changed the game. */
  function LastChanger<P>(c: Rules<P>, row: Row, events: seq<GameEvent>): Option<GameEvent>
  {
    if events == [] then None
    else
      var n := |events| - 1;
      if RunRow(c, row, events) != RunRow(c, row, events[..n]) then Some(events[n])
      else LastChanger(c, row, events[..n])
  }

  /** The game waits for the user of a disconnect, for its grace from its instant. */
  ghost predicate WaitsSince(g: Game, e: Option<GameEvent>)
  {
    && e.Some? && e.value.Disconnect? && g.absent == Some(e.value.user)
    && g.graceUntil == Some(e.value.now + 1_000_000 * e.value.graceSeconds)
  }

  lemma StepPauses<P>(c: Rules<P>, row: Row, e: GameEvent)
    requires StepRow(c, row, e) != row
    ensures var g := StepRow(c, row, e).game; g.graceUntil.Some? ==> WaitsSince(g, Some(e))
  {
    hide Capture, RemainingMs, ActivePlayer, BoardFor, IsCheckmate, IsStalemate, IsFiftyMoves, IsRepetition;
  }

  /** In every run a paused game was last changed by a disconnect, and waits for its user until the grace of it is
      over. */
  lemma {:induction false} PausedByDisconnect<P>(c: Rules<P>, row: Row, events: seq<GameEvent>)
    requires row.game.graceUntil.None?
    ensures var g := RunRow(c, row, events).game; g.graceUntil.Some? ==> WaitsSince(g, LastChanger(c, row, events))
  {
    hide StepRow, WaitsSince;
    if events != [] {
      var n := |events| - 1;
      PausedByDisconnect(c, row, events[..n]);
      if RunRow(c, row, events) != RunRow(c, row, events[..n]) {
        StepPauses(c, RunRow(c, row, events[..n]), events[n]);
      }
    }
  }

  /** In every run of a created game a pass ends a paused game if and only if the grace of the disconnect that paused
      it is over by then, counted from the instant of the disconnect. */
  lemma PauseLastsItsGrace<P(!new)>(
    c: Rules<P>, g: Row, events: seq<GameEvent>, whiteId: UserId, blackId: UserId, initialMs: nat, incrementMs: nat,
    start: int, now: int)
    requires Lawful(c) && g == RunRow(c, Created(whiteId, blackId, initialMs, incrementMs, start), events)
    requires g.game.graceUntil.Some?
    ensures var e := LastChanger(c, Created(whiteId, blackId, initialMs, incrementMs, start), events);
            && e.Some? && e.value.Disconnect? && g.game.absent == Some(e.value.user)
            && (MonitoredRow(c, g, now).game.status != Active
               <==> e.value.now + 1_000_000 * e.value.graceSeconds <= now)
            && (now < e.value.now + 1_000_000 * e.value.graceSeconds ==> MonitoredRow(c, g, now) == g)
  {
    var created := Created(whiteId, blackId, initialMs, incrementMs, start);
    HistoryIsFaithful(c, g, events, whiteId, blackId, initialMs, incrementMs, start);
    assert created.game.graceUntil.None? && g.game.status == Active;
    hide Lawful, RunRow, Created, LastChanger, Recorded, Replay;
    PausedByDisconnect(c, created, events);
    MonitorIsComplete(c, g, now);
    hide MonitoredRow;
  }

  // ---------------------------------------------------------------- who wins

  /** A position the game is drawn on, and why. */
  ghost predicate DrawnBy<P>(c: Rules<P>, b: seq<P>, reason: Option<Reason>)
    requires b != []
  {
    var quiet := c.deadMaterial(Now(b)) || c.halfmove(Now(b)) >= 100;
    && c.hasMove(Now(b))
    && (quiet || Sum(HasKey(c, c.key(Now(b))), b) >= 3)
    && reason == Some(if quiet then ByDraw else ByRepetition)
  }

  /** What may have ended the game, and for whom. */
  ghost predicate EndedBy<P>(c: Rules<P>, row: Row, e: GameEvent, g: Game, b: seq<P>)
    requires b != []
  {
    match g.status
    case Active => true
    case Checkmate =>
      e.MoveMade? && c.legal(Now(b), e.uci) && c.inCheck(c.push(Now(b), e.uci)) && !c.hasMove(c.push(Now(b), e.uci))
      && g.result == Some(if |row.moves| % 2 == 0 then WhiteWins else BlackWins)
    case Stalemate =>
      e.MoveMade? && c.legal(Now(b), e.uci) && !c.inCheck(c.push(Now(b), e.uci)) && !c.hasMove(c.push(Now(b), e.uci))
    case Drawn =>
      if e.DrawAccepted? then g.reason == Some(ByAgreement)
      else e.MoveMade? && c.legal(Now(b), e.uci) && DrawnBy(c, b + [c.push(Now(b), e.uci)], g.reason)
    case Resigned => (e.ResignBy? || e.IdentityFailed?) && g.result == Some(LossFor(row.game, e.user))
    case TimedOut =>
      && (e.MonitorPass? || e.MoveMade?) && Overdue(c, row.game, e.now)
      && SideMs(g, if g.result == Some(BlackWins) then White else Black) == 0
      && (row.game.graceUntil.None? && row.game.whiteId != row.game.blackId ==>
            g.result == Some(if |row.moves| % 2 == 0 then BlackWins else WhiteWins))
    case Aborted => e.MonitorPass? && |row.moves| < 2 && row.game.graceUntil.Some? && row.game.graceUntil.value <= e.now
  }

  lemma MoveEnds<P(!new)>(c: Rules<P>, row: Row, e: GameEvent, b: seq<P>)
    requires Lawful(c) && Recorded(c, row, b) && Lifecycle(row.game) && row.game.status == Active && e.MoveMade?
    ensures EndedBy(c, row, e, StepRow(c, row, e).game, b)
  {
    FlaggedIff(c, row.game, e.now);
    RecordedLength(c, row, b);
    FallbackNeverFires(c, row, b);
    assert c.whiteToMove(c.parse(row.game.fen)) == c.whiteToMove(Now(b));
    if c.legal(Now(b), e.uci) { assert LawfulMove(c, Now(b), c.push(Now(b), e.uci)); }
    hide BoardFor, Capture, RemainingMs, Flagged, Lawful, Recorded, Lifecycle, Sum, HasKey, LawfulMove;
  }

  /** Games end for the right reason and for the right side: mate is won by the mover, the side to move loses
      on its own clock, and nobody but the one who resigns, or fails identification, loses by it. */
  lemma TheRightSideWins<P(!new)>(c: Rules<P>, row: Row, e: GameEvent, b: seq<P>)
    requires Lawful(c) && Inv(c, row, b) && row.game.status == Active
    ensures b != [] && EndedBy(c, row, e, StepRow(c, row, e).game, b)
  {
    RecordedLength(c, row, b);
    if e.MoveMade? {
      hide EndedBy, StepRow, Recorded, Lifecycle, Lawful;
      MoveEnds(c, row, e, b);
    } else {
      FlaggedIff(c, row.game, e.now);
      assert c.whiteToMove(c.parse(row.game.fen)) == c.whiteToMove(Now(b));
      hide Capture, RemainingMs, Flagged, Lawful, Inv, BoardFor;
    }
  }

  /** After a recorded move the game is over if and only if the new board says so: by mate, by stalemate, or by a draw
      on dead material, on the hundredth half-move or on the third occurrence of the position. */
  lemma MoveOutcomeIff<P(!new)>(c: Rules<P>, row: Row, user: UserId, uci: Uci, now: int, b: seq<P>)
    requires Lawful(c) && Inv(c, row, b) && row.game.status == Active
    requires |StepRow(c, row, MoveMade(user, uci, now)).moves| == |row.moves| + 1
    ensures b != []
    ensures var g, q := StepRow(c, row, MoveMade(user, uci, now)).game, c.push(Now(b), uci);
            var three := Sum(HasKey(c, c.key(q)), b + [q]) >= 3;
            && (g.status == Checkmate <==> !c.hasMove(q) && c.inCheck(q))
            && (g.status == Stalemate <==> !c.hasMove(q) && !c.inCheck(q))
            && (g.status == Drawn <==> c.hasMove(q) && (c.deadMaterial(q) || c.halfmove(q) >= 100 || three))
            && (g.status == Drawn ==> DrawnBy(c, b + [q], g.reason))
            && (g.status == Active <==> c.hasMove(q) && !c.deadMaterial(q) && c.halfmove(q) < 100 && !three)
  {
    RecordedLength(c, row, b);
    MoveCases(c, row, user, uci, now, b);
    hide MakeMoveRow, Lawful, Inv, Recorded, Stamped, Sum;
    assert Now(b + [c.push(Now(b), uci)]) == c.push(Now(b), uci);
  }
}
