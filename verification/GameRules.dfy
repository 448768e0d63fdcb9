/** What each request does to a game that is still going on, said of the stored row itself. */
module GameRules {
  import opened Common
  import opened Chess
  import opened GameClock
  import opened GameOutcomes
  import opened GameService
  import opened GameLaws

  predicate Plays(g: Game, user: UserId) { user == g.whiteId || user == g.blackId }

  /** The players, the time control, the start and the moves are as before. */
  ghost predicate SameGame(row: Row, row': Row)
  {
    && row'.moves == row.moves && row'.game.fen == row.game.fen
    && row'.game.whiteId == row.game.whiteId && row'.game.blackId == row.game.blackId
    && row'.game.initialMs == row.game.initialMs && row'.game.incrementMs == row.game.incrementMs
    && row'.game.startedAt == row.game.startedAt
  }

  /** The side of the user has lost and the other has won. */
  ghost predicate LostBy(g: Game, user: UserId)
  {
    && (user == g.whiteId ==> g.result == Some(BlackWins))
    && (user == g.blackId && user != g.whiteId ==> g.result == Some(WhiteWins))
  }

  /** The game a disconnect or reconnect concerns is the user's active one with the latest start, if there is one. */
  lemma NewestIsPlayed(store: map<nat, Row>, user: UserId, found: Option<nat>)
    requires NewestOf(store, user, found)
    ensures found == None
            <==> forall id | id in store :: store[id].game.status != Active || !Plays(store[id].game, user)
    ensures found.Some? ==>
              && found.value in store && store[found.value].game.status == Active
              && Plays(store[found.value].game, user)
              && forall id | id in store && store[id].game.status == Active && Plays(store[id].game, user) ::
                   store[id].game.startedAt <= store[found.value].game.startedAt
  {
    if found == None {
      forall id | id in store ensures store[id].game.status != Active || !Plays(store[id].game, user) {
        assert !ActiveGameOf(store, id, user);
      }
    } else {
      assert ActiveGameOf(store, found.value, user);
      forall id | id in store && store[id].game.status == Active && Plays(store[id].game, user)
        ensures store[id].game.startedAt <= store[found.value].game.startedAt
      {
        assert ActiveGameOf(store, id, user);
      }
    }
  }

  /** What a capture shows: paused while somebody is away, over once finished, else the side to move. */
  lemma SnapshotMeans<P>(c: Rules<P>, g: Game, now: int)
    ensures var s := Capture(c, g, now);
            && (s.paused == Some(Disconnected) <==> g.graceUntil.Some?)
            && (s.paused == Some(GameOver) <==> g.graceUntil.None? && g.status != Active)
            && s.activeColor == if s.paused.Some? then None
                                else if c.whiteToMove(c.parse(g.fen)) then Some(White) else Some(Black)
  {
  }

  /** A reconnect of the user an active game waits for resumes it from that instant with the clocks as they stand;
      a reconnect of anybody else changes nothing. */
  lemma ReconnectResumes<P>(c: Rules<P>, row: Row, user: UserId, now: int)
    requires Lifecycle(row.game) && row.game.status == Active
    ensures var row' := StepRow(c, row, Reconnect(user, now));
            && (row.game.absent != Some(user) ==> row' == row)
            && (row.game.absent == Some(user) ==>
                  && SameGame(row, row') && row'.game.status == Active
                  && row'.game.absent == None && row'.game.graceUntil == None && row'.game.clockStart == Some(now)
                  && row'.game.whiteMs == row.game.whiteMs && row'.game.blackMs == row.game.blackMs)
  {
  }

  /** A disconnect of a participant stops the clock and has the game wait for that participant for the grace given. */
  lemma DisconnectPauses<P>(c: Rules<P>, row: Row, user: UserId, now: int, graceSeconds: int)
    requires row.game.status == Active
    ensures var row' := StepRow(c, row, Disconnect(user, now, graceSeconds));
            && (!Plays(row.game, user) ==> row' == row)
            && (Plays(row.game, user) ==>
                  && SameGame(row, row') && row'.game.status == Active
                  && row'.game.absent == Some(user) && row'.game.graceUntil == Some(now + 1_000_000 * graceSeconds)
                  && row'.game.clockStart == None)
  {
    hide Capture;
  }

  /** A resignation or a failed identification of a participant ends an active game at once, and that side has lost. */
  lemma ResignationEnds<P>(c: Rules<P>, row: Row, e: GameEvent)
    requires row.game.status == Active && (e.ResignBy? || e.IdentityFailed?)
    ensures var row' := StepRow(c, row, e);
            && (!Plays(row.game, e.user) ==> row' == row)
            && (Plays(row.game, e.user) ==>
                  && SameGame(row, row') && row'.game.status == Resigned && LostBy(row'.game, e.user)
                  && row'.game.endedAt == Some(e.now)
                  && row'.game.reason == Some(if e.ResignBy? then ByResignation else ByIdentityFailure))
  {
    hide Capture;
  }

  /** A draw accepted by a participant ends an active game at once, drawn by agreement. */
  lemma DrawEnds<P>(c: Rules<P>, row: Row, user: UserId, now: int)
    requires row.game.status == Active
    ensures var row' := StepRow(c, row, DrawAccepted(user, now));
            && (!Plays(row.game, user) ==> row' == row)
            && (Plays(row.game, user) ==>
                  && SameGame(row, row') && row'.game.status == Drawn && row'.game.result == Some(Draw)
                  && row'.game.endedAt == Some(now) && row'.game.reason == Some(ByAgreement))
  {
    hide Capture;
  }

  /** Why a game has ended: by the rules on the board, by the players, or by the clock. */
  ghost predicate ReasonFits(row: Row, e: GameEvent, g: Game)
  {
    match g.status
    case Active => g.reason == None
    case Checkmate => g.reason == Some(ByCheckmate)
    case Stalemate => g.reason == Some(ByStalemate)
    case Drawn => g.reason in {Some(ByDraw), Some(ByRepetition), Some(ByAgreement)}
    case Resigned => g.reason == Some(if e.ResignBy? then ByResignation else ByIdentityFailure)
    case TimedOut =>
      g.reason == Some(if row.game.graceUntil.Some? then ByDisconnectTimeout else ByClockTimeout)
    case Aborted => g.reason == Some(ByAutoAbort)
  }

  /** Whatever ends a game is dated by its request, names the fitting reason, and leaves players and start alone. */
  lemma EndsAtTheRequest<P>(c: Rules<P>, row: Row, e: GameEvent)
    requires Lifecycle(row.game) && row.game.status == Active
    ensures var g := StepRow(c, row, e).game;
            && ReasonFits(row, e, g) && (g.status != Active ==> g.endedAt == Some(e.now))
            && g.whiteId == row.game.whiteId && g.blackId == row.game.blackId && g.startedAt == row.game.startedAt
            && g.initialMs == row.game.initialMs && g.incrementMs == row.game.incrementMs
  {
    hide Capture, ActivePlayer, BoardFor, IsCheckmate, IsStalemate, IsFiftyMoves, IsRepetition;
  }

  /** When the grace of an absentee is over, a pass gives the game to the other side if two moves were made, and else
      aborts it without a result. */
  lemma AbsenteeLoses<P>(c: Rules<P>, row: Row, now: int)
    requires Lifecycle(row.game) && row.game.status == Active
    requires row.game.graceUntil.Some? && row.game.graceUntil.value <= now
    ensures var row' := StepRow(c, row, MonitorPass(now));
            && SameGame(row, row')
            && if |row.moves| >= 2
               then row'.game.status == TimedOut && LostBy(row'.game, row.game.absent.value)
               else row'.game.status == Aborted && row'.game.result == None
  {
    hide Capture, ActivePlayer;
  }

  /** The board a move is judged on is the replay of the stored moves; there is no replay, or it disagrees with the
      stored position, when the position alone is the board. */
  lemma BoardOfStored<P>(c: Rules<P>, fen: string, moves: seq<MoveRow>)
    ensures var r := Replay(c, Ucis(moves));
            BoardFor(c, fen, moves)
            == if moves != [] && r.Some? && c.fen(Now(r.value)) == fen then r.value else [c.parse(fen)]
  {
  }

  /** A stored grace without a stored absentee counts against the side to move. */
  lemma NobodyNamedLoses<P>(c: Rules<P>, row: Row, now: int)
    requires row.game.status == Active && |row.moves| >= 2 && row.game.absent == None
    requires row.game.graceUntil.Some? && row.game.graceUntil.value <= now
    ensures var g := StepRow(c, row, MonitorPass(now)).game;
            && g.status == TimedOut
            && LostBy(g, if c.whiteToMove(c.parse(row.game.fen)) then row.game.whiteId else row.game.blackId)
  {
    hide Capture;
  }

  /** A move is refused to the side not on move, and then if it is illegal; a flag fall takes the place of any answer.
      */
  lemma MoveRefusals<P(!new)>(c: Rules<P>, row: Row, b: seq<P>, user: UserId, uci: Uci, now: int)
    requires Lawful(c) && Inv(c, row, b) && row.game.status == Active
    ensures var row', error := StepRow(c, row, MoveMade(user, uci, now)), MakeMoveRow(c, row, user, uci, now).1;
            var mover := if |row.moves| % 2 == 0 then row.game.whiteId else row.game.blackId;
            if Flagged(c, row.game, now)
            then error == None && row'.game.status == TimedOut && LostBy(row'.game, mover) && SameGame(row, row')
            else
              && (error == Some(NotYourTurn) <==> user != mover)
              && (error == Some(IllegalMove) <==> user == mover && !c.legal(Now(b), uci))
              && (error.Some? ==> row' == row)
              && (error == None ==> |row'.moves| == |row.moves| + 1)
  {
    FallbackNeverFires(c, row, b);
    FlaggedIff(c, row.game, now);
    RecordedLength(c, row, b);
    assert c.whiteToMove(c.parse(row.game.fen)) == c.whiteToMove(Now(b));
    hide Lawful, Inv, Lifecycle, Flagged, RemainingMs, Capture, BoardFor, AfterBoardOutcome, Stamped;
  }

  /** An accepted move is stored with its player, text, resulting position and number, the position becomes the game's,
      nobody is waited for any more, and while the game goes on the clock runs from that instant. */
  lemma MoveIsStored<P(!new)>(c: Rules<P>, row: Row, b: seq<P>, user: UserId, uci: Uci, now: int)
    requires Lawful(c) && Inv(c, row, b) && row.game.status == Active && b != []
    requires |StepRow(c, row, MoveMade(user, uci, now)).moves| != |row.moves|
    ensures var row', fen := StepRow(c, row, MoveMade(user, uci, now)), c.fen(c.push(Now(b), uci));
            && row'.moves == row.moves + [MoveRow(user, uci, fen, |row.moves| + 1)]
            && row'.game.fen == fen && row'.game.absent == None && row'.game.graceUntil == None
            && (row'.game.status == Active ==> row'.game.clockStart == Some(now))
  {
    FallbackNeverFires(c, row, b);
    hide Lawful, Inv, RemainingMs, Capture, BoardFor, IsCheckmate, IsStalemate, IsFiftyMoves, IsRepetition;
  }

  /** In every run the players sit where they were put, with the time control they were given. */
  lemma {:induction false} SeatsAndTimes<P>(c: Rules<P>, events: seq<GameEvent>, whiteId: UserId, blackId: UserId,
      initialMs: nat, incrementMs: nat, now: int)
    ensures var g := RunRow(c, Created(whiteId, blackId, initialMs, incrementMs, now), events).game;
            && Lifecycle(g) && g.whiteId == whiteId && g.blackId == blackId && g.startedAt == now
            && g.initialMs == initialMs && g.incrementMs == incrementMs
            && (events == [] ==> g.status == Active && g.whiteMs == initialMs && g.blackMs == initialMs)
  {
    if events != [] {
      var before := RunRow(c, Created(whiteId, blackId, initialMs, incrementMs, now), events[..|events| - 1]);
      var e := events[|events| - 1];
      SeatsAndTimes(c, events[..|events| - 1], whiteId, blackId, initialMs, incrementMs, now);
      StepLifecycle(c, before, e);
      assert before.game.status != Active ==> StepRow(c, before, e) == before;
      hide StepRow, Lifecycle;
      if before.game.status == Active { EndsAtTheRequest(c, before, e); }
    }
  }
}
