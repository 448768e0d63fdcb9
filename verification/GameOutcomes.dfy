/** The game entity and the functions that change it in place. Each one is specified by
    a function from the game before to the game after. */
module GameOutcomes {
  import opened Common
  import opened Chess
  import opened GameClock

  // ---------------------------------------------------------------- transitions as functions

  function Finished(g: Game, status: GameStatus, result: Option<GameResult>, reason: Reason, now: int): Game
  {
    g.(status := status, result := result, reason := Some(reason), endedAt := Some(now),
       clockStart := None, absent := None, graceUntil := None)
  }

  function Clocked(g: Game, s: Snapshot): Game { g.(whiteMs := s.whiteMs, blackMs := s.blackMs) }

  function LossFor(g: Game, user: UserId): GameResult { if user == g.whiteId then BlackWins else WhiteWins }

  function AfterResignation(g: Game, user: UserId, s: Snapshot, now: int): Game
  {
    Finished(Clocked(g, s), Resigned, Some(LossFor(g, user)), ByResignation, now)
  }

  function AfterIdentityFailure(g: Game, user: UserId, s: Snapshot, now: int): Game
  {
    Finished(Clocked(g, s), Resigned, Some(LossFor(g, user)), ByIdentityFailure, now)
  }

  function AfterDrawAgreement(g: Game, s: Snapshot, now: int): Game
  {
    Finished(Clocked(g, s), Drawn, Some(Draw), ByAgreement, now)
  }

  /** The loser's clock is set to zero. */
  function AfterTimeout(g: Game, loser: UserId, s: Snapshot, now: int, reason: Reason): Game
  {
    var flagged := if loser == g.whiteId then g.(whiteMs := 0, blackMs := s.blackMs)
                   else g.(whiteMs := s.whiteMs, blackMs := 0);
    Finished(flagged, TimedOut, Some(LossFor(g, loser)), reason, now)
  }

  function AfterAbort(g: Game, s: Snapshot, now: int): Game
  {
    Finished(Clocked(g, s), Aborted, None, ByAutoAbort, now)
  }

  function AfterPause(g: Game, user: UserId, s: Snapshot, now: int, graceSeconds: int): Game
  {
    Clocked(g, s).(clockStart := None, absent := Some(user), graceUntil := Some(now + 1_000_000 * graceSeconds))
  }

  function AfterResume(g: Game, now: int): Game
  {
    g.(clockStart := Some(now), absent := None, graceUntil := None)
  }

  function AfterBoardOutcome<P>(c: Rules<P>, g: Game, b: seq<P>, now: int): Game
    requires b != []
  {
    if IsCheckmate(c, b) then
      Finished(g, Checkmate, Some(if c.whiteToMove(Now(b)) then BlackWins else WhiteWins), ByCheckmate, now)
    else if IsStalemate(c, b) then Finished(g, Stalemate, Some(Draw), ByStalemate, now)
    else if c.deadMaterial(Now(b)) || IsFiftyMoves(c, b) then Finished(g, Drawn, Some(Draw), ByDraw, now)
    else if IsRepetition(c, b) then Finished(g, Drawn, Some(Draw), ByRepetition, now)
    else g.(clockStart := Some(now))
  }

  // ---------------------------------------------------------------- moves

  datatype MoveRow = MoveRow(userId: UserId, uci: Uci, fenAfter: string, number: nat)

  datatype MoveError = NotYourTurn | IllegalMove

  datatype MoveOutcome = Rejected(error: MoveError) | Accepted(game: Game, move: MoveRow)

  function Ucis(moves: seq<MoveRow>): (r: seq<Uci>)
    ensures |r| == |moves| && forall i | 0 <= i < |r| :: r[i] == moves[i].uci
  {
    if moves == [] then [] else Ucis(moves[..|moves| - 1]) + [moves[|moves| - 1].uci]
  }

  /** `_board_with_history`: the replayed stack, or the stored position alone when the replay fails or disagrees. */
  function BoardFor<P>(c: Rules<P>, fen: string, moves: seq<MoveRow>): (b: seq<P>)
    ensures b != []
  {
    if moves == [] then [c.parse(fen)]
    else
      match Replay(c, Ucis(moves))
      case None => [c.parse(fen)]
      case Some(b) => if c.fen(Now(b)) != fen then [c.parse(fen)] else b
  }

  /** The game once the clocks are taken, the increment added and the move made, before its outcome is judged. */
  function Stamped<P>(c: Rules<P>, g: Game, b: seq<P>, uci: Uci, now: int): Game
    requires b != []
  {
    var s := Capture(c, g, now);
    var white := c.whiteToMove(Now(b));
    g.(whiteMs := s.whiteMs + (if white then g.incrementMs else 0),
       blackMs := s.blackMs + (if white then 0 else g.incrementMs),
       fen := c.fen(c.push(Now(b), uci)), absent := None, graceUntil := None)
  }

  /** `apply_player_move` */
  function PlayerMove<P>(c: Rules<P>, g: Game, user: UserId, uci: Uci, number: nat, now: int,
      moves: seq<MoveRow>): MoveOutcome
  {
    var b := BoardFor(c, g.fen, moves);
    if user != (if c.whiteToMove(Now(b)) then g.whiteId else g.blackId) then Rejected(NotYourTurn)
    else if !c.legal(Now(b), uci) then Rejected(IllegalMove)
    else
      var after := AfterBoardOutcome(c, Stamped(c, g, b, uci, now), b + [c.push(Now(b), uci)], now);
      Accepted(after, MoveRow(user, uci, after.fen, number))
  }

  // ---------------------------------------------------------------- the entity

  lemma ReplayNothing<P>(c: Rules<P>, moves: seq<MoveRow>)
    ensures Replay(c, Ucis(moves[..0])) == Some([c.start])
  {
  }

  lemma ReplayNext<P>(c: Rules<P>, moves: seq<MoveRow>, i: nat, b: seq<P>)
    requires i < |moves| && Replay(c, Ucis(moves[..i])) == Some(b)
    ensures Replay(c, Ucis(moves[..i + 1]))
         == if c.legal(Now(b), moves[i].uci) then Some(b + [c.push(Now(b), moves[i].uci)]) else None
  {
    assert moves[..i + 1][..i] == moves[..i];
    assert Ucis(moves[..i + 1])[..i] == Ucis(moves[..i]);
  }

  lemma ReplayNone<P>(c: Rules<P>, moves: seq<MoveRow>, n: nat)
    requires n < |moves| && Replay(c, Ucis(moves[..n])).None?
    ensures Replay(c, Ucis(moves[..n + 1])).None?
  {
    assert moves[..n + 1][..n] == moves[..n];
    assert Ucis(moves[..n + 1])[..n] == Ucis(moves[..n]);
  }

  lemma {:induction false} ReplayStuck<P>(c: Rules<P>, moves: seq<MoveRow>, i: nat, n: nat)
    requires i <= n <= |moves| && Replay(c, Ucis(moves[..i])).None?
    ensures Replay(c, Ucis(moves[..n])).None?
  {
    hide Replay, Ucis;
    if i < n {
      ReplayStuck(c, moves, i, n - 1);
      ReplayNone(c, moves, n - 1);
    }
  }

  class GameEntity {
    const whiteId: UserId
    const blackId: UserId
    const initialMs: nat
    const incrementMs: nat
    const startedAt: int
    var whiteMs: int
    var blackMs: int
    var clockStart: Option<int>
    var absent: Option<UserId>
    var graceUntil: Option<int>
    var status: GameStatus
    var result: Option<GameResult>
    var fen: string
    var endedAt: Option<int>
    var reason: Option<Reason>

    function Value(): Game
      reads this
    {
      Game(whiteId, blackId, initialMs, incrementMs, whiteMs, blackMs, clockStart, absent, graceUntil,
           status, result, fen, startedAt, endedAt, reason)
    }

    constructor (g: Game)
      ensures Value() == g
    {
      whiteId, blackId, initialMs, incrementMs, startedAt :=
        g.whiteId, g.blackId, g.initialMs, g.incrementMs, g.startedAt;
      whiteMs, blackMs, clockStart, absent, graceUntil := g.whiteMs, g.blackMs, g.clockStart, g.absent, g.graceUntil;
      status, result, fen, endedAt, reason := g.status, g.result, g.fen, g.endedAt, g.reason;
    }

    method ClearDisconnectState()
      modifies this
      ensures Value() == old(Value()).(absent := None, graceUntil := None)
    {
      absent, graceUntil := None, None;
    }

    method FinishGame(newStatus: GameStatus, newResult: Option<GameResult>, why: Reason, now: int)
      modifies this
      ensures Value() == Finished(old(Value()), newStatus, newResult, why, now)
    {
      status := newStatus;
      result := newResult;
      reason := Some(why);
      endedAt := Some(now);
      clockStart := None;
      ClearDisconnectState();
    }

    method Resign(user: UserId, s: Snapshot, now: int)
      modifies this
      ensures Value() == AfterResignation(old(Value()), user, s, now)
    {
      var loss := if user == whiteId then BlackWins else WhiteWins;
      whiteMs, blackMs := s.whiteMs, s.blackMs;
      FinishGame(Resigned, Some(loss), ByResignation, now);
    }

    method ForfeitForIdentityFailure(user: UserId, s: Snapshot, now: int)
      modifies this
      ensures Value() == AfterIdentityFailure(old(Value()), user, s, now)
    {
      var loss := if user == whiteId then BlackWins else WhiteWins;
      whiteMs, blackMs := s.whiteMs, s.blackMs;
      FinishGame(Resigned, Some(loss), ByIdentityFailure, now);
    }

    method AcceptDraw(s: Snapshot, now: int)
      modifies this
      ensures Value() == AfterDrawAgreement(old(Value()), s, now)
    {
      whiteMs, blackMs := s.whiteMs, s.blackMs;
      FinishGame(Drawn, Some(Draw), ByAgreement, now);
    }

    method TimeOut(loser: UserId, s: Snapshot, now: int, why: Reason)
      modifies this
      ensures Value() == AfterTimeout(old(Value()), loser, s, now, why)
    {
      var loss := if loser == whiteId then BlackWins else WhiteWins;
      if loser == whiteId {
        whiteMs, blackMs := 0, s.blackMs;
      } else {
        whiteMs, blackMs := s.whiteMs, 0;
      }
      FinishGame(TimedOut, Some(loss), why, now);
    }

    method Abort(s: Snapshot, now: int)
      modifies this
      ensures Value() == AfterAbort(old(Value()), s, now)
    {
      whiteMs, blackMs := s.whiteMs, s.blackMs;
      FinishGame(Aborted, None, ByAutoAbort, now);
    }

    method PauseForDisconnect(user: UserId, s: Snapshot, now: int, graceSeconds: int)
      modifies this
      ensures Value() == AfterPause(old(Value()), user, s, now, graceSeconds)
    {
      whiteMs, blackMs := s.whiteMs, s.blackMs;
      clockStart := None;
      absent := Some(user);
      graceUntil := Some(now + 1_000_000 * graceSeconds);
    }

    method ResumeAfterReconnect(now: int)
      modifies this
      ensures Value() == AfterResume(old(Value()), now)
    {
      absent, graceUntil, clockStart := None, None, Some(now);
    }

    method ApplyBoardOutcome<P>(c: Rules<P>, b: seq<P>, now: int)
      requires b != []
      modifies this
      ensures Value() == AfterBoardOutcome(c, old(Value()), b, now)
    {
      if IsCheckmate(c, b) {
        FinishGame(Checkmate, Some(if c.whiteToMove(Now(b)) then BlackWins else WhiteWins), ByCheckmate, now);
        return;
      }
      if IsStalemate(c, b) { FinishGame(Stalemate, Some(Draw), ByStalemate, now); return; }
      if c.deadMaterial(Now(b)) || IsFiftyMoves(c, b) { FinishGame(Drawn, Some(Draw), ByDraw, now); return; }
      if IsRepetition(c, b) { FinishGame(Drawn, Some(Draw), ByRepetition, now); return; }
      clockStart := Some(now);
    }

    method BoardWithHistory<P>(c: Rules<P>, previous: seq<MoveRow>) returns (b: seq<P>)
      ensures b == BoardFor(c, fen, previous)
    {
      hide Ucis;
      if previous == [] { return [c.parse(fen)]; }
      assert previous[..|previous|] == previous;
      ReplayNothing(c, previous);
      b := [c.start];
      for i := 0 to |previous|
        invariant Replay(c, Ucis(previous[..i])) == Some(b)
      {
        ReplayNext(c, previous, i, b);
        if !c.legal(Now(b), previous[i].uci) {
          ReplayStuck(c, previous, i + 1, |previous|);
          return [c.parse(fen)];
        }
        b := b + [c.push(Now(b), previous[i].uci)];
      }
      if c.fen(Now(b)) != fen { return [c.parse(fen)]; }
    }

    /** A rejected move changes nothing. */
    method ApplyPlayerMove<P>(c: Rules<P>, user: UserId, uci: Uci, number: nat, now: int, previous: seq<MoveRow>)
      returns (error: Option<MoveError>, move: Option<MoveRow>)
      modifies this
      ensures match PlayerMove(c, old(Value()), user, uci, number, now, previous)
              case Rejected(e) => error == Some(e) && move == None && Value() == old(Value())
              case Accepted(g, m) => error == None && move == Some(m) && Value() == g
    {
      var b := BoardWithHistory(c, previous);
      hide BoardFor, AfterBoardOutcome, Capture;
      var expected := if c.whiteToMove(Now(b)) then whiteId else blackId;
      if user != expected { return Some(NotYourTurn), None; }
      if !c.legal(Now(b), uci) { return Some(IllegalMove), None; }
      var s := Capture(c, Value(), now);
      if c.whiteToMove(Now(b)) {
        whiteMs, blackMs := s.whiteMs + incrementMs, s.blackMs;
      } else {
        whiteMs, blackMs := s.whiteMs, s.blackMs + incrementMs;
      }
      ghost var before := b;
      b := b + [c.push(Now(b), uci)];
      fen := c.fen(Now(b));
      ClearDisconnectState();
      assert Value() == Stamped(c, old(Value()), before, uci, now);
      hide Stamped;
      ApplyBoardOutcome(c, b, now);
      return None, Some(MoveRow(user, uci, fen, number));
    }
  }
}
