/** The game application service over its repository: a table of games, each with its moves.
    A request loads an entity, changes it, and stores it again only if the commit succeeds. */
module GameService {
  import opened Common
  import opened Chess
  import opened GameClock
  import opened GameOutcomes

  datatype Row = Row(game: Game, moves: seq<MoveRow>)

  datatype ServiceError = GameNotFound | GameNotActive | AccessDenied | BadMove(error: MoveError) | CommitFailed

  const MEANINGFUL_START_MOVE_COUNT := 2

  predicate Participant(g: Game, user: UserId) { user == g.whiteId || user == g.blackId }

  function NewGame(whiteId: UserId, blackId: UserId, initialMs: nat, incrementMs: nat, now: int): Game
  {
    Game(whiteId, blackId, initialMs, incrementMs, initialMs, initialMs, Some(now), None, None,
         Active, None, DEFAULT_GAME_START_FEN, now, None, None)
  }

  // ---------------------------------------------------------------- requests on one row

  /** The row after `make_move` on an active game, and the refusal if it is refused. */
  function MakeMoveRow<P>(c: Rules<P>, row: Row, user: UserId, uci: Uci, now: int): (Row, Option<MoveError>)
  {
    var loser := ActivePlayer(c, row.game);
    if RemainingMs(c, row.game, now) <= 0 && loser.Some? then
      (row.(game := AfterTimeout(row.game, loser.value, Capture(c, row.game, now), now, ByClockTimeout)), None)
    else
      match PlayerMove(c, row.game, user, uci, |row.moves| + 1, now, row.moves)
      case Rejected(e) => (row, Some(e))
      case Accepted(g, m) => (Row(g, row.moves + [m]), None)
  }

  /** What one monitor pass makes of a row. */
  function MonitoredRow<P>(c: Rules<P>, row: Row, now: int): Row
  {
    var g := row.game;
    var s := Capture(c, g, now);
    if g.status != Active then row
    else if g.graceUntil.Some? && g.graceUntil.value <= now then
      if |row.moves| >= MEANINGFUL_START_MOVE_COUNT then
        match (if g.absent.Some? then g.absent else ActivePlayer(c, g))
        case Some(loser) => row.(game := AfterTimeout(g, loser, s, now, ByDisconnectTimeout))
        case None => row
      else row.(game := AfterAbort(g, s, now))
    else if RemainingMs(c, g, now) <= 0 then
      match ActivePlayer(c, g)
      case Some(loser) => row.(game := AfterTimeout(g, loser, s, now, ByClockTimeout))
      case None => row
    else row
  }

  /** The requests that reach one stored game and commit. */
  datatype GameEvent =
    | MoveMade(user: UserId, uci: Uci, now: int)
    | ResignBy(user: UserId, now: int)
    | IdentityFailed(user: UserId, now: int)
    | DrawAccepted(user: UserId, now: int)
    | Disconnect(user: UserId, now: int, graceSeconds: int)
    | Reconnect(user: UserId, now: int)
    | MonitorPass(now: int)

  function StepRow<P>(c: Rules<P>, row: Row, e: GameEvent): Row
  {
    var g := row.game;
    if g.status != Active then row
    else
      match e
      case MoveMade(user, uci, now) => MakeMoveRow(c, row, user, uci, now).0
      case MonitorPass(now) => MonitoredRow(c, row, now)
      case ResignBy(user, now) =>
        if Participant(g, user) then row.(game := AfterResignation(g, user, Capture(c, g, now), now)) else row
      case IdentityFailed(user, now) =>
        if Participant(g, user) then row.(game := AfterIdentityFailure(g, user, Capture(c, g, now), now)) else row
      case DrawAccepted(user, now) =>
        if Participant(g, user) then row.(game := AfterDrawAgreement(g, Capture(c, g, now), now)) else row
      case Disconnect(user, now, graceSeconds) =>
        if Participant(g, user) then row.(game := AfterPause(g, user, Capture(c, g, now), now, graceSeconds)) else row
      case Reconnect(user, now) =>
        if Participant(g, user) && g.absent == Some(user) then row.(game := AfterResume(g, now)) else row
  }

  predicate ActiveGameOf(store: map<nat, Row>, id: nat, user: UserId)
  {
    id in store && store[id].game.status == Active && Participant(store[id].game, user)
  }

  /** The newest active game of the user, if there is one. */
  ghost predicate NewestOf(store: map<nat, Row>, user: UserId, found: Option<nat>)
  {
    match found
    case None => forall id :: !ActiveGameOf(store, id, user)
    case Some(k) =>
      && ActiveGameOf(store, k, user)
      && forall id | ActiveGameOf(store, id, user) :: store[id].game.startedAt <= store[k].game.startedAt
  }

  // ---------------------------------------------------------------- the service

  /** How a request of a participant on game `id` is answered: the first thing wrong with it, or success. */
  ghost predicate Answers(store: map<nat, Row>, id: nat, user: UserId, commits: bool, error: Option<ServiceError>)
  {
    if id !in store then error == Some(GameNotFound)
    else
      var g := store[id].game;
      if g.status != Active then error == Some(GameNotActive)
      else if user != g.whiteId && user != g.blackId then error == Some(AccessDenied)
      else error == if commits then None else Some(CommitFailed)
  }

  /** A pass that has `left` to look at. */
  ghost predicate MidPass<P>(c: Rules<P>, before: map<nat, Row>, after: map<nat, Row>, left: set<nat>,
      updated: seq<nat>, now: int)
  {
    && after.Keys == before.Keys && left <= before.Keys
    && (forall id | id in before :: after[id] == if id in left then before[id] else MonitoredRow(c, before[id], now))
    && (forall id :: id in updated <==> id in before && after[id] != before[id])
  }

  lemma PassBegins<P>(c: Rules<P>, store: map<nat, Row>, left: set<nat>, now: int)
    requires left <= store.Keys && forall id | id in store && id !in left :: store[id].game.status != Active
    ensures MidPass(c, store, store, left, [], now)
  {
  }

  lemma PendingRow<P>(c: Rules<P>, before: map<nat, Row>, after: map<nat, Row>, left: set<nat>, updated: seq<nat>,
      now: int, id: nat)
    requires MidPass(c, before, after, left, updated, now) && id in left
    ensures id in after && id in before && after[id] == before[id]
  {
  }

  lemma PassOver<P>(c: Rules<P>, before: map<nat, Row>, after: map<nat, Row>, left: set<nat>, updated: seq<nat>,
      now: int, id: nat)
    requires MidPass(c, before, after, left, updated, now) && id in left && MonitoredRow(c, after[id], now) == after[id]
    ensures MidPass(c, before, after, left - {id}, updated, now)
  {
  }

  lemma EndOne<P>(c: Rules<P>, before: map<nat, Row>, after: map<nat, Row>, left: set<nat>, updated: seq<nat>, now: int,
      id: nat)
    requires MidPass(c, before, after, left, updated, now) && id in left && MonitoredRow(c, after[id], now) != after[id]
    ensures MidPass(c, before, after[id := MonitoredRow(c, after[id], now)], left - {id}, updated + [id], now)
  {
    hide MonitoredRow;
  }

  lemma PassMeans<P>(c: Rules<P>, before: map<nat, Row>, after: map<nat, Row>, left: set<nat>, updated: seq<nat>,
      now: int)
    requires MidPass(c, before, after, left, updated, now)
    ensures after.Keys == before.Keys
    ensures forall id | id in after ::
            after[id] == if id in updated then StepRow(c, before[id], MonitorPass(now)) else before[id]
    ensures forall id | id in updated :: id in after && after[id] != before[id]
    ensures left == {} ==> forall id | id in after :: after[id] == StepRow(c, before[id], MonitorPass(now))
    ensures forall id | id in left ::
            id in after && StepRow(c, before[id], MonitorPass(now)) == MonitoredRow(c, after[id], now)
  {
    forall id | id in before ensures MonitoredRow(c, before[id], now) == StepRow(c, before[id], MonitorPass(now)) {
      hide Capture, RemainingMs, ActivePlayer;
    }
    hide MonitoredRow, StepRow;
  }

  class Service<P> {
    const rules: Rules<P>
    var store: map<nat, Row>

    constructor (c: Rules<P>)
      ensures store == map[] && rules == c
    {
      rules := c;
      store := map[];
    }

    method CreateGame(id: nat, whiteId: UserId, blackId: UserId, initialMs: nat, incrementMs: nat, now: int,
        commits: bool)
      returns (error: Option<ServiceError>)
      requires id !in store
      modifies this
      ensures error == if commits then None else Some(CommitFailed)
      ensures store == if commits then old(store)[id := Row(NewGame(whiteId, blackId, initialMs, incrementMs, now), [])]
                       else old(store)
    {
      if !commits { return Some(CommitFailed); }
      store := store[id := Row(NewGame(whiteId, blackId, initialMs, incrementMs, now), [])];
      return None;
    }

    /** `_require_active_game` */
    function NotPlayable(id: nat): (e: Option<ServiceError>)
      reads this
    {
      if id !in store then Some(GameNotFound) else if store[id].game.status != Active then Some(GameNotActive) else None
    }

    method MakeMove(id: nat, user: UserId, uci: Uci, now: int, commits: bool) returns (error: Option<ServiceError>)
      modifies this
      ensures id !in old(store) ==> error == Some(GameNotFound)
      ensures id in old(store) && old(store)[id].game.status != Active ==> error == Some(GameNotActive)
      ensures id in old(store) && old(store)[id].game.status == Active ==>
                error == match MakeMoveRow(rules, old(store)[id], user, uci, now).1
                         case Some(refusal) => Some(BadMove(refusal))
                         case None => if commits then None else Some(CommitFailed)
      ensures store == if error.None? then old(store)[id := StepRow(rules, old(store)[id], MoveMade(user, uci, now))]
                       else old(store)
    {
      error := NotPlayable(id);
      if error.Some? { return; }
      hide PlayerMove, Capture, RemainingMs, ActivePlayer;
      var game := new GameEntity(store[id].game);
      var moves := store[id].moves;
      var loser := ActivePlayer(rules, game.Value());
      if RemainingMs(rules, game.Value(), now) <= 0 && loser.Some? {
        game.TimeOut(loser.value, Capture(rules, game.Value(), now), now, ByClockTimeout);
      } else {
        var refusal, move := game.ApplyPlayerMove(rules, user, uci, |moves| + 1, now, moves);
        if refusal.Some? { return Some(BadMove(refusal.value)); }
        moves := moves + [move.value];
      }
      if !commits { return Some(CommitFailed); }
      store := store[id := Row(game.Value(), moves)];
      return None;
    }

    method Save(id: nat, game: Game, commits: bool) returns (error: Option<ServiceError>)
      requires id in store
      modifies this
      ensures error == if commits then None else Some(CommitFailed)
      ensures store == if commits then old(store)[id := old(store)[id].(game := game)] else old(store)
    {
      if !commits { return Some(CommitFailed); }
      store := store[id := store[id].(game := game)];
      return None;
    }

    method Resign(id: nat, user: UserId, now: int, commits: bool) returns (error: Option<ServiceError>)
      modifies this
      ensures Answers(old(store), id, user, commits, error)
      ensures store == if error.None? then old(store)[id := StepRow(rules, old(store)[id], ResignBy(user, now))]
                       else old(store)
    {
      error := NotPlayable(id);
      if error.Some? { return; }
      var game := new GameEntity(store[id].game);
      if !Participant(game.Value(), user) { return Some(AccessDenied); }
      game.Resign(user, Capture(rules, game.Value(), now), now);
      error := Save(id, game.Value(), commits);
    }

    method StopForIdentityVerificationFailure(id: nat, user: UserId, now: int, commits: bool)
      returns (error: Option<ServiceError>)
      modifies this
      ensures Answers(old(store), id, user, commits, error)
      ensures store == if error.None? then old(store)[id := StepRow(rules, old(store)[id], IdentityFailed(user, now))]
                       else old(store)
    {
      error := NotPlayable(id);
      if error.Some? { return; }
      var game := new GameEntity(store[id].game);
      if !Participant(game.Value(), user) { return Some(AccessDenied); }
      game.ForfeitForIdentityFailure(user, Capture(rules, game.Value(), now), now);
      error := Save(id, game.Value(), commits);
    }

    /** No earlier offer is asked for: either participant ends an active game in a draw. */
    method AcceptDraw(id: nat, user: UserId, now: int, commits: bool) returns (error: Option<ServiceError>)
      modifies this
      ensures Answers(old(store), id, user, commits, error)
      ensures store == if error.None? then old(store)[id := StepRow(rules, old(store)[id], DrawAccepted(user, now))]
                       else old(store)
    {
      error := NotPlayable(id);
      if error.Some? { return; }
      var game := new GameEntity(store[id].game);
      if !Participant(game.Value(), user) { return Some(AccessDenied); }
      game.AcceptDraw(Capture(rules, game.Value(), now), now);
      error := Save(id, game.Value(), commits);
    }

    /** `get_active_by_user`: the newest active game of the user. */
    method NewestActiveGame(user: UserId) returns (found: Option<nat>)
      ensures NewestOf(store, user, found)
    {
      found := None;
      var left := store.Keys;
      while left != {}
        invariant left <= store.Keys
        invariant found.Some? ==> ActiveGameOf(store, found.value, user)
        invariant forall id | ActiveGameOf(store, id, user) && id !in left ::
                    found.Some? && store[id].game.startedAt <= store[found.value].game.startedAt
        decreases |left|
      {
        var id :| id in left;
        left := left - {id};
        if store[id].game.status == Active && Participant(store[id].game, user)
           && (found.None? || store[found.value].game.startedAt < store[id].game.startedAt) {
          found := Some(id);
        }
      }
    }

    /** Pauses the newest active game of the user, and no other. */
    method MarkDisconnected(user: UserId, now: int, graceSeconds: int, commits: bool)
      returns (touched: Option<nat>, error: Option<ServiceError>)
      modifies this
      ensures NewestOf(old(store), user, touched)
      ensures error == if touched.None? || commits then None else Some(CommitFailed)
      ensures store == if touched.Some? && commits
                       then var left := Disconnect(user, now, graceSeconds);
                            old(store)[touched.value := StepRow(rules, old(store)[touched.value], left)]
                       else old(store)
    {
      touched := NewestActiveGame(user);
      if touched.None? { return None, None; }
      var game := new GameEntity(store[touched.value].game);
      game.PauseForDisconnect(user, Capture(rules, game.Value(), now), now, graceSeconds);
      error := Save(touched.value, game.Value(), commits);
    }

    /** Resumes the newest active game of the user if the user is the one it waits for. */
    method MarkReconnected(user: UserId, now: int, commits: bool)
      returns (touched: Option<nat>, error: Option<ServiceError>)
      modifies this
      ensures NewestOf(old(store), user, touched)
      ensures error == if touched.None? || commits || old(store)[touched.value].game.absent != Some(user) then None
                       else Some(CommitFailed)
      ensures store == if touched.Some? && commits
                       then old(store)[touched.value := StepRow(rules, old(store)[touched.value], Reconnect(user, now))]
                       else old(store)
    {
      touched := NewestActiveGame(user);
      if touched.None? || store[touched.value].game.absent != Some(user) { return touched, None; }
      var game := new GameEntity(store[touched.value].game);
      game.ResumeAfterReconnect(now);
      error := Save(touched.value, game.Value(), commits);
    }

    /** One pass over the active games, in any order; `commits` says of each commit of the pass whether it succeeds. A
        commit that fails ends the pass, and what was committed before it stays. */
    method MonitorActiveGames(now: int, commits: nat -> bool) returns (updated: seq<nat>, error: Option<ServiceError>)
      modifies this
      ensures store.Keys == old(store).Keys
      ensures forall id | id in store ::
                store[id] == if id in updated then StepRow(rules, old(store)[id], MonitorPass(now)) else old(store)[id]
      ensures forall id | id in updated :: id in store && store[id] != old(store)[id]
      ensures forall i | 0 <= i < |updated| :: commits(i)
      ensures error.None? ==> forall id | id in store :: store[id] == StepRow(rules, old(store)[id], MonitorPass(now))
      ensures error.Some? ==>
                error == Some(CommitFailed) && !commits(|updated|)
                && exists id :: id in store && store[id] != StepRow(rules, old(store)[id], MonitorPass(now))
    {
      hide *;
      ghost var before := store;
      updated := [];
      var left := set id | id in store && store[id].game.status == Active;
      PassBegins(rules, store, left, now);
      while left != {}
        invariant left <= store.Keys && forall id | id in left :: store[id].game.status == Active
        invariant MidPass(rules, before, store, left, updated, now)
        invariant forall i | 0 <= i < |updated| :: commits(i)
        decreases |left|
      {
        var id :| id in left;
        var row := store[id];
        PendingRow(rules, before, store, left, updated, now, id);
        var ended := MonitorGame(row, now);
        if ended.None? {
          PassOver(rules, before, store, left, updated, now, id);
        } else if commits(|updated|) {
          EndOne(rules, before, store, left, updated, now, id);
          store := store[id := row.(game := ended.value)];
          updated := updated + [id];
        } else {
          PassMeans(rules, before, store, left, updated, now);
          error := Some(CommitFailed);
          return;
        }
        left := left - {id};
      }
      PassMeans(rules, before, store, left, updated, now);
      error := None;
    }

    /** The body of the monitor loop: the ended game, if the pass ends it. */
    method MonitorGame(row: Row, now: int) returns (ended: Option<Game>)
      requires row.game.status == Active
      ensures if ended.Some?
              then row.(game := ended.value) == MonitoredRow(rules, row, now) && ended.value.status != Active
              else MonitoredRow(rules, row, now) == row
    {
      hide Capture, RemainingMs, ActivePlayer;
      var game := new GameEntity(row.game);
      var s := Capture(rules, row.game, now);
      if game.graceUntil.Some? && game.graceUntil.value <= now {
        if |row.moves| >= MEANINGFUL_START_MOVE_COUNT {
          var loser := if game.absent.Some? then game.absent else ActivePlayer(rules, row.game);
          if loser.None? { return None; }
          game.TimeOut(loser.value, s, now, ByDisconnectTimeout);
        } else {
          game.Abort(s, now);
        }
        return Some(game.Value());
      }
      if RemainingMs(rules, row.game, now) <= 0 {
        var loser := ActivePlayer(rules, row.game);
        if loser.None? { return None; }
        game.TimeOut(loser.value, s, now, ByClockTimeout);
        return Some(game.Value());
      }
      return None;
    }
  }
}
