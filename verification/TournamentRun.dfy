/** The tournament service as a state machine: registration, rounds, synced results, the finish.
    Every operation maps the stored tournament to the next one and says which error it raises. */
module TournamentRun {
  import opened Common
  import opened Swiss
  import opened SwissRound

  datatype Status =
    | Draft | Published | Registration | RegistrationOpen | RegistrationClosed
    | Active | Running | Finished | Cancelled | Archived

  datatype Error =
    | InvalidConfiguration | Forbidden | PlayerNotFound | UserNotFound | RegistrationIsClosed | AlreadyJoined
    | OwnerCannotLeave | StartRequirementsNotMet | RoundNotReady

  /** The rows of one tournament; `games` counts the games created for it, whose ids are 0, 1, ... */
  datatype Tournament = Tournament(
    owner: Id, status: Status, round: nat, total: nat, players: seq<Player>, pairings: seq<Pairing>, games: nat)

  datatype Outcome = Outcome(state: Tournament, error: Option<Error>)

  /** What the game repository says of a game. */
  datatype GameView = GameView(active: bool, aborted: bool, result: Option<PairingResult>)

  // ---------------------------------------------------------------- rows

  function FindPlayer(players: seq<Player>, id: Id): (k: Option<nat>)
    ensures k.Some? ==> k.value < |players| && players[k.value].id == id
    ensures k.None? ==> forall p | p in players :: p.id != id
  {
    if players == [] then None
    else if players[|players| - 1].id == id then Some(|players| - 1)
    else FindPlayer(players[..|players| - 1], id)
  }

  function FindGame(pairings: seq<Pairing>, game: nat): (k: Option<nat>)
    ensures k.Some? ==> k.value < |pairings| && pairings[k.value].game == Some(game)
    ensures k.None? ==> forall p | p in pairings :: p.game != Some(game)
  {
    if pairings == [] then None
    else if pairings[|pairings| - 1].game == Some(game) then Some(|pairings| - 1)
    else FindGame(pairings[..|pairings| - 1], game)
  }

  /** The player rows with `d` half points added to the row of `id`. */
  function Credit(players: seq<Player>, id: Id, d: int): (r: seq<Player>)
    ensures |r| == |players|
    ensures forall i | 0 <= i < |r| ::
            r[i] == players[i].(score := players[i].score + if players[i].id == id then d else 0)
  {
    if players == [] then []
    else
      var last := players[|players| - 1];
      Credit(players[..|players| - 1], id, d) + [last.(score := last.score + if last.id == id then d else 0)]
  }

  // ---------------------------------------------------------------- creating a round

  function IsGame(): Assignment -> int { (a: Assignment) => if a.black.Some? then 1 else 0 }

  lemma {:induction false} GameCount(r: seq<Assignment>)
    ensures 0 <= Sum(IsGame(), r) <= |r|
  {
    if r != [] { GameCount(r[..|r| - 1]); }
  }

  /** The row added for an assignment: a decided bye, or an open pairing with its own game. */
  function PairingFor(a: Assignment, round: nat, game: nat): Pairing
  {
    if a.black.None? then Pairing(round, a.white, None, None, Some(WhiteWins))
    else Pairing(round, a.white, a.black, Some(game), None)
  }

  function RoundPairings(r: seq<Assignment>, round: nat, firstGame: nat): (s: seq<Pairing>)
    ensures |s| == |r|
  {
    if r == [] then []
    else
      var n := |r| - 1;
      GameCount(r[..n]);
      RoundPairings(r[..n], round, firstGame) + [PairingFor(r[n], round, firstGame + Sum(IsGame(), r[..n]))]
  }

  /** Byes are worth a full point at once. */
  function CreditByes(players: seq<Player>, r: seq<Assignment>): (s: seq<Player>)
    ensures |s| == |players|
  {
    if r == [] then players
    else
      var n := |r| - 1;
      var before := CreditByes(players, r[..n]);
      if r[n].black.None? then Credit(before, r[n].white, 2) else before
  }

  lemma RoundEmpty(players: seq<Player>, round: nat, firstGame: nat)
    ensures Sum(IsGame(), []) == 0 && RoundPairings([], round, firstGame) == [] && CreditByes(players, []) == players
  {
  }

  lemma RoundSnoc(players: seq<Player>, r: seq<Assignment>, a: Assignment, round: nat, firstGame: nat)
    ensures Sum(IsGame(), r + [a]) == Sum(IsGame(), r) + (if a.black.Some? then 1 else 0) && Sum(IsGame(), r) >= 0
    ensures RoundPairings(r + [a], round, firstGame)
         == RoundPairings(r, round, firstGame) + [PairingFor(a, round, firstGame + Sum(IsGame(), r))]
    ensures CreditByes(players, r + [a])
         == var before := CreditByes(players, r); if a.black.None? then Credit(before, a.white, 2) else before
  {
    assert (r + [a])[..|r|] == r;
    SumSnoc(IsGame(), r, a);
    GameCount(r);
  }

  function NextAssignments(t: Tournament, round: nat): seq<Assignment>
  {
    Assignments(ActivePlayers(t.players), t.pairings, round)
  }

  /** `_create_round_pairings` for `round`. */
  function CreateRound(t: Tournament, round: nat): Tournament
  {
    var r := NextAssignments(t, round);
    GameCount(r);
    t.(players := CreditByes(t.players, r),
       pairings := t.pairings + RoundPairings(r, round, t.games),
       games := t.games + Sum(IsGame(), r))
  }

  // ---------------------------------------------------------------- the operations

  function Power2(r: nat): (p: nat)
    ensures p > r
  {
    if r == 0 then 1 else 2 * Power2(r - 1)
  }

  function RoundsFrom(n: nat, r: nat): (k: nat)
    requires r >= 1 && Power2(r - 1) < n
    ensures k >= r && Power2(k - 1) < n <= Power2(k)
    decreases n - Power2(r - 1)
  {
    if n <= Power2(r) then r else RoundsFrom(n, r + 1)
  }

  /** `swiss_round_count`: the least number of rounds whose power of two reaches the field. */
  function SwissRoundCount(n: nat): (r: nat)
    ensures n < 2 ==> r == 0
    ensures n >= 2 ==> r >= 1 && Power2(r - 1) < n <= Power2(r)
  {
    if n < 2 then 0 else RoundsFrom(n, 1)
  }

  /** `join_tournament`; `rating` is the rating of the user's account, if there is one. */
  function Join(t: Tournament, user: Id, rating: Option<int>, now: int): Outcome
  {
    if t.status != Registration && t.status != RegistrationOpen then Outcome(t, Some(RegistrationIsClosed))
    else if FindPlayer(t.players, user).Some? then Outcome(t, Some(AlreadyJoined))
    else if rating.None? then Outcome(t, Some(UserNotFound))
    else Outcome(t.(players := t.players + [Player(user, rating.value, 0, now, true)]), None)
  }

  function Leave(t: Tournament, user: Id): Outcome
  {
    if t.status != Registration && t.status != RegistrationOpen then Outcome(t, Some(RegistrationIsClosed))
    else if t.owner == user then Outcome(t, Some(OwnerCannotLeave))
    else match FindPlayer(t.players, user)
      case None => Outcome(t, Some(PlayerNotFound))
      case Some(k) => Outcome(t.(players := Without(t.players, k)), None)
  }

  function Withdraw(t: Tournament, actor: Id, user: Id): Outcome
  {
    if actor != user && t.owner != actor then Outcome(t, Some(Forbidden))
    else match FindPlayer(t.players, user)
      case None => Outcome(t, Some(PlayerNotFound))
      case Some(k) => Outcome(t.(players := t.players[k := t.players[k].(active := false)]), None)
  }

  /** The player row a successful entry payment leaves: the player's own, active again, or a new one without points. */
  function EntryPaid(t: Tournament, user: Id, rating: int, now: int): Tournament
  {
    match FindPlayer(t.players, user)
    case None => t.(players := t.players + [Player(user, rating, 0, now, true)])
    case Some(k) => t.(players := t.players[k := t.players[k].(active := true)])
  }

  /** A refunded entry payment withdraws the player, if there is one. */
  function EntryRefunded(t: Tournament, user: Id): Tournament
  {
    match FindPlayer(t.players, user)
    case None => t
    case Some(k) => t.(players := t.players[k := t.players[k].(active := false)])
  }

  function Start(t: Tournament, actor: Id): Outcome
  {
    if t.owner != actor then Outcome(t, Some(Forbidden))
    else if t.status != Registration && t.status != RegistrationOpen && t.status != RegistrationClosed
    then Outcome(t, Some(RegistrationIsClosed))
    else
      var total := if t.total != 0 then t.total else SwissRoundCount(|ActivePlayers(t.players)|);
      if total == 0 then Outcome(t, Some(StartRequirementsNotMet))
      else Outcome(CreateRound(t.(status := Active, round := 1, total := total), 1), None)
  }

  function OpenIn(round: nat): Pairing -> int { (p: Pairing) => if p.round == round && p.result.None? then 1 else 0 }

  predicate RoundComplete(t: Tournament)
  {
    forall p | p in t.pairings && p.round == t.round :: p.result.Some?
  }

  /** `_advance_if_round_complete` */
  function AdvanceIfRoundComplete(t: Tournament, requireReady: bool): Outcome
  {
    if t.status != Active || !RoundComplete(t) then Outcome(t, if requireReady then Some(RoundNotReady) else None)
    else if t.round >= t.total then Outcome(t.(status := Finished), None)
    else Outcome(CreateRound(t.(round := t.round + 1), t.round + 1), None)
  }

  function Advance(t: Tournament, actor: Id): Outcome
  {
    if t.owner != actor then Outcome(t, Some(Forbidden)) else AdvanceIfRoundComplete(t, true)
  }

  /** `_apply_pairing_result`: the result is stored first, so a missing player leaves it stored without scores. */
  function ApplyPairingResult(t: Tournament, k: nat, result: PairingResult): Outcome
    requires k < |t.pairings|
  {
    var p := t.pairings[k];
    var stored := t.(pairings := t.pairings[k := p.(result := Some(result))]);
    var points := ScoreForResult(Some(result)).value;
    if FindPlayer(t.players, p.white).None? || (p.black.Some? && FindPlayer(t.players, p.black.value).None?)
    then Outcome(stored, Some(PlayerNotFound))
    else
      var credited := Credit(t.players, p.white, points.0);
      Outcome(stored.(players := if p.black.Some? then Credit(credited, p.black.value, points.1) else credited), None)
  }

  function ResolvePairingResult(view: GameView): Option<PairingResult>
  {
    if view.result.Some? then view.result else if view.aborted then Some(Draw) else None
  }

  /** The pairing and result a sync would store, if it has any effect. */
  function SyncTarget(t: Tournament, game: nat, view: Option<GameView>): (target: Option<(nat, PairingResult)>)
    ensures target.Some? ==> target.value.0 < |t.pairings| && t.pairings[target.value.0].game == Some(game)
                             && t.pairings[target.value.0].result.None?
  {
    var k := FindGame(t.pairings, game);
    if k.None? || t.pairings[k.value].result.Some? || view.None? || view.value.active then None
    else match ResolvePairingResult(view.value)
      case None => None
      case Some(result) => Some((k.value, result))
  }

  /** `sync_game_result` */
  function Sync(t: Tournament, game: nat, view: Option<GameView>): Outcome
  {
    match SyncTarget(t, game, view)
    case None => Outcome(t, None)
    case Some((k, result)) =>
      var applied := ApplyPairingResult(t, k, result);
      if applied.error.Some? then applied else AdvanceIfRoundComplete(applied.state, false)
  }

  // ---------------------------------------------------------------- the service object

  function Created(owner: Id, rating: int, total: nat, now: int): Tournament
  {
    Tournament(owner, Registration, 0, total, [Player(owner, rating, 0, now, true)], [], 0)
  }

  class TournamentService {
    var owner: Id
    var status: Status
    var currentRound: nat
    var totalRounds: nat
    var players: seq<Player>
    var pairings: seq<Pairing>
    var games: nat

    function State(): Tournament
      reads this
    {
      Tournament(owner, status, currentRound, totalRounds, players, pairings, games)
    }

    constructor (ownerId: Id, rating: int, total: nat, now: int)
      ensures State() == Created(ownerId, rating, total, now)
    {
      owner, status, currentRound, totalRounds := ownerId, Registration, 0, total;
      players, pairings, games := [Player(ownerId, rating, 0, now, true)], [], 0;
    }

    /** `create_tournament`; a blank name and a clock that is none are refused, `rating` is the owner's, if known. */
    static method CreateTournament(
      owner: Id, blankName: bool, validClock: bool, rating: Option<int>, total: nat, now: int)
      returns (service: TournamentService?, error: Option<Error>)
      ensures error == if blankName || !validClock then Some(InvalidConfiguration)
                       else if rating.None? then Some(UserNotFound) else None
      ensures error.Some? <==> service == null
      ensures error.None? ==> fresh(service) && service.State() == Created(owner, rating.value, total, now)
    {
      service := null;
      if blankName || !validClock { return null, Some(InvalidConfiguration); }
      if rating.None? { return null, Some(UserNotFound); }
      service := new TournamentService(owner, rating.value, total, now);
      error := None;
    }

    /** The rows of the tournament that a successful entry payment writes. */
    method ConfirmEntry(user: Id, rating: int, now: int)
      modifies this`players
      ensures State() == EntryPaid(old(State()), user, rating, now)
    {
      var k := FindPlayer(players, user);
      if k.Some? {
        players := players[k.value := players[k.value].(active := true)];
      } else {
        players := players + [Player(user, rating, 0, now, true)];
      }
    }

    /** The row that a refunded entry payment writes. */
    method WithdrawEntry(user: Id)
      modifies this`players
      ensures State() == EntryRefunded(old(State()), user)
    {
      var k := FindPlayer(players, user);
      if k.Some? { players := players[k.value := players[k.value].(active := false)]; }
    }

    method JoinTournament(user: Id, rating: Option<int>, now: int) returns (error: Option<Error>)
      modifies this
      ensures Outcome(State(), error) == Join(old(State()), user, rating, now)
    {
      if status != Registration && status != RegistrationOpen { return Some(RegistrationIsClosed); }
      var existing := FindPlayer(players, user);
      if existing.Some? { return Some(AlreadyJoined); }
      if rating.None? { return Some(UserNotFound); }
      players := players + [Player(user, rating.value, 0, now, true)];
      return None;
    }

    method LeaveTournament(user: Id) returns (error: Option<Error>)
      modifies this
      ensures Outcome(State(), error) == Leave(old(State()), user)
    {
      if status != Registration && status != RegistrationOpen { return Some(RegistrationIsClosed); }
      if owner == user { return Some(OwnerCannotLeave); }
      var k := FindPlayer(players, user);
      if k.None? { return Some(PlayerNotFound); }
      players := Without(players, k.value);
      return None;
    }

    method WithdrawPlayer(actor: Id, user: Id) returns (error: Option<Error>)
      modifies this
      ensures Outcome(State(), error) == Withdraw(old(State()), actor, user)
    {
      if actor != user && owner != actor { return Some(Forbidden); }
      var k := FindPlayer(players, user);
      if k.None? { return Some(PlayerNotFound); }
      players := players[k.value := players[k.value].(active := false)];
      return None;
    }

    method StartTournament(actor: Id) returns (error: Option<Error>)
      requires DistinctIds(players)
      modifies this
      ensures Outcome(State(), error) == Start(old(State()), actor)
    {
      if owner != actor { return Some(Forbidden); }
      if status != Registration && status != RegistrationOpen && status != RegistrationClosed {
        return Some(RegistrationIsClosed);
      }
      var total := if totalRounds != 0 then totalRounds else SwissRoundCount(|ActivePlayers(players)|);
      if total == 0 { return Some(StartRequirementsNotMet); }
      status, currentRound, totalRounds := Active, 1, total;
      CreateRoundPairings(1);
      return None;
    }

    method AdvanceTournament(actor: Id) returns (error: Option<Error>)
      requires DistinctIds(players)
      modifies this
      ensures Outcome(State(), error) == Advance(old(State()), actor)
    {
      if owner != actor { return Some(Forbidden); }
      error := AdvanceWhenComplete(true);
    }

    method AdvanceWhenComplete(requireReady: bool) returns (error: Option<Error>)
      requires DistinctIds(players)
      modifies this
      ensures Outcome(State(), error) == AdvanceIfRoundComplete(old(State()), requireReady)
    {
      hide CreateRound;
      var notReady := if requireReady then Some(RoundNotReady) else None;
      if status != Active { return notReady; }
      if exists p :: p in pairings && p.round == currentRound && p.result.None? { return notReady; }
      if currentRound >= totalRounds {
        status := Finished;
        return None;
      }
      currentRound := currentRound + 1;
      CreateRoundPairings(currentRound);
      return None;
    }

    method SyncGameResult(game: nat, view: Option<GameView>) returns (error: Option<Error>)
      requires DistinctIds(players)
      modifies this
      ensures Outcome(State(), error) == Sync(old(State()), game, view)
    {
      var k := FindGame(pairings, game);
      if k.None? || pairings[k.value].result.Some? { return None; }
      if view.None? || view.value.active { return None; }
      var result := ResolvePairingResult(view.value);
      if result.None? { return None; }
      error := StorePairingResult(k.value, result.value);
      if error.Some? { return; }
      error := AdvanceWhenComplete(false);
    }

    method StorePairingResult(k: nat, result: PairingResult) returns (error: Option<Error>)
      requires k < |pairings| && DistinctIds(players)
      modifies this`pairings, this`players
      ensures Outcome(State(), error) == ApplyPairingResult(old(State()), k, result) && DistinctIds(players)
    {
      var p := pairings[k];
      pairings := pairings[k := p.(result := Some(result))];
      var points := ScoreForResult(Some(result)).value;
      var white := FindPlayer(players, p.white);
      if white.None? { return Some(PlayerNotFound); }
      if p.black.Some? {
        var black := FindPlayer(players, p.black.value);
        if black.None? { return Some(PlayerNotFound); }
        players := Credit(Credit(players, p.white, points.0), p.black.value, points.1);
      } else {
        players := Credit(players, p.white, points.0);
      }
      return None;
    }

    /** The loop of `_create_round_pairings`; byes are collected and stored after it. */
    method CreateRoundPairings(round: nat)
      requires DistinctIds(players)
      modifies this`pairings, this`players, this`games
      ensures State() == CreateRound(old(State()), round)
    {
      hide Assignments, ActivePlayers, DistinctIds, PairingFor, Sum, RoundPairings, CreditByes;
      var active := ActivePlayers(players);
      ActivePlayersKept(players);
      var assignments := GenerateSwissPairings(active, pairings, round);
      assert assignments == NextAssignments(State(), round);
      hide NextAssignments;
      var changed := players;
      RoundEmpty(players, round, games);
      assert assignments[..0] == [];
      for i := 0 to |assignments|
        invariant players == old(players)
        invariant pairings == old(pairings) + RoundPairings(assignments[..i], round, old(games))
        invariant games == old(games) + Sum(IsGame(), assignments[..i])
        invariant changed == CreditByes(players, assignments[..i])
      {
        var a := assignments[i];
        assert assignments[..i + 1] == assignments[..i] + [a];
        RoundSnoc(players, assignments[..i], a, round, old(games));
        pairings := pairings + [PairingFor(a, round, games)];
        if a.black.None? {
          changed := Credit(changed, a.white, 2);
        } else {
          games := games + 1;
        }
      }
      assert assignments[..|assignments|] == assignments;
      players := changed;
    }
  }
}
