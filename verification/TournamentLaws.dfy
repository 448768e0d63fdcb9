/** What every run of a tournament keeps: the score ledger, the order of the rounds, and progress. */
module TournamentLaws {
  import opened Common
  import opened Swiss
  import opened SwissRound
  import opened SwissHistory
  import opened TournamentRun

  /** Half points `id` has from one stored pairing. */
  function PointsIn(id: Id): Pairing -> int
  {
    (p: Pairing) =>
      if p.result.None? then 0
      else
        (if p.white == id then ScoreForResult(p.result).value.0 else 0)
        + (if p.black == Some(id) then ScoreForResult(p.result).value.1 else 0)
  }

  function Decided(): Pairing -> int { (p: Pairing) => if p.result.Some? then 1 else 0 }

  /** A stored pairing is a decided bye, or a game between two listed players with its own game id. */
  ghost predicate ProperRow(ids: set<Id>, games: nat, p: Pairing)
  {
    && p.round >= 1 && p.white in ids
    && (p.black.None? ==> p.game.None? && p.result == Some(WhiteWins))
    && (p.black.Some? ==> p.black.value in ids && p.black.value != p.white && p.game.Some? && p.game.value < games)
  }

  ghost predicate ProperRows(ids: set<Id>, games: nat, pairings: seq<Pairing>)
  {
    forall p | p in pairings :: ProperRow(ids, games, p)
  }

  ghost predicate GamesDistinct(pairings: seq<Pairing>)
  {
    forall i, j | 0 <= i < j < |pairings| :: pairings[i].game.Some? ==> pairings[i].game != pairings[j].game
  }

  /** A player's score is the sum of what the stored pairings gave that player. */
  ghost predicate Ledger(players: seq<Player>, pairings: seq<Pairing>)
  {
    forall p | p in players :: p.score == Sum(PointsIn(p.id), pairings)
  }

  ghost predicate AtMostOncePerRound(pairings: seq<Pairing>, rounds: nat)
  {
    forall id :: Sum(AppearsIn(id), pairings) <= rounds
  }

  /** The tables of a tournament that has created `rounds` rounds. */
  ghost predicate Tables(t: Tournament, rounds: nat)
  {
    && DistinctIds(t.players)
    && ProperRows(Ids(t.players), t.games, t.pairings)
    && GamesDistinct(t.pairings)
    && Ledger(t.players, t.pairings)
    && AtMostOncePerRound(t.pairings, rounds)
    && forall p | p in t.pairings :: p.round <= rounds
  }

  ghost predicate AllDecided(pairings: seq<Pairing>) { forall p | p in pairings :: p.result.Some? }

  ghost predicate EarlierDecided(t: Tournament) { forall p | p in t.pairings && p.round < t.round :: p.result.Some? }

  ghost predicate Inv(t: Tournament)
  {
    && Tables(t, t.round)
    && match t.status
       case Active =>
         1 <= t.round <= t.total && EarlierDecided(t) && Sum(OpenIn(t.round), t.pairings) <= |t.players| / 2
       case Finished => 1 <= t.round == t.total && AllDecided(t.pairings)
       case _ => t.round == 0 && t.pairings == []
  }

  // ---------------------------------------------------------------- the rows of a new round

  function ByeIn(id: Id): Assignment -> int { (a: Assignment) => if a.black.None? && a.white == id then 2 else 0 }

  /** What the rows of a round give `id`, how often they name `id`, and how many of them are open. */
  ghost predicate SumsMatch(r: seq<Assignment>, round: nat, rows: seq<Pairing>, id: Id)
  {
    && Sum(PointsIn(id), rows) == Sum(ByeIn(id), r)
    && Sum(AppearsIn(id), rows) == Sum(Mentions(id), r)
    && Sum(OpenIn(round), rows) == Sum(IsGame(), r)
  }

  lemma RowSums(a: Assignment, round: nat, game: nat, id: Id)
    ensures var row := PairingFor(a, round, game);
            && PointsIn(id)(row) == ByeIn(id)(a) && AppearsIn(id)(row) == Mentions(id)(a)
            && OpenIn(round)(row) == IsGame()(a)
  {
    var row := PairingFor(a, round, game);
    assert WhiteIn(id)(row) == if a.white == id then 1 else 0;
    assert BlackIn(id)(row) == if a.black == Some(id) then 1 else 0;
  }

  lemma SumsMatchSnoc(r: seq<Assignment>, a: Assignment, round: nat, rows: seq<Pairing>, row: Pairing, id: Id)
    requires SumsMatch(r, round, rows, id)
    requires PointsIn(id)(row) == ByeIn(id)(a) && AppearsIn(id)(row) == Mentions(id)(a)
             && OpenIn(round)(row) == IsGame()(a)
    ensures SumsMatch(r + [a], round, rows + [row], id)
  {
    hide Sum, PointsIn, ByeIn, AppearsIn, Mentions, OpenIn, IsGame;
    SumSnoc(PointsIn(id), rows, row);
    SumSnoc(AppearsIn(id), rows, row);
    SumSnoc(OpenIn(round), rows, row);
    SumSnoc(ByeIn(id), r, a);
    SumSnoc(Mentions(id), r, a);
    SumSnoc(IsGame(), r, a);
  }

  lemma {:induction false} RoundSums(r: seq<Assignment>, round: nat, firstGame: nat, id: Id)
    ensures SumsMatch(r, round, RoundPairings(r, round, firstGame), id)
  {
    if r != [] {
      var n := |r| - 1;
      var front, a := r[..n], r[n];
      RoundSums(front, round, firstGame, id);
      GameCount(front);
      var game := firstGame + Sum(IsGame(), front);
      assert RoundPairings(r, round, firstGame)
             == RoundPairings(front, round, firstGame) + [PairingFor(a, round, game)];
      assert r == front + [a];
      hide *;
      RowSums(a, round, game, id);
      SumsMatchSnoc(front, a, round, RoundPairings(front, round, firstGame), PairingFor(a, round, game), id);
    }
  }

  /** The games of a new round are numbered on from the games so far, one each. */
  lemma {:induction false} RoundRows(r: seq<Assignment>, round: nat, firstGame: nat, i: nat)
    requires i < |r|
    ensures var rows := RoundPairings(r, round, firstGame);
            && rows[i].round == round && rows[i].white == r[i].white && rows[i].black == r[i].black
            && (r[i].black.None? ==> rows[i].game.None? && rows[i].result == Some(WhiteWins))
            && (r[i].black.Some? ==> rows[i].game.Some? && rows[i].result.None?
                                     && firstGame <= rows[i].game.value < firstGame + Sum(IsGame(), r))
            && forall j | 0 <= j < i :: rows[j].game.Some? ==> rows[j].game != rows[i].game
  {
    var n := |r| - 1;
    GameCount(r[..n]);
    if i < n {
      RoundRows(r[..n], round, firstGame, i);
    } else {
      forall j | 0 <= j < i
        ensures RoundPairings(r, round, firstGame)[j].game.Some?
            ==> RoundPairings(r, round, firstGame)[j].game != RoundPairings(r, round, firstGame)[i].game
      {
        RoundRows(r[..n], round, firstGame, j);
      }
    }
  }

  lemma {:induction false} CreditedRow(players: seq<Player>, r: seq<Assignment>, i: nat)
    requires i < |players|
    ensures CreditByes(players, r)[i] == players[i].(score := players[i].score + Sum(ByeIn(players[i].id), r))
  {
    if r != [] { CreditedRow(players, r[..|r| - 1], i); }
  }

  lemma SameIds(players: seq<Player>, players': seq<Player>)
    requires |players| == |players'| && forall i | 0 <= i < |players| :: players'[i].id == players[i].id
    ensures Ids(players) == Ids(players')
    ensures DistinctIds(players) ==> DistinctIds(players')
  {
    forall id ensures id in Ids(players) <==> id in Ids(players') {
      if id in Ids(players) {
        var p :| p in players && p.id == id;
        var i :| 0 <= i < |players| && players[i] == p;
        assert players'[i] in players';
      }
      if id in Ids(players') {
        var p :| p in players' && p.id == id;
        var i :| 0 <= i < |players'| && players'[i] == p;
        assert players[i] in players;
      }
    }
  }

  // ---------------------------------------------------------------- creating a round keeps the tables

  lemma NewRoundRows(t: Tournament, round: nat, i: nat)
    requires DistinctIds(t.players) && round >= 1 && i < |NextAssignments(t, round)|
    ensures var rows := RoundPairings(NextAssignments(t, round), round, t.games);
            && ProperRow(Ids(t.players), CreateRound(t, round).games, rows[i])
            && rows[i].round == round
            && (rows[i].game.Some? ==> rows[i].game.value >= t.games)
            && forall j | 0 <= j < i :: rows[j].game.Some? ==> rows[j].game != rows[i].game
  {
    var active, r := ActivePlayers(t.players), NextAssignments(t, round);
    ActivePlayersKept(t.players);
    assert r[i] in r;
    hide Assignments;
    NoSelfPairing(active, t.pairings, round, r[i]);
    RoundRows(r, round, t.games, i);
    assert forall id | id in Ids(active) :: id in Ids(t.players);
  }

  lemma NewRoundOnce(t: Tournament, round: nat, id: Id)
    requires DistinctIds(t.players)
    ensures Sum(Mentions(id), NextAssignments(t, round)) <= 1
  {
    ActivePlayersKept(t.players);
    hide Assignments;
    ExactCover(ActivePlayers(t.players), t.pairings, round, id);
  }

  lemma {:induction false} ActiveCount(players: seq<Player>)
    ensures |ActivePlayers(players)| <= |players|
  {
    if players != [] { ActiveCount(players[..|players| - 1]); }
  }

  lemma NewRoundGames(t: Tournament, round: nat)
    ensures Sum(IsGame(), NextAssignments(t, round)) <= |t.players| / 2
  {
    var active, r := ActivePlayers(t.players), NextAssignments(t, round);
    ActiveCount(t.players);
    GameCount(r);
    if |active| % 2 == 1 {
      assert r == [r[0]] + r[1..];
      SumConcat(IsGame(), [r[0]], r[1..]);
      SumOne(IsGame(), r[0]);
      GameCount(r[1..]);
    }
  }

  lemma RoundShape(t: Tournament, round: nat)
    ensures var r := NextAssignments(t, round);
            var t' := CreateRound(t, round);
            && t' == t.(players := CreditByes(t.players, r),
                        pairings := t.pairings + RoundPairings(r, round, t.games), games := t'.games)
            && t'.games >= t.games
  {
    GameCount(NextAssignments(t, round));
  }

  lemma RoundPlayers(t: Tournament, round: nat)
    requires DistinctIds(t.players)
    ensures var t' := CreateRound(t, round);
            && Ids(t'.players) == Ids(t.players) && DistinctIds(t'.players) && |t'.players| == |t.players|
            && forall i | 0 <= i < |t.players| ::
                 var p := t.players[i];
                 t'.players[i] == p.(score := p.score + Sum(ByeIn(p.id), NextAssignments(t, round)))
  {
    var t', r := CreateRound(t, round), NextAssignments(t, round);
    RoundShape(t, round);
    hide CreateRound, NextAssignments, CreditByes, Sum, Ids, DistinctIds;
    forall i | 0 <= i < |t.players|
      ensures t'.players[i] == t.players[i].(score := t.players[i].score + Sum(ByeIn(t.players[i].id), r))
    {
      CreditedRow(t.players, r, i);
    }
    SameIds(t.players, t'.players);
  }

  lemma RoundLedger(t: Tournament, round: nat)
    requires DistinctIds(t.players) && Ledger(t.players, t.pairings)
    ensures Ledger(CreateRound(t, round).players, CreateRound(t, round).pairings)
  {
    var t', r := CreateRound(t, round), NextAssignments(t, round);
    var rows := RoundPairings(r, round, t.games);
    RoundShape(t, round);
    RoundPlayers(t, round);
    hide CreateRound, NextAssignments, RoundPairings, CreditByes, Sum, Ids, DistinctIds;
    forall p | p in t'.players ensures p.score == Sum(PointsIn(p.id), t'.pairings) {
      var i :| 0 <= i < |t'.players| && t'.players[i] == p;
      assert t.players[i] in t.players && t.players[i].id == p.id;
      RoundSums(r, round, t.games, p.id);
      SumConcat(PointsIn(p.id), t.pairings, rows);
    }
  }

  lemma MoreRows(t: Tournament, t': Tournament, rows: seq<Pairing>)
    requires ProperRows(Ids(t.players), t.games, t.pairings) && GamesDistinct(t.pairings)
    requires t.games <= t'.games && t'.pairings == t.pairings + rows && Ids(t'.players) == Ids(t.players)
    requires forall i | 0 <= i < |rows| ::
               && ProperRow(Ids(t.players), t'.games, rows[i])
               && (rows[i].game.Some? ==> rows[i].game.value >= t.games)
               && forall j | 0 <= j < i :: rows[j].game.Some? ==> rows[j].game != rows[i].game
    ensures ProperRows(Ids(t'.players), t'.games, t'.pairings) && GamesDistinct(t'.pairings)
  {
    forall i, j | 0 <= i < j < |t'.pairings|
      ensures t'.pairings[i].game.Some? ==> t'.pairings[i].game != t'.pairings[j].game
    {
      if i < |t.pairings| <= j {
        assert ProperRow(Ids(t.players), t.games, t.pairings[i]);
      }
    }
  }

  lemma RoundProper(t: Tournament, round: nat)
    requires DistinctIds(t.players) && round >= 1
    requires ProperRows(Ids(t.players), t.games, t.pairings) && GamesDistinct(t.pairings)
    ensures var t' := CreateRound(t, round);
            && ProperRows(Ids(t'.players), t'.games, t'.pairings) && GamesDistinct(t'.pairings)
            && forall p | p in t'.pairings && p.round != round :: p in t.pairings
  {
    var t' := CreateRound(t, round);
    var rows := RoundPairings(NextAssignments(t, round), round, t.games);
    RoundShape(t, round);
    RoundPlayers(t, round);
    hide *;
    forall i | 0 <= i < |rows|
      ensures ProperRow(Ids(t.players), t'.games, rows[i]) && rows[i].round == round
      ensures rows[i].game.Some? ==> rows[i].game.value >= t.games
      ensures forall j | 0 <= j < i :: rows[j].game.Some? ==> rows[j].game != rows[i].game
    {
      NewRoundRows(t, round, i);
    }
    MoreRows(t, t', rows);
  }

  lemma RoundCounts(t: Tournament, n: nat)
    requires DistinctIds(t.players) && AtMostOncePerRound(t.pairings, n)
    requires forall p | p in t.pairings :: p.round <= n
    ensures var t' := CreateRound(t, n + 1);
            AtMostOncePerRound(t'.pairings, n + 1) && Sum(OpenIn(n + 1), t'.pairings) <= |t.players| / 2
  {
    var t', r := CreateRound(t, n + 1), NextAssignments(t, n + 1);
    var rows := RoundPairings(r, n + 1, t.games);
    RoundShape(t, n + 1);
    NewRoundGames(t, n + 1);
    hide CreateRound, NextAssignments, RoundPairings, CreditByes, Sum, DistinctIds;
    forall id ensures Sum(AppearsIn(id), t'.pairings) <= n + 1 {
      NewRoundOnce(t, n + 1, id);
      RoundSums(r, n + 1, t.games, id);
      SumConcat(AppearsIn(id), t.pairings, rows);
    }
    RoundSums(r, n + 1, t.games, 0);
    SumConcat(OpenIn(n + 1), t.pairings, rows);
    SumConst(OpenIn(n + 1), 0, t.pairings);
  }

  /** A round created on decided tables keeps them, and leaves only its own games open. */
  lemma RoundCreated(t: Tournament, n: nat)
    requires Tables(t, n) && AllDecided(t.pairings)
    ensures var t' := CreateRound(t, n + 1);
            && Tables(t', n + 1)
            && |t'.players| == |t.players|
            && (forall p | p in t'.pairings && p.round < n + 1 :: p.result.Some?)
            && Sum(OpenIn(n + 1), t'.pairings) <= |t'.players| / 2
  {
    var t' := CreateRound(t, n + 1);
    hide CreateRound, Sum, DistinctIds, Ledger, GamesDistinct, ProperRows, AtMostOncePerRound, Ids;
    RoundPlayers(t, n + 1);
    RoundLedger(t, n + 1);
    RoundProper(t, n + 1);
    RoundCounts(t, n);
  }

  // ---------------------------------------------------------------- storing a result keeps the tables

  lemma StoredResultSums(pairings: seq<Pairing>, k: nat, result: PairingResult, id: Id, round: nat)
    requires k < |pairings| && pairings[k].result.None?
    ensures var p, p' := pairings[k], pairings[k].(result := Some(result));
            var stored := pairings[k := p'];
            && Sum(PointsIn(id), stored) == Sum(PointsIn(id), pairings) + PointsIn(id)(p')
            && Sum(AppearsIn(id), stored) == Sum(AppearsIn(id), pairings)
            && Sum(OpenIn(round), stored) == Sum(OpenIn(round), pairings) - (if p.round == round then 1 else 0)
  {
    var p, p' := pairings[k], pairings[k].(result := Some(result));
    SumUpdate(PointsIn(id), pairings, k, p');
    SumUpdate(AppearsIn(id), pairings, k, p');
    SumUpdate(OpenIn(round), pairings, k, p');
    assert WhiteIn(id)(p') == WhiteIn(id)(p) && BlackIn(id)(p') == BlackIn(id)(p);
  }

  ghost predicate OpenGame(t: Tournament, k: nat)
  {
    && k < |t.pairings| && t.pairings[k].result.None? && t.pairings[k].round == t.round
    && t.pairings[k].black.Some? && t.pairings[k].black.value != t.pairings[k].white
    && t.pairings[k].white in Ids(t.players) && t.pairings[k].black.value in Ids(t.players)
  }

  /** The pairing a sync decides is an open game of the current round of an active tournament. */
  lemma TargetIsOpen(t: Tournament, game: nat, view: Option<GameView>)
    requires Inv(t) && SyncTarget(t, game, view).Some?
    ensures t.status == Active
    ensures OpenGame(t, SyncTarget(t, game, view).value.0)
  {
    var p := t.pairings[SyncTarget(t, game, view).value.0];
    assert p in t.pairings && ProperRow(Ids(t.players), t.games, p);
  }

  lemma ResultShape(t: Tournament, k: nat, result: PairingResult)
    requires OpenGame(t, k)
    ensures var o := ApplyPairingResult(t, k, result);
            var p' := t.pairings[k].(result := Some(result));
            && o.error.None?
            && o.state == t.(players := o.state.players, pairings := t.pairings[k := p'])
            && |o.state.players| == |t.players|
            && forall i | 0 <= i < |t.players| ::
                 o.state.players[i] == t.players[i].(score := t.players[i].score + PointsIn(t.players[i].id)(p'))
  {
    var o := ApplyPairingResult(t, k, result);
    assert o.error.None?;
    hide Ids;
  }

  lemma ResultLedger(t: Tournament, t': Tournament, k: nat, result: PairingResult)
    requires Ledger(t.players, t.pairings) && OpenGame(t, k)
    requires t' == ApplyPairingResult(t, k, result).state
    ensures Ledger(t'.players, t'.pairings)
  {
    ResultShape(t, k, result);
    hide ApplyPairingResult, Sum, PointsIn, OpenGame, AppearsIn, OpenIn;
    forall i | 0 <= i < |t'.players| ensures t'.players[i].score == Sum(PointsIn(t'.players[i].id), t'.pairings) {
      assert t.players[i] in t.players;
      StoredResultSums(t.pairings, k, result, t.players[i].id, t.round);
    }
  }

  lemma ResultRows(t: Tournament, t': Tournament, k: nat, result: PairingResult)
    requires ProperRows(Ids(t.players), t.games, t.pairings) && GamesDistinct(t.pairings) && OpenGame(t, k)
    requires t' == t.(players := t'.players, pairings := t.pairings[k := t.pairings[k].(result := Some(result))])
    ensures ProperRows(Ids(t.players), t'.games, t'.pairings) && GamesDistinct(t'.pairings)
    ensures (forall q | q in t.pairings :: q.round <= t.round) ==> forall q | q in t'.pairings :: q.round <= t.round
  {
    hide Ids;
    assert t.pairings[k] in t.pairings;
    forall q | q in t'.pairings ensures q == t.pairings[k].(result := Some(result)) || q in t.pairings {
    }
  }

  lemma ResultOnce(t: Tournament, k: nat, result: PairingResult)
    requires AtMostOncePerRound(t.pairings, t.round) && OpenGame(t, k)
    ensures AtMostOncePerRound(t.pairings[k := t.pairings[k].(result := Some(result))], t.round)
  {
    hide AppearsIn, Sum;
    forall id ensures Sum(AppearsIn(id), t.pairings[k := t.pairings[k].(result := Some(result))]) <= t.round {
      StoredResultSums(t.pairings, k, result, id, t.round);
    }
  }

  lemma ResultTables(t: Tournament, t': Tournament, k: nat, result: PairingResult)
    requires Tables(t, t.round) && OpenGame(t, k)
    requires t' == ApplyPairingResult(t, k, result).state
    ensures Tables(t', t.round)
  {
    hide ApplyPairingResult, Ids, DistinctIds, Ledger, PointsIn, ProperRows, GamesDistinct, OpenGame,
         AtMostOncePerRound;
    ResultShape(t, k, result);
    ResultLedger(t, t', k, result);
    SameIds(t.players, t'.players);
    ResultOnce(t, k, result);
    ResultRows(t, t', k, result);
  }

  lemma ResultEarlier(t: Tournament, t': Tournament, k: nat, result: PairingResult)
    requires EarlierDecided(t) && k < |t.pairings|
    requires t' == t.(players := t'.players, pairings := t.pairings[k := t.pairings[k].(result := Some(result))])
    ensures EarlierDecided(t')
  {
    forall q | q in t'.pairings && q.round < t'.round ensures q.result.Some? {
      assert q == t.pairings[k].(result := Some(result)) || q in t.pairings;
    }
  }

  lemma ResultStored(t: Tournament, k: nat, result: PairingResult)
    requires Inv(t) && t.status == Active && OpenGame(t, k)
    ensures var o := ApplyPairingResult(t, k, result);
            && o.error.None? && Inv(o.state)
            && Sum(OpenIn(t.round), o.state.pairings) == Sum(OpenIn(t.round), t.pairings) - 1
  {
    assert k < |t.pairings| && t.pairings[k].round == t.round && t.pairings[k].result.None?;
    hide ApplyPairingResult, Sum, Tables, OpenGame, EarlierDecided, AllDecided, PointsIn, AppearsIn, OpenIn;
    var o := ApplyPairingResult(t, k, result);
    ResultShape(t, k, result);
    ResultTables(t, o.state, k, result);
    ResultEarlier(t, o.state, k, result);
    StoredResultSums(t.pairings, k, result, 0, t.round);
  }

  // ---------------------------------------------------------------- every operation keeps the invariant

  lemma NextRoundKeeps(base: Tournament, n: nat)
    requires Tables(base, n) && AllDecided(base.pairings)
    requires base.status == Active && base.round == n + 1 <= base.total
    ensures Inv(CreateRound(base, n + 1))
  {
    hide CreateRound, Tables, Sum;
    RoundCreated(base, n);
    RoundShape(base, n + 1);
  }

  lemma ActiveFacts(t: Tournament)
    requires Inv(t) && t.status == Active
    ensures Tables(t, t.round) && 1 <= t.round <= t.total
    ensures RoundComplete(t) ==> AllDecided(t.pairings)
    ensures Sum(OpenIn(t.round), t.pairings) <= |t.players| / 2
  {
  }

  lemma SameTables(t: Tournament, t': Tournament, n: nat)
    requires Tables(t, n) && t'.players == t.players && t'.pairings == t.pairings && t'.games == t.games
    ensures Tables(t', n)
  {
  }

  lemma FinishKeeps(t: Tournament)
    requires Inv(t) && t.status == Active && RoundComplete(t) && t.round >= t.total
    ensures Inv(t.(status := Finished))
  {
    ActiveFacts(t);
    hide Sum;
    SameTables(t, t.(status := Finished), t.round);
  }

  lemma AdvanceKeeps(t: Tournament, requireReady: bool)
    requires Inv(t)
    ensures Inv(AdvanceIfRoundComplete(t, requireReady).state)
  {
    hide Inv, CreateRound, Tables, Sum, RoundComplete, AllDecided;
    if t.status == Active && RoundComplete(t) {
      ActiveFacts(t);
      if t.round < t.total {
        var base := t.(round := t.round + 1);
        SameTables(t, base, t.round);
        NextRoundKeeps(base, t.round);
      } else {
        FinishKeeps(t);
      }
    }
  }

  lemma SyncKeeps(t: Tournament, game: nat, view: Option<GameView>)
    requires Inv(t)
    ensures Inv(Sync(t, game, view).state) && Sync(t, game, view).error.None?
  {
    var target := SyncTarget(t, game, view);
    if target.Some? {
      TargetIsOpen(t, game, view);
      hide Inv, AdvanceIfRoundComplete;
      ResultStored(t, target.value.0, target.value.1);
      AdvanceKeeps(ApplyPairingResult(t, target.value.0, target.value.1).state, false);
    }
  }

  lemma StartKeeps(t: Tournament, actor: Id)
    requires Inv(t)
    ensures Inv(Start(t, actor).state)
  {
    var o := Start(t, actor);
    if o.error.None? {
      var total := if t.total != 0 then t.total else SwissRoundCount(|ActivePlayers(t.players)|);
      var base := t.(status := Active, round := 1, total := total);
      hide CreateRound, Tables;
      SameTables(t, base, 0);
      NextRoundKeeps(base, 0);
    }
  }

  lemma EmptyTables(t: Tournament)
    requires DistinctIds(t.players) && t.pairings == [] && forall p | p in t.players :: p.score == 0
    ensures Tables(t, 0)
  {
    hide Ids;
    assert forall id :: Sum(AppearsIn(id), t.pairings) == 0;
  }

  /** The requests that reach one tournament, and the player rows that entry payments write. */
  datatype Event =
    | JoinEvent(user: Id, rating: Option<int>, now: int)
    | LeaveEvent(user: Id)
    | WithdrawEvent(actor: Id, user: Id)
    | StartEvent(actor: Id)
    | AdvanceEvent(actor: Id)
    | SyncEvent(game: nat, view: Option<GameView>)
    | EntryPaidEvent(user: Id, seed: int, now: int)
    | EntryRefundedEvent(user: Id)

  /** What may change who plays in a started tournament. */
  predicate ChangesField(e: Event) { e.WithdrawEvent? || e.EntryPaidEvent? || e.EntryRefundedEvent? }

  function Step(t: Tournament, e: Event): Outcome
  {
    match e
    case JoinEvent(user, rating, now) => Join(t, user, rating, now)
    case LeaveEvent(user) => Leave(t, user)
    case WithdrawEvent(actor, user) => Withdraw(t, actor, user)
    case StartEvent(actor) => Start(t, actor)
    case AdvanceEvent(actor) => Advance(t, actor)
    case SyncEvent(game, view) => Sync(t, game, view)
    case EntryPaidEvent(user, seed, now) => Outcome(EntryPaid(t, user, seed, now), None)
    case EntryRefundedEvent(user) => Outcome(EntryRefunded(t, user), None)
  }

  lemma RegistrationKeeps(t: Tournament, e: Event)
    requires Inv(t) && (e.JoinEvent? || e.LeaveEvent?)
    ensures Inv(Step(t, e).state)
  {
    var t' := Step(t, e).state;
    if t' != t {
      assert forall p | p in t.players :: p.score == Sum(PointsIn(p.id), []) == 0;
      if e.LeaveEvent? {
        var k := FindPlayer(t.players, e.user).value;
        forall i, j | 0 <= i < j < |t'.players| ensures t'.players[i].id != t'.players[j].id {
          assert t'.players[i] == t.players[if i < k then i else i + 1];
          assert t'.players[j] == t.players[if j < k then j else j + 1];
        }
      }
      EmptyTables(t');
    }
  }

  /** The same rows but for who is active. */
  ghost predicate OnlyFlags(players: seq<Player>, players': seq<Player>)
  {
    && |players'| == |players|
    && forall i | 0 <= i < |players| :: players'[i].(active := true) == players[i].(active := true)
  }

  lemma FlagsKeep(t: Tournament, players: seq<Player>)
    requires Inv(t) && OnlyFlags(t.players, players)
    ensures Inv(t.(players := players))
  {
    hide Sum;
    SameIds(t.players, players);
    hide Ids, DistinctIds;
    forall p | p in players ensures p.score == Sum(PointsIn(p.id), t.pairings) {
      var i :| 0 <= i < |players| && players[i] == p;
      assert t.players[i] in t.players && t.players[i].id == p.id;
    }
  }

  lemma NoPoints(pairings: seq<Pairing>, ids: set<Id>, games: nat, id: Id)
    requires ProperRows(ids, games, pairings) && id !in ids
    ensures Sum(PointsIn(id), pairings) == 0
  {
    forall p | p in pairings ensures PointsIn(id)(p) == 0 { assert ProperRow(ids, games, p); }
    SumConst(PointsIn(id), 0, pairings);
  }

  lemma MorePlayers(t: Tournament, p: Player)
    requires Inv(t) && p.score == 0 && forall q | q in t.players :: q.id != p.id
    ensures Inv(t.(players := t.players + [p]))
  {
    var players := t.players + [p];
    assert Ids(players) == Ids(t.players) + {p.id} by {
      assert forall q :: q in players <==> q in t.players || q == p;
    }
    NoPoints(t.pairings, Ids(t.players), t.games, p.id);
    assert ProperRows(Ids(players), t.games, t.pairings) by {
      forall r | r in t.pairings ensures ProperRow(Ids(players), t.games, r) {
        assert ProperRow(Ids(t.players), t.games, r);
      }
      hide Ids;
    }
    hide Sum, Ids, ProperRows;
  }

  /** Withdrawals and payments change rows only in who is active, and add at most one player. */
  lemma FieldKeeps(t: Tournament, e: Event)
    requires Inv(t) && ChangesField(e)
    ensures var t' := Step(t, e).state;
            && Inv(t') && t' == t.(players := t'.players)
            && |t.players| <= |t'.players| <= |t.players| + 1 && OnlyFlags(t.players, t'.players[..|t.players|])
            && forall i | |t.players| <= i < |t'.players| :: t'.players[i].score == 0
  {
    var players := Step(t, e).state.players;
    if |players| == |t.players| {
      assert players[..|t.players|] == players;
      FlagsKeep(t, players);
    } else {
      var p := players[|t.players|];
      assert players == t.players + [p] && players[..|t.players|] == t.players;
      MorePlayers(t, p);
    }
    hide Inv;
  }

  /** Whom the next round would pair. */
  ghost predicate Plays(t: Tournament, id: Id) { exists p :: p in t.players && p.id == id && p.active }

  /** A paid entry has its player paired from then on, a refund or a withdrawal ends that; nobody else is concerned. */
  lemma FieldChangesOne(t: Tournament, e: Event, id: Id)
    requires DistinctIds(t.players) && ChangesField(e) && Step(t, e).error.None?
    ensures Plays(Step(t, e).state, id) <==> if id == e.user then e.EntryPaidEvent? else Plays(t, id)
  {
    var players, players' := t.players, Step(t, e).state.players;
    match FindPlayer(players, e.user)
    case None =>
    case Some(k) =>
      assert players' == players[k := players[k].(active := e.EntryPaidEvent?)];
      assert players'[k] in players';
      forall p: Player | p.id != e.user ensures p in players' <==> p in players {
        if p in players {
          var i :| 0 <= i < |players| && players[i] == p;
          assert players'[i] == p;
        }
      }
  }

  function Run(t: Tournament, events: seq<Event>): Tournament
  {
    if events == [] then t else Step(Run(t, events[..|events| - 1]), events[|events| - 1]).state
  }

  lemma StepKeeps(t: Tournament, e: Event)
    requires Inv(t)
    ensures Inv(Step(t, e).state)
  {
    hide Inv, Start, Sync, AdvanceIfRoundComplete;
    match e
    case StartEvent(actor) => StartKeeps(t, actor);
    case AdvanceEvent(actor) => AdvanceKeeps(t, true);
    case SyncEvent(game, view) => SyncKeeps(t, game, view);
    case JoinEvent(_, _, _) => RegistrationKeeps(t, e);
    case LeaveEvent(_) => RegistrationKeeps(t, e);
    case _ => FieldKeeps(t, e);
  }

  /** Whatever happens to a tournament, in whatever order, the invariant holds. */
  lemma {:induction false} RunKeeps(t: Tournament, events: seq<Event>)
    requires Inv(t)
    ensures Inv(Run(t, events))
  {
    hide Inv, Step;
    if events != [] {
      RunKeeps(t, events[..|events| - 1]);
      StepKeeps(Run(t, events[..|events| - 1]), events[|events| - 1]);
    }
  }

  lemma CreatedInv(owner: Id, rating: int, total: nat, now: int)
    ensures Inv(Created(owner, rating, total, now))
  {
    EmptyTables(Created(owner, rating, total, now));
  }

  // ---------------------------------------------------------------- the score ledger

  function ScoreOfPlayer(): Player -> int { (p: Player) => p.score }

  function PointsOf(pairings: seq<Pairing>): Id -> int { (id: Id) => Sum(PointsIn(id), pairings) }

  /** The points of white and black. */
  function PointsFor(p: Pairing): (int, int) { if p.result.Some? then ScoreForResult(p.result).value else (0, 0) }

  function BlackOrWhite(p: Pairing): Id { if p.black.Some? then p.black.value else p.white }

  lemma PointsBumped(before: seq<Pairing>, p: Pairing, id: Id)
    requires p.black != Some(p.white) && (p.black.None? ==> p.result == Some(WhiteWins))
    ensures PointsOf(before + [p])(id)
         == Bump(Bump(PointsOf(before), p.white, PointsFor(p).0), BlackOrWhite(p), PointsFor(p).1)(id)
  {
    SumSnoc(PointsIn(id), before, p);
    hide Sum;
  }

  lemma {:induction false} PointsShared(pairings: seq<Pairing>, ids: seq<Id>)
    requires Distinct(ids)
    requires forall p | p in pairings ::
             p.white in ids && (p.black.Some? ==> p.black.value in ids && p.black.value != p.white)
    requires forall p | p in pairings && p.black.None? :: p.result == Some(WhiteWins)
    ensures Sum(PointsOf(pairings), ids) == 2 * Sum(Decided(), pairings)
  {
    if pairings == [] {
      SumConst(PointsOf(pairings), 0, ids);
    } else {
      var n := |pairings| - 1;
      var before, p := pairings[..n], pairings[n];
      assert pairings == before + [p];
      PointsShared(before, ids);
      SumSnoc(Decided(), before, p);
      hide Sum, PointsOf, Distinct;
      forall id: Id { PointsBumped(before, p, id); }
      BumpTwice(PointsOf(before), p.white, PointsFor(p).0, BlackOrWhite(p), PointsFor(p).1, ids, PointsOf(pairings));
    }
  }

  lemma {:induction false} ScoresAsPoints(players: seq<Player>, pairings: seq<Pairing>)
    requires Ledger(players, pairings)
    ensures Sum(ScoreOfPlayer(), players) == Sum(PointsOf(pairings), IdsOf(players))
  {
    if players != [] {
      ScoresAsPoints(players[..|players| - 1], pairings);
      assert players[|players| - 1] in players;
      assert IdsOf(players)[..|players| - 1] == IdsOf(players[..|players| - 1]);
    }
  }

  lemma PointsCapped(pairings: seq<Pairing>, id: Id, rounds: nat)
    requires AtMostOncePerRound(pairings, rounds) && forall p | p in pairings :: p.black != Some(p.white)
    ensures 0 <= Sum(PointsIn(id), pairings) <= 2 * rounds
  {
    var twice := (p: Pairing) => AppearsIn(id)(p) + AppearsIn(id)(p);
    forall p | p in pairings ensures 0 <= PointsIn(id)(p) <= twice(p) {
      assert WhiteIn(id)(p) == (if p.white == id then 1 else 0)
             && BlackIn(id)(p) == (if p.black == Some(id) then 1 else 0);
    }
    SumAtMost(PointsIn(id), twice, pairings);
    SumPlus(AppearsIn(id), AppearsIn(id), twice, pairings);
    var zero := (p: Pairing) => 0;
    SumConst(zero, 0, pairings);
    SumAtMost(zero, PointsIn(id), pairings);
  }

  /** In every run the scores of all players together are one point for each pairing with a result,
      byes included, and nobody has more than a point a round. */
  lemma ScoreLedger(owner: Id, rating: int, total: nat, now: int, events: seq<Event>)
    ensures var t := Run(Created(owner, rating, total, now), events);
            && Sum(ScoreOfPlayer(), t.players) == 2 * Sum(Decided(), t.pairings)
            && forall p | p in t.players :: 0 <= p.score <= 2 * t.round
  {
    var t := Run(Created(owner, rating, total, now), events);
    CreatedInv(owner, rating, total, now);
    RunKeeps(Created(owner, rating, total, now), events);
    hide Run, Created, Sum;
    assert Tables(t, t.round);
    forall id | id in Ids(t.players) ensures id in IdsOf(t.players) {
      var p :| p in t.players && p.id == id;
      var i :| 0 <= i < |t.players| && t.players[i] == p;
      assert IdsOf(t.players)[i] == id;
    }
    assert forall p | p in t.pairings :: ProperRow(Ids(t.players), t.games, p);
    PointsShared(t.pairings, IdsOf(t.players));
    ScoresAsPoints(t.players, t.pairings);
    forall p | p in t.players ensures 0 <= p.score <= 2 * t.round {
      PointsCapped(t.pairings, p.id, t.round);
    }
  }

  // ---------------------------------------------------------------- syncing

  lemma OnlyRowOfGame(t: Tournament, k: nat, game: nat)
    requires GamesDistinct(t.pairings) && k < |t.pairings| && t.pairings[k].game == Some(game)
    ensures FindGame(t.pairings, game) == Some(k)
  {
    var f := FindGame(t.pairings, game);
    assert f.Some? by { assert t.pairings[k] in t.pairings; }
  }

  lemma AdvanceKeepsRow(t: Tournament, requireReady: bool, k: nat)
    requires k < |t.pairings|
    ensures var t' := AdvanceIfRoundComplete(t, requireReady).state;
            k < |t'.pairings| && t'.pairings[k] == t.pairings[k]
  {
    hide RoundPairings, NextAssignments;
  }

  /** A sync decides its pairing for good: whatever the game repository says later, syncing the same
      game again changes nothing. A sync without effect has none the second time either. */
  lemma SyncTwice(t: Tournament, game: nat, view: Option<GameView>, later: Option<GameView>)
    requires Inv(t)
    ensures var t' := Sync(t, game, view).state;
            t' != t || later == view ==> Sync(t', game, later) == Outcome(t', None)
  {
    var target := SyncTarget(t, game, view);
    var t' := Sync(t, game, view).state;
    if target.Some? {
      var (k, result) := target.value;
      TargetIsOpen(t, game, view);
      SyncKeeps(t, game, view);
      ResultShape(t, k, result);
      hide ApplyPairingResult, AdvanceIfRoundComplete;
      AdvanceKeepsRow(ApplyPairingResult(t, k, result).state, false, k);
      assert GamesDistinct(t'.pairings);
      OnlyRowOfGame(t', k, game);
    }
  }

  // ---------------------------------------------------------------- progress

  lemma {:induction false} OpenCount(pairings: seq<Pairing>, round: nat)
    ensures Sum(OpenIn(round), pairings) >= 0
    ensures Sum(OpenIn(round), pairings) == 0 <==> forall p | p in pairings && p.round == round :: p.result.Some?
  {
    if pairings != [] {
      var n := |pairings| - 1;
      OpenCount(pairings[..n], round);
      assert pairings == pairings[..n] + [pairings[n]];
    }
  }

  /** An active tournament either waits for an open game of its current round,
      or its owner can advance it: exactly one of the two. */
  lemma NeverStuck(t: Tournament)
    requires Inv(t) && t.status == Active
    ensures Advance(t, t.owner).error.None?
       <==> !exists p :: p in t.pairings && p.round == t.round && p.result.None? && p.game.Some? && p.black.Some?
  {
    hide CreateRound;
    forall p | p in t.pairings && p.result.None? ensures p.game.Some? && p.black.Some? {
      assert ProperRow(Ids(t.players), t.games, p);
    }
  }

  function Weight(rounds: int, games: nat): int { rounds * (games + 1) }

  /** Rounds still to come weigh more than every game of a round; the last unit is the finish. */
  function Measure(t: Tournament): int
  {
    if t.status != Active then 0 else Weight(t.total - t.round, |t.players| / 2) + Sum(OpenIn(t.round), t.pairings) + 1
  }

  lemma WeightNonNegative(rounds: nat, games: nat)
    ensures Weight(rounds, games) >= 0
  {
  }

  lemma MeasurePositive(t: Tournament)
    requires Inv(t)
    ensures Measure(t) >= 0 && (t.status == Active ==> Measure(t) >= 1)
  {
    if t.status == Active {
      ActiveFacts(t);
      hide Inv, Tables, Sum;
      OpenCount(t.pairings, t.round);
      WeightNonNegative(t.total - t.round, |t.players| / 2);
    }
  }

  lemma FewerRounds(rounds: int, games: nat)
    ensures Weight(rounds - 1, games) == Weight(rounds, games) - games - 1
  {
  }

  lemma NewRoundLowers(t: Tournament, t': Tournament)
    requires Inv(t) && Inv(t') && t.status == Active && t.round < t.total
    requires t' == CreateRound(t.(round := t.round + 1), t.round + 1)
    ensures Measure(t') < Measure(t) && |t'.players| == |t.players|
    ensures t'.status == Active && t'.round == t.round + 1 && t'.total == t.total
  {
    hide Inv, CreateRound, Sum, Tables, NextAssignments, RoundPairings, CreditByes, Weight, Ids;
    var base := t.(round := t.round + 1);
    RoundShape(base, base.round);
    ActiveFacts(t);
    ActiveFacts(t');
    OpenCount(t.pairings, t.round);
    FewerRounds(t.total - t.round, |t.players| / 2);
  }

  lemma FinishLowers(t: Tournament)
    requires Inv(t) && t.status == Active
    ensures Measure(t.(status := Finished)) < Measure(t)
  {
    MeasurePositive(t);
  }

  lemma AdvanceLowers(t: Tournament, requireReady: bool)
    requires Inv(t) && AdvanceIfRoundComplete(t, requireReady).state != t
    ensures var t' := AdvanceIfRoundComplete(t, requireReady).state;
            && Measure(t') < Measure(t) && |t'.players| == |t.players| && t'.total == t.total
            && ((t'.status == Finished && t'.round == t.round) || (t'.status == Active && t'.round == t.round + 1))
            && (t'.round == t.round ==> t'.pairings == t.pairings)
  {
    hide Inv, CreateRound, Sum, RoundComplete, Measure;
    var t' := AdvanceIfRoundComplete(t, requireReady).state;
    AdvanceKeeps(t, requireReady);
    if t.round < t.total {
      NewRoundLowers(t, t');
    } else {
      FinishLowers(t);
    }
  }

  lemma ResultLowers(t: Tournament, k: nat, result: PairingResult)
    requires Inv(t) && t.status == Active && OpenGame(t, k)
    ensures var o := ApplyPairingResult(t, k, result);
            && o.error.None? && Inv(o.state) && Measure(o.state) == Measure(t) - 1
            && |o.state.players| == |t.players| && o.state.round == t.round && o.state.total == t.total
            && Sum(OpenIn(t.round), o.state.pairings) == Sum(OpenIn(t.round), t.pairings) - 1
  {
    hide ApplyPairingResult, Sum, Inv, OpenGame, PointsIn, Weight;
    ResultShape(t, k, result);
    ResultStored(t, k, result);
  }

  /** What a finished game counts as in its pairing: its result, or a draw when it was aborted. */
  ghost predicate Counts(view: Option<GameView>, result: PairingResult)
  {
    && view.Some? && !view.value.active
    && (view.value.result == Some(result) || (view.value.result.None? && view.value.aborted && result == Draw))
  }

  /** A sync has an effect if and only if the pairing of the game is open and the game is over with a result or an
      abort, and then it stores exactly that, the aborted game as a draw, in that pairing. */
  lemma SyncStores(t: Tournament, game: nat, view: Option<GameView>)
    requires Inv(t)
    ensures Sync(t, game, view).state != t
       <==> FindGame(t.pairings, game).Some? && t.pairings[FindGame(t.pairings, game).value].result.None?
            && exists result :: Counts(view, result)
    ensures Sync(t, game, view).state != t ==>
              var k, t' := FindGame(t.pairings, game).value, Sync(t, game, view).state;
              && k < |t'.pairings| && t.pairings[k].round == t.round
              && t'.pairings[k].result.Some? && Counts(view, t'.pairings[k].result.value)
              && t'.pairings[k] == t.pairings[k].(result := t'.pairings[k].result)
  {
    var target := SyncTarget(t, game, view);
    if target.Some? {
      var (k, result) := target.value;
      TargetIsOpen(t, game, view);
      ResultShape(t, k, result);
      assert t.pairings[k].round == t.round;
      hide ApplyPairingResult, AdvanceIfRoundComplete, Inv, OpenGame;
      var mid := ApplyPairingResult(t, k, result).state;
      AdvanceKeepsRow(mid, false, k);
      assert Counts(view, result);
      assert Sync(t, game, view).state.pairings[k] == t.pairings[k].(result := Some(result));
    }
  }

  /** Every effective sync decides one open game of the current round by the game's own result, an abort counting as a
      draw, and lowers the measure, whether or not it also opens the next round or finishes the tournament. */
  lemma SyncLowers(t: Tournament, game: nat, view: Option<GameView>)
    requires Inv(t) && Sync(t, game, view).state != t
    ensures var t' := Sync(t, game, view).state;
            && Measure(t') < Measure(t) && |t'.players| == |t.players| && t'.total == t.total
            && (t'.round > t.round || (t'.round == t.round
                && Sum(OpenIn(t.round), t'.pairings) == Sum(OpenIn(t.round), t.pairings) - 1))
    ensures FindGame(t.pairings, game).Some?
    ensures var k, t' := FindGame(t.pairings, game).value, Sync(t, game, view).state;
            && t.pairings[k].round == t.round && t.pairings[k].result.None?
            && k < |t'.pairings| && t'.pairings[k].result.Some? && Counts(view, t'.pairings[k].result.value)
            && t'.pairings[k] == t.pairings[k].(result := t'.pairings[k].result)
  {
    SyncStores(t, game, view);
    hide ApplyPairingResult, AdvanceIfRoundComplete, SyncTarget, Inv, Measure, OpenGame, Counts;
    var (k, result) := SyncTarget(t, game, view).value;
    TargetIsOpen(t, game, view);
    ResultLowers(t, k, result);
    var mid := ApplyPairingResult(t, k, result).state;
    if AdvanceIfRoundComplete(mid, false).state != mid { AdvanceLowers(mid, false); }
  }

  /** The sync and advance requests of a run that changed something. */
  function Effective(t: Tournament, events: seq<Event>): nat
  {
    if events == [] then 0
    else
      var e := events[|events| - 1];
      var before := Run(t, events[..|events| - 1]);
      var counts := (e.SyncEvent? || e.AdvanceEvent?) && Step(before, e).state != before;
      Effective(t, events[..|events| - 1]) + if counts then 1 else 0
  }

  lemma SyncStatus(t: Tournament, game: nat, view: Option<GameView>)
    requires t.status == Active || t.status == Finished
    ensures Sync(t, game, view).state.status == Active || Sync(t, game, view).state.status == Finished
  {
  }

  lemma MulMonotone(k: nat, a: int, b: int)
    requires a <= b
    ensures k * a <= k * b
  {
  }

  lemma MoreWeight(rounds: nat, total: nat, n: nat, m: nat)
    requires rounds <= total && n <= m <= n + 1
    ensures Weight(rounds, m / 2) <= Weight(rounds, n / 2) + total * (m - n)
  {
    var more := m - n;
    assert m / 2 <= n / 2 + more;
    MulMonotone(rounds, m / 2 + 1, n / 2 + more + 1);
    assert rounds * (n / 2 + 1 + more) == rounds * (n / 2 + 1) + rounds * more;
  }

  lemma FieldMeasure(t: Tournament, e: Event)
    requires Inv(t) && ChangesField(e)
    ensures var t' := Step(t, e).state; Measure(t') <= Measure(t) + t.total * (|t'.players| - |t.players|)
  {
    var t' := Step(t, e).state;
    FieldKeeps(t, e);
    assert t.status == Active ==> t.round <= t.total;
    hide Inv, Sum, Weight, OnlyFlags, Step;
    if t.status == Active {
      MoreWeight(t.total - t.round, t.total, |t.players|, |t'.players|);
    } else {
      assert Measure(t') == Measure(t) == 0;
      MulMonotone(t.total, 0, |t'.players| - |t.players|);
    }
  }

  /** Once a tournament has started, joining, leaving and starting it again are refused. */
  lemma StartedRefuses(t: Tournament, e: Event)
    requires t.status == Active || t.status == Finished
    requires e.JoinEvent? || e.LeaveEvent? || e.StartEvent?
    ensures Step(t, e).state == t && Step(t, e).error.Some?
  {
  }

  lemma StepLowers(t: Tournament, e: Event)
    requires Inv(t) && (t.status == Active || t.status == Finished)
    ensures var t' := Step(t, e).state;
            && (t'.status == Active || t'.status == Finished)
            && t'.total == t.total && |t'.players| >= |t.players|
            && Measure(t') <= Measure(t) + t.total * (|t'.players| - |t.players|)
            && ((e.SyncEvent? || e.AdvanceEvent?) && t' != t ==>
                  Measure(t') < Measure(t) && |t'.players| == |t.players|)
  {
    hide Inv, AdvanceIfRoundComplete, Measure, Sync, OnlyFlags;
    var t' := Step(t, e).state;
    match e
    case AdvanceEvent(_) =>
      if t' != t { AdvanceLowers(t, true); }
    case SyncEvent(game, view) =>
      if t' != t {
        SyncLowers(t, game, view);
        SyncStatus(t, game, view);
      }
    case JoinEvent(_, _, _) => StartedRefuses(t, e);
    case LeaveEvent(_) => StartedRefuses(t, e);
    case StartEvent(_) => StartedRefuses(t, e);
    case _ =>
      hide Step;
      FieldKeeps(t, e);
      FieldMeasure(t, e);
  }

  lemma MoreTotal(total: nat, a: int, b: int)
    ensures total * a + total * b == total * (a + b)
  {
  }

  /** Once started, a tournament takes at most `Measure` effective syncs and advances, in any run of requests, that is
      (total - round) * (n / 2 + 1) + open games + 1 of them, and `total` more for each player that a payment adds. */
  lemma {:induction false} RunsEnd(t: Tournament, events: seq<Event>)
    requires Inv(t) && (t.status == Active || t.status == Finished)
    ensures Effective(t, events) + Measure(Run(t, events))
         <= Measure(t) + t.total * (|Run(t, events).players| - |t.players|)
    ensures Run(t, events).status == Active || Run(t, events).status == Finished
    ensures Run(t, events).total == t.total && |Run(t, events).players| >= |t.players|
    ensures Measure(Run(t, events)) >= 0
  {
    hide Inv, Measure, Step;
    if events == [] {
      MeasurePositive(t);
    } else {
      var n := |events| - 1;
      var before, after := Run(t, events[..n]), Run(t, events);
      RunsEnd(t, events[..n]);
      RunKeeps(t, events[..n]);
      RunKeeps(t, events);
      StepLowers(before, events[n]);
      MeasurePositive(after);
      MoreTotal(t.total, |before.players| - |t.players|, |after.players| - |before.players|);
    }
  }

  /** Finishing happens only after the last round with everything decided, and then only withdrawals and entry payments
      change anything, and only who is active or who is listed without points: no pairing, score, round or status. */
  lemma FinishedIsFinal(t: Tournament, e: Event)
    requires Inv(t)
    ensures var t' := Step(t, e).state;
            && (t'.status == Finished && t.status != Finished ==> t'.round == t'.total && AllDecided(t'.pairings))
            && (t.status == Finished ==>
                  && t' == t.(players := t'.players) && |t'.players| >= |t.players|
                  && OnlyFlags(t.players, t'.players[..|t.players|])
                  && (forall i | |t.players| <= i < |t'.players| :: t'.players[i].score == 0)
                  && (!ChangesField(e) ==> t' == t))
  {
    StepKeeps(t, e);
    if ChangesField(e) { FieldKeeps(t, e); }
    hide Tables, Ids;
    assert t.players[..|t.players|] == t.players;
    if t.status == Finished {
      match e
      case SyncEvent(game, view) =>
        if SyncTarget(t, game, view).Some? { TargetIsOpen(t, game, view); }
      case _ =>
    }
  }
}
