/** What each request to a tournament does, said of the rows themselves: scores as wins and draws, who may do what and
    when, what a synced result leads to, and whom a new round pairs. */
module TournamentRules {
  import opened Common
  import opened Swiss
  import opened SwissRound
  import opened TournamentRun
  import opened TournamentLaws

  // ---------------------------------------------------------------- scores

  /** Won by the player, with either colour; a bye is a win. */
  function WonBy(id: Id): Pairing -> int
  {
    (p: Pairing) =>
      if (p.white == id && p.result == Some(WhiteWins)) || (p.black == Some(id) && p.result == Some(BlackWins)) then 1
      else 0
  }

  function DrawnWith(id: Id): Pairing -> int
  {
    (p: Pairing) => if p.result == Some(Draw) && (p.white == id || p.black == Some(id)) then 1 else 0
  }

  lemma {:induction false} PointsAreWinsAndDraws(pairings: seq<Pairing>, id: Id)
    requires forall p | p in pairings :: p.black != Some(p.white)
    ensures Sum(PointsIn(id), pairings) == 2 * Sum(WonBy(id), pairings) + Sum(DrawnWith(id), pairings)
  {
    if pairings != [] {
      var n := |pairings| - 1;
      assert pairings[n] in pairings;
      PointsAreWinsAndDraws(pairings[..n], id);
    }
  }

  /** In every run a player's score, in half points, is two for each stored win, byes included, and one for each draw.
      */
  lemma ScoreIsWinsAndDraws(owner: Id, rating: int, total: nat, now: int, events: seq<Event>)
    ensures var t := Run(Created(owner, rating, total, now), events);
            forall p | p in t.players :: p.score == 2 * Sum(WonBy(p.id), t.pairings) + Sum(DrawnWith(p.id), t.pairings)
  {
    var t := Run(Created(owner, rating, total, now), events);
    CreatedInv(owner, rating, total, now);
    RunKeeps(Created(owner, rating, total, now), events);
    hide Run, Created, Sum, PointsIn, WonBy, DrawnWith;
    assert Tables(t, t.round);
    forall p | p in t.pairings ensures p.black != Some(p.white) { assert ProperRow(Ids(t.players), t.games, p); }
    forall p | p in t.players ensures p.score == 2 * Sum(WonBy(p.id), t.pairings) + Sum(DrawnWith(p.id), t.pairings) {
      PointsAreWinsAndDraws(t.pairings, p.id);
    }
  }

  // ---------------------------------------------------------------- joining, leaving, withdrawing

  /** A new tournament is open for registration, and its owner is the one player. */
  lemma CreatedWithOwner(owner: Id, rating: int, total: nat, now: int)
    ensures var t := Created(owner, rating, total, now);
            && t.owner == owner && t.status == Registration && t.round == 0 && t.total == total
            && t.pairings == [] && t.games == 0
            && forall id :: Plays(t, id) <==> id == owner
  {
    var t := Created(owner, rating, total, now);
    assert t.players[0] in t.players;
  }

  predicate RegistrationOn(t: Tournament) { t.status == Registration || t.status == RegistrationOpen }

  /** Joining is accepted from registered users who are not listed, during registration, and adds just their row. */
  lemma JoinRules(t: Tournament, user: Id, rating: Option<int>, now: int)
    ensures var o := Join(t, user, rating, now);
            && (o.error.None? <==> RegistrationOn(t) && user !in Ids(t.players) && rating.Some?)
            && (o.error.None? ==>
                  && o.state == t.(players := o.state.players)
                  && forall p ::
                       p in o.state.players <==> p in t.players || p == Player(user, rating.value, 0, now, true))
            && (o.error.Some? ==> o.state == t)
            && (o.error == Some(AlreadyJoined) <==> RegistrationOn(t) && user in Ids(t.players))
            && (o.error == Some(UserNotFound) <==> RegistrationOn(t) && user !in Ids(t.players) && rating.None?)
  {
    var k := FindPlayer(t.players, user);
    assert k.Some? ==> t.players[k.value] in t.players;
  }

  /** Leaving is accepted from listed players other than the owner, during registration, and takes just their row out.
      */
  lemma LeaveRules(t: Tournament, user: Id)
    requires DistinctIds(t.players)
    ensures var o := Leave(t, user);
            && (o.error.None? <==> RegistrationOn(t) && user in Ids(t.players) && user != t.owner)
            && (o.error.None? ==>
                  && o.state == t.(players := o.state.players)
                  && forall p :: p in o.state.players <==> p in t.players && p.id != user)
            && (o.error.Some? ==> o.state == t)
            && (o.error == Some(OwnerCannotLeave) <==> RegistrationOn(t) && user == t.owner)
            && (o.error == Some(PlayerNotFound)
                <==> RegistrationOn(t) && user != t.owner && user !in Ids(t.players))
  {
    var k := FindPlayer(t.players, user);
    if k.Some? {
      assert t.players[k.value] in t.players;
      WithoutMembers(t.players, k.value);
      forall p | p in Without(t.players, k.value) ensures p.id != user {
        var i :| 0 <= i < |t.players| - 1 && Without(t.players, k.value)[i] == p;
        assert t.players[if i < k.value then i else i + 1] == p;
      }
    }
  }

  /** A listed player may be withdrawn by that player or by the owner, at any time. */
  lemma WithdrawRules(t: Tournament, actor: Id, user: Id)
    requires DistinctIds(t.players)
    ensures var o := Withdraw(t, actor, user);
            && (o.error.None? <==> (actor == user || actor == t.owner) && user in Ids(t.players))
            && (o.error == Some(Forbidden) <==> actor != user && actor != t.owner)
            && (o.error == Some(PlayerNotFound)
                <==> (actor == user || actor == t.owner) && user !in Ids(t.players))
            && (o.error.None? ==> !Plays(o.state, user))
            && (o.error.Some? ==> o.state == t)
  {
    var k := FindPlayer(t.players, user);
    if k.Some? {
      assert t.players[k.value] in t.players;
      if Withdraw(t, actor, user).error.None? { FieldChangesOne(t, WithdrawEvent(actor, user), user); }
    }
  }

  /** A paid entry of somebody not listed adds that player with the rating of the account and no points. */
  lemma EntryAddsRow(t: Tournament, user: Id, seed: int, now: int)
    ensures user !in Ids(t.players) ==>
              forall p :: p in EntryPaid(t, user, seed, now).players
                     <==> p in t.players || p == Player(user, seed, 0, now, true)
    ensures user in Ids(t.players) ==> |EntryPaid(t, user, seed, now).players| == |t.players|
  {
    var k := FindPlayer(t.players, user);
    assert k.Some? ==> t.players[k.value] in t.players;
  }

  // ---------------------------------------------------------------- starting and advancing

  lemma {:induction false} PowersGrow(a: nat, b: nat)
    requires a < b
    ensures 2 * Power2(a) <= Power2(b)
  {
    if a < b - 1 { PowersGrow(a, b - 1); }
  }

  lemma OneExponent(n: nat, j: nat, k: nat)
    requires Power2(j) < n <= Power2(j + 1) && Power2(k) < n <= Power2(k + 1)
    ensures j == k
  {
    if j < k { PowersGrow(j, k); }
    if k < j { PowersGrow(k, j); }
  }

  /** The number of rounds by halving: one for two players, and one more for a field than for half of it, rounded up. */
  lemma RoundsHalve(n: nat)
    requires n >= 2
    ensures SwissRoundCount(n) == 1 + SwissRoundCount((n + 1) / 2) && SwissRoundCount(1) == 0
  {
    var k, m := SwissRoundCount(n), (n + 1) / 2;
    hide SwissRoundCount;
    assert Power2(0) == 1;
    if n == 2 {
      assert SwissRoundCount(m) == 0;
    } else {
      assert k != 1;
      assert Power2(k - 1) == 2 * Power2(k - 2) && Power2(k) == 2 * Power2(k - 1);
      assert Power2(k - 2) < m <= Power2(k - 1);
      OneExponent(m, k - 2, SwissRoundCount(m) - 1);
    }
  }

  /** Starting is for the owner, before the start, with a number of rounds configured or two active players; the number
      of rounds stays as configured, or is the least whose power of two reaches the active field. */
  lemma StartRules(t: Tournament, actor: Id)
    ensures var o, n := Start(t, actor), |ActivePlayers(t.players)|;
            && (o.error.None? <==>
                  && actor == t.owner && (RegistrationOn(t) || t.status == RegistrationClosed)
                  && (t.total > 0 || n >= 2))
            && (o.error == Some(Forbidden) <==> actor != t.owner)
            && (o.error.Some? ==> o.state == t)
            && (o.error.None? ==>
                  && o.state.status == Active && o.state.round == 1 && o.state.total > 0
                  && if t.total > 0 then o.state.total == t.total
                     else Power2(o.state.total - 1) < n <= Power2(o.state.total))
  {
    hide NextAssignments, RoundPairings, CreditByes, ActivePlayers, RoundsFrom;
  }

  /** Advancing is for the owner of an active tournament whose round is decided; anything else changes nothing. */
  lemma AdvanceRules(t: Tournament, actor: Id)
    ensures var o := Advance(t, actor);
            && (o.error.None? <==>
                  && actor == t.owner && t.status == Active
                  && forall p | p in t.pairings && p.round == t.round :: p.result.Some?)
            && (o.error == Some(Forbidden) <==> actor != t.owner)
            && (o.error.Some? ==> o.state == t)
            && (o.error.None? ==>
                  if t.round < t.total then o.state.status == Active && o.state.round == t.round + 1
                  else o.state == t.(status := Finished))
  {
    hide NextAssignments, RoundPairings, CreditByes;
  }

  lemma FoundIff(players: seq<Player>, id: Id)
    ensures FindPlayer(players, id).Some? <==> id in Ids(players)
  {
    var k := FindPlayer(players, id);
    assert k.Some? ==> players[k.value] in players;
  }

  /** The result of a game is stored before its players are looked up, so when one is missing it stays stored and nobody
      has points from it. */
  lemma MissingPlayerStops(t: Tournament, k: nat, result: PairingResult)
    requires k < |t.pairings| && t.pairings[k].black.Some?
    ensures var o, p := ApplyPairingResult(t, k, result), t.pairings[k];
            && o.state.pairings == t.pairings[k := p.(result := Some(result))]
            && (o.error == Some(PlayerNotFound)
                <==> p.white !in Ids(t.players) || p.black.value !in Ids(t.players))
            && (o.error.Some? ==> o.error == Some(PlayerNotFound) && o.state.players == t.players)
  {
    FoundIff(t.players, t.pairings[k].white);
    FoundIff(t.players, t.pairings[k].black.value);
    hide Credit, FindPlayer, Ids;
  }

  /** A sync that meets a missing player stops there: the round goes on as it was. */
  lemma SyncStopsAtMissing(t: Tournament, game: nat, view: Option<GameView>)
    requires Sync(t, game, view).error.Some?
    ensures var o := Sync(t, game, view);
            && o.error == Some(PlayerNotFound) && o.state.status == t.status && o.state.round == t.round
            && o.state.players == t.players && |o.state.pairings| == |t.pairings|
  {
    hide FindPlayer, CreateRound;
  }

  /** A sync stops there exactly when a player of the pairing it decides is missing. */
  lemma SyncFailsIff(t: Tournament, game: nat, view: Option<GameView>)
    ensures Sync(t, game, view).error.Some?
       <==> && SyncTarget(t, game, view).Some?
            && var p := t.pairings[SyncTarget(t, game, view).value.0];
               p.white !in Ids(t.players) || (p.black.Some? && p.black.value !in Ids(t.players))
  {
    hide CreateRound, Credit, SyncTarget, FindPlayer, Ids, RoundComplete;
    if SyncTarget(t, game, view).Some? {
      var p := t.pairings[SyncTarget(t, game, view).value.0];
      FoundIff(t.players, p.white);
      if p.black.Some? { FoundIff(t.players, p.black.value); }
    }
  }

  /** The other pairings of the current round have their results. */
  ghost predicate OthersDecided(t: Tournament, k: nat)
  {
    forall i | 0 <= i < |t.pairings| && i != k && t.pairings[i].round == t.round :: t.pairings[i].result.Some?
  }

  lemma DecidedAfter(t: Tournament, t': Tournament, k: nat, result: PairingResult)
    requires k < |t.pairings| && t'.pairings == t.pairings[k := t.pairings[k].(result := Some(result))]
    requires t'.round == t.round
    ensures RoundComplete(t') <==> OthersDecided(t, k)
  {
    if OthersDecided(t, k) {
      forall p | p in t'.pairings && p.round == t'.round ensures p.result.Some? {
        var i :| 0 <= i < |t'.pairings| && t'.pairings[i] == p;
        assert i != k ==> t.pairings[i] == p;
      }
    }
    if RoundComplete(t') {
      forall i | 0 <= i < |t.pairings| && i != k && t.pairings[i].round == t.round ensures t.pairings[i].result.Some? {
        assert t'.pairings[i] in t'.pairings;
      }
    }
  }

  lemma RoundShapeOf(t: Tournament, round: nat)
    ensures var t' := CreateRound(t, round);
            && t'.status == t.status && t'.round == t.round && t'.total == t.total
            && |t'.pairings| == |t.pairings| + |NextAssignments(t, round)|
  {
    RoundShape(t, round);
  }

  /** A sync that stores the last missing result of its round opens the next round, or finishes the tournament after the
      last one; any other sync that stores a result only waits on. */
  lemma SyncAdvances(t: Tournament, game: nat, view: Option<GameView>)
    requires Inv(t) && Sync(t, game, view).state != t
    ensures FindGame(t.pairings, game).Some? && t.status == Active && Sync(t, game, view).error.None?
    ensures var t', k := Sync(t, game, view).state, FindGame(t.pairings, game).value;
            if !OthersDecided(t, k)
            then t'.status == Active && t'.round == t.round && |t'.pairings| == |t.pairings|
            else if t.round < t.total then t'.status == Active && t'.round == t.round + 1
            else t'.status == Finished && t'.round == t.round && |t'.pairings| == |t.pairings|
  {
    SyncStores(t, game, view);
    var (k, result) := SyncTarget(t, game, view).value;
    TargetIsOpen(t, game, view);
    ResultShape(t, k, result);
    var mid := ApplyPairingResult(t, k, result).state;
    hide ApplyPairingResult, Inv, OpenGame, CreateRound, Counts, PointsIn, FindGame;
    DecidedAfter(t, mid, k, result);
    hide RoundComplete, OthersDecided;
    RoundShapeOf(mid.(round := mid.round + 1), mid.round + 1);
  }

  // ---------------------------------------------------------------- whom a round pairs

  lemma {:induction false} RowsOfAssignments(r: seq<Assignment>, round: nat, firstGame: nat, i: nat)
    requires i < |r|
    ensures var row := RoundPairings(r, round, firstGame)[i];
            row.round == round && row.white == r[i].white && row.black == r[i].black
  {
    if i < |r| - 1 { RowsOfAssignments(r[..|r| - 1], round, firstGame, i); }
  }

  ghost predicate InRow(p: Pairing, id: Id) { p.white == id || p.black == Some(id) }

  lemma {:induction false} Mentioned(r: seq<Assignment>, id: Id)
    ensures Sum(Mentions(id), r) >= 0
    ensures Sum(Mentions(id), r) == 0 <==> forall i | 0 <= i < |r| :: r[i].white != id && r[i].black != Some(id)
  {
    if r != [] { Mentioned(r[..|r| - 1], id); }
  }

  ghost predicate InAssignment(a: Assignment, id: Id) { a.white == id || a.black == Some(id) }

  lemma NewRow(t: Tournament, round: nat, i: nat, id: Id)
    requires |t.pairings| <= i < |CreateRound(t, round).pairings|
    ensures var r, row := NextAssignments(t, round), CreateRound(t, round).pairings[i];
            && |CreateRound(t, round).pairings| == |t.pairings| + |r|
            && row.round == round && (InRow(row, id) <==> InAssignment(r[i - |t.pairings|], id))
  {
    RoundShape(t, round);
    hide CreateRound, RoundPairings, NextAssignments, CreditByes;
    RowsOfAssignments(NextAssignments(t, round), round, t.games, i - |t.pairings|);
  }

  lemma AssignedActive(t: Tournament, round: nat, id: Id)
    requires DistinctIds(t.players)
    ensures var r := NextAssignments(t, round);
            Plays(t, id) <==> exists i :: 0 <= i < |r| && InAssignment(r[i], id)
  {
    var r := NextAssignments(t, round);
    ActivePlayersKept(t.players);
    ExactCover(ActivePlayers(t.players), t.pairings, round, id);
    Mentioned(r, id);
    assert Plays(t, id) <==> id in Ids(ActivePlayers(t.players));
    hide Plays, Ids, Sum, Mentions, ActivePlayers, Assignments;
    if i :| 0 <= i < |r| && (r[i].white == id || r[i].black == Some(id)) { assert InAssignment(r[i], id); }
  }

  lemma RowsKept(t: Tournament, round: nat)
    ensures var rows := CreateRound(t, round).pairings;
            && |rows| == |t.pairings| + |NextAssignments(t, round)| && rows[..|t.pairings|] == t.pairings
  {
    RoundShape(t, round);
    hide CreateRound, NextAssignments;
  }

  lemma RowsMatch(rows: seq<Pairing>, n: nat, r: seq<Assignment>, id: Id)
    requires |rows| == n + |r| && forall i | n <= i < |rows| :: InRow(rows[i], id) <==> InAssignment(r[i - n], id)
    ensures (exists i :: n <= i < |rows| && InRow(rows[i], id)) <==> exists i :: 0 <= i < |r| && InAssignment(r[i], id)
  {
    hide *;
    if i :| 0 <= i < |r| && InAssignment(r[i], id) { assert InRow(rows[n + i], id); }
  }

  /** A new round has rows for exactly the active players, and for nobody who has withdrawn. */
  lemma RoundPairsActive(t: Tournament, round: nat, id: Id)
    requires DistinctIds(t.players)
    ensures var rows := CreateRound(t, round).pairings;
            && |rows| >= |t.pairings| && rows[..|t.pairings|] == t.pairings
            && (forall i | |t.pairings| <= i < |rows| :: rows[i].round == round)
            && (Plays(t, id) <==> exists i :: |t.pairings| <= i < |rows| && InRow(rows[i], id))
  {
    hide *;
    RowsKept(t, round);
    AssignedActive(t, round, id);
    var r, rows, n := NextAssignments(t, round), CreateRound(t, round).pairings, |t.pairings|;
    forall i | n <= i < |rows|
      ensures rows[i].round == round && (InRow(rows[i], id) <==> InAssignment(r[i - n], id))
    {
      NewRow(t, round, i, id);
    }
    RowsMatch(rows, n, r, id);
  }
}
