/** A started tournament in which nobody is withdrawn and no entry paid or refunded pairs a fixed field, so what holds
    of many rounds of Swiss pairings holds of its stored pairings, whatever results arrive and in whatever order. */
module TournamentTrace {
  import opened Common
  import opened Swiss
  import opened SwissRound
  import opened SwissHistory
  import opened TournamentRun
  import opened TournamentLaws

  /** A stored pairing without its game and result. */
  function Strip(p: Pairing): Pairing { Pairing(p.round, p.white, p.black, None, None) }

  function StripAll(s: seq<Pairing>): (r: seq<Pairing>)
    ensures |r| == |s| && forall i | 0 <= i < |s| :: r[i] == Strip(s[i])
  {
    if s == [] then [] else StripAll(s[..|s| - 1]) + [Strip(s[|s| - 1])]
  }

  lemma StripConcat(s: seq<Pairing>, t: seq<Pairing>)
    ensures StripAll(s + t) == StripAll(s) + StripAll(t)
  {
  }

  lemma {:induction false} StripBalance(s: seq<Pairing>, id: Id)
    ensures Balance(StripAll(s))(id) == Balance(s)(id)
  {
    if s != [] {
      var n := |s| - 1;
      assert s == s[..n] + [s[n]];
      StripBalance(s[..n], id);
      BalanceSnoc(s[..n], s[n], id);
      BalanceSnoc(StripAll(s[..n]), Strip(s[n]), id);
      assert WhiteIn(id)(s[n]) == WhiteIn(id)(Strip(s[n])) && BlackIn(id)(s[n]) == BlackIn(id)(Strip(s[n]));
    }
  }

  lemma StripSets(s: seq<Pairing>)
    ensures Rematches(StripAll(s)) == Rematches(s) && ByeRecipients(StripAll(s)) == ByeRecipients(s)
  {
    var r := StripAll(s);
    forall p | p in s ensures Strip(p) in r {
      var i :| 0 <= i < |s| && s[i] == p;
      assert r[i] == Strip(p);
    }
    forall q | q in r ensures exists p :: p in s && q == Strip(p) {
      var i :| 0 <= i < |r| && r[i] == q;
      assert s[i] in s;
    }
  }

  /** Games and results play no part in pairing. */
  lemma StripAssignments(players: seq<Player>, s: seq<Pairing>, round: nat)
    ensures Assignments(players, StripAll(s), round) == Assignments(players, s, round)
  {
    StripSets(s);
    forall id ensures Balance(StripAll(s))(id) == Balance(s)(id) { StripBalance(s, id); }
    hide Rematches, ByeRecipients, Balance;
    PairUpSame(Working(players, s), Rematches(s), round, Balance(StripAll(s)), Balance(s));
  }

  lemma {:induction false} StripRound(r: seq<Assignment>, round: nat, firstGame: nat)
    ensures StripAll(RoundPairings(r, round, firstGame)) == StoredAll(r, round)
  {
    if r != [] {
      var n := |r| - 1;
      GameCount(r[..n]);
      StripRound(r[..n], round, firstGame);
      StripConcat(RoundPairings(r[..n], round, firstGame),
        [PairingFor(r[n], round, firstGame + Sum(IsGame(), r[..n]))]);
    }
  }

  /** The stored pairings are those of `lineups`, one line-up a round, all of the field `field`. */
  ghost predicate Traced(t: Tournament, lineups: seq<seq<Player>>, field: seq<Id>)
  {
    && (t.status == Active || t.status == Finished)
    && StripAll(t.pairings) == History(lineups)
    && |lineups| == t.round
    && FixedField(lineups, field)
    && IdsOf(ActivePlayers(t.players)) == field
  }

  lemma IdsConcat(players: seq<Player>, p: Player)
    ensures IdsOf(players + [p]) == IdsOf(players) + [p.id]
  {
    assert (players + [p])[..|players|] == players;
  }

  lemma {:induction false} SameActive(players: seq<Player>, players': seq<Player>)
    requires |players| == |players'|
    requires forall i | 0 <= i < |players| :: players'[i].id == players[i].id && players'[i].active == players[i].active
    ensures IdsOf(ActivePlayers(players)) == IdsOf(ActivePlayers(players'))
  {
    if players != [] {
      var n := |players| - 1;
      SameActive(players[..n], players'[..n]);
      IdsConcat(ActivePlayers(players[..n]), players[n]);
      IdsConcat(ActivePlayers(players'[..n]), players'[n]);
    }
  }

  lemma FieldOf(players: seq<Player>)
    requires DistinctIds(players)
    ensures Distinct(IdsOf(players)) && forall id :: id in Ids(players) <==> id in IdsOf(players)
  {
    forall id ensures id in Ids(players) <==> id in IdsOf(players) {
      if id in Ids(players) {
        var p :| p in players && p.id == id;
        var i :| 0 <= i < |players| && players[i] == p;
        assert IdsOf(players)[i] == id;
      }
      if id in IdsOf(players) {
        var i :| 0 <= i < |players| && IdsOf(players)[i] == id;
        assert players[i] in players;
      }
    }
  }

  lemma MoreLineups(lineups: seq<seq<Player>>, lineup: seq<Player>, field: seq<Id>)
    requires FixedField(lineups, field) && DistinctIds(lineup) && IdsOf(lineup) == field
    ensures FixedField(lineups + [lineup], field)
  {
    FieldOf(lineup);
  }

  /** One more round traces to one more line-up. */
  lemma TraceRound(t: Tournament, lineups: seq<seq<Player>>, field: seq<Id>)
    requires DistinctIds(t.players) && StripAll(t.pairings) == History(lineups)
    requires FixedField(lineups, field) && IdsOf(ActivePlayers(t.players)) == field
    ensures var t' := CreateRound(t, |lineups| + 1);
            var lineups' := lineups + [ActivePlayers(t.players)];
            && StripAll(t'.pairings) == History(lineups')
            && FixedField(lineups', field) && IdsOf(ActivePlayers(t'.players)) == field
  {
    var n, lineup := |lineups|, ActivePlayers(t.players);
    var t', lineups' := CreateRound(t, n + 1), lineups + [lineup];
    var r := NextAssignments(t, n + 1);
    ActivePlayersKept(t.players);
    FieldOf(lineup);
    RoundShape(t, n + 1);
    RoundPlayers(t, n + 1);
    SameActive(t.players, t'.players);
    hide CreateRound, Assignments, ActivePlayers, Ids, DistinctIds, CreditByes;
    StripAssignments(lineup, t.pairings, n + 1);
    StripRound(r, n + 1, t.games);
    StripConcat(t.pairings, RoundPairings(r, n + 1, t.games));
    assert lineups'[..n] == lineups && lineups'[n] == lineup;
    hide RoundPairings, FixedField;
    assert History(lineups') == History(lineups) + StoredAll(r, n + 1);
    MoreLineups(lineups, lineup, field);
  }

  lemma TraceFirst(t: Tournament)
    requires t.status == Active && t.round == 1 && t.pairings == [] && DistinctIds(t.players)
    ensures Traced(CreateRound(t, 1), [ActivePlayers(t.players)], IdsOf(ActivePlayers(t.players)))
  {
    var lineup := ActivePlayers(t.players);
    ActivePlayersKept(t.players);
    FieldOf(lineup);
    assert StripAll(t.pairings) == History([]);
    hide CreateRound, History, StripAll, ActivePlayers, IdsOf, DistinctIds;
    TraceRound(t, [], IdsOf(lineup));
    RoundShape(t, 1);
    assert [] + [lineup] == [lineup];
  }

  lemma TraceStart(t: Tournament, actor: Id)
    requires Inv(t) && Start(t, actor).error.None?
    ensures Traced(Start(t, actor).state, [ActivePlayers(t.players)], IdsOf(ActivePlayers(t.players)))
  {
    hide CreateRound, ActivePlayers, SwissRoundCount, DistinctIds, Traced;
    var total := if t.total != 0 then t.total else SwissRoundCount(|ActivePlayers(t.players)|);
    TraceFirst(t.(status := Active, round := 1, total := total));
  }

  lemma TraceNext(t: Tournament, lineups: seq<seq<Player>>, field: seq<Id>)
    requires DistinctIds(t.players) && Traced(t, lineups, field) && t.status == Active
    ensures Traced(CreateRound(t.(round := t.round + 1), t.round + 1), lineups + [ActivePlayers(t.players)], field)
  {
    var base := t.(round := t.round + 1);
    hide CreateRound, FixedField, History, StripAll, ActivePlayers, IdsOf, DistinctIds;
    RoundShape(base, base.round);
    TraceRound(base, lineups, field);
  }

  lemma AdvanceCases(t: Tournament, requireReady: bool)
    requires Inv(t)
    ensures var t' := AdvanceIfRoundComplete(t, requireReady).state;
            || t' == t
            || (t.status == Active && t' == t.(status := Finished))
            || (t.status == Active && DistinctIds(t.players)
               && t' == CreateRound(t.(round := t.round + 1), t.round + 1))
  {
    hide CreateRound, RoundComplete, DistinctIds;
  }

  lemma TraceFinished(t: Tournament, lineups: seq<seq<Player>>, field: seq<Id>)
    requires Traced(t, lineups, field)
    ensures Traced(t.(status := Finished), lineups, field)
  {
    hide StripAll, History, FixedField, ActivePlayers;
  }

  lemma TraceAdvance(t: Tournament, requireReady: bool, lineups: seq<seq<Player>>, field: seq<Id>)
    returns (lineups': seq<seq<Player>>)
    requires Inv(t) && Traced(t, lineups, field)
    ensures Traced(AdvanceIfRoundComplete(t, requireReady).state, lineups', field)
  {
    hide *;
    var t' := AdvanceIfRoundComplete(t, requireReady).state;
    lineups' := lineups;
    AdvanceCases(t, requireReady);
    if t' == t.(status := Finished) {
      TraceFinished(t, lineups, field);
    } else if t' != t {
      lineups' := lineups + [ActivePlayers(t.players)];
      TraceNext(t, lineups, field);
    }
  }

  lemma StripResult(s: seq<Pairing>, k: nat, result: PairingResult)
    requires k < |s|
    ensures StripAll(s[k := s[k].(result := Some(result))]) == StripAll(s)
  {
  }

  lemma TraceResult(t: Tournament, k: nat, result: PairingResult, lineups: seq<seq<Player>>, field: seq<Id>)
    requires OpenGame(t, k) && Traced(t, lineups, field)
    ensures Traced(ApplyPairingResult(t, k, result).state, lineups, field)
  {
    hide ApplyPairingResult, PointsIn, History, FixedField, ActivePlayers, IdsOf, StripAll;
    var t' := ApplyPairingResult(t, k, result).state;
    ResultShape(t, k, result);
    SameActive(t.players, t'.players);
    StripResult(t.pairings, k, result);
  }

  lemma TraceSync(t: Tournament, game: nat, view: Option<GameView>, lineups: seq<seq<Player>>, field: seq<Id>)
    returns (lineups': seq<seq<Player>>)
    requires Inv(t) && Traced(t, lineups, field)
    ensures Traced(Sync(t, game, view).state, lineups', field)
  {
    lineups' := lineups;
    var target := SyncTarget(t, game, view);
    if target.Some? {
      var (k, result) := target.value;
      TargetIsOpen(t, game, view);
      ResultShape(t, k, result);
      hide ApplyPairingResult, AdvanceIfRoundComplete, SyncTarget, Traced, Inv;
      ResultStored(t, k, result);
      TraceResult(t, k, result, lineups, field);
      lineups' := TraceAdvance(ApplyPairingResult(t, k, result).state, false, lineups, field);
    }
  }

  lemma RegistrationOver(t: Tournament, e: Event)
    requires t.status == Active || t.status == Finished
    requires e.JoinEvent? || e.LeaveEvent? || e.StartEvent?
    ensures Step(t, e).state == t
  {
  }

  lemma TraceStep(t: Tournament, e: Event, lineups: seq<seq<Player>>, field: seq<Id>)
    returns (lineups': seq<seq<Player>>)
    requires Inv(t) && Traced(t, lineups, field) && !ChangesField(e)
    ensures Traced(Step(t, e).state, lineups', field)
  {
    assert t.status == Active || t.status == Finished;
    lineups' := lineups;
    if e.SyncEvent? {
      hide Inv, Sync, Traced;
      lineups' := TraceSync(t, e.game, e.view, lineups, field);
    } else if e.AdvanceEvent? {
      hide Inv, AdvanceIfRoundComplete, Traced;
      if t.owner == e.actor { lineups' := TraceAdvance(t, true, lineups, field); }
    } else {
      RegistrationOver(t, e);
    }
  }

  lemma {:induction false} TraceRun(t: Tournament, events: seq<Event>, lineups: seq<seq<Player>>, field: seq<Id>)
    returns (lineups': seq<seq<Player>>)
    requires Inv(t) && Traced(t, lineups, field)
    requires forall e | e in events :: !ChangesField(e)
    ensures Traced(Run(t, events), lineups', field)
  {
    hide Inv, Step, Traced;
    if events == [] {
      lineups' := lineups;
    } else {
      var n := |events| - 1;
      lineups' := TraceRun(t, events[..n], lineups, field);
      RunKeeps(t, events[..n]);
      lineups' := TraceStep(Run(t, events[..n]), events[n], lineups', field);
    }
  }

  lemma TraceOf(t: Tournament, actor: Id, events: seq<Event>) returns (lineups: seq<seq<Player>>)
    requires Inv(t) && Start(t, actor).error.None?
    requires forall e | e in events :: !ChangesField(e)
    ensures Traced(Run(Start(t, actor).state, events), lineups, IdsOf(ActivePlayers(t.players)))
  {
    hide Inv, Traced, Run, Start, ActivePlayers;
    TraceStart(t, actor);
    StartKeeps(t, actor);
    lineups := TraceRun(Start(t, actor).state, events, [ActivePlayers(t.players)], IdsOf(ActivePlayers(t.players)));
  }

  // ---------------------------------------------------------------- what it gives

  lemma ColoursOfTrace(t: Tournament, lineups: seq<seq<Player>>, field: seq<Id>)
    requires Traced(t, lineups, field)
    ensures forall id | id in field :: (Balance(t.pairings)(id) - t.round) % 2 == 0
    ensures |field| % 2 == 0 ==> Sum(Square(t.pairings), field) <= 2 * |t.pairings|
  {
    hide ActivePlayers, History, FixedField;
    forall id ensures Balance(History(lineups))(id) == Balance(t.pairings)(id) { StripBalance(t.pairings, id); }
    hide Balance, StripAll;
    forall id | id in field ensures (Balance(t.pairings)(id) - t.round) % 2 == 0 { BalanceParity(lineups, field, id); }
    if |field| % 2 == 0 {
      ColourBalanceBound(lineups, field);
      SumEqual(Square(History(lineups)), Square(t.pairings), field);
    }
  }

  /** In every run of a started tournament whose field does not change, everybody's colour balance has the parity
      of the round, and with an even field the squared balances sum to at most twice the games paired. */
  lemma RunColours(t: Tournament, actor: Id, events: seq<Event>)
    requires Inv(t) && Start(t, actor).error.None?
    requires forall e | e in events :: !ChangesField(e)
    ensures var field := IdsOf(ActivePlayers(t.players));
            var t' := Run(Start(t, actor).state, events);
            && (forall id | id in field :: (Balance(t'.pairings)(id) - t'.round) % 2 == 0)
            && (|field| % 2 == 0 ==> Sum(Square(t'.pairings), field) <= 2 * |t'.pairings|)
  {
    hide *;
    var lineups := TraceOf(t, actor, events);
    ColoursOfTrace(Run(Start(t, actor).state, events), lineups, IdsOf(ActivePlayers(t.players)));
  }

  lemma ByesOfTrace(t: Tournament, lineups: seq<seq<Player>>, field: seq<Id>, p: Pairing, q: Pairing)
    requires Traced(t, lineups, field) && |field| % 2 == 1 && p in t.pairings && q in t.pairings
    requires p.black.None? && q.black.None? && p.round < q.round <= |field|
    ensures p.white != q.white
  {
    hide ActivePlayers, History, FixedField, ByeAt;
    var i :| 0 <= i < |t.pairings| && t.pairings[i] == p;
    var j :| 0 <= j < |t.pairings| && t.pairings[j] == q;
    assert StripAll(t.pairings)[i] == Strip(p) && StripAll(t.pairings)[j] == Strip(q);
    ByeRows(lineups, field, Strip(p));
    ByeRows(lineups, field, Strip(q));
    FirstByesDiffer(lineups, field, p.round - 1, q.round - 1);
  }

  /** In every run of a started tournament whose odd field does not change, the byes of the first
      rounds, one round for each player, go to different players. */
  lemma RunByes(t: Tournament, actor: Id, events: seq<Event>)
    requires Inv(t) && Start(t, actor).error.None?
    requires forall e | e in events :: !ChangesField(e)
    ensures var n, rows := |ActivePlayers(t.players)|, Run(Start(t, actor).state, events).pairings;
            n % 2 == 1 ==>
              forall p, q | p in rows && q in rows && p.black.None? && q.black.None? && p.round < q.round <= n ::
                p.white != q.white
  {
    hide *;
    var lineups := TraceOf(t, actor, events);
    var n, t' := |ActivePlayers(t.players)|, Run(Start(t, actor).state, events);
    if n % 2 == 1 {
      forall p, q | p in t'.pairings && q in t'.pairings && p.black.None? && q.black.None? && p.round < q.round <= n
        ensures p.white != q.white
      {
        ByesOfTrace(t', lineups, IdsOf(ActivePlayers(t.players)), p, q);
      }
    }
  }
}
