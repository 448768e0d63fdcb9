/** Buchholz totals and direct encounters, and what double counting says of them. */
module TieBreaks {
  import opened Common
  import opened Swiss

  function ScoreMap(players: seq<Player>): map<Id, int>
  {
    if players == [] then map[]
    else ScoreMap(players[..|players| - 1])[players[|players| - 1].id := players[|players| - 1].score]
  }

  /** The listed score of a player, zero for anybody not listed. */
  function ScoreOf(players: seq<Player>): Id -> int { (id: Id) => GetOr(ScoreMap(players), id, 0) }

  // ---------------------------------------------------------------- Buchholz

  /** What one pairing adds to the Buchholz total of `id`: the opponents' scores, nothing for a bye. */
  function OpponentPoints(players: seq<Player>, id: Id): Pairing -> int
  {
    (p: Pairing) =>
      if p.black.None? then 0
      else
        (if p.white == id then ScoreOf(players)(p.black.value) else 0)
        + (if p.black.value == id then ScoreOf(players)(p.white) else 0)
  }

  function Buchholz(players: seq<Player>, pairings: seq<Pairing>): Id -> int
  {
    (id: Id) => Sum(OpponentPoints(players, id), pairings)
  }

  ghost predicate TotalsAre(totals: map<Id, int>, players: seq<Player>, pairings: seq<Pairing>)
  {
    forall id :: GetOr(totals, id, 0) == Buchholz(players, pairings)(id)
  }

  lemma TotalsMean(totals: map<Id, int>, players: seq<Player>, pairings: seq<Pairing>)
    requires TotalsAre(totals, players, pairings)
    ensures forall id :: GetOr(totals, id, 0) == Buchholz(players, pairings)(id)
  {
  }

  lemma BuchholzSnoc(players: seq<Player>, before: seq<Pairing>, p: Pairing, id: Id)
    ensures Buchholz(players, before + [p])(id) == Buchholz(players, before)(id) + OpponentPoints(players, id)(p)
  {
    SumSnoc(OpponentPoints(players, id), before, p);
  }

  lemma ByeStep(totals: map<Id, int>, players: seq<Player>, before: seq<Pairing>, p: Pairing)
    requires TotalsAre(totals, players, before) && p.black.None?
    ensures TotalsAre(totals, players, before + [p])
  {
    forall id ensures GetOr(totals, id, 0) == Buchholz(players, before + [p])(id) {
      BuchholzSnoc(players, before, p, id);
    }
  }

  lemma GameStep(totals: map<Id, int>, once: map<Id, int>, twice: map<Id, int>, players: seq<Player>,
      before: seq<Pairing>, p: Pairing)
    requires TotalsAre(totals, players, before) && p.black.Some?
    requires once == totals[p.white := GetOr(totals, p.white, 0) + ScoreOf(players)(p.black.value)]
    requires twice == once[p.black.value := GetOr(once, p.black.value, 0) + ScoreOf(players)(p.white)]
    ensures TotalsAre(twice, players, before + [p])
  {
    hide ScoreOf;
    forall id ensures GetOr(twice, id, 0) == Buchholz(players, before + [p])(id) {
      BuchholzSnoc(players, before, p, id);
      hide Buchholz;
    }
  }

  method BuchholzScores(players: seq<Player>, pairings: seq<Pairing>) returns (totals: map<Id, int>)
    ensures forall id :: GetOr(totals, id, 0) == Buchholz(players, pairings)(id)
    ensures forall p | p in players :: p.id in totals
  {
    var scores := ScoreMap(players);
    totals := map p | p in players :: p.id := 0;
    assert TotalsAre(totals, players, pairings[..0]);
    hide ScoreMap, TotalsAre, Buchholz;
    for i := 0 to |pairings|
      invariant TotalsAre(totals, players, pairings[..i])
      invariant forall p | p in players :: p.id in totals
    {
      var p := pairings[i];
      assert pairings[..i + 1] == pairings[..i] + [p];
      if p.black.None? {
        ByeStep(totals, players, pairings[..i], p);
        continue;
      }
      ghost var before := totals;
      totals := totals[p.white := GetOr(totals, p.white, 0) + GetOr(scores, p.black.value, 0)];
      ghost var once := totals;
      totals := totals[p.black.value := GetOr(totals, p.black.value, 0) + GetOr(scores, p.white, 0)];
      GameStep(before, once, totals, players, pairings[..i], p);
    }
    assert pairings[..|pairings|] == pairings;
    TotalsMean(totals, players, pairings);
  }

  lemma OneMore(n: int, d: int, s: int)
    requires 0 <= d <= 2
    ensures (n + d) * s == n * s + (if d == 0 then 0 else if d == 1 then s else s + s)
  {
  }

  /** Games between the two; a player met with either colour. */
  function Meetings(id: Id, opponent: Id): Pairing -> int
  {
    (p: Pairing) =>
      (if p.white == id && p.black == Some(opponent) then 1 else 0)
      + (if p.white == opponent && p.black == Some(id) then 1 else 0)
  }

  function ScoreTimesMeetings(id: Id, pairings: seq<Pairing>): Player -> int
  {
    (o: Player) => o.score * Sum(Meetings(id, o.id), pairings)
  }

  /** The score of `o`, if it is `id`. */
  function ScoreIf(id: Option<Id>): Player -> int { (o: Player) => if Some(o.id) == id then o.score else 0 }

  lemma {:induction false} ListedScore(players: seq<Player>, id: Id)
    requires DistinctIds(players)
    ensures Sum(ScoreIf(Some(id)), players) == ScoreOf(players)(id)
    ensures (forall p | p in players :: p.id != id) ==> id !in ScoreMap(players)
  {
    if players != [] {
      var n := |players| - 1;
      ListedScore(players[..n], id);
      assert players == players[..n] + [players[n]];
      if players[n].id == id { assert forall p | p in players[..n] :: p.id != id; }
    }
  }

  lemma OneMoreMeeting(id: Id, before: seq<Pairing>, p: Pairing, o: Player)
    ensures ScoreTimesMeetings(id, before + [p])(o) == ScoreTimesMeetings(id, before)(o)
         + (if p.white == id then ScoreIf(p.black)(o) else 0)
         + (if p.black == Some(id) then ScoreIf(Some(p.white))(o) else 0)
  {
    SumSnoc(Meetings(id, o.id), before, p);
    OneMore(Sum(Meetings(id, o.id), before), Meetings(id, o.id)(p), o.score);
  }

  lemma ScoreOfSide(players: seq<Player>, side: Player -> int, plays: bool, opponent: Option<Id>)
    requires DistinctIds(players) && forall o: Player :: side(o) == if plays then ScoreIf(opponent)(o) else 0
    ensures Sum(side, players) == if plays && opponent.Some? then ScoreOf(players)(opponent.value) else 0
  {
    if plays && opponent.Some? {
      ListedScore(players, opponent.value);
      SumEqual(side, ScoreIf(opponent), players);
    } else {
      SumConst(side, 0, players);
    }
  }

  lemma MeetingsSnoc(players: seq<Player>, before: seq<Pairing>, p: Pairing, id: Id)
    requires DistinctIds(players)
    ensures Sum(ScoreTimesMeetings(id, before + [p]), players)
         == Sum(ScoreTimesMeetings(id, before), players) + OpponentPoints(players, id)(p)
  {
    var white := (o: Player) => if p.white == id then ScoreIf(p.black)(o) else 0;
    var black := (o: Player) => if p.black == Some(id) then ScoreIf(Some(p.white))(o) else 0;
    var first := (o: Player) => ScoreTimesMeetings(id, before)(o) + white(o);
    forall o: Player ensures ScoreTimesMeetings(id, before + [p])(o) == first(o) + black(o) {
      OneMoreMeeting(id, before, p, o);
    }
    hide ScoreTimesMeetings;
    SumPlus(ScoreTimesMeetings(id, before), white, first, players);
    SumPlus(first, black, ScoreTimesMeetings(id, before + [p]), players);
    ScoreOfSide(players, white, p.white == id, p.black);
    ScoreOfSide(players, black, p.black == Some(id), Some(p.white));
    hide Sum, ScoreIf, ScoreOf;
  }

  /** A player's total is the sum of the scores of the listed players, each once for every game against that player. */
  lemma {:induction false} BuchholzOfOpponents(players: seq<Player>, pairings: seq<Pairing>, id: Id)
    requires DistinctIds(players)
    ensures Buchholz(players, pairings)(id) == Sum(ScoreTimesMeetings(id, pairings), players)
  {
    if pairings == [] {
      forall o: Player ensures ScoreTimesMeetings(id, pairings)(o) == 0 {}
      SumConst(ScoreTimesMeetings(id, pairings), 0, players);
    } else {
      var n := |pairings| - 1;
      var before, p := pairings[..n], pairings[n];
      assert pairings == before + [p];
      BuchholzOfOpponents(players, before, id);
      BuchholzSnoc(players, before, p, id);
      MeetingsSnoc(players, before, p, id);
      hide ScoreTimesMeetings, Buchholz, Sum, ScoreMap;
    }
  }

  /** Sides played by `id`, byes not counted. */
  function SidesPlayed(id: Id): Pairing -> int
  {
    (p: Pairing) =>
      if p.black.None? then 0 else (if p.white == id then 1 else 0) + (if p.black.value == id then 1 else 0)
  }

  function GamesTimesScore(players: seq<Player>, pairings: seq<Pairing>): Id -> int
  {
    (id: Id) => Sum(SidesPlayed(id), pairings) * ScoreOf(players)(id)
  }

  ghost predicate AllListed(pairings: seq<Pairing>, ids: seq<Id>)
  {
    forall p | p in pairings && p.black.Some? :: p.white in ids && p.black.value in ids
  }

  lemma ByeAddsNothing(players: seq<Player>, before: seq<Pairing>, p: Pairing, ids: seq<Id>)
    requires p.black.None?
    ensures Sum(Buchholz(players, before + [p]), ids) == Sum(Buchholz(players, before), ids)
    ensures Sum(GamesTimesScore(players, before + [p]), ids) == Sum(GamesTimesScore(players, before), ids)
  {
    hide ScoreOf;
    var after := before + [p];
    forall id ensures Buchholz(players, after)(id) == Buchholz(players, before)(id)
                   && GamesTimesScore(players, after)(id) == GamesTimesScore(players, before)(id) {
      SumSnoc(OpponentPoints(players, id), before, p);
      SumSnoc(SidesPlayed(id), before, p);
    }
    SumEqual(Buchholz(players, after), Buchholz(players, before), ids);
    SumEqual(GamesTimesScore(players, after), GamesTimesScore(players, before), ids);
  }

  lemma GameAddsBothScores(players: seq<Player>, before: seq<Pairing>, p: Pairing, ids: seq<Id>)
    requires Distinct(ids) && p.black.Some? && p.white in ids && p.black.value in ids
    ensures var both := ScoreOf(players)(p.white) + ScoreOf(players)(p.black.value);
            && Sum(Buchholz(players, before + [p]), ids) == Sum(Buchholz(players, before), ids) + both
            && Sum(GamesTimesScore(players, before + [p]), ids) == Sum(GamesTimesScore(players, before), ids) + both
  {
    hide ScoreOf;
    var after, w, b := before + [p], p.white, p.black.value;
    var sw, sb := ScoreOf(players)(w), ScoreOf(players)(b);
    var totals, weighted := Buchholz(players, before), GamesTimesScore(players, before);
    forall id ensures Buchholz(players, after)(id) == Bump(Bump(totals, w, sb), b, sw)(id) {
      SumSnoc(OpponentPoints(players, id), before, p);
    }
    BumpTwice(totals, w, sb, b, sw, ids, Buchholz(players, after));
    forall id ensures GamesTimesScore(players, after)(id) == Bump(Bump(weighted, w, sw), b, sb)(id) {
      SumSnoc(SidesPlayed(id), before, p);
      OneMore(Sum(SidesPlayed(id), before), SidesPlayed(id)(p), ScoreOf(players)(id));
    }
    BumpTwice(weighted, w, sw, b, sb, ids, GamesTimesScore(players, after));
  }

  lemma {:induction false} BuchholzByGames(players: seq<Player>, pairings: seq<Pairing>, ids: seq<Id>)
    requires Distinct(ids) && AllListed(pairings, ids)
    ensures Sum(Buchholz(players, pairings), ids) == Sum(GamesTimesScore(players, pairings), ids)
  {
    hide ScoreOf;
    if pairings == [] {
      assert forall id :: Sum(SidesPlayed(id), pairings) == 0 && GamesTimesScore(players, pairings)(id) == 0;
      SumConst(Buchholz(players, pairings), 0, ids);
      SumConst(GamesTimesScore(players, pairings), 0, ids);
    } else {
      var n := |pairings| - 1;
      assert pairings == pairings[..n] + [pairings[n]];
      BuchholzByGames(players, pairings[..n], ids);
      if pairings[n].black.None? {
        ByeAddsNothing(players, pairings[..n], pairings[n], ids);
      } else {
        GameAddsBothScores(players, pairings[..n], pairings[n], ids);
      }
    }
  }

  /** When every paired player is listed, the Buchholz totals of the field add up to each
      player's score counted once for each game the player played. */
  lemma BuchholzTotal(players: seq<Player>, pairings: seq<Pairing>)
    requires DistinctIds(players) && AllListed(pairings, IdsOf(players))
    ensures Sum(Buchholz(players, pairings), IdsOf(players)) == Sum(GamesTimesScore(players, pairings), IdsOf(players))
  {
    BuchholzByGames(players, pairings, IdsOf(players));
  }

  // ---------------------------------------------------------------- direct encounters

  /** Half points `user` took from `opponent` in one pairing. */
  function DirectPoints(user: Id, opponent: Id): Pairing -> int
  {
    (p: Pairing) =>
      if p.black.None? || {p.white, p.black.value} != {user, opponent} || p.result.None? then 0
      else if p.white == user then ScoreForResult(p.result).value.0 else ScoreForResult(p.result).value.1
  }

  method DirectEncounterScore(user: Id, opponent: Id, pairings: seq<Pairing>) returns (score: int)
    ensures score == Sum(DirectPoints(user, opponent), pairings)
  {
    score := 0;
    for i := 0 to |pairings|
      invariant score == Sum(DirectPoints(user, opponent), pairings[..i])
    {
      var p := pairings[i];
      assert pairings[..i + 1] == pairings[..i] + [p];
      SumSnoc(DirectPoints(user, opponent), pairings[..i], p);
      if p.black.None? || {p.white, p.black.value} != {user, opponent} { continue; }
      var result := ScoreForResult(p.result);
      if result.None? { continue; }
      score := score + if p.white == user then result.value.0 else result.value.1;
    }
    assert pairings[..|pairings|] == pairings;
  }

  /** Won by the first player against the second, with either colour. */
  function WinOver(user: Id, opponent: Id): Pairing -> int
  {
    (p: Pairing) =>
      if (p.white == user && p.black == Some(opponent) && p.result == Some(WhiteWins))
         || (p.white == opponent && p.black == Some(user) && p.result == Some(BlackWins)) then 1 else 0
  }

  function DrawBetween(user: Id, opponent: Id): Pairing -> int
  {
    (p: Pairing) =>
      if p.result == Some(Draw) && ((p.white == user && p.black == Some(opponent))
                                    || (p.white == opponent && p.black == Some(user))) then 1 else 0
  }

  /** The score of one player against another is two half points for each win and one for each draw between them. */
  lemma {:induction false} DirectScoreIsWinsAndDraws(user: Id, opponent: Id, pairings: seq<Pairing>)
    requires user != opponent
    ensures Sum(DirectPoints(user, opponent), pairings)
         == 2 * Sum(WinOver(user, opponent), pairings) + Sum(DrawBetween(user, opponent), pairings)
  {
    if pairings != [] {
      var n := |pairings| - 1;
      DirectScoreIsWinsAndDraws(user, opponent, pairings[..n]);
      var p := pairings[n];
      if p.black.Some? { SamePair(p.white, p.black.value, user, opponent); }
    }
  }

  /** A decided game between the two players, whichever had White. */
  function DecidedBetween(a: Id, b: Id): Pairing -> int
  {
    (p: Pairing) =>
      if p.result.Some? && ((p.white == a && p.black == Some(b)) || (p.white == b && p.black == Some(a))) then 1 else 0
  }

  lemma SharedGame(a: Id, b: Id, p: Pairing)
    requires a != b
    ensures DirectPoints(a, b)(p) + DirectPoints(b, a)(p) == 2 * DecidedBetween(a, b)(p)
  {
    if p.black.Some? {
      var s := {p.white, p.black.value};
      if s == {a, b} {
        assert p.white in {a, b} && p.black.value in {a, b} && a in s && b in s;
      } else {
        assert !((p.white == a && p.black == Some(b)) || (p.white == b && p.black == Some(a)));
      }
      assert {a, b} == {b, a};
    }
  }

  /** The mutual direct-encounter scores of two players share out every decided game between them. */
  lemma {:induction false} DirectEncountersShare(a: Id, b: Id, pairings: seq<Pairing>)
    requires a != b
    ensures Sum(DirectPoints(a, b), pairings) + Sum(DirectPoints(b, a), pairings)
            == 2 * Sum(DecidedBetween(a, b), pairings)
  {
    if pairings != [] {
      var n := |pairings| - 1;
      DirectEncountersShare(a, b, pairings[..n]);
      SharedGame(a, b, pairings[n]);
    }
  }
}
