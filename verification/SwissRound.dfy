/** What one round of Swiss pairings promises: an exact cover of the field, rematches only
    when forced, warnings that count them, and independence from the order of its inputs. */
module SwissRound {
  import opened Common
  import opened Swiss

  function Ids(players: seq<Player>): set<Id> { set p | p in players :: p.id }

  function Mentions(id: Id): Assignment -> int
  {
    (a: Assignment) => (if a.white == id then 1 else 0) + (if a.black == Some(id) then 1 else 0)
  }

  function HasId(id: Id): Player -> int { (p: Player) => if p.id == id then 1 else 0 }

  // ---------------------------------------------------------------- exact cover

  lemma NothingMentioned(id: Id)
    ensures Sum(Mentions(id), []) == 0 && Sum(HasId(id), []) == 0
  {
  }

  lemma {:induction false} PairUpCovers(work: seq<Player>, met: set<set<Id>>, round: nat, balance: Id -> int, id: Id)
    requires |work| % 2 == 0
    ensures Sum(Mentions(id), PairUp(work, met, round, balance)) == Sum(HasId(id), work)
    decreases |work|
  {
    hide Scan, Sum, Opponent;
    if work == [] {
      NothingMentioned(id);
    } else {
      var rest := work[1..];
      var k := Opponent(work[0], rest, met);
      var a := Colors(work[0].id, rest[k].id, round, balance);
      var tail := PairUp(Without(rest, k), met, round, balance);
      PairUpCovers(Without(rest, k), met, round, balance, id);
      SumConcat(Mentions(id), [a], tail);
      SumOne(Mentions(id), a);
      assert work == [work[0]] + rest;
      SumConcat(HasId(id), [work[0]], rest);
      SumOne(HasId(id), work[0]);
      SumWithout(HasId(id), rest, k);
    }
  }

  lemma {:induction false} ListedOnce(players: seq<Player>, id: Id)
    requires DistinctIds(players)
    ensures Sum(HasId(id), players) == if id in Ids(players) then 1 else 0
  {
    if players != [] {
      var n := |players| - 1;
      ListedOnce(players[..n], id);
      assert players == players[..n] + [players[n]];
      assert id in Ids(players) <==> id in Ids(players[..n]) || id == players[n].id;
      assert players[n].id == id ==> forall p | p in players[..n] :: p.id != id;
    }
  }

  /** Every player of the field appears in exactly one assignment, nobody else appears, there are
      ceil(n/2) assignments, and there is a bye exactly when n is odd, in front. */
  lemma ExactCover(players: seq<Player>, prior: seq<Pairing>, round: nat, id: Id)
    requires DistinctIds(players)
    ensures var r := Assignments(players, prior, round);
            && Sum(Mentions(id), r) == (if id in Ids(players) then 1 else 0)
            && |r| == (|players| + 1) / 2
            && forall i | 0 <= i < |r| :: r[i].black.None? <==> i == 0 && |players| % 2 == 1
  {
    var ranked, work, bye := Standings(players), Working(players, prior), ByeOf(players, prior);
    PairUpCovers(work, Rematches(prior), round, Balance(prior), id);
    SumConcat(Mentions(id), bye, PairUp(work, Rematches(prior), round, Balance(prior)));
    StandingsMembers(players);
    SumPermutation(HasId(id), players, ranked);
    ListedOnce(players, id);
    if |players| % 2 == 1 {
      SumWithout(HasId(id), ranked, ByeIndex(ranked, ByeRecipients(prior)));
      SumOne(Mentions(id), bye[0]);
    }
  }

  lemma {:induction false} MentionsNonNegative(r: seq<Assignment>, id: Id)
    ensures Sum(Mentions(id), r) >= 0
  {
    if r != [] { MentionsNonNegative(r[..|r| - 1], id); }
  }

  lemma MentionedAt(r: seq<Assignment>, k: nat, id: Id)
    requires k < |r|
    ensures Sum(Mentions(id), r) >= Mentions(id)(r[k])
  {
    SumWithout(Mentions(id), r, k);
    MentionsNonNegative(Without(r, k), id);
  }

  /** Nobody is paired with themself. */
  lemma NoSelfPairing(players: seq<Player>, prior: seq<Pairing>, round: nat, a: Assignment)
    requires DistinctIds(players) && a in Assignments(players, prior, round)
    ensures a.black != Some(a.white) && a.white in Ids(players) && (a.black.Some? ==> a.black.value in Ids(players))
  {
    var r := Assignments(players, prior, round);
    var k :| 0 <= k < |r| && r[k] == a;
    ExactCover(players, prior, round, a.white);
    MentionedAt(r, k, a.white);
    if a.black.Some? {
      ExactCover(players, prior, round, a.black.value);
      MentionedAt(r, k, a.black.value);
    }
  }

  // ---------------------------------------------------------------- who meets whom

  /** The two have a stored pairing together. */
  ghost predicate Played(prior: seq<Pairing>, x: Id, y: Id)
  {
    exists m :: m in prior && ((m.white == x && m.black == Some(y)) || (m.white == y && m.black == Some(x)))
  }

  lemma PlayedIff(prior: seq<Pairing>, x: Id, y: Id)
    ensures {x, y} in Rematches(prior) <==> Played(prior, x, y)
  {
    forall m: Pairing | m in prior && m.black.Some?
      ensures {m.white, m.black.value} == {x, y}
         <==> (m.white == x && m.black == Some(y)) || (m.white == y && m.black == Some(x))
    {
      SamePair(m.white, m.black.value, x, y);
    }
  }

  /** Named in an assignment from position `from` on. */
  ghost predicate Later(r: seq<Assignment>, from: nat, id: Id)
  {
    exists j | from <= j < |r| :: r[j].white == id || r[j].black == Some(id)
  }

  /** `p` and `q` paired, `p` ranked first: the lower balance takes White, and on level
      balances the higher-ranked player takes White in odd rounds only. */
  ghost predicate Duel(p: Player, q: Player, round: nat, balance: Id -> int, a: Assignment)
  {
    && Before(p, q)
    && a == if balance(p.id) < balance(q.id) || (balance(p.id) == balance(q.id) && round % 2 == 1)
            then Assignment(p.id, Some(q.id)) else Assignment(q.id, Some(p.id))
  }

  /** `q` is the opponent for `p` out of `q` and `others`: if `p` has met everybody, the best-ranked; else somebody not
      met, the best-ranked of those off the score of `p` if there are any, else the lowest-ranked. */
  ghost predicate Suits(p: Player, q: Player, others: seq<Player>, met: set<set<Id>>)
  {
    if Met(p, q, met) then forall x | x in others :: Met(p, x, met) && Before(q, x)
    else if q.score != p.score
    then forall x | x in others && !Met(p, x, met) && x.score != p.score :: Before(q, x)
    else forall x | x in others && !Met(p, x, met) :: x.score == p.score && Before(x, q)
  }

  lemma RankedSplit(first: Player, rest: seq<Player>)
    requires Ranked([first] + rest)
    ensures Ranked(rest) && forall q | q in rest :: Before(first, q)
  {
    var all := [first] + rest;
    assert rest == all[1..];
    forall q | q in rest ensures Before(first, q) {
      var i :| 0 <= i < |rest| && rest[i] == q;
      assert Before(all[0], all[i + 1]);
    }
  }

  lemma OpponentSuits(p: Player, rest: seq<Player>, met: set<set<Id>>)
    requires Ranked([p] + rest) && rest != []
    ensures var o := Opponent(p, rest, met); Suits(p, rest[o], Without(rest, o), met)
  {
    var o := Opponent(p, rest, met);
    var q := rest[o];
    RankedSplit(p, rest);
    OpponentOnRankedList(p, rest, met, o);
    GapsGrow(p, rest);
    assert Met(p, q, met) <==> !Fresh(p, rest, met, o);
    hide Opponent, Scan;
    forall x | x in Without(rest, o)
      ensures Met(p, q, met) ==> Met(p, x, met) && Before(q, x)
      ensures !Met(p, q, met) && q.score != p.score && !Met(p, x, met) && x.score != p.score ==> Before(q, x)
      ensures !Met(p, q, met) && q.score == p.score && !Met(p, x, met) ==> x.score == p.score && Before(x, q)
    {
      var i :| 0 <= i < |rest| - 1 && Without(rest, o)[i] == x;
      var j := if i < o then i else i + 1;
      assert rest[j] == x;
      assert Fresh(p, rest, met, j) <==> !Met(p, x, met);
      assert j < o ==> Gap(p, x) <= Gap(p, q);
    }
  }

  lemma ColorsDuel(p: Player, q: Player, round: nat, balance: Id -> int)
    requires Before(p, q)
    ensures Duel(p, q, round, balance, Colors(p.id, q.id, round, balance))
  {
  }

  lemma RankedWithout(ranked: seq<Player>, k: nat)
    requires Ranked(ranked) && k < |ranked|
    ensures Ranked(Without(ranked, k))
  {
    var left := Without(ranked, k);
    forall i, j | 0 <= i < j < |left| ensures Before(left[i], left[j]) {
      assert left[i] == ranked[if i < k then i else i + 1];
      assert left[j] == ranked[if j < k then j else j + 1];
    }
  }

  lemma LaterShift(lead: seq<Assignment>, r: seq<Assignment>, from: nat, id: Id)
    ensures Later(lead + r, |lead| + from, id) <==> Later(r, from, id)
  {
    if Later(r, from, id) {
      var j :| from <= j < |r| && (r[j].white == id || r[j].black == Some(id));
      assert (lead + r)[|lead| + j] == r[j];
    }
    if Later(lead + r, |lead| + from, id) {
      var j :| |lead| + from <= j < |lead + r| && ((lead + r)[j].white == id || (lead + r)[j].black == Some(id));
      assert r[j - |lead|] == (lead + r)[j];
    }
  }

  lemma LaterFirst(a: Assignment, r: seq<Assignment>, id: Id)
    ensures Later([a] + r, 0, id) <==> a.white == id || a.black == Some(id) || Later(r, 0, id)
  {
    var all := [a] + r;
    LaterShift([a], r, 0, id);
    if a.white == id || a.black == Some(id) { assert all[0].white == id || all[0].black == Some(id); }
    if Later(all, 0, id) && !(a.white == id || a.black == Some(id)) {
      var j :| 0 <= j < |all| && (all[j].white == id || all[j].black == Some(id));
      assert j >= 1;
    }
    if Later(all, 1, id) {
      var j :| 1 <= j < |all| && (all[j].white == id || all[j].black == Some(id));
      assert 0 <= j;
    }
  }

  lemma {:induction false} PairUpLists(work: seq<Player>, met: set<set<Id>>, round: nat, balance: Id -> int, id: Id)
    requires |work| % 2 == 0
    ensures Later(PairUp(work, met, round, balance), 0, id) <==> id in Ids(work)
    decreases |work|
  {
    if work != [] {
      var rest := work[1..];
      var o := Opponent(work[0], rest, met);
      var left := Without(rest, o);
      PairUpStep(work, met, round, balance);
      PairUpLists(left, met, round, balance, id);
      LaterFirst(Colors(work[0].id, rest[o].id, round, balance), PairUp(left, met, round, balance), id);
      WithoutMembers(rest, o);
      assert forall x :: x in work <==> x == work[0] || x in rest;
      hide Opponent, PairUp, Later, Without;
    }
  }

  lemma {:induction false} SuitsIn(work: seq<Player>, met: set<set<Id>>, round: nat, balance: Id -> int, k: nat)
    returns (p: Player, q: Player, others: seq<Player>)
    requires Ranked(work) && |work| % 2 == 0 && k < |work| / 2
    ensures p in work && q in work && forall x | x in others :: x in work
    ensures Duel(p, q, round, balance, PairUp(work, met, round, balance)[k]) && Suits(p, q, others, met)
    ensures forall id :: Later(PairUp(work, met, round, balance), k + 1, id) <==> id in Ids(others)
    decreases |work|
  {
    hide *;
    var first, rest := work[0], work[1..];
    var o := Opponent(first, rest, met);
    var left := Without(rest, o);
    var a, tail := Colors(first.id, rest[o].id, round, balance), PairUp(left, met, round, balance);
    PairUpStep(work, met, round, balance);
    assert [first] + rest == work;
    WithoutMembers(rest, o);
    RankedSplit(first, rest);
    if k == 0 {
      p, q, others := first, rest[o], left;
      ColorsDuel(p, q, round, balance);
      OpponentSuits(first, rest, met);
      forall id { PairUpLists(left, met, round, balance, id); }
    } else {
      RankedWithout(rest, o);
      p, q, others := SuitsIn(left, met, round, balance, k - 1);
    }
    forall id ensures Later([a] + tail, k + 1, id) <==> Later(tail, k, id) { LaterShift([a], tail, k, id); }
  }

  lemma WorkingRanked(players: seq<Player>, prior: seq<Pairing>)
    requires DistinctIds(players)
    ensures Ranked(Working(players, prior))
    ensures forall p | p in Working(players, prior) :: p in players
  {
    var ranked := Standings(players);
    StandingsRanked(players);
    StandingsMembers(players);
    SameMembers(players, ranked);
    if |players| % 2 == 1 {
      var k := ByeIndex(ranked, ByeRecipients(prior));
      hide Ranked;
      RankedWithout(ranked, k);
      WithoutMembers(ranked, k);
    }
  }

  /** Assignment `k` pairs `p`, ranked first, with `q`: of the players not paired before, the best-ranked if `p` has
      played all of them; else somebody `p` has not played, namely the best-ranked of those off the score of `p` if
      there are any, and the lowest-ranked otherwise. */
  ghost predicate RightOpponent(players: seq<Player>, prior: seq<Pairing>, r: seq<Assignment>, k: nat, p: Player,
      q: Player)
  {
    if Played(prior, p.id, q.id)
    then forall x | x in players && Later(r, k + 1, x.id) :: Played(prior, p.id, x.id) && Before(q, x)
    else if q.score != p.score
    then forall x | x in players && Later(r, k + 1, x.id) && !Played(prior, p.id, x.id) && x.score != p.score ::
           Before(q, x)
    else forall x | x in players && Later(r, k + 1, x.id) && !Played(prior, p.id, x.id) ::
           x.score == p.score && Before(x, q)
  }

  lemma SuitsPlayed(players: seq<Player>, prior: seq<Pairing>, r: seq<Assignment>, k: nat, p: Player, q: Player,
      others: seq<Player>)
    requires DistinctIds(players) && Suits(p, q, others, Rematches(prior)) && forall x | x in others :: x in players
    requires forall id :: Later(r, k + 1, id) <==> id in Ids(others)
    ensures RightOpponent(players, prior, r, k, p, q)
  {
    forall x: Player ensures Met(p, x, Rematches(prior)) <==> Played(prior, p.id, x.id) {
      PlayedIff(prior, p.id, x.id);
    }
    forall x | x in players && Later(r, k + 1, x.id) ensures x in others {
      assert x.id in Ids(others);
      var y :| y in others && y.id == x.id;
    }
    hide Later, Played, Met, Rematches, Before;
  }

  lemma AfterBye(players: seq<Player>, prior: seq<Pairing>, round: nat, k: nat)
    requires k < |Assignments(players, prior, round)| && Assignments(players, prior, round)[k].black.Some?
    ensures var r, bye, work := Assignments(players, prior, round), ByeOf(players, prior), Working(players, prior);
            var pairs := PairUp(work, Rematches(prior), round, Balance(prior));
            && r == bye + pairs && |bye| <= k && k - |bye| < |work| / 2 == |pairs| && r[k] == pairs[k - |bye|]
  {
    hide PairUp, Standings, Rematches, Balance, ByeIndex, ByeRecipients;
  }

  /** The whole round: after the bye, each assignment pairs two players of the field as their balances and the round
      say, and the opponent is the one described. */
  lemma OpponentsOfRound(players: seq<Player>, prior: seq<Pairing>, round: nat, k: nat)
    requires DistinctIds(players)
    requires k < |Assignments(players, prior, round)| && Assignments(players, prior, round)[k].black.Some?
    ensures var r := Assignments(players, prior, round);
            exists p, q ::
              && p in players && q in players && Duel(p, q, round, Balance(prior), r[k])
              && RightOpponent(players, prior, r, k, p, q)
  {
    hide *;
    var r, met := Assignments(players, prior, round), Rematches(prior);
    var work, bye := Working(players, prior), ByeOf(players, prior);
    var pairs := PairUp(work, met, round, Balance(prior));
    AfterBye(players, prior, round, k);
    WorkingRanked(players, prior);
    var p, q, others := SuitsIn(work, met, round, Balance(prior), k - |bye|);
    forall id ensures Later(r, k + 1, id) <==> id in Ids(others) {
      LaterShift(bye, pairs, k - |bye| + 1, id);
    }
    SuitsPlayed(players, prior, r, k, p, q, others);
  }

  /** A pair that has met before is paired again only if its higher-ranked player has met everybody
      still unpaired at that point, that is everybody in a later assignment. */
  lemma RematchOnlyIfForced(players: seq<Player>, prior: seq<Pairing>, round: nat, k: nat)
    requires DistinctIds(players)
    requires k < |Assignments(players, prior, round)| && Assignments(players, prior, round)[k].black.Some?
    ensures var r := Assignments(players, prior, round);
            exists p, q ::
              && p in players && q in players && Before(p, q)
              && (r[k] == Assignment(p.id, Some(q.id)) || r[k] == Assignment(q.id, Some(p.id)))
              && (Played(prior, p.id, q.id) ==>
                    forall x: Id | Later(r, k + 1, x) :: Played(prior, p.id, x))
  {
    var r := Assignments(players, prior, round);
    OpponentsOfRound(players, prior, round, k);
    hide Assignments, Played, Before;
    var p, q :| p in players && q in players && Duel(p, q, round, Balance(prior), r[k])
                && RightOpponent(players, prior, r, k, p, q);
    forall x: Id | Later(r, k + 1, x) ensures Played(prior, p.id, q.id) ==> Played(prior, p.id, x) {
      var j :| k + 1 <= j < |r| && (r[j].white == x || r[j].black == Some(x));
      NoSelfPairing(players, prior, round, r[j]);
      var y :| y in players && y.id == x;
    }
  }

  // ---------------------------------------------------------------- order independence

  lemma {:induction false} PairUpSame(work: seq<Player>, met: set<set<Id>>, round: nat, b: Id -> int, c: Id -> int)
    requires |work| % 2 == 0
    requires forall id :: b(id) == c(id)
    ensures PairUp(work, met, round, b) == PairUp(work, met, round, c)
    decreases |work|
  {
    if work != [] {
      var rest := work[1..];
      PairUpSame(Without(rest, Opponent(work[0], rest, met)), met, round, b, c);
    }
  }

  /** Neither the order of the player list nor that of the prior pairings matters. */
  lemma OrderIndependent(players: seq<Player>, players': seq<Player>, prior: seq<Pairing>, prior': seq<Pairing>,
      round: nat)
    requires DistinctIds(players)
    requires multiset(players) == multiset(players') && multiset(prior) == multiset(prior')
    ensures Assignments(players, prior, round) == Assignments(players', prior', round)
  {
    PermutedDistinct(players, players');
    StandingsRanked(players);
    StandingsRanked(players');
    StandingsMembers(players);
    StandingsMembers(players');
    RankedUnique(Standings(players), Standings(players'));
    SameMembers(prior, prior');
    assert Rematches(prior) == Rematches(prior');
    assert ByeRecipients(prior) == ByeRecipients(prior');
    forall id ensures Balance(prior)(id) == Balance(prior')(id) {
      SumPermutation(WhiteIn(id), prior, prior');
      SumPermutation(BlackIn(id), prior, prior');
    }
    PairUpSame(Working(players, prior), Rematches(prior), round, Balance(prior), Balance(prior'));
  }

  // ---------------------------------------------------------------- the plan and its warnings

  function ActivePlayers(players: seq<Player>): seq<Player>
  {
    if players == [] then []
    else
      var n := |players| - 1;
      ActivePlayers(players[..n]) + if players[n].active then [players[n]] else []
  }

  lemma {:induction false} ActivePlayersKept(players: seq<Player>)
    ensures forall p :: p in ActivePlayers(players) <==> p in players && p.active
    ensures DistinctIds(players) ==> DistinctIds(ActivePlayers(players))
  {
    if players != [] {
      var n := |players| - 1;
      ActivePlayersKept(players[..n]);
      assert players == players[..n] + [players[n]];
    }
  }

  /** Counts the assignments whose two players have a stored pairing together. */
  ghost function AgainIn(prior: seq<Pairing>): Assignment -> int
  {
    (a: Assignment) => if a.black.Some? && Played(prior, a.white, a.black.value) then 1 else 0
  }

  /** `rematches` rematch warnings, then a bye warning if there is a bye. */
  ghost predicate WarningsFor(warnings: seq<Warning>, rematches: int, bye: bool)
  {
    && |warnings| == rematches + (if bye then 1 else 0)
    && forall i | 0 <= i < |warnings| :: warnings[i] == if i < rematches then RematchUnavoidable else ByeAssigned
  }

  /** The warning loop of `plan_swiss_pairings`. */
  method RematchWarnings(pairings: seq<Assignment>, priorMatches: set<set<Id>>, ghost prior: seq<Pairing>)
    returns (warnings: seq<Warning>)
    requires priorMatches == Rematches(prior)
    ensures WarningsFor(warnings, Sum(AgainIn(prior), pairings), false)
  {
    hide Rematches, Played;
    warnings := [];
    for i := 0 to |pairings|
      invariant WarningsFor(warnings, Sum(AgainIn(prior), pairings[..i]), false)
    {
      assert pairings[..i + 1] == pairings[..i] + [pairings[i]];
      SumSnoc(AgainIn(prior), pairings[..i], pairings[i]);
      if pairings[i].black.Some? {
        PlayedIff(prior, pairings[i].white, pairings[i].black.value);
        if {pairings[i].white, pairings[i].black.value} in priorMatches {
          warnings := warnings + [RematchUnavoidable];
        }
      }
    }
    assert pairings[..|pairings|] == pairings;
  }

  /** `plan_swiss_pairings`: one rematch warning for each pair that has met, then a bye warning for an odd field. */
  method PlanSwissPairings(players: seq<Player>, prior: seq<Pairing>, round: nat)
    returns (pairings: seq<Assignment>, warnings: seq<Warning>)
    requires DistinctIds(players)
    ensures pairings == Assignments(ActivePlayers(players), prior, round)
    ensures WarningsFor(warnings, Sum(AgainIn(prior), pairings), |ActivePlayers(players)| % 2 == 1)
  {
    hide Assignments, ActivePlayers, Sum, Rematches;
    var active := ActivePlayers(players);
    ActivePlayersKept(players);
    pairings := GenerateSwissPairings(active, prior, round);
    warnings := RematchWarnings(pairings, Rematches(prior), prior);
    assert |active| % 2 == 1 ==> pairings[0].black.None?;
    if exists j | 0 <= j < |pairings| :: pairings[j].black.None? {
      warnings := warnings + [ByeAssigned];
    }
  }
}
