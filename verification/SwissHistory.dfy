/** Many rounds of Swiss pairings over a fixed field, whatever the players score in them. */
module SwissHistory {
  import opened Common
  import opened Swiss
  import opened SwissRound

  /** The stored pairing. Results play no part in later pairings, so none is recorded here. */
  function Stored(a: Assignment, round: nat): Pairing { Pairing(round, a.white, a.black, None, None) }

  function StoredAll(r: seq<Assignment>, round: nat): (s: seq<Pairing>)
    ensures |s| == |r|
  {
    if r == [] then [] else StoredAll(r[..|r| - 1], round) + [Stored(r[|r| - 1], round)]
  }

  /** Round n+1 pairs the n-th line-up: the field with the scores it has by then. */
  function History(lineups: seq<seq<Player>>): seq<Pairing>
  {
    if lineups == [] then []
    else
      var n := |lineups| - 1;
      History(lineups[..n]) + StoredAll(Assignments(lineups[n], History(lineups[..n]), n + 1), n + 1)
  }

  /** The assignments of round `n + 1`. */
  function RoundOf(lineups: seq<seq<Player>>, n: nat): seq<Assignment>
    requires n < |lineups|
  {
    Assignments(lineups[n], History(lineups[..n]), n + 1)
  }

  /** Every line-up lists exactly the ids of `field`, each once. */
  ghost predicate FixedField(lineups: seq<seq<Player>>, field: seq<Id>)
  {
    && Distinct(field)
    && forall n | 0 <= n < |lineups| ::
         DistinctIds(lineups[n]) && |lineups[n]| == |field| && forall id :: id in Ids(lineups[n]) <==> id in field
  }

  lemma FixedPrefix(lineups: seq<seq<Player>>, field: seq<Id>, n: nat)
    requires FixedField(lineups, field) && n <= |lineups|
    ensures FixedField(lineups[..n], field)
    ensures forall m | 0 <= m < n :: RoundOf(lineups[..n], m) == RoundOf(lineups, m)
  {
    forall m | 0 <= m < n ensures RoundOf(lineups[..n], m) == RoundOf(lineups, m) {
      assert lineups[..n][..m] == lineups[..m];
    }
  }

  // ---------------------------------------------------------------- appearances

  function AppearsIn(id: Id): Pairing -> int { (p: Pairing) => WhiteIn(id)(p) + BlackIn(id)(p) }

  lemma {:induction false} StoredAppearances(r: seq<Assignment>, round: nat, id: Id)
    ensures Sum(AppearsIn(id), StoredAll(r, round)) == Sum(Mentions(id), r)
  {
    if r != [] {
      StoredAppearances(r[..|r| - 1], round, id);
      SumSnoc(AppearsIn(id), StoredAll(r[..|r| - 1], round), Stored(r[|r| - 1], round));
      var a := r[|r| - 1];
      assert WhiteIn(id)(Stored(a, round)) == if a.white == id then 1 else 0;
      assert BlackIn(id)(Stored(a, round)) == if a.black == Some(id) then 1 else 0;
    }
  }

  /** With a fixed field everybody is paired, or given the bye, exactly once a round. */
  lemma {:induction false} AppearsOncePerRound(lineups: seq<seq<Player>>, field: seq<Id>, id: Id)
    requires FixedField(lineups, field)
    ensures Sum(AppearsIn(id), History(lineups)) == if id in field then |lineups| else 0
  {
    hide Assignments;
    if lineups != [] {
      var n := |lineups| - 1;
      FixedPrefix(lineups, field, n);
      AppearsOncePerRound(lineups[..n], field, id);
      SumConcat(AppearsIn(id), History(lineups[..n]), StoredAll(RoundOf(lineups, n), n + 1));
      StoredAppearances(RoundOf(lineups, n), n + 1, id);
      ExactCover(lineups[n], History(lineups[..n]), n + 1, id);
    }
  }

  /** After n rounds of a fixed field every balance has the parity of n. */
  lemma BalanceParity(lineups: seq<seq<Player>>, field: seq<Id>, id: Id)
    requires FixedField(lineups, field) && id in field
    ensures (Balance(History(lineups))(id) - |lineups|) % 2 == 0
  {
    hide History;
    var h := History(lineups);
    AppearsOncePerRound(lineups, field, id);
    SumPlus(WhiteIn(id), BlackIn(id), AppearsIn(id), h);
    assert Balance(h)(id) - |lineups| == -2 * Sum(BlackIn(id), h);
  }

  // ---------------------------------------------------------------- balances sum to the byes

  function IsBye(): Pairing -> int { (p: Pairing) => if p.black.None? then 1 else 0 }

  lemma BalanceSnoc(prior: seq<Pairing>, p: Pairing, id: Id)
    ensures Balance(prior + [p])(id) == Balance(prior)(id) + WhiteIn(id)(p) - BlackIn(id)(p)
  {
    SumSnoc(WhiteIn(id), prior, p);
    SumSnoc(BlackIn(id), prior, p);
  }

  /** Over any list of pairings among the players of `field`, the balances sum to the number of byes. */
  lemma {:induction false} BalancesSumToByes(prior: seq<Pairing>, field: seq<Id>)
    requires Distinct(field)
    requires forall p | p in prior :: p.white in field && (p.black.Some? ==> p.black.value in field)
    ensures Sum(Balance(prior), field) == Sum(IsBye(), prior)
  {
    if prior == [] {
      SumConst(Balance(prior), 0, field);
    } else {
      var n := |prior| - 1;
      var before, p := prior[..n], prior[n];
      assert prior == before + [p];
      BalancesSumToByes(before, field);
      var up := Bump(Balance(before), p.white, 1);
      SumBump(Balance(before), p.white, 1, field);
      forall id ensures Balance(prior)(id) == up(id) - BlackIn(id)(p) {
        BalanceSnoc(before, p, id);
      }
      if p.black.Some? {
        SumBump(up, p.black.value, -1, field);
        SumEqual(Bump(up, p.black.value, -1), Balance(prior), field);
      } else {
        SumEqual(up, Balance(prior), field);
      }
    }
  }

  // ---------------------------------------------------------------- the colour bound

  function Square(prior: seq<Pairing>): Id -> int { (id: Id) => Balance(prior)(id) * Balance(prior)(id) }

  lemma {:induction false} BalanceUntouched(prior: seq<Pairing>, r: seq<Assignment>, round: nat, id: Id)
    requires Sum(Mentions(id), r) == 0
    ensures Balance(prior + StoredAll(r, round))(id) == Balance(prior)(id)
  {
    if r == [] {
      assert prior + StoredAll(r, round) == prior;
    } else {
      var n := |r| - 1;
      MentionsNonNegative(r[..n], id);
      BalanceUntouched(prior, r[..n], round, id);
      assert prior + StoredAll(r, round) == (prior + StoredAll(r[..n], round)) + [Stored(r[n], round)];
      BalanceSnoc(prior + StoredAll(r[..n], round), Stored(r[n], round), id);
    }
  }

  lemma Expand(x: int, d: int)
    requires d == 1 || d == -1
    ensures (x + d) * (x + d) == x * x + 2 * d * x + 1
  {
  }

  lemma SquareAt(cur: seq<Pairing>, p: Pairing, id: Id)
    requires p.black.Some? && p.white != p.black.value
    ensures Square(cur + [p])(id) == Square(cur)(id)
                + if id == p.white then 2 * Balance(cur)(id) + 1
                  else if id == p.black.value then -2 * Balance(cur)(id) + 1 else 0
  {
    BalanceSnoc(cur, p, id);
    hide Balance;
    if id == p.white { Expand(Balance(cur)(id), 1); }
    if id == p.black.value { Expand(Balance(cur)(id), -1); }
  }

  lemma SquaresAfterPair(cur: seq<Pairing>, p: Pairing, field: seq<Id>)
    requires Distinct(field) && p.black.Some? && p.white != p.black.value
    requires p.white in field && p.black.value in field
    requires Balance(cur)(p.white) <= Balance(cur)(p.black.value)
    ensures Sum(Square(cur + [p]), field) <= Sum(Square(cur), field) + 2
  {
    hide Balance, Square, Sum;
    var w, b := p.white, p.black.value;
    var up, down := 2 * Balance(cur)(w) + 1, -2 * Balance(cur)(b) + 1;
    forall id ensures Square(cur + [p])(id) == Bump(Bump(Square(cur), w, up), b, down)(id) {
      SquareAt(cur, p, id);
    }
    BumpTwice(Square(cur), w, up, b, down, field, Square(cur + [p]));
  }

  lemma FirstMention(r: seq<Assignment>, k: nat, id: Id)
    requires k < |r| && Sum(Mentions(id), r) <= 1 && (r[k].white == id || r[k].black == Some(id))
    ensures Sum(Mentions(id), r[..k]) == 0 && r[k].black != Some(r[k].white)
  {
    assert r == r[..k] + r[k..] && r[k..] == [r[k]] + r[k + 1..];
    SumConcat(Mentions(id), r[..k], r[k..]);
    SumConcat(Mentions(id), [r[k]], r[k + 1..]);
    SumOne(Mentions(id), r[k]);
    MentionsNonNegative(r[..k], id);
    MentionsNonNegative(r[k + 1..], id);
  }

  lemma {:induction false} SquaresAfterRound(prior: seq<Pairing>, r: seq<Assignment>, round: nat, field: seq<Id>,
      k: nat)
    requires Distinct(field) && k <= |r|
    requires forall id :: Sum(Mentions(id), r) <= 1
    requires forall a | a in r :: a.black.Some? && a.white in field && a.black.value in field
                                  && Balance(prior)(a.white) <= Balance(prior)(a.black.value)
    ensures Sum(Square(prior + StoredAll(r[..k], round)), field) <= Sum(Square(prior), field) + 2 * k
  {
    if k == 0 {
      assert prior + StoredAll(r[..k], round) == prior;
    } else {
      var done, a := r[..k - 1], r[k - 1];
      SquaresAfterRound(prior, r, round, field, k - 1);
      assert r[..k] == done + [a] && r[..k][..k - 1] == done;
      var cur := prior + StoredAll(done, round);
      assert prior + StoredAll(r[..k], round) == cur + [Stored(a, round)];
      FirstMention(r, k - 1, a.white);
      FirstMention(r, k - 1, a.black.value);
      BalanceUntouched(prior, done, round, a.white);
      BalanceUntouched(prior, done, round, a.black.value);
      SquaresAfterPair(cur, Stored(a, round), field);
    }
  }

  lemma NoBalance()
    ensures forall id :: Balance([])(id) == 0
  {
  }

  lemma EvenRound(players: seq<Player>, prior: seq<Pairing>, round: nat, a: Assignment)
    requires DistinctIds(players) && |players| % 2 == 0 && a in Assignments(players, prior, round)
    ensures a.black.Some? && a.white in Ids(players) && a.black.value in Ids(players)
    ensures Balance(prior)(a.white) <= Balance(prior)(a.black.value)
  {
    NoSelfPairing(players, prior, round, a);
  }

  /** With a fixed even field the squared balances sum to at most twice the games paired,
      after any number of rounds and whatever the results. */
  lemma {:induction false} ColourBalanceBound(lineups: seq<seq<Player>>, field: seq<Id>)
    requires FixedField(lineups, field) && |field| % 2 == 0
    ensures Sum(Square(History(lineups)), field) <= 2 * |History(lineups)|
  {
    hide Assignments;
    hide Balance;
    if lineups == [] {
      assert forall id :: Balance([])(id) == 0 by { NoBalance(); }
      SumConst(Square([]), 0, field);
    } else {
      var n := |lineups| - 1;
      var prior, r := History(lineups[..n]), RoundOf(lineups, n);
      FixedPrefix(lineups, field, n);
      ColourBalanceBound(lineups[..n], field);
      forall id ensures Sum(Mentions(id), r) <= 1 { ExactCover(lineups[n], prior, n + 1, id); }
      forall a | a in r
        ensures a.black.Some? && a.white in field && a.black.value in field
                && Balance(prior)(a.white) <= Balance(prior)(a.black.value)
      {
        EvenRound(lineups[n], prior, n + 1, a);
      }
      SquaresAfterRound(prior, r, n + 1, field, |r|);
      assert r[..|r|] == r;
    }
  }

  // ---------------------------------------------------------------- bye fairness

  /** The player given the bye in round `n + 1`. */
  function ByeAt(lineups: seq<seq<Player>>, n: nat): Id
    requires n < |lineups| && |lineups[n]| % 2 == 1
  {
    RoundOf(lineups, n)[0].white
  }

  lemma ByesConcat(s: seq<Pairing>, t: seq<Pairing>)
    ensures ByeRecipients(s + t) == ByeRecipients(s) + ByeRecipients(t)
  {
  }

  lemma {:induction false} StoredByes(r: seq<Assignment>, round: nat)
    ensures forall id ::
              id in ByeRecipients(StoredAll(r, round)) <==> exists a :: a in r && a.black.None? && a.white == id
  {
    if r != [] {
      var n := |r| - 1;
      StoredByes(r[..n], round);
      assert r == r[..n] + [r[n]];
      var all, last := StoredAll(r[..n], round), Stored(r[n], round);
      forall id
        ensures id in ByeRecipients(StoredAll(r, round)) <==> exists a :: a in r && a.black.None? && a.white == id
      {
        ByesConcat(all, [last]);
      }
    }
  }

  /** Every round is played by an odd number of players, so every round has a bye. */
  ghost predicate OddFields(lineups: seq<seq<Player>>)
  {
    forall m | 0 <= m < |lineups| :: |lineups[m]| % 2 == 1
  }

  /** The player had the bye of one of the first `n` rounds. */
  ghost predicate HadBye(lineups: seq<seq<Player>>, n: nat, id: Id)
    requires n <= |lineups| && OddFields(lineups)
  {
    exists m | 0 <= m < n :: ByeAt(lineups, m) == id
  }

  lemma HadByeNext(lineups: seq<seq<Player>>, n: nat, id: Id)
    requires n < |lineups| && OddFields(lineups)
    ensures HadBye(lineups, n + 1, id) <==> HadBye(lineups, n, id) || ByeAt(lineups, n) == id
  {
    hide ByeAt;
  }

  lemma OnlyStoredBye(r: seq<Assignment>, round: nat, id: Id)
    requires r != [] && forall i | 0 <= i < |r| :: r[i].black.None? <==> i == 0
    ensures id in ByeRecipients(StoredAll(r, round)) <==> r[0].white == id
  {
    StoredByes(r, round);
    hide ByeRecipients, StoredAll;
    assert r[0] in r;
  }

  lemma ByeRecipientsGrow(lineups: seq<seq<Player>>, n: nat, id: Id)
    requires n < |lineups| && OddFields(lineups)
    ensures id in ByeRecipients(History(lineups[..n + 1]))
            <==> id in ByeRecipients(History(lineups[..n])) || ByeAt(lineups, n) == id
  {
    var prior, r := History(lineups[..n]), RoundOf(lineups, n);
    assert lineups[..n + 1][..n] == lineups[..n];
    assert History(lineups[..n + 1]) == prior + StoredAll(r, n + 1);
    assert forall i | 0 <= i < |r| :: r[i].black.None? <==> i == 0;
    hide Assignments, History, RoundOf, ByeRecipients, StoredAll;
    OnlyStoredBye(r, n + 1, id);
    ByesConcat(prior, StoredAll(r, n + 1));
  }

  lemma NoByesYet(lineups: seq<seq<Player>>, id: Id)
    requires OddFields(lineups)
    ensures id !in ByeRecipients(History(lineups[..0])) && !HadBye(lineups, 0, id)
  {
    assert lineups[..0] == [];
    assert History([]) == [];
  }

  /** The players with a bye after n rounds are those of the n rounds' byes. */
  lemma {:induction false} ByesSoFar(lineups: seq<seq<Player>>, n: nat, id: Id)
    requires n <= |lineups| && OddFields(lineups)
    ensures id in ByeRecipients(History(lineups[..n])) <==> HadBye(lineups, n, id)
  {
    hide *;
    if n == 0 {
      NoByesYet(lineups, id);
    } else {
      ByesSoFar(lineups, n - 1, id);
      ByeRecipientsGrow(lineups, n - 1, id);
      HadByeNext(lineups, n - 1, id);
    }
  }

  lemma ByeHasRank(players: seq<Player>, prior: seq<Pairing>, round: nat) returns (k: nat)
    requires |players| % 2 == 1
    ensures var ranked, byes := Standings(players), ByeRecipients(prior);
            && k < |players| == |ranked| && Assignments(players, prior, round)[0].white == ranked[k].id
            && (forall j | k < j < |players| :: ranked[j].id in byes)
            && (ranked[k].id in byes ==> k == |players| - 1 && forall id | id in Ids(players) :: id in byes)
  {
    var ranked, byes := Standings(players), ByeRecipients(prior);
    k := ByeIndex(ranked, byes);
    StandingsMembers(players);
    SameMembers(players, ranked);
    hide Standings, ByeIndex, ByeRecipients;
    if ranked[k].id in byes {
      forall id | id in Ids(players) ensures id in byes {
        var p :| p in players && p.id == id;
        assert p in ranked;
      }
    }
  }

  /** The bye of a round goes to the last-ranked player who has none; everybody ranked below has one.
      A second bye is given only when nobody is without one, and then to the last-ranked player. */
  lemma ByeGoesToLastWithout(lineups: seq<seq<Player>>, field: seq<Id>, n: nat) returns (k: nat)
    requires FixedField(lineups, field) && |field| % 2 == 1 && n < |lineups|
    ensures k < |lineups[n]| == |Standings(lineups[n])| && ByeAt(lineups, n) == Standings(lineups[n])[k].id
    ensures forall j | k < j < |lineups[n]| :: HadBye(lineups, n, Standings(lineups[n])[j].id)
    ensures HadBye(lineups, n, ByeAt(lineups, n)) ==>
              k == |lineups[n]| - 1 && forall id | id in field :: HadBye(lineups, n, id)
  {
    hide Assignments, Standings, History, HadBye, ByeRecipients;
    k := ByeHasRank(lineups[n], History(lineups[..n]), n + 1);
    forall id ensures id in ByeRecipients(History(lineups[..n])) <==> HadBye(lineups, n, id) {
      ByesSoFar(lineups, n, id);
    }
  }

  function FirstByes(lineups: seq<seq<Player>>, n: nat): seq<Id>
    requires n <= |lineups| && OddFields(lineups)
  {
    seq(n, m requires 0 <= m < n => ByeAt(lineups, m))
  }

  /** A duplicate-free list inside another list is no longer than it. */
  lemma {:induction false} DistinctCount(field: seq<Id>, ids: seq<Id>)
    requires Distinct(field) && forall id | id in field :: id in ids
    ensures |field| <= |ids|
  {
    if field != [] {
      var n := |field| - 1;
      assert field[n] in ids;
      var k :| 0 <= k < |ids| && ids[k] == field[n];
      WithoutMembers(ids, k);
      DistinctCount(field[..n], Without(ids, k));
    }
  }

  lemma CoveredByByes(lineups: seq<seq<Player>>, field: seq<Id>, n: nat)
    requires n <= |lineups| && OddFields(lineups) && Distinct(field)
    requires forall id | id in field :: HadBye(lineups, n, id)
    ensures |field| <= n
  {
    hide ByeAt;
    forall id | id in field ensures id in FirstByes(lineups, n) {
      assert HadBye(lineups, n, id);
      var i :| 0 <= i < n && ByeAt(lineups, i) == id;
      assert FirstByes(lineups, n)[i] == id;
    }
    DistinctCount(field, FirstByes(lineups, n));
  }

  /** With a fixed odd field the byes of the first rounds, one for each player, go to different players. */
  lemma FirstByesDiffer(lineups: seq<seq<Player>>, field: seq<Id>, m: nat, n: nat)
    requires FixedField(lineups, field) && |field| % 2 == 1 && m < n < |lineups| && n < |field|
    ensures ByeAt(lineups, m) != ByeAt(lineups, n)
  {
    hide ByeAt, History, Standings, Ids, DistinctIds;
    if ByeAt(lineups, m) == ByeAt(lineups, n) {
      assert HadBye(lineups, n, ByeAt(lineups, n));
      var k := ByeGoesToLastWithout(lineups, field, n);
      CoveredByByes(lineups, field, n);
    }
  }

  lemma SameBye(lineups: seq<seq<Player>>, n: nat, m: nat)
    requires m < n <= |lineups| && |lineups[m]| % 2 == 1
    ensures ByeAt(lineups[..n], m) == ByeAt(lineups, m)
  {
    assert lineups[..n][..m] == lineups[..m];
    hide Assignments;
  }

  lemma OneBye(lineups: seq<seq<Player>>, n: nat, id: Id)
    requires n < |lineups| && |lineups[n]| % 2 == 1
    requires Assignment(id, None) in RoundOf(lineups, n)
    ensures ByeAt(lineups, n) == id
  {
    hide Assignments;
  }

  lemma {:induction false} StoredRow(r: seq<Assignment>, round: nat, p: Pairing)
    requires p in StoredAll(r, round)
    ensures p.round == round && Assignment(p.white, p.black) in r
  {
    var n := |r| - 1;
    assert r == r[..n] + [r[n]];
    if p in StoredAll(r[..n], round) { StoredRow(r[..n], round, p); }
  }

  /** Each round of a fixed odd field stores one bye, that round's. */
  lemma {:induction false} ByeRows(lineups: seq<seq<Player>>, field: seq<Id>, p: Pairing)
    requires FixedField(lineups, field) && |field| % 2 == 1
    requires p in History(lineups) && p.black.None?
    ensures 1 <= p.round <= |lineups| && p.white == ByeAt(lineups, p.round - 1)
  {
    hide Assignments, ByeAt;
    var n := |lineups| - 1;
    FixedPrefix(lineups, field, n);
    if p in History(lineups[..n]) {
      ByeRows(lineups[..n], field, p);
      SameBye(lineups, n, p.round - 1);
    } else {
      StoredRow(RoundOf(lineups, n), n + 1, p);
      OneBye(lineups, n, p.white);
    }
  }
}
