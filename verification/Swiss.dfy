/** The pure Swiss pairing rules: standings order, byes, opponents and colours.
    Scores are counted in half points, and a UUID is its 128-bit number, whose
    order is the order of its fixed-width text. */
module Swiss {
  import opened Common

  type Id = nat

  datatype Player = Player(id: Id, seedRating: int, score: int, joinedAt: int, active: bool)

  datatype PairingResult = WhiteWins | BlackWins | Draw

  datatype Pairing = Pairing(round: nat, white: Id, black: Option<Id>, game: Option<nat>, result: Option<PairingResult>)

  datatype Assignment = Assignment(white: Id, black: Option<Id>)

  datatype Warning = RematchUnavoidable | ByeAssigned

  predicate DistinctIds(players: seq<Player>)
  {
    forall i, j | 0 <= i < j < |players| :: players[i].id != players[j].id
  }

  function IdsOf(players: seq<Player>): (ids: seq<Id>)
    ensures |ids| == |players| && forall i | 0 <= i < |ids| :: ids[i] == players[i].id
  {
    if players == [] then [] else IdsOf(players[..|players| - 1]) + [players[|players| - 1].id]
  }

  /** `score_for_result`, in half points. */
  function ScoreForResult(result: Option<PairingResult>): Option<(int, int)>
  {
    match result
    case Some(WhiteWins) => Some((2, 0))
    case Some(BlackWins) => Some((0, 2))
    case Some(Draw) => Some((1, 1))
    case None => None
  }

  // ---------------------------------------------------------------- standings

  /** The sort key (-score, -seed_rating, joined_at, str(user_id)) compared. */
  predicate Before(a: Player, b: Player)
  {
    || a.score > b.score
    || (a.score == b.score && a.seedRating > b.seedRating)
    || (a.score == b.score && a.seedRating == b.seedRating && a.joinedAt < b.joinedAt)
    || (a.score == b.score && a.seedRating == b.seedRating && a.joinedAt == b.joinedAt && a.id < b.id)
  }

  predicate Ranked(players: seq<Player>)
  {
    forall i, j | 0 <= i < j < |players| :: Before(players[i], players[j])
  }

  function Insert(p: Player, ranked: seq<Player>): (r: seq<Player>)
    ensures |r| == |ranked| + 1
  {
    if ranked == [] || !Before(ranked[0], p) then [p] + ranked
    else [ranked[0]] + Insert(p, ranked[1..])
  }

  /** Python's stable `sorted` with the key above. */
  function Standings(players: seq<Player>): (r: seq<Player>)
    ensures |r| == |players|
  {
    if players == [] then [] else Insert(players[0], Standings(players[1..]))
  }

  lemma {:induction false} InsertMembers(p: Player, ranked: seq<Player>)
    ensures multiset(Insert(p, ranked)) == multiset{p} + multiset(ranked)
  {
    if !(ranked == [] || !Before(ranked[0], p)) {
      assert ranked == [ranked[0]] + ranked[1..];
      InsertMembers(p, ranked[1..]);
    }
  }

  /** Ranking neither adds, drops nor changes a player. */
  lemma {:induction false} StandingsMembers(players: seq<Player>)
    ensures multiset(Standings(players)) == multiset(players)
  {
    if players != [] {
      assert players == [players[0]] + players[1..];
      StandingsMembers(players[1..]);
      InsertMembers(players[0], Standings(players[1..]));
    }
  }

  lemma {:induction false} InsertRanked(p: Player, ranked: seq<Player>)
    requires Ranked(ranked)
    requires forall q | q in ranked :: q.id != p.id
    ensures Ranked(Insert(p, ranked))
  {
    if ranked != [] && Before(ranked[0], p) {
      InsertRanked(p, ranked[1..]);
      var rest := Insert(p, ranked[1..]);
      InsertMembers(p, ranked[1..]);
      forall q | q in rest ensures Before(ranked[0], q) {
        assert q in multiset(rest);
        assert q == p || q in ranked[1..];
      }
    }
  }

  /** Distinct ids make the sort key a strict total order, so standings are strictly ranked. */
  lemma {:induction false} StandingsRanked(players: seq<Player>)
    requires DistinctIds(players)
    ensures Ranked(Standings(players))
  {
    if players != [] {
      StandingsRanked(players[1..]);
      StandingsMembers(players[1..]);
      SameMembers(players[1..], Standings(players[1..]));
      InsertRanked(players[0], Standings(players[1..]));
    }
  }

  /** Standings go by score downwards, then by rating downwards, then by time of joining, then by id. */
  lemma StandingsOrder(players: seq<Player>, i: nat, j: nat)
    requires DistinctIds(players) && i < j < |players|
    ensures var a, b := Standings(players)[i], Standings(players)[j];
            && a.score >= b.score
            && (a.score == b.score ==> a.seedRating >= b.seedRating)
            && (a.score == b.score && a.seedRating == b.seedRating ==> a.joinedAt <= b.joinedAt)
            && (a.score == b.score && a.seedRating == b.seedRating && a.joinedAt == b.joinedAt ==> a.id < b.id)
  {
    StandingsRanked(players);
    hide Standings;
  }

  /** There is only one way to rank a collection of players. */
  lemma {:induction false} RankedUnique(s: seq<Player>, t: seq<Player>)
    requires Ranked(s) && Ranked(t) && multiset(s) == multiset(t)
    ensures s == t
  {
    SameMembers(s, t);
    if s != [] {
      assert s[0] in t && t[0] in s;
      SameTails(s, t);
      RankedUnique(s[1..], t[1..]);
    }
  }

  lemma {:induction false} Occurrences<T>(s: seq<T>, i: nat, j: nat)
    requires i < j < |s| && s[i] == s[j]
    ensures multiset(s)[s[i]] >= 2
  {
    assert s == s[..j] + [s[j]] + s[j + 1..];
    assert s[i] in s[..j];
  }

  lemma {:induction false} DistinctOnce<T>(s: seq<T>, x: T)
    requires Distinct(s)
    ensures multiset(s)[x] <= 1
  {
    if s != [] {
      var n := |s| - 1;
      assert s == s[..n] + [s[n]];
      DistinctOnce(s[..n], x);
      if s[n] == x { assert x !in s[..n]; }
    }
  }

  lemma PermutedDistinct(s: seq<Player>, t: seq<Player>)
    requires DistinctIds(s) && multiset(s) == multiset(t)
    ensures DistinctIds(t)
  {
    SameMembers(s, t);
    forall i, j | 0 <= i < j < |t| ensures t[i].id != t[j].id {
      if t[i].id == t[j].id {
        assert t[i] in s && t[j] in s;
        Occurrences(t, i, j);
        DistinctOnce(s, t[i]);
      }
    }
  }

  lemma StandingsDistinct(players: seq<Player>)
    requires DistinctIds(players)
    ensures DistinctIds(Standings(players))
  {
    StandingsMembers(players);
    PermutedDistinct(players, Standings(players));
  }

  // ---------------------------------------------------------------- what earlier rounds say

  /** The pairs of players who have met. */
  function Rematches(prior: seq<Pairing>): set<set<Id>>
  {
    set p | p in prior && p.black.Some? :: {p.white, p.black.value}
  }

  lemma SamePair(a: Id, b: Id, x: Id, y: Id)
    ensures {a, b} == {x, y} <==> (a == x && b == y) || (a == y && b == x)
  {
    if {a, b} == {x, y} { assert a in {x, y} && b in {x, y} && x in {a, b} && y in {a, b}; }
  }

  function ByeRecipients(prior: seq<Pairing>): set<Id>
  {
    set p | p in prior && p.black.None? :: p.white
  }

  function WhiteIn(id: Id): Pairing -> int { (p: Pairing) => if p.white == id then 1 else 0 }

  function BlackIn(id: Id): Pairing -> int { (p: Pairing) => if p.black == Some(id) then 1 else 0 }

  /** White games minus black games; a bye is recorded with its player as White. */
  function Balance(prior: seq<Pairing>): Id -> int
  {
    (id: Id) => Sum(WhiteIn(id), prior) - Sum(BlackIn(id), prior)
  }

  /** `_color_balance`: one pass that keeps a running dictionary. */
  method ColorBalance(prior: seq<Pairing>) returns (balance: map<Id, int>)
    ensures forall id :: GetOr(balance, id, 0) == Balance(prior)(id)
  {
    balance := map[];
    for i := 0 to |prior|
      invariant forall id :: GetOr(balance, id, 0) == Balance(prior[..i])(id)
    {
      var p := prior[i];
      balance := balance[p.white := GetOr(balance, p.white, 0) + 1];
      if p.black.Some? {
        balance := balance[p.black.value := GetOr(balance, p.black.value, 0) - 1];
      }
      assert prior[..i + 1] == prior[..i] + [p];
      forall id ensures Balance(prior[..i + 1])(id) == Balance(prior[..i])(id) + WhiteIn(id)(p) - BlackIn(id)(p) {
        SumSnoc(WhiteIn(id), prior[..i], p);
        SumSnoc(BlackIn(id), prior[..i], p);
      }
    }
    assert prior[..|prior|] == prior;
  }

  // ---------------------------------------------------------------- the bye

  /** Position of the last player of `ranked[..n]` without a bye. */
  function LastWithoutBye(ranked: seq<Player>, byes: set<Id>, n: nat): (k: Option<nat>)
    requires n <= |ranked|
    ensures k.Some? ==> k.value < n && ranked[k.value].id !in byes
    ensures k.Some? ==> forall j | k.value < j < n :: ranked[j].id in byes
    ensures k.None? ==> forall j | 0 <= j < n :: ranked[j].id in byes
  {
    if n == 0 then None
    else if ranked[n - 1].id !in byes then Some(n - 1)
    else LastWithoutBye(ranked, byes, n - 1)
  }

  function ByeIndex(ranked: seq<Player>, byes: set<Id>): (k: nat)
    requires ranked != []
    ensures k < |ranked|
    ensures forall j | k < j < |ranked| :: ranked[j].id in byes
    ensures ranked[k].id in byes ==> k == |ranked| - 1 && forall j | 0 <= j < |ranked| :: ranked[j].id in byes
  {
    match LastWithoutBye(ranked, byes, |ranked|)
    case Some(k) => k
    case None => |ranked| - 1
  }

  method ChooseByePlayer(ranked: seq<Player>, byes: set<Id>) returns (p: Player)
    requires ranked != []
    ensures p == ranked[ByeIndex(ranked, byes)]
  {
    var n: nat := |ranked|;
    while n > 0
      invariant n <= |ranked|
      invariant LastWithoutBye(ranked, byes, |ranked|) == LastWithoutBye(ranked, byes, n)
    {
      if ranked[n - 1].id !in byes { return ranked[n - 1]; }
      n := n - 1;
    }
    return ranked[|ranked| - 1];
  }

  // ---------------------------------------------------------------- the opponent

  function Gap(p: Player, q: Player): nat { Abs(p.score - q.score) }

  predicate Met(p: Player, q: Player, met: set<set<Id>>) { {p.id, q.id} in met }

  /** The scan of `_choose_opponent_index` from position `i`, holding `pick`.
      A held gap of zero counts as infinite: the code reads `gap or inf`. */
  function Scan(p: Player, candidates: seq<Player>, met: set<set<Id>>, i: nat, pick: Option<nat>): (k: nat)
    requires i <= |candidates|
    requires pick.Some? ==> pick.value < i
    ensures candidates != [] ==> k < |candidates|
    decreases |candidates| - i
  {
    if i == |candidates| then (if pick.Some? then pick.value else 0)
    else if Met(p, candidates[i], met) then Scan(p, candidates, met, i + 1, pick)
    else if pick.None? || Gap(p, candidates[pick.value]) == 0 || Gap(p, candidates[i]) < Gap(p, candidates[pick.value])
    then Scan(p, candidates, met, i + 1, Some(i))
    else Scan(p, candidates, met, i + 1, pick)
  }

  function Opponent(p: Player, candidates: seq<Player>, met: set<set<Id>>): (k: nat)
    ensures candidates != [] ==> k < |candidates|
  {
    Scan(p, candidates, met, 0, None)
  }

  method ChooseOpponentIndex(p: Player, candidates: seq<Player>, met: set<set<Id>>) returns (k: nat)
    ensures k == Opponent(p, candidates, met)
  {
    var preferredIndex: Option<nat> := None;
    var preferredGap: Option<nat> := None;
    for i := 0 to |candidates|
      invariant preferredIndex.Some? == preferredGap.Some?
      invariant preferredIndex.Some?
                ==> preferredIndex.value < i && preferredGap.value == Gap(p, candidates[preferredIndex.value])
      invariant Opponent(p, candidates, met) == Scan(p, candidates, met, i, preferredIndex)
    {
      var gap := Gap(p, candidates[i]);
      if Met(p, candidates[i], met) { continue; }
      if preferredIndex.None? || preferredGap.value == 0 || gap < preferredGap.value {
        preferredIndex, preferredGap := Some(i), Some(gap);
      }
    }
    return if preferredIndex.Some? then preferredIndex.value else 0;
  }

  predicate Fresh(p: Player, candidates: seq<Player>, met: set<set<Id>>, k: int)
  {
    0 <= k < |candidates| && !Met(p, candidates[k], met)
  }

  /** What the scan finds on a ranked list, said without the scan. */
  ghost predicate RankedChoice(p: Player, candidates: seq<Player>, met: set<set<Id>>, k: nat)
  {
    if forall j | 0 <= j < |candidates| :: !Fresh(p, candidates, met, j) then k == 0
    else
      && Fresh(p, candidates, met, k)
      && if Gap(p, candidates[k]) > 0
         // the first fresh candidate off the player's own score, unless the very first is already off it
         then forall j | 0 <= j < k && Fresh(p, candidates, met, j) :: Gap(p, candidates[j]) == 0
         // nobody fresh is off the player's score: the last fresh candidate
         else forall j | k < j < |candidates| :: !Fresh(p, candidates, met, j)
  }

  lemma GapGrows(p: Player, candidates: seq<Player>, i: nat, j: nat)
    requires Ranked([p] + candidates) && i <= j < |candidates|
    ensures Gap(p, candidates[i]) <= Gap(p, candidates[j])
  {
    var all := [p] + candidates;
    assert Before(all[0], all[i + 1]) && Before(all[0], all[j + 1]);
    assert i < j ==> Before(all[i + 1], all[j + 1]);
  }

  lemma {:induction false} ScanRanked(p: Player, candidates: seq<Player>, met: set<set<Id>>, i: nat, pick: Option<nat>)
    requires Ranked([p] + candidates)
    requires i <= |candidates|
    requires pick.None? ==> forall j | 0 <= j < i :: !Fresh(p, candidates, met, j)
    requires pick.Some? ==>
      && pick.value < i && Fresh(p, candidates, met, pick.value)
      && (if Gap(p, candidates[pick.value]) > 0
          then forall j | 0 <= j < pick.value && Fresh(p, candidates, met, j) :: Gap(p, candidates[j]) == 0
          else forall j | pick.value < j < i :: !Fresh(p, candidates, met, j))
    ensures RankedChoice(p, candidates, met, Scan(p, candidates, met, i, pick))
    decreases |candidates| - i
  {
    if i < |candidates| {
      if pick.Some? {
        GapGrows(p, candidates, pick.value, i);
        forall j | 0 <= j < pick.value ensures Gap(p, candidates[j]) <= Gap(p, candidates[pick.value]) {
          GapGrows(p, candidates, j, pick.value);
        }
      }
      if Met(p, candidates[i], met) {
        ScanRanked(p, candidates, met, i + 1, pick);
      } else if pick.None? || Gap(p, candidates[pick.value]) == 0 {
        ScanRanked(p, candidates, met, i + 1, Some(i));
      } else {
        ScanRanked(p, candidates, met, i + 1, pick);
      }
    } else {
      assert pick.Some? ==> Fresh(p, candidates, met, pick.value);
    }
  }

  lemma GapsGrow(p: Player, candidates: seq<Player>)
    requires Ranked([p] + candidates)
    ensures forall i, j | 0 <= i <= j < |candidates| :: Gap(p, candidates[i]) <= Gap(p, candidates[j])
  {
    forall i, j | 0 <= i <= j < |candidates| ensures Gap(p, candidates[i]) <= Gap(p, candidates[j]) {
      GapGrows(p, candidates, i, j);
    }
  }

  /** On a ranked list the pick is the first fresh candidate when its gap is positive; when that
      gap is zero it is the first fresh candidate with a positive gap, or the last fresh one. */
  lemma OpponentOnRankedList(p: Player, candidates: seq<Player>, met: set<set<Id>>, k: nat)
    requires Ranked([p] + candidates)
    requires candidates != []
    ensures k == Opponent(p, candidates, met) <==> RankedChoice(p, candidates, met, k)
  {
    var o := Opponent(p, candidates, met);
    ScanRanked(p, candidates, met, 0, None);
    if RankedChoice(p, candidates, met, k) && k != o {
      GapsGrow(p, candidates);
      assert false;
    }
  }

  ghost predicate ClosestFresh(p: Player, candidates: seq<Player>, met: set<set<Id>>, k: nat)
  {
    k < |candidates| && forall j | Fresh(p, candidates, met, j) :: Gap(p, candidates[k]) <= Gap(p, candidates[j])
  }

  /** The first fresh candidate, if it is on the player's own score, hides every fresh candidate
      on that score whenever somebody fresh is off it. That is exactly when the closest is missed. */
  lemma ClosestOpponentIff(p: Player, candidates: seq<Player>, met: set<set<Id>>)
    requires Ranked([p] + candidates)
    requires candidates != [] && exists j :: Fresh(p, candidates, met, j)
    ensures ClosestFresh(p, candidates, met, Opponent(p, candidates, met))
       <==> !(exists i, j :: Fresh(p, candidates, met, i) && Fresh(p, candidates, met, j)
                             && candidates[i].score == p.score && candidates[j].score != p.score)
  {
    var k := Opponent(p, candidates, met);
    OpponentOnRankedList(p, candidates, met, k);
    GapsGrow(p, candidates);
    var f :| Fresh(p, candidates, met, f);
    assert Fresh(p, candidates, met, k);
    if i, j :| Fresh(p, candidates, met, i) && Fresh(p, candidates, met, j)
               && candidates[i].score == p.score && candidates[j].score != p.score {
      assert Gap(p, candidates[i]) == 0 && Gap(p, candidates[j]) > 0;
      assert Gap(p, candidates[k]) > 0;
    } else {
      forall j | Fresh(p, candidates, met, j) ensures Gap(p, candidates[k]) <= Gap(p, candidates[j]) {
      }
    }
  }

  /** Three players level on points and one half a point behind: the leader is sent down. */
  lemma ClosestOpponentMissed()
    ensures var p := Player(1, 1500, 2, 0, true);
            var candidates := [Player(2, 1490, 2, 0, true), Player(3, 1480, 2, 0, true), Player(4, 1470, 1, 0, true)];
            Ranked([p] + candidates) && Opponent(p, candidates, {}) == 2 && !ClosestFresh(p, candidates, {}, 2)
  {
    assert Fresh(Player(1, 1500, 2, 0, true),
                 [Player(2, 1490, 2, 0, true), Player(3, 1480, 2, 0, true), Player(4, 1470, 1, 0, true)], {}, 0);
  }

  // ---------------------------------------------------------------- colours

  function Colors(first: Id, second: Id, round: nat, balance: Id -> int): (a: Assignment)
    ensures (a.white == first && a.black == Some(second)) || (a.white == second && a.black == Some(first))
    ensures balance(a.white) <= balance(a.black.value)
  {
    if balance(first) < balance(second) then Assignment(first, Some(second))
    else if balance(second) < balance(first) then Assignment(second, Some(first))
    else if round % 2 == 1 then Assignment(first, Some(second))
    else Assignment(second, Some(first))
  }

  // ---------------------------------------------------------------- one round

  function PairUp(work: seq<Player>, met: set<set<Id>>, round: nat, balance: Id -> int): (r: seq<Assignment>)
    requires |work| % 2 == 0
    ensures |r| == |work| / 2
    ensures forall a | a in r :: a.black.Some? && balance(a.white) <= balance(a.black.value)
    decreases |work|
  {
    if work == [] then []
    else
      var rest := work[1..];
      var k := Opponent(work[0], rest, met);
      [Colors(work[0].id, rest[k].id, round, balance)] + PairUp(Without(rest, k), met, round, balance)
  }

  lemma PairUpStep(work: seq<Player>, met: set<set<Id>>, round: nat, balance: Id -> int)
    requires work != [] && |work| % 2 == 0
    ensures PairUp(work, met, round, balance)
         == (var rest := work[1..];
             var o := Opponent(work[0], rest, met);
             [Colors(work[0].id, rest[o].id, round, balance)] + PairUp(Without(rest, o), met, round, balance))
  {
  }

  lemma AppendFirst<T>(done: seq<T>, x: T, tail: seq<T>)
    ensures done + ([x] + tail) == (done + [x]) + tail
  {
  }

  /** The bye of an odd field: the last-ranked player without one, or the last-ranked player. */
  function ByeOf(players: seq<Player>, prior: seq<Pairing>): seq<Assignment>
  {
    if |players| % 2 == 0 then []
    else [Assignment(Standings(players)[ByeIndex(Standings(players), ByeRecipients(prior))].id, None)]
  }

  /** The ranked players left once the bye is given. */
  function Working(players: seq<Player>, prior: seq<Pairing>): (work: seq<Player>)
    ensures |work| % 2 == 0 && |work| == |players| - |players| % 2
  {
    if |players| % 2 == 0 then Standings(players)
    else Without(Standings(players), ByeIndex(Standings(players), ByeRecipients(prior)))
  }

  /** What `generate_swiss_pairings` computes. */
  function Assignments(players: seq<Player>, prior: seq<Pairing>, round: nat): (r: seq<Assignment>)
    ensures |r| == (|players| + 1) / 2
    ensures forall i | 0 <= i < |r| :: r[i].black.None? <==> i == 0 && |players| % 2 == 1
  {
    ByeOf(players, prior) + PairUp(Working(players, prior), Rematches(prior), round, Balance(prior))
  }

  function FilterOut(players: seq<Player>, id: Id): seq<Player>
  {
    if players == [] then []
    else (if players[0].id != id then [players[0]] else []) + FilterOut(players[1..], id)
  }

  lemma {:induction false} FilterOutNone(players: seq<Player>, id: Id)
    requires forall p | p in players :: p.id != id
    ensures FilterOut(players, id) == players
  {
    if players != [] { FilterOutNone(players[1..], id); }
  }

  lemma {:induction false} FilterOutOne(players: seq<Player>, k: nat)
    requires DistinctIds(players) && k < |players|
    ensures FilterOut(players, players[k].id) == Without(players, k)
  {
    if k == 0 {
      FilterOutNone(players[1..], players[0].id);
    } else {
      FilterOutOne(players[1..], k - 1);
    }
  }

  lemma ByeGiven(players: seq<Player>, prior: seq<Pairing>)
    requires DistinctIds(players)
    ensures |players| % 2 == 0 ==> Standings(players) == Working(players, prior) && ByeOf(players, prior) == []
    ensures |players| % 2 == 1 ==>
              var bye := Standings(players)[ByeIndex(Standings(players), ByeRecipients(prior))];
              && FilterOut(Standings(players), bye.id) == Working(players, prior)
              && ByeOf(players, prior) == [Assignment(bye.id, None)]
  {
    if |players| % 2 == 1 {
      StandingsDistinct(players);
      FilterOutOne(Standings(players), ByeIndex(Standings(players), ByeRecipients(prior)));
    }
  }

  /** `_assign_colors` on the dictionary that `_color_balance` built. */
  method AssignColors(first: Id, second: Id, round: nat, colorBalance: map<Id, int>, ghost balance: Id -> int)
    returns (a: Assignment)
    requires forall id :: GetOr(colorBalance, id, 0) == balance(id)
    ensures a == Colors(first, second, round, balance)
  {
    var firstBalance, secondBalance := GetOr(colorBalance, first, 0), GetOr(colorBalance, second, 0);
    if firstBalance < secondBalance { return Assignment(first, Some(second)); }
    if secondBalance < firstBalance { return Assignment(second, Some(first)); }
    if round % 2 == 1 { return Assignment(first, Some(second)); }
    return Assignment(second, Some(first));
  }

  method GenerateSwissPairings(players: seq<Player>, prior: seq<Pairing>, round: nat)
    returns (assignments: seq<Assignment>)
    requires DistinctIds(players)
    ensures assignments == Assignments(players, prior, round)
  {
    var ranked := Standings(players);
    var rematches := Rematches(prior);
    var byeRecipients := ByeRecipients(prior);
    var colorBalance := ColorBalance(prior);
    ByeGiven(players, prior);
    ghost var balance := Balance(prior);
    ghost var goal := Assignments(players, prior, round);
    assert goal == ByeOf(players, prior) + PairUp(Working(players, prior), rematches, round, balance);
    hide Standings, ByeIndex, Working, ByeOf, Assignments, Rematches, ByeRecipients, Balance, Opponent, Colors,
         FilterOut, DistinctIds, PairUp;

    var work := ranked;
    assignments := [];
    if |work| % 2 == 1 {
      var bye := ChooseByePlayer(work, byeRecipients);
      work := FilterOut(work, bye.id);
      assignments := [Assignment(bye.id, None)];
    }

    while work != []
      invariant |work| % 2 == 0
      invariant assignments + PairUp(work, rematches, round, balance) == goal
      decreases |work|
    {
      var player, rest := work[0], work[1..];
      var k := ChooseOpponentIndex(player, rest, rematches);
      var a := AssignColors(player.id, rest[k].id, round, colorBalance, balance);
      PairUpStep(work, rematches, round, balance);
      AppendFirst(assignments, a, PairUp(Without(rest, k), rematches, round, balance));
      work := Without(rest, k);
      assignments := assignments + [a];
    }
  }
}
