/** The matchmaking queue with each service call taken as one step: a hash per waiting user and a sorted set per
    time control, both with a time to live, so that a sorted set may list users who are gone or queue elsewhere. */
module MatchQueue {
  import opened Common

  type UserId = nat

  const RATING_THRESHOLD := 200
  const QUEUE_TTL_MS := 1_800_000

  datatype Entry = Entry(rating: int, control: string, initialMs: int, incrementMs: int, joinedAt: int)

  datatype Hash = Hash(entry: Entry, expiresAt: int)

  datatype SortedSet = SortedSet(scores: map<UserId, int>, expiresAt: int)

  datatype Store = Store(users: map<UserId, Hash>, queues: map<string, SortedSet>)

  datatype Error = AlreadyInQueue | NotInQueue

  datatype MatchPair = MatchPair(white: UserId, black: UserId, control: string, initialMs: int, incrementMs: int)

  // ---------------------------------------------------------------- what Redis answers

  predicate Live(s: Store, now: int, u: UserId) { u in s.users && now < s.users[u].expiresAt }

  function Members(s: Store, now: int, control: string): map<UserId, int>
  {
    if control in s.queues && now < s.queues[control].expiresAt then s.queues[control].scores else map[]
  }

  function ZRem(s: Store, now: int, control: string, gone: set<UserId>): Store
  {
    if control in s.queues && now < s.queues[control].expiresAt
    then s.(queues := s.queues[control := s.queues[control].(scores := s.queues[control].scores - gone)])
    else s
  }

  predicate Earlier(scores: map<UserId, int>, u: UserId, v: UserId)
    requires u in scores && v in scores
  {
    scores[u] < scores[v] || (scores[u] == scores[v] && u < v)
  }

  predicate IsFirst(scores: map<UserId, int>, u: UserId)
  {
    u in scores && forall v | v in scores && v != u :: Earlier(scores, u, v)
  }

  lemma {:induction false} FirstExists(scores: map<UserId, int>)
    requires scores.Keys != {}
    ensures exists u :: IsFirst(scores, u)
    decreases |scores|
  {
    var u :| u in scores;
    var rest := scores - {u};
    if rest.Keys == {} {
      forall v | v in scores ensures v == u { assert v != u ==> v in rest.Keys; }
      assert IsFirst(scores, u);
    } else {
      FirstExists(rest);
      var w :| IsFirst(rest, w);
      assert IsFirst(scores, if Earlier(scores, u, w) then u else w) by {
        forall v | v in scores && v != u ensures v == w || Earlier(scores, w, v) { assert v in rest; }
      }
    }
  }

  function First(scores: map<UserId, int>): (u: UserId)
    requires scores.Keys != {}
    ensures IsFirst(scores, u)
  {
    FirstExists(scores);
    var u :| IsFirst(scores, u);
    u
  }

  /** ZRANGE 0 -1: every member, by score and then by name. */
  function ZRange(scores: map<UserId, int>): seq<UserId>
    decreases |scores|
  {
    if scores.Keys == {} then [] else [First(scores)] + ZRange(scores - {First(scores)})
  }

  lemma {:induction false} ZRangeMembers(scores: map<UserId, int>)
    ensures forall u: UserId :: u in ZRange(scores) <==> u in scores
    decreases |scores|
  {
    if scores.Keys != {} {
      ZRangeMembers(scores - {First(scores)});
      assert First(scores) in scores;
      hide First;
    }
  }

  lemma ZRangeAt(scores: map<UserId, int>, i: nat)
    requires i < |ZRange(scores)|
    ensures var u := First(scores); var rest := ZRange(scores - {u});
            |rest| == |ZRange(scores)| - 1 && ZRange(scores)[i] == if i == 0 then u else rest[i - 1]
  {
  }

  lemma FirstIsEarlier(scores: map<UserId, int>, v: UserId)
    requires scores.Keys != {} && v in scores - {First(scores)}
    ensures First(scores) in scores && v in scores && Earlier(scores, First(scores), v)
  {
  }

  lemma {:induction false} ZRangeSorted(scores: map<UserId, int>, i: nat, j: nat)
    requires i < j < |ZRange(scores)|
    ensures var z := ZRange(scores); z[i] in scores && z[j] in scores && Earlier(scores, z[i], z[j])
    decreases |scores|
  {
    var others := scores - {First(scores)};
    ZRangeAt(scores, i);
    ZRangeAt(scores, j);
    ZRangeMembers(others);
    hide ZRange, First, IsFirst;
    assert ZRange(others)[j - 1] in ZRange(others);
    if i > 0 {
      ZRangeSorted(others, i - 1, j - 1);
    } else {
      FirstIsEarlier(scores, ZRange(others)[j - 1]);
    }
  }

  /** ZRANK, counted from one. */
  function Position(scores: map<UserId, int>, u: UserId): nat
    requires u in scores
  {
    |set v | v in scores && Earlier(scores, v, u)| + 1
  }

  // ---------------------------------------------------------------- the service calls as functions

  /** `join_queue`; `stamp` is what the service's own clock reads. */
  function JoinQueue(s: Store, now: int, u: UserId, e: Entry): (Store, Option<Error>)
  {
    if Live(s, now, u) then (s, Some(AlreadyInQueue))
    else
      (Store(s.users[u := Hash(e, now + QUEUE_TTL_MS)],
             s.queues[e.control := SortedSet(Members(s, now, e.control)[u := e.joinedAt], now + QUEUE_TTL_MS)]), None)
  }

  /** `leave_queue` */
  function LeaveQueue(s: Store, now: int, u: UserId): (Store, Option<Error>)
  {
    if !Live(s, now, u) then (s, Some(NotInQueue))
    else
      var t := ZRem(s, now, s.users[u].entry.control, {u});
      (t.(users := t.users - {u}), None)
  }

  function Gap(s: Store, u: UserId, c: UserId): nat
    requires u in s.users && c in s.users
  {
    Abs(s.users[c].entry.rating - s.users[u].entry.rating)
  }

  predicate SameClock(e: Entry, f: Entry)
  {
    e.control == f.control && e.initialMs == f.initialMs && e.incrementMs == f.incrementMs
  }

  /** Somebody else who is waiting for the same kind of game, close enough in rating. */
  predicate Eligible(s: Store, now: int, u: UserId, c: UserId)
    requires u in s.users
  {
    c != u && Live(s, now, c) && SameClock(s.users[c].entry, s.users[u].entry) && Gap(s, u, c) <= RATING_THRESHOLD
  }

  /** Strictly nearer in rating, or as near and waiting for longer. */
  predicate Nearer(s: Store, u: UserId, c: UserId, d: UserId)
    requires u in s.users && c in s.users && d in s.users
  {
    || Gap(s, u, c) < Gap(s, u, d)
    || (Gap(s, u, c) == Gap(s, u, d) && s.users[c].entry.joinedAt < s.users[d].entry.joinedAt)
  }

  /** The best candidate of a listing: a later one replaces it only when strictly nearer. */
  function Scan(s: Store, now: int, u: UserId, listing: seq<UserId>): (best: Option<UserId>)
    requires u in s.users
    ensures best.Some? ==> best.value in listing && Eligible(s, now, u, best.value)
  {
    if listing == [] then None
    else
      var best, c := Scan(s, now, u, listing[..|listing| - 1]), listing[|listing| - 1];
      if Eligible(s, now, u, c) && (best.None? || Nearer(s, u, c, best.value)) then Some(c) else best
  }

  function BestMatch(s: Store, now: int, u: UserId): (best: Option<UserId>)
    requires u in s.users
    ensures best.Some? ==> Eligible(s, now, u, best.value)
  {
    Scan(s, now, u, ZRange(Members(s, now, s.users[u].entry.control)))
  }

  /** The sorted set without the members whose hash is gone. */
  function Pruned(s: Store, now: int, control: string): Store
  {
    ZRem(s, now, control, set c | c in Members(s, now, control) && !Live(s, now, c))
  }

  /** `try_match`; `coin` is the draw of colours. */
  function TryMatch(s: Store, now: int, u: UserId, coin: bool): (Store, Option<MatchPair>)
  {
    if !Live(s, now, u) then (s, None)
    else
      var e, t := s.users[u].entry, Pruned(s, now, s.users[u].entry.control);
      match BestMatch(s, now, u)
      case None => (t, None)
      case Some(c) =>
        var r := ZRem(t, now, e.control, {u, c});
        (r.(users := r.users - {u, c}),
         Some(MatchPair(if coin then u else c, if coin then c else u, e.control, e.initialMs, e.incrementMs)))
  }

  /** `handle_queue_join`: join, and look for an opponent at once unless the join was refused. */
  function JoinThenMatch(s: Store, now: int, u: UserId, e: Entry, coin: bool): (Store, Option<MatchPair>)
  {
    var (t, error) := JoinQueue(s, now, u, e);
    if error.Some? then (t, None) else TryMatch(t, now, u, coin)
  }

  // ---------------------------------------------------------------- the service

  /** The loop's variables describe the best candidate so far. */
  ghost predicate Tracks(s: Store, now: int, u: UserId, ids: seq<UserId>, best: Option<UserId>, diff: int,
      joinedAt: int)
    requires u in s.users
  {
    best == Scan(s, now, u, ids)
    && (best.Some? ==> diff == Gap(s, u, best.value) && joinedAt == s.users[best.value].entry.joinedAt)
  }

  lemma ScanStep(s: Store, now: int, u: UserId, ids: seq<UserId>, i: nat, best: Option<UserId>, diff: int,
      joinedAt: int)
    requires u in s.users && i < |ids| && Tracks(s, now, u, ids[..i], best, diff, joinedAt)
    ensures var c := ids[i];
            if c == u || !Live(s, now, c) || !SameClock(s.users[c].entry, s.users[u].entry)
            then Tracks(s, now, u, ids[..i + 1], best, diff, joinedAt)
            else
              var gap, since := Abs(s.users[c].entry.rating - s.users[u].entry.rating), s.users[c].entry.joinedAt;
              var wins := best.None? || gap < diff || (gap == diff && since < joinedAt);
              if gap <= RATING_THRESHOLD && wins then Tracks(s, now, u, ids[..i + 1], Some(c), gap, since)
              else Tracks(s, now, u, ids[..i + 1], best, diff, joinedAt)
  {
    assert ids[..i + 1][..i] == ids[..i];
  }

  ghost function Dead(s: Store, now: int, ids: seq<UserId>): set<UserId> { set c | c in ids && !Live(s, now, c) }

  lemma ZRemNothing(s: Store, now: int, control: string)
    ensures ZRem(s, now, control, {}) == s
  {
    if control in s.queues {
      assert s.queues[control].scores - {} == s.queues[control].scores;
      assert s.queues[control := s.queues[control]] == s.queues;
    }
  }

  lemma ScanStarts(s: Store, now: int, u: UserId, control: string, ids: seq<UserId>)
    requires u in s.users
    ensures Tracks(s, now, u, ids[..0], None, 0, 0) && ZRem(s, now, control, Dead(s, now, ids[..0])) == s
  {
    assert Dead(s, now, ids[..0]) == {};
    ZRemNothing(s, now, control);
  }

  lemma ScanEnds(s: Store, now: int, u: UserId, ids: seq<UserId>, best: Option<UserId>, diff: int, joinedAt: int)
    requires u in s.users && ids == ZRange(Members(s, now, s.users[u].entry.control))
    requires Tracks(s, now, u, ids[..|ids|], best, diff, joinedAt)
    ensures best == BestMatch(s, now, u)
    ensures ZRem(s, now, s.users[u].entry.control, Dead(s, now, ids[..|ids|]))
            == Pruned(s, now, s.users[u].entry.control)
  {
    var members := Members(s, now, s.users[u].entry.control);
    ZRangeMembers(members);
    hide ZRange, ZRem, Scan;
    assert ids[..|ids|] == ids;
    assert Dead(s, now, ids) == set c | c in members && !Live(s, now, c);
  }

  lemma ZRemTwice(s: Store, now: int, control: string, a: set<UserId>, b: set<UserId>)
    ensures ZRem(ZRem(s, now, control, a), now, control, b) == ZRem(s, now, control, a + b)
  {
    if control in s.queues {
      assert s.queues[control].scores - a - b == s.queues[control].scores - (a + b);
    }
  }

  lemma DeadStep(s: Store, now: int, control: string, ids: seq<UserId>, i: nat)
    requires i < |ids|
    ensures var t := ZRem(s, now, control, Dead(s, now, ids[..i]));
            && t.users == s.users
            && (if Live(s, now, ids[i]) then t else ZRem(t, now, control, {ids[i]}))
               == ZRem(s, now, control, Dead(s, now, ids[..i + 1]))
            && ZRem(t, now, control, {ids[i]}).users == s.users
  {
    var dead := Dead(s, now, ids[..i]);
    assert Dead(s, now, ids[..i + 1]) == if Live(s, now, ids[i]) then dead else dead + {ids[i]};
    ZRemTwice(s, now, control, dead, {ids[i]});
  }

  class MatchmakingService {
    var users: map<UserId, Hash>
    var queues: map<string, SortedSet>

    function State(): Store
      reads this
    {
      Store(users, queues)
    }

    constructor ()
      ensures State() == Store(map[], map[])
    {
      users, queues := map[], map[];
    }

    method RemoveMembers(now: int, control: string, gone: set<UserId>)
      modifies this
      ensures State() == ZRem(old(State()), now, control, gone)
    {
      if control in queues && now < queues[control].expiresAt {
        queues := queues[control := queues[control].(scores := queues[control].scores - gone)];
      }
    }

    method Join(now: int, u: UserId, e: Entry) returns (error: Option<Error>, position: nat)
      modifies this
      ensures (State(), error) == JoinQueue(old(State()), now, u, e)
      ensures error.None? ==>
                u in Members(State(), now, e.control) && position == Position(Members(State(), now, e.control), u)
    {
      if Live(State(), now, u) { return Some(AlreadyInQueue), 0; }
      var scores := Members(State(), now, e.control)[u := e.joinedAt];
      users := users[u := Hash(e, now + QUEUE_TTL_MS)];
      queues := queues[e.control := SortedSet(scores, now + QUEUE_TTL_MS)];
      return None, Position(scores, u);
    }

    method Leave(now: int, u: UserId) returns (error: Option<Error>)
      modifies this
      ensures (State(), error) == LeaveQueue(old(State()), now, u)
    {
      if !Live(State(), now, u) { return Some(NotInQueue); }
      RemoveMembers(now, users[u].entry.control, {u});
      users := users - {u};
      return None;
    }

    method FindBestMatch(now: int, u: UserId) returns (best: Option<UserId>)
      requires Live(State(), now, u)
      modifies this
      ensures State() == Pruned(old(State()), now, old(users[u].entry.control))
      ensures best == BestMatch(old(State()), now, u)
    {
      var e := users[u].entry;
      ghost var s := State();
      var listing := ZRange(Members(State(), now, e.control));
      best := None;
      var bestDiff, bestJoinedAt := 0, 0;
      ScanStarts(s, now, u, e.control, listing);
      hide ZRange, ZRem, Members, Pruned, BestMatch, Dead, Tracks, Abs, SameClock;
      for i := 0 to |listing|
        invariant State() == ZRem(s, now, e.control, Dead(s, now, listing[..i])) && users == s.users
        invariant Tracks(s, now, u, listing[..i], best, bestDiff, bestJoinedAt)
      {
        var c := listing[i];
        ScanStep(s, now, u, listing, i, best, bestDiff, bestJoinedAt);
        DeadStep(s, now, e.control, listing, i);
        if c != u {
          if !Live(State(), now, c) {
            RemoveMembers(now, e.control, {c});
          } else if SameClock(users[c].entry, e) {
            var diff := Abs(users[c].entry.rating - e.rating);
            var joinedAt := users[c].entry.joinedAt;
            var nearer := best.None? || diff < bestDiff || (diff == bestDiff && joinedAt < bestJoinedAt);
            if diff <= RATING_THRESHOLD && nearer {
              best, bestDiff, bestJoinedAt := Some(c), diff, joinedAt;
            }
          }
        }
      }
      ScanEnds(s, now, u, listing, best, bestDiff, bestJoinedAt);
    }

    method Match(now: int, u: UserId, coin: bool) returns (pair: Option<MatchPair>)
      modifies this
      ensures (State(), pair) == TryMatch(old(State()), now, u, coin)
    {
      if !Live(State(), now, u) { return None; }
      var e := users[u].entry;
      var best := FindBestMatch(now, u);
      if best.None? { return None; }
      RemoveMembers(now, e.control, {u, best.value});
      users := users - {u, best.value};
      var white, black := u, best.value;
      if !coin { white, black := black, white; }
      return Some(MatchPair(white, black, e.control, e.initialMs, e.incrementMs));
    }

    method HandleQueueJoin(now: int, u: UserId, e: Entry, coin: bool) returns (pair: Option<MatchPair>)
      modifies this
      ensures (State(), pair) == JoinThenMatch(old(State()), now, u, e, coin)
    {
      var error, _ := Join(now, u, e);
      if error.Some? { return None; }
      pair := Match(now, u, coin);
    }
  }

  // ---------------------------------------------------------------- the best match

  /** Entry `k` beats what stands before it and is beaten by nothing that stands after it. */
  ghost predicate FirstNearest(s: Store, now: int, u: UserId, listing: seq<UserId>, k: nat)
    requires u in s.users && k < |listing|
  {
    && Eligible(s, now, u, listing[k])
    && (forall i | 0 <= i < k && Eligible(s, now, u, listing[i]) :: Nearer(s, u, listing[k], listing[i]))
    && (forall i | k < i < |listing| && Eligible(s, now, u, listing[i]) :: !Nearer(s, u, listing[i], listing[k]))
  }

  lemma FirstNearestSnoc(s: Store, now: int, u: UserId, listing: seq<UserId>, k: nat)
    requires u in s.users && listing != [] && k < |listing| - 1 && FirstNearest(s, now, u, listing[..|listing| - 1], k)
    ensures var last := |listing| - 1;
            var wins := Eligible(s, now, u, listing[last]) && Nearer(s, u, listing[last], listing[k]);
            FirstNearest(s, now, u, listing, if wins then last else k)
  {
    var last, front := |listing| - 1, listing[..|listing| - 1];
    assert forall i | 0 <= i < last :: front[i] == listing[i];
    hide Eligible;
    if Eligible(s, now, u, listing[last]) && Nearer(s, u, listing[last], listing[k]) {
      forall i | 0 <= i < last && Eligible(s, now, u, listing[i]) ensures Nearer(s, u, listing[last], listing[i]) {
        assert Eligible(s, now, u, front[i]);
      }
    }
  }

  lemma {:induction false} ScanIsFirstNearest(s: Store, now: int, u: UserId, listing: seq<UserId>)
    requires u in s.users
    ensures Scan(s, now, u, listing).None? <==> forall i | 0 <= i < |listing| :: !Eligible(s, now, u, listing[i])
    ensures Scan(s, now, u, listing).Some? ==>
              exists k | 0 <= k < |listing| ::
                listing[k] == Scan(s, now, u, listing).value && FirstNearest(s, now, u, listing, k)
  {
    if listing != [] {
      var n := |listing| - 1;
      var front, best := listing[..n], Scan(s, now, u, listing[..n]);
      ScanIsFirstNearest(s, now, u, front);
      assert Scan(s, now, u, listing) ==
             if Eligible(s, now, u, listing[n]) && (best.None? || Nearer(s, u, listing[n], best.value))
             then Some(listing[n]) else best;
      hide Scan;
      if best.Some? {
        var k :| 0 <= k < n && front[k] == best.value && FirstNearest(s, now, u, front, k);
        FirstNearestSnoc(s, now, u, listing, k);
      } else if Eligible(s, now, u, listing[n]) {
        assert FirstNearest(s, now, u, listing, n);
      }
    }
  }

  // ---------------------------------------------------------------- what every call keeps

  ghost predicate Queued(s: Store, u: UserId, h: Hash)
  {
    && h.entry.control in s.queues
    && u in s.queues[h.entry.control].scores
    && s.queues[h.entry.control].scores[u] == h.entry.joinedAt
    && h.expiresAt <= s.queues[h.entry.control].expiresAt
  }

  /** A live user is a member of the live sorted set of its time control, with the time of joining as its score.
      Nothing is said about the other members of a sorted set. */
  ghost predicate Inv(s: Store, now: int)
  {
    && (forall u | u in s.users ::
          s.users[u].expiresAt <= now + QUEUE_TTL_MS && (now < s.users[u].expiresAt ==> Queued(s, u, s.users[u])))
    && (forall control | control in s.queues :: s.queues[control].expiresAt <= now + QUEUE_TTL_MS)
  }

  lemma TimePasses(s: Store, now: int, later: int)
    requires Inv(s, now) && now <= later
    ensures Inv(s, later)
  {
  }

  lemma JoinKeeps(s: Store, now: int, u: UserId, e: Entry)
    requires Inv(s, now)
    ensures Inv(JoinQueue(s, now, u, e).0, now)
  {
    var t := JoinQueue(s, now, u, e).0;
    if !Live(s, now, u) {
      forall v | v in t.users && now < t.users[v].expiresAt ensures Queued(t, v, t.users[v]) {
        if v != u { assert Queued(s, v, s.users[v]); }
      }
    }
  }

  /** Taking users out of a sorted set, and out of the hashes where they still have one. */
  lemma RemovalKeeps(s: Store, now: int, control: string, gone: set<UserId>, dropped: set<UserId>)
    requires Inv(s, now) && forall u | u in gone && Live(s, now, u) :: u in dropped
    ensures var r := ZRem(s, now, control, gone);
            Inv(r.(users := r.users - dropped), now)
  {
    var r := ZRem(s, now, control, gone);
    var t := r.(users := r.users - dropped);
    forall u | u in t.users && now < t.users[u].expiresAt ensures Queued(t, u, t.users[u]) {
      assert Queued(s, u, s.users[u]) && u !in gone;
    }
  }

  lemma LeaveKeeps(s: Store, now: int, u: UserId)
    requires Inv(s, now)
    ensures Inv(LeaveQueue(s, now, u).0, now)
  {
    if Live(s, now, u) { RemovalKeeps(s, now, s.users[u].entry.control, {u}, {u}); }
  }

  lemma PruneKeeps(s: Store, now: int, control: string)
    requires Inv(s, now)
    ensures Inv(Pruned(s, now, control), now) && Pruned(s, now, control).users == s.users
  {
    var dead := set c | c in Members(s, now, control) && !Live(s, now, c);
    RemovalKeeps(s, now, control, dead, {});
    var r := ZRem(s, now, control, dead);
    assert r.users - {} == r.users;
  }

  lemma MatchKeeps(s: Store, now: int, u: UserId, coin: bool)
    requires Inv(s, now)
    ensures Inv(TryMatch(s, now, u, coin).0, now)
    ensures TryMatch(s, now, u, coin).0.users ==
            (if !Live(s, now, u) || BestMatch(s, now, u).None? then s.users
             else s.users - {u, BestMatch(s, now, u).value})
  {
    if Live(s, now, u) {
      var e := s.users[u].entry;
      PruneKeeps(s, now, e.control);
      if BestMatch(s, now, u).Some? {
        var gone := {u, BestMatch(s, now, u).value};
        RemovalKeeps(Pruned(s, now, e.control), now, e.control, gone, gone);
      }
    }
  }

  /** Of everybody who is waiting for the same game within the threshold, the match found is the least by rating gap,
      then time of joining, then id, whatever expired or moved members the sorted set still lists. */
  lemma BestMatchIsLeast(s: Store, now: int, u: UserId)
    requires Inv(s, now) && Live(s, now, u)
    ensures BestMatch(s, now, u).None? <==> forall c: UserId :: !Eligible(s, now, u, c)
    ensures BestMatch(s, now, u).Some? ==>
              var best := BestMatch(s, now, u).value;
              forall c: UserId | c != best && Eligible(s, now, u, c) ::
                Nearer(s, u, best, c) || (!Nearer(s, u, c, best) && best < c)
  {
    var members := Members(s, now, s.users[u].entry.control);
    var listing := ZRange(members);
    ZRangeMembers(members);
    ScanIsFirstNearest(s, now, u, listing);
    forall c: UserId | Eligible(s, now, u, c) ensures c in listing && members[c] == s.users[c].entry.joinedAt {
      assert Queued(s, c, s.users[c]);
    }
    hide ZRange, Inv, SameClock, Live, Scan, Gap;
    if BestMatch(s, now, u).Some? {
      var best := BestMatch(s, now, u).value;
      var k :| 0 <= k < |listing| && listing[k] == best && FirstNearest(s, now, u, listing, k);
      forall c: UserId | c != best && Eligible(s, now, u, c)
        ensures Nearer(s, u, best, c) || (!Nearer(s, u, c, best) && best < c)
      {
        var i :| 0 <= i < |listing| && listing[i] == c;
        if k < i { ZRangeSorted(members, k, i); }
      }
    }
  }

  // ---------------------------------------------------------------- quiescence

  /** No two waiting users could be paired with each other. */
  ghost predicate Quiescent(s: Store, now: int)
  {
    forall u, v: UserId | Live(s, now, u) && Live(s, now, v) :: !Eligible(s, now, u, v)
  }

  lemma EligibleBothWays(s: Store, now: int, u: UserId, v: UserId)
    requires Live(s, now, u) && Live(s, now, v)
    ensures Eligible(s, now, u, v) == Eligible(s, now, v, u)
  {
  }

  /** Once everybody else is settled, looking for a match for `u` settles `u` as well. */
  lemma MatchSettles(s: Store, now: int, u: UserId, coin: bool)
    requires Inv(s, now) && Live(s, now, u)
    requires forall v, w: UserId | v != u && w != u && Live(s, now, v) && Live(s, now, w) :: !Eligible(s, now, v, w)
    ensures Inv(TryMatch(s, now, u, coin).0, now) && Quiescent(TryMatch(s, now, u, coin).0, now)
  {
    MatchKeeps(s, now, u, coin);
    BestMatchIsLeast(s, now, u);
    var t := TryMatch(s, now, u, coin).0;
    hide Inv, BestMatch, TryMatch, SameClock;
    forall v: UserId, w: UserId | Live(t, now, v) && Live(t, now, w) ensures !Eligible(t, now, v, w) {
      assert Live(s, now, v) && Live(s, now, w);
      assert Eligible(t, now, v, w) == Eligible(s, now, v, w);
      if v == u || w == u {
        assert !Eligible(s, now, u, v) && !Eligible(s, now, u, w);
        if w == u { EligibleBothWays(s, now, u, v); }
      }
    }
  }

  /** A complete join either pairs the newcomer, leaving one user fewer, or leaves a user nobody can be paired with. */
  lemma JoinThenMatchSettles(s: Store, now: int, u: UserId, e: Entry, coin: bool)
    requires Inv(s, now) && Quiescent(s, now)
    ensures var t := JoinThenMatch(s, now, u, e, coin).0; Inv(t, now) && Quiescent(t, now)
  {
    if !Live(s, now, u) {
      var j := JoinQueue(s, now, u, e).0;
      JoinKeeps(s, now, u, e);
      hide Inv, TryMatch;
      forall v, w: UserId | v != u && w != u && Live(j, now, v) && Live(j, now, w) ensures !Eligible(j, now, v, w) {
        assert !Eligible(s, now, v, w);
      }
      MatchSettles(j, now, u, coin);
    }
  }

  predicate PlaysFor(pair: MatchPair, e: Entry)
  {
    pair.control == e.control && pair.initialMs == e.initialMs && pair.incrementMs == e.incrementMs
  }

  /** A complete join leaves one more user waiting, under the entry joined with, or removes exactly the user it pairs
      the newcomer with, for a game of the time control and clock both of them asked for and at most 200 points apart.
      */
  lemma JoinThenMatchWaiting(s: Store, now: int, u: UserId, e: Entry, coin: bool)
    requires Inv(s, now) && !Live(s, now, u)
    ensures var (t, pair) := JoinThenMatch(s, now, u, e, coin);
            && (pair.None? ==>
                  && u in t.users && t.users[u].entry == e
                  && forall v: UserId :: Live(t, now, v) <==> v == u || Live(s, now, v))
            && (pair.Some? ==>
                  var c := if coin then pair.value.black else pair.value.white;
                  && Live(s, now, c) && c != u && u == (if coin then pair.value.white else pair.value.black)
                  && PlaysFor(pair.value, e) && PlaysFor(pair.value, s.users[c].entry)
                  && Abs(e.rating - s.users[c].entry.rating) <= 200
                  && forall v: UserId :: Live(t, now, v) <==> v != c && Live(s, now, v))
  {
    var j := JoinQueue(s, now, u, e).0;
    JoinKeeps(s, now, u, e);
    MatchKeeps(j, now, u, coin);
    hide Inv, BestMatch, Pruned, ZRem, Members;
  }

  datatype Event =
    | Joined(user: UserId, entry: Entry, coin: bool)
    | Left(user: UserId)
    | Waited(ms: nat)

  datatype World = World(store: Store, now: int)

  function Step(w: World, event: Event): World
  {
    match event
    case Joined(u, e, coin) => w.(store := JoinThenMatch(w.store, w.now, u, e, coin).0)
    case Left(u) => w.(store := LeaveQueue(w.store, w.now, u).0)
    case Waited(ms) => w.(now := w.now + ms)
  }

  function Run(w: World, events: seq<Event>): World
  {
    if events == [] then w else Step(Run(w, events[..|events| - 1]), events[|events| - 1])
  }

  ghost predicate Settled(w: World) { Inv(w.store, w.now) && Quiescent(w.store, w.now) }

  lemma StepSettles(w: World, event: Event)
    requires Settled(w)
    ensures Settled(Step(w, event))
  {
    match event
    case Joined(u, e, coin) =>
      JoinThenMatchSettles(w.store, w.now, u, e, coin);
      hide JoinThenMatch, Inv, Quiescent;
    case Left(u) =>
      LeaveKeeps(w.store, w.now, u);
      hide Inv;
      var t := LeaveQueue(w.store, w.now, u).0;
      assert forall v | v in t.users :: v in w.store.users && t.users[v] == w.store.users[v];
      forall v, x: UserId | Live(t, w.now, v) && Live(t, w.now, x) ensures !Eligible(t, w.now, v, x) {
        assert !Eligible(w.store, w.now, v, x);
      }
    case Waited(ms) =>
      var later := w.now + ms;
      TimePasses(w.store, w.now, later);
      forall v: UserId, x: UserId | Live(w.store, later, v) && Live(w.store, later, x)
        ensures !Eligible(w.store, later, v, x)
      {
        assert !Eligible(w.store, w.now, v, x);
      }
  }

  /** From an empty queue, whatever users join and leave and however long they wait, after each complete call no two
      waiting users of one time control and clock are within the rating threshold of each other. */
  lemma {:induction false} QueueQuiescence(start: int, events: seq<Event>)
    ensures Settled(Run(World(Store(map[], map[]), start), events))
  {
    hide Step;
    if events != [] {
      var n := |events| - 1;
      QueueQuiescence(start, events[..n]);
      StepSettles(Run(World(Store(map[], map[]), start), events[..n]), events[n]);
    }
  }

  // ---------------------------------------------------------------- how many can be waiting

  function Slot(s: Store, low: int, u: UserId): int
    requires u in s.users
  {
    (s.users[u].entry.rating - low) / (RATING_THRESHOLD + 1)
  }

  lemma {:induction false} OnePerSlot(s: Store, low: int, waiting: set<UserId>, n: nat)
    requires forall u | u in waiting :: u in s.users && 0 <= Slot(s, low, u) < n
    requires forall u, v | u in waiting && v in waiting && u != v :: Slot(s, low, u) != Slot(s, low, v)
    ensures |waiting| <= n
    decreases n
  {
    hide Slot;
    if waiting != {} {
      var any :| any in waiting;
      assert 0 <= Slot(s, low, any) < n;
      if u :| u in waiting && Slot(s, low, u) == n - 1 {
        OnePerSlot(s, low, waiting - {u}, n - 1);
      } else {
        OnePerSlot(s, low, waiting, n - 1);
      }
    }
  }

  /** So the users waiting for one kind of game, with ratings from `low` to `high`, are at most
      (high - low) / 201 + 1: two of them never share a slot of 201 rating points. */
  lemma WaitingBound(s: Store, now: int, waiting: set<UserId>, game: Entry, low: int, high: int)
    requires Quiescent(s, now) && low <= high
    requires forall u | u in waiting ::
               Live(s, now, u) && SameClock(s.users[u].entry, game) && low <= s.users[u].entry.rating <= high
    ensures |waiting| <= (high - low) / (RATING_THRESHOLD + 1) + 1
  {
    forall u, v | u in waiting && v in waiting && u != v ensures Slot(s, low, u) != Slot(s, low, v) {
      assert !Eligible(s, now, u, v);
    }
    OnePerSlot(s, low, waiting, (high - low) / (RATING_THRESHOLD + 1) + 1);
  }
}
