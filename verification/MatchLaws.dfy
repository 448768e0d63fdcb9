/** The matchmaking queue in its own terms: what every hash holds, who leaves it and when, whom a search finds, and that
    nobody who could be paired is left waiting. */
module MatchLaws {
  import opened Common
  import opened MatchQueue

  // ---------------------------------------------------------------- what a hash holds

  lemma PruneTouchesSets(s: Store, now: int, control: string, gone: set<UserId>)
    ensures ZRem(s, now, control, gone).users == s.users && Pruned(s, now, control).users == s.users
  {
  }

  /** The hash of a join: what was asked for, for thirty minutes. */
  function JoinedHash(e: Entry, now: int): Hash { Hash(e, now + 1_800_000) }

  /** A complete join of somebody already waiting changes nothing. Any other stores what was asked for, and takes out
      the two users it pairs and nobody else. */
  lemma JoinedHashes(s: Store, now: int, u: UserId, e: Entry, coin: bool)
    ensures var (t, pair) := JoinThenMatch(s, now, u, e, coin);
            if u in s.users && now < s.users[u].expiresAt then t == s && pair == None
            else t.users == s.users[u := JoinedHash(e, now)]
                            - (if pair.Some? then {pair.value.white, pair.value.black} else {})
  {
    if !Live(s, now, u) {
      var j := JoinQueue(s, now, u, e).0;
      PruneTouchesSets(j, now, e.control, {});
      if BestMatch(j, now, u).Some? {
        var c := BestMatch(j, now, u).value;
        PruneTouchesSets(Pruned(j, now, e.control), now, e.control, {u, c});
      }
      assert j.users - {} == j.users;
      hide BestMatch, Pruned, ZRem;
    }
  }

  /** The last join of `u` that was not refused: what was asked for, and when. */
  function LastJoin(start: int, events: seq<Event>, u: UserId): Option<(Entry, int)>
  {
    if events == [] then None
    else
      var n := |events| - 1;
      var w := Run(World(Store(map[], map[]), start), events[..n]);
      if events[n].Joined? && events[n].user == u && !(u in w.store.users && w.now < w.store.users[u].expiresAt)
      then Some((events[n].entry, w.now)) else LastJoin(start, events[..n], u)
  }

  lemma StepHash(w: World, e: Event, u: UserId)
    ensures var w' := Step(w, e);
            u in w'.store.users ==>
              if e.Joined? && e.user == u && !(u in w.store.users && w.now < w.store.users[u].expiresAt)
              then w'.store.users[u] == JoinedHash(e.entry, w.now)
              else u in w.store.users && w'.store.users[u] == w.store.users[u]
  {
    match e
    case Joined(v, entry, coin) => JoinedHashes(w.store, w.now, v, entry, coin); hide JoinThenMatch;
    case Left(v) =>
    case Waited(ms) =>
  }

  /** In every run the hash of a user holds exactly what that user's last accepted join asked for, for thirty minutes
      from that join. */
  lemma {:induction false} HashIsLastJoin(start: int, events: seq<Event>, u: UserId)
    ensures var w, j := Run(World(Store(map[], map[]), start), events), LastJoin(start, events, u);
            u in w.store.users ==> j.Some? && w.store.users[u] == Hash(j.value.0, j.value.1 + 1_800_000)
  {
    hide Step;
    if events != [] {
      var n := |events| - 1;
      HashIsLastJoin(start, events[..n], u);
      StepHash(Run(World(Store(map[], map[]), start), events[..n]), events[n], u);
    }
  }

  // ---------------------------------------------------------------- leaving the queue

  /** Leaving is accepted from a waiting user, whose hash goes at once and whose place in the set with it; nobody else's
      hash or place changes. */
  lemma LeaveRules(s: Store, now: int, u: UserId)
    ensures var (t, error) := LeaveQueue(s, now, u);
            && (error == None <==> u in s.users && now < s.users[u].expiresAt)
            && (error == Some(NotInQueue) <==> !(u in s.users && now < s.users[u].expiresAt))
            && (error != None ==> t == s)
            && (error == None ==>
                  && t.users == s.users - {u} && u !in Members(t, now, s.users[u].entry.control)
                  && forall control, v: UserId | v != u ::
                       v in Members(t, now, control) <==> v in Members(s, now, control))
  {
  }

  lemma RemovedFrom(s: Store, now: int, control: string, gone: set<UserId>, other: string, v: UserId)
    ensures v in Members(ZRem(s, now, control, gone), now, other)
       <==> v in Members(s, now, other) && !(other == control && v in gone)
  {
  }

  /** A pair is out of the sorted set of its time control, and so is everybody whose hash is gone; of the others nobody
      loses a place. */
  lemma MatchClearsSet(s: Store, now: int, u: UserId, coin: bool, v: UserId)
    requires u in s.users && now < s.users[u].expiresAt
    ensures var (t, pair) := TryMatch(s, now, u, coin);
            var control := s.users[u].entry.control;
            v in Members(t, now, control) <==>
              && v in Members(s, now, control) && v in s.users && now < s.users[v].expiresAt
              && (pair.Some? ==> v != pair.value.white && v != pair.value.black)
  {
    var control := s.users[u].entry.control;
    var dead := set c | c in Members(s, now, control) && !Live(s, now, c);
    RemovedFrom(s, now, control, dead, control, v);
    if BestMatch(s, now, u).Some? {
      RemovedFrom(Pruned(s, now, control), now, control, {u, BestMatch(s, now, u).value}, control, v);
    }
    hide ZRem, BestMatch, Members;
  }

  // ---------------------------------------------------------------- whom a search finds

  /** Asked for the same game, and at most 200 points apart. */
  ghost predicate CouldPlay(e: Entry, f: Entry)
  {
    && e.control == f.control && e.initialMs == f.initialMs && e.incrementMs == f.incrementMs
    && e.rating - f.rating <= 200 && f.rating - e.rating <= 200
  }

  /** Waiting, and a possible opponent for `u`. */
  ghost predicate Candidate(s: Store, now: int, u: UserId, c: UserId)
    requires u in s.users
  {
    c != u && c in s.users && now < s.users[c].expiresAt && CouldPlay(s.users[u].entry, s.users[c].entry)
  }

  lemma EligibleIsCandidate(s: Store, now: int, u: UserId, c: UserId)
    requires u in s.users
    ensures Eligible(s, now, u, c) <==> Candidate(s, now, u, c)
  {
  }

  /** A search finds somebody whenever there is a possible opponent, and then the one nearest in rating, of those the
      one who has waited longest, and of those the one with the least id. */
  lemma BestMatchByRatingThenWait(s: Store, now: int, u: UserId)
    requires Inv(s, now) && u in s.users && now < s.users[u].expiresAt
    ensures BestMatch(s, now, u) == None <==> forall c: UserId :: !Candidate(s, now, u, c)
    ensures BestMatch(s, now, u).Some? ==>
              var b := BestMatch(s, now, u).value;
              && Candidate(s, now, u, b)
              && forall c: UserId | c != b && Candidate(s, now, u, c) ::
                   var gapB, gapC := Abs(s.users[b].entry.rating - s.users[u].entry.rating),
                                     Abs(s.users[c].entry.rating - s.users[u].entry.rating);
                   var sinceB, sinceC := s.users[b].entry.joinedAt, s.users[c].entry.joinedAt;
                   gapB < gapC || (gapB == gapC && (sinceB < sinceC || (sinceB == sinceC && b < c)))
  {
    BestMatchIsLeast(s, now, u);
    forall c: UserId ensures Eligible(s, now, u, c) <==> Candidate(s, now, u, c) { EligibleIsCandidate(s, now, u, c); }
    hide BestMatch, Inv, Eligible;
  }

  /** In every run of complete calls, two users whose joins are still good asked for different games or are more than
      200 points apart. */
  lemma NobodyLeftToPair(start: int, events: seq<Event>, u: UserId, v: UserId)
    ensures var w := Run(World(Store(map[], map[]), start), events);
            u != v && u in w.store.users && v in w.store.users
            && w.now < w.store.users[u].expiresAt && w.now < w.store.users[v].expiresAt ==>
              var a, b := LastJoin(start, events, u), LastJoin(start, events, v);
              a.Some? && b.Some? && !CouldPlay(a.value.0, b.value.0)
  {
    var w := Run(World(Store(map[], map[]), start), events);
    QueueQuiescence(start, events);
    HashIsLastJoin(start, events, u);
    HashIsLastJoin(start, events, v);
    hide Run, LastJoin;
    if u in w.store.users { EligibleIsCandidate(w.store, w.now, u, v); }
  }

  /** Two users of one kind of game 1200 points apart both wait. */
  lemma FarApartBothWait()
    ensures var e, f := Entry(1200, "5+0", 300_000, 0, 0), Entry(2400, "5+0", 300_000, 0, 1);
            var s := Run(World(Store(map[], map[]), 0), [Joined(1, e, true), Joined(2, f, true)]).store;
            && 1 in s.users && s.users[1].entry == e && Live(s, 0, 1)
            && 2 in s.users && s.users[2].entry == f && Live(s, 0, 2)
  {
    var e, f := Entry(1200, "5+0", 300_000, 0, 0), Entry(2400, "5+0", 300_000, 0, 1);
    var w := World(Store(map[], map[]), 0);
    var a, b := Joined(1, e, true), Joined(2, f, true);
    assert [a, b][..1] == [a] && [a][..0] == [];
    assert Run(w, []) == w;
    var w1 := Step(w, a);
    assert Run(w, [a]) == w1 && Run(w, [a, b]) == Step(w1, b);
    hide Run, BestMatch, JoinThenMatch;
    JoinThenMatchWaiting(w.store, 0, 1, e, true);
    JoinThenMatchSettles(w.store, 0, 1, e, true);
    assert Live(w1.store, 0, 1);
    JoinThenMatchWaiting(w1.store, 0, 2, f, true);
    JoinedHashes(w1.store, 0, 2, f, true);
    JoinedHashes(w.store, 0, 1, e, true);
  }

  // ---------------------------------------------------------------- the position answered

  lemma PositionSteps(scores: map<UserId, int>, first: UserId, u: UserId)
    requires u in scores && IsFirst(scores, first)
    ensures Position(scores, u) == if u == first then 1 else Position(scores - {first}, u) + 1
  {
    var ahead := set v | v in scores && Earlier(scores, v, u);
    if u == first {
      assert ahead == {};
    } else {
      var rest := scores - {first};
      var aheadRest := set v | v in rest && Earlier(rest, v, u);
      assert ahead == aheadRest + {first} && first !in aheadRest;
    }
  }

  /** The position answered to a join is where the listing has the user, counted from one. */
  lemma {:induction false} PositionInListing(scores: map<UserId, int>, u: UserId)
    requires u in scores
    ensures var k := Position(scores, u); 1 <= k <= |ZRange(scores)| && ZRange(scores)[k - 1] == u
    decreases |scores|
  {
    var first := First(scores);
    PositionSteps(scores, first, u);
    assert first in scores && |ZRange(scores)| == 1 + |ZRange(scores - {first})| && ZRange(scores)[0] == first;
    hide Position, First, IsFirst;
    if u != first {
      PositionInListing(scores - {first}, u);
      ZRangeAt(scores, Position(scores, u) - 1);
    }
  }
}
