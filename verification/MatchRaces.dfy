/** Runs in which the interleaved commands go wrong, event by event: two ways to pair a ticket twice, each without one
    of the two assumptions, and a way to leave two users waiting with both. */
module MatchRaces {
  import opened Common
  import MatchQueue
  import opened MatchInterleaving

  // ---------------------------------------------------------------- both assumptions are needed

  ghost predicate Reaches(s: State, events: seq<Event>, t: State, waived: set<Event>)
  {
    Run(s, events) == t && AllowedRun(s, events, waived)
  }

  lemma {:induction false} ReachesThen(s: State, a: seq<Event>, t: State, b: seq<Event>, r: State, waived: set<Event>)
    requires Reaches(s, a, t, waived) && Reaches(t, b, r, waived)
    ensures Reaches(s, a + b, r, waived)
    decreases |b|
  {
    hide Step, Allowed;
    if b == [] {
      assert a + b == a;
    } else {
      var n := |b| - 1;
      ReachesThen(s, a, t, b[..n], Run(t, b[..n]), waived);
      assert (a + b)[..|a + b| - 1] == a + b[..n];
    }
  }

  lemma ReachesOne(s: State, e: Event, waived: set<Event>)
    requires Allowed(s, e) || e in waived
    ensures Reaches(s, [e], Step(s, e), waived)
  {
    hide Step, Allowed;
    var events := [e];
    assert events[..|events| - 1] == [];
    assert Run(s, []) == s && AllowedRun(s, [], waived);
    assert events != [] && events[|events| - 1] == e;
  }

  function Advances(p: nat, n: nat): seq<Event> { if n == 0 then [] else Advances(p, n - 1) + [Advanced(p)] }

  lemma {:induction false} ReachesAdvanced(s: State, p: nat, n: nat, waived: set<Event>)
    ensures Reaches(s, Advances(p, n), AfterAdvances(s, p, n), waived)
  {
    hide Step;
    if n > 0 {
      ReachesAdvanced(s, p, n - 1, waived);
      ReachesOne(AfterAdvances(s, p, n - 1), Advanced(p), waived);
      ReachesThen(s, Advances(p, n - 1), AfterAdvances(s, p, n - 1), [Advanced(p)], AfterAdvances(s, p, n), waived);
    }
  }

  /** The state once `u` has joined, or left, undisturbed. */
  function AfterJoin(s: State, u: MatchQueue.UserId, e: MatchQueue.Entry): State
  {
    s.(users := s.users[u := Ticket(s.next, u, e)], next := s.next + 1, calls := s.calls + [Call(u, Done)],
       queues := s.queues[e.control := GetOr(s.queues, e.control, map[])[u := e.joinedAt]])
  }

  lemma JoinRuns(s: State, u: MatchQueue.UserId, e: MatchQueue.Entry, waived: set<Event>)
    requires u !in s.users && (Idle(s, u) || JoinCalled(u, e) in waived)
    ensures Reaches(s, [JoinCalled(u, e)] + Advances(|s.calls|, 3), AfterJoin(s, u, e), waived)
  {
    var p, t := |s.calls|, Step(s, JoinCalled(u, e));
    ReachesOne(s, JoinCalled(u, e), waived);
    ReachesAdvanced(t, p, 3, waived);
    ReachesThen(s, [JoinCalled(u, e)], t, Advances(p, 3), AfterAdvances(t, p, 3), waived);
    hide Reaches;
    assert AfterAdvances(t, p, 1) == At(t, p, JoinWrite(e));
    assert AfterAdvances(t, p, 3).calls == AfterJoin(s, u, e).calls;
  }

  function AfterLeave(s: State, u: MatchQueue.UserId): State
    requires u in s.users
  {
    Drop(s, s.users[u].entry.control, {u}).(users := s.users - {u}, calls := s.calls + [Call(u, Done)])
  }

  lemma LeaveRuns(s: State, u: MatchQueue.UserId, waived: set<Event>)
    requires u in s.users && LeaveCalled(u) in waived
    ensures Reaches(s, [LeaveCalled(u)] + Advances(|s.calls|, 3), AfterLeave(s, u), waived)
  {
    var p, t := |s.calls|, Step(s, LeaveCalled(u));
    ReachesOne(s, LeaveCalled(u), waived);
    ReachesAdvanced(t, p, 3, waived);
    ReachesThen(s, [LeaveCalled(u)], t, Advances(p, 3), AfterAdvances(t, p, 3), waived);
    hide Reaches;
    assert AfterAdvances(t, p, 1) == At(t, p, LeaveDequeue(s.users[u].entry));
    assert AfterAdvances(t, p, 3).calls == AfterLeave(s, u).calls;
  }

  lemma ListingOfTwo(scores: map<MatchQueue.UserId, int>, u: MatchQueue.UserId, v: MatchQueue.UserId)
    requires scores.Keys == {u, v} && u != v
    ensures MatchQueue.ZRange(scores) == [u, v] || MatchQueue.ZRange(scores) == [v, u]
  {
    var first := MatchQueue.First(scores);
    var rest := scores - {first};
    var second := if first == u then v else u;
    assert rest.Keys == {second};
    assert MatchQueue.First(rest) in rest;
    assert (rest - {second}).Keys == {};
    assert MatchQueue.ZRange(rest - {second}) == [];
    assert MatchQueue.ZRange(rest) == [second];
  }

  lemma ReachesNext(s: State, p: nat, n: nat, pc: Pc, next: Pc, waived: set<Event>)
    requires p < |s.calls| && Reaches(s, Advances(p, n), At(s, p, pc), waived)
    requires Advance(At(s, p, pc), p) == At(At(s, p, pc), p, next)
    ensures Reaches(s, Advances(p, n + 1), At(s, p, next), waived)
  {
    ReachesOne(At(s, p, pc), Advanced(p), waived);
    ReachesThen(s, Advances(p, n), At(s, p, pc), [Advanced(p)], At(At(s, p, pc), p, next), waived);
    assert s.calls[p := s.calls[p].(pc := pc)][p := s.calls[p].(pc := next)] == s.calls[p := s.calls[p].(pc := next)];
    hide Reaches, Advance;
  }

  lemma NextSkips(s: State, p: nat, first: Ticket, mine: Ticket, rest: seq<MatchQueue.UserId>, best: Option<Best>)
    requires p < |s.calls| && rest != [] && rest[0] == s.calls[p].user
    ensures var t := At(s, p, MatchNext(first, mine, rest, best));
            Advance(t, p) == At(t, p, MatchNext(first, mine, rest[1..], best))
  {
  }

  /** The next member is somebody else with the same clock: two commands read that user's hash. */
  lemma NextReads(s: State, p: nat, first: Ticket, mine: Ticket, rest: seq<MatchQueue.UserId>, best: Option<Best>,
      other: Ticket)
    requires p < |s.calls| && rest != [] && rest[0] == other.user != s.calls[p].user
    requires other.user in s.users && s.users[other.user] == other && MatchQueue.SameClock(other.entry, mine.entry)
    ensures var t := At(s, p, MatchNext(first, mine, rest, best));
            Advance(t, p) == At(t, p, MatchSince(first, mine, rest, best, other))
    ensures var t := At(s, p, MatchSince(first, mine, rest, best, other));
            Advance(t, p) == At(t, p,
              MatchNext(first, mine, rest[1..], Better(mine, other, Some(other.entry.joinedAt), best)))
  {
    hide Better, MatchQueue.SameClock;
  }

  lemma SearchEnds(s: State, p: nat, first: Ticket, mine: Ticket, best: Best)
    requires p < |s.calls|
    ensures var t := At(s, p, MatchNext(first, mine, [], Some(best)));
            Advance(t, p) == At(t, p, MatchDequeue(first, mine, best.ticket))
  {
  }

  lemma SearchStarts(s: State, p: nat, first: Ticket, mine: Ticket)
    requires p < |s.calls| && s.calls[p].user in s.users && s.users[s.calls[p].user] == mine
             && mine.entry.control in s.queues
    ensures var t := At(s, p, MatchReload(first)); Advance(t, p) == At(t, p, MatchList(first, mine))
    ensures var t := At(s, p, MatchList(first, mine));
            Advance(t, p) == At(t, p, MatchNext(first, mine, MatchQueue.ZRange(s.queues[mine.entry.control]), None))
  {
    hide MatchQueue.ZRange;
  }

  /** The loop over a listing of the searcher and one other user, in either order. */
  lemma LoopRuns(s: State, p: nat, first: Ticket, mine: Ticket, listing: seq<MatchQueue.UserId>, other: Ticket,
      waived: set<Event>)
    requires p < |s.calls| && s.calls[p].user != other.user && other.user in s.users && s.users[other.user] == other
    requires MatchQueue.SameClock(other.entry, mine.entry)
             && listing in [[s.calls[p].user, other.user], [other.user, s.calls[p].user]]
    requires Reaches(s, Advances(p, 2), At(s, p, MatchNext(first, mine, listing, None)), waived)
    ensures Reaches(s, Advances(p, 5),
                    At(s, p, MatchNext(first, mine, [], Better(mine, other, Some(other.entry.joinedAt), None))), waived)
  {
    hide Reaches, Advances, Advance, At, Better, MatchQueue.SameClock;
    var best, u, v := Better(mine, other, Some(other.entry.joinedAt), None), s.calls[p].user, other.user;
    if listing[0] == u {
      assert listing[1..] == [v] && [v][1..] == [];
      NextSkips(s, p, first, mine, listing, None);
      NextReads(s, p, first, mine, [v], None, other);
      ReachesNext(s, p, 2, MatchNext(first, mine, listing, None), MatchNext(first, mine, [v], None), waived);
      ReachesNext(s, p, 3, MatchNext(first, mine, [v], None), MatchSince(first, mine, [v], None, other), waived);
      ReachesNext(s, p, 4, MatchSince(first, mine, [v], None, other), MatchNext(first, mine, [], best), waived);
    } else {
      assert listing[1..] == [u] && [u][1..] == [];
      NextReads(s, p, first, mine, listing, None, other);
      NextSkips(s, p, first, mine, [u], best);
      ReachesNext(s, p, 2, MatchNext(first, mine, listing, None), MatchSince(first, mine, listing, None, other),
        waived);
      ReachesNext(s, p, 3, MatchSince(first, mine, listing, None, other), MatchNext(first, mine, [u], best), waived);
      ReachesNext(s, p, 4, MatchNext(first, mine, [u], best), MatchNext(first, mine, [], best), waived);
    }
  }

  /** A call that holds its lock and finds one other user in the sorted set goes on to pair with that user. */
  lemma SearchRuns(s: State, p: nat, first: Ticket, mine: Ticket, other: Ticket, waived: set<Event>)
    requires p < |s.calls| && s.calls[p] == Call(mine.user, MatchReload(first))
    requires mine.user in s.users && s.users[mine.user] == mine && other.user in s.users && s.users[other.user] == other
    requires mine.entry.control in s.queues && s.queues[mine.entry.control].Keys == {mine.user, other.user}
    requires Compatible(mine, other)
    ensures Reaches(s, Advances(p, 6), At(s, p, MatchDequeue(first, mine, other)), waived)
  {
    var listing := MatchQueue.ZRange(s.queues[mine.entry.control]);
    ListingOfTwo(s.queues[mine.entry.control], mine.user, other.user);
    var best := Better(mine, other, Some(other.entry.joinedAt), None);
    assert best.Some? && best.value.ticket == other;
    assert At(s, p, s.calls[p].pc) == s by { assert s.calls[p := s.calls[p]] == s.calls; }
    assert Reaches(s, Advances(p, 0), At(s, p, MatchReload(first)), waived);
    hide Reaches, MatchQueue.ZRange, Advances, Advance, At, Better, MatchQueue.SameClock;
    SearchStarts(s, p, first, mine);
    ReachesNext(s, p, 0, MatchReload(first), MatchList(first, mine), waived);
    ReachesNext(s, p, 1, MatchList(first, mine), MatchNext(first, mine, listing, None), waived);
    LoopRuns(s, p, first, mine, listing, other, waived);
    SearchEnds(s, p, first, mine, best.value);
    ReachesNext(s, p, 5, MatchNext(first, mine, [], best), MatchDequeue(first, mine, other), waived);
  }

  lemma ReachesTwo(s: State, p: nat, waived: set<Event>)
    ensures Reaches(s, Advances(p, 2), Step(Step(s, Advanced(p)), Advanced(p)), waived)
  {
    ReachesAdvanced(s, p, 2, waived);
    hide Reaches, Step;
    assert AfterAdvances(s, p, 1) == Step(s, Advanced(p));
  }

  lemma LockSteps(s: State, p: nat, mine: Ticket)
    requires p < |s.calls| && s.calls[p] == Call(mine.user, MatchLoad) && mine.user in s.users
             && s.users[mine.user] == mine
    requires mine.entry.control !in s.locks
    ensures Step(s, Advanced(p)) == At(s, p, MatchLock(mine))
    ensures Step(At(s, p, MatchLock(mine)), Advanced(p))
            == At(s.(locks := s.locks[mine.entry.control := p]), p, MatchReload(mine))
  {
    assert s.calls[p := s.calls[p].(pc := MatchLock(mine))][p := Call(mine.user, MatchReload(mine))]
           == s.calls[p := Call(mine.user, MatchReload(mine))];
  }

  lemma LockRuns(s: State, p: nat, mine: Ticket, waived: set<Event>)
    requires p < |s.calls| && s.calls[p] == Call(mine.user, MatchLoad) && mine.user in s.users
             && s.users[mine.user] == mine
    requires mine.entry.control !in s.locks
    ensures Reaches(s, Advances(p, 2), At(s.(locks := s.locks[mine.entry.control := p]), p, MatchReload(mine)), waived)
  {
    ReachesTwo(s, p, waived);
    LockSteps(s, p, mine);
    hide Reaches, Step, Advances, At;
  }

  function AfterPairing(s: State, p: nat): State { Step(Step(s, Advanced(p)), Advanced(p)) }

  /** The removal commands of a call that has chosen. */
  lemma PairSteps(s: State, p: nat, first: Ticket, mine: Ticket, other: Ticket)
    requires p < |s.calls| && s.calls[p].pc == MatchDequeue(first, mine, other)
    ensures AfterPairing(s, p).pairs == s.pairs + [Pair(mine, other)] && MovesOnly(s, AfterPairing(s, p), p)
  {
    var t := Step(s, Advanced(p));
    assert t == At(Drop(s, mine.entry.control, {s.calls[p].user, other.user}), p, MatchDelete(first, mine, other));
    AdvanceMovesOne(s, p);
    assert t.calls[p].pc == MatchDelete(first, mine, other) && t.pairs == s.pairs;
    AdvanceMovesOne(t, p);
    assert Step(t, Advanced(p)).pairs == t.pairs + [Pair(mine, other)];
    hide Step;
  }

  lemma Chain(s: State, a: seq<Event>, t: State, b: seq<Event>, r: State, waived: set<Event>)
    returns (events: seq<Event>)
    requires Reaches(s, a, t, waived) && Reaches(t, b, r, waived)
    ensures Reaches(s, events, r, waived)
  {
    events := a + b;
    ReachesThen(s, a, t, b, r, waived);
  }

  lemma ReachesMeans(s: State, events: seq<Event>, t: State, waived: set<Event>)
    requires Reaches(s, events, t, waived)
    ensures Run(s, events) == t && AllowedRun(s, events, waived)
  {
  }

  /** Two calls that are both past their lock and see the same two users pair them twice. */
  lemma Race(s: State, p: nat, q: nat, before: Ticket, mine: Ticket, other: Ticket, waived: set<Event>)
    returns (events: seq<Event>, t: State)
    requires p < |s.calls| && q < |s.calls| && p != q
    requires s.calls[p] == Call(mine.user, MatchReload(before)) && s.calls[q] == Call(other.user, MatchReload(other))
    requires mine.user in s.users && s.users[mine.user] == mine && other.user in s.users && s.users[other.user] == other
    requires mine.entry.control in s.queues && s.queues[mine.entry.control].Keys == {mine.user, other.user}
    requires Compatible(mine, other)
    ensures Reaches(s, events, t, waived) && t.pairs == s.pairs + [Pair(mine, other), Pair(other, mine)]
  {
    var s1 := At(s, p, MatchDequeue(before, mine, other));
    var s2 := At(s1, q, MatchDequeue(other, other, mine));
    var s3, s4 := AfterPairing(s2, p), AfterPairing(AfterPairing(s2, p), q);
    SearchRuns(s, p, before, mine, other, waived);
    SearchRuns(s1, q, other, other, mine, waived);
    PairSteps(s2, p, before, mine, other);
    PairSteps(s3, q, other, other, mine);
    ReachesTwo(s2, p, waived);
    ReachesTwo(s3, q, waived);
    hide Reaches, Advances, Step;
    t := s4;
    events := Chain(s, Advances(p, 6), s1, Advances(q, 6), s2, waived);
    events := Chain(s, events, s2, Advances(p, 2), s3, waived);
    events := Chain(s, events, s3, Advances(q, 2), s4, waived);
  }

  function Blitz(): MatchQueue.Entry { MatchQueue.Entry(1500, "5+0", 300_000, 0, 0) }

  function Bullet(): MatchQueue.Entry { MatchQueue.Entry(1500, "1+0", 60_000, 0, 0) }

  /** Users 1 and 2 have joined blitz, and `calls` have followed. */
  function BothQueued(calls: seq<Call>): State
  {
    State(map[1 := Ticket(0, 1, Blitz()), 2 := Ticket(1, 2, Blitz())],
          map[Blitz().control := map[1 := 0, 2 := 0]], map[], 2,
          [Call(1, Done), Call(2, Done)] + calls, [])
  }

  lemma BothJoin()
    ensures AfterJoin(AfterJoin(Empty(), 1, Blitz()), 2, Blitz()) == BothQueued([])
  {
    assert Blitz().joinedAt == 0;
    hide Blitz;
  }

  lemma BothQueuedIsReached(waived: set<Event>) returns (events: seq<Event>)
    ensures Reaches(Empty(), events, BothQueued([]), waived)
  {
    hide Reaches, Advances, Blitz;
    var s := AfterJoin(Empty(), 1, Blitz());
    JoinRuns(Empty(), 1, Blitz(), waived);
    JoinRuns(s, 2, Blitz(), waived);
    BothJoin();
    hide AfterJoin;
    events := Chain(Empty(), [JoinCalled(1, Blitz())] + Advances(0, 3), s,
                    [JoinCalled(2, Blitz())] + Advances(1, 3), BothQueued([]), waived);
  }

  lemma BothSearchingIsReached(waived: set<Event>) returns (events: seq<Event>)
    ensures Reaches(Empty(), events, BothQueued([Call(1, MatchLoad), Call(2, MatchLoad)]), waived)
  {
    events := BothQueuedIsReached(waived);
    hide Reaches, Advances, Blitz;
    var s, t := BothQueued([]), BothQueued([Call(1, MatchLoad)]);
    var u := BothQueued([Call(1, MatchLoad), Call(2, MatchLoad)]);
    assert Step(s, MatchCalled(1)) == t && Step(t, MatchCalled(2)) == u;
    ReachesOne(s, MatchCalled(1), waived);
    ReachesOne(t, MatchCalled(2), waived);
    events := Chain(Empty(), events, s, [MatchCalled(1)], t, waived);
    events := Chain(Empty(), events, t, [MatchCalled(2)], u, waived);
  }

  /** A lock that expires inside the critical section lets a second call in: the same two tickets end up in two pairs,
      although every user has one request in flight. */
  lemma ExpiredLockPairsTwice() returns (events: seq<Event>)
    ensures AllowedRun(Empty(), events, {LockExpired(Blitz().control)})
    ensures var pairs := Run(Empty(), events).pairs;
            |pairs| == 2 && pairs[0].mine == pairs[1].other && pairs[0].other == pairs[1].mine
  {
    var control := Blitz().control;
    var waived := {LockExpired(control)};
    events := BothSearchingIsReached(waived);
    hide Reaches, Advances, Blitz;
    var t1, t2, s := Ticket(0, 1, Blitz()), Ticket(1, 2, Blitz()), BothQueued([Call(1, MatchLoad), Call(2, MatchLoad)]);
    var s1 := At(s.(locks := s.locks[control := 2]), 2, MatchReload(t1));
    var s2 := Step(s1, LockExpired(control));
    var s3 := At(s2.(locks := s2.locks[control := 3]), 3, MatchReload(t2));
    LockRuns(s, 2, t1, waived);
    ReachesOne(s1, LockExpired(control), waived);
    LockRuns(s2, 3, t2, waived);
    var race, t := Race(s3, 2, 3, t1, t1, t2, waived);
    events := Chain(Empty(), events, s, Advances(2, 2), s1, waived);
    events := Chain(Empty(), events, s1, [LockExpired(control)], s2, waived);
    events := Chain(Empty(), events, s2, Advances(3, 2), s3, waived);
    events := Chain(Empty(), events, s3, race, t, waived);
    ReachesMeans(Empty(), events, t, waived);
  }

  /** User 1 is about to take the lock of blitz, and has meanwhile left and joined bullet, as has user 2. */
  function Moved(): State
  {
    State(map[1 := Ticket(1, 1, Bullet()), 2 := Ticket(2, 2, Bullet())],
          map["5+0" := map[], "1+0" := map[1 := 0, 2 := 0]], map[], 3,
          [Call(1, Done), Call(1, MatchLock(Ticket(0, 1, Blitz()))), Call(1, Done), Call(1, Done), Call(2, Done)], [])
  }

  /** User 1 has joined blitz, and has read their own ticket. */
  function Started(): State
  {
    State(map[1 := Ticket(0, 1, Blitz())], map["5+0" := map[1 := 0]], map[], 1,
          [Call(1, Done), Call(1, MatchLock(Ticket(0, 1, Blitz())))], [])
  }

  lemma StartedIsReached(waived: set<Event>) returns (events: seq<Event>)
    ensures Reaches(Empty(), events, Started(), waived)
  {
    var s1 := AfterJoin(Empty(), 1, Blitz());
    var s2 := Step(s1, MatchCalled(1));
    JoinRuns(Empty(), 1, Blitz(), waived);
    ReachesOne(s1, MatchCalled(1), waived);
    ReachesOne(s2, Advanced(1), waived);
    assert Step(s2, Advanced(1)) == Started();
    hide Reaches, Advances;
    events := Chain(Empty(), [JoinCalled(1, Blitz())] + Advances(0, 3), s1, [MatchCalled(1)], s2, waived);
    events := Chain(Empty(), events, s2, [Advanced(1)], Started(), waived);
  }

  lemma MovedIsReached(waived: set<Event>) returns (events: seq<Event>)
    requires waived == {LeaveCalled(1), JoinCalled(1, Bullet())}
    ensures Reaches(Empty(), events, Moved(), waived)
  {
    events := StartedIsReached(waived);
    hide Reaches, Advances;
    var s1 := AfterLeave(Started(), 1);
    var s2 := AfterJoin(s1, 1, Bullet());
    LeaveRuns(Started(), 1, waived);
    JoinRuns(s1, 1, Bullet(), waived);
    JoinRuns(s2, 2, Bullet(), waived);
    assert AfterJoin(s2, 2, Bullet()) == Moved();
    events := Chain(Empty(), events, Started(), [LeaveCalled(1)] + Advances(2, 3), s1, waived);
    events := Chain(Empty(), events, s1, [JoinCalled(1, Bullet())] + Advances(3, 3), s2, waived);
    events := Chain(Empty(), events, s2, [JoinCalled(2, Bullet())] + Advances(4, 3), Moved(), waived);
  }

  /** The lock is the one of the time control read before locking. A user who leaves and joins another time control
      while a search of theirs is in flight is searched for under the wrong lock, and paired twice. */
  lemma WrongLockPairsTwice() returns (events: seq<Event>)
    ensures AllowedRun(Empty(), events, {LeaveCalled(1), JoinCalled(1, Bullet())})
    ensures var pairs := Run(Empty(), events).pairs;
            |pairs| == 2 && pairs[0].mine == pairs[1].other && pairs[0].other == pairs[1].mine
  {
    var waived := {LeaveCalled(1), JoinCalled(1, Bullet())};
    var t0, t1, t2 := Ticket(0, 1, Blitz()), Ticket(1, 1, Bullet()), Ticket(2, 2, Bullet());
    events := MovedIsReached(waived);
    var s1 := Step(Moved(), MatchCalled(2));
    var s2 := Step(s1, Advanced(1));
    var s3 := At(s2.(locks := s2.locks["1+0" := 5]), 5, MatchReload(t2));
    ReachesOne(Moved(), MatchCalled(2), waived);
    ReachesOne(s1, Advanced(1), waived);
    LockRuns(s2, 5, t2, waived);
    var race, t := Race(s3, 1, 5, t0, t1, t2, waived);
    hide Reaches, Advances;
    events := Chain(Empty(), events, Moved(), [MatchCalled(2)], s1, waived);
    events := Chain(Empty(), events, s1, [Advanced(1)], s2, waived);
    events := Chain(Empty(), events, s2, Advances(5, 2), s3, waived);
    events := Chain(Empty(), events, s3, race, t, waived);
    ReachesMeans(Empty(), events, t, waived);
  }

  // ---------------------------------------------------------------- a settled queue is not promised

  lemma ListingOfOne(scores: map<MatchQueue.UserId, int>, u: MatchQueue.UserId)
    requires scores.Keys == {u}
    ensures MatchQueue.ZRange(scores) == [u]
  {
    assert MatchQueue.First(scores) in scores;
    assert (scores - {u}).Keys == {};
    assert MatchQueue.ZRange(scores - {u}) == [];
  }

  /** A call that takes its lock and lists the sorted set while its own user is the only member. */
  lemma ListsAlone(s: State, p: nat, mine: Ticket, waived: set<Event>)
    requires p < |s.calls| && s.calls[p] == Call(mine.user, MatchLoad) && mine.user in s.users
             && s.users[mine.user] == mine
    requires mine.entry.control !in s.locks
    requires mine.entry.control in s.queues && s.queues[mine.entry.control].Keys == {mine.user}
    ensures var t := At(s.(locks := s.locks[mine.entry.control := p]), p, MatchReload(mine));
            Reaches(s, Advances(p, 2) + Advances(p, 2), At(t, p, MatchNext(mine, mine, [mine.user], None)), waived)
  {
    var t := At(s.(locks := s.locks[mine.entry.control := p]), p, MatchReload(mine));
    ListingOfOne(s.queues[mine.entry.control], mine.user);
    assert At(t, p, MatchReload(mine)) == t by { assert t.calls[p := t.calls[p]] == t.calls; }
    assert Reaches(t, Advances(p, 0), At(t, p, MatchReload(mine)), waived);
    LockRuns(s, p, mine, waived);
    hide Reaches, MatchQueue.ZRange, Advances, Advance;
    SearchStarts(t, p, mine, mine);
    ReachesNext(t, p, 0, MatchReload(mine), MatchList(mine, mine), waived);
    ReachesNext(t, p, 1, MatchList(mine, mine), MatchNext(mine, mine, [mine.user], None), waived);
    ReachesThen(s, Advances(p, 2), t, Advances(p, 2), At(t, p, MatchNext(mine, mine, [mine.user], None)), waived);
  }

  /** A call that finds the lock taken gives up. */
  lemma GivesUp(s: State, p: nat, mine: Ticket, waived: set<Event>)
    requires p < |s.calls| && s.calls[p] == Call(mine.user, MatchLoad) && mine.user in s.users
             && s.users[mine.user] == mine
    requires mine.entry.control in s.locks
    ensures Reaches(s, Advances(p, 2), At(s, p, Done), waived)
  {
    ReachesTwo(s, p, waived);
    assert Step(s, Advanced(p)) == At(s, p, MatchLock(mine));
    hide Reaches;
    assert s.calls[p := s.calls[p].(pc := MatchLock(mine))][p := Call(mine.user, Done)]
           == s.calls[p := Call(mine.user, Done)];
  }

  lemma SearchFails(s: State, p: nat, mine: Ticket)
    requires p < |s.calls|
    ensures var t := At(s, p, MatchNext(mine, mine, [], None)); Advance(t, p) == At(t, p, MatchRelease(mine))
  {
  }

  lemma ReleaseStep(s: State, p: nat, mine: Ticket)
    requires p < |s.calls| && Holds(s, p, mine.entry.control)
    ensures Step(At(s, p, MatchRelease(mine)), Advanced(p)) == At(s.(locks := s.locks - {mine.entry.control}), p, Done)
  {
    assert s.calls[p := s.calls[p].(pc := MatchRelease(mine))][p := s.calls[p].(pc := Done)]
           == s.calls[p := s.calls[p].(pc := Done)];
  }

  /** A call that has listed nobody but its own user finds no match and frees its lock. */
  lemma EndsAlone(s: State, p: nat, mine: Ticket, waived: set<Event>)
    requires p < |s.calls| && s.calls[p] == Call(mine.user, MatchNext(mine, mine, [mine.user], None))
    requires Holds(s, p, mine.entry.control)
    ensures Reaches(s, Advances(p, 2) + [Advanced(p)], At(s.(locks := s.locks - {mine.entry.control}), p, Done), waived)
  {
    assert At(s, p, s.calls[p].pc) == s by { assert s.calls[p := s.calls[p]] == s.calls; }
    assert Reaches(s, Advances(p, 0), At(s, p, MatchNext(mine, mine, [mine.user], None)), waived);
    assert [mine.user][1..] == [];
    hide Reaches, Advances, Advance, At, Step, Holds;
    NextSkips(s, p, mine, mine, [mine.user], None);
    ReachesNext(s, p, 0, MatchNext(mine, mine, [mine.user], None), MatchNext(mine, mine, [], None), waived);
    SearchFails(s, p, mine);
    ReachesNext(s, p, 1, MatchNext(mine, mine, [], None), MatchRelease(mine), waived);
    ReleaseStep(s, p, mine);
    ReachesOne(At(s, p, MatchRelease(mine)), Advanced(p), waived);
    ReachesThen(s, Advances(p, 2), At(s, p, MatchRelease(mine)), [Advanced(p)],
      At(s.(locks := s.locks - {mine.entry.control}), p, Done), waived);
  }

  /** The first user has joined and is listing the sorted set, alone. */
  function FirstListing(): State
  {
    var t1 := Ticket(0, 1, Blitz());
    State(map[1 := t1], map[Blitz().control := map[1 := 0]], map[Blitz().control := 1], 1,
          [Call(1, Done), Call(1, MatchNext(t1, t1, [1], None))], [])
  }

  lemma FirstListingIsReached(waived: set<Event>) returns (events: seq<Event>)
    ensures Reaches(Empty(), events, FirstListing(), waived)
  {
    assert Blitz().joinedAt == 0;
    hide Reaches, Advances, Blitz;
    var s1 := AfterJoin(Empty(), 1, Blitz());
    var s2 := Step(s1, MatchCalled(1));
    JoinRuns(Empty(), 1, Blitz(), waived);
    ReachesOne(s1, MatchCalled(1), waived);
    ListsAlone(s2, 1, Ticket(0, 1, Blitz()), waived);
    events := Chain(Empty(), [JoinCalled(1, Blitz())] + Advances(0, 3), s1, [MatchCalled(1)], s2, waived);
    events := Chain(Empty(), events, s2, Advances(1, 2) + Advances(1, 2), FirstListing(), waived);
  }

  /** The second user has joined too, and the search called for that user is at `pc`. */
  function SecondSearches(pc: Pc): State
  {
    var t1 := Ticket(0, 1, Blitz());
    State(map[1 := t1, 2 := Ticket(1, 2, Blitz())],
          map[Blitz().control := map[1 := 0, 2 := 0]], map[Blitz().control := 1], 2,
          [Call(1, Done), Call(1, MatchNext(t1, t1, [1], None)), Call(2, Done), Call(2, pc)], [])
  }

  lemma SecondJoins()
    ensures Step(AfterJoin(FirstListing(), 2, Blitz()), MatchCalled(2)) == SecondSearches(MatchLoad)
    ensures At(SecondSearches(MatchLoad), 3, Done) == SecondSearches(Done)
    ensures |FirstListing().calls| == 2 && Idle(FirstListing(), 2) && 2 !in FirstListing().users
    ensures Idle(AfterJoin(FirstListing(), 2, Blitz()), 2)
  {
    assert Blitz().joinedAt == 0;
    hide Blitz;
  }

  lemma SecondGivesUp(waived: set<Event>)
    ensures Reaches(SecondSearches(MatchLoad), Advances(3, 2), SecondSearches(Done), waived)
  {
    SecondJoins();
    hide Reaches, Advances, Blitz, At;
    GivesUp(SecondSearches(MatchLoad), 3, Ticket(1, 2, Blitz()), waived);
  }

  lemma MatchCallRuns(s: State, u: MatchQueue.UserId, waived: set<Event>)
    requires Idle(s, u)
    ensures Reaches(s, [MatchCalled(u)], Step(s, MatchCalled(u)), waived)
  {
    ReachesOne(s, MatchCalled(u), waived);
  }

  lemma SecondGaveUpIsReached(waived: set<Event>) returns (events: seq<Event>)
    ensures Reaches(Empty(), events, SecondSearches(Done), waived)
  {
    events := FirstListingIsReached(waived);
    SecondJoins();
    hide *;
    var s := AfterJoin(FirstListing(), 2, Blitz());
    JoinRuns(FirstListing(), 2, Blitz(), waived);
    MatchCallRuns(s, 2, waived);
    SecondGivesUp(waived);
    events := Chain(Empty(), events, FirstListing(), [JoinCalled(2, Blitz())] + Advances(2, 3), s, waived);
    events := Chain(Empty(), events, s, [MatchCalled(2)], SecondSearches(MatchLoad), waived);
    events := Chain(Empty(), events, SecondSearches(MatchLoad), Advances(3, 2), SecondSearches(Done), waived);
  }

  /** Two users who could play each other may both be left waiting, with every call returned and every request and
      lock in order: the second finds the lock taken and gives up, the first listed the queue before the second was in
      it. */
  lemma BothLeftWaiting() returns (events: seq<Event>)
    ensures AllowedRun(Empty(), events, {})
    ensures var s := Run(Empty(), events);
            && s.pairs == [] && s.locks == map[] && (forall p | 0 <= p < |s.calls| :: s.calls[p].pc.Done?)
            && 1 in s.users && 2 in s.users && Compatible(s.users[1], s.users[2])
            && s.users[1].entry.control in s.queues && {1, 2} <= s.queues[s.users[1].entry.control].Keys
  {
    var s := SecondSearches(Done);
    assert Compatible(Ticket(0, 1, Blitz()), Ticket(1, 2, Blitz()));
    events := SecondGaveUpIsReached({});
    hide Reaches, Advances, Blitz, Compatible;
    EndsAlone(s, 1, Ticket(0, 1, Blitz()), {});
    var end := At(s.(locks := s.locks - {Blitz().control}), 1, Done);
    events := Chain(Empty(), events, s, Advances(1, 2) + [Advanced(1)], end, {});
    ReachesMeans(Empty(), events, end, {});
  }
}
