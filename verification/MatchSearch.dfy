/** Calls left alone: command by command, a join, a leave and a search do exactly what the atomic calls do to the same
    hashes and sorted sets. */
module MatchSearch {
  import opened Common
  import MatchQueue
  import opened MatchInterleaving

  type UserId = MatchQueue.UserId

  /** The hashes and sorted sets as the atomic calls see them at instant 0, none of them expired. */
  function StoreOf(s: State): MatchQueue.Store
  {
    MatchQueue.Store(map u | u in s.users :: MatchQueue.Hash(s.users[u].entry, 1),
                     map control | control in s.queues :: MatchQueue.SortedSet(s.queues[control], 1))
  }

  /** The same hashes and sorted sets, with no more and no less time to live. */
  function Renewed(st: MatchQueue.Store): MatchQueue.Store
  {
    MatchQueue.Store(map u | u in st.users :: MatchQueue.Hash(st.users[u].entry, 1),
                     map control | control in st.queues :: MatchQueue.SortedSet(st.queues[control].scores, 1))
  }

  ghost predicate OwnHashes(s: State) { forall u | u in s.users :: s.users[u].user == u }

  // ---------------------------------------------------------------- commands in a row

  lemma AdvancesNone(s: State, p: nat)
    ensures AfterAdvances(s, p, 0) == s
  {
  }

  lemma AdvancesOne(s: State, p: nat)
    requires p < |s.calls|
    ensures AfterAdvances(s, p, 1) == Advance(s, p)
  {
    AdvancesNone(s, p);
  }

  lemma {:induction false} AdvancesAdd(s: State, p: nat, m: nat, n: nat)
    ensures AfterAdvances(s, p, m + n) == AfterAdvances(AfterAdvances(s, p, m), p, n)
  {
    hide Step;
    if n > 0 { AdvancesAdd(s, p, m, n - 1); }
  }

  lemma TwoAdvances(s: State, p: nat, a: State, t: State)
    requires p < |s.calls| && Advance(s, p) == a
    requires p < |a.calls| && Advance(a, p) == t
    ensures AfterAdvances(s, p, 2) == t
  {
    AdvancesOne(s, p);
    AdvancesOne(a, p);
    AdvancesAdd(s, p, 1, 1);
    hide Advance, AfterAdvances;
  }

  lemma ThreeAdvances(s: State, p: nat, a: State, b: State, t: State)
    requires p < |s.calls| && Advance(s, p) == a
    requires p < |a.calls| && Advance(a, p) == b
    requires p < |b.calls| && Advance(b, p) == t
    ensures AfterAdvances(s, p, 3) == t
  {
    AdvancesOne(s, p);
    AdvancesOne(a, p);
    AdvancesOne(b, p);
    AdvancesAdd(s, p, 1, 1);
    AdvancesAdd(s, p, 2, 1);
    hide Advance, AfterAdvances;
  }

  lemma AtAgain(s: State, p: nat, a: Pc, b: Pc)
    requires p < |s.calls|
    ensures |At(s, p, a).calls| == |s.calls| && At(At(s, p, a), p, b) == At(s, p, b)
  {
  }

  lemma DropAt(s: State, p: nat, pc: Pc, control: string, gone: set<UserId>)
    requires p < |s.calls|
    ensures Drop(At(s, p, pc), control, gone) == At(Drop(s, control, gone), p, pc)
  {
  }

  lemma DropMore(s: State, control: string, a: set<UserId>, b: set<UserId>)
    ensures Drop(Drop(s, control, a), control, b) == Drop(s, control, a + b)
  {
    if control in s.queues {
      assert s.queues[control] - a - b == s.queues[control] - (a + b);
      assert s.queues[control := s.queues[control] - a][control := s.queues[control] - a - b]
             == s.queues[control := s.queues[control] - (a + b)];
    }
  }

  lemma DropNothing(s: State, control: string)
    ensures Drop(s, control, {}) == s
  {
    if control in s.queues {
      assert s.queues[control] - {} == s.queues[control];
      assert s.queues[control := s.queues[control]] == s.queues;
    }
  }

  // ---------------------------------------------------------------- the loop

  /** The hashes of a store are those of the state. */
  ghost predicate Mirrors(st: MatchQueue.Store, s: State)
  {
    && st.users.Keys == s.users.Keys && OwnHashes(s)
    && forall u | u in s.users :: st.users[u] == MatchQueue.Hash(s.users[u].entry, 1)
  }

  /** The loop's best candidate is the scan's. */
  ghost predicate Agrees(st: MatchQueue.Store, s: State, u: UserId, best: Option<Best>, ids: seq<UserId>)
    requires u in s.users && Mirrors(st, s)
  {
    match MatchQueue.Scan(st, 0, u, ids)
    case None => best.None?
    case Some(c) => best == Some(Best(s.users[c], MatchQueue.Gap(st, u, c), Some(s.users[c].entry.joinedAt)))
  }

  ghost function Dead(s: State, ids: seq<UserId>): set<UserId> { set c | c in ids && c !in s.users }

  /** The state once the loop that started in `s` has looked at `ids[..i]`: their dead members are out of the set. */
  ghost function Swept(s: State, p: nat, first: Ticket, mine: Ticket, ids: seq<UserId>, i: nat,
      best: Option<Best>): State
    requires p < |s.calls| && i <= |ids|
  {
    At(Drop(s, mine.entry.control, Dead(s, ids[..i])), p, MatchNext(first, mine, ids[i..], best))
  }

  lemma ScanPasses(st: MatchQueue.Store, s: State, mine: Ticket, ids: seq<UserId>, i: nat, best: Option<Best>)
    requires Mirrors(st, s) && mine.user in s.users && s.users[mine.user] == mine && i < |ids|
    requires Agrees(st, s, mine.user, best, ids[..i])
    requires ids[i] == mine.user || ids[i] !in s.users || !MatchQueue.SameClock(s.users[ids[i]].entry, mine.entry)
    ensures Agrees(st, s, mine.user, best, ids[..i + 1])
  {
    assert ids[..i + 1][..i] == ids[..i];
    assert !MatchQueue.Eligible(st, 0, mine.user, ids[i]);
    hide MatchQueue.Eligible, MatchQueue.SameClock, MatchQueue.Gap;
  }

  lemma ScanWeighs(st: MatchQueue.Store, s: State, mine: Ticket, ids: seq<UserId>, i: nat, best: Option<Best>)
    requires Mirrors(st, s) && mine.user in s.users && s.users[mine.user] == mine && i < |ids|
    requires Agrees(st, s, mine.user, best, ids[..i])
    requires ids[i] != mine.user && ids[i] in s.users && MatchQueue.SameClock(s.users[ids[i]].entry, mine.entry)
    ensures var other := s.users[ids[i]];
            Agrees(st, s, mine.user, Better(mine, other, Some(other.entry.joinedAt), best), ids[..i + 1])
  {
    assert ids[..i + 1][..i] == ids[..i];
    hide MatchQueue.SameClock;
  }

  lemma DeadOf(s: State, ids: seq<UserId>, i: nat)
    requires i < |ids|
    ensures Dead(s, ids[..i + 1]) == if ids[i] in s.users then Dead(s, ids[..i]) else Dead(s, ids[..i]) + {ids[i]}
  {
  }

  /** What looking at the next member of the listing leads to, if there is one. */
  function Looked(s: State, u: UserId, first: Ticket, mine: Ticket, rest: seq<UserId>, best: Option<Best>): Pc
    requires rest != []
  {
    if rest[0] == u then MatchNext(first, mine, rest[1..], best)
    else if rest[0] !in s.users then MatchDrop(first, mine, rest, best)
    else if !MatchQueue.SameClock(s.users[rest[0]].entry, mine.entry) then MatchNext(first, mine, rest[1..], best)
    else MatchSince(first, mine, rest, best, s.users[rest[0]])
  }

  lemma LookStep(s: State, p: nat, first: Ticket, mine: Ticket, rest: seq<UserId>, best: Option<Best>)
    requires p < |s.calls| && rest != []
    ensures var now := At(s, p, MatchNext(first, mine, rest, best));
            && |now.calls| == |s.calls|
            && Advance(now, p) == At(s, p, Looked(s, s.calls[p].user, first, mine, rest, best))
  {
    hide MatchQueue.SameClock;
    AtAgain(s, p, MatchNext(first, mine, rest, best), Looked(s, s.calls[p].user, first, mine, rest, best));
  }

  lemma DropStep(s: State, p: nat, first: Ticket, mine: Ticket, rest: seq<UserId>, best: Option<Best>)
    requires p < |s.calls| && rest != []
    ensures var now, control := At(s, p, MatchDrop(first, mine, rest, best)), mine.entry.control;
            && |now.calls| == |s.calls| && |Drop(s, control, {rest[0]}).calls| == |s.calls|
            && Advance(now, p) == At(Drop(s, control, {rest[0]}), p, MatchNext(first, mine, rest[1..], best))
  {
    var now := MatchDrop(first, mine, rest, best);
    DropAt(s, p, now, mine.entry.control, {rest[0]});
    AtAgain(Drop(s, mine.entry.control, {rest[0]}), p, now, MatchNext(first, mine, rest[1..], best));
  }

  lemma SinceStep(s: State, p: nat, first: Ticket, mine: Ticket, rest: seq<UserId>, best: Option<Best>, other: Ticket)
    requires p < |s.calls| && rest != [] && other.user in s.users && s.users[other.user] == other
    ensures var now := At(s, p, MatchSince(first, mine, rest, best, other));
            && |now.calls| == |s.calls|
            && Advance(now, p)
               == At(s, p, MatchNext(first, mine, rest[1..], Better(mine, other, Some(other.entry.joinedAt), best)))
  {
    hide Better;
    AtAgain(s, p, MatchSince(first, mine, rest, best, other),
            MatchNext(first, mine, rest[1..], Better(mine, other, Some(other.entry.joinedAt), best)));
  }

  lemma SweptSoFar(s: State, control: string, ids: seq<UserId>, i: nat)
    requires i < |ids|
    ensures var t := Drop(s, control, Dead(s, ids[..i]));
            && t.users == s.users && t.calls == s.calls && ids[i..][0] == ids[i] && ids[i..][1..] == ids[i + 1..]
            && Drop(s, control, Dead(s, ids[..i + 1])) == if ids[i] in s.users then t else Drop(t, control, {ids[i]})
  {
    DeadOf(s, ids, i);
    DropMore(s, control, Dead(s, ids[..i]), {ids[i]});
    hide Dead;
  }

  /** The commands that look at a member the scan passes over: the user itself, a dead hash, or another game. */
  lemma Passes(s: State, p: nat, first: Ticket, mine: Ticket, ids: seq<UserId>, i: nat, best: Option<Best>)
    returns (n: nat)
    requires p < |s.calls| && s.calls[p].user == mine.user && i < |ids| && mine.user in s.users
    requires ids[i] == mine.user || ids[i] !in s.users || !MatchQueue.SameClock(s.users[ids[i]].entry, mine.entry)
    ensures AfterAdvances(Swept(s, p, first, mine, ids, i, best), p, n) == Swept(s, p, first, mine, ids, i + 1, best)
  {
    var control, rest := mine.entry.control, ids[i..];
    var t := Drop(s, control, Dead(s, ids[..i]));
    SweptSoFar(s, control, ids, i);
    hide Advance, AfterAdvances, Drop, Dead, At, MatchQueue.SameClock;
    LookStep(t, p, first, mine, rest, best);
    var now := At(t, p, MatchNext(first, mine, rest, best));
    if ids[i] !in s.users {
      DropStep(t, p, first, mine, rest, best);
      n := 2;
      TwoAdvances(now, p, At(t, p, MatchDrop(first, mine, rest, best)),
                  At(Drop(t, control, {ids[i]}), p, MatchNext(first, mine, rest[1..], best)));
    } else {
      n := 1;
      AdvancesOne(now, p);
    }
  }

  /** The two commands that weigh a member who waits for the same game. */
  lemma Weighs(s: State, p: nat, first: Ticket, mine: Ticket, ids: seq<UserId>, i: nat, best: Option<Best>)
    requires p < |s.calls| && s.calls[p].user == mine.user && i < |ids| && OwnHashes(s)
    requires ids[i] != mine.user && ids[i] in s.users && MatchQueue.SameClock(s.users[ids[i]].entry, mine.entry)
    ensures var other := s.users[ids[i]];
            AfterAdvances(Swept(s, p, first, mine, ids, i, best), p, 2)
            == Swept(s, p, first, mine, ids, i + 1, Better(mine, other, Some(other.entry.joinedAt), best))
  {
    var control, rest, other := mine.entry.control, ids[i..], s.users[ids[i]];
    var t := Drop(s, control, Dead(s, ids[..i]));
    SweptSoFar(s, control, ids, i);
    hide Advance, AfterAdvances, Drop, Dead, At, MatchQueue.SameClock, Better;
    LookStep(t, p, first, mine, rest, best);
    SinceStep(t, p, first, mine, rest, best, other);
    TwoAdvances(At(t, p, MatchNext(first, mine, rest, best)), p, At(t, p, MatchSince(first, mine, rest, best, other)),
                At(t, p, MatchNext(first, mine, rest[1..], Better(mine, other, Some(other.entry.joinedAt), best))));
  }

  /** One turn of the loop. */
  lemma LoopStep(
    st: MatchQueue.Store, s: State, p: nat, first: Ticket, mine: Ticket, ids: seq<UserId>, i: nat, best: Option<Best>)
    returns (n: nat, best': Option<Best>)
    requires Mirrors(st, s) && mine.user in s.users && s.users[mine.user] == mine && i < |ids|
    requires p < |s.calls| && s.calls[p].user == mine.user && Agrees(st, s, mine.user, best, ids[..i])
    ensures AfterAdvances(Swept(s, p, first, mine, ids, i, best), p, n) == Swept(s, p, first, mine, ids, i + 1, best')
    ensures Agrees(st, s, mine.user, best', ids[..i + 1])
  {
    var c := ids[i];
    hide MatchQueue.SameClock, AfterAdvances, Better, Agrees, Swept;
    if c == mine.user || c !in s.users || !MatchQueue.SameClock(s.users[c].entry, mine.entry) {
      n := Passes(s, p, first, mine, ids, i, best);
      best' := best;
      ScanPasses(st, s, mine, ids, i, best);
    } else {
      Weighs(s, p, first, mine, ids, i, best);
      n, best' := 2, Better(mine, s.users[c], Some(s.users[c].entry.joinedAt), best);
      ScanWeighs(st, s, mine, ids, i, best);
    }
  }

  lemma {:induction false} LoopChooses(
    st: MatchQueue.Store, s: State, p: nat, first: Ticket, mine: Ticket, ids: seq<UserId>, i: nat, best: Option<Best>)
    returns (n: nat, best': Option<Best>)
    requires Mirrors(st, s) && mine.user in s.users && s.users[mine.user] == mine && i <= |ids|
    requires p < |s.calls| && s.calls[p].user == mine.user && Agrees(st, s, mine.user, best, ids[..i])
    ensures AfterAdvances(Swept(s, p, first, mine, ids, i, best), p, n) == Swept(s, p, first, mine, ids, |ids|, best')
    ensures Agrees(st, s, mine.user, best', ids)
    decreases |ids| - i
  {
    hide *;
    if i == |ids| {
      assert ids[..i] == ids;
      n, best' := 0, best;
      AdvancesNone(Swept(s, p, first, mine, ids, i, best), p);
    } else {
      var m, next := LoopStep(st, s, p, first, mine, ids, i, best);
      var k;
      k, best' := LoopChooses(st, s, p, first, mine, ids, i + 1, next);
      n := m + k;
      AdvancesAdd(Swept(s, p, first, mine, ids, i, best), p, m, k);
    }
  }

  // ---------------------------------------------------------------- the search

  lemma StoreMirrors(s: State)
    requires OwnHashes(s)
    ensures Mirrors(StoreOf(s), s)
  {
  }

  lemma StartsLoop(s: State, p: nat, first: Ticket, mine: Ticket)
    requires p < |s.calls| && s.calls[p] == Call(mine.user, MatchList(first, mine))
    ensures var ids := MatchQueue.ZRange(MatchQueue.Members(StoreOf(s), 0, mine.entry.control));
            AfterAdvances(s, p, 1) == Swept(s, p, first, mine, ids, 0, None)
  {
    var ids := MatchQueue.ZRange(MatchQueue.Members(StoreOf(s), 0, mine.entry.control));
    AdvancesOne(s, p);
    assert MatchQueue.Members(StoreOf(s), 0, mine.entry.control) == GetOr(s.queues, mine.entry.control, map[]);
    assert ids[..0] == [] && ids[0..] == ids && Dead(s, []) == {};
    DropNothing(s, mine.entry.control);
    hide MatchQueue.ZRange;
  }

  lemma EndsLoop(s: State, p: nat, first: Ticket, mine: Ticket, ids: seq<UserId>, best: Option<Best>)
    requires p < |s.calls|
    ensures AfterAdvances(Swept(s, p, first, mine, ids, |ids|, best), p, 1)
         == At(Drop(s, mine.entry.control, Dead(s, ids)), p,
               if best.Some? then MatchDequeue(first, mine, best.value.ticket) else MatchRelease(first))
  {
    var t := Drop(s, mine.entry.control, Dead(s, ids));
    assert ids[..|ids|] == ids && ids[|ids|..] == [];
    AdvancesOne(Swept(s, p, first, mine, ids, |ids|, best), p);
    AtAgain(t, p, MatchNext(first, mine, [], best), MatchRelease(first));
    if best.Some? { AtAgain(t, p, MatchNext(first, mine, [], best), MatchDequeue(first, mine, best.value.ticket)); }
    hide AfterAdvances, Dead;
  }

  /** Everybody listed in the set of a time control whose hash is gone. */
  ghost function DeadIn(s: State, control: string): set<UserId>
  {
    set c | c in GetOr(s.queues, control, map[]) && c !in s.users
  }

  /** What the commands after the listing lead to. */
  function Outcome(s: State, first: Ticket, mine: Ticket): Pc
    requires mine.user in s.users
  {
    match MatchQueue.BestMatch(StoreOf(s), 0, mine.user)
    case None => MatchRelease(first)
    case Some(c) => MatchDequeue(first, mine, s.users[c])
  }

  lemma ChoiceOf(s: State, first: Ticket, mine: Ticket, ids: seq<UserId>, best: Option<Best>)
    requires mine.user in s.users && s.users[mine.user] == mine && Mirrors(StoreOf(s), s)
    requires ids == MatchQueue.ZRange(MatchQueue.Members(StoreOf(s), 0, mine.entry.control))
    requires Agrees(StoreOf(s), s, mine.user, best, ids)
    ensures Outcome(s, first, mine)
         == if best.Some? then MatchDequeue(first, mine, best.value.ticket) else MatchRelease(first)
  {
    hide MatchQueue.ZRange, MatchQueue.Scan, MatchQueue.Gap, MatchQueue.Members;
  }

  lemma DeadListed(s: State, control: string)
    ensures Dead(s, MatchQueue.ZRange(MatchQueue.Members(StoreOf(s), 0, control))) == DeadIn(s, control)
  {
    var members := MatchQueue.Members(StoreOf(s), 0, control);
    MatchQueue.ZRangeMembers(members);
    assert members == GetOr(s.queues, control, map[]);
    hide MatchQueue.ZRange;
  }

  lemma AgreesAtFirst(st: MatchQueue.Store, s: State, u: UserId, ids: seq<UserId>)
    requires u in s.users && Mirrors(st, s)
    ensures Agrees(st, s, u, None, ids[..0])
  {
  }

  /** From its listing on, a search that nothing interrupts takes the members whose hash is gone out of the set, and
      goes on to pair its user with the one the atomic search chooses, or to free its lock if there is none. */
  lemma SearchChoosesBestMatch(s: State, p: nat, first: Ticket, mine: Ticket) returns (n: nat)
    requires p < |s.calls| && s.calls[p] == Call(mine.user, MatchList(first, mine)) && OwnHashes(s)
    requires mine.user in s.users && s.users[mine.user] == mine
    ensures AfterAdvances(s, p, n)
         == At(Drop(s, mine.entry.control, DeadIn(s, mine.entry.control)), p, Outcome(s, first, mine))
  {
    hide *;
    var ids := MatchQueue.ZRange(MatchQueue.Members(StoreOf(s), 0, mine.entry.control));
    StoreMirrors(s);
    StartsLoop(s, p, first, mine);
    DeadListed(s, mine.entry.control);
    AgreesAtFirst(StoreOf(s), s, mine.user, ids);
    var k, best := LoopChooses(StoreOf(s), s, p, first, mine, ids, 0, None);
    ChoiceOf(s, first, mine, ids, best);
    EndsLoop(s, p, first, mine, ids, best);
    AdvancesAdd(s, p, 1, k);
    AdvancesAdd(s, p, 1 + k, 1);
    n := 1 + k + 1;
  }

  // ---------------------------------------------------------------- whole calls

  lemma DropsLikeZRem(s: State, control: string, gone: set<UserId>)
    ensures StoreOf(Drop(s, control, gone)) == MatchQueue.ZRem(StoreOf(s), 0, control, gone)
  {
    var t, r := StoreOf(Drop(s, control, gone)), MatchQueue.ZRem(StoreOf(s), 0, control, gone);
    assert t.users == r.users && t.queues.Keys == r.queues.Keys;
    assert forall k | k in t.queues :: t.queues[k] == r.queues[k];
  }

  lemma StoreOfAt(s: State, p: nat, pc: Pc)
    requires p < |s.calls|
    ensures StoreOf(At(s, p, pc)) == StoreOf(s)
  {
  }

  lemma StoreWithout(s: State, gone: set<UserId>, locks: map<string, nat>, pairs: seq<Pair>)
    ensures StoreOf(s.(users := s.users - gone, locks := locks, pairs := pairs))
         == StoreOf(s).(users := StoreOf(s).users - gone)
  {
  }

  function Joined(s: State, u: UserId, e: MatchQueue.Entry): State
  {
    s.(users := s.users[u := Ticket(s.next, u, e)], next := s.next + 1,
       queues := s.queues[e.control := GetOr(s.queues, e.control, map[])[u := e.joinedAt]])
  }

  lemma JoinSteps(s: State, p: nat, e: MatchQueue.Entry)
    requires p < |s.calls| && s.calls[p].pc == JoinCheck(e) && s.calls[p].user !in s.users
    ensures AfterAdvances(s, p, 3) == At(Joined(s, s.calls[p].user, e), p, Done)
  {
    var u := s.calls[p].user;
    var stored := s.(users := s.users[u := Ticket(s.next, u, e)], next := s.next + 1);
    hide AfterAdvances;
    AtAgain(stored, p, JoinWrite(e), JoinEnqueue(e));
    AtAgain(Joined(s, u, e), p, JoinEnqueue(e), Done);
    ThreeAdvances(s, p, At(s, p, JoinWrite(e)), At(stored, p, JoinEnqueue(e)), At(Joined(s, u, e), p, Done));
  }

  lemma StoreRenewed(s: State)
    ensures Renewed(StoreOf(s)) == StoreOf(s)
  {
    assert Renewed(StoreOf(s)).users == StoreOf(s).users && Renewed(StoreOf(s)).queues == StoreOf(s).queues;
  }

  lemma HashesOfJoined(s: State, u: UserId, e: MatchQueue.Entry)
    requires u !in s.users
    ensures Renewed(MatchQueue.JoinQueue(StoreOf(s), 0, u, e).0).users == StoreOf(Joined(s, u, e)).users
  {
    hide MatchQueue.Members;
  }

  lemma SetsOfJoined(s: State, u: UserId, e: MatchQueue.Entry)
    requires u !in s.users
    ensures Renewed(MatchQueue.JoinQueue(StoreOf(s), 0, u, e).0).queues == StoreOf(Joined(s, u, e)).queues
  {
    assert MatchQueue.Members(StoreOf(s), 0, e.control) == GetOr(s.queues, e.control, map[]);
    hide MatchQueue.Members;
  }

  lemma StoreOfJoined(s: State, u: UserId, e: MatchQueue.Entry)
    ensures Renewed(MatchQueue.JoinQueue(StoreOf(s), 0, u, e).0)
         == if u in s.users then StoreOf(s) else StoreOf(Joined(s, u, e))
  {
    if u in s.users {
      StoreRenewed(s);
      assert MatchQueue.JoinQueue(StoreOf(s), 0, u, e).0 == StoreOf(s) by { hide Renewed, MatchQueue.Members; }
    } else {
      HashesOfJoined(s, u, e);
      SetsOfJoined(s, u, e);
    }
    hide *;
  }

  /** A join left alone is refused to somebody with a hash, and else stores a new ticket for exactly what was asked and
      adds it to its set: as the atomic join does. */
  lemma JoinAlone(s: State, p: nat, e: MatchQueue.Entry)
    requires p < |s.calls| && s.calls[p].pc == JoinCheck(e)
    ensures var u, t := s.calls[p].user, AfterAdvances(s, p, 3);
            && t == At(if u in s.users then s else Joined(s, u, e), p, Done)
            && StoreOf(t) == Renewed(MatchQueue.JoinQueue(StoreOf(s), 0, u, e).0)
  {
    var u, t := s.calls[p].user, At(s, p, Done);
    StoreOfJoined(s, u, e);
    StoreOfAt(s, p, Done);
    StoreOfAt(Joined(s, u, e), p, Done);
    if u in s.users {
      assert At(t, p, Done) == t;
      hide StoreOf, Renewed, AfterAdvances;
      ThreeAdvances(s, p, t, t, t);
    } else {
      hide StoreOf, Renewed, AfterAdvances, Joined;
      JoinSteps(s, p, e);
    }
  }

  lemma LeaveSteps(s: State, p: nat)
    requires p < |s.calls| && s.calls[p].pc == LeaveLoad && s.calls[p].user in s.users
    ensures var u := s.calls[p].user; var e := s.users[u].entry;
            var dropped := Drop(s, e.control, {u});
            && Advance(s, p) == At(s, p, LeaveDequeue(e))
            && Advance(At(s, p, LeaveDequeue(e)), p) == At(dropped, p, LeaveDelete)
            && Advance(At(dropped, p, LeaveDelete), p) == At(dropped.(users := s.users - {u}), p, Done)
  {
    var u := s.calls[p].user;
    var e := s.users[u].entry;
    var dropped := Drop(s, e.control, {u});
    DropAt(s, p, LeaveDequeue(e), e.control, {u});
    AtAgain(dropped, p, LeaveDequeue(e), LeaveDelete);
    AtAgain(dropped.(users := s.users - {u}), p, LeaveDelete, Done);
  }

  lemma LeaveOfStore(s: State, u: UserId)
    ensures MatchQueue.LeaveQueue(StoreOf(s), 0, u).0
         == if u in s.users
            then var t := MatchQueue.ZRem(StoreOf(s), 0, s.users[u].entry.control, {u}); t.(users := t.users - {u})
            else StoreOf(s)
  {
    hide MatchQueue.ZRem;
  }

  /** So does a leave left alone. */
  lemma LeaveAlone(s: State, p: nat)
    requires p < |s.calls| && s.calls[p].pc == LeaveLoad
    ensures var u, t := s.calls[p].user, AfterAdvances(s, p, 3);
            && t.calls == s.calls[p := Call(u, Done)] && t.locks == s.locks && t.pairs == s.pairs
            && t.users == s.users - {u}
            && StoreOf(t) == MatchQueue.LeaveQueue(StoreOf(s), 0, u).0
  {
    var u := s.calls[p].user;
    if u in s.users {
      var e := s.users[u].entry;
      var dropped := Drop(s, e.control, {u});
      var t := At(dropped.(users := s.users - {u}), p, Done);
      LeaveSteps(s, p);
      ThreeAdvances(s, p, At(s, p, LeaveDequeue(e)), At(dropped, p, LeaveDelete), t);
      hide AfterAdvances, Advance;
      DropsLikeZRem(s, e.control, {u});
      StoreWithout(dropped, {u}, s.locks, s.pairs);
      assert dropped.(users := s.users - {u})
             == dropped.(users := dropped.users - {u}, locks := s.locks, pairs := s.pairs);
      StoreOfAt(dropped.(users := s.users - {u}), p, Done);
      LeaveOfStore(s, u);
      hide StoreOf, Drop;
    } else {
      var t := At(s, p, Done);
      assert s.users - {u} == s.users;
      ThreeAdvances(s, p, t, t, t);
      StoreOfAt(s, p, Done);
      LeaveOfStore(s, u);
      hide StoreOf, AfterAdvances;
    }
  }

  // ---------------------------------------------------------------- a whole search

  /** Whom the atomic search chooses, by ticket. */
  function Chosen(s: State, u: UserId): Option<Ticket>
    requires u in s.users
  {
    match MatchQueue.BestMatch(StoreOf(s), 0, u)
    case None => None
    case Some(c) => Some(s.users[c])
  }

  /** The state once call `p` has paired its user with `other`, or has found nobody. */
  ghost function AfterSearch(s: State, p: nat, other: Option<Ticket>): State
    requires p < |s.calls| && s.calls[p].user in s.users
  {
    var mine := s.users[s.calls[p].user];
    var control := mine.entry.control;
    var swept := Drop(s, control, DeadIn(s, control));
    match other
    case None => At(swept, p, Done)
    case Some(o) =>
      var paired := Drop(swept, control, {s.calls[p].user, o.user});
      At(paired.(users := s.users - {s.calls[p].user, o.user}, pairs := s.pairs + [Pair(mine, o)]), p, Done)
  }

  function Locked(s: State, control: string, p: nat): State { s.(locks := s.locks[control := p]) }

  lemma LocksFirst(s: State, p: nat)
    requires p < |s.calls| && s.calls[p].pc == MatchLoad && s.calls[p].user in s.users
    requires s.users[s.calls[p].user].entry.control !in s.locks
    ensures var mine := s.users[s.calls[p].user];
            AfterAdvances(s, p, 3) == At(Locked(s, mine.entry.control, p), p, MatchList(mine, mine))
  {
    var mine := s.users[s.calls[p].user];
    var t := Locked(s, mine.entry.control, p);
    AtAgain(t, p, MatchLock(mine), MatchReload(mine));
    AtAgain(t, p, MatchReload(mine), MatchList(mine, mine));
    ThreeAdvances(s, p, At(s, p, MatchLock(mine)), At(t, p, MatchReload(mine)), At(t, p, MatchList(mine, mine)));
    hide AfterAdvances;
  }

  lemma ReleasesLast(s: State, p: nat, first: Ticket)
    requires p < |s.calls| && first.entry.control in s.locks && s.locks[first.entry.control] == p
    ensures AfterAdvances(At(s, p, MatchRelease(first)), p, 1)
         == At(s.(locks := s.locks - {first.entry.control}), p, Done)
  {
    AdvancesOne(At(s, p, MatchRelease(first)), p);
    AtAgain(s.(locks := s.locks - {first.entry.control}), p, MatchRelease(first), Done);
    hide AfterAdvances;
  }

  ghost function Deleted(s: State, p: nat, mine: Ticket, o: Ticket): State
    requires p < |s.calls|
  {
    var u := s.calls[p].user;
    Drop(s, mine.entry.control, {u, o.user}).(users := s.users - {u, o.user}, pairs := s.pairs + [Pair(mine, o)])
  }

  lemma DequeueStep(s: State, p: nat, mine: Ticket, o: Ticket)
    requires p < |s.calls|
    ensures var now, gone := At(s, p, MatchDequeue(mine, mine, o)), {s.calls[p].user, o.user};
            && |now.calls| == |s.calls| && |Drop(s, mine.entry.control, gone).calls| == |s.calls|
            && Advance(now, p) == At(Drop(s, mine.entry.control, gone), p, MatchDelete(mine, mine, o))
  {
    var gone := {s.calls[p].user, o.user};
    DropAt(s, p, MatchDequeue(mine, mine, o), mine.entry.control, gone);
    AtAgain(Drop(s, mine.entry.control, gone), p, MatchDequeue(mine, mine, o), MatchDelete(mine, mine, o));
  }

  lemma DeleteStep(s: State, p: nat, mine: Ticket, o: Ticket)
    requires p < |s.calls|
    ensures var dropped := Drop(s, mine.entry.control, {s.calls[p].user, o.user});
            && |dropped.calls| == |s.calls| && |At(dropped, p, MatchDelete(mine, mine, o)).calls| == |s.calls|
            && |Deleted(s, p, mine, o).calls| == |s.calls|
            && Advance(At(dropped, p, MatchDelete(mine, mine, o)), p)
               == At(Deleted(s, p, mine, o), p, MatchRelease(mine))
  {
    AtAgain(Deleted(s, p, mine, o), p, MatchDelete(mine, mine, o), MatchRelease(mine));
  }

  lemma ReleaseStep(s: State, p: nat, first: Ticket)
    requires p < |s.calls| && first.entry.control in s.locks && s.locks[first.entry.control] == p
    ensures var now := At(s, p, MatchRelease(first));
            && |now.calls| == |s.calls|
            && Advance(now, p) == At(s.(locks := s.locks - {first.entry.control}), p, Done)
  {
    AtAgain(s.(locks := s.locks - {first.entry.control}), p, MatchRelease(first), Done);
  }

  /** The commands that pair: out of the set, out of the hashes, and the lock freed. */
  lemma PairsLast(s: State, p: nat, mine: Ticket, o: Ticket)
    requires p < |s.calls| && mine.entry.control in s.locks && s.locks[mine.entry.control] == p
    ensures |Deleted(s, p, mine, o).calls| == |s.calls|
    ensures AfterAdvances(At(s, p, MatchDequeue(mine, mine, o)), p, 3)
         == At(Deleted(s, p, mine, o).(locks := s.locks - {mine.entry.control}), p, Done)
  {
    var dropped := Drop(s, mine.entry.control, {s.calls[p].user, o.user});
    var deleted := Deleted(s, p, mine, o);
    assert deleted.locks == s.locks;
    DequeueStep(s, p, mine, o);
    DeleteStep(s, p, mine, o);
    hide Advance, AfterAdvances, Drop, At, Deleted;
    ReleaseStep(deleted, p, mine);
    ThreeAdvances(At(s, p, MatchDequeue(mine, mine, o)), p, At(dropped, p, MatchDelete(mine, mine, o)),
                  At(deleted, p, MatchRelease(mine)), At(deleted.(locks := s.locks - {mine.entry.control}), p, Done));
  }

  lemma LockedIsSame(s: State, p: nat, control: string, pc: Pc, gone: set<UserId>)
    requires p < |s.calls| && control !in s.locks
    ensures StoreOf(At(Locked(s, control, p), p, pc)) == StoreOf(s)
    ensures DeadIn(At(Locked(s, control, p), p, pc), control) == DeadIn(s, control)
    ensures Drop(At(Locked(s, control, p), p, pc), control, gone)
            == At(Locked(Drop(s, control, gone), control, p), p, pc)
    ensures Locked(s, control, p).locks - {control} == s.locks
    ensures Drop(s, control, gone).locks == s.locks && Drop(s, control, gone).users == s.users
  {
  }

  lemma SearchOfStore(s: State, p: nat, coin: bool)
    requires p < |s.calls| && s.calls[p].user in s.users && OwnHashes(s)
    ensures var u := s.calls[p].user;
            StoreOf(AfterSearch(s, p, Chosen(s, u))) == MatchQueue.TryMatch(StoreOf(s), 0, u, coin).0
  {
    var u := s.calls[p].user;
    var control := s.users[u].entry.control;
    var st, dead := StoreOf(s), DeadIn(s, control);
    var swept := Drop(s, control, dead);
    assert MatchQueue.Members(st, 0, control) == GetOr(s.queues, control, map[]);
    assert (set c | c in MatchQueue.Members(st, 0, control) && !MatchQueue.Live(st, 0, c)) == dead;
    DropsLikeZRem(s, control, dead);
    assert MatchQueue.Pruned(st, 0, control) == StoreOf(swept);
    match Chosen(s, u)
    case None =>
      StoreOfAt(swept, p, Done);
      hide StoreOf, MatchQueue.ZRem, MatchQueue.BestMatch, Drop, DeadIn, At;
    case Some(o) =>
      var paired := Drop(swept, control, {u, o.user});
      DropsLikeZRem(swept, control, {u, o.user});
      assert paired.users == s.users && paired.locks == s.locks;
      StoreWithout(paired, {u, o.user}, s.locks, s.pairs + [Pair(s.users[u], o)]);
      StoreOfAt(paired.(users := s.users - {u, o.user}, pairs := s.pairs + [Pair(s.users[u], o)]), p, Done);
      assert MatchQueue.BestMatch(st, 0, u) == Some(o.user);
      hide StoreOf, MatchQueue.ZRem, MatchQueue.BestMatch, Drop, DeadIn, At;
  }

  function Verdict(s: State, u: UserId): Pc
    requires u in s.users
  {
    match Chosen(s, u) case None => MatchRelease(s.users[u]) case Some(o) => MatchDequeue(s.users[u], s.users[u], o)
  }

  lemma OutcomeOf(s: State, begun: State, u: UserId)
    requires u in s.users && begun.users == s.users && StoreOf(begun) == StoreOf(s) && s.users[u].user == u
    ensures Outcome(begun, s.users[u], s.users[u]) == Verdict(s, u)
  {
    hide StoreOf, MatchQueue.BestMatch;
  }

  /** Where the search is once it has chosen: the lock taken, the dead members out of the set. */
  ghost function Decided(s: State, p: nat): State
    requires p < |s.calls| && s.calls[p].user in s.users
  {
    var mine := s.users[s.calls[p].user];
    var control := mine.entry.control;
    At(Locked(Drop(s, control, DeadIn(s, control)), control, p), p,
       Verdict(s, s.calls[p].user))
  }

  lemma Begins(s: State, p: nat, control: string, pc: Pc)
    requires p < |s.calls| && control !in s.locks && OwnHashes(s)
    ensures var begun, gone := At(Locked(s, control, p), p, pc), DeadIn(s, control);
            && |begun.calls| == |s.calls| && begun.calls[p] == Call(s.calls[p].user, pc)
            && begun.users == s.users && OwnHashes(begun) && StoreOf(begun) == StoreOf(s)
            && Drop(begun, control, DeadIn(begun, control)) == At(Locked(Drop(s, control, gone), control, p), p, pc)
  {
    LockedIsSame(s, p, control, pc, DeadIn(s, control));
    hide StoreOf, Drop, DeadIn;
  }

  lemma LockedCalls(s: State, control: string, p: nat)
    ensures Locked(s, control, p).calls == s.calls
  {
  }

  lemma DecidedIs(s: State, p: nat)
    requires p < |s.calls| && s.calls[p].user in s.users
    ensures var control := s.users[s.calls[p].user].entry.control;
            && |Locked(Drop(s, control, DeadIn(s, control)), control, p).calls| == |s.calls|
            && Decided(s, p) == At(Locked(Drop(s, control, DeadIn(s, control)), control, p), p,
               Verdict(s, s.calls[p].user))
  {
    hide DeadIn, Verdict;
  }

  lemma SweptCalls(s: State, p: nat, control: string)
    ensures Locked(Drop(s, control, DeadIn(s, control)), control, p).calls == s.calls
  {
  }

  lemma Decides(s: State, p: nat, mine: Ticket) returns (n: nat)
    requires p < |s.calls| && s.calls[p] == Call(mine.user, MatchLoad) && OwnHashes(s)
    requires mine.user in s.users && s.users[mine.user] == mine && mine.entry.control !in s.locks
    ensures AfterAdvances(s, p, n) == Decided(s, p)
  {
    hide *;
    var control := mine.entry.control;
    LockedCalls(s, control, p);
    var list := MatchList(mine, mine);
    var begun := At(Locked(s, control, p), p, list);
    var swept := Locked(Drop(s, control, DeadIn(s, control)), control, p);
    assert AfterAdvances(s, p, 3) == begun by { LocksFirst(s, p); }
    Begins(s, p, control, list);
    assert |swept.calls| == |s.calls| by { SweptCalls(s, p, control); }
    var m := SearchChoosesBestMatch(begun, p, mine, mine);
    var verdict := Verdict(s, mine.user);
    assert Outcome(begun, mine, mine) == verdict by { OutcomeOf(s, begun, mine.user); }
    AtAgain(swept, p, list, verdict);
    assert Decided(s, p) == At(swept, p, verdict) by { DecidedIs(s, p); }
    n := 3 + m;
    AdvancesAdd(s, p, 3, m);
  }

  lemma DropLocked(s: State, control: string, p: nat, gone: set<UserId>)
    ensures Drop(Locked(s, control, p), control, gone) == Locked(Drop(s, control, gone), control, p)
  {
  }

  lemma Concludes(s: State, p: nat) returns (k: nat)
    requires p < |s.calls| && s.calls[p].user in s.users && OwnHashes(s)
    requires s.users[s.calls[p].user].entry.control !in s.locks
    ensures AfterAdvances(Decided(s, p), p, k) == AfterSearch(s, p, Chosen(s, s.calls[p].user))
  {
    var u := s.calls[p].user;
    var mine := s.users[u];
    var control := mine.entry.control;
    var swept := Drop(s, control, DeadIn(s, control));
    var locked := Locked(swept, control, p);
    LockedIsSame(s, p, control, MatchLoad, DeadIn(s, control));
    assert locked.calls == s.calls && locked.locks - {control} == s.locks && locked.users == s.users;
    match Chosen(s, u)
    case None =>
      ReleasesLast(locked, p, mine);
      assert locked.(locks := locked.locks - {control}) == swept;
      k := 1;
      hide StoreOf, AfterAdvances, DeadIn, Drop, At, Chosen;
    case Some(o) =>
      PairsLast(locked, p, mine, o);
      DropLocked(swept, control, p, {u, o.user});
      k := 3;
      hide StoreOf, AfterAdvances, DeadIn, Drop, At, Chosen;
  }

  lemma OwnTicket(s: State, p: nat) returns (mine: Ticket)
    requires p < |s.calls| && s.calls[p].pc == MatchLoad && s.calls[p].user in s.users && OwnHashes(s)
    ensures mine == s.users[s.calls[p].user] && s.calls[p] == Call(mine.user, MatchLoad)
  {
    mine := s.users[s.calls[p].user];
  }

  /** A search left alone pairs whom the atomic search pairs, and leaves the hashes and sets that it leaves, with the
      lock free again. */
  lemma MatchAlone(s: State, p: nat, coin: bool) returns (n: nat)
    requires p < |s.calls| && s.calls[p].pc == MatchLoad && s.calls[p].user in s.users && OwnHashes(s)
    requires s.users[s.calls[p].user].entry.control !in s.locks
    ensures var u, t := s.calls[p].user, AfterAdvances(s, p, n);
            && t == AfterSearch(s, p, Chosen(s, u))
            && StoreOf(t) == MatchQueue.TryMatch(StoreOf(s), 0, u, coin).0
  {
    hide *;
    var mine := OwnTicket(s, p);
    var m := Decides(s, p, mine);
    var k := Concludes(s, p);
    n := m + k;
    AdvancesAdd(s, p, m, k);
    SearchOfStore(s, p, coin);
  }

  /** A search of somebody without a hash, or while the lock of the time control is taken, ends with nothing changed. */
  lemma MatchGivesUp(s: State, p: nat)
    requires p < |s.calls| && s.calls[p].pc == MatchLoad
    requires s.calls[p].user in s.users ==> s.users[s.calls[p].user].entry.control in s.locks
    ensures AfterAdvances(s, p, 2) == At(s, p, Done)
  {
    AdvancesOne(s, p);
    AdvancesAdd(s, p, 1, 1);
    if s.calls[p].user in s.users {
      var lock := MatchLock(s.users[s.calls[p].user]);
      AdvancesOne(At(s, p, lock), p);
      AtAgain(s, p, lock, Done);
    } else {
      AdvancesOne(At(s, p, Done), p);
    }
    hide AfterAdvances;
  }
}
