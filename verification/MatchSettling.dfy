/** When overlapping searches settle the queue after all: if no search is refused its lock, and nobody leaves and
    nothing but locks expires, then once every call has returned no two users who have been searched for could be
    paired. */
module MatchSettling {
  import opened Common
  import MatchQueue
  import opened MatchInterleaving

  type UserId = MatchQueue.UserId

  // ---------------------------------------------------------------- what is asked of a run

  /** Nobody leaves, no hash and no sorted set expires, and no search finds its lock taken. */
  predicate Unhindered(s: State, e: Event)
  {
    match e
    case LeaveCalled(_) => false
    case HashExpired(_) => false
    case QueueExpired(_) => false
    case Advanced(p) => p < |s.calls| && s.calls[p].pc.MatchLock? ==> s.calls[p].pc.first.entry.control !in s.locks
    case _ => true
  }

  predicate UnhinderedRun(events: seq<Event>)
  {
    events == [] ||
    var n := |events| - 1;
    UnhinderedRun(events[..n]) && Unhindered(Run(Empty(), events[..n]), events[n])
  }

  /** The users in `owing` once `e` has happened in `s`: a hash written puts its user in, a search called takes its
      user out. */
  function OwingAfter(s: State, e: Event, owing: set<UserId>): set<UserId>
  {
    match e
    case MatchCalled(u) => owing - {u}
    case Advanced(p) => if p < |s.calls| && s.calls[p].pc.JoinWrite? then owing + {s.calls[p].user} else owing
    case _ => owing
  }

  /** The users who have joined and for whom no search has been called since. */
  function Owing(events: seq<Event>): set<UserId>
  {
    if events == [] then {}
    else
      var n := |events| - 1;
      OwingAfter(Run(Empty(), events[..n]), events[n], Owing(events[..n]))
  }

  // ---------------------------------------------------------------- sorted sets and hashes agree

  ghost predicate InSet(s: State, t: Ticket) { t.entry.control in s.queues && t.user in s.queues[t.entry.control] }

  ghost predicate Live(s: State, t: Ticket) { t.user in s.users && s.users[t.user] == t }

  ghost predicate Queued(s: State, t: Ticket) { Live(s, t) && InSet(s, t) }

  /** The members of a sorted set have a hash for its time control. */
  ghost predicate MembersLive(s: State)
  {
    forall control, u | control in s.queues && u in s.queues[control] ::
      u in s.users && s.users[u].entry.control == control
  }

  ghost predicate Joining(s: State, u: UserId)
  {
    exists p | 0 <= p < |s.calls| :: s.calls[p].user == u && s.calls[p].pc.JoinEnqueue?
  }

  ghost predicate Carries(pc: Pc, t: Ticket) { pc.MatchDelete? && (pc.mine == t || pc.other == t) }

  ghost predicate Carried(s: State, t: Ticket) { exists p | 0 <= p < |s.calls| :: Carries(s.calls[p].pc, t) }

  /** A live ticket is in its set, unless its own join is about to put it there or a pairing call has taken it out. */
  ghost predicate UsersQueued(s: State)
  {
    forall u | u in s.users :: InSet(s, s.users[u]) || Joining(s, u) || Carried(s, s.users[u])
  }

  ghost predicate Listed(s: State, mine: Ticket, rest: seq<UserId>)
  {
    forall v | v in rest :: mine.entry.control in s.queues && v in s.queues[mine.entry.control]
  }

  /** What a call carries is still live and, until the call takes it out, still in its sorted set. */
  ghost predicate Steady(s: State, c: Call)
  {
    match c.pc
    case JoinWrite(_) => c.user !in s.users
    case JoinEnqueue(e) => c.user in s.users && s.users[c.user].entry == e && !InSet(s, s.users[c.user])
    case LeaveLoad => false
    case LeaveDequeue(_) => false
    case LeaveDelete => false
    case MatchList(_, mine) => Queued(s, mine)
    case MatchNext(_, mine, rest, best) =>
      Queued(s, mine) && Listed(s, mine, rest) && (best.Some? ==> Queued(s, best.value.ticket))
    case MatchDrop(_, _, _, _) => false
    case MatchSince(_, mine, rest, best, other) =>
      && Queued(s, mine) && Listed(s, mine, rest) && (best.Some? ==> Queued(s, best.value.ticket))
      && Queued(s, other) && rest != [] && rest[0] == other.user
    case MatchDequeue(_, mine, other) => Queued(s, mine) && Queued(s, other)
    case MatchDelete(_, mine, other) =>
      Live(s, mine) && Live(s, other) && !InSet(s, mine) && !InSet(s, other) && !Joining(s, other.user)
    case _ => true
  }

  ghost predicate AllSteady(s: State) { forall p | 0 <= p < |s.calls| :: Steady(s, s.calls[p]) }

  ghost predicate Orderly(s: State) { MembersLive(s) && UsersQueued(s) && AllSteady(s) }

  // ---------------------------------------------------------------- every unhindered step keeps that

  /** Two critical sections are of different time controls. */
  lemma Exclusive(s: State, p: nat, q: nat)
    requires Inv(s) && p < |s.calls| && q < |s.calls| && p != q && Critical(s.calls[p].pc)
    ensures Critical(s.calls[q].pc) ==> s.calls[p].pc.first.entry.control != s.calls[q].pc.first.entry.control
  {
    hide HashesOk, CallsOk, SingleFlight, PairsOk;
    assert Holds(s, p, s.calls[p].pc.first.entry.control);
    assert Critical(s.calls[q].pc) ==> Holds(s, q, s.calls[q].pc.first.entry.control);
  }

  /** A user with a request in flight has no other. */
  lemma OneRequest(s: State, p: nat, q: nat)
    requires Inv(s) && p < |s.calls| && q < |s.calls| && p != q && !s.calls[p].pc.Done?
    ensures s.calls[q].user == s.calls[p].user ==> s.calls[q].pc.Done?
  {
    hide HashesOk, CallsOk, LocksHeld, PairsOk;
  }

  /** The other calls join and pair as they did. */
  lemma OthersKept(s: State, t: State, p: nat)
    requires MovesOnly(s, t, p)
    ensures forall u | Joining(s, u) && (p < |s.calls| ==> s.calls[p].user != u || !s.calls[p].pc.JoinEnqueue?) ::
            Joining(t, u)
    ensures forall u | Joining(t, u) && (p < |s.calls| ==> t.calls[p].user != u || !t.calls[p].pc.JoinEnqueue?) ::
            Joining(s, u)
    ensures forall x | Carried(s, x) && (p < |s.calls| ==> !Carries(s.calls[p].pc, x)) :: Carried(t, x)
  {
    forall u | Joining(s, u) && (p < |s.calls| ==> s.calls[p].user != u || !s.calls[p].pc.JoinEnqueue?)
      ensures Joining(t, u)
    {
      var q :| 0 <= q < |s.calls| && s.calls[q].user == u && s.calls[q].pc.JoinEnqueue?;
      assert t.calls[q] == s.calls[q];
    }
    forall u | Joining(t, u) && (p < |s.calls| ==> t.calls[p].user != u || !t.calls[p].pc.JoinEnqueue?)
      ensures Joining(s, u)
    {
      var q :| 0 <= q < |t.calls| && t.calls[q].user == u && t.calls[q].pc.JoinEnqueue?;
      assert t.calls[q] == s.calls[q];
    }
    forall x | Carried(s, x) && (p < |s.calls| ==> !Carries(s.calls[p].pc, x)) ensures Carried(t, x) {
      var q :| 0 <= q < |s.calls| && Carries(s.calls[q].pc, x);
      assert t.calls[q] == s.calls[q];
    }
  }

  /** A command of call `p` that changes neither hashes nor sorted sets. */
  lemma MoveOrderly(s: State, t: State, p: nat, pc: Pc)
    requires Orderly(s) && p < |s.calls| && t.users == s.users && t.queues == s.queues
    requires t.calls == s.calls[p := s.calls[p].(pc := pc)]
    requires !pc.JoinEnqueue? && !pc.MatchDelete? && !s.calls[p].pc.JoinEnqueue? && !s.calls[p].pc.MatchDelete?
    requires Steady(s, s.calls[p].(pc := pc))
    ensures Orderly(t)
  {
    OthersKept(s, t, p);
    hide Joining, Carried;
    forall q | 0 <= q < |t.calls| ensures Steady(t, t.calls[q]) {
      assert Steady(s, s.calls[q]);
    }
  }

  /** Hashes and members of one time control are still there. */
  ghost predicate KeepsControl(s: State, t: State, control: string)
  {
    && (forall u | u in s.users && s.users[u].entry.control == control :: u in t.users && t.users[u] == s.users[u])
    && (control in s.queues ==> control in t.queues && s.queues[control].Keys <= t.queues[control].Keys)
  }

  /** A call stays steady while its time control is kept, its own join undisturbed, and what it has taken out stays
      out. */
  lemma SteadyKept(s: State, t: State, c: Call)
    requires Steady(s, c) && CallOk(s, c)
    requires Critical(c.pc) ==> KeepsControl(s, t, c.pc.first.entry.control)
    requires c.pc.MatchDelete? ==>
               (InSet(t, c.pc.mine) ==> InSet(s, c.pc.mine)) && (InSet(t, c.pc.other) ==> InSet(s, c.pc.other))
               && (Joining(t, c.pc.other.user) ==> Joining(s, c.pc.other.user))
    requires c.pc.JoinWrite? ==> c.user !in t.users
    requires c.pc.JoinEnqueue? ==>
               c.user in t.users && t.users[c.user] == s.users[c.user]
               && (InSet(t, s.users[c.user]) ==> InSet(s, s.users[c.user]))
    ensures Steady(t, c)
  {
    hide Joining, Tickets;
  }

  /** A search's sorted set and hashes are those of the time control of its lock. */
  lemma NoJoinOfOther(s: State, p: nat, q: nat)
    requires AllSteady(s) && p < |s.calls| && q < |s.calls| && s.calls[p].pc.MatchDelete? && s.calls[q].pc.JoinEnqueue?
    ensures s.calls[p].pc.other.user != s.calls[q].user
  {
    assert Steady(s, s.calls[p]);
    assert Joining(s, s.calls[q].user);
    hide InSet, Live;
  }

  lemma QueuedNotJoining(s: State, x: Ticket, q: nat)
    requires AllSteady(s) && Queued(s, x) && q < |s.calls| && s.calls[q].pc.JoinEnqueue?
    ensures s.calls[q].user != x.user
  {
    assert Steady(s, s.calls[q]);
  }

  /** What every other call keeps makes every call steady, with the one that moved. */
  lemma AllSteadyAfter(s: State, t: State, p: nat)
    requires p < |s.calls| && MovesOnly(s, t, p) && Steady(t, t.calls[p])
    requires forall q | 0 <= q < |s.calls| && q != p :: Steady(t, s.calls[q])
    ensures AllSteady(t)
  {
    hide Steady;
  }

  lemma JoinWriteSpares(s: State, p: nat, q: nat)
    requires Inv(s) && AllSteady(s) && p < |s.calls| && q < |s.calls| && p != q && s.calls[p].pc.JoinWrite?
    ensures Steady(AdvanceJoin(s, p), s.calls[q])
  {
    var t, u := AdvanceJoin(s, p), s.calls[p].user;
    assert Steady(s, s.calls[p]) && Steady(s, s.calls[q]) && CallOk(s, s.calls[q]);
    OneRequest(s, p, q);
    JoinFrame(s, p);
    OthersKept(s, t, p);
    if s.calls[q].pc.MatchDelete? { assert s.calls[q].pc.other.user != u; }
    if s.calls[q].pc.JoinEnqueue? || s.calls[q].pc.JoinWrite? { assert s.calls[q].user != u; }
    assert forall control :: KeepsControl(s, t, control);
    assert forall x :: InSet(t, x) == InSet(s, x);
    assert forall v | v != u :: (v in t.users <==> v in s.users) && (v in s.users ==> t.users[v] == s.users[v]);
    hide Inv, AllSteady, CallOk, InSet, KeepsControl, AdvanceJoin, Joining, Carried, MovesOnly;
    SteadyKept(s, t, s.calls[q]);
  }

  lemma WriteSets(s: State, t: State, u: UserId)
    requires MembersLive(s) && UsersQueued(s) && u !in s.users && u in t.users
    requires t.users == s.users[u := t.users[u]] && t.queues == s.queues
    requires Joining(t, u) && (forall v | Joining(s, v) :: Joining(t, v)) && forall x | Carried(s, x) :: Carried(t, x)
    ensures MembersLive(t) && UsersQueued(t) && (t.users[u].user == u ==> !InSet(t, t.users[u]))
  {
    hide Joining, Carried;
    forall v | v in t.users ensures InSet(t, t.users[v]) || Joining(t, v) || Carried(t, t.users[v]) {
      if v != u { assert InSet(s, s.users[v]) || Joining(s, v) || Carried(s, s.users[v]); }
    }
  }

  lemma JoiningAt(s: State, q: nat)
    requires q < |s.calls| && s.calls[q].pc.JoinEnqueue?
    ensures Joining(s, s.calls[q].user)
  {
  }

  lemma JoinWriteSets(s: State, p: nat)
    requires Orderly(s) && p < |s.calls| && s.calls[p].pc.JoinWrite?
    ensures var t := AdvanceJoin(s, p);
            MembersLive(t) && UsersQueued(t) && p < |t.calls| && Steady(t, t.calls[p])
  {
    var t, u := AdvanceJoin(s, p), s.calls[p].user;
    assert Steady(s, s.calls[p]);
    JoinFrame(s, p);
    JoiningAt(t, p);
    OthersKept(s, t, p);
    assert t.users == s.users[u := t.users[u]] && t.queues == s.queues && t.users[u].user == u;
    assert t.calls[p] == Call(u, JoinEnqueue(t.users[u].entry));
    hide Joining, Carried, AllSteady, MembersLive, UsersQueued, AdvanceJoin, MovesOnly, InSet;
    WriteSets(s, t, u);
  }

  lemma JoinWriteOrderly(s: State, p: nat)
    requires Inv(s) && Orderly(s) && p < |s.calls| && s.calls[p].pc.JoinWrite?
    ensures Orderly(AdvanceJoin(s, p))
  {
    JoinWriteSets(s, p);
    JoinFrame(s, p);
    hide Inv, MembersLive, UsersQueued, AllSteady, AdvanceJoin, Steady, MovesOnly;
    forall q | 0 <= q < |s.calls| && q != p ensures Steady(AdvanceJoin(s, p), s.calls[q]) { JoinWriteSpares(s, p, q); }
    AllSteadyAfter(s, AdvanceJoin(s, p), p);
  }

  lemma JoinEnqueueSpares(s: State, p: nat, q: nat)
    requires Inv(s) && AllSteady(s) && p < |s.calls| && q < |s.calls| && p != q && s.calls[p].pc.JoinEnqueue?
    ensures Steady(AdvanceJoin(s, p), s.calls[q])
  {
    var t, u := AdvanceJoin(s, p), s.calls[p].user;
    assert Steady(s, s.calls[q]) && CallOk(s, s.calls[q]);
    OneRequest(s, p, q);
    JoinFrame(s, p);
    OthersKept(s, t, p);
    if s.calls[q].pc.MatchDelete? {
      NoJoinOfOther(s, q, p);
      assert s.calls[q].pc.mine.user != u;
    }
    if s.calls[q].pc.JoinEnqueue? {
      assert s.calls[q].user != u && s.users[s.calls[q].user].user != u;
    }
    assert t.users == s.users;
    assert forall control :: KeepsControl(s, t, control);
    assert forall x | InSet(t, x) && x.user != u :: InSet(s, x);
    hide Inv, AllSteady, CallOk, InSet, KeepsControl, AdvanceJoin, Joining, Carried, MovesOnly;
    SteadyKept(s, t, s.calls[q]);
  }

  lemma AddSets(s: State, t: State, u: UserId)
    requires MembersLive(s) && UsersQueued(s) && u in s.users && s.users[u].user == u
    requires var e := s.users[u].entry;
             t.users == s.users && t.queues == s.queues[e.control := GetOr(s.queues, e.control, map[])[u := e.joinedAt]]
    requires forall v | Joining(s, v) && v != u :: Joining(t, v)
    requires forall x | Carried(s, x) :: Carried(t, x)
    ensures MembersLive(t) && UsersQueued(t)
  {
    hide Joining, Carried;
    forall v | v in t.users ensures InSet(t, t.users[v]) || Joining(t, v) || Carried(t, t.users[v]) {
      assert InSet(s, s.users[v]) || Joining(s, v) || Carried(s, s.users[v]);
      assert InSet(s, s.users[v]) ==> InSet(t, t.users[v]);
    }
  }

  lemma JoinEnqueueSets(s: State, p: nat)
    requires HashesOk(s) && Orderly(s) && p < |s.calls| && s.calls[p].pc.JoinEnqueue?
    ensures var t := AdvanceJoin(s, p);
            MembersLive(t) && UsersQueued(t) && p < |t.calls| && Steady(t, t.calls[p])
  {
    var t, u := AdvanceJoin(s, p), s.calls[p].user;
    assert Steady(s, s.calls[p]);
    JoinFrame(s, p);
    OthersKept(s, t, p);
    var e := s.users[u].entry;
    assert t.users == s.users && t.queues == s.queues[e.control := GetOr(s.queues, e.control, map[])[u := e.joinedAt]];
    assert s.users[u].user == u && t.calls[p].pc.Done? && Steady(t, t.calls[p]);
    hide Joining, Carried, AllSteady, Open, Steady, MembersLive, UsersQueued, AdvanceJoin, MovesOnly, HashesOk;
    AddSets(s, t, u);
  }

  lemma JoinEnqueueOrderly(s: State, p: nat)
    requires Inv(s) && Orderly(s) && p < |s.calls| && s.calls[p].pc.JoinEnqueue?
    ensures Orderly(AdvanceJoin(s, p))
  {
    JoinEnqueueSets(s, p);
    JoinFrame(s, p);
    hide Inv, MembersLive, UsersQueued, AllSteady, AdvanceJoin, Steady, MovesOnly;
    forall q | 0 <= q < |s.calls| && q != p ensures Steady(AdvanceJoin(s, p), s.calls[q]) {
      JoinEnqueueSpares(s, p, q);
    }
    AllSteadyAfter(s, AdvanceJoin(s, p), p);
  }

  lemma DequeueSpares(s: State, p: nat, q: nat)
    requires Inv(s) && AllSteady(s) && p < |s.calls| && q < |s.calls| && p != q && s.calls[p].pc.MatchDequeue?
    ensures Steady(AdvanceMatch(s, p), s.calls[q])
  {
    var t, control := AdvanceMatch(s, p), s.calls[p].pc.mine.entry.control;
    assert Steady(s, s.calls[q]) && CallOk(s, s.calls[q]) && CallOk(s, s.calls[p]);
    Exclusive(s, p, q);
    MatchFrame(s, p);
    OthersKept(s, t, p);
    assert t.users == s.users;
    assert forall x | InSet(t, x) :: InSet(s, x);
    assert forall c | c != control :: KeepsControl(s, t, c);
    hide Inv, AllSteady, CallOk, InSet, KeepsControl, AdvanceMatch, Joining, Carried, MovesOnly;
    SteadyKept(s, t, s.calls[q]);
  }

  /** What a pairing call is about to take out of its sorted set. */
  lemma DequeueFacts(s: State, p: nat)
    requires Inv(s) && AllSteady(s) && p < |s.calls| && s.calls[p].pc.MatchDequeue?
    ensures var t, pc := AdvanceMatch(s, p), s.calls[p].pc;
            && t == At(Drop(s, pc.mine.entry.control, {pc.mine.user, pc.other.user}), p,
               MatchDelete(pc.first, pc.mine, pc.other))
            && Queued(s, pc.mine) && Queued(s, pc.other) && pc.other.entry.control == pc.mine.entry.control
            && !Joining(s, pc.other.user)
  {
    var pc := s.calls[p].pc;
    assert Steady(s, s.calls[p]) && CallOk(s, s.calls[p]);
    hide Inv;
    if Joining(s, pc.other.user) {
      var q :| 0 <= q < |s.calls| && s.calls[q].user == pc.other.user && s.calls[q].pc.JoinEnqueue?;
      QueuedNotJoining(s, pc.other, q);
    }
  }

  lemma DropSets(s: State, t: State, control: string, mine: Ticket, other: Ticket)
    requires MembersLive(s) && UsersQueued(s) && HashesOk(s) && Live(s, mine) && Live(s, other)
    requires mine.entry.control == control && other.entry.control == control
    requires t.users == s.users && t.queues == Drop(s, control, {mine.user, other.user}).queues
    requires forall u | Joining(s, u) :: Joining(t, u)
    requires forall x | Carried(s, x) || x == mine || x == other :: Carried(t, x)
    ensures MembersLive(t) && UsersQueued(t) && !InSet(t, mine) && !InSet(t, other)
  {
    hide Joining, Carried, Open;
    forall u | u in t.users ensures InSet(t, t.users[u]) || Joining(t, u) || Carried(t, t.users[u]) {
      assert InSet(s, s.users[u]) || Joining(s, u) || Carried(s, s.users[u]);
    }
  }

  lemma LiveStays(s: State, t: State, x: Ticket)
    requires Live(s, x) && t.users == s.users
    ensures Live(t, x)
  {
  }

  lemma SteadyDelete(s: State, c: Call)
    requires c.pc.MatchDelete? && Live(s, c.pc.mine) && Live(s, c.pc.other)
    requires !InSet(s, c.pc.mine) && !InSet(s, c.pc.other) && !Joining(s, c.pc.other.user)
    ensures Steady(s, c)
  {
  }

  lemma CarriedAt(s: State, p: nat)
    requires p < |s.calls| && s.calls[p].pc.MatchDelete?
    ensures Carried(s, s.calls[p].pc.mine) && Carried(s, s.calls[p].pc.other)
  {
    assert Carries(s.calls[p].pc, s.calls[p].pc.mine) && Carries(s.calls[p].pc, s.calls[p].pc.other);
  }

  lemma DequeueSets(s: State, p: nat)
    requires Inv(s) && Orderly(s) && p < |s.calls| && s.calls[p].pc.MatchDequeue?
    ensures var t := AdvanceMatch(s, p); MembersLive(t) && UsersQueued(t) && Steady(t, t.calls[p])
  {
    var t, pc := AdvanceMatch(s, p), s.calls[p].pc;
    DequeueFacts(s, p);
    MatchFrame(s, p);
    OthersKept(s, t, p);
    assert t.users == s.users && t.queues == Drop(s, pc.mine.entry.control, {pc.mine.user, pc.other.user}).queues;
    assert t.calls[p].pc == MatchDelete(pc.first, pc.mine, pc.other);
    CarriedAt(t, p);
    hide Joining, Carried, AllSteady, MembersLive, UsersQueued, AdvanceMatch, MovesOnly, AtWork, InSet, Drop, At;
    hide CallsOk, LocksHeld, SingleFlight, PairsOk, Steady, Live;
    DropSets(s, t, pc.mine.entry.control, pc.mine, pc.other);
    LiveStays(s, t, pc.mine);
    LiveStays(s, t, pc.other);
    SteadyDelete(t, t.calls[p]);
  }

  lemma DequeueOrderly(s: State, p: nat)
    requires Inv(s) && Orderly(s) && p < |s.calls| && s.calls[p].pc.MatchDequeue?
    ensures Orderly(AdvanceMatch(s, p))
  {
    DequeueSets(s, p);
    MatchFrame(s, p);
    hide Inv, MembersLive, UsersQueued, AllSteady, AdvanceMatch, Steady, MovesOnly, AtWork;
    forall q | 0 <= q < |s.calls| && q != p ensures Steady(AdvanceMatch(s, p), s.calls[q]) { DequeueSpares(s, p, q); }
    AllSteadyAfter(s, AdvanceMatch(s, p), p);
  }

  lemma DeleteSpares(s: State, p: nat, q: nat)
    requires Inv(s) && AllSteady(s) && p < |s.calls| && q < |s.calls| && p != q && s.calls[p].pc.MatchDelete?
    ensures Steady(AdvanceMatch(s, p), s.calls[q])
  {
    var t, pc := AdvanceMatch(s, p), s.calls[p].pc;
    assert Steady(s, s.calls[q]) && CallOk(s, s.calls[q]) && Steady(s, s.calls[p]) && CallOk(s, s.calls[p]);
    Exclusive(s, p, q);
    OneRequest(s, p, q);
    MatchFrame(s, p);
    OthersKept(s, t, p);
    if s.calls[q].pc.JoinEnqueue? { NoJoinOfOther(s, p, q); }
    assert t.queues == s.queues && t.users == s.users - {pc.mine.user, pc.other.user};
    assert s.users[pc.mine.user] == pc.mine && s.users[pc.other.user] == pc.other;
    assert forall x :: InSet(t, x) == InSet(s, x);
    assert forall c | c != pc.mine.entry.control :: KeepsControl(s, t, c);
    hide Inv, AllSteady, CallOk, InSet, KeepsControl, AdvanceMatch, Joining, Carried, MovesOnly;
    SteadyKept(s, t, s.calls[q]);
  }

  lemma GoneSets(s: State, t: State, mine: Ticket, other: Ticket)
    requires MembersLive(s) && UsersQueued(s) && HashesOk(s) && Live(s, mine) && Live(s, other)
    requires !InSet(s, mine) && !InSet(s, other)
    requires t.users == s.users - {mine.user, other.user} && t.queues == s.queues
    requires forall u | Joining(s, u) :: Joining(t, u)
    requires forall x | Carried(s, x) && x != mine && x != other :: Carried(t, x)
    ensures MembersLive(t) && UsersQueued(t)
  {
    hide Joining, Carried, Open;
    forall u | u in t.users ensures InSet(t, t.users[u]) || Joining(t, u) || Carried(t, t.users[u]) {
      assert InSet(s, s.users[u]) || Joining(s, u) || Carried(s, s.users[u]);
      assert s.users[u].user == u && s.users[u] != mine && s.users[u] != other;
    }
  }

  lemma DeleteFacts(s: State, p: nat)
    requires Inv(s) && AllSteady(s) && p < |s.calls| && s.calls[p].pc.MatchDelete?
    ensures var t, pc := AdvanceMatch(s, p), s.calls[p].pc;
            && t.users == s.users - {pc.mine.user, pc.other.user} && t.queues == s.queues && |t.calls| == |s.calls|
            && t.calls[p].pc == MatchRelease(pc.first)
            && Live(s, pc.mine) && Live(s, pc.other) && !InSet(s, pc.mine) && !InSet(s, pc.other)
  {
    assert Steady(s, s.calls[p]) && CallOk(s, s.calls[p]);
    hide Inv, Joining;
  }

  lemma EasySteady(s: State, c: Call)
    requires c.pc.MatchLoad? || c.pc.MatchLock? || c.pc.MatchReload? || c.pc.MatchRelease? || c.pc.JoinCheck?
             || c.pc.Done?
    ensures Steady(s, c)
  {
  }

  lemma DeleteSets(s: State, p: nat)
    requires Inv(s) && Orderly(s) && p < |s.calls| && s.calls[p].pc.MatchDelete?
    ensures var t := AdvanceMatch(s, p); MembersLive(t) && UsersQueued(t) && p < |t.calls| && Steady(t, t.calls[p])
  {
    var t, pc := AdvanceMatch(s, p), s.calls[p].pc;
    assert HashesOk(s);
    hide Joining, Carried, AllSteady, MembersLive, UsersQueued, AdvanceMatch, AtWork, InSet, Steady, Live, Inv,
         HashesOk;
    DeleteFacts(s, p);
    MatchFrame(s, p);
    OthersKept(s, t, p);
    hide MovesOnly;
    EasySteady(t, t.calls[p]);
    GoneSets(s, t, pc.mine, pc.other);
  }

  lemma DeleteOrderly(s: State, p: nat)
    requires Inv(s) && Orderly(s) && p < |s.calls| && s.calls[p].pc.MatchDelete?
    ensures Orderly(AdvanceMatch(s, p))
  {
    DeleteSets(s, p);
    MatchFrame(s, p);
    hide Inv, MembersLive, UsersQueued, AllSteady, AdvanceMatch, Steady, MovesOnly, AtWork;
    forall q | 0 <= q < |s.calls| && q != p ensures Steady(AdvanceMatch(s, p), s.calls[q]) { DeleteSpares(s, p, q); }
    AllSteadyAfter(s, AdvanceMatch(s, p), p);
  }

  /** No pairing call carries a ticket of the time control of another critical section. */
  lemma NotCarried(s: State, p: nat, x: Ticket)
    requires Inv(s) && p < |s.calls| && Critical(s.calls[p].pc) && !s.calls[p].pc.MatchDelete?
    requires x.entry.control == s.calls[p].pc.first.entry.control
    ensures !Carried(s, x)
  {
    forall q | 0 <= q < |s.calls| ensures !Carries(s.calls[q].pc, x) {
      assert CallOk(s, s.calls[q]);
      if q != p { Exclusive(s, p, q); }
      hide Inv;
    }
  }

  lemma NotJoining(s: State, p: nat)
    requires Inv(s) && p < |s.calls| && !s.calls[p].pc.JoinEnqueue? && !s.calls[p].pc.Done?
    ensures !Joining(s, s.calls[p].user)
  {
    forall q | 0 <= q < |s.calls| ensures s.calls[q].user != s.calls[p].user || !s.calls[q].pc.JoinEnqueue? {
      if q != p { OneRequest(s, p, q); }
    }
  }

  /** A search that has its lock finds its own ticket in the sorted set. */
  lemma OwnTicketQueued(s: State, p: nat)
    requires Inv(s) && UsersQueued(s) && p < |s.calls| && s.calls[p].pc.MatchReload? && s.calls[p].user in s.users
    ensures Queued(s, s.users[s.calls[p].user])
  {
    assert CallOk(s, s.calls[p]);
    NotJoining(s, p);
    NotCarried(s, p, s.users[s.calls[p].user]);
    hide Joining, Carried, CallsOk, LocksHeld, SingleFlight, PairsOk, Open;
  }

  lemma MatchMoveSteady(s: State, p: nat)
    requires Inv(s) && Orderly(s) && p < |s.calls|
    requires s.calls[p].pc.MatchLoad? || s.calls[p].pc.MatchLock? || s.calls[p].pc.MatchReload?
             || s.calls[p].pc.MatchRelease?
    ensures |AdvanceMatch(s, p).calls| == |s.calls| && Steady(s, AdvanceMatch(s, p).calls[p])
  {
    if s.calls[p].pc.MatchReload? && s.calls[p].user in s.users {
      OwnTicketQueued(s, p);
    } else {
      hide Inv, Orderly, Steady;
      EasySteady(s, AdvanceMatch(s, p).calls[p]);
    }
    hide Inv, Orderly, Queued;
  }

  lemma NextQueued(s: State, p: nat)
    requires Inv(s) && MembersLive(s) && p < |s.calls| && Steady(s, s.calls[p]) && s.calls[p].pc.MatchNext?
             && s.calls[p].pc.rest != []
    ensures var pc := s.calls[p].pc;
            pc.rest[0] in s.users && Queued(s, s.users[pc.rest[0]]) && s.users[pc.rest[0]].user == pc.rest[0]
    ensures Listed(s, s.calls[p].pc.mine, s.calls[p].pc.rest[1..])
  {
    var pc := s.calls[p].pc;
    assert pc.rest[0] in pc.rest;
    assert forall w | w in pc.rest[1..] :: w in pc.rest;
    hide CallsOk, LocksHeld, SingleFlight, PairsOk, Open;
  }

  lemma ListSteady(s: State, p: nat)
    requires p < |s.calls| && s.calls[p].pc.MatchList? && Steady(s, s.calls[p])
    ensures |AdvanceSearch(s, p).calls| == |s.calls| && Steady(s, AdvanceSearch(s, p).calls[p])
  {
    var pc := s.calls[p].pc;
    var listing := MatchQueue.ZRange(GetOr(s.queues, pc.mine.entry.control, map[]));
    MatchQueue.ZRangeMembers(GetOr(s.queues, pc.mine.entry.control, map[]));
    assert Listed(s, pc.mine, listing);
    assert AdvanceSearch(s, p).calls[p] == Call(s.calls[p].user, MatchNext(pc.first, pc.mine, listing, None));
    hide Queued, Listed, MatchQueue.ZRange, GetOr, AdvanceSearch;
  }

  lemma NextSteady(s: State, p: nat)
    requires Inv(s) && MembersLive(s) && p < |s.calls| && s.calls[p].pc.MatchNext? && Steady(s, s.calls[p])
    ensures |AdvanceSearch(s, p).calls| == |s.calls| && Steady(s, AdvanceSearch(s, p).calls[p])
  {
    if s.calls[p].pc.rest != [] { NextQueued(s, p); }
    hide Inv, MembersLive, Queued, Listed, MatchQueue.SameClock;
  }

  lemma SinceSteady(s: State, p: nat)
    requires p < |s.calls| && s.calls[p].pc.MatchSince? && Steady(s, s.calls[p])
    ensures |AdvanceSearch(s, p).calls| == |s.calls| && Steady(s, AdvanceSearch(s, p).calls[p])
  {
    var pc := s.calls[p].pc;
    assert Listed(s, pc.mine, pc.rest[1..]) by { assert forall w | w in pc.rest[1..] :: w in pc.rest; }
    hide Queued, Listed;
  }

  lemma SearchMoveSteady(s: State, p: nat)
    requires Inv(s) && Orderly(s) && p < |s.calls|
    requires s.calls[p].pc.MatchList? || s.calls[p].pc.MatchNext? || s.calls[p].pc.MatchSince?
    ensures |AdvanceSearch(s, p).calls| == |s.calls| && Steady(s, AdvanceSearch(s, p).calls[p])
  {
    assert Steady(s, s.calls[p]);
    hide Inv, AllSteady, UsersQueued, MembersLive, Steady, AdvanceSearch;
    if s.calls[p].pc.MatchList? {
      ListSteady(s, p);
    } else if s.calls[p].pc.MatchNext? {
      NextSteady(s, p);
    } else {
      SinceSteady(s, p);
    }
  }

  /** A command that moves its call on and leaves hashes and sorted sets alone. */
  predicate Quiet(pc: Pc)
  {
    || pc.JoinCheck? || pc.MatchLoad? || pc.MatchLock? || pc.MatchReload? || pc.MatchList? || pc.MatchNext?
    || pc.MatchSince?
    || pc.MatchRelease? || pc.Done?
  }

  lemma QuietAdvance(s: State, p: nat)
    requires p < |s.calls| && Quiet(s.calls[p].pc)
    ensures var t := Advance(s, p);
            && t.users == s.users && t.queues == s.queues && p < |t.calls|
            && t.calls == s.calls[p := s.calls[p].(pc := t.calls[p].pc)]
            && !t.calls[p].pc.JoinEnqueue? && !t.calls[p].pc.MatchDelete?
  {
    assert s.calls[p := s.calls[p]] == s.calls;
    hide MatchQueue.ZRange, MatchQueue.SameClock, Better, GetOr;
  }

  lemma QuietOrderly(s: State, p: nat)
    requires Inv(s) && Orderly(s) && p < |s.calls| && Quiet(s.calls[p].pc)
    ensures Orderly(Advance(s, p))
  {
    QuietAdvance(s, p);
    assert Steady(s, Advance(s, p).calls[p]) by {
      var pc := s.calls[p].pc;
      assert Steady(s, s.calls[p]);
      hide Inv, Orderly, AdvanceMatch, AdvanceSearch;
      if pc.MatchLoad? || pc.MatchLock? || pc.MatchReload? || pc.MatchRelease? {
        MatchMoveSteady(s, p);
      } else if pc.MatchList? || pc.MatchNext? || pc.MatchSince? {
        SearchMoveSteady(s, p);
      }
    }
    hide Inv, Orderly, Advance, Steady;
    MoveOrderly(s, Advance(s, p), p, Advance(s, p).calls[p].pc);
  }

  lemma AdvanceOrderly(s: State, p: nat)
    requires Inv(s) && Orderly(s) && p < |s.calls|
    ensures Orderly(Advance(s, p))
  {
    var pc := s.calls[p].pc;
    assert Steady(s, s.calls[p]);
    hide Inv, Orderly;
    if pc.JoinWrite? {
      JoinWriteOrderly(s, p);
    } else if pc.JoinEnqueue? {
      JoinEnqueueOrderly(s, p);
    } else if pc.MatchDequeue? {
      DequeueOrderly(s, p);
    } else if pc.MatchDelete? {
      DeleteOrderly(s, p);
    } else {
      QuietOrderly(s, p);
    }
  }

  /** Hashes and sorted sets unchanged, joins and pairings as they were, and only easy calls besides the old ones. */
  lemma SameOrder(s: State, t: State)
    requires Orderly(s) && t.users == s.users && t.queues == s.queues && |s.calls| <= |t.calls|
    requires forall q | 0 <= q < |s.calls| :: t.calls[q] == s.calls[q]
    requires forall q | |s.calls| <= q < |t.calls| :: t.calls[q].pc.JoinCheck? || t.calls[q].pc.MatchLoad?
    requires forall u :: Joining(t, u) == Joining(s, u)
    requires forall x | Carried(s, x) :: Carried(t, x)
    ensures Orderly(t)
  {
    hide Joining, Carried;
    forall q | 0 <= q < |t.calls| ensures Steady(t, t.calls[q]) {
      if q < |s.calls| {
        assert Steady(s, s.calls[q]);
        hide AllSteady, UsersQueued, MembersLive;
      } else {
        EasySteady(t, t.calls[q]);
      }
    }
    hide Steady;
  }

  lemma CallOrderly(s: State, c: Call)
    requires Orderly(s) && (c.pc.JoinCheck? || c.pc.MatchLoad?)
    ensures Orderly(s.(calls := s.calls + [c]))
  {
    var t := s.(calls := s.calls + [c]);
    forall u ensures Joining(t, u) == Joining(s, u) {
      if q :| 0 <= q < |s.calls| && s.calls[q].user == u && s.calls[q].pc.JoinEnqueue? {
        assert t.calls[q] == s.calls[q];
      }
    }
    forall x | Carried(s, x) ensures Carried(t, x) {
      var q :| 0 <= q < |s.calls| && Carries(s.calls[q].pc, x);
      assert t.calls[q] == s.calls[q];
    }
    hide Joining, Carried, Orderly;
    SameOrder(s, t);
  }

  lemma LockExpiryOrderly(s: State, control: string)
    requires Orderly(s)
    ensures Orderly(s.(locks := s.locks - {control}))
  {
    var t := s.(locks := s.locks - {control});
    forall u ensures Joining(t, u) == Joining(s, u) {}
    forall x ensures Carried(t, x) == Carried(s, x) {}
    hide Joining, Carried, Orderly;
    SameOrder(s, t);
  }

  lemma StepOrderly(s: State, e: Event)
    requires Inv(s) && Orderly(s) && Unhindered(s, e)
    ensures Orderly(Step(s, e))
  {
    hide Inv, Orderly, Advance;
    match e
    case JoinCalled(u, entry) => CallOrderly(s, Call(u, JoinCheck(entry)));
    case MatchCalled(u) => CallOrderly(s, Call(u, MatchLoad));
    case Advanced(p) =>
      if p < |s.calls| { AdvanceOrderly(s, p); }
    case LockExpired(control) => LockExpiryOrderly(s, control);
  }

  // ---------------------------------------------------------------- who still has to look for whom

  /** The call is still to consider `v`, or is about to pair its own user with somebody. */
  predicate Hopes(pc: Pc, v: UserId)
  {
    match pc
    case MatchLoad => true
    case MatchLock(_) => true
    case MatchReload(_) => true
    case MatchList(_, _) => true
    case MatchNext(_, _, rest, best) => best.Some? || v in rest
    case MatchSince(_, _, rest, best, _) => best.Some? || v in rest
    case MatchDequeue(_, _, _) => true
    case MatchDelete(_, _, _) => true
    case _ => false
  }

  ghost predicate Seeks(s: State, u: UserId, v: UserId)
  {
    exists p | 0 <= p < |s.calls| :: s.calls[p].user == u && Hopes(s.calls[p].pc, v)
  }

  /** Of two users who could be paired, one has still to be searched for, or is being searched for and not past the
      other. */
  ghost predicate Duties(s: State, owing: set<UserId>)
  {
    && (forall p | 0 <= p < |s.calls| && s.calls[p].pc.JoinEnqueue? :: s.calls[p].user in owing)
    && forall u, v | u in s.users && v in s.users && Compatible(s.users[u], s.users[v]) ::
         u in owing || v in owing || Seeks(s, u, v) || Seeks(s, v, u)
  }

  lemma CompatibleBothWays(t: Ticket, o: Ticket)
    ensures Compatible(t, o) == Compatible(o, t)
  {
  }

  /** Moving a call on keeps the duties if the call gives up on nobody its user could be paired with. */
  lemma MoveDuties(s: State, t: State, p: nat, owing: set<UserId>)
    requires Duties(s, owing) && p < |s.calls| && |t.calls| == |s.calls|
    requires forall q | 0 <= q < |s.calls| && q != p :: t.calls[q] == s.calls[q]
    requires t.calls[p].user == s.calls[p].user && !t.calls[p].pc.JoinEnqueue?
    requires forall u | u in t.users :: u in s.users && t.users[u] == s.users[u]
    requires forall v | v in t.users && s.calls[p].user in t.users
             && Compatible(t.users[s.calls[p].user], t.users[v]) ::
               Hopes(s.calls[p].pc, v) ==> Hopes(t.calls[p].pc, v) || v in owing
    ensures Duties(t, owing)
  {
    var me := s.calls[p].user;
    hide Hopes, Compatible;
    forall u, v | u in t.users && v in t.users && Compatible(t.users[u], t.users[v])
      ensures u in owing || v in owing || Seeks(t, u, v) || Seeks(t, v, u)
    {
      CompatibleBothWays(t.users[u], t.users[v]);
      if Seeks(s, u, v) {
        var q :| 0 <= q < |s.calls| && s.calls[q].user == u && Hopes(s.calls[q].pc, v);
        assert q != p ==> t.calls[q] == s.calls[q];
        if q == p && v !in owing { assert t.calls[p].user == u && Hopes(t.calls[p].pc, v); }
      } else if Seeks(s, v, u) {
        var q :| 0 <= q < |s.calls| && s.calls[q].user == v && Hopes(s.calls[q].pc, u);
        assert q != p ==> t.calls[q] == s.calls[q];
        if q == p && u !in owing { assert t.calls[p].user == v && Hopes(t.calls[p].pc, u); }
      }
    }
  }

  /** When a search lists its sorted set, everybody it could pair its user with is there, or has still to be searched
      for. */
  lemma CompanionListed(s: State, p: nat, v: UserId, owing: set<UserId>)
    requires Inv(s) && Orderly(s) && Duties(s, owing) && p < |s.calls| && s.calls[p].pc.MatchList? && v in s.users
    requires MatchQueue.SameClock(s.users[v].entry, s.calls[p].pc.mine.entry) && v != s.calls[p].user
    ensures v in owing || InSet(s, s.users[v])
  {
    assert CallOk(s, s.calls[p]);
    if Joining(s, v) {
      var q :| 0 <= q < |s.calls| && s.calls[q].user == v && s.calls[q].pc.JoinEnqueue?;
      assert v in owing;
    }
    NotCarried(s, p, s.users[v]);
    hide Joining, Carried, Inv, Seeks, Compatible;
  }

  lemma ListHopes(s: State, p: nat, v: UserId, owing: set<UserId>)
    requires Inv(s) && Orderly(s) && Duties(s, owing) && p < |s.calls| && s.calls[p].pc.MatchList?
    requires v in s.users && Compatible(s.calls[p].pc.mine, s.users[v]) && s.calls[p].pc.mine.user == s.calls[p].user
    requires s.users[v].user == v
    ensures |AdvanceSearch(s, p).calls| == |s.calls| && (Hopes(AdvanceSearch(s, p).calls[p].pc, v) || v in owing)
  {
    var pc := s.calls[p].pc;
    CompanionListed(s, p, v, owing);
    MatchQueue.ZRangeMembers(GetOr(s.queues, pc.mine.entry.control, map[]));
    hide Inv, Orderly, Duties, MatchQueue.ZRange;
  }

  lemma NextHopes(s: State, p: nat, v: UserId)
    requires p < |s.calls| && s.calls[p].pc.MatchNext? && Steady(s, s.calls[p]) && MembersLive(s)
    requires v in s.users && Compatible(s.calls[p].pc.mine, s.users[v]) && Hopes(s.calls[p].pc, v)
    requires s.users[v].user == v && s.calls[p].user != v
    ensures |AdvanceSearch(s, p).calls| == |s.calls| && Hopes(AdvanceSearch(s, p).calls[p].pc, v)
  {
    var pc := s.calls[p].pc;
    assert MatchQueue.SameClock(s.users[v].entry, pc.mine.entry);
    if pc.rest != [] {
      assert pc.rest[0] in pc.rest && pc.rest[0] in s.users;
      assert forall w | w in pc.rest :: w == pc.rest[0] || w in pc.rest[1..];
    }
    hide Steady, MembersLive, Compatible, MatchQueue.SameClock;
  }

  lemma SinceHopes(s: State, p: nat, v: UserId)
    requires p < |s.calls| && s.calls[p].pc.MatchSince? && Steady(s, s.calls[p])
    requires v in s.users && Compatible(s.calls[p].pc.mine, s.users[v]) && Hopes(s.calls[p].pc, v)
    ensures |AdvanceSearch(s, p).calls| == |s.calls| && Hopes(AdvanceSearch(s, p).calls[p].pc, v)
  {
    var pc := s.calls[p].pc;
    assert pc.rest != [] && pc.rest[0] == pc.other.user && s.users[pc.other.user] == pc.other;
    assert forall w | w in pc.rest :: w == pc.rest[0] || w in pc.rest[1..];
    hide Steady, MatchQueue.SameClock;
  }

  lemma SearchHopes(s: State, p: nat, v: UserId, owing: set<UserId>)
    requires Inv(s) && Orderly(s) && Duties(s, owing) && p < |s.calls|
    requires s.calls[p].pc.MatchList? || s.calls[p].pc.MatchNext? || s.calls[p].pc.MatchSince?
    requires v in s.users && Compatible(s.calls[p].pc.mine, s.users[v]) && Hopes(s.calls[p].pc, v)
    ensures |AdvanceSearch(s, p).calls| == |s.calls| && (Hopes(AdvanceSearch(s, p).calls[p].pc, v) || v in owing)
  {
    var pc := s.calls[p].pc;
    assert Steady(s, s.calls[p]) && CallOk(s, s.calls[p]);
    assert s.users[v].user == v && pc.mine.user == s.calls[p].user && v != s.calls[p].user;
    hide Inv, AllSteady, UsersQueued, Duties, Compatible, Hopes, AdvanceSearch, CallOk, Steady;
    if pc.MatchList? {
      ListHopes(s, p, v, owing);
    } else if pc.MatchNext? {
      NextHopes(s, p, v);
    } else {
      SinceHopes(s, p, v);
    }
  }

  lemma MatchHopes(s: State, p: nat, v: UserId)
    requires p < |s.calls| && s.calls[p].user in s.users && Unhindered(s, Advanced(p))
    requires !s.calls[p].pc.MatchDelete? && Hopes(s.calls[p].pc, v)
    requires !s.calls[p].pc.MatchList? && !s.calls[p].pc.MatchNext? && !s.calls[p].pc.MatchSince?
    ensures Hopes(AdvanceMatch(s, p).calls[p].pc, v)
  {
  }

  /** A call that moves on still hopes for everybody its user could be paired with. */
  lemma KeepsHoping(s: State, p: nat, v: UserId, owing: set<UserId>)
    requires Inv(s) && Orderly(s) && Duties(s, owing) && Unhindered(s, Advanced(p))
    requires p < |s.calls| && s.calls[p].user in s.users && v in s.users && !s.calls[p].pc.MatchDelete?
    requires Compatible(s.users[s.calls[p].user], s.users[v]) && Hopes(s.calls[p].pc, v)
    ensures p < |Advance(s, p).calls| && (Hopes(Advance(s, p).calls[p].pc, v) || v in owing)
  {
    var pc := s.calls[p].pc;
    AdvanceMovesOne(s, p);
    if pc.MatchList? || pc.MatchNext? || pc.MatchSince? {
      assert pc.mine == s.users[s.calls[p].user] by { assert Steady(s, s.calls[p]) && CallOk(s, s.calls[p]); }
      hide Inv, Orderly, Duties, Compatible, AdvanceSearch, MovesOnly;
      SearchHopes(s, p, v, owing);
    } else {
      hide Inv, Orderly, Duties, Compatible, AdvanceMatch, MovesOnly;
      MatchHopes(s, p, v);
    }
  }

  /** No hash is written, and the call goes on as the same user's. */
  ghost predicate SameUsers(s: State, t: State, p: nat)
    requires p < |s.calls|
  {
    && (forall u | u in t.users :: u in s.users && t.users[u] == s.users[u])
    && |t.calls| == |s.calls| && t.calls[p].user == s.calls[p].user && !t.calls[p].pc.JoinEnqueue?
    && (s.calls[p].pc.MatchDelete? ==> s.calls[p].user !in t.users)
  }

  lemma JoinKeepsUsers(s: State, p: nat)
    requires p < |s.calls| && (s.calls[p].pc.JoinCheck? || s.calls[p].pc.JoinEnqueue?)
    ensures SameUsers(s, AdvanceJoin(s, p), p)
  {
  }

  lemma LeaveKeepsUsers(s: State, p: nat)
    requires p < |s.calls| && (s.calls[p].pc.LeaveLoad? || s.calls[p].pc.LeaveDequeue? || s.calls[p].pc.LeaveDelete?)
    ensures SameUsers(s, AdvanceLeave(s, p), p)
  {
  }

  lemma SearchKeepsUsers(s: State, p: nat)
    requires p < |s.calls|
    requires s.calls[p].pc.MatchList? || s.calls[p].pc.MatchNext? || s.calls[p].pc.MatchDrop?
             || s.calls[p].pc.MatchSince?
    ensures SameUsers(s, AdvanceSearch(s, p), p)
  {
    hide MatchQueue.ZRange, MatchQueue.SameClock, Better, GetOr;
  }

  lemma MatchKeepsUsers(s: State, p: nat)
    requires p < |s.calls| && !s.calls[p].pc.JoinEnqueue?
    ensures SameUsers(s, AdvanceMatch(s, p), p)
  {
  }

  lemma AdvanceKeepsUsers(s: State, p: nat)
    requires p < |s.calls| && !s.calls[p].pc.JoinWrite?
    ensures SameUsers(s, Advance(s, p), p)
    ensures forall q | 0 <= q < |s.calls| && q != p :: Advance(s, p).calls[q] == s.calls[q]
  {
    AdvanceMovesOne(s, p);
    hide SameUsers, AdvanceJoin, AdvanceLeave, AdvanceSearch, AdvanceMatch;
    match s.calls[p].pc
    case JoinCheck(_) | JoinEnqueue(_) => JoinKeepsUsers(s, p);
    case LeaveLoad | LeaveDequeue(_) | LeaveDelete => LeaveKeepsUsers(s, p);
    case MatchList(_, _) | MatchNext(_, _, _, _) | MatchDrop(_, _, _, _) | MatchSince(_, _, _, _, _) =>
      SearchKeepsUsers(s, p);
    case _ => MatchKeepsUsers(s, p);
  }

  lemma JoinWriteDuties(s: State, p: nat, owing: set<UserId>)
    requires Duties(s, owing) && p < |s.calls| && s.calls[p].pc.JoinWrite?
    ensures Duties(AdvanceJoin(s, p), owing + {s.calls[p].user})
  {
    var t, me := AdvanceJoin(s, p), s.calls[p].user;
    JoinFrame(s, p);
    assert forall u | u != me && u in t.users :: u in s.users && t.users[u] == s.users[u];
    hide Compatible, Hopes;
    forall u, v | u in t.users && v in t.users && Compatible(t.users[u], t.users[v])
      ensures u in owing + {me} || v in owing + {me} || Seeks(t, u, v) || Seeks(t, v, u)
    {
      if u != me && v != me {
        if Seeks(s, u, v) {
          var q :| 0 <= q < |s.calls| && s.calls[q].user == u && Hopes(s.calls[q].pc, v);
          assert t.calls[q] == s.calls[q];
        } else if Seeks(s, v, u) {
          var q :| 0 <= q < |s.calls| && s.calls[q].user == v && Hopes(s.calls[q].pc, u);
          assert t.calls[q] == s.calls[q];
        }
      }
    }
  }

  lemma AdvanceDuties(s: State, p: nat, owing: set<UserId>)
    requires Inv(s) && Orderly(s) && Duties(s, owing) && Unhindered(s, Advanced(p)) && p < |s.calls|
    ensures Duties(Advance(s, p), OwingAfter(s, Advanced(p), owing))
  {
    if s.calls[p].pc.JoinWrite? {
      JoinWriteDuties(s, p, owing);
    } else {
      var t, me := Advance(s, p), s.calls[p].user;
      AdvanceKeepsUsers(s, p);
      hide Inv, Orderly, Duties, Advance, Hopes, Compatible, Unhindered;
      forall v | v in t.users && me in t.users && Compatible(t.users[me], t.users[v])
        ensures Hopes(s.calls[p].pc, v) ==> Hopes(t.calls[p].pc, v) || v in owing
      {
        if Hopes(s.calls[p].pc, v) { KeepsHoping(s, p, v, owing); }
      }
      MoveDuties(s, t, p, owing);
    }
  }

  /** A search called for a user takes over what the user owed. */
  lemma CallDuties(s: State, c: Call, owing: set<UserId>)
    requires Duties(s, owing) && Idle(s, c.user) && (c.pc.JoinCheck? || c.pc.MatchLoad?)
    ensures Duties(s.(calls := s.calls + [c]), if c.pc.MatchLoad? then owing - {c.user} else owing)
  {
    var t := s.(calls := s.calls + [c]);
    hide Compatible;
    forall u, v | Seeks(s, u, v) ensures Seeks(t, u, v) {
      var q :| 0 <= q < |s.calls| && s.calls[q].user == u && Hopes(s.calls[q].pc, v);
      assert t.calls[q] == s.calls[q];
    }
    if c.pc.MatchLoad? {
      assert t.calls[|s.calls|] == c;
      forall v ensures Seeks(t, c.user, v) {
        assert t.calls[|s.calls|].user == c.user && Hopes(t.calls[|s.calls|].pc, v);
      }
    }
    hide Seeks;
  }

  lemma StepDuties(s: State, e: Event, owing: set<UserId>)
    requires Inv(s) && Orderly(s) && Duties(s, owing) && Allowed(s, e) && Unhindered(s, e)
    ensures Duties(Step(s, e), OwingAfter(s, e, owing))
  {
    match e
    case JoinCalled(u, entry) => CallDuties(s, Call(u, JoinCheck(entry)), owing);
    case MatchCalled(u) => CallDuties(s, Call(u, MatchLoad), owing);
    case Advanced(p) =>
      hide Inv, Orderly, Duties, Advance;
      if p < |s.calls| { AdvanceDuties(s, p, owing); }
    case LockExpired(control) =>
      var t := Step(s, e);
      forall u, v ensures Seeks(t, u, v) == Seeks(s, u, v) {}
      hide Seeks, Compatible;
  }

  // ---------------------------------------------------------------- the settled queue

  lemma EmptyOrderly()
    ensures Orderly(Empty()) && Duties(Empty(), {})
  {
  }

  lemma {:induction false} RunSettles(events: seq<Event>)
    requires AllowedRun(Empty(), events, {}) && UnhinderedRun(events)
    ensures Orderly(Run(Empty(), events)) && Duties(Run(Empty(), events), Owing(events))
  {
    if events == [] {
      EmptyOrderly();
    } else {
      var n := |events| - 1;
      hide Step, Inv, Orderly, Duties, Allowed, Unhindered, OwingAfter;
      RunSettles(events[..n]);
      RunKeeps(events[..n]);
      StepOrderly(Run(Empty(), events[..n]), events[n]);
      StepDuties(Run(Empty(), events[..n]), events[n], Owing(events[..n]));
    }
  }

  lemma AtRest(s: State, owing: set<UserId>)
    requires Duties(s, owing) && forall p | 0 <= p < |s.calls| :: s.calls[p].pc.Done?
    ensures forall u, v | u in s.users && v in s.users && u !in owing && v !in owing ::
            !Compatible(s.users[u], s.users[v])
  {
    hide Compatible;
    forall u, v ensures !Seeks(s, u, v) {}
    hide Seeks;
  }

  /** However joins and searches interleave, one request per user, no lock expiring in a critical section, nobody
      leaving and no hash or sorted set expiring: if no search was refused its lock, then once every call has returned
      no two waiting users who have been searched for since they joined could be paired with each other. */
  lemma InterleavedQuiescence(events: seq<Event>)
    requires AllowedRun(Empty(), events, {}) && UnhinderedRun(events)
    requires forall p | 0 <= p < |Run(Empty(), events).calls| :: Run(Empty(), events).calls[p].pc.Done?
    ensures var users := Run(Empty(), events).users;
            forall u, v | u in users && v in users && u !in Owing(events) && v !in Owing(events) ::
              !Compatible(users[u], users[v])
  {
    hide *;
    RunSettles(events);
    AtRest(Run(Empty(), events), Owing(events));
  }
}
