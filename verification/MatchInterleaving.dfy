/** The matchmaking queue command by command: any number of calls run at once and their Redis commands interleave,
    while hashes, sorted sets and locks may expire in between. A ticket is one joining of the queue. */
module MatchInterleaving {
  import opened Common
  import MatchQueue

  /** What a user's hash holds, with a number that tells one joining from the next. */
  datatype Ticket = Ticket(serial: nat, user: MatchQueue.UserId, entry: MatchQueue.Entry)

  datatype Best = Best(ticket: Ticket, gap: nat, joinedAt: Option<int>)

  datatype Pair = Pair(mine: Ticket, other: Ticket)

  /** The next command of a call. `first` is what the call read before it took the lock, `mine` what it read after;
      `rest` is what is left of the listing and `other` the candidate at hand. */
  datatype Pc =
    | JoinCheck(entry: MatchQueue.Entry)
    | JoinWrite(entry: MatchQueue.Entry)
    | JoinEnqueue(entry: MatchQueue.Entry)
    | LeaveLoad
    | LeaveDequeue(entry: MatchQueue.Entry)
    | LeaveDelete
    | MatchLoad
    | MatchLock(first: Ticket)
    | MatchReload(first: Ticket)
    | MatchList(first: Ticket, mine: Ticket)
    | MatchNext(first: Ticket, mine: Ticket, rest: seq<MatchQueue.UserId>, best: Option<Best>)
    | MatchDrop(first: Ticket, mine: Ticket, rest: seq<MatchQueue.UserId>, best: Option<Best>)
    | MatchSince(first: Ticket, mine: Ticket, rest: seq<MatchQueue.UserId>, best: Option<Best>, other: Ticket)
    | MatchDequeue(first: Ticket, mine: Ticket, other: Ticket)
    | MatchDelete(first: Ticket, mine: Ticket, other: Ticket)
    | MatchRelease(first: Ticket)
    | Done

  datatype Call = Call(user: MatchQueue.UserId, pc: Pc)

  /** `locks` maps a time control to the token of the lock; the token of a call is its number. */
  datatype State = State(
    users: map<MatchQueue.UserId, Ticket>, queues: map<string, map<MatchQueue.UserId, int>>, locks: map<string, nat>,
    next: nat, calls: seq<Call>, pairs: seq<Pair>)

  function Empty(): State { State(map[], map[], map[], 0, [], []) }

  // ---------------------------------------------------------------- commands

  function At(s: State, p: nat, pc: Pc): State
    requires p < |s.calls|
  {
    s.(calls := s.calls[p := s.calls[p].(pc := pc)])
  }

  function Drop(s: State, control: string, gone: set<MatchQueue.UserId>): State
  {
    if control in s.queues then s.(queues := s.queues[control := s.queues[control] - gone]) else s
  }

  function Sooner(a: Option<int>, b: Option<int>): bool { a.Some? && (b.None? || a.value < b.value) }

  /** The best candidate once `other` was looked at; `since` is its time of joining as read by a second command. */
  function Better(mine: Ticket, other: Ticket, since: Option<int>, best: Option<Best>): Option<Best>
  {
    var gap := Abs(other.entry.rating - mine.entry.rating);
    var wins := best.None? || gap < best.value.gap || (gap == best.value.gap && Sooner(since, best.value.joinedAt));
    if gap <= MatchQueue.RATING_THRESHOLD && wins then Some(Best(other, gap, since)) else best
  }

  /** One command of `join_queue`. Setting a time to live and asking for the rank change nothing kept here. */
  function AdvanceJoin(s: State, p: nat): State
    requires p < |s.calls|
  {
    var u := s.calls[p].user;
    match s.calls[p].pc
    case JoinCheck(e) => At(s, p, if u in s.users then Done else JoinWrite(e))
    case JoinWrite(e) => At(s.(users := s.users[u := Ticket(s.next, u, e)], next := s.next + 1), p, JoinEnqueue(e))
    case JoinEnqueue(e) =>
      At(s.(queues := s.queues[e.control := GetOr(s.queues, e.control, map[])[u := e.joinedAt]]), p, Done)
    case _ => s
  }

  /** One command of `leave_queue`, which takes no lock. */
  function AdvanceLeave(s: State, p: nat): State
    requires p < |s.calls|
  {
    var u := s.calls[p].user;
    match s.calls[p].pc
    case LeaveLoad => At(s, p, if u in s.users then LeaveDequeue(s.users[u].entry) else Done)
    case LeaveDequeue(e) => At(Drop(s, e.control, {u}), p, LeaveDelete)
    case LeaveDelete => At(s.(users := s.users - {u}), p, Done)
    case _ => s
  }

  /** One command of `try_match` outside the search for a candidate. */
  function AdvanceMatch(s: State, p: nat): State
    requires p < |s.calls|
  {
    var u := s.calls[p].user;
    match s.calls[p].pc
    case MatchLoad => At(s, p, if u in s.users then MatchLock(s.users[u]) else Done)
    case MatchLock(first) =>
      if first.entry.control in s.locks then At(s, p, Done)
      else At(s.(locks := s.locks[first.entry.control := p]), p, MatchReload(first))
    case MatchReload(first) => At(s, p, if u in s.users then MatchList(first, s.users[u]) else MatchRelease(first))
    case MatchDequeue(first, mine, other) =>
      At(Drop(s, mine.entry.control, {u, other.user}), p, MatchDelete(first, mine, other))
    case MatchDelete(first, mine, other) =>
      At(s.(users := s.users - {u, other.user}, pairs := s.pairs + [Pair(mine, other)]), p, MatchRelease(first))
    case MatchRelease(first) =>
      var control := first.entry.control;
      At(if control in s.locks && s.locks[control] == p then s.(locks := s.locks - {control}) else s, p, Done)
    case _ => s
  }

  /** One command of `_find_best_match`. */
  function AdvanceSearch(s: State, p: nat): State
    requires p < |s.calls|
  {
    var u := s.calls[p].user;
    match s.calls[p].pc
    case MatchList(first, mine) =>
      At(s, p, MatchNext(first, mine, MatchQueue.ZRange(GetOr(s.queues, mine.entry.control, map[])), None))
    case MatchNext(first, mine, rest, best) =>
      At(s, p,
         if rest == [] then (if best.Some? then MatchDequeue(first, mine, best.value.ticket) else MatchRelease(first))
         else if rest[0] == u then MatchNext(first, mine, rest[1..], best)
         else if rest[0] !in s.users then MatchDrop(first, mine, rest, best)
         else if !MatchQueue.SameClock(s.users[rest[0]].entry, mine.entry) then MatchNext(first, mine, rest[1..], best)
         else MatchSince(first, mine, rest, best, s.users[rest[0]]))
    case MatchDrop(first, mine, rest, best) =>
      if rest == [] then s else At(Drop(s, mine.entry.control, {rest[0]}), p, MatchNext(first, mine, rest[1..], best))
    case MatchSince(first, mine, rest, best, other) =>
      var since := if other.user in s.users then Some(s.users[other.user].entry.joinedAt) else None;
      if rest == [] then s else At(s, p, MatchNext(first, mine, rest[1..], Better(mine, other, since, best)))
    case _ => s
  }

  function Advance(s: State, p: nat): State
    requires p < |s.calls|
  {
    match s.calls[p].pc
    case JoinCheck(_) | JoinWrite(_) | JoinEnqueue(_) => AdvanceJoin(s, p)
    case LeaveLoad | LeaveDequeue(_) | LeaveDelete => AdvanceLeave(s, p)
    case MatchList(_, _) | MatchNext(_, _, _, _) | MatchDrop(_, _, _, _) | MatchSince(_, _, _, _, _) =>
      AdvanceSearch(s, p)
    case _ => AdvanceMatch(s, p)
  }

  datatype Event =
    | JoinCalled(user: MatchQueue.UserId, entry: MatchQueue.Entry)
    | LeaveCalled(user: MatchQueue.UserId)
    | MatchCalled(user: MatchQueue.UserId)
    | Advanced(call: nat)
    | HashExpired(user: MatchQueue.UserId)
    | QueueExpired(control: string)
    | LockExpired(control: string)

  function Step(s: State, e: Event): State
  {
    match e
    case JoinCalled(u, entry) => s.(calls := s.calls + [Call(u, JoinCheck(entry))])
    case LeaveCalled(u) => s.(calls := s.calls + [Call(u, LeaveLoad)])
    case MatchCalled(u) => s.(calls := s.calls + [Call(u, MatchLoad)])
    case Advanced(p) => if p < |s.calls| then Advance(s, p) else s
    case HashExpired(u) => s.(users := s.users - {u})
    case QueueExpired(control) => s.(queues := s.queues - {control})
    case LockExpired(control) => s.(locks := s.locks - {control})
  }

  function Run(s: State, events: seq<Event>): State
  {
    if events == [] then s else Step(Run(s, events[..|events| - 1]), events[|events| - 1])
  }

  /** Call `p` left alone for `n` commands. */
  function AfterAdvances(s: State, p: nat, n: nat): State
  {
    if n == 0 then s else Step(AfterAdvances(s, p, n - 1), Advanced(p))
  }

  // ---------------------------------------------------------------- what is asked of a run

  /** Holds the lock and has not yet deleted the hashes it is going to pair. */
  predicate Critical(pc: Pc)
  {
    || pc.MatchReload? || pc.MatchList? || pc.MatchNext? || pc.MatchDrop? || pc.MatchSince?
    || pc.MatchDequeue? || pc.MatchDelete?
  }

  predicate Idle(s: State, u: MatchQueue.UserId)
  {
    forall p | 0 <= p < |s.calls| && s.calls[p].user == u :: s.calls[p].pc.Done?
  }

  /** One request of a user at a time, and no lock that expires while its holder is in its critical section.
      Leaving, and the expiry of hashes and sorted sets, are not restricted. */
  predicate Allowed(s: State, e: Event)
  {
    match e
    case JoinCalled(u, _) => Idle(s, u)
    case LeaveCalled(u) => Idle(s, u)
    case MatchCalled(u) => Idle(s, u)
    case LockExpired(control) =>
      control in s.locks && s.locks[control] < |s.calls| ==> !Critical(s.calls[s.locks[control]].pc)
    case _ => true
  }

  /** Every event is allowed where it happens, or waived. */
  predicate AllowedRun(s: State, events: seq<Event>, waived: set<Event>)
  {
    events == [] ||
    var n := |events| - 1;
    AllowedRun(s, events[..n], waived) && (Allowed(Run(s, events[..n]), events[n]) || events[n] in waived)
  }

  // ---------------------------------------------------------------- the invariant

  ghost function Tickets(pairs: seq<Pair>): set<Ticket>
  {
    (set pair | pair in pairs :: pair.mine) + (set pair | pair in pairs :: pair.other)
  }

  /** Issued and in no pair so far. */
  ghost predicate Open(s: State, t: Ticket) { t.serial < s.next && t !in Tickets(s.pairs) }

  ghost predicate Compatible(t: Ticket, o: Ticket)
  {
    && t.user != o.user && MatchQueue.SameClock(o.entry, t.entry)
    && Abs(o.entry.rating - t.entry.rating) <= MatchQueue.RATING_THRESHOLD
  }

  ghost predicate BestOk(s: State, mine: Ticket, best: Option<Best>)
  {
    best.Some? ==> Open(s, best.value.ticket) && Compatible(mine, best.value.ticket)
  }

  ghost predicate Unreplaced(s: State, u: MatchQueue.UserId, first: Ticket) { u in s.users ==> s.users[u] == first }

  ghost predicate Mine(s: State, u: MatchQueue.UserId, first: Ticket, mine: Ticket)
  {
    mine == first && mine.user == u && Open(s, mine)
  }

  /** What a call carries is its own ticket, still open, and open tickets of the same time control. */
  ghost predicate CallOk(s: State, c: Call)
  {
    match c.pc
    case MatchLock(first) => Unreplaced(s, c.user, first)
    case MatchReload(first) => Unreplaced(s, c.user, first)
    case MatchList(first, mine) => Mine(s, c.user, first, mine)
    case MatchNext(first, mine, rest, best) => Mine(s, c.user, first, mine) && BestOk(s, mine, best)
    case MatchDrop(first, mine, rest, best) => rest != [] && Mine(s, c.user, first, mine) && BestOk(s, mine, best)
    case MatchSince(first, mine, rest, best, other) =>
      && rest != [] && Mine(s, c.user, first, mine) && BestOk(s, mine, best)
      && Open(s, other) && other.user != c.user && MatchQueue.SameClock(other.entry, mine.entry)
    case MatchDequeue(first, mine, other) => Mine(s, c.user, first, mine) && Open(s, other) && Compatible(mine, other)
    case MatchDelete(first, mine, other) => Mine(s, c.user, first, mine) && Open(s, other) && Compatible(mine, other)
    case _ => true
  }

  ghost predicate HashesOk(s: State) { forall u | u in s.users :: s.users[u].user == u && Open(s, s.users[u]) }

  ghost predicate CallsOk(s: State) { forall p | 0 <= p < |s.calls| :: CallOk(s, s.calls[p]) }

  ghost predicate Holds(s: State, p: nat, control: string) { control in s.locks && s.locks[control] == p }

  /** Every critical section is covered by its lock, so that two of them never share a time control. */
  ghost predicate LocksHeld(s: State)
  {
    forall p | 0 <= p < |s.calls| && Critical(s.calls[p].pc) :: Holds(s, p, s.calls[p].pc.first.entry.control)
  }

  ghost predicate SingleFlight(s: State)
  {
    forall p, q | 0 <= p < q < |s.calls| && s.calls[p].user == s.calls[q].user ::
      s.calls[p].pc.Done? || s.calls[q].pc.Done?
  }

  ghost predicate Apart(a: Pair, b: Pair) { {a.mine, a.other} !! {b.mine, b.other} }

  ghost predicate PairsOk(s: State)
  {
    && (forall i | 0 <= i < |s.pairs| :: s.pairs[i].mine.serial < s.next && s.pairs[i].other.serial < s.next)
    && (forall i | 0 <= i < |s.pairs| :: Compatible(s.pairs[i].mine, s.pairs[i].other))
    && (forall i, j | 0 <= i < j < |s.pairs| :: Apart(s.pairs[i], s.pairs[j]))
  }

  ghost predicate Inv(s: State) { HashesOk(s) && CallsOk(s) && LocksHeld(s) && SingleFlight(s) && PairsOk(s) }

  // ---------------------------------------------------------------- every step keeps it

  /** A call stays sound while no hash is written and no pair is made. */
  lemma CallStays(s: State, t: State, c: Call)
    requires CallOk(s, c) && t.next == s.next && t.pairs == s.pairs
    requires forall u | u in t.users :: u in s.users && t.users[u] == s.users[u]
    ensures CallOk(t, c)
  {
    hide Tickets, Compatible, MatchQueue.SameClock;
  }

  /** A step that writes no hash, makes no pair and touches at most the program counter of call `p`. */
  lemma QuietKeeps(s: State, t: State, p: nat)
    requires Inv(s) && t.next == s.next && t.pairs == s.pairs
    requires forall u | u in t.users :: u in s.users && t.users[u] == s.users[u]
    requires |t.calls| == |s.calls| && (p < |s.calls| ==> CallOk(t, s.calls[p].(pc := t.calls[p].pc)))
    requires if p < |s.calls| then !s.calls[p].pc.Done? && t.calls == s.calls[p := s.calls[p].(pc := t.calls[p].pc)]
             else t.calls == s.calls
    requires LocksHeld(t)
    ensures Inv(t)
  {
    forall q | 0 <= q < |t.calls| && q != p ensures CallOk(t, t.calls[q]) {
      assert CallOk(s, s.calls[q]);
      CallStays(s, t, s.calls[q]);
    }
    hide Tickets, Compatible, MatchQueue.SameClock, CallOk, LocksHeld, Apart;
  }

  /** A command that moves one call on, and at most the sorted sets with it. */
  lemma MovedKeeps(s: State, p: nat, pc: Pc, queues: map<string, map<MatchQueue.UserId, int>>)
    requires Inv(s) && p < |s.calls| && !s.calls[p].pc.Done?
    requires CallOk(s, s.calls[p].(pc := pc))
    requires Critical(pc) ==> Critical(s.calls[p].pc) && pc.first == s.calls[p].pc.first
    ensures Inv(At(s.(queues := queues), p, pc))
  {
    var t := At(s.(queues := queues), p, pc);
    CallStays(s, t, s.calls[p].(pc := pc));
    assert LocksHeld(t) by {
      hide CallOk, Critical;
      forall q | 0 <= q < |t.calls| && Critical(t.calls[q].pc) ensures Holds(t, q, t.calls[q].pc.first.entry.control) {
        assert Holds(s, q, s.calls[q].pc.first.entry.control);
      }
    }
    QuietKeeps(s, t, p);
  }

  /** Hashes that disappear. */
  lemma HashesGoneKeeps(s: State, gone: set<MatchQueue.UserId>)
    requires Inv(s)
    ensures Inv(s.(users := s.users - gone))
  {
    QuietKeeps(s, s.(users := s.users - gone), |s.calls|);
  }

  lemma JoinWriteKeeps(s: State, p: nat)
    requires Inv(s) && p < |s.calls| && s.calls[p].pc.JoinWrite?
    ensures Inv(AdvanceJoin(s, p))
  {
    var t, u := AdvanceJoin(s, p), s.calls[p].user;
    forall q | 0 <= q < |t.calls| ensures CallOk(t, t.calls[q]) {
      assert CallOk(s, s.calls[q]);
      if q != p && s.calls[q].user == u { assert s.calls[q].pc.Done?; }
    }
    assert t.users[u] !in Tickets(s.pairs);
  }

  lemma LockKeeps(s: State, p: nat)
    requires Inv(s) && p < |s.calls| && s.calls[p].pc.MatchLock?
    ensures Inv(AdvanceMatch(s, p))
  {
    var t := AdvanceMatch(s, p);
    assert CallOk(s, s.calls[p]);
    CallStays(s, t, t.calls[p]);
    QuietKeeps(s, t, p);
  }

  lemma ReleaseKeeps(s: State, p: nat)
    requires Inv(s) && p < |s.calls| && s.calls[p].pc.MatchRelease?
    ensures Inv(AdvanceMatch(s, p))
  {
    QuietKeeps(s, AdvanceMatch(s, p), p);
  }

  lemma TicketsSnoc(pairs: seq<Pair>, pair: Pair)
    ensures Tickets(pairs + [pair]) == Tickets(pairs) + {pair.mine, pair.other}
  {
    assert forall x :: x in pairs + [pair] <==> x in pairs || x == pair;
  }

  /** A call outside the critical sections of a time control carries neither ticket of a pair made in it. */
  lemma CallSpared(s: State, t: State, c: Call, pair: Pair)
    requires CallOk(s, c) && t.next == s.next && t.pairs == s.pairs + [pair]
    requires forall u | u in t.users :: u in s.users && t.users[u] == s.users[u]
    requires MatchQueue.SameClock(pair.other.entry, pair.mine.entry)
    requires Critical(c.pc) ==> c.pc.first.entry.control != pair.mine.entry.control
    ensures CallOk(t, c)
  {
    TicketsSnoc(s.pairs, pair);
    hide Tickets;
  }

  lemma PairsStay(s: State, t: State, pair: Pair)
    requires PairsOk(s) && Open(s, pair.mine) && Open(s, pair.other) && Compatible(pair.mine, pair.other)
    requires t.next == s.next && t.pairs == s.pairs + [pair]
    ensures PairsOk(t)
  {
    forall i | 0 <= i < |s.pairs| ensures Apart(s.pairs[i], pair) {
      assert s.pairs[i] in s.pairs;
    }
    hide Compatible, Apart, Open;
  }

  lemma HashesStay(s: State, t: State, pair: Pair)
    requires HashesOk(s) && t.next == s.next && t.pairs == s.pairs + [pair]
    requires t.users == s.users - {pair.mine.user, pair.other.user}
    ensures HashesOk(t)
  {
    TicketsSnoc(s.pairs, pair);
    hide Tickets;
  }

  /** Pairing two open tickets. */
  lemma DeleteKeeps(s: State, p: nat)
    requires Inv(s) && p < |s.calls| && s.calls[p].pc.MatchDelete?
    ensures Inv(AdvanceMatch(s, p))
  {
    var t, pc := AdvanceMatch(s, p), s.calls[p].pc;
    var pair := Pair(pc.mine, pc.other);
    assert CallOk(s, s.calls[p]) && Holds(s, p, pc.first.entry.control);
    PairsStay(s, t, pair);
    HashesStay(s, t, pair);
    hide PairsOk, HashesOk, Open, Compatible;
    forall q | 0 <= q < |t.calls| && q != p ensures CallOk(t, t.calls[q]) {
      assert CallOk(s, s.calls[q]) && t.calls[q] == s.calls[q];
      CallSpared(s, t, s.calls[q], pair);
    }
  }

  lemma BetterOk(s: State, mine: Ticket, other: Ticket, since: Option<int>, best: Option<Best>)
    requires BestOk(s, mine, best) && Open(s, other) && other.user != mine.user
             && MatchQueue.SameClock(other.entry, mine.entry)
    ensures BestOk(s, mine, Better(mine, other, since, best))
  {
    hide Tickets, MatchQueue.SameClock;
  }

  lemma SearchCallOk(s: State, p: nat)
    requires HashesOk(s) && p < |s.calls| && CallOk(s, s.calls[p])
    ensures CallOk(s, AdvanceSearch(s, p).calls[p])
  {
    hide Tickets, Better, Sooner, Open;
    var pc := s.calls[p].pc;
    if pc.MatchSince? {
      var since := if pc.other.user in s.users then Some(s.users[pc.other.user].entry.joinedAt) else None;
      BetterOk(s, pc.mine, pc.other, since, pc.best);
    }
  }

  lemma SearchKeeps(s: State, p: nat)
    requires Inv(s) && p < |s.calls| && !s.calls[p].pc.Done?
    ensures Inv(AdvanceSearch(s, p))
  {
    var c, t := s.calls[p], AdvanceSearch(s, p);
    assert CallOk(s, c);
    assert s.(queues := s.queues) == s;
    if t != s {
      assert t == At(s.(queues := t.queues), p, t.calls[p].pc);
      hide Tickets, Compatible, MatchQueue.SameClock, HashesOk;
      assert CallOk(s, c.(pc := t.calls[p].pc)) by { SearchCallOk(s, p); }
      hide CallOk, Inv;
      MovedKeeps(s, p, t.calls[p].pc, t.queues);
    }
  }

  lemma MatchStepKeeps(s: State, p: nat)
    requires Inv(s) && p < |s.calls| && !s.calls[p].pc.Done?
    ensures Inv(AdvanceMatch(s, p))
  {
    var c, t := s.calls[p], AdvanceMatch(s, p);
    if c.pc.MatchLock? {
      LockKeeps(s, p);
    } else if c.pc.MatchRelease? {
      ReleaseKeeps(s, p);
    } else if c.pc.MatchDelete? {
      DeleteKeeps(s, p);
    } else if t != s {
      assert CallOk(s, c);
      assert s.(queues := s.queues) == s;
      MovedKeeps(s, p, t.calls[p].pc, t.queues);
    }
  }

  lemma JoinStepKeeps(s: State, p: nat)
    requires Inv(s) && p < |s.calls| && !s.calls[p].pc.Done?
    ensures Inv(AdvanceJoin(s, p))
  {
    var t := AdvanceJoin(s, p);
    if s.calls[p].pc.JoinWrite? {
      JoinWriteKeeps(s, p);
    } else if t != s {
      assert s.(queues := s.queues) == s;
      MovedKeeps(s, p, t.calls[p].pc, t.queues);
    }
  }

  lemma LeaveStepKeeps(s: State, p: nat)
    requires Inv(s) && p < |s.calls| && !s.calls[p].pc.Done?
    ensures Inv(AdvanceLeave(s, p))
  {
    var t := AdvanceLeave(s, p);
    assert s.(queues := s.queues) == s;
    if s.calls[p].pc.LeaveDelete? {
      HashesGoneKeeps(s, {s.calls[p].user});
      MovedKeeps(s.(users := s.users - {s.calls[p].user}), p, Done, s.queues);
    } else if t != s {
      MovedKeeps(s, p, t.calls[p].pc, t.queues);
    }
  }

  /** A new request of a user who has none in flight. */
  lemma CalledKeeps(s: State, c: Call)
    requires Inv(s) && Idle(s, c.user) && (c.pc.JoinCheck? || c.pc.LeaveLoad? || c.pc.MatchLoad?)
    ensures Inv(s.(calls := s.calls + [c]))
  {
    var t := s.(calls := s.calls + [c]);
    forall q | 0 <= q < |t.calls| ensures CallOk(t, t.calls[q]) {
      if q < |s.calls| { CallStays(s, t, s.calls[q]); }
    }
    hide CallOk, Tickets, Compatible, MatchQueue.SameClock, Apart;
  }

  lemma StepKeeps(s: State, e: Event)
    requires Inv(s) && Allowed(s, e)
    ensures Inv(Step(s, e))
  {
    match e
    case JoinCalled(u, entry) => CalledKeeps(s, Call(u, JoinCheck(entry)));
    case LeaveCalled(u) => CalledKeeps(s, Call(u, LeaveLoad));
    case MatchCalled(u) => CalledKeeps(s, Call(u, MatchLoad));
    case Advanced(p) =>
      if p < |s.calls| && !s.calls[p].pc.Done? {
        JoinStepKeeps(s, p);
        LeaveStepKeeps(s, p);
        SearchKeeps(s, p);
        MatchStepKeeps(s, p);
        hide Inv, AdvanceJoin, AdvanceLeave, AdvanceSearch, AdvanceMatch;
      }
    case HashExpired(u) => HashesGoneKeeps(s, {u});
    case QueueExpired(control) => QuietKeeps(s, Step(s, e), |s.calls|);
    case LockExpired(control) =>
      assert LocksHeld(Step(s, e)) by { hide CallOk; }
      QuietKeeps(s, Step(s, e), |s.calls|);
  }

  lemma EmptyInv()
    ensures Inv(Empty())
  {
  }

  lemma {:induction false} RunKeeps(events: seq<Event>)
    requires AllowedRun(Empty(), events, {})
    ensures Inv(Run(Empty(), events))
  {
    hide Step, Inv, Allowed;
    if events != [] {
      var n := |events| - 1;
      RunKeeps(events[..n]);
      StepKeeps(Run(Empty(), events[..n]), events[n]);
    } else {
      EmptyInv();
    }
  }

  /** However joins, leaves, searches and expiries interleave, no ticket is in two pairs, and every pair is of two
      users of one time control and clock who are within the rating threshold. */
  lemma EachTicketOnce(events: seq<Event>)
    requires AllowedRun(Empty(), events, {})
    ensures var pairs := Run(Empty(), events).pairs;
            && (forall i, j | 0 <= i < j < |pairs| ::
               {pairs[i].mine, pairs[i].other} !! {pairs[j].mine, pairs[j].other})
            && (forall i | 0 <= i < |pairs| :: Compatible(pairs[i].mine, pairs[i].other))
  {
    RunKeeps(events);
    var s := Run(Empty(), events);
    forall i, j | 0 <= i < j < |s.pairs|
      ensures {s.pairs[i].mine, s.pairs[i].other} !! {s.pairs[j].mine, s.pairs[j].other}
    {
      assert Apart(s.pairs[i], s.pairs[j]);
    }
  }

  // ---------------------------------------------------------------- the lock itself, in any run at all

  ghost predicate AtWork(s: State, p: nat, control: string)
  {
    && p < |s.calls| && (Critical(s.calls[p].pc) || s.calls[p].pc.MatchRelease?)
    && s.calls[p].pc.first.entry.control == control
  }

  /** A lock belongs to a call that is still at work under it. */
  ghost predicate LocksAtWork(s: State) { forall control | control in s.locks :: AtWork(s, s.locks[control], control) }

  /** Only the program counter of the call that advances changes. */
  ghost predicate MovesOnly(s: State, t: State, p: nat)
  {
    |t.calls| == |s.calls| && forall q | 0 <= q < |s.calls| && q != p :: t.calls[q] == s.calls[q]
  }

  lemma JoinFrame(s: State, p: nat)
    requires p < |s.calls|
    ensures var t := AdvanceJoin(s, p); MovesOnly(s, t, p) && t.locks == s.locks
  {
  }

  lemma LeaveFrame(s: State, p: nat)
    requires p < |s.calls|
    ensures var t := AdvanceLeave(s, p); MovesOnly(s, t, p) && t.locks == s.locks
  {
  }

  lemma SearchFrame(s: State, p: nat)
    requires p < |s.calls|
    ensures var t := AdvanceSearch(s, p); MovesOnly(s, t, p) && t.locks == s.locks
    ensures forall control ::
            Critical(s.calls[p].pc) && AtWork(s, p, control) ==> AtWork(AdvanceSearch(s, p), p, control)
  {
    hide MatchQueue.ZRange, Better, MatchQueue.SameClock;
  }

  lemma MatchFrame(s: State, p: nat)
    requires p < |s.calls|
    ensures var t := AdvanceMatch(s, p);
            MovesOnly(s, t, p) && (s.calls[p].pc.MatchLock? || s.calls[p].pc.MatchRelease? || t.locks == s.locks)
    ensures forall control ::
            Critical(s.calls[p].pc) && AtWork(s, p, control) ==> AtWork(AdvanceMatch(s, p), p, control)
  {
  }

  lemma AdvanceMovesOne(s: State, p: nat)
    requires p < |s.calls|
    ensures MovesOnly(s, Advance(s, p), p)
    ensures s.calls[p].pc.MatchLock? || s.calls[p].pc.MatchRelease? || Advance(s, p).locks == s.locks
  {
    JoinFrame(s, p);
    LeaveFrame(s, p);
    SearchFrame(s, p);
    MatchFrame(s, p);
    hide AdvanceJoin, AdvanceLeave, AdvanceSearch, AdvanceMatch, MovesOnly, AtWork;
  }

  /** A call at work stays at work with its lock, until its release frees it. */
  lemma AdvanceAtWork(s: State, p: nat, control: string)
    requires AtWork(s, p, control)
    ensures AtWork(Advance(s, p), p, control) || (control in Advance(s, p).locks ==> Advance(s, p).locks[control] != p)
  {
    SearchFrame(s, p);
    MatchFrame(s, p);
    hide AdvanceSearch, MovesOnly;
    if Critical(s.calls[p].pc) { hide AdvanceMatch; }
  }

  lemma AdvanceTakesOne(s: State, p: nat, control: string)
    requires p < |s.calls| && control in Advance(s, p).locks
    ensures var t := Advance(s, p);
            || (control in s.locks && t.locks[control] == s.locks[control])
            || (t.locks[control] == p && AtWork(t, p, control))
  {
    AdvanceMovesOne(s, p);
    hide AdvanceJoin, AdvanceLeave, AdvanceSearch, MovesOnly;
    if !s.calls[p].pc.MatchLock? && !s.calls[p].pc.MatchRelease? { hide Advance; }
  }

  lemma StepLocksAtWork(s: State, e: Event)
    requires LocksAtWork(s)
    ensures LocksAtWork(Step(s, e))
  {
    hide Advance;
    var t := Step(s, e);
    if e.Advanced? && e.call < |s.calls| { AdvanceMovesOne(s, e.call); }
    forall control | control in t.locks ensures AtWork(t, t.locks[control], control) {
      if e.Advanced? && e.call < |s.calls| { AdvanceTakesOne(s, e.call, control); }
      if control in s.locks {
        assert AtWork(s, s.locks[control], control);
        if e == Advanced(s.locks[control]) { AdvanceAtWork(s, e.call, control); }
      }
    }
  }

  /** No call that has returned leaves its lock behind, whatever expires and whoever interferes. */
  lemma {:induction false} NoLockLeftBehind(events: seq<Event>)
    ensures LocksAtWork(Run(Empty(), events))
  {
    hide Step;
    if events != [] {
      var n := |events| - 1;
      NoLockLeftBehind(events[..n]);
      StepLocksAtWork(Run(Empty(), events[..n]), events[n]);
    }
  }

  /** A step frees a lock only as the release of the call whose token the lock carries, even when the lock of the
      releasing call had expired and was taken by another. */
  lemma OnlyTheHolderReleases(s: State, e: Event, control: string, holder: nat)
    requires Holds(s, holder, control) && e != LockExpired(control)
    ensures Holds(Step(s, e), holder, control)
            || (e == Advanced(holder) && s.calls[holder].pc.MatchRelease?
                && s.calls[holder].pc.first.entry.control == control)
  {
    if e.Advanced? && e.call < |s.calls| {
      AdvanceMovesOne(s, e.call);
      hide AdvanceJoin, AdvanceLeave, AdvanceSearch, MovesOnly;
      if !s.calls[e.call].pc.MatchLock? && !s.calls[e.call].pc.MatchRelease? { hide Advance; }
    }
  }

  lemma {:induction false} LockOutlastsOthers(s: State, events: seq<Event>, control: string, holder: nat)
    requires Holds(s, holder, control) && LockExpired(control) !in events && Advanced(holder) !in events
    ensures Holds(Run(s, events), holder, control)
  {
    hide Step, Holds;
    if events != [] {
      var n := |events| - 1;
      LockOutlastsOthers(s, events[..n], control, holder);
      OnlyTheHolderReleases(Run(s, events[..n]), events[n], control, holder);
    }
  }
}
