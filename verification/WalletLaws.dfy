/** What every run of payments, scenarios and purchases keeps: the coins, what a payment takes, and the seats. */
module WalletLaws {
  import opened Common
  import opened Wallet

  datatype Event =
    | PaymentCreated(user: UserId, subject: Subject)
    | Simulated(payment: nat, scenario: string)
    | Purchased(user: UserId, item: nat)

  function Step(b: Bank, e: Event): Bank
  {
    match e
    case PaymentCreated(user, subject) => CreatePayment(b, user, subject).bank
    case Simulated(k, scenario) => Simulate(b, k, scenario).bank
    case Purchased(user, item) => Purchase(b, user, item).bank
  }

  function Run(b: Bank, events: seq<Event>): Bank
  {
    if events == [] then b else Step(Run(b, events[..|events| - 1]), events[|events| - 1])
  }

  /** Coins a payment holds: taken and not given back. */
  function Held(p: Payment): int { if p.debited && !p.refunded then p.walletAmount else 0 }

  function HeldFor(user: UserId): Payment -> int { (p: Payment) => if p.userId == user then Held(p) else 0 }

  function Numbers(n: nat): (s: seq<nat>)
    ensures |s| == n && (forall i | 0 <= i < n :: s[i] == i) && Distinct(s)
  {
    if n == 0 then [] else Numbers(n - 1) + [n - 1]
  }

  function SpentOn(b: Bank, user: UserId): nat -> int
  {
    (item: nat) => if item < |b.catalogue| then b.catalogue[item].price * Quantity(b, user, item) else 0
  }

  /** Everything a user's coins went to, with the coins left. */
  function Wealth(b: Bank, user: UserId): int
    requires user in b.coins
  {
    b.coins[user] + Sum(HeldFor(user), b.payments) + Sum(SpentOn(b, user), Numbers(|b.catalogue|))
  }

  /** A refunded payment was debited, a debited one recorded its amount, and a successful one was debited. */
  ghost predicate Sound(p: Payment)
  {
    && (p.refunded ==> p.debited)
    && (p.debited ==> p.walletAmount == p.amount)
    && (p.status == Succeeded ==> p.debited)
  }

  ghost predicate Books(b: Bank) { forall i | 0 <= i < |b.payments| :: Sound(b.payments[i]) }

  /** Prices, fees and possessions are as before. */
  ghost predicate SameGoods(b: Bank, b': Bank)
  {
    && b'.catalogue == b.catalogue && b'.owned == b.owned && b'.fees == b.fees && b'.matches.Keys == b.matches.Keys
    && forall m | m in b.matches ::
       b'.matches[m].fee == b.matches[m].fee && b'.matches[m].players == b.matches[m].players
  }

  /** Payment `k` alone is rewritten, its flags are not taken back, and its payer's coins move by what it holds less. */
  ghost predicate Moves(b: Bank, b': Bank, k: nat)
    requires k < |b.payments|
  {
    && |b'.payments| == |b.payments|
    && var p, p' := b.payments[k], b'.payments[k];
       && b'.payments == b.payments[k := p'] && b'.log == b.log + [(k, p'.status)]
       && p'.userId == p.userId && p'.subject == p.subject && p'.amount == p.amount && Sound(p')
       && (p.debited ==> p'.debited) && (p.refunded ==> p'.refunded)
       && b'.coins == (if p.userId in b.coins then b.coins[p.userId := b.coins[p.userId] + Held(p) - Held(p')]
                       else b.coins)
       && (p.userId !in b.coins ==> Held(p') == Held(p))
       && (p.userId in b.coins && p.amount >= 0 && b.coins[p.userId] >= 0 ==> b'.coins[p.userId] >= 0)
  }

  lemma ConfirmedKeeps(b: Bank, k: nat, p: Payment)
    ensures var c := Confirmed(b, k, p).0;
            SameGoods(b, c) && c == b.(registrations := c.registrations, matches := c.matches)
  {
  }

  lemma SucceedMoves(b: Bank, k: nat)
    requires k < |b.payments| && Sound(b.payments[k])
    ensures var o := Succeed(b, k, b.payments[k].(status := Succeeded));
            o.error.None? ==> Moves(b, o.bank, k) && SameGoods(b, o.bank)
  {
    ConfirmedKeeps(b, k, b.payments[k].(status := Succeeded));
    hide Confirmed;
  }

  lemma RefundHolds(coins: int, p: Payment)
    requires (p.debited ==> p.walletAmount == p.amount) && (p.refunded ==> p.debited)
    ensures var (after, p') := RefundedTo(coins, p);
            && after == coins + Held(p) - Held(p') && p' == p.(refunded := p'.refunded)
            && (p.refunded ==> p'.refunded) && (p'.refunded ==> p.debited) && (p.amount >= 0 ==> after >= coins)
  {
  }

  lemma RefundMoves(b: Bank, k: nat)
    requires k < |b.payments| && Sound(b.payments[k])
    ensures var b' := Refund(b, k, b.payments[k].(status := Refunded, reserved := false));
            Moves(b, b', k) && SameGoods(b, b')
  {
    var p := b.payments[k].(status := Refunded, reserved := false);
    assert Withdrawn(b, p) == b.(registrations := Withdrawn(b, p).registrations);
    hide Withdrawn;
    if p.userId in b.coins { RefundHolds(b.coins[p.userId], p); }
    hide RefundedTo, Held;
  }

  lemma StoredMoves(b: Bank, k: nat, p: Payment)
    requires k < |b.payments| && Sound(b.payments[k]) && p.status != Succeeded
    requires p == b.payments[k].(status := p.status, reserved := p.reserved)
    ensures Moves(b, Stored(b, k, p), k) && SameGoods(b, Stored(b, k, p))
  {
    if b.payments[k].userId in b.coins {
      assert b.coins[b.payments[k].userId := b.coins[b.payments[k].userId]] == b.coins;
    }
  }

  lemma SimulateCases(b: Bank, k: nat, scenario: string) returns (q: Payment)
    requires k < |b.payments| && StatusFor(scenario).Some?
    ensures var p := b.payments[k].(status := StatusFor(scenario).value);
            && (p.status == Succeeded ==> Simulate(b, k, scenario) == Succeed(b, k, p))
            && (p.status == Refunded ==> Simulate(b, k, scenario) == Outcome(Refund(b, k, p.(reserved := false)), None))
            && (p.status != Succeeded && p.status != Refunded ==>
                  Simulate(b, k, scenario) == Outcome(Stored(b, k, q), None) && q == p.(reserved := q.reserved))
  {
    hide StatusFor, Succeed, Refund, Stored;
    var p := b.payments[k].(status := StatusFor(scenario).value);
    q := if p.status == Failed || p.status == Cancelled || p.status == Expired then p.(reserved := false) else p;
  }

  lemma StoredStatus(b: Bank, k: nat, p: Payment)
    requires k < |b.payments|
    ensures |Stored(b, k, p).payments| == |b.payments| && Stored(b, k, p).payments[k].status == p.status
  {
  }

  lemma SucceedStatus(b: Bank, k: nat)
    requires k < |b.payments|
    ensures var o := Succeed(b, k, b.payments[k].(status := Succeeded));
            o.error.None? ==> |o.bank.payments| == |b.payments| && o.bank.payments[k].status == Succeeded
    ensures var b' := Refund(b, k, b.payments[k].(status := Refunded, reserved := false));
            |b'.payments| == |b.payments| && b'.payments[k].status == Refunded
  {
    ConfirmedKeeps(b, k, b.payments[k].(status := Succeeded));
    hide Confirmed;
  }

  lemma SimulateStep(b: Bank, k: nat, scenario: string)
    requires Books(b) && k < |b.payments| && Simulate(b, k, scenario).error.None?
    ensures Moves(b, Simulate(b, k, scenario).bank, k) && SameGoods(b, Simulate(b, k, scenario).bank)
    ensures StatusFor(scenario) == Some(Simulate(b, k, scenario).bank.payments[k].status)
  {
    assert StatusFor(scenario).Some? && Sound(b.payments[k]) by { hide StatusFor, Succeed, Refund; }
    hide StatusFor, Simulate, Succeed, Refund, Moves, SameGoods, Sound, Stored;
    SucceedMoves(b, k);
    RefundMoves(b, k);
    SucceedStatus(b, k);
    var q := SimulateCases(b, k, scenario);
    var status := StatusFor(scenario).value;
    if status != Succeeded && status != Refunded {
      StoredMoves(b, k, q);
      StoredStatus(b, k, q);
    }
  }

  lemma SumNumbersDiffer(f: nat -> int, g: nat -> int, n: nat, k: nat)
    requires k < n && forall i: nat | i != k :: f(i) == g(i)
    ensures Sum(g, Numbers(n)) == Sum(f, Numbers(n)) - f(k) + g(k)
  {
    assert Numbers(n)[k] == k;
    SumDiffer(f, g, Numbers(n), k);
  }

  lemma PurchaseSpends(b: Bank, buyer: UserId, item: nat, user: UserId, i: nat)
    requires Purchase(b, buyer, item).error.None?
    ensures var spent := if user == buyer && i == item then b.catalogue[item].price else 0;
            SpentOn(Purchase(b, buyer, item).bank, user)(i) == SpentOn(b, user)(i) + spent
  {
    var q := Quantity(b, buyer, item);
    assert b.catalogue[item].price * (q + 1) == b.catalogue[item].price * q + b.catalogue[item].price;
    if user != buyer || i != item { assert (user, i) != (buyer, item); }
  }

  lemma PurchaseConserves(b: Bank, buyer: UserId, item: nat, user: UserId)
    requires Purchase(b, buyer, item).error.None? && user in b.coins
    ensures var b' := Purchase(b, buyer, item).bank; user in b'.coins && Wealth(b', user) == Wealth(b, user)
  {
    var b' := Purchase(b, buyer, item).bank;
    hide Sum, Quantity, SpentOn, HeldFor;
    forall i: nat ensures user != buyer || i != item ==> SpentOn(b', user)(i) == SpentOn(b, user)(i) {
      PurchaseSpends(b, buyer, item, user, i);
    }
    PurchaseSpends(b, buyer, item, user, item);
    if user == buyer {
      SumNumbersDiffer(SpentOn(b, user), SpentOn(b', user), |b.catalogue|, item);
    } else {
      SumEqual(SpentOn(b, user), SpentOn(b', user), Numbers(|b.catalogue|));
    }
  }

  /** A request that raises leaves everything as it was. */
  lemma RefusedUnchanged(b: Bank, k: nat, scenario: string)
    ensures Simulate(b, k, scenario).error.Some? ==> Simulate(b, k, scenario).bank == b
  {
    hide StatusFor;
  }

  lemma SimulateConserves(b: Bank, k: nat, scenario: string, user: UserId)
    requires Books(b) && user in b.coins
    ensures var b' := Simulate(b, k, scenario).bank; user in b'.coins && Wealth(b', user) == Wealth(b, user)
  {
    if Simulate(b, k, scenario).error.None? {
      SimulateStep(b, k, scenario);
      var b' := Simulate(b, k, scenario).bank;
      hide Simulate, Sum, Held;
      SumUpdate(HeldFor(user), b.payments, k, b'.payments[k]);
      forall i: nat ensures SpentOn(b, user)(i) == SpentOn(b', user)(i) {}
      SumEqual(SpentOn(b, user), SpentOn(b', user), Numbers(|b.catalogue|));
    } else {
      RefusedUnchanged(b, k, scenario);
    }
  }

  lemma OpenedConserves(b: Bank, u: UserId, subject: Subject, amount: int, user: UserId)
    requires Books(b) && user in b.coins
    ensures var b' := Opened(b, u, subject, amount);
            Books(b') && user in b'.coins && Wealth(b', user) == Wealth(b, user)
  {
    var b' := Opened(b, u, subject, amount);
    SumSnoc(HeldFor(user), b.payments, b'.payments[|b.payments|]);
    forall i: nat ensures SpentOn(b, user)(i) == SpentOn(b', user)(i) {}
    SumEqual(SpentOn(b, user), SpentOn(b', user), Numbers(|b.catalogue|));
  }

  lemma StepBooks(b: Bank, e: Event)
    requires Books(b)
    ensures Books(Step(b, e)) && |Step(b, e).payments| >= |b.payments|
    ensures forall i | 0 <= i < |b.payments| ::
              var p, p' := b.payments[i], Step(b, e).payments[i];
              (p.debited ==> p'.debited) && (p.refunded ==> p'.refunded)
  {
    if e.Simulated? {
      RefusedUnchanged(b, e.payment, e.scenario);
      if Simulate(b, e.payment, e.scenario).error.None? {
        SimulateStep(b, e.payment, e.scenario);
        hide Simulate;
      }
    }
  }

  lemma StepConserves(b: Bank, e: Event, user: UserId)
    requires Books(b) && user in b.coins
    ensures Books(Step(b, e)) && user in Step(b, e).coins && Wealth(Step(b, e), user) == Wealth(b, user)
  {
    hide Opened, Wealth, Sum, Numbers, StatusFor;
    match e
    case PaymentCreated(u, ForTournament(t)) =>
      if t in b.fees { OpenedConserves(b, u, ForTournament(t), b.fees[t], user); }
    case PaymentCreated(u, ForScheduledMatch(m)) =>
      if m in b.matches { OpenedConserves(b, u, ForScheduledMatch(m), b.matches[m].fee, user); }
    case Simulated(k, scenario) =>
      SimulateConserves(b, k, scenario, user);
      StepBooks(b, e);
    case Purchased(buyer, item) =>
      if Purchase(b, buyer, item).error.None? { PurchaseConserves(b, buyer, item, user); }
  }

  /** Over any run of payments, scenarios and purchases, a user's coins, the coins held by that user's payments and
      the coins spent in the shop add up to the same total. */
  lemma {:induction false} WalletConservation(b: Bank, events: seq<Event>, user: UserId)
    requires Books(b) && user in b.coins
    ensures Books(Run(b, events)) && user in Run(b, events).coins && Wealth(Run(b, events), user) == Wealth(b, user)
  {
    hide Step, Wealth, Books;
    if events != [] {
      var n := |events| - 1;
      WalletConservation(b, events[..n], user);
      StepConserves(Run(b, events[..n]), events[n], user);
    }
  }

  ghost predicate Solvent(b: Bank)
  {
    && (forall user | user in b.coins :: b.coins[user] >= 0)
    && (forall i | 0 <= i < |b.payments| :: b.payments[i].amount >= 0)
    && (forall i | 0 <= i < |b.catalogue| :: b.catalogue[i].price >= 0)
    && (forall t | t in b.fees :: b.fees[t] >= 0) && (forall m | m in b.matches :: b.matches[m].fee >= 0)
  }

  lemma StepSolvent(b: Bank, e: Event)
    requires Books(b) && Solvent(b)
    ensures Solvent(Step(b, e))
  {
    if e.Simulated? {
      RefusedUnchanged(b, e.payment, e.scenario);
      if Simulate(b, e.payment, e.scenario).error.None? {
        SimulateStep(b, e.payment, e.scenario);
        hide Simulate, Held;
      }
    }
  }

  /** With fees, amounts and prices that are not negative no run ever drives anybody's coins below zero. */
  lemma {:induction false} NeverOverdrawn(b: Bank, events: seq<Event>)
    requires Books(b) && Solvent(b)
    ensures Books(Run(b, events)) && Solvent(Run(b, events))
  {
    hide Step, Books, Solvent;
    if events != [] {
      var n := |events| - 1;
      NeverOverdrawn(b, events[..n]);
      StepSolvent(Run(b, events[..n]), events[n]);
      StepBooks(Run(b, events[..n]), events[n]);
    }
  }

  // ---------------------------------------------------------------- one payment over a run

  /** Coins one simulated scenario took from, or gave back to, the payer of payment `k`. */
  function Taken(b: Bank, e: Event, k: nat): int
  {
    if && k < |b.payments| && e.Simulated? && e.payment == k
       && b.payments[k].userId in b.coins && b.payments[k].userId in Step(b, e).coins
    then b.coins[b.payments[k].userId] - Step(b, e).coins[b.payments[k].userId]
    else 0
  }

  function TakenBy(b: Bank, events: seq<Event>, k: nat): int
  {
    if events == [] then 0
    else
      var before := Run(b, events[..|events| - 1]);
      TakenBy(b, events[..|events| - 1], k) + Taken(before, events[|events| - 1], k)
  }

  function HeldBy(b: Bank, k: nat): int { if k < |b.payments| then Held(b.payments[k]) else 0 }

  lemma StepTaken(b: Bank, e: Event, k: nat)
    requires Books(b)
    ensures Taken(b, e, k) == HeldBy(Step(b, e), k) - HeldBy(b, k)
  {
    if e.Simulated? {
      RefusedUnchanged(b, e.payment, e.scenario);
      if Simulate(b, e.payment, e.scenario).error.None? {
        SimulateStep(b, e.payment, e.scenario);
        hide Simulate, Held;
      }
    }
  }

  lemma HeldIsAmount(b: Bank, k: nat)
    requires Books(b)
    ensures k < |b.payments|
            ==> HeldBy(b, k) == if b.payments[k].debited && !b.payments[k].refunded then b.payments[k].amount else 0
  {
  }

  /** However its scenarios are ordered and repeated, what a payment has taken from its payer in all is what it
      holds: its amount once, or nothing once it is refunded. It is charged and refunded at most once. */
  lemma {:induction false} PaymentTakesItsAmountOnce(b: Bank, events: seq<Event>, k: nat)
    requires Books(b) && k >= |b.payments|
    ensures Books(Run(b, events))
    ensures TakenBy(b, events, k) == HeldBy(Run(b, events), k)
    ensures k < |Run(b, events).payments| ==>
              var p := Run(b, events).payments[k];
              TakenBy(b, events, k) == if p.debited && !p.refunded then p.amount else 0
  {
    hide Step, Taken, Held;
    if events != [] {
      var n := |events| - 1;
      PaymentTakesItsAmountOnce(b, events[..n], k);
      StepTaken(Run(b, events[..n]), events[n], k);
      StepBooks(Run(b, events[..n]), events[n]);
    }
    HeldIsAmount(Run(b, events), k);
  }

  /** A payment that reports success holds its amount exactly when it was not refunded before:
      success after a refund is accepted without charging again. */
  lemma SuccessHoldsAmountIff(b: Bank, k: nat)
    requires Books(b) && k < |b.payments| && b.payments[k].amount != 0
    requires Simulate(b, k, "success").error.None?
    ensures var p := Simulate(b, k, "success").bank.payments[k];
            p.status == Succeeded && (Held(p) == p.amount <==> !b.payments[k].refunded)
  {
  }

  // ---------------------------------------------------------------- seats

  predicate SameSeat(p: Payment, q: Payment) { p.subject == q.subject && p.userId == q.userId }

  /** Whether the seat a payment is for is taken: registered, and not withdrawn. */
  predicate Seated(b: Bank, p: Payment)
  {
    p.subject.ForTournament? && GetOr(b.registrations, (p.subject.tournament, p.userId), false)
  }

  /** What `kind` promises, success or refund: the player of every tournament payment that succeeded is registered, or
      the player of none that was refunded is. */
  ghost predicate SeatsFollow(b: Bank, kind: Status)
  {
    forall k | 0 <= k < |b.payments| && b.payments[k].subject.ForTournament? && b.payments[k].status == kind ::
      Seated(b, b.payments[k]) == (kind == Succeeded)
  }

  /** Another payment of the same player for the same tournament has the status. */
  ghost predicate OtherWith(b: Bank, j: nat, status: Status)
    requires j < |b.payments|
  {
    && b.payments[j].subject.ForTournament?
    && exists k ::
         0 <= k < |b.payments| && k != j && SameSeat(b.payments[k], b.payments[j]) && b.payments[k].status == status
  }

  /** The registrations once a payment for `subject` by `user` has taken `status`. */
  function Registered(registrations: map<(nat, UserId), bool>, user: UserId, subject: Subject,
      status: Status): map<(nat, UserId), bool>
  {
    match subject
    case ForScheduledMatch(_) => registrations
    case ForTournament(t) =>
      if status == Succeeded then registrations[(t, user) := true]
      else if status == Refunded && (t, user) in registrations then registrations[(t, user) := false]
      else registrations
  }

  lemma ConfirmedRegisters(b: Bank, k: nat, p: Payment)
    ensures Confirmed(b, k, p).1.None?
            ==> Confirmed(b, k, p).0.registrations == Registered(b.registrations, p.userId, p.subject, Succeeded)
    ensures Withdrawn(b, p).registrations == Registered(b.registrations, p.userId, p.subject, Refunded)
  {
  }

  lemma SucceedRegisters(b: Bank, k: nat)
    requires k < |b.payments|
    ensures var p := b.payments[k]; var o := Succeed(b, k, p.(status := Succeeded));
            o.error.None? ==> o.bank.registrations == Registered(b.registrations, p.userId, p.subject, Succeeded)
  {
    ConfirmedRegisters(b, k, b.payments[k].(status := Succeeded));
    hide Charged, Confirmed, Registered;
  }

  lemma RefundRegisters(b: Bank, k: nat)
    requires k < |b.payments|
    ensures var p := b.payments[k];
            Refund(b, k, p.(status := Refunded, reserved := false)).registrations
              == Registered(b.registrations, p.userId, p.subject, Refunded)
  {
    ConfirmedRegisters(b, k, b.payments[k].(status := Refunded, reserved := false));
    hide RefundedTo, Withdrawn, Registered;
  }

  lemma StoredRegisters(b: Bank, k: nat, q: Payment)
    requires k < |b.payments| && q.status != Succeeded && q.status != Refunded
    ensures Stored(b, k, q).registrations == Registered(b.registrations, q.userId, q.subject, q.status)
  {
  }

  lemma ScenarioRegisters(b: Bank, k: nat, scenario: string)
    requires k < |b.payments| && Simulate(b, k, scenario).error.None?
    ensures StatusFor(scenario).Some?
    ensures Simulate(b, k, scenario).bank.registrations
         == Registered(b.registrations, b.payments[k].userId, b.payments[k].subject, StatusFor(scenario).value)
  {
    assert StatusFor(scenario).Some? by { hide StatusFor, Succeed, Refund; }
    hide StatusFor, Simulate, Succeed, Refund, Stored, Registered;
    SucceedRegisters(b, k);
    RefundRegisters(b, k);
    var q := SimulateCases(b, k, scenario);
    if q.status != Succeeded && q.status != Refunded { StoredRegisters(b, k, q); }
  }

  /** Payment `j` alone has changed, its status to `status` and its seat with it. */
  ghost predicate Restated(b: Bank, b': Bank, j: nat, status: Status)
  {
    && j < |b.payments| == |b'.payments|
    && b'.payments == b.payments[j := b'.payments[j]] && SameSeat(b'.payments[j], b.payments[j])
    && b'.payments[j].status == status
    && b'.registrations == Registered(b.registrations, b.payments[j].userId, b.payments[j].subject, status)
  }

  lemma ScenarioRestates(b: Bank, j: nat, scenario: string)
    requires Books(b) && j < |b.payments| && Simulate(b, j, scenario).error.None?
    ensures StatusFor(scenario).Some? && Restated(b, Simulate(b, j, scenario).bank, j, StatusFor(scenario).value)
  {
    SimulateStep(b, j, scenario);
    ScenarioRegisters(b, j, scenario);
    hide Simulate, StatusFor, Held, Sound, SameGoods, Books, Registered;
  }

  /** Whether the player of `q` is registered once `p` has taken `status`. */
  predicate SeatedAfter(b: Bank, q: Payment, p: Payment, status: Status)
  {
    if SameSeat(q, p) && q.subject.ForTournament? && status == Succeeded then true
    else if SameSeat(q, p) && status == Refunded then false
    else Seated(b, q)
  }

  lemma RestatedSeat(b: Bank, b': Bank, j: nat, status: Status, q: Payment)
    requires Restated(b, b', j, status)
    ensures Seated(b', q) == SeatedAfter(b, q, b.payments[j], status)
  {
  }

  function Opposite(kind: Status): Status { if kind == Succeeded then Refunded else Succeeded }

  lemma RestatedSeats(b: Bank, b': Bank, j: nat, status: Status, kind: Status)
    requires Restated(b, b', j, status) && SeatsFollow(b, kind) && (kind == Succeeded || kind == Refunded)
    ensures SeatsFollow(b', kind) <==> !(status == Opposite(kind) && OtherWith(b, j, kind))
  {
    forall q ensures Seated(b', q) == SeatedAfter(b, q, b.payments[j], status) { RestatedSeat(b, b', j, status, q); }
    hide Seated, Registered;
    assert forall k | 0 <= k < |b.payments| && k != j :: b'.payments[k] == b.payments[k];
  }

  /** A refund keeps the players of successful payments registered if and only if the player has no other successful
      payment for the tournament: one refund withdraws the player whatever else was paid for the seat. The other rows
      stay as they are, and so do the coins they hold. */
  lemma RefundKeepsSeatsIff(b: Bank, j: nat)
    requires Books(b) && SeatsFollow(b, Succeeded) && j < |b.payments|
    ensures var b' := Simulate(b, j, "refunded").bank;
            && (SeatsFollow(b', Succeeded) <==> !OtherWith(b, j, Succeeded))
            && |b'.payments| == |b.payments|
            && forall k | 0 <= k < |b.payments| && k != j :: b'.payments[k] == b.payments[k]
  {
    assert StatusFor("refunded") == Some(Refunded);
    assert Simulate(b, j, "refunded").error.None? by { hide StatusFor, Refund; }
    ScenarioRestates(b, j, "refunded");
    hide StatusFor, Simulate, Books, SeatsFollow, OtherWith;
    RestatedSeats(b, Simulate(b, j, "refunded").bank, j, Refunded, Succeeded);
  }

  /** Every other scenario, and every scenario that is refused, keeps them registered. */
  lemma OtherScenariosKeepSeats(b: Bank, j: nat, scenario: string)
    requires Books(b) && SeatsFollow(b, Succeeded) && j < |b.payments| && StatusFor(scenario) != Some(Refunded)
    ensures SeatsFollow(Simulate(b, j, scenario).bank, Succeeded)
  {
    RefusedUnchanged(b, j, scenario);
    hide StatusFor, Simulate, SeatsFollow, OtherWith;
    if Simulate(b, j, scenario).error.None? {
      ScenarioRestates(b, j, scenario);
      RestatedSeats(b, Simulate(b, j, scenario).bank, j, StatusFor(scenario).value, Succeeded);
    }
  }

  // ---------------------------------------------------------------- seats over a run

  /** A refund while another payment for the seat is successful; for refunds, a success while another is refunded. */
  ghost predicate Clashes(b: Bank, e: Event, kind: Status)
  {
    && e.Simulated? && e.payment < |b.payments| && Simulate(b, e.payment, e.scenario).error.None?
    && StatusFor(e.scenario) == Some(Opposite(kind)) && OtherWith(b, e.payment, kind)
  }

  lemma OpenedSeats(b: Bank, user: UserId, subject: Subject, amount: int, kind: Status)
    requires SeatsFollow(b, kind) && (kind == Succeeded || kind == Refunded)
    ensures SeatsFollow(Opened(b, user, subject, amount), kind)
  {
    var b' := Opened(b, user, subject, amount);
    assert forall q :: Seated(b', q) == Seated(b, q);
    assert forall k | 0 <= k < |b.payments| :: b'.payments[k] == b.payments[k];
    hide Seated;
  }

  lemma SameSeats(b: Bank, b': Bank, kind: Status)
    requires SeatsFollow(b, kind) && b'.payments == b.payments && b'.registrations == b.registrations
    ensures SeatsFollow(b', kind)
  {
    assert forall q :: Seated(b', q) == Seated(b, q);
    hide Seated;
  }

  lemma NoSuchPayment(b: Bank, j: nat, scenario: string)
    ensures j >= |b.payments| ==> Simulate(b, j, scenario).bank == b
  {
    hide StatusFor;
  }

  lemma SimulatedSeats(b: Bank, e: Event, kind: Status)
    requires Books(b) && SeatsFollow(b, kind) && (kind == Succeeded || kind == Refunded) && e.Simulated?
    ensures SeatsFollow(Step(b, e), kind) <==> !Clashes(b, e, kind)
  {
    var j, scenario := e.payment, e.scenario;
    RefusedUnchanged(b, j, scenario);
    hide StatusFor, Simulate, Books, SeatsFollow, OtherWith, Opposite;
    if j < |b.payments| && Simulate(b, j, scenario).error.None? {
      ScenarioRestates(b, j, scenario);
      RestatedSeats(b, Step(b, e), j, StatusFor(scenario).value, kind);
    } else {
      assert j >= |b.payments| ==> Simulate(b, j, scenario).bank == b by { NoSuchPayment(b, j, scenario); }
    }
  }

  lemma StepSeatsIff(b: Bank, e: Event, kind: Status)
    requires Books(b) && SeatsFollow(b, kind) && (kind == Succeeded || kind == Refunded)
    ensures SeatsFollow(Step(b, e), kind) <==> !Clashes(b, e, kind)
  {
    hide SeatsFollow, Opened, Simulate, Books;
    match e
    case Simulated(_, _) => SimulatedSeats(b, e, kind);
    case PaymentCreated(u, ForTournament(t)) =>
      if t in b.fees { OpenedSeats(b, u, ForTournament(t), b.fees[t], kind); }
    case PaymentCreated(u, ForScheduledMatch(m)) =>
      if m in b.matches { OpenedSeats(b, u, ForScheduledMatch(m), b.matches[m].fee, kind); }
    case Purchased(buyer, item) =>
      SameSeats(b, Purchase(b, buyer, item).bank, kind);
  }

  /** The seats follow the payments of the kind all along a run. */
  ghost predicate AlwaysFollow(b: Bank, events: seq<Event>, kind: Status)
  {
    SeatsFollow(Run(b, events), kind) && (events != [] ==> AlwaysFollow(b, events[..|events| - 1], kind))
  }

  ghost predicate NeverClashes(b: Bank, events: seq<Event>, kind: Status)
  {
    events != [] ==>
      var n := |events| - 1;
      NeverClashes(b, events[..n], kind) && !Clashes(Run(b, events[..n]), events[n], kind)
  }

  lemma FollowNow(b: Bank, events: seq<Event>, kind: Status)
    ensures AlwaysFollow(b, events, kind) ==> SeatsFollow(Run(b, events), kind)
  {
  }

  /** Over any run the players of successful payments are registered all along if and only if no payment is refunded
      while another one for its seat is successful; and those of refunded payments stay withdrawn all along if and only
      if none succeeds while another one for its seat is refunded. */
  lemma {:induction false} RegistrationFollowsPayment(b: Bank, events: seq<Event>, kind: Status)
    requires Books(b) && SeatsFollow(b, kind) && (kind == Succeeded || kind == Refunded)
    ensures Books(Run(b, events)) && (AlwaysFollow(b, events, kind) <==> NeverClashes(b, events, kind))
  {
    hide Step, Books, SeatsFollow, Clashes;
    if events != [] {
      var n := |events| - 1;
      RegistrationFollowsPayment(b, events[..n], kind);
      StepBooks(Run(b, events[..n]), events[n]);
      if SeatsFollow(Run(b, events[..n]), kind) { StepSeatsIff(Run(b, events[..n]), events[n], kind); }
      FollowNow(b, events[..n], kind);
    }
  }

  /** One user, one payment for a tournament with an entry fee of 500, and the registrations. */
  function Desk(coins: int, payments: seq<Payment>, registrations: map<(nat, UserId), bool>,
      log: seq<(nat, Status)>): Bank
  {
    Bank(map[1 := coins], payments, log, map[7 := 500], map[], registrations, [], map[])
  }

  function EntryPayment(status: Status, reserved: bool, debited: bool, refunded: bool): Payment
  {
    Payment(1, ForTournament(7), 500, status, reserved, debited, refunded, if debited then 500 else 0)
  }

  lemma PaysFirst(log: seq<(nat, Status)>)
    ensures Simulate(Desk(2000, [EntryPayment(StatusCreated, true, false, false)], map[], log), 0, "success").bank
         == Desk(1500, [EntryPayment(Succeeded, true, true, false)], map[(7, 1) := true], log + [(0, Succeeded)])
  {
    assert StatusFor("success") == Some(Succeeded);
    hide StatusFor;
    assert map[1 := 2000][1 := 1500] == map[1 := 1500];
  }

  lemma IsRefunded(log: seq<(nat, Status)>)
    ensures Simulate(
              Desk(1500, [EntryPayment(Succeeded, true, true, false)], map[(7, 1) := true], log), 0, "refunded").bank
         == Desk(2000, [EntryPayment(Refunded, false, true, true)], map[(7, 1) := false], log + [(0, Refunded)])
  {
    assert StatusFor("refunded") == Some(Refunded);
    hide StatusFor;
    assert map[1 := 1500][1 := 2000] == map[1 := 2000];
  }

  lemma PaysAgain(log: seq<(nat, Status)>)
    ensures Simulate(
              Desk(2000, [EntryPayment(Refunded, false, true, true)], map[(7, 1) := false], log), 0, "success").bank
         == Desk(2000, [EntryPayment(Succeeded, false, true, true)], map[(7, 1) := true], log + [(0, Succeeded)])
  {
    assert StatusFor("success") == Some(Succeeded);
    hide StatusFor;
    assert map[1 := 2000][1 := 2000] == map[1 := 2000];
  }

  lemma RunSnoc(b: Bank, events: seq<Event>, e: Event)
    ensures Run(b, events + [e]) == Step(Run(b, events), e)
  {
    assert (events + [e])[..|events|] == events;
  }

  lemma RunOfFour(b: Bank, e0: Event, e1: Event, e2: Event, e3: Event)
    ensures Run(b, [e0, e1, e2, e3]) == Step(Step(Step(Step(b, e0), e1), e2), e3)
  {
    assert Run(b, []) == b;
    hide Run, Step;
    RunSnoc(b, [], e0);
    RunSnoc(b, [e0], e1);
    RunSnoc(b, [e0, e1], e2);
    RunSnoc(b, [e0, e1, e2], e3);
    assert [] + [e0] == [e0] && [e0] + [e1] == [e0, e1] && [e0, e1] + [e2] == [e0, e1, e2];
    assert [e0, e1, e2] + [e3] == [e0, e1, e2, e3];
  }

  lemma OpensFirst()
    ensures Step(Desk(2000, [], map[], []), PaymentCreated(1, ForTournament(7)))
         == Desk(2000, [EntryPayment(StatusCreated, true, false, false)], map[], [(0, StatusCreated)])
  {
    hide Simulate;
  }

  /** Paid, refunded and paid again: the payment ends up successful, the player registered, and all coins back. */
  lemma SuccessAfterRefundIsFree()
    ensures var events := [PaymentCreated(1, ForTournament(7)),
                           Simulated(0, "success"), Simulated(0, "refunded"), Simulated(0, "success")];
            var b := Run(Desk(2000, [], map[], []), events);
            && |b.payments| == 1 && b.payments[0].status == Succeeded && b.registrations == map[(7, 1) := true]
            && 1 in b.coins && b.coins[1] == 2000
  {
    var e, f := Simulated(0, "success"), Simulated(0, "refunded");
    RunOfFour(Desk(2000, [], map[], []), PaymentCreated(1, ForTournament(7)), e, f, e);
    OpensFirst();
    PaysFirst([(0, StatusCreated)]);
    IsRefunded([(0, StatusCreated)] + [(0, Succeeded)]);
    PaysAgain([(0, StatusCreated)] + [(0, Succeeded)] + [(0, Refunded)]);
    hide Simulate, Run;
  }
}
