/** The coin wallet: emulated payments charge and refund it, and the shop spends from it.
    A request works on loaded rows and commits all of its changes, or none when it raises. */
module Wallet {
  import opened Common

  type UserId = nat

  datatype Status = StatusCreated | Succeeded | Pending | Failed | Cancelled | Expired | Refunded | Disputed

  datatype Subject = ForTournament(tournament: nat) | ForScheduledMatch(scheduledMatch: nat)

  /** `debited`, `refunded` and `walletAmount` are the wallet entries of the payment's metadata. */
  datatype Payment = Payment(
    userId: UserId, subject: Subject, amount: int, status: Status, reserved: bool,
    debited: bool, refunded: bool, walletAmount: int)

  datatype Item = Item(price: int, consumable: bool, onSale: bool)

  datatype Match = Match(players: set<UserId>, fee: int, paidBy: Option<nat>)

  /** Coins by user, payments by their row number with the log of their events, entry fees by tournament, scheduled
      matches, registrations (active or withdrawn), the shop's catalogue, and the quantities owned. */
  datatype Bank = Bank(
    coins: map<UserId, int>, payments: seq<Payment>, log: seq<(nat, Status)>,
    fees: map<nat, int>, matches: map<nat, Match>, registrations: map<(nat, UserId), bool>,
    catalogue: seq<Item>, owned: map<(UserId, nat), nat>)

  datatype Error =
    | PaymentNotFound | UnsupportedScenario | UserNotFound | NotEnoughCoins | TournamentNotFound | MatchNotFound
    | AccessDenied | ItemNotFound | AlreadyOwned

  datatype Outcome = Outcome(bank: Bank, error: Option<Error>)

  function StatusFor(scenario: string): Option<Status>
  {
    if scenario == "success" then Some(Succeeded)
    else if scenario == "pending" then Some(Pending)
    else if scenario == "failed" then Some(Failed)
    else if scenario == "cancelled" then Some(Cancelled)
    else if scenario == "expired" then Some(Expired)
    else if scenario == "refunded" then Some(Refunded)
    else if scenario == "disputed" then Some(Disputed)
    else None
  }

  // ---------------------------------------------------------------- transitions as functions

  /** `apply_wallet_charge` on the coins of the payer; the charge is refused when the coins do not reach. */
  function Charged(coins: int, p: Payment): Option<(int, Payment)>
  {
    if p.debited then Some((coins, p))
    else if p.amount > coins then None
    else Some((coins - p.amount, p.(debited := true, walletAmount := p.amount)))
  }

  /** `apply_wallet_refund`; a recorded amount of zero falls back on the payment's own amount. */
  function RefundedTo(coins: int, p: Payment): (int, Payment)
  {
    if !p.debited || p.refunded then (coins, p)
    else (coins + (if p.walletAmount != 0 then p.walletAmount else p.amount), p.(refunded := true))
  }

  /** The bank with what a paid-for payment confirms: an active registration, or a match marked as paid. */
  function Confirmed(b: Bank, k: nat, p: Payment): (Bank, Option<Error>)
  {
    match p.subject
    case ForTournament(t) =>
      if (t, p.userId) !in b.registrations && t !in b.fees then (b, Some(TournamentNotFound))
      else (b.(registrations := b.registrations[(t, p.userId) := true]), None)
    case ForScheduledMatch(m) =>
      if m !in b.matches then (b, Some(MatchNotFound))
      else (b.(matches := b.matches[m := b.matches[m].(paidBy := Some(k))]), None)
  }

  /** The bank with the registration of a refunded payment withdrawn, if there is one. */
  function Withdrawn(b: Bank, p: Payment): Bank
  {
    if p.subject.ForTournament? && (p.subject.tournament, p.userId) in b.registrations
    then b.(registrations := b.registrations[(p.subject.tournament, p.userId) := false])
    else b
  }

  /** A payment row rewritten, and the event of its new status logged. */
  function Stored(b: Bank, k: nat, p: Payment): Bank
    requires k < |b.payments|
  {
    b.(payments := b.payments[k := p], log := b.log + [(k, p.status)])
  }

  function Succeed(b: Bank, k: nat, p: Payment): Outcome
    requires k < |b.payments|
  {
    if p.userId !in b.coins then Outcome(b, Some(UserNotFound))
    else
      match Charged(b.coins[p.userId], p)
      case None => Outcome(b, Some(NotEnoughCoins))
      case Some((coins, charged)) =>
        if Confirmed(b, k, p).1.Some? then Outcome(b, Confirmed(b, k, p).1)
        else Outcome(Stored(Confirmed(b, k, p).0, k, charged).(coins := b.coins[p.userId := coins]), None)
  }

  function Refund(b: Bank, k: nat, p: Payment): Bank
    requires k < |b.payments|
  {
    if p.userId !in b.coins then Stored(Withdrawn(b, p), k, p)
    else
      var (coins, refunded) := RefundedTo(b.coins[p.userId], p);
      Stored(Withdrawn(b, p), k, refunded).(coins := b.coins[p.userId := coins])
  }

  /** `simulate` */
  function Simulate(b: Bank, k: nat, scenario: string): Outcome
  {
    if k >= |b.payments| then Outcome(b, Some(PaymentNotFound))
    else if StatusFor(scenario).None? then Outcome(b, Some(UnsupportedScenario))
    else
      var p := b.payments[k].(status := StatusFor(scenario).value);
      match p.status
      case Succeeded => Succeed(b, k, p)
      case Refunded => Outcome(Refund(b, k, p.(reserved := false)), None)
      case _ =>
        var released := p.status == Failed || p.status == Cancelled || p.status == Expired;
        Outcome(Stored(b, k, if released then p.(reserved := false) else p), None)
  }

  function Opened(b: Bank, user: UserId, subject: Subject, amount: int): Bank
  {
    b.(payments := b.payments + [Payment(user, subject, amount, StatusCreated, true, false, false, 0)],
       log := b.log + [(|b.payments|, StatusCreated)])
  }

  /** `create_entry_payment` and `create_scheduled_match_payment` */
  function CreatePayment(b: Bank, user: UserId, subject: Subject): Outcome
  {
    match subject
    case ForTournament(t) =>
      if t !in b.fees then Outcome(b, Some(TournamentNotFound)) else Outcome(Opened(b, user, subject, b.fees[t]), None)
    case ForScheduledMatch(m) =>
      if m !in b.matches then Outcome(b, Some(MatchNotFound))
      else if user !in b.matches[m].players then Outcome(b, Some(AccessDenied))
      else Outcome(Opened(b, user, subject, b.matches[m].fee), None)
  }

  function Quantity(b: Bank, user: UserId, item: nat): nat { GetOr(b.owned, (user, item), 0) }

  /** `purchase` */
  function Purchase(b: Bank, user: UserId, item: nat): Outcome
  {
    if user !in b.coins then Outcome(b, Some(UserNotFound))
    else if item >= |b.catalogue| || !b.catalogue[item].onSale then Outcome(b, Some(ItemNotFound))
    else if (user, item) in b.owned && !b.catalogue[item].consumable then Outcome(b, Some(AlreadyOwned))
    else if b.coins[user] < b.catalogue[item].price then Outcome(b, Some(NotEnoughCoins))
    else Outcome(b.(coins := b.coins[user := b.coins[user] - b.catalogue[item].price],
                    owned := b.owned[(user, item) := Quantity(b, user, item) + 1]), None)
  }

  // ---------------------------------------------------------------- the objects

  class UserAccount {
    var coins: int
    constructor (balance: int) ensures coins == balance { coins := balance; }
  }

  class PaymentIntent {
    const userId: UserId
    const subject: Subject
    const amount: int
    var status: Status
    var reserved: bool
    var debited: bool
    var refunded: bool
    var walletAmount: int

    function Value(): Payment
      reads this
    {
      Payment(userId, subject, amount, status, reserved, debited, refunded, walletAmount)
    }

    constructor (p: Payment)
      ensures Value() == p
    {
      userId, subject, amount, status, reserved := p.userId, p.subject, p.amount, p.status, p.reserved;
      debited, refunded, walletAmount := p.debited, p.refunded, p.walletAmount;
    }
  }

  method ApplyWalletCharge(user: UserAccount, payment: PaymentIntent) returns (error: Option<Error>)
    modifies user, payment
    ensures match Charged(old(user.coins), old(payment.Value()))
            case None =>
              error == Some(NotEnoughCoins) && user.coins == old(user.coins) && payment.Value() == old(payment.Value())
            case Some((coins, charged)) => error == None && user.coins == coins && payment.Value() == charged
  {
    if payment.debited { return None; }
    if payment.amount > user.coins { return Some(NotEnoughCoins); }
    user.coins := user.coins - payment.amount;
    payment.debited := true;
    payment.walletAmount := payment.amount;
    return None;
  }

  method ApplyWalletRefund(user: UserAccount, payment: PaymentIntent)
    modifies user, payment
    ensures (user.coins, payment.Value()) == RefundedTo(old(user.coins), old(payment.Value()))
  {
    if !payment.debited || payment.refunded { return; }
    user.coins := user.coins + if payment.walletAmount != 0 then payment.walletAmount else payment.amount;
    payment.refunded := true;
  }

  class WalletService {
    var coins: map<UserId, int>
    var payments: seq<Payment>
    var log: seq<(nat, Status)>
    var fees: map<nat, int>
    var matches: map<nat, Match>
    var registrations: map<(nat, UserId), bool>
    var catalogue: seq<Item>
    var owned: map<(UserId, nat), nat>

    function State(): Bank
      reads this
    {
      Bank(coins, payments, log, fees, matches, registrations, catalogue, owned)
    }

    constructor (b: Bank)
      ensures State() == b
    {
      coins, payments, log, fees, matches := b.coins, b.payments, b.log, b.fees, b.matches;
      registrations, catalogue, owned := b.registrations, b.catalogue, b.owned;
    }

    method CreateEntryPayment(user: UserId, tournament: nat) returns (error: Option<Error>)
      modifies this
      ensures Outcome(State(), error) == CreatePayment(old(State()), user, ForTournament(tournament))
    {
      if tournament !in fees { return Some(TournamentNotFound); }
      AddPayment(user, ForTournament(tournament), fees[tournament]);
      return None;
    }

    method CreateScheduledMatchPayment(user: UserId, scheduledMatch: nat) returns (error: Option<Error>)
      modifies this
      ensures Outcome(State(), error) == CreatePayment(old(State()), user, ForScheduledMatch(scheduledMatch))
    {
      if scheduledMatch !in matches { return Some(MatchNotFound); }
      if user !in matches[scheduledMatch].players { return Some(AccessDenied); }
      AddPayment(user, ForScheduledMatch(scheduledMatch), matches[scheduledMatch].fee);
      return None;
    }

    method AddPayment(user: UserId, subject: Subject, amount: int)
      modifies this
      ensures State() == Opened(old(State()), user, subject, amount)
    {
      log := log + [(|payments|, StatusCreated)];
      payments := payments + [Payment(user, subject, amount, StatusCreated, true, false, false, 0)];
    }

    /** The row of the payment is written by the commit at the end: what raises before it changes nothing. */
    method SimulatePayment(k: nat, scenario: string) returns (error: Option<Error>)
      modifies this
      ensures Outcome(State(), error) == Simulate(old(State()), k, scenario)
    {
      if k >= |payments| { return Some(PaymentNotFound); }
      var status := StatusFor(scenario);
      if status.None? { return Some(UnsupportedScenario); }
      hide StatusFor, Succeed, Refund, Stored;
      var payment := new PaymentIntent(payments[k]);
      payment.status := status.value;
      if payment.status == Succeeded {
        error := ChargeAndConfirm(k, payment);
        if error.Some? { return; }
      } else if payment.status == Refunded {
        payment.reserved := false;
        RefundAndWithdraw(k, payment);
      } else if payment.status == Failed || payment.status == Cancelled || payment.status == Expired {
        payment.reserved := false;
      }
      Save(k, payment.Value());
      return None;
    }

    /** The payment's row, and the event of its new status. */
    method Save(k: nat, p: Payment)
      requires k < |payments|
      modifies this`payments, this`log
      ensures State() == Stored(old(State()), k, p)
    {
      payments := payments[k := p];
      log := log + [(k, p.status)];
    }

    /** The branch of a successful scenario. */
    method ChargeAndConfirm(k: nat, payment: PaymentIntent) returns (error: Option<Error>)
      requires k < |payments| && payment.status == Succeeded
      modifies this`coins, this`registrations, this`matches, payment
      ensures payment.status == old(payment.status)
      ensures error == Succeed(old(State()), k, old(payment.Value())).error
      ensures if error.Some? then State() == old(State())
              else Stored(State(), k, payment.Value()) == Succeed(old(State()), k, old(payment.Value())).bank
    {
      if payment.userId !in coins { return Some(UserNotFound); }
      var user := new UserAccount(coins[payment.userId]);
      error := ApplyWalletCharge(user, payment);
      if error.Some? { return; }
      error := Confirm(k, payment.Value());
      if error.Some? { return; }
      coins := coins[payment.userId := user.coins];
    }

    /** The branch of a refund. */
    method RefundAndWithdraw(k: nat, payment: PaymentIntent)
      requires k < |payments|
      modifies this`coins, this`registrations, payment
      ensures payment.status == old(payment.status)
      ensures Stored(State(), k, payment.Value()) == Refund(old(State()), k, old(payment.Value()))
    {
      if payment.userId in coins {
        var user := new UserAccount(coins[payment.userId]);
        ApplyWalletRefund(user, payment);
        coins := coins[payment.userId := user.coins];
      }
      if payment.subject.ForTournament? && (payment.subject.tournament, payment.userId) in registrations {
        registrations := registrations[(payment.subject.tournament, payment.userId) := false];
      }
    }

    /** `_confirm_registration` and `_confirm_scheduled_match_payment` */
    method Confirm(k: nat, p: Payment) returns (error: Option<Error>)
      modifies this`registrations, this`matches
      ensures (State(), error) == Confirmed(old(State()), k, p)
    {
      match p.subject
      case ForTournament(t) =>
        if (t, p.userId) !in registrations && t !in fees { return Some(TournamentNotFound); }
        registrations := registrations[(t, p.userId) := true];
        return None;
      case ForScheduledMatch(m) =>
        if m !in matches { return Some(MatchNotFound); }
        matches := matches[m := matches[m].(paidBy := Some(k))];
        return None;
    }

    method PurchaseItem(user: UserId, item: nat) returns (error: Option<Error>)
      modifies this
      ensures Outcome(State(), error) == Purchase(old(State()), user, item)
    {
      if user !in coins { return Some(UserNotFound); }
      if item >= |catalogue| || !catalogue[item].onSale { return Some(ItemNotFound); }
      var quantity := GetOr(owned, (user, item), 0);
      if (user, item) in owned && !catalogue[item].consumable { return Some(AlreadyOwned); }
      if coins[user] < catalogue[item].price { return Some(NotEnoughCoins); }
      coins := coins[user := coins[user] - catalogue[item].price];
      owned := owned[(user, item) := quantity + 1];
      return None;
    }
  }
}
