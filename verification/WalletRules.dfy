/** What each wallet request asks for and what it changes, said of the bank itself. */
module WalletRules {
  import opened Common
  import opened Wallet
  import opened WalletLaws

  /** The status each scenario is named for. */
  lemma ScenarioNames()
    ensures StatusFor("success") == Some(Succeeded) && StatusFor("refunded") == Some(Refunded)
    ensures StatusFor("pending") == Some(Pending) && StatusFor("failed") == Some(Failed)
    ensures StatusFor("cancelled") == Some(Cancelled) && StatusFor("expired") == Some(Expired)
    ensures StatusFor("disputed") == Some(Disputed)
  {
  }

  const SCENARIOS: seq<string> := ["success", "pending", "failed", "cancelled", "expired", "refunded", "disputed"]

  lemma OnlyTheseScenarios(scenario: string)
    ensures StatusFor(scenario).Some? <==> scenario in SCENARIOS
  {
  }

  /** What a payment for the subject needs besides coins. */
  predicate SubjectKnown(b: Bank, p: Payment)
  {
    match p.subject
    case ForTournament(t) => (t, p.userId) in b.registrations || t in b.fees
    case ForScheduledMatch(m) => m in b.matches
  }

  /** A success is accepted from a known user who was charged before or has the coins, for a known subject. */
  lemma SuccessAcceptedIff(b: Bank, k: nat)
    requires k < |b.payments|
    ensures var error, p := Simulate(b, k, "success").error, b.payments[k];
            && (error == None <==>
                  p.userId in b.coins && (p.debited || p.amount <= b.coins[p.userId]) && SubjectKnown(b, p))
            && (error == Some(UserNotFound) <==> p.userId !in b.coins)
            && (error == Some(NotEnoughCoins) <==>
                  p.userId in b.coins && !p.debited && b.coins[p.userId] < p.amount)
  {
    assert StatusFor("success") == Some(Succeeded);
    hide StatusFor, Stored;
  }

  /** Any other scenario is accepted; what is no scenario, or no payment, is refused and changes nothing. */
  lemma OthersAcceptedIff(b: Bank, k: nat, scenario: string)
    requires scenario != "success"
    ensures var error := Simulate(b, k, scenario).error;
            && (error == None <==> k < |b.payments| && scenario in SCENARIOS)
            && (error == Some(PaymentNotFound) <==> k >= |b.payments|)
            && (error == Some(UnsupportedScenario) <==> k < |b.payments| && scenario !in SCENARIOS)
  {
    OnlyTheseScenarios(scenario);
    assert StatusFor(scenario) == Some(Succeeded) ==> scenario == "success";
    hide StatusFor, Refund, Stored;
  }

  lemma ReleasedStatus(scenario: string)
    ensures var s := StatusFor(scenario);
            s in {Some(Failed), Some(Cancelled), Some(Expired), Some(Refunded)}
            <==> scenario in ["failed", "cancelled", "expired", "refunded"]
  {
  }

  lemma SuccessReserves(b: Bank, k: nat)
    requires k < |b.payments|
    ensures var o := Succeed(b, k, b.payments[k].(status := Succeeded));
            o.error == None ==> |o.bank.payments| == |b.payments|
                                && o.bank.payments[k].reserved == b.payments[k].reserved
  {
    ConfirmedKeeps(b, k, b.payments[k].(status := Succeeded));
    hide Confirmed;
  }

  lemma RefundReleases(b: Bank, k: nat)
    requires k < |b.payments|
    ensures var b' := Refund(b, k, b.payments[k].(status := Refunded, reserved := false));
            |b'.payments| == |b.payments| && !b'.payments[k].reserved && b'.matches == b.matches
  {
    var p := b.payments[k].(status := Refunded, reserved := false);
    assert Withdrawn(b, p) == b.(registrations := Withdrawn(b, p).registrations);
    hide Withdrawn;
    if p.userId in b.coins {
      assert !RefundedTo(b.coins[p.userId], p).1.reserved;
      hide RefundedTo;
    }
  }

  lemma StoredReserves(b: Bank, k: nat, status: Status)
    requires k < |b.payments| && status != Succeeded && status != Refunded
    ensures var p := b.payments[k].(status := status);
            var released := status == Failed || status == Cancelled || status == Expired;
            var b' := Stored(b, k, if released then p.(reserved := false) else p);
            |b'.payments| == |b.payments| && b'.payments[k].reserved == (b.payments[k].reserved && !released)
  {
  }

  /** The seat reserved for a payment is given up by a failure, a cancellation, an expiry or a refund, and by nothing
      else. */
  lemma ReservationKept(b: Bank, k: nat, scenario: string)
    requires k < |b.payments| && Simulate(b, k, scenario).error == None
    ensures var b' := Simulate(b, k, scenario).bank;
            && |b'.payments| == |b.payments|
            && b'.payments[k].reserved
               == (b.payments[k].reserved && scenario !in ["failed", "cancelled", "expired", "refunded"])
  {
    ReleasedStatus(scenario);
    assert StatusFor(scenario).Some? by { hide StatusFor, Succeed, Refund; }
    hide StatusFor, Succeed, Refund, Stored;
    SuccessReserves(b, k);
    RefundReleases(b, k);
    var status := StatusFor(scenario).value;
    if status != Succeeded && status != Refunded { StoredReserves(b, k, status); }
  }

  lemma SuccessMarks(b: Bank, k: nat)
    requires k < |b.payments|
    ensures var o, p := Succeed(b, k, b.payments[k].(status := Succeeded)), b.payments[k];
            o.error == None ==>
              match p.subject
              case ForTournament(_) => o.bank.matches == b.matches
              case ForScheduledMatch(m) =>
                m in b.matches && o.bank.matches == b.matches[m := b.matches[m].(paidBy := Some(k))]
  {
    hide Charged;
  }

  lemma SimulatedMatches(b: Bank, k: nat, scenario: string)
    requires k < |b.payments| && Simulate(b, k, scenario).error == None
    ensures var p, b' := b.payments[k], Simulate(b, k, scenario).bank;
            if scenario == "success" && p.subject.ForScheduledMatch?
            then
              var m := p.subject.scheduledMatch;
              m in b.matches && b'.matches == b.matches[m := b.matches[m].(paidBy := Some(k))]
            else b'.matches == b.matches
  {
    OnlyTheseScenarios(scenario);
    ScenarioNames();
    assert StatusFor(scenario) == Some(Succeeded) ==> scenario == "success";
    assert StatusFor(scenario).Some? by { hide StatusFor, Succeed, Refund; }
    hide StatusFor, Succeed, Refund;
    SuccessMarks(b, k);
    RefundReleases(b, k);
  }

  /** A success marks its scheduled match as paid by it, and no other request touches a match. */
  lemma MatchPaidBySuccess(b: Bank, e: Event)
    ensures var pays := e.Simulated? && e.scenario == "success" && e.payment < |b.payments|
                        && Simulate(b, e.payment, e.scenario).error == None
                        && b.payments[e.payment].subject.ForScheduledMatch?;
            && (!pays ==> Step(b, e).matches == b.matches)
            && (pays ==>
                  var m := b.payments[e.payment].subject.scheduledMatch;
                  m in b.matches && Step(b, e).matches == b.matches[m := b.matches[m].(paidBy := Some(e.payment))])
  {
    if e.Simulated? {
      RefusedUnchanged(b, e.payment, e.scenario);
      NoSuchPayment(b, e.payment, e.scenario);
      hide Simulate;
      if e.payment < |b.payments| && Simulate(b, e.payment, e.scenario).error == None {
        SimulatedMatches(b, e.payment, e.scenario);
      }
    }
  }

  /** A refund of a charged payment gives back what the charge recorded, or the amount of the payment when nothing was
      recorded, and marks it as refunded; any other refund moves no coins. */
  lemma RefundGivesBack(coins: int, p: Payment)
    ensures var (after, p') := RefundedTo(coins, p);
            if p.debited && !p.refunded
            then p' == p.(refunded := true)
                 && (p.walletAmount != 0 ==> after == coins + p.walletAmount)
                 && (p.walletAmount == 0 ==> after == coins + p.amount)
            else after == coins && p' == p
  {
  }

  /** Buying takes the price and adds one piece, if the item is on sale, is not a lasting one already owned, and the
      coins reach; nobody else's coins or goods move. */
  lemma PurchaseRules(b: Bank, user: UserId, item: nat)
    ensures var o := Purchase(b, user, item);
            && (o.error == None <==>
                  && user in b.coins && item < |b.catalogue| && b.catalogue[item].onSale
                  && ((user, item) !in b.owned || b.catalogue[item].consumable)
                  && b.catalogue[item].price <= b.coins[user])
            && (o.error == Some(UserNotFound) <==> user !in b.coins)
            && (o.error == Some(ItemNotFound) <==>
                  user in b.coins && !(item < |b.catalogue| && b.catalogue[item].onSale))
            && (o.error == Some(NotEnoughCoins) ==>
                  user in b.coins && item < |b.catalogue| && b.coins[user] < b.catalogue[item].price)
            && (o.error == Some(AlreadyOwned) ==>
                  (user, item) in b.owned && item < |b.catalogue| && !b.catalogue[item].consumable)
            && (o.error.Some? ==>
                  o.bank == b && o.error.value in {UserNotFound, ItemNotFound, NotEnoughCoins, AlreadyOwned})
            && (o.error == None ==>
                  && o.bank == b.(coins := o.bank.coins, owned := o.bank.owned)
                  && o.bank.coins.Keys == b.coins.Keys && o.bank.coins[user] == b.coins[user] - b.catalogue[item].price
                  && (forall u | u in b.coins && u != user :: o.bank.coins[u] == b.coins[u])
                  && o.bank.owned.Keys == b.owned.Keys + {(user, item)}
                  && o.bank.owned[(user, item)] == (if (user, item) in b.owned then b.owned[(user, item)] + 1 else 1)
                  && forall good | good in b.owned && good != (user, item) :: o.bank.owned[good] == b.owned[good])
  {
  }

  /** A payment is opened for a tournament with an entry fee, or by a player of a scheduled match for its fee:
      uncharged, with its seat reserved, and logged. */
  lemma CreationRules(b: Bank, user: UserId, subject: Subject)
    ensures var o := CreatePayment(b, user, subject);
            var fee := match subject
                       case ForTournament(t) => if t in b.fees then Some(b.fees[t]) else None
                       case ForScheduledMatch(m) =>
                         if m in b.matches && user in b.matches[m].players then Some(b.matches[m].fee) else None;
            && (o.error == None <==> fee.Some?)
            && (o.error == Some(AccessDenied) <==>
                  subject.ForScheduledMatch? && subject.scheduledMatch in b.matches
                  && user !in b.matches[subject.scheduledMatch].players)
            && (o.error.Some? ==> o.bank == b)
            && (o.error == None ==>
                  var p := Payment(user, subject, fee.value, StatusCreated, true, false, false, 0);
                  o.bank == b.(payments := b.payments + [p], log := b.log + [(|b.payments|, StatusCreated)]))
  {
  }
}
