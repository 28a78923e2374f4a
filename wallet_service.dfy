/**
 * Wallet creation, lookup, deposit and withdrawal
 * (application/service/WalletService.kt). The payment gateway is an outside
 * service: it is modelled as a record of the calls made to it, and its answer
 * to each call is an input.
 */
module WalletServices {
  import opened Wrappers
  import opened Types
  import opened Numbers
  import opened Errors
  import opened Entities
  import opened UseCases
  import opened Events
  import opened Stores

  /** A request made to the payment gateway. */
  datatype PaymentCall =
    | Receive(paymentId: PaymentId, amount: Decimal, currency: Currency)
    | Send(paymentId: PaymentId, amount: Decimal, currency: Currency)

  /** `PaymentService`: every request is recorded; whether it is honoured is the caller's input. */
  class PaymentGateway {
    var calls: seq<PaymentCall>

    constructor ()
      ensures calls == []
    {
      calls := [];
    }

    /** `receiveMoney` */
    method ReceiveMoney(paymentId: PaymentId, amount: Decimal, currency: Currency, accepted: bool) returns (ok: bool)
      modifies this
      ensures ok == accepted
      ensures calls == old(calls) + [Receive(paymentId, amount, currency)]
    {
      calls := calls + [Receive(paymentId, amount, currency)];
      ok := accepted;
    }

    /** `sendMoney` */
    method SendMoney(paymentId: PaymentId, amount: Decimal, currency: Currency, accepted: bool) returns (ok: bool)
      modifies this
      ensures ok == accepted
      ensures calls == old(calls) + [Send(paymentId, amount, currency)]
    {
      calls := calls + [Send(paymentId, amount, currency)];
      ok := accepted;
    }
  }

  /** No user has two wallets of the same name. */
  predicate UniqueNames(wallets: map<WalletId, WalletData>) {
    forall a, b ::
      (a in wallets && b in wallets && wallets[a].userId == wallets[b].userId && wallets[a].name == wallets[b].name)
      ==> a == b
  }

  /** No balance of any wallet is negative. */
  predicate NonNegative(wallets: map<WalletId, WalletData>) {
    forall k, c :: k in wallets && c in wallets[k].balance ==> Value(wallets[k].balance[c]) >= 0.0
  }

  /** The outcome of `createWallet`: the answer and the wallet rows afterwards. */
  datatype Creation = Creation(result: Result<WalletCreatedEvent, Throwable>, wallets: map<WalletId, WalletData>)

  /** `createWallet` on values; `newId` is the id the database assigns, if any. */
  function Create(cmd: CreateWalletCommand, wallets: map<WalletId, WalletData>, newId: Option<WalletId>): (c: Creation)
    ensures c.result.Failure? ==> c.wallets == wallets
  {
    if NameTaken(wallets, cmd.userId, cmd.name) then
      Creation(Failure(Fail(BadRequest, "Wallet with name '" + cmd.name + "' already exists for user '"
                                        + UuidString(cmd.userId) + "'")), wallets)
    else
      var saved := PersistedWallet(cmd.ToWallet(), newId);
      if saved.id.None? then Creation(Failure(Fail(Internal, "Wallet was not saved")), wallets)
      else Creation(Success(WalletCreatedEvent(saved.id.value)), wallets[saved.id.value := saved])
  }

  /**
   * Creation succeeds exactly when the name is free for the user and the database
   * assigns an id; the new row holds zero of each requested currency, and a
   * taken name is a bad request.
   */
  lemma CreateSucceeds(cmd: CreateWalletCommand, wallets: map<WalletId, WalletData>, newId: Option<WalletId>)
    ensures var c := Create(cmd, wallets, newId);
      c.result.Success? <==> !NameTaken(wallets, cmd.userId, cmd.name) && newId.Some?
    ensures var c := Create(cmd, wallets, newId);
      NameTaken(wallets, cmd.userId, cmd.name) ==>
        c.result.Failure? && c.result.error.Domain? && c.result.error.error.kind == BadRequest
    ensures var c := Create(cmd, wallets, newId);
      c.result.Success? ==>
        var id := newId.value;
        && c.result.value == WalletCreatedEvent(id)
        && c.wallets == wallets[id := cmd.ToWallet().(id := Some(id))]
        && forall cur :: Value(BalanceOf(c.wallets[id].balance, cur)) == 0.0
  {
  }

  /** Creating a wallet keeps the rows filed under their ids, free of duplicate names, and non-negative. */
  lemma CreateKeepsInvariants(cmd: CreateWalletCommand, wallets: map<WalletId, WalletData>, newId: Option<WalletId>)
    requires WellKeyed(wallets) && UniqueNames(wallets) && NonNegative(wallets)
    requires newId.Some? ==> newId.value !in wallets
    ensures var c := Create(cmd, wallets, newId);
      WellKeyed(c.wallets) && UniqueNames(c.wallets) && NonNegative(c.wallets)
  {
    var c := Create(cmd, wallets, newId);
    if c.result.Success? {
      assert forall k :: k in wallets ==> !(wallets[k].userId == cmd.userId && wallets[k].name == cmd.name);
    }
  }

  /** `getWallet`: the wallet when it exists and belongs to the user; the same not-found error otherwise. */
  function LookupWallet(wallets: map<WalletId, WalletData>, q: WalletQuery): (r: Result<WalletData, Throwable>)
    ensures r.Success? <==> q.walletId in wallets && wallets[q.walletId].userId == q.userId
    ensures r.Success? ==> r.value == wallets[q.walletId]
    ensures r.Failure? ==> r.error == Fail(NotFound, "Wallet '" + UuidString(q.walletId) + "' not found")
  {
    if q.walletId !in wallets || wallets[q.walletId].userId != q.userId then
      Failure(Fail(NotFound, "Wallet '" + UuidString(q.walletId) + "' not found"))
    else
      Success(wallets[q.walletId])
  }

  /** Asking for someone else's wallet answers exactly as if the wallet did not exist. */
  lemma ForeignWalletLooksAbsent(wallets: map<WalletId, WalletData>, q: WalletQuery)
    requires q.walletId in wallets && wallets[q.walletId].userId != q.userId
    ensures LookupWallet(wallets, q) == LookupWallet(wallets - {q.walletId}, q)
  {
  }

  /** The outcome of a deposit or a withdrawal: the answer, the rows, the events and the gateway's record. */
  datatype Funding = Funding(
    result: Result<WalletData, Throwable>,
    wallets: map<WalletId, WalletData>,
    events: seq<Event>,
    calls: seq<PaymentCall>
  )

  /** `deposit` on values; `accepted` is the gateway's answer. */
  function DepositOutcome(cmd: DepositCommand, wallets: map<WalletId, WalletData>, events: seq<Event>,
                          calls: seq<PaymentCall>, accepted: bool): (f: Funding)
    ensures f.result.Failure? ==> f.wallets == wallets && f.events == events
  {
    if cmd.walletId !in wallets then
      Funding(Failure(Fail(NotFound, "Wallet '" + UuidString(cmd.walletId) + "' not found")), wallets, events, calls)
    else
      var calls' := calls + [Receive(cmd.paymentId, cmd.amount, cmd.currency)];
      if !accepted then
        Funding(Failure(Fail(NonProcessable, "Deposit payment failed")), wallets, events, calls')
      else
        var saved := Credit(wallets[cmd.walletId], cmd.currency, cmd.amount);
        Funding(Success(saved), SaveWalletRow(wallets, saved),
                events + [TransactionCreated(DepositCreated(cmd, saved))], calls')
  }

  /**
   * The ledger changes only when the gateway accepts. A deposit then adds the
   * amount to the currency's balance (zero when absent), leaves every other
   * currency and every other wallet alone, and records one DEPOSIT event.
   */
  lemma DepositOnlyOnPayment(cmd: DepositCommand, wallets: map<WalletId, WalletData>, events: seq<Event>,
                             calls: seq<PaymentCall>, accepted: bool)
    requires WellKeyed(wallets)
    ensures var f := DepositOutcome(cmd, wallets, events, calls, accepted);
      f.result.Success? <==> cmd.walletId in wallets && accepted
    ensures var f := DepositOutcome(cmd, wallets, events, calls, accepted);
      cmd.walletId in wallets && !accepted ==> f.result == Failure(Fail(NonProcessable, "Deposit payment failed"))
    ensures var f := DepositOutcome(cmd, wallets, events, calls, accepted);
      f.result.Success? ==>
        var id := cmd.walletId;
        && id in f.wallets && f.result.value == f.wallets[id] && SameWallet(f.wallets[id], wallets[id])
        && Value(BalanceOf(f.wallets[id].balance, cmd.currency))
           == Value(BalanceOf(wallets[id].balance, cmd.currency)) + Value(cmd.amount)
        && (forall c :: c != cmd.currency ==> BalanceOf(f.wallets[id].balance, c) == BalanceOf(wallets[id].balance, c))
        && (forall k :: k in wallets && k != id ==> k in f.wallets && f.wallets[k] == wallets[k])
        && f.events == events + [TransactionCreated(DepositCreated(cmd, f.wallets[id]))]
        && f.events[|events|].created.Type() == DEPOSIT
  {
    if cmd.walletId in wallets && accepted {
      var w := wallets[cmd.walletId];
      forall c | c != cmd.currency
        ensures BalanceOf(Credit(w, cmd.currency, cmd.amount).balance, c) == BalanceOf(w.balance, c)
      {
        CreditDebitLocal(w, cmd.currency, c, cmd.amount);
      }
    }
  }

  /** A deposit of a non-negative amount keeps every balance non-negative. */
  lemma DepositKeepsNonNegative(cmd: DepositCommand, wallets: map<WalletId, WalletData>, events: seq<Event>,
                                calls: seq<PaymentCall>, accepted: bool)
    requires WellKeyed(wallets) && NonNegative(wallets) && Value(cmd.amount) >= 0.0
    ensures var f := DepositOutcome(cmd, wallets, events, calls, accepted);
      WellKeyed(f.wallets) && NonNegative(f.wallets)
  {
    var f := DepositOutcome(cmd, wallets, events, calls, accepted);
    if f.result.Success? {
      var w := wallets[cmd.walletId];
      forall c | c in f.wallets[cmd.walletId].balance
        ensures Value(f.wallets[cmd.walletId].balance[c]) >= 0.0
      {
        CreditValue(w, cmd.currency, cmd.amount, c);
      }
    }
  }

  /** `withdraw` on values; `accepted` is the gateway's answer if it is asked. */
  function WithdrawOutcome(cmd: WithdrawCommand, wallets: map<WalletId, WalletData>, events: seq<Event>,
                           calls: seq<PaymentCall>, accepted: bool): (f: Funding)
    ensures f.result.Failure? ==> f.wallets == wallets && f.events == events
  {
    if cmd.walletId !in wallets then
      Funding(Failure(Fail(NotFound, "Wallet '" + UuidString(cmd.walletId) + "' not found")), wallets, events, calls)
    else if Value(BalanceOf(wallets[cmd.walletId].balance, cmd.currency)) < Value(cmd.amount) then
      Funding(Failure(Fail(BadRequest, "Insufficient funds in wallet '" + UuidString(cmd.walletId) + "'")),
              wallets, events, calls)
    else
      var calls' := calls + [Send(cmd.paymentId, cmd.amount, cmd.currency)];
      if !accepted then
        Funding(Failure(Fail(NonProcessable, "Withdrawal payment failed")), wallets, events, calls')
      else
        var saved := Debit(wallets[cmd.walletId], cmd.currency, cmd.amount);
        Funding(Success(saved), SaveWalletRow(wallets, saved),
                events + [TransactionCreated(WithdrawCreated(cmd, saved))], calls')
  }

  /**
   * Withdrawal is refused, before the gateway is asked, when the balance is below
   * the amount; otherwise the gateway is asked once, and only its acceptance
   * subtracts the amount and records one WITHDRAWAL event.
   */
  lemma WithdrawChecksFundsFirst(cmd: WithdrawCommand, wallets: map<WalletId, WalletData>, events: seq<Event>,
                                 calls: seq<PaymentCall>, accepted: bool)
    requires WellKeyed(wallets)
    ensures var f := WithdrawOutcome(cmd, wallets, events, calls, accepted);
      (cmd.walletId in wallets && Value(BalanceOf(wallets[cmd.walletId].balance, cmd.currency)) < Value(cmd.amount))
        ==> f.result.Failure? && f.result.error == Fail(BadRequest, "Insufficient funds in wallet '" + UuidString(cmd.walletId) + "'")
            && f.calls == calls
    ensures var f := WithdrawOutcome(cmd, wallets, events, calls, accepted);
      f.result.Success? <==> cmd.walletId in wallets && accepted
                             && Value(BalanceOf(wallets[cmd.walletId].balance, cmd.currency)) >= Value(cmd.amount)
    ensures var f := WithdrawOutcome(cmd, wallets, events, calls, accepted);
      f.result.Success? ==>
        var id := cmd.walletId;
        && id in f.wallets && f.result.value == f.wallets[id] && SameWallet(f.wallets[id], wallets[id])
        && Value(BalanceOf(f.wallets[id].balance, cmd.currency))
           == Value(BalanceOf(wallets[id].balance, cmd.currency)) - Value(cmd.amount)
        && Value(BalanceOf(f.wallets[id].balance, cmd.currency)) >= 0.0
        && f.calls == calls + [Send(cmd.paymentId, cmd.amount, cmd.currency)]
        && f.events == events + [TransactionCreated(WithdrawCreated(cmd, f.wallets[id]))]
  {
  }

  /** A withdrawal never makes a balance negative: a ledger without negative balances keeps none. */
  lemma WithdrawKeepsNonNegative(cmd: WithdrawCommand, wallets: map<WalletId, WalletData>, events: seq<Event>,
                                 calls: seq<PaymentCall>, accepted: bool)
    requires WellKeyed(wallets) && NonNegative(wallets)
    ensures var f := WithdrawOutcome(cmd, wallets, events, calls, accepted);
      WellKeyed(f.wallets) && NonNegative(f.wallets)
  {
    var f := WithdrawOutcome(cmd, wallets, events, calls, accepted);
    if f.result.Success? {
      var w := wallets[cmd.walletId];
      forall c | c in f.wallets[cmd.walletId].balance
        ensures Value(f.wallets[cmd.walletId].balance[c]) >= 0.0
      {
        DebitValue(w, cmd.currency, cmd.amount, c);
      }
    }
  }

  /** Withdrawing the whole balance is allowed and leaves exactly zero. */
  lemma WithdrawWholeBalance(cmd: WithdrawCommand, wallets: map<WalletId, WalletData>, events: seq<Event>,
                             calls: seq<PaymentCall>)
    requires WellKeyed(wallets) && cmd.walletId in wallets
    requires Value(cmd.amount) == Value(BalanceOf(wallets[cmd.walletId].balance, cmd.currency))
    ensures var f := WithdrawOutcome(cmd, wallets, events, calls, true);
      f.result.Success? && Value(BalanceOf(f.result.value.balance, cmd.currency)) == 0.0
  {
  }

  /**
   * Depositing an amount and then withdrawing it again, both accepted, brings the
   * wallet's balances back to what they were.
   */
  lemma DepositThenWithdrawRestores(d: DepositCommand, w: WithdrawCommand, wallets: map<WalletId, WalletData>,
                                    events: seq<Event>, calls: seq<PaymentCall>)
    requires WellKeyed(wallets) && d.walletId in wallets
    requires w.walletId == d.walletId && w.currency == d.currency && w.amount == d.amount
    requires Value(BalanceOf(wallets[d.walletId].balance, d.currency)) >= 0.0
    ensures var f := DepositOutcome(d, wallets, events, calls, true);
      var g := WithdrawOutcome(w, f.wallets, f.events, f.calls, true);
      && g.result.Success?
      && Value(BalanceOf(g.wallets[d.walletId].balance, d.currency)) == Value(BalanceOf(wallets[d.walletId].balance, d.currency))
      && forall c :: c != d.currency ==> BalanceOf(g.wallets[d.walletId].balance, c) == BalanceOf(wallets[d.walletId].balance, c)
  {
    var id := d.walletId;
    var before := wallets[id];
    var f := DepositOutcome(d, wallets, events, calls, true);
    assert f.wallets[id] == Credit(before, d.currency, d.amount);
    CreditValue(before, d.currency, d.amount, d.currency);
    CreditThenDebitRestores(before, d.currency, d.amount);
  }

  /** The wallet service over the wallet store, the payment gateway and the event publisher. */
  class WalletService {
    const wallets: WalletStore
    const gateway: PaymentGateway
    const publisher: EventPublisher

    constructor (wallets: WalletStore, gateway: PaymentGateway, publisher: EventPublisher)
      ensures this.wallets == wallets && this.gateway == gateway && this.publisher == publisher
    {
      this.wallets, this.gateway, this.publisher := wallets, gateway, publisher;
    }

    /** `createWallet` */
    method CreateWallet(cmd: CreateWalletCommand, newId: Option<WalletId>) returns (r: Result<WalletCreatedEvent, Throwable>)
      requires newId.Some? ==> newId.value !in wallets.rows
      modifies wallets
      ensures Creation(r, wallets.rows) == Create(cmd, old(wallets.rows), newId)
    {
      if wallets.ExistsByUserIdAndName(cmd.userId, cmd.name) {
        return Failure(Fail(BadRequest, "Wallet with name '" + cmd.name + "' already exists for user '"
                                        + UuidString(cmd.userId) + "'"));
      }
      var wallet := wallets.Save(cmd.ToWallet(), newId);
      if wallet.id.None? {
        return Failure(Fail(Internal, "Wallet was not saved"));
      }
      r := Success(WalletCreatedEvent(wallet.id.value));
    }

    /** `getWallet` */
    function GetWallet(q: WalletQuery): (r: Result<WalletData, Throwable>)
      reads wallets
      ensures r.Success? ==> q.walletId in wallets.rows && r.value == wallets.rows[q.walletId]
      ensures r.Success? ==> r.value.userId == q.userId
    {
      LookupWallet(wallets.rows, q)
    }

    /** `getWallets`: every wallet of the user, and only those. */
    function GetWallets(q: WalletsQuery): (ws: set<WalletData>)
      reads wallets
      ensures forall w :: w in ws ==> w.userId == q.userId
      ensures forall k :: k in wallets.rows && wallets.rows[k].userId == q.userId ==> wallets.rows[k] in ws
    {
      wallets.FindAllByUserId(q.userId)
    }

    /** `deposit`; `accepted` is the gateway's answer. */
    method Deposit(cmd: DepositCommand, accepted: bool) returns (r: Result<WalletData, Throwable>)
      requires WellKeyed(wallets.rows)
      modifies wallets, gateway, publisher
      ensures Funding(r, wallets.rows, publisher.published, gateway.calls)
           == DepositOutcome(cmd, old(wallets.rows), old(publisher.published), old(gateway.calls), accepted)
    {
      var wallet := wallets.FindById(cmd.walletId);
      if wallet == null {
        return Failure(Fail(NotFound, "Wallet '" + UuidString(cmd.walletId) + "' not found"));
      }
      var ok := gateway.ReceiveMoney(cmd.paymentId, cmd.amount, cmd.currency, accepted);
      if !ok {
        return Failure(Fail(NonProcessable, "Deposit payment failed"));
      }
      var balance := BalanceOf(wallet.balance, cmd.currency);
      wallet.balance := wallet.balance[cmd.currency := Add(balance, cmd.amount)];
      var saved := wallets.Save(wallet.Data(), None);
      publisher.Publish(TransactionCreated(DepositCreated(cmd, saved)));
      r := Success(saved);
    }

    /** `withdraw`; `accepted` is the gateway's answer if it is asked. */
    method Withdraw(cmd: WithdrawCommand, accepted: bool) returns (r: Result<WalletData, Throwable>)
      requires WellKeyed(wallets.rows)
      modifies wallets, gateway, publisher
      ensures Funding(r, wallets.rows, publisher.published, gateway.calls)
           == WithdrawOutcome(cmd, old(wallets.rows), old(publisher.published), old(gateway.calls), accepted)
    {
      var wallet := wallets.FindById(cmd.walletId);
      if wallet == null {
        return Failure(Fail(NotFound, "Wallet '" + UuidString(cmd.walletId) + "' not found"));
      }
      if Value(BalanceOf(wallet.balance, cmd.currency)) < Value(cmd.amount) {
        return Failure(Fail(BadRequest, "Insufficient funds in wallet '" + UuidString(cmd.walletId) + "'"));
      }
      var ok := gateway.SendMoney(cmd.paymentId, cmd.amount, cmd.currency, accepted);
      if !ok {
        return Failure(Fail(NonProcessable, "Withdrawal payment failed"));
      }
      wallet.balance := wallet.balance[cmd.currency := Sub(BalanceOf(wallet.balance, cmd.currency), cmd.amount)];
      var saved := wallets.Save(wallet.Data(), None);
      publisher.Publish(TransactionCreated(WithdrawCreated(cmd, saved)));
      r := Success(saved);
    }
  }
}
