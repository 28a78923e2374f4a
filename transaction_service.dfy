/**
 * The transaction log (application/service/TransactionService.kt): every
 * transaction event becomes one appended record, and a user reads the records
 * back a page at a time.
 */
module TransactionServices {
  import opened Wrappers
  import opened Types
  import opened Numbers
  import opened Errors
  import opened Entities
  import opened UseCases
  import opened Events
  import opened Stores
  import opened WalletServices

  /** The record `handleTransactionEvent` builds from an event, before the database assigns its id. */
  function RecordOf(e: TransactionCreatedEvent): (t: Transaction)
    requires e.Constructible()
    ensures t.id.None? && t.createdAt.None?
  {
    Transaction(None, e.UserId(), e.WalletId(), e.Type(), e.Metadata(), None)
  }

  /** Appending a record puts it first in its user's newest-first list and leaves every other user's list alone. */
  lemma AppendedRecordComesFirst(log: seq<Transaction>, t: Transaction, userId: UserId)
    ensures NewestFirst(log + [t], userId)
         == (if t.userId == userId then [t] + NewestFirst(log, userId) else NewestFirst(log, userId))
  {
    assert (log + [t])[..|log + [t]| - 1] == log;
    var m := Mine(log, userId);
    if t.userId == userId {
      assert (m + [t])[..|m + [t]| - 1] == m;
    }
  }

  /**
   * After an event is recorded, the first page of its user's transactions (of any
   * size) starts with the new record, and the user's total grows by one.
   */
  lemma RecordedEventIsNewest(log: seq<Transaction>, e: TransactionCreatedEvent, newId: TransactionId, size: int)
    requires e.Constructible() && size >= 1
    ensures var t := RecordOf(e).(id := Some(newId));
      var p := UserPage(log + [t], e.UserId(), 0, size);
      && p.Success? && |p.value.content| >= 1 && p.value.content[0] == t
      && p.value.total == |NewestFirst(log, e.UserId())| + 1
  {
    var t := RecordOf(e).(id := Some(newId));
    AppendedRecordComesFirst(log, t, e.UserId());
  }

  /** Recording an event leaves every other user's pages unchanged. */
  lemma OtherUsersUnaffected(log: seq<Transaction>, e: TransactionCreatedEvent, newId: TransactionId,
                             userId: UserId, page: int, size: int)
    requires e.Constructible() && userId != e.UserId()
    ensures UserPage(log + [RecordOf(e).(id := Some(newId))], userId, page, size) == UserPage(log, userId, page, size)
  {
    AppendedRecordComesFirst(log, RecordOf(e).(id := Some(newId)), userId);
  }

  /**
   * A successful deposit publishes an event whose record belongs to the wallet's
   * owner, names the wallet, is typed DEPOSIT and notes the amount and currency.
   */
  lemma DepositIsRecorded(cmd: DepositCommand, wallets: map<WalletId, WalletData>, events: seq<Event>,
                          calls: seq<PaymentCall>)
    requires WellKeyed(wallets)
    requires DepositOutcome(cmd, wallets, events, calls, true).result.Success?
    ensures var f := DepositOutcome(cmd, wallets, events, calls, true);
      var e := f.events[|events|].created;
      && e.Constructible()
      && var t := RecordOf(e);
      && t.userId == wallets[cmd.walletId].userId && t.walletId == cmd.walletId && t.txType == DEPOSIT
      && t.metadata == map["amount" := AmountString(cmd.amount), "currency" := cmd.currency.Name()]
  {
    DepositOnlyOnPayment(cmd, wallets, events, calls, true);
  }

  /**
   * A successful withdrawal publishes an event whose record belongs to the
   * wallet's owner, names the wallet, is typed WITHDRAWAL and notes the amount and currency.
   */
  lemma WithdrawalIsRecorded(cmd: WithdrawCommand, wallets: map<WalletId, WalletData>, events: seq<Event>,
                             calls: seq<PaymentCall>)
    requires WellKeyed(wallets)
    requires WithdrawOutcome(cmd, wallets, events, calls, true).result.Success?
    ensures var f := WithdrawOutcome(cmd, wallets, events, calls, true);
      var e := f.events[|events|].created;
      && e.Constructible()
      && var t := RecordOf(e);
      && t.userId == wallets[cmd.walletId].userId && t.walletId == cmd.walletId && t.txType == WITHDRAWAL
      && t.metadata == map["amount" := AmountString(cmd.amount), "currency" := cmd.currency.Name()]
  {
    WithdrawChecksFundsFirst(cmd, wallets, events, calls, true);
  }

  /** The transaction service over the transaction store. */
  class TransactionService {
    const store: TransactionStore

    constructor (store: TransactionStore)
      ensures this.store == store
    {
      this.store := store;
    }

    /** `handleTransactionEvent`: the event's record is appended under the id the database assigns. */
    method HandleTransactionEvent(e: TransactionCreatedEvent, newId: TransactionId)
      requires e.Constructible()
      modifies store
      ensures store.log == old(store.log) + [RecordOf(e).(id := Some(newId))]
    {
      var t := Transaction(None, e.UserId(), e.WalletId(), e.Type(), e.Metadata(), None);
      var _ := store.Save(t, newId);
    }

    /** `getTransactions`: one page of the user's records, newest first. */
    function GetTransactions(q: TransactionsQuery): (r: Result<Page, Throwable>)
      reads store
      ensures r.Success? ==> forall t :: t in r.value.content ==> t in store.log && t.userId == q.userId
      ensures r.Success? ==> |r.value.content| <= q.size
      ensures r.Failure? <==> q.page < 0 || q.size < 1
      ensures r.Success? ==>
        && r.value.page == q.page && r.value.size == q.size
        && r.value.total == |NewestFirst(store.log, q.userId)|
        && var w := PageWindow(|NewestFirst(store.log, q.userId)|, r.value.page, r.value.size);
        r.value.content == NewestFirst(store.log, q.userId)[w.0..w.1]
    {
      store.FindAllByUserId(q.userId, q.page, q.size)
    }
  }
}
