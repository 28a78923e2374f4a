/**
 * The commands, queries and events the services exchange (domain/usecase/order.kt,
 * wallet.kt, user.kt, transaction.kt), with the builders that turn a command into
 * a new entity and the type and metadata each transaction event records.
 */
module UseCases {
  import opened Wrappers
  import opened Types
  import opened Numbers
  import opened Entities

  datatype PlaceOrderCommand = PlaceOrderCommand(
    userId: UserId,
    walletId: WalletId,
    orderType: OrderType,
    amount: Decimal,
    baseCurrency: Currency,
    quoteCurrency: Currency
  ) {
    predicate IsBuy() {
      orderType == BUY
    }

    predicate IsSell() {
      orderType == SELL
    }

    /** `toOrder`: a new OPEN order, not yet persisted, with the command's fields. */
    function ToOrder(): (o: OrderData)
      ensures o.id.None? && o.status == OPEN && o.version == 0
      ensures o.createdAt.None? && o.updatedAt.None?
      ensures o.userId == userId && o.walletId == walletId && o.orderType == orderType
      ensures o.amount == amount && o.baseCurrency == baseCurrency && o.quoteCurrency == quoteCurrency
    {
      OrderData(None, userId, walletId, orderType, amount, baseCurrency, quoteCurrency, OPEN, None, None, 0)
    }
  }

  /** The command an order row was built from. */
  function CommandOf(o: OrderData): PlaceOrderCommand {
    PlaceOrderCommand(o.userId, o.walletId, o.orderType, o.amount, o.baseCurrency, o.quoteCurrency)
  }

  /** `toOrder` loses nothing of the command: the command can be read back from the order. */
  lemma ToOrderRoundTrip(c: PlaceOrderCommand)
    ensures CommandOf(c.ToOrder()) == c
    ensures c.IsBuy() != c.IsSell()
  {
  }

  datatype CancelOrderCommand = CancelOrderCommand(userId: UserId, orderId: OrderId)

  datatype OrderQuery = OrderQuery(userId: UserId, orderId: OrderId)

  datatype OrdersQuery = OrdersQuery(userId: UserId)

  datatype OrderPlacedEvent = OrderPlacedEvent(orderId: OrderId)

  /** Asks for a matching pass over one pair, base currency first. */
  datatype MatchOrdersEvent = MatchOrdersEvent(baseCurrency: Currency, quoteCurrency: Currency)

  datatype CreateWalletCommand = CreateWalletCommand(userId: UserId, name: string, currencies: seq<Currency>) {
    /** `toWallet`: a new wallet, not yet persisted, holding zero of each requested currency. */
    function ToWallet(): (w: WalletData)
      ensures w.id.None? && w.userId == userId && w.name == name
      ensures w.createdAt.None? && w.updatedAt.None? && w.version == 0
      ensures forall c :: c in w.balance <==> c in currencies
      ensures forall c :: c in w.balance ==> w.balance[c] == ZERO
    {
      WalletData(None, userId, name, map c | c in currencies :: ZERO, None, None, 0)
    }
  }

  /** A freshly built wallet reads zero for every currency, requested or not. */
  lemma FreshWalletReadsZero(cmd: CreateWalletCommand, c: Currency)
    ensures Value(BalanceOf(cmd.ToWallet().balance, c)) == 0.0
  {
  }

  /** Repeating a requested currency changes nothing: duplicates collapse into one entry. */
  lemma ToWalletIgnoresDuplicates(cmd: CreateWalletCommand, c: Currency)
    requires c in cmd.currencies
    ensures cmd.(currencies := cmd.currencies + [c]).ToWallet() == cmd.ToWallet()
  {
    var w, v := cmd.ToWallet(), cmd.(currencies := cmd.currencies + [c]).ToWallet();
    assert w.balance.Keys == v.balance.Keys;
  }

  datatype DepositCommand = DepositCommand(walletId: WalletId, amount: Decimal, currency: Currency, paymentId: PaymentId)

  datatype WithdrawCommand = WithdrawCommand(walletId: WalletId, amount: Decimal, currency: Currency, paymentId: PaymentId)

  datatype WalletQuery = WalletQuery(userId: UserId, walletId: WalletId)

  datatype WalletsQuery = WalletsQuery(userId: UserId)

  datatype WalletCreatedEvent = WalletCreatedEvent(walletId: WalletId)

  datatype CreateUserCommand = CreateUserCommand(
    username: Username,
    password: EncodedPassword,
    firstName: string,
    lastName: string,
    email: EmailAddress
  ) {
    /** `toUser`: a new user, not yet persisted, with the command's fields. */
    function ToUser(): (u: User)
      ensures u.id.None? && u.username == username && u.password == password
      ensures u.firstName == firstName && u.lastName == lastName && u.email == email
    {
      User(None, username, password, firstName, lastName, email)
    }
  }

  datatype UserQuery = UserQuery(userId: UserId)

  datatype UserCreatedEvent = UserCreatedEvent(userId: UserId)

  datatype TransactionsQuery = TransactionsQuery(userId: UserId, page: int, size: int)

  /** The six events that each become one record of the transaction log. */
  datatype TransactionCreatedEvent =
    | DepositCreated(deposit: DepositCommand, wallet: WalletData)
    | WithdrawCreated(withdraw: WithdrawCommand, wallet: WalletData)
    | OrderPlacedCreated(order: OrderData)
    | OrderCancelledCreated(order: OrderData)
    | OrderPartialFilledCreated(order: OrderData, baseAmount: Decimal)
    | OrderFilledCreated(order: OrderData, baseAmount: Decimal)
  {
    /** A deposit or withdrawal event can only be built for a persisted wallet (`wallet.id!!`). */
    predicate Constructible() {
      (DepositCreated? || WithdrawCreated?) ==> wallet.id.Some?
    }

    function UserId(): (u: UserId)
      ensures DepositCreated? || WithdrawCreated? ==> u == wallet.userId
      ensures !(DepositCreated? || WithdrawCreated?) ==> u == order.userId
    {
      if DepositCreated? || WithdrawCreated? then wallet.userId else order.userId
    }

    function WalletId(): (w: WalletId)
      requires Constructible()
      ensures DepositCreated? || WithdrawCreated? ==> Some(w) == wallet.id
      ensures !(DepositCreated? || WithdrawCreated?) ==> w == order.walletId
    {
      if DepositCreated? || WithdrawCreated? then wallet.id.value else order.walletId
    }

    function Type(): TransactionType {
      match this
      case DepositCreated(_, _) => DEPOSIT
      case WithdrawCreated(_, _) => WITHDRAWAL
      case OrderPlacedCreated(_) => ORDER_PLACED
      case OrderCancelledCreated(_) => ORDER_CANCELED
      case OrderPartialFilledCreated(_, _) => ORDER_PARTIALLY_FILLED
      case OrderFilledCreated(_, _) => ORDER_FILLED
    }

    /** The metadata map recorded with the event. */
    function Metadata(): map<string, string>
    {
      match this
      case DepositCreated(c, _) =>
        map["amount" := AmountString(c.amount), "currency" := c.currency.Name()]
      case WithdrawCreated(c, _) =>
        map["amount" := AmountString(c.amount), "currency" := c.currency.Name()]
      case OrderPlacedCreated(o) =>
        map["orderId" := NullableUuidString(o.id), "amount" := AmountString(o.amount), "type" := o.orderType.Name(),
            "baseCurrency" := o.baseCurrency.Name(), "quoteCurrency" := o.quoteCurrency.Name()]
      case OrderCancelledCreated(o) =>
        map["orderId" := NullableUuidString(o.id)]
      case OrderPartialFilledCreated(o, b) =>
        map["orderId" := NullableUuidString(o.id), "amount" := AmountString(b)]
      case OrderFilledCreated(o, b) =>
        map["orderId" := NullableUuidString(o.id), "amount" := AmountString(b)]
    }
  }

  /** A deposit or withdrawal records the amount as written by `string`, and the currency. */
  lemma PaymentMetadata(e: TransactionCreatedEvent)
    requires e.DepositCreated? || e.WithdrawCreated?
    ensures var m := e.Metadata();
      var c := if e.DepositCreated? then e.deposit.currency else e.withdraw.currency;
      var a := if e.DepositCreated? then e.deposit.amount else e.withdraw.amount;
      m.Keys == {"amount", "currency"} && m["amount"] == AmountString(a) && m["currency"] == c.Name()
  {
  }

  /** Placing an order records the order's id, amount, type and pair. */
  lemma PlacedMetadata(o: OrderData)
    ensures var m := OrderPlacedCreated(o).Metadata();
      && m.Keys == {"orderId", "amount", "type", "baseCurrency", "quoteCurrency"}
      && m["orderId"] == NullableUuidString(o.id) && m["amount"] == AmountString(o.amount)
      && m["type"] == o.orderType.Name()
      && m["baseCurrency"] == o.baseCurrency.Name() && m["quoteCurrency"] == o.quoteCurrency.Name()
  {
  }

  /** Cancelling records only the order's id; a fill records the id and the traded amount. */
  lemma CancelAndFillMetadata(o: OrderData, base: Decimal)
    ensures OrderCancelledCreated(o).Metadata() == map["orderId" := NullableUuidString(o.id)]
    ensures var m := OrderFilledCreated(o, base).Metadata();
      m.Keys == {"orderId", "amount"} && m["orderId"] == NullableUuidString(o.id) && m["amount"] == AmountString(base)
    ensures OrderPartialFilledCreated(o, base).Metadata() == OrderFilledCreated(o, base).Metadata()
  {
  }

  /** The recorded type tells the six kinds of event apart. */
  lemma TypeIdentifiesEvent(e: TransactionCreatedEvent, f: TransactionCreatedEvent)
    requires e.Type() == f.Type()
    ensures e.DepositCreated? == f.DepositCreated? && e.WithdrawCreated? == f.WithdrawCreated?
    ensures e.OrderPlacedCreated? == f.OrderPlacedCreated? && e.OrderCancelledCreated? == f.OrderCancelledCreated?
    ensures e.OrderPartialFilledCreated? == f.OrderPartialFilledCreated? && e.OrderFilledCreated? == f.OrderFilledCreated?
  {
  }

  /**
   * A fill event records the traded amount, whatever the order has left, and the
   * same number however it is scaled.
   */
  lemma FillRecordsTradedAmount(o: OrderData, p: OrderData, base: Decimal, same: Decimal)
    requires o.id == p.id && Value(base) == Value(same)
    ensures OrderFilledCreated(o, base).Metadata() == OrderFilledCreated(p, same).Metadata()
    ensures OrderPartialFilledCreated(o, base).Metadata() == OrderPartialFilledCreated(p, same).Metadata()
  {
    AmountStringDependsOnValue(base, same);
    var m := map["orderId" := NullableUuidString(o.id), "amount" := AmountString(base)];
    assert OrderFilledCreated(o, base).Metadata() == m == OrderFilledCreated(p, same).Metadata();
    assert OrderPartialFilledCreated(o, base).Metadata() == m == OrderPartialFilledCreated(p, same).Metadata();
  }
}
