/**
 * The conversion between an order and its database row
 * (infrastructure/persistence/mapper/order.kt): every field is copied, and the
 * amount is trimmed on the way in and on the way out.
 */
module OrderMapper {
  import opened Wrappers
  import opened Types
  import opened Numbers
  import opened Entities

  /** The `trade_order` row. */
  datatype OrderTable = OrderTable(
    id: Option<OrderId>,
    userId: UserId,
    walletId: WalletId,
    orderType: OrderType,
    amount: Decimal,
    baseCurrency: Currency,
    quoteCurrency: Currency,
    status: OrderStatus,
    createdAt: Option<Instant>,
    updatedAt: Option<Instant>,
    version: int
  )

  /** `toOrderTable` */
  function ToOrderTable(o: OrderData): (t: OrderTable)
    ensures t.id == o.id && t.userId == o.userId && t.walletId == o.walletId && t.orderType == o.orderType
    ensures t.baseCurrency == o.baseCurrency && t.quoteCurrency == o.quoteCurrency && t.status == o.status
    ensures t.createdAt == o.createdAt && t.updatedAt == o.updatedAt && t.version == o.version
    ensures Value(t.amount) == Value(o.amount) && Stripped(t.amount)
  {
    OrderTable(o.id, o.userId, o.walletId, o.orderType, Trim(o.amount), o.baseCurrency, o.quoteCurrency,
               o.status, o.createdAt, o.updatedAt, o.version)
  }

  /** `toOrder` */
  function ToOrder(t: OrderTable): (o: OrderData)
    ensures t.id == o.id && t.userId == o.userId && t.walletId == o.walletId && t.orderType == o.orderType
    ensures t.baseCurrency == o.baseCurrency && t.quoteCurrency == o.quoteCurrency && t.status == o.status
    ensures t.createdAt == o.createdAt && t.updatedAt == o.updatedAt && t.version == o.version
    ensures Value(o.amount) == Value(t.amount) && Stripped(o.amount)
  {
    OrderData(t.id, t.userId, t.walletId, t.orderType, Trim(t.amount), t.baseCurrency, t.quoteCurrency,
              t.status, t.createdAt, t.updatedAt, t.version)
  }

  /** Writing an order and reading it back gives the same order with its amount in canonical form. */
  lemma OrderRoundTrip(o: OrderData)
    ensures ToOrder(ToOrderTable(o)) == o.(amount := Trim(o.amount))
    ensures Value(ToOrder(ToOrderTable(o)).amount) == Value(o.amount)
  {
    TrimIdempotent(o.amount);
  }

  /** Round trips are stable: a second one changes nothing, in either direction. */
  lemma RoundTripStable(o: OrderData, t: OrderTable)
    ensures ToOrderTable(ToOrder(ToOrderTable(o))) == ToOrderTable(o)
    ensures ToOrder(ToOrderTable(ToOrder(t))) == ToOrder(t)
  {
    TrimIdempotent(o.amount);
    TrimIdempotent(t.amount);
  }

  /** Two orders that differ only in how their amounts are scaled are stored as the same row. */
  lemma RowDependsOnValue(o: OrderData, a: Decimal)
    requires Value(a) == Value(o.amount)
    ensures ToOrderTable(o.(amount := a)) == ToOrderTable(o)
  {
    TrimCanonical(a, o.amount);
  }
}
