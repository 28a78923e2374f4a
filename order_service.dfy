/**
 * Order placement, lookup and cancellation (application/service/OrderService.kt).
 * Each operation is specified by a function on the stores' rows and the
 * published events; the service methods are proved to have exactly that effect.
 */
module OrderServices {
  import opened Wrappers
  import opened Types
  import opened Numbers
  import opened Errors
  import opened Entities
  import opened OrderMapper
  import opened UseCases
  import opened Events
  import opened Stores

  /**
   * What a valid order asks of the wallet it is placed from: it belongs to the
   * user, the amount is positive, the pair has two currencies, a buy has some
   * quote currency (at 18 digits), and a sell has more base currency than it sells.
   */
  predicate Placeable(cmd: PlaceOrderCommand, w: WalletData) {
    && w.userId == cmd.userId
    && Value(cmd.amount) > 0.0
    && cmd.baseCurrency != cmd.quoteCurrency
    && (cmd.IsBuy() ==> Value(Scaled(BalanceOf(w.balance, cmd.quoteCurrency))) > 0.0)
    && (cmd.IsSell() ==> Value(Scaled(BalanceOf(w.balance, cmd.baseCurrency))) > Value(Scaled(cmd.amount)))
  }

  /** `validateOrder`: nothing when the order may be placed, else the bad-request error of the first failed check. */
  function ValidateOrder(cmd: PlaceOrderCommand, w: WalletData): (r: Option<Throwable>)
    ensures r.None? <==> Placeable(cmd, w)
    ensures r.Some? ==> r.value.Domain? && r.value.error.kind == BadRequest
  {
    ZeroScaledIsZero();
    if w.userId != cmd.userId then
      Some(Fail(BadRequest, "Wallet not found"))
    else if NegativeOrZero(Some(cmd.amount)) then
      Some(Fail(BadRequest, "Amount must be greater than 0"))
    else if cmd.baseCurrency == cmd.quoteCurrency then
      Some(Fail(BadRequest, "Base and quote currency must be different"))
    else if cmd.IsBuy() && Value(Scaled(BalanceOf(w.balance, cmd.quoteCurrency))) <= Value(Scaled(ZERO)) then
      Some(Fail(BadRequest, "Quote currency balance should be positive"))
    else if cmd.IsSell() && Value(Scaled(BalanceOf(w.balance, cmd.baseCurrency))) <= Value(Scaled(cmd.amount)) then
      Some(Fail(BadRequest, "Insufficient balance to sell"))
    else
      None
  }

  /** The chain answers with the message of the first check that fails, in the source's order. */
  lemma ValidationOrder(cmd: PlaceOrderCommand, w: WalletData)
    ensures w.userId != cmd.userId
        ==> ValidateOrder(cmd, w) == Some(Fail(BadRequest, "Wallet not found"))
    ensures w.userId == cmd.userId && Value(cmd.amount) <= 0.0
        ==> ValidateOrder(cmd, w) == Some(Fail(BadRequest, "Amount must be greater than 0"))
    ensures w.userId == cmd.userId && Value(cmd.amount) > 0.0 && cmd.baseCurrency == cmd.quoteCurrency
        ==> ValidateOrder(cmd, w) == Some(Fail(BadRequest, "Base and quote currency must be different"))
    ensures w.userId == cmd.userId && Value(cmd.amount) > 0.0 && cmd.baseCurrency != cmd.quoteCurrency
            && cmd.IsBuy() && Value(BalanceOf(w.balance, cmd.quoteCurrency)) < HALF_ULP
        ==> ValidateOrder(cmd, w) == Some(Fail(BadRequest, "Quote currency balance should be positive"))
    ensures w.userId == cmd.userId && Value(cmd.amount) > 0.0 && cmd.baseCurrency != cmd.quoteCurrency
            && cmd.IsSell() && Value(Scaled(BalanceOf(w.balance, cmd.baseCurrency))) <= Value(Scaled(cmd.amount))
        ==> ValidateOrder(cmd, w) == Some(Fail(BadRequest, "Insufficient balance to sell"))
  {
    ZeroScaledIsZero();
    ScaledPositive(BalanceOf(w.balance, cmd.quoteCurrency));
  }

  /**
   * A buy is checked against a positive quote balance only, never against amount
   * times price: a valid buy stays valid whatever positive amount it asks for.
   */
  lemma BuyIgnoresCost(cmd: PlaceOrderCommand, w: WalletData, amount: Decimal)
    requires cmd.IsBuy() && ValidateOrder(cmd, w).None? && Value(amount) > 0.0
    ensures ValidateOrder(cmd.(amount := amount), w).None?
    ensures Value(BalanceOf(w.balance, cmd.quoteCurrency)) >= HALF_ULP
  {
    ScaledPositive(BalanceOf(w.balance, cmd.quoteCurrency));
  }

  /** A valid sell leaves the seller holding strictly more base currency than the amount offered. */
  lemma SellNeedsMoreThanAmount(cmd: PlaceOrderCommand, w: WalletData)
    requires cmd.IsSell() && ValidateOrder(cmd, w).None?
    ensures Value(BalanceOf(w.balance, cmd.baseCurrency)) > Value(cmd.amount)
  {
    if Value(BalanceOf(w.balance, cmd.baseCurrency)) <= Value(cmd.amount) {
      ScaledMonotone(BalanceOf(w.balance, cmd.baseCurrency), cmd.amount);
    }
  }

  /** The outcome of `placeOrder`: the answer, the order rows and the published events afterwards. */
  datatype Placement = Placement(result: Result<OrderPlacedEvent, Throwable>, orders: map<OrderId, OrderTable>, events: seq<Event>)

  /** `placeOrder` on values; `newId` is the id the database assigns to the new row, if any. */
  function Place(cmd: PlaceOrderCommand, wallets: map<WalletId, WalletData>, orders: map<OrderId, OrderTable>,
                 events: seq<Event>, newId: Option<OrderId>): (p: Placement)
    ensures p.result.Failure? ==> p.orders == orders && p.events == events
  {
    if cmd.walletId !in wallets then
      Placement(Failure(Fail(NotFound, "Wallet not found")), orders, events)
    else
      match ValidateOrder(cmd, wallets[cmd.walletId])
      case Some(e) => Placement(Failure(e), orders, events)
      case None =>
        var saved := PersistedOrder(cmd.ToOrder(), newId);
        if saved.id.None? then
          Placement(Failure(Platform(Some("Order was not saved"))), orders, events)
        else
          Placement(Success(OrderPlacedEvent(saved.id.value)),
                    orders[saved.id.value := ToOrderTable(saved)],
                    events + [TransactionCreated(OrderPlacedCreated(saved)),
                              MatchOrders(MatchOrdersEvent(saved.baseCurrency, saved.quoteCurrency))])
  }

  /**
   * Placement succeeds exactly when the wallet exists, the order is valid and the
   * database assigns an id; the new row is then an OPEN copy of the command under
   * that id, no other row changes, and exactly two events follow: the placement
   * record, then the request to match the pair.
   */
  lemma PlaceSucceeds(cmd: PlaceOrderCommand, wallets: map<WalletId, WalletData>, orders: map<OrderId, OrderTable>,
                      events: seq<Event>, newId: Option<OrderId>)
    ensures var p := Place(cmd, wallets, orders, events, newId);
      p.result.Success? <==> cmd.walletId in wallets && Placeable(cmd, wallets[cmd.walletId]) && newId.Some?
    ensures var p := Place(cmd, wallets, orders, events, newId);
      p.result.Success? ==>
        var id := newId.value;
        var o := ToOrder(p.orders[id]);
        && p.result.value == OrderPlacedEvent(id)
        && id in p.orders && o.id == Some(id) && o.status == OPEN
        && o.userId == cmd.userId && o.walletId == cmd.walletId && o.orderType == cmd.orderType
        && o.baseCurrency == cmd.baseCurrency && o.quoteCurrency == cmd.quoteCurrency
        && Value(o.amount) == Value(cmd.amount)
        && (forall k :: k in orders && k != id ==> k in p.orders && p.orders[k] == orders[k])
        && p.events == events + [TransactionCreated(OrderPlacedCreated(o)),
                                 MatchOrders(MatchOrdersEvent(cmd.baseCurrency, cmd.quoteCurrency))]
  {
    var p := Place(cmd, wallets, orders, events, newId);
    if p.result.Success? {
      var o := cmd.ToOrder().(id := newId);
      RoundTripStable(o, ToOrderTable(o));
    }
  }

  /** Whatever the answer, the rows stay filed under their own ids with trimmed amounts. */
  lemma PlaceKeepsRowsStored(cmd: PlaceOrderCommand, wallets: map<WalletId, WalletData>, orders: map<OrderId, OrderTable>,
                             events: seq<Event>, newId: Option<OrderId>)
    requires StoredOrders(orders)
    ensures StoredOrders(Place(cmd, wallets, orders, events, newId).orders)
  {
  }

  /** `getOrder`: the order when it exists and belongs to the user; the same not-found error otherwise. */
  function LookupOrder(rows: map<OrderId, OrderTable>, q: OrderQuery): (r: Result<OrderData, Throwable>)
    ensures r.Success? <==> q.orderId in rows && rows[q.orderId].userId == q.userId
    ensures r.Success? ==> r.value == ToOrder(rows[q.orderId])
    ensures r.Failure? ==> r.error == Fail(NotFound, "Order not found")
  {
    if q.orderId !in rows then Failure(Fail(NotFound, "Order not found"))
    else
      var o := ToOrder(rows[q.orderId]);
      if o.userId != q.userId then Failure(Fail(NotFound, "Order not found")) else Success(o)
  }

  /** Asking for someone else's order answers exactly as if the order did not exist. */
  lemma ForeignOrderLooksAbsent(rows: map<OrderId, OrderTable>, q: OrderQuery)
    requires q.orderId in rows && rows[q.orderId].userId != q.userId
    ensures LookupOrder(rows, q) == LookupOrder(rows - {q.orderId}, q)
  {
  }

  /** The outcome of `cancelOrder`: the answer, the order rows and the published events afterwards. */
  datatype Cancellation = Cancellation(result: Result<(), Throwable>, orders: map<OrderId, OrderTable>, events: seq<Event>)

  /** `cancelOrder` on values. */
  function CancelOutcome(cmd: CancelOrderCommand, orders: map<OrderId, OrderTable>, events: seq<Event>): (c: Cancellation)
    ensures c.result.Failure? ==> c.orders == orders && c.events == events
  {
    if cmd.orderId !in orders then
      Cancellation(Failure(Fail(NotFound, "Order not found")), orders, events)
    else
      var o := ToOrder(orders[cmd.orderId]);
      if o.status != OPEN then
        Cancellation(Failure(Fail(BadRequest, "Order cannot be canceled")), orders, events)
      else
        var saved := PersistedOrder(o.(status := CANCELED), None);
        Cancellation(Success(()), SaveOrderRow(orders, saved),
                     events + [TransactionCreated(OrderCancelledCreated(saved))])
  }

  /**
   * Only an OPEN order can be cancelled. Cancelling changes its row's status to
   * CANCELED and nothing else, and records exactly one cancellation event; an
   * absent order is not found and a closed one is a bad request.
   */
  lemma CancelOnlyOpen(cmd: CancelOrderCommand, orders: map<OrderId, OrderTable>, events: seq<Event>)
    requires StoredOrders(orders)
    ensures var c := CancelOutcome(cmd, orders, events);
      && (cmd.orderId !in orders ==> c.result == Failure(Fail(NotFound, "Order not found")))
      && ((cmd.orderId in orders && orders[cmd.orderId].status != OPEN)
            ==> c.result == Failure(Fail(BadRequest, "Order cannot be canceled")))
      && (c.result.Success? <==> cmd.orderId in orders && orders[cmd.orderId].status == OPEN)
    ensures var c := CancelOutcome(cmd, orders, events);
      c.result.Success? ==>
        var row := orders[cmd.orderId].(status := CANCELED);
        && c.orders == orders[cmd.orderId := row]
        && c.events == events + [TransactionCreated(OrderCancelledCreated(ToOrder(row)))]
        && StoredOrders(c.orders)
  {
    if cmd.orderId in orders && orders[cmd.orderId].status == OPEN {
      var t := orders[cmd.orderId];
      var o := ToOrder(t).(status := CANCELED);
      TrimIdempotent(t.amount);
      StrippedUnique(Trim(t.amount), t.amount);
      RoundTripStable(o, ToOrderTable(o));
      assert ToOrderTable(o) == t.(status := CANCELED);
    }
  }

  /** Who asks does not matter: the order's owner is never compared with the command's user. */
  lemma CancelIgnoresOwner(cmd: CancelOrderCommand, other: UserId, orders: map<OrderId, OrderTable>, events: seq<Event>)
    ensures CancelOutcome(cmd.(userId := other), orders, events) == CancelOutcome(cmd, orders, events)
  {
  }

  /** The order service over the order and wallet stores and the event publisher. */
  class OrderService {
    const orders: OrderStore
    const wallets: WalletStore
    const publisher: EventPublisher

    constructor (orders: OrderStore, wallets: WalletStore, publisher: EventPublisher)
      ensures this.orders == orders && this.wallets == wallets && this.publisher == publisher
    {
      this.orders, this.wallets, this.publisher := orders, wallets, publisher;
    }

    /** `placeOrder` */
    method PlaceOrder(cmd: PlaceOrderCommand, newId: Option<OrderId>) returns (r: Result<OrderPlacedEvent, Throwable>)
      requires newId.Some? ==> newId.value !in orders.rows
      modifies orders, publisher
      ensures Placement(r, orders.rows, publisher.published)
           == Place(cmd, wallets.rows, old(orders.rows), old(publisher.published), newId)
    {
      var wallet := wallets.FindById(cmd.walletId);
      if wallet == null {
        return Failure(Fail(NotFound, "Wallet not found"));
      }
      var invalid := ValidateOrder(cmd, wallet.Data());
      if invalid.Some? {
        return Failure(invalid.value);
      }
      var order := orders.Save(cmd.ToOrder(), newId);
      if order.id.None? {
        return Failure(Platform(Some("Order was not saved")));
      }
      publisher.Publish(TransactionCreated(OrderPlacedCreated(order)));
      publisher.Publish(MatchOrders(MatchOrdersEvent(order.baseCurrency, order.quoteCurrency)));
      r := Success(OrderPlacedEvent(order.id.value));
    }

    /** `getOrder` */
    function GetOrder(q: OrderQuery): (r: Result<OrderData, Throwable>)
      reads orders
      ensures r.Success? <==> q.orderId in orders.rows && orders.rows[q.orderId].userId == q.userId
      ensures r.Success? ==> r.value == ToOrder(orders.rows[q.orderId]) && r.value.userId == q.userId
      ensures r.Failure? ==> r.error == Fail(NotFound, "Order not found")
    {
      LookupOrder(orders.rows, q)
    }

    /** `getOrders`: every order of the user, and only those. */
    function GetOrders(q: OrdersQuery): (os: set<OrderData>)
      reads orders
      ensures forall o :: o in os ==> o.userId == q.userId
      ensures forall k :: k in orders.rows && orders.rows[k].userId == q.userId ==> ToOrder(orders.rows[k]) in os
    {
      orders.FindAllByUserId(q.userId)
    }

    /** `cancelOrder` */
    method CancelOrder(cmd: CancelOrderCommand) returns (r: Result<(), Throwable>)
      modifies orders, publisher
      ensures Cancellation(r, orders.rows, publisher.published)
           == CancelOutcome(cmd, old(orders.rows), old(publisher.published))
    {
      var order := orders.FindById(cmd.orderId);
      if order == null {
        return Failure(Fail(NotFound, "Order not found"));
      }
      if order.status != OPEN {
        return Failure(Fail(BadRequest, "Order cannot be canceled"));
      }
      order.status := CANCELED;
      var saved := orders.Save(order.Data(), None);
      publisher.Publish(TransactionCreated(OrderCancelledCreated(saved)));
      r := Success(());
    }
  }

  /** Every order the user is shown in the list can also be fetched on its own. */
  lemma ListedOrdersCanBeFetched(store: OrderStore, userId: UserId)
    requires StoredOrders(store.rows)
    ensures forall o :: o in store.FindAllByUserId(userId) ==>
      o.id.Some? && LookupOrder(store.rows, OrderQuery(userId, o.id.value)) == Success(o)
  {
    forall o | o in store.FindAllByUserId(userId)
      ensures o.id.Some? && LookupOrder(store.rows, OrderQuery(userId, o.id.value)) == Success(o)
    {
      var k :| k in store.rows && ToOrder(store.rows[k]) == o && o.userId == userId;
      assert o.id == Some(k);
    }
  }
}
