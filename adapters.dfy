/**
 * The REST adapters that turn request bodies and path values into commands and
 * queries (interfaces/rest/adapter/WalletAdapter.kt, OrderAdapter.kt,
 * TransactionAdapter.kt). Each is an early-return chain of checks. The bean
 * validator's verdict on a request and the outcome of parsing an identifier
 * string are inputs: `None` for a request that passes validation, and `None`
 * for a string that is not an identifier.
 */
module Adapters {
  import opened Wrappers
  import opened Types
  import opened Numbers
  import opened Errors
  import opened Entities
  import opened UseCases
  import opened Stores

  /** `CreateWalletRequest`: the name and the currency list may be missing, and the list may hold nulls. */
  datatype CreateWalletRequest = CreateWalletRequest(name: Option<string>, currencies: Option<seq<Option<Currency>>>)

  /** `DepositRequest` and `WithdrawalRequest`, which have the same fields. */
  datatype PaymentRequest = PaymentRequest(amount: Option<Decimal>, currency: Option<Currency>, paymentId: Option<PaymentId>)

  /** `PlaceOrderRequest` */
  datatype PlaceOrderRequest = PlaceOrderRequest(
    walletId: Option<WalletId>,
    orderType: Option<OrderType>,
    amount: Option<Decimal>,
    baseCurrency: Option<Currency>,
    quoteCurrency: Option<Currency>
  )

  /** `filterNotNull`: the present entries, in order. */
  function Present(xs: seq<Option<Currency>>): (r: seq<Currency>)
    ensures |r| <= |xs|
    ensures forall x :: x in r <==> Some(x) in xs
  {
    if xs == [] then []
    else (if xs[0].Some? then [xs[0].value] else []) + Present(xs[1..])
  }

  /** Filtering a concatenation filters each part. */
  lemma {:induction false} PresentAppend(xs: seq<Option<Currency>>, ys: seq<Option<Currency>>)
    ensures Present(xs + ys) == Present(xs) + Present(ys)
  {
    if xs != [] {
      var head := if xs[0].Some? then [xs[0].value] else [];
      assert (xs + ys)[0] == xs[0] && (xs + ys)[1..] == xs[1..] + ys;
      PresentAppend(xs[1..], ys);
      calc {
        Present(xs + ys);
        head + Present(xs[1..] + ys);
        head + (Present(xs[1..]) + Present(ys));
        (head + Present(xs[1..])) + Present(ys);
      }
    } else {
      assert xs + ys == ys;
    }
  }

  /** The list of currencies as a request carries it, every entry present. */
  function Wrapped(xs: seq<Currency>): (r: seq<Option<Currency>>)
    ensures |r| == |xs| && forall i :: 0 <= i < |xs| ==> r[i] == Some(xs[i])
  {
    if xs == [] then [] else [Some(xs[0])] + Wrapped(xs[1..])
  }

  /** A list without nulls is kept whole. */
  lemma {:induction false} PresentOfWrapped(xs: seq<Currency>)
    ensures Present(Wrapped(xs)) == xs
  {
    if xs != [] {
      assert Wrapped(xs)[1..] == Wrapped(xs[1..]);
      PresentOfWrapped(xs[1..]);
    }
  }

  function MissingFields(): Throwable {
    Fail(BadRequest, "Required fields are missing")
  }

  function InvalidUserId(): Throwable {
    Fail(BadRequest, "Invalid user id")
  }

  function NotPositive(): Throwable {
    Fail(Validation(map["amount" := "Amount should be positive"]), "Validation error occurred")
  }

  /** `createWalletCommand` */
  function CreateWalletCommandOf(userId: Option<UserId>, req: CreateWalletRequest, rejection: Option<Throwable>)
    : (r: Result<CreateWalletCommand, Throwable>)
    ensures r.Success? ==> Some(r.value.userId) == userId && Some(r.value.name) == req.name
  {
    if rejection.Some? then Failure(rejection.value)
    else
      var currencies := if req.currencies.Some? then Present(req.currencies.value) else [];
      if currencies == [] then Failure(Fail(BadRequest, "At least one currency is required"))
      else if userId.None? || req.name.None? then Failure(MissingFields())
      else Success(CreateWalletCommand(userId.value, req.name.value, currencies))
  }

  /**
   * The validator's verdict comes first, then the currency list (missing, empty,
   * or only nulls), then the user and the name; a command keeps the currencies
   * that are present, in order.
   */
  lemma CreateWalletChecks(userId: Option<UserId>, req: CreateWalletRequest, rejection: Option<Throwable>)
    ensures rejection.Some? ==> CreateWalletCommandOf(userId, req, rejection) == Failure(rejection.value)
    ensures (rejection.None? && (req.currencies.None? || forall c :: c in req.currencies.value ==> c.None?))
      ==> CreateWalletCommandOf(userId, req, rejection) == Failure(Fail(BadRequest, "At least one currency is required"))
    ensures CreateWalletCommandOf(userId, req, rejection).Success? <==>
      && rejection.None? && userId.Some? && req.name.Some? && req.currencies.Some?
      && exists c :: Some(c) in req.currencies.value
    ensures var r := CreateWalletCommandOf(userId, req, rejection);
      r.Success? ==> r.value.currencies == Present(req.currencies.value)
                     && forall c :: c in r.value.currencies <==> Some(c) in req.currencies.value
  {
    if rejection.None? && req.currencies.Some? {
      var cs := Present(req.currencies.value);
      if cs != [] {
        assert Some(cs[0]) in req.currencies.value;
      }
    }
  }

  /** The request a wallet command could have come from reproduces it. */
  lemma CreateWalletRoundTrip(cmd: CreateWalletCommand)
    requires cmd.currencies != []
    ensures CreateWalletCommandOf(Some(cmd.userId), CreateWalletRequest(Some(cmd.name), Some(Wrapped(cmd.currencies))), None)
         == Success(cmd)
  {
    PresentOfWrapped(cmd.currencies);
  }

  /** `walletQuery`: `walletId` is the outcome of parsing the path's identifier. */
  function WalletQueryOf(userId: Option<UserId>, walletId: Option<WalletId>): (r: Result<WalletQuery, Throwable>)
    ensures r.Success? <==> userId.Some? && walletId.Some?
    ensures r.Success? ==> r.value == WalletQuery(userId.value, walletId.value)
    ensures userId.None? ==> r == Failure(InvalidUserId())
    ensures userId.Some? && walletId.None? ==> r == Failure(Fail(BadRequest, "Invalid wallet id"))
  {
    if userId.None? then Failure(InvalidUserId())
    else if walletId.None? then Failure(Fail(BadRequest, "Invalid wallet id"))
    else Success(WalletQuery(userId.value, walletId.value))
  }

  /** `walletsQuery` */
  function WalletsQueryOf(userId: Option<UserId>): (r: Result<WalletsQuery, Throwable>)
    ensures r.Success? <==> userId.Some?
    ensures r.Success? ==> r.value.userId == userId.value
    ensures r.Failure? ==> r.error == InvalidUserId()
  {
    if userId.None? then Failure(InvalidUserId()) else Success(WalletsQuery(userId.value))
  }

  /** The checks `depositCommand` and `withdrawCommand` share, yielding the four fields of the command. */
  function PaymentFields(walletId: Option<WalletId>, req: PaymentRequest, rejection: Option<Throwable>)
    : (r: Result<(WalletId, Decimal, Currency, PaymentId), Throwable>)
    ensures r.Success? ==> Value(r.value.1) > 0.0
  {
    if rejection.Some? then Failure(rejection.value)
    else if walletId.None? || req.amount.None? || req.currency.None? || req.paymentId.None? then Failure(MissingFields())
    else if NegativeOrZero(req.amount) then Failure(NotPositive())
    else Success((walletId.value, req.amount.value, req.currency.value, req.paymentId.value))
  }

  /**
   * The validator's verdict first, then missing fields, then a non-positive
   * amount (a validation error naming the amount); a command copies the fields.
   */
  lemma PaymentChecks(walletId: Option<WalletId>, req: PaymentRequest, rejection: Option<Throwable>)
    ensures var r := PaymentFields(walletId, req, rejection);
      var complete := walletId.Some? && req.amount.Some? && req.currency.Some? && req.paymentId.Some?;
      && (rejection.Some? ==> r == Failure(rejection.value))
      && (rejection.None? && !complete ==> r == Failure(MissingFields()))
      && (rejection.None? && complete && Value(req.amount.value) <= 0.0 ==> r == Failure(NotPositive()))
      && (r.Success? <==> rejection.None? && complete && Value(req.amount.value) > 0.0)
      && (r.Success? ==> r.value == (walletId.value, req.amount.value, req.currency.value, req.paymentId.value))
  {
  }

  /** `depositCommand` */
  function DepositCommandOf(walletId: Option<WalletId>, req: PaymentRequest, rejection: Option<Throwable>)
    : (r: Result<DepositCommand, Throwable>)
    ensures r.Success? ==> Value(r.value.amount) > 0.0
    ensures r.Success? ==> Some(r.value.walletId) == walletId && Some(r.value.amount) == req.amount
                           && Some(r.value.currency) == req.currency && Some(r.value.paymentId) == req.paymentId
    ensures r.Failure? ==> PaymentFields(walletId, req, rejection).Failure?
                           && r.error == PaymentFields(walletId, req, rejection).error
  {
    var f := PaymentFields(walletId, req, rejection);
    if f.Failure? then Failure(f.error)
    else Success(DepositCommand(f.value.0, f.value.1, f.value.2, f.value.3))
  }

  /** `withdrawCommand` */
  function WithdrawCommandOf(walletId: Option<WalletId>, req: PaymentRequest, rejection: Option<Throwable>)
    : (r: Result<WithdrawCommand, Throwable>)
    ensures r.Success? ==> Value(r.value.amount) > 0.0
    ensures r.Success? ==> Some(r.value.walletId) == walletId && Some(r.value.amount) == req.amount
                           && Some(r.value.currency) == req.currency && Some(r.value.paymentId) == req.paymentId
    ensures r.Failure? ==> PaymentFields(walletId, req, rejection).Failure?
                           && r.error == PaymentFields(walletId, req, rejection).error
  {
    var f := PaymentFields(walletId, req, rejection);
    if f.Failure? then Failure(f.error)
    else Success(WithdrawCommand(f.value.0, f.value.1, f.value.2, f.value.3))
  }

  /** Every deposit command with a positive amount is what its own request becomes. */
  lemma DepositRoundTrip(cmd: DepositCommand)
    requires Value(cmd.amount) > 0.0
    ensures DepositCommandOf(Some(cmd.walletId), PaymentRequest(Some(cmd.amount), Some(cmd.currency), Some(cmd.paymentId)), None)
         == Success(cmd)
  {
  }

  /** Every withdraw command with a positive amount is what its own request becomes. */
  lemma WithdrawRoundTrip(cmd: WithdrawCommand)
    requires Value(cmd.amount) > 0.0
    ensures WithdrawCommandOf(Some(cmd.walletId), PaymentRequest(Some(cmd.amount), Some(cmd.currency), Some(cmd.paymentId)), None)
         == Success(cmd)
  {
  }

  /** `placeOrderCommand`: presence only; positivity and distinct currencies are left to the service. */
  function PlaceOrderCommandOf(userId: Option<UserId>, req: PlaceOrderRequest, rejection: Option<Throwable>)
    : (r: Result<PlaceOrderCommand, Throwable>)
    ensures rejection.Some? ==> r == Failure(rejection.value)
    ensures r.Success? <==> rejection.None? && userId.Some? && req.walletId.Some? && req.orderType.Some?
                            && req.amount.Some? && req.baseCurrency.Some? && req.quoteCurrency.Some?
    ensures r.Failure? && rejection.None? ==> r.error == MissingFields()
  {
    if rejection.Some? then Failure(rejection.value)
    else if userId.None? || req.walletId.None? || req.orderType.None? || req.amount.None?
            || req.baseCurrency.None? || req.quoteCurrency.None? then
      Failure(MissingFields())
    else
      Success(PlaceOrderCommand(userId.value, req.walletId.value, req.orderType.value, req.amount.value,
                                req.baseCurrency.value, req.quoteCurrency.value))
  }

  /**
   * Every command, whatever its amount or currencies, is what its own request
   * becomes: the adapter passes a non-positive amount and equal currencies through.
   */
  lemma PlaceOrderRoundTrip(cmd: PlaceOrderCommand)
    ensures PlaceOrderCommandOf(Some(cmd.userId), PlaceOrderRequest(Some(cmd.walletId), Some(cmd.orderType), Some(cmd.amount),
                                Some(cmd.baseCurrency), Some(cmd.quoteCurrency)), None) == Success(cmd)
  {
  }

  /** The identifier checks `orderQuery` and `cancelOrderCommand` share. */
  function OrderIds(userId: Option<UserId>, orderId: Option<OrderId>): (r: Result<(UserId, OrderId), Throwable>)
    ensures r.Success? <==> userId.Some? && orderId.Some?
    ensures r.Success? ==> r.value == (userId.value, orderId.value)
    ensures userId.None? ==> r == Failure(InvalidUserId())
    ensures userId.Some? && orderId.None? ==> r == Failure(Fail(BadRequest, "Invalid order id"))
  {
    if userId.None? then Failure(InvalidUserId())
    else if orderId.None? then Failure(Fail(BadRequest, "Invalid order id"))
    else Success((userId.value, orderId.value))
  }

  /** `orderQuery` */
  function OrderQueryOf(userId: Option<UserId>, orderId: Option<OrderId>): (r: Result<OrderQuery, Throwable>)
    ensures r.Success? <==> userId.Some? && orderId.Some?
    ensures r.Success? ==> r.value == OrderQuery(userId.value, orderId.value)
    ensures r.Failure? ==> r.error == OrderIds(userId, orderId).error
  {
    var ids := OrderIds(userId, orderId);
    if ids.Failure? then Failure(ids.error) else Success(OrderQuery(ids.value.0, ids.value.1))
  }

  /** `ordersQuery` */
  function OrdersQueryOf(userId: Option<UserId>): (r: Result<OrdersQuery, Throwable>)
    ensures r.Success? <==> userId.Some?
    ensures r.Success? ==> r.value.userId == userId.value
    ensures r.Failure? ==> r.error == InvalidUserId()
  {
    if userId.None? then Failure(InvalidUserId()) else Success(OrdersQuery(userId.value))
  }

  /** `cancelOrderCommand` */
  function CancelOrderCommandOf(userId: Option<UserId>, orderId: Option<OrderId>): (r: Result<CancelOrderCommand, Throwable>)
    ensures r.Success? <==> userId.Some? && orderId.Some?
    ensures r.Success? ==> r.value == CancelOrderCommand(userId.value, orderId.value)
    ensures r.Failure? ==> r.error == OrderIds(userId, orderId).error
  {
    var ids := OrderIds(userId, orderId);
    if ids.Failure? then Failure(ids.error) else Success(CancelOrderCommand(ids.value.0, ids.value.1))
  }

  /** `transactionsQuery` */
  function TransactionsQueryOf(userId: Option<UserId>, page: int, size: int): (r: Result<TransactionsQuery, Throwable>)
    ensures r.Success? <==> userId.Some? && page >= 0 && size >= 0
    ensures r.Success? ==> r.value == TransactionsQuery(userId.value, page, size)
    ensures userId.None? ==> r == Failure(InvalidUserId())
    ensures userId.Some? && (page < 0 || size < 0) ==> r == Failure(Fail(BadRequest, "Invalid page or size"))
  {
    if userId.None? then Failure(InvalidUserId())
    else if page < 0 || size < 0 then Failure(Fail(BadRequest, "Invalid page or size"))
    else Success(TransactionsQuery(userId.value, page, size))
  }

  /**
   * The adapter's bound is not the store's: a size of zero passes the adapter
   * (its comparison is strict) and is then refused by the page request, with a
   * platform exception rather than a domain error.
   */
  lemma ZeroSizePassesAdapterOnly(userId: UserId, page: int, log: seq<Transaction>)
    requires page >= 0
    ensures TransactionsQueryOf(Some(userId), page, 0).Success?
    ensures var q := TransactionsQueryOf(Some(userId), page, 0).value;
      UserPage(log, q.userId, q.page, q.size).Failure? && UserPage(log, q.userId, q.page, q.size).error.Platform?
  {
  }

  /** Any query the adapter accepts with a positive size yields a page of at most that many of the user's records. */
  lemma AcceptedQueryPages(userId: UserId, page: int, size: int, log: seq<Transaction>)
    requires TransactionsQueryOf(Some(userId), page, size).Success? && size > 0
    ensures var p := UserPage(log, userId, page, size);
      p.Success? && |p.value.content| <= size && forall t :: t in p.value.content ==> t.userId == userId
  {
  }
}
