/**
 * One matching pass over the open orders of a currency pair
 * (application/service/OrderMatchingService.kt): every buy order is tried
 * against every sell order, buy-major, and each attempt either cancels the side
 * whose wallet cannot pay or trades the smaller of the two amounts at the pass's
 * price. The pass is specified on values (`MatchPair`, `Step`, `Run`) and the
 * service's nested loops are proved to compute exactly that.
 */
module Matching {
  import opened Wrappers
  import opened Types
  import opened Numbers
  import opened Entities
  import opened OrderMapper
  import opened UseCases
  import opened Events
  import opened Stores

  /** The name of the lock a pass over the pair holds: "BASE-QUOTE". */
  function LockKey(base: Currency, quote: Currency): (k: string)
    ensures |k| == |base.Name()| + 1 + |quote.Name()|
    ensures k[..|base.Name()|] == base.Name() && k[|base.Name()| + 1..] == quote.Name()
  {
    base.Name() + "-" + quote.Name()
  }

  /** The lock name puts its first '-' right after the base currency's name. */
  lemma DashFollowsBase(a: Currency, b: Currency)
    ensures |LockKey(a, b)| > |a.Name()| && LockKey(a, b)[|a.Name()|] == '-'
    ensures forall x :: 0 <= x < |a.Name()| ==> LockKey(a, b)[x] != '-'
  {
    var k := LockKey(a, b);
    forall x | 0 <= x < |a.Name()|
      ensures k[x] != '-'
    {
      assert k[x] == a.Name()[x];
    }
  }

  /** Different ordered pairs never share a lock, and a pair and its reverse do not either. */
  lemma LockKeyInjective(a: Currency, b: Currency, c: Currency, d: Currency)
    requires LockKey(a, b) == LockKey(c, d)
    ensures a == c && b == d
  {
    var k := LockKey(a, b);
    DashFollowsBase(a, b);
    DashFollowsBase(c, d);
    var i := |a.Name()|;
    assert i == |c.Name()|;
    assert k[..i] == a.Name() && k[..i] == c.Name();
    CurrencyNameInjective(a, c);
    assert k[i + 1..] == b.Name() && k[i + 1..] == d.Name();
    CurrencyNameInjective(b, d);
  }

  /**
   * `validateOrder` of the matching service: a buyer must hold at least the quote
   * amount, a seller at least the base amount, both compared after rounding to 18
   * digits.
   */
  predicate Affordable(o: OrderData, w: WalletData, base: Decimal, quote: Decimal)
    ensures o.orderType == BUY && Value(quote) <= Value(BalanceOf(w.balance, o.quoteCurrency)) ==> Affordable(o, w, base, quote)
    ensures o.orderType == SELL && Value(base) <= Value(BalanceOf(w.balance, o.baseCurrency)) ==> Affordable(o, w, base, quote)
  {
    // `when (order.type)`: a buyer pays the quote amount, a seller gives the base amount
    var held := if o.orderType == BUY then BalanceOf(w.balance, o.quoteCurrency) else BalanceOf(w.balance, o.baseCurrency);
    var needed := if o.orderType == BUY then quote else base;
    if Value(needed) <= Value(held) then
      ScaledMonotone(needed, held);
      Value(Scaled(held)) >= Value(Scaled(needed))
    else
      Value(Scaled(held)) >= Value(Scaled(needed))
  }

  /** Rounding lets an affordable trade exceed the balance, but by less than 10^-18. */
  lemma AffordableUpToRounding(o: OrderData, w: WalletData, base: Decimal, quote: Decimal)
    requires Affordable(o, w, base, quote)
    ensures o.orderType == BUY ==> Value(BalanceOf(w.balance, o.quoteCurrency)) - Value(quote) >= -2.0 * HALF_ULP
    ensures o.orderType == SELL ==> Value(BalanceOf(w.balance, o.baseCurrency)) - Value(base) >= -2.0 * HALF_ULP
  {
  }

  /** A balance of 4·10^-19 passes the check for a trade of 4.9·10^-19: both round to zero. */
  lemma AffordableYetShort(o: OrderData, w: WalletData)
    requires o.orderType == BUY && BalanceOf(w.balance, o.quoteCurrency) == Decimal(4, 19)
    ensures Affordable(o, w, Decimal(49, 20), Decimal(49, 20))
    ensures Value(BalanceOf(w.balance, o.quoteCurrency)) < Value(Decimal(49, 20))
  {
    Scale19Value(4);
    Scale20Value(49);
    ScaledOfTiny(Decimal(4, 19));
    ScaledOfTiny(Decimal(49, 20));
  }

  /** Both orders are still open and have something left: the pair is attempted. */
  predicate Matchable(b: OrderData, s: OrderData) {
    b.status == OPEN && Value(b.amount) > 0.0 && s.status == OPEN && Value(s.amount) > 0.0
  }

  /** `saveTrade`'s status rule: an order whose remainder rounds to zero is FILLED. */
  function Settle(o: OrderData): (r: OrderData)
    ensures r.amount == o.amount && SameOrder(r, o)
    ensures IsZero(o.amount) ==> r.status == FILLED
    ensures !IsZero(o.amount) ==> r.status == o.status
  {
    if IsZero(o.amount) then o.(status := FILLED) else o
  }

  /** The event `saveTrade` publishes for an order, carrying the traded base amount. */
  function FillEvent(o: OrderData, base: Decimal): (e: Event)
    ensures e.TransactionCreated? && e.created.UserId() == o.userId
    ensures e.created.Type() == if o.status == FILLED then ORDER_FILLED else ORDER_PARTIALLY_FILLED
    ensures e.created.Metadata() == map["orderId" := NullableUuidString(o.id), "amount" := AmountString(base)]
  {
    if o.status == FILLED then TransactionCreated(OrderFilledCreated(o, base))
    else TransactionCreated(OrderPartialFilledCreated(o, base))
  }

  /** The effect of one `matchOrder`: both orders as the objects hold them, the stores, the events. */
  datatype Trade = Trade(
    buy: OrderData,
    sell: OrderData,
    orders: map<OrderId, OrderTable>,
    wallets: map<WalletId, WalletData>,
    events: seq<Event>
  )

  /** The buyer's wallet after a trade: base credited, then quote debited. */
  function BuyerAfter(w: WalletData, b: OrderData, base: Decimal, quote: Decimal): WalletData {
    Debit(Credit(w, b.baseCurrency, base), b.quoteCurrency, quote)
  }

  /** The seller's wallet after a trade: base debited, then quote credited. */
  function SellerAfter(w: WalletData, s: OrderData, base: Decimal, quote: Decimal): WalletData {
    Credit(Debit(w, s.baseCurrency, base), s.quoteCurrency, quote)
  }

  /** Neither side is cancelled: the buyer's wallet exists and pays, then the seller's. */
  predicate Trades(b: OrderData, s: OrderData, wallets: map<WalletId, WalletData>, price: Decimal) {
    var base := Min(b.amount, s.amount);
    var quote := Mul(base, price);
    && b.walletId in wallets && Affordable(b, wallets[b.walletId], base, quote)
    && s.walletId in wallets && Affordable(s, wallets[s.walletId], base, quote)
  }

  /** `matchOrder` on values. */
  function MatchPair(b: OrderData, s: OrderData, orders: map<OrderId, OrderTable>,
                     wallets: map<WalletId, WalletData>, events: seq<Event>, price: Decimal): Trade
  {
    var base := Min(b.amount, s.amount);
    var quote := Mul(base, price);
    if b.walletId !in wallets || !Affordable(b, wallets[b.walletId], base, quote) then
      var b' := b.(status := CANCELED);
      Trade(b', s, SaveOrderRow(orders, b'), wallets, events)
    else if s.walletId !in wallets || !Affordable(s, wallets[s.walletId], base, quote) then
      var s' := s.(status := CANCELED);
      Trade(b, s', SaveOrderRow(orders, s'), wallets, events)
    else
      var bw := BuyerAfter(wallets[b.walletId], b, base, quote);
      var sw := SellerAfter(wallets[s.walletId], s, base, quote);
      var b' := Settle(b.(amount := Sub(b.amount, base)));
      var s' := Settle(s.(amount := Sub(s.amount, base)));
      Trade(b', s',
            SaveOrderRow(SaveOrderRow(orders, b'), s'),
            SaveWalletRow(SaveWalletRow(wallets, bw), sw),
            events + [FillEvent(b', base)] + [FillEvent(s', base)])
  }

  /** When the buyer cannot pay, only the buy order changes: it is cancelled and saved. */
  lemma BuyerFailureCancelsBuy(b: OrderData, s: OrderData, orders: map<OrderId, OrderTable>,
                               wallets: map<WalletId, WalletData>, events: seq<Event>, price: Decimal)
    requires b.walletId !in wallets || !Affordable(b, wallets[b.walletId], Min(b.amount, s.amount), Mul(Min(b.amount, s.amount), price))
    ensures var t := MatchPair(b, s, orders, wallets, events, price);
      && t.buy == b.(status := CANCELED) && t.sell == s
      && t.orders == SaveOrderRow(orders, t.buy) && t.wallets == wallets && t.events == events
  {
  }

  /** When the buyer pays but the seller cannot, only the sell order changes. */
  lemma SellerFailureCancelsSell(b: OrderData, s: OrderData, orders: map<OrderId, OrderTable>,
                                 wallets: map<WalletId, WalletData>, events: seq<Event>, price: Decimal)
    requires b.walletId in wallets && Affordable(b, wallets[b.walletId], Min(b.amount, s.amount), Mul(Min(b.amount, s.amount), price))
    requires s.walletId !in wallets || !Affordable(s, wallets[s.walletId], Min(b.amount, s.amount), Mul(Min(b.amount, s.amount), price))
    ensures var t := MatchPair(b, s, orders, wallets, events, price);
      && t.buy == b && t.sell == s.(status := CANCELED)
      && t.orders == SaveOrderRow(orders, t.sell) && t.wallets == wallets && t.events == events
  {
  }

  /**
   * A trade takes the smaller amount off both orders; an order is FILLED exactly
   * when its remainder rounds to zero, and at least one of the two is FILLED.
   */
  lemma TradeFillsSmallerSide(b: OrderData, s: OrderData, orders: map<OrderId, OrderTable>,
                              wallets: map<WalletId, WalletData>, events: seq<Event>, price: Decimal)
    requires Matchable(b, s) && Trades(b, s, wallets, price)
    ensures var t := MatchPair(b, s, orders, wallets, events, price);
      var traded := if Value(b.amount) <= Value(s.amount) then Value(b.amount) else Value(s.amount);
      && Value(t.buy.amount) == Value(b.amount) - traded
      && Value(t.sell.amount) == Value(s.amount) - traded
      && (t.buy.status == FILLED <==> IsZero(t.buy.amount))
      && (t.sell.status == FILLED <==> IsZero(t.sell.amount))
      && (t.buy.status == FILLED || t.sell.status == FILLED)
      && (t.buy.status != FILLED ==> t.buy.status == OPEN)
      && (t.sell.status != FILLED ==> t.sell.status == OPEN)
  {
    var base := Min(b.amount, s.amount);
    var rb, rs := Sub(b.amount, base), Sub(s.amount, base);
    if Value(b.amount) <= Value(s.amount) {
      assert Value(rb) == 0.0;
    } else {
      assert Value(rs) == 0.0;
    }
  }

  /** A trade publishes exactly one fill event per order, buyer first, each carrying the traded base amount. */
  lemma TradeEvents(b: OrderData, s: OrderData, orders: map<OrderId, OrderTable>,
                    wallets: map<WalletId, WalletData>, events: seq<Event>, price: Decimal)
    requires Trades(b, s, wallets, price)
    ensures var t := MatchPair(b, s, orders, wallets, events, price);
      var base := Min(b.amount, s.amount);
      && |t.events| == |events| + 2 && t.events[..|events|] == events
      && t.events[|events|] == FillEvent(t.buy, base) && t.events[|events| + 1] == FillEvent(t.sell, base)
  {
  }

  /** A trade saves the buyer's wallet, then the seller's, each under its own id. */
  lemma TradeWallets(b: OrderData, s: OrderData, orders: map<OrderId, OrderTable>,
                     wallets: map<WalletId, WalletData>, events: seq<Event>, price: Decimal)
    requires WellKeyed(wallets) && Trades(b, s, wallets, price)
    ensures var base := Min(b.amount, s.amount);
      var quote := Mul(base, price);
      MatchPair(b, s, orders, wallets, events, price).wallets
        == wallets[b.walletId := BuyerAfter(wallets[b.walletId], b, base, quote)]
                  [s.walletId := SellerAfter(wallets[s.walletId], s, base, quote)]
  {
    var base := Min(b.amount, s.amount);
    var quote := Mul(base, price);
    var bw := BuyerAfter(wallets[b.walletId], b, base, quote);
    var sw := SellerAfter(wallets[s.walletId], s, base, quote);
    assert bw.id == Some(b.walletId) && sw.id == Some(s.walletId);
  }

  /**
   * Between two different wallets, a trade moves base from seller to buyer and
   * quote from buyer to seller: every currency's total over the two is unchanged.
   */
  lemma TradeConserves(b: OrderData, s: OrderData, orders: map<OrderId, OrderTable>,
                       wallets: map<WalletId, WalletData>, events: seq<Event>, price: Decimal, c: Currency)
    requires WellKeyed(wallets) && Trades(b, s, wallets, price) && b.walletId != s.walletId
    requires b.baseCurrency == s.baseCurrency && b.quoteCurrency == s.quoteCurrency
    ensures var t := MatchPair(b, s, orders, wallets, events, price);
      && b.walletId in t.wallets && s.walletId in t.wallets
      && Value(BalanceOf(t.wallets[b.walletId].balance, c)) + Value(BalanceOf(t.wallets[s.walletId].balance, c))
         == Value(BalanceOf(wallets[b.walletId].balance, c)) + Value(BalanceOf(wallets[s.walletId].balance, c))
  {
    var base := Min(b.amount, s.amount);
    var quote := Mul(base, price);
    var w, v := wallets[b.walletId], wallets[s.walletId];
    TradeWallets(b, s, orders, wallets, events, price);
    CreditValue(w, b.baseCurrency, base, c);
    DebitValue(Credit(w, b.baseCurrency, base), b.quoteCurrency, quote, c);
    DebitValue(v, s.baseCurrency, base, c);
    CreditValue(Debit(v, s.baseCurrency, base), s.quoteCurrency, quote, c);
  }

  /**
   * When both orders use the same wallet, the two saves overwrite each other and
   * the seller's copy wins: the wallet loses the traded base amount although it
   * was also the buyer.
   */
  lemma SelfTradeKeepsSellerSide(b: OrderData, s: OrderData, orders: map<OrderId, OrderTable>,
                                 wallets: map<WalletId, WalletData>, events: seq<Event>, price: Decimal)
    requires WellKeyed(wallets) && Trades(b, s, wallets, price) && b.walletId == s.walletId
    requires b.baseCurrency == s.baseCurrency && s.baseCurrency != s.quoteCurrency
    ensures var t := MatchPair(b, s, orders, wallets, events, price);
      && b.walletId in t.wallets
      && Value(BalanceOf(t.wallets[b.walletId].balance, b.baseCurrency))
         == Value(BalanceOf(wallets[b.walletId].balance, b.baseCurrency)) - Value(Min(b.amount, s.amount))
  {
    var base := Min(b.amount, s.amount);
    var quote := Mul(base, price);
    var v := wallets[s.walletId];
    TradeWallets(b, s, orders, wallets, events, price);
    DebitValue(v, s.baseCurrency, base, b.baseCurrency);
    CreditValue(Debit(v, s.baseCurrency, base), s.quoteCurrency, quote, b.baseCurrency);
  }

  /**
   * After a trade between two wallets, the buyer's quote balance and the seller's
   * base balance are each at least the old balance minus what was paid, and
   * rounding in the affordability check lets that fall below zero by at most 10^-18.
   */
  lemma TradeBalanceFloor(b: OrderData, s: OrderData, orders: map<OrderId, OrderTable>,
                          wallets: map<WalletId, WalletData>, events: seq<Event>, price: Decimal)
    requires WellKeyed(wallets) && Trades(b, s, wallets, price) && b.walletId != s.walletId
    requires b.orderType == BUY && s.orderType == SELL
    requires b.baseCurrency == s.baseCurrency && b.quoteCurrency == s.quoteCurrency
    requires b.baseCurrency != b.quoteCurrency
    ensures var t := MatchPair(b, s, orders, wallets, events, price);
      && b.walletId in t.wallets && s.walletId in t.wallets
      && Value(BalanceOf(t.wallets[b.walletId].balance, b.quoteCurrency)) >= -2.0 * HALF_ULP
      && Value(BalanceOf(t.wallets[s.walletId].balance, s.baseCurrency)) >= -2.0 * HALF_ULP
  {
    var base := Min(b.amount, s.amount);
    var quote := Mul(base, price);
    var w, v := wallets[b.walletId], wallets[s.walletId];
    TradeWallets(b, s, orders, wallets, events, price);
    AffordableUpToRounding(b, w, base, quote);
    AffordableUpToRounding(s, v, base, quote);
    CreditValue(w, b.baseCurrency, base, b.quoteCurrency);
    DebitValue(Credit(w, b.baseCurrency, base), b.quoteCurrency, quote, b.quoteCurrency);
    DebitValue(v, s.baseCurrency, base, s.baseCurrency);
    CreditValue(Debit(v, s.baseCurrency, base), s.quoteCurrency, quote, s.baseCurrency);
  }

  /** The state a pass works on: the orders as the listed objects hold them, the stores, the events. */
  datatype PassState = PassState(
    buys: seq<OrderData>,
    sells: seq<OrderData>,
    orders: map<OrderId, OrderTable>,
    wallets: map<WalletId, WalletData>,
    events: seq<Event>
  )

  /** The attempt on pair (i, j): `matchOrder` if both orders are still matchable, else nothing. */
  function Step(p: PassState, i: nat, j: nat, price: Decimal): (q: PassState)
    requires i < |p.buys| && j < |p.sells|
    ensures |q.buys| == |p.buys| && |q.sells| == |p.sells|
  {
    if Matchable(p.buys[i], p.sells[j]) then
      var t := MatchPair(p.buys[i], p.sells[j], p.orders, p.wallets, p.events, price);
      PassState(p.buys[i := t.buy], p.sells[j := t.sell], t.orders, t.wallets, t.events)
    else
      p
  }

  /** The rest of a pass from pair (i, j) on: buy-major, each list in its own order. */
  function Run(p: PassState, i: nat, j: nat, price: Decimal): (q: PassState)
    requires j <= |p.sells|
    ensures |q.buys| == |p.buys| && |q.sells| == |p.sells|
    decreases |p.buys| - i, |p.sells| - j, 1
  {
    if i >= |p.buys| then p
    else if j == |p.sells| then Run(p, i + 1, 0, price)
    else RunAfter(p, i, j, price)
  }

  /** The rest of a pass once pair (i, j) has been attempted. */
  function RunAfter(p: PassState, i: nat, j: nat, price: Decimal): (q: PassState)
    requires i < |p.buys| && j < |p.sells|
    ensures |q.buys| == |p.buys| && |q.sells| == |p.sells|
    decreases |p.buys| - i, |p.sells| - j, 0
  {
    Run(Step(p, i, j, price), i, j + 1, price)
  }

  /** `Run` taken one attempt at a time. */
  lemma RunUnfoldsStep(p: PassState, i: nat, j: nat, price: Decimal)
    requires i < |p.buys| && j < |p.sells|
    ensures Run(p, i, j, price) == Run(Step(p, i, j, price), i, j + 1, price)
  {
    assert Run(p, i, j, price) == RunAfter(p, i, j, price);
  }

  /** `Run` moving on to the next buy order. */
  lemma RunUnfoldsRow(p: PassState, i: nat, price: Decimal)
    requires i < |p.buys|
    ensures Run(p, i, |p.sells|, price) == Run(p, i + 1, 0, price)
  {
  }

  /** `Run` past the last buy order. */
  lemma RunEnds(p: PassState, i: nat, price: Decimal)
    requires i >= |p.buys|
    ensures Run(p, i, 0, price) == p
  {
  }

  /** The whole pass. */
  function MatchAll(p: PassState, price: Decimal): (r: PassState)
    ensures Progressed(p, r)
  {
    RunProgresses(p, 0, 0, price);
    Run(p, 0, 0, price)
  }

  /**
   * How an order may evolve within a pass: it stays the same order, and unless it
   * is untouched it was open, and its amount only went down and stayed non-negative.
   */
  predicate Later(o: OrderData, o': OrderData) {
    SameOrder(o, o') && (o' == o || (o.status == OPEN && 0.0 <= Value(o'.amount) <= Value(o.amount)))
  }

  predicate Progressed(p: PassState, q: PassState) {
    && |q.buys| == |p.buys| && |q.sells| == |p.sells|
    && (forall k :: 0 <= k < |p.buys| ==> Later(p.buys[k], q.buys[k]))
    && (forall k :: 0 <= k < |p.sells| ==> Later(p.sells[k], q.sells[k]))
    && |p.events| <= |q.events| && q.events[..|p.events|] == p.events
  }

  lemma LaterTransitive(o: OrderData, o': OrderData, o'': OrderData)
    requires Later(o, o') && Later(o', o'')
    ensures Later(o, o'')
  {
  }

  lemma ProgressedTransitive(p: PassState, q: PassState, r: PassState)
    requires Progressed(p, q) && Progressed(q, r)
    ensures Progressed(p, r)
  {
    forall k | 0 <= k < |p.buys|
      ensures Later(p.buys[k], r.buys[k])
    {
      LaterTransitive(p.buys[k], q.buys[k], r.buys[k]);
    }
    forall k | 0 <= k < |p.sells|
      ensures Later(p.sells[k], r.sells[k])
    {
      LaterTransitive(p.sells[k], q.sells[k], r.sells[k]);
    }
    assert r.events[..|p.events|] == r.events[..|q.events|][..|p.events|];
  }

  /** One attempt moves each of its two orders forward and only appends events. */
  lemma MatchPairProgresses(b: OrderData, s: OrderData, orders: map<OrderId, OrderTable>,
                            wallets: map<WalletId, WalletData>, events: seq<Event>, price: Decimal)
    requires Matchable(b, s)
    ensures var t := MatchPair(b, s, orders, wallets, events, price);
      && Later(b, t.buy) && Later(s, t.sell)
      && |events| <= |t.events| && t.events[..|events|] == events
  {
    var t := MatchPair(b, s, orders, wallets, events, price);
    if Trades(b, s, wallets, price) {
      TradeFillsSmallerSide(b, s, orders, wallets, events, price);
      TradeEvents(b, s, orders, wallets, events, price);
    }
  }

  lemma StepProgresses(p: PassState, i: nat, j: nat, price: Decimal)
    requires i < |p.buys| && j < |p.sells|
    ensures Progressed(p, Step(p, i, j, price))
  {
    if Matchable(p.buys[i], p.sells[j]) {
      MatchPairProgresses(p.buys[i], p.sells[j], p.orders, p.wallets, p.events, price);
    }
  }

  /**
   * Over a whole pass, every order stays the same order; an order that was not
   * open is left exactly as it was; amounts only decrease and never go below
   * zero; and the events of the pass are appended after the earlier ones.
   */
  lemma {:induction false} RunProgresses(p: PassState, i: nat, j: nat, price: Decimal)
    requires j <= |p.sells|
    ensures Progressed(p, Run(p, i, j, price))
    decreases |p.buys| - i, |p.sells| - j
  {
    if i >= |p.buys| {
    } else if j == |p.sells| {
      RunProgresses(p, i + 1, 0, price);
    } else {
      var q := Step(p, i, j, price);
      StepProgresses(p, i, j, price);
      RunProgresses(q, i, j + 1, price);
      ProgressedTransitive(p, q, Run(q, i, j + 1, price));
    }
  }

  /** The orders a list of objects holds, in list order. */
  ghost function Snapshot(os: seq<Order>): (r: seq<OrderData>)
    reads set o | o in os
    ensures |r| == |os|
  {
    seq(|os|, k requires 0 <= k < |os| reads set o | o in os => os[k].Data())
  }

  /** No order object is listed twice, within a list or across the two lists. */
  predicate Distinct(buys: seq<Order>, sells: seq<Order>) {
    && (forall k, l :: 0 <= k < l < |buys| ==> buys[k] != buys[l])
    && (forall k, l :: 0 <= k < l < |sells| ==> sells[k] != sells[l])
    && (forall k, l :: 0 <= k < |buys| && 0 <= l < |sells| ==> buys[k] != sells[l])
  }

  class OrderMatchingService {
    const orders: OrderStore
    const wallets: WalletStore
    const publisher: EventPublisher

    constructor (orders: OrderStore, wallets: WalletStore, publisher: EventPublisher)
      ensures this.orders == orders && this.wallets == wallets && this.publisher == publisher
    {
      this.orders, this.wallets, this.publisher := orders, wallets, publisher;
    }

    /** The pass's state as the service sees it. */
    ghost function State(buys: seq<Order>, sells: seq<Order>): PassState
      reads this, orders, wallets, publisher, (set o | o in buys), (set o | o in sells)
    {
      PassState(Snapshot(buys), Snapshot(sells), orders.rows, wallets.rows, publisher.published)
    }

    /** `saveTrade`: settle the order's status, save order and wallet, publish the fill event. */
    method SaveTrade(order: Order, wallet: Wallet, base: Decimal)
      modifies order, orders, wallets, publisher
      ensures order.Data() == Settle(old(order.Data()))
      ensures orders.rows == SaveOrderRow(old(orders.rows), order.Data())
      ensures wallets.rows == SaveWalletRow(old(wallets.rows), wallet.Data())
      ensures publisher.published == old(publisher.published) + [FillEvent(order.Data(), base)]
    {
      if IsZero(order.amount) {
        order.status := FILLED;
      }
      var o := order.Data();
      var savedOrder := orders.Save(o, None);
      RoundTripStable(o, ToOrderTable(o));
      var savedWallet := wallets.Save(wallet.Data(), None);
      if order.status == FILLED {
        publisher.Publish(TransactionCreated(OrderFilledCreated(order.Data(), base)));
      } else {
        publisher.Publish(TransactionCreated(OrderPartialFilledCreated(order.Data(), base)));
      }
    }

    /** A cancelled side: the order is marked CANCELED and saved. */
    method Cancel(order: Order)
      modifies order, orders
      ensures order.Data() == old(order.Data()).(status := CANCELED)
      ensures orders.rows == SaveOrderRow(old(orders.rows), order.Data())
    {
      order.status := CANCELED;
      var o := order.Data();
      var saved := orders.Save(o, None);
      RoundTripStable(o, ToOrderTable(o));
    }

    /** The trade branch of `matchOrder`: both amounts reduced, both wallets updated, both sides saved. */
    method Execute(buy: Order, sell: Order, buyWallet: Wallet, sellWallet: Wallet, base: Decimal, quote: Decimal)
      requires buy != sell && buyWallet != sellWallet
      modifies buy, sell, buyWallet, sellWallet, orders, wallets, publisher
      ensures buy.Data() == Settle(old(buy.Data()).(amount := Sub(old(buy.amount), base)))
      ensures sell.Data() == Settle(old(sell.Data()).(amount := Sub(old(sell.amount), base)))
      ensures orders.rows == SaveOrderRow(SaveOrderRow(old(orders.rows), buy.Data()), sell.Data())
      ensures wallets.rows == SaveWalletRow(SaveWalletRow(old(wallets.rows),
                                BuyerAfter(old(buyWallet.Data()), old(buy.Data()), base, quote)),
                                SellerAfter(old(sellWallet.Data()), old(sell.Data()), base, quote))
      ensures publisher.published == old(publisher.published) + [FillEvent(buy.Data(), base)] + [FillEvent(sell.Data(), base)]
    {
      buy.amount := Sub(buy.amount, base);
      sell.amount := Sub(sell.amount, base);
      buyWallet.AddBalance(buy.baseCurrency, base);
      buyWallet.SubtractBalance(buy.quoteCurrency, quote);
      sellWallet.SubtractBalance(sell.baseCurrency, base);
      sellWallet.AddBalance(sell.quoteCurrency, quote);
      SaveTrade(buy, buyWallet, base);
      SaveTrade(sell, sellWallet, base);
    }

    /** `matchOrder` */
    method MatchOrder(buy: Order, sell: Order, price: Decimal)
      requires buy != sell
      modifies buy, sell, orders, wallets, publisher
      ensures Trade(buy.Data(), sell.Data(), orders.rows, wallets.rows, publisher.published)
           == MatchPair(old(buy.Data()), old(sell.Data()), old(orders.rows), old(wallets.rows),
                        old(publisher.published), price)
    {
      ghost var b, s, rows := buy.Data(), sell.Data(), wallets.rows;
      var buyWallet := wallets.FindById(buy.walletId);
      var sellWallet := wallets.FindById(sell.walletId);
      var base := Min(buy.amount, sell.amount);
      var quote := Mul(base, price);
      if buyWallet == null || !Affordable(buy.Data(), buyWallet.Data(), base, quote) {
        Cancel(buy);
        return;
      }
      if sellWallet == null || !Affordable(sell.Data(), sellWallet.Data(), base, quote) {
        Cancel(sell);
        return;
      }
      assert Trades(b, s, rows, price);
      Execute(buy, sell, buyWallet, sellWallet, base, quote);
    }

    /** One iteration of the inner loop: pair (i, j) is attempted if both orders are still matchable. */
    method Attempt(buys: seq<Order>, sells: seq<Order>, i: nat, j: nat, price: Decimal)
      requires Distinct(buys, sells) && i < |buys| && j < |sells|
      modifies buys[i], sells[j], orders, wallets, publisher
      ensures State(buys, sells) == Step(old(State(buys, sells)), i, j, price)
      ensures Run(State(buys, sells), i, j + 1, price) == Run(old(State(buys, sells)), i, j, price)
    {
      ghost var before := State(buys, sells);
      RunUnfoldsStep(before, i, j, price);
      var buy, sell := buys[i], sells[j];
      if buy.status == OPEN && Value(buy.amount) > 0.0 && sell.status == OPEN && Value(sell.amount) > 0.0 {
        MatchOrder(buy, sell, price);
        forall k | 0 <= k < |buys|
          ensures Snapshot(buys)[k] == before.buys[i := buy.Data()][k]
        {
          assert k != i ==> buys[k] != buy && buys[k] != sell;
        }
        forall k | 0 <= k < |sells|
          ensures Snapshot(sells)[k] == before.sells[j := sell.Data()][k]
        {
          assert k != j ==> sells[k] != buy && sells[k] != sell;
        }
      }
    }

    /** One iteration of the outer loop: buy order i is tried against every sell order in turn. */
    method MatchRow(buys: seq<Order>, sells: seq<Order>, i: nat, price: Decimal)
      requires Distinct(buys, sells) && i < |buys|
      modifies buys[i], (set o | o in sells), orders, wallets, publisher
      ensures Run(State(buys, sells), i + 1, 0, price) == Run(old(State(buys, sells)), i, 0, price)
    {
      ghost var start := State(buys, sells);
      var j := 0;
      while j < |sells|
        invariant 0 <= j <= |sells|
        invariant Run(State(buys, sells), i, j, price) == Run(start, i, 0, price)
      {
        Attempt(buys, sells, i, j, price);
        j := j + 1;
      }
      RunUnfoldsRow(State(buys, sells), i, price);
    }

    /** `matchOrders`: every buy order against every sell order, in list order. */
    method MatchOrders(buys: seq<Order>, sells: seq<Order>, price: Decimal)
      requires Distinct(buys, sells)
      modifies (set o | o in buys), (set o | o in sells), orders, wallets, publisher
      ensures State(buys, sells) == MatchAll(old(State(buys, sells)), price)
    {
      ghost var start := State(buys, sells);
      var i := 0;
      while i < |buys|
        invariant 0 <= i <= |buys|
        invariant Run(State(buys, sells), i, 0, price) == MatchAll(start, price)
      {
        MatchRow(buys, sells, i, price);
        i := i + 1;
      }
      RunEnds(State(buys, sells), i, price);
    }
  }
}
