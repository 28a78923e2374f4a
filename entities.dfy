/**
 * The two mutable entities of the exchange: a wallet, whose balance map is
 * written in place (domain/entity/Wallet.kt), and an order, whose amount and
 * status are (domain/entity/Order.kt). Each has a value form, the row a store
 * keeps, and a class form, the object the services mutate.
 */
module Entities {
  import opened Wrappers
  import opened Types
  import opened Numbers

  /** The balance of a currency in a balance map: the entry, or zero when there is none. */
  function BalanceOf(balance: map<Currency, Decimal>, c: Currency): (r: Decimal)
    ensures c !in balance ==> r == ZERO && Value(r) == 0.0
    ensures c in balance ==> r == balance[c]
  {
    if c in balance then balance[c] else ZERO
  }

  /** A wallet as a value. */
  datatype WalletData = WalletData(
    id: Option<WalletId>,
    userId: UserId,
    name: string,
    balance: map<Currency, Decimal>,
    createdAt: Option<Instant>,
    updatedAt: Option<Instant>,
    version: int
  )

  /** Everything of a wallet except its balance. */
  predicate SameWallet(w: WalletData, v: WalletData) {
    w.id == v.id && w.userId == v.userId && w.name == v.name
    && w.createdAt == v.createdAt && w.updatedAt == v.updatedAt && w.version == v.version
  }

  /**
   * `addBalance`: the currency's balance (zero when absent) plus the amount is
   * written back; the entry is created when it was absent.
   */
  function Credit(w: WalletData, c: Currency, a: Decimal): (r: WalletData)
    ensures SameWallet(r, w)
    ensures r.balance.Keys == w.balance.Keys + {c}
    ensures forall d :: d in w.balance && d != c ==> r.balance[d] == w.balance[d]
    ensures Value(BalanceOf(r.balance, c)) == Value(BalanceOf(w.balance, c)) + Value(a)
  {
    w.(balance := w.balance[c := Add(BalanceOf(w.balance, c), a)])
  }

  /** `subtractBalance`: as `addBalance` with the amount taken away; nothing keeps it non-negative. */
  function Debit(w: WalletData, c: Currency, a: Decimal): (r: WalletData)
    ensures SameWallet(r, w)
    ensures r.balance.Keys == w.balance.Keys + {c}
    ensures forall d :: d in w.balance && d != c ==> r.balance[d] == w.balance[d]
    ensures Value(BalanceOf(r.balance, c)) == Value(BalanceOf(w.balance, c)) - Value(a)
  {
    w.(balance := w.balance[c := Sub(BalanceOf(w.balance, c), a)])
  }

  /** Other currencies read the same after a credit or a debit of c. */
  lemma CreditDebitLocal(w: WalletData, c: Currency, d: Currency, a: Decimal)
    requires d != c
    ensures BalanceOf(Credit(w, c, a).balance, d) == BalanceOf(w.balance, d)
    ensures BalanceOf(Debit(w, c, a).balance, d) == BalanceOf(w.balance, d)
  {
  }

  /** Adding an amount and then subtracting it restores the balance's value. */
  lemma CreditThenDebitRestores(w: WalletData, c: Currency, a: Decimal)
    ensures Value(BalanceOf(Debit(Credit(w, c, a), c, a).balance, c)) == Value(BalanceOf(w.balance, c))
    ensures forall d :: d != c ==> BalanceOf(Debit(Credit(w, c, a), c, a).balance, d) == BalanceOf(w.balance, d)
  {
    forall d | d != c
      ensures BalanceOf(Debit(Credit(w, c, a), c, a).balance, d) == BalanceOf(w.balance, d)
    {
      CreditDebitLocal(w, c, d, a);
      CreditDebitLocal(Credit(w, c, a), c, d, a);
    }
  }

  /** The value any currency reads after a credit of c. */
  lemma CreditValue(w: WalletData, c: Currency, a: Decimal, d: Currency)
    ensures Value(BalanceOf(Credit(w, c, a).balance, d))
         == Value(BalanceOf(w.balance, d)) + (if d == c then Value(a) else 0.0)
  {
    if d != c {
      CreditDebitLocal(w, c, d, a);
    }
  }

  /** The value any currency reads after a debit of c. */
  lemma DebitValue(w: WalletData, c: Currency, a: Decimal, d: Currency)
    ensures Value(BalanceOf(Debit(w, c, a).balance, d))
         == Value(BalanceOf(w.balance, d)) - (if d == c then Value(a) else 0.0)
  {
    if d != c {
      CreditDebitLocal(w, c, d, a);
    }
  }

  /** A wallet object: its balance map is rewritten in place. */
  class Wallet {
    const id: Option<WalletId>
    const userId: UserId
    const name: string
    var balance: map<Currency, Decimal>
    const createdAt: Option<Instant>
    var updatedAt: Option<Instant>
    var version: int

    /** A wallet object holding the given row. */
    constructor (d: WalletData)
      ensures Data() == d
    {
      id, userId, name, balance := d.id, d.userId, d.name, d.balance;
      createdAt, updatedAt, version := d.createdAt, d.updatedAt, d.version;
    }

    function Data(): WalletData
      reads this
    {
      WalletData(id, userId, name, balance, createdAt, updatedAt, version)
    }

    /** `getBalance`: zero for a currency without an entry. */
    function GetBalance(c: Currency): (r: Decimal)
      reads this
      ensures c !in balance ==> r == ZERO
      ensures c in balance ==> r == balance[c]
    {
      BalanceOf(balance, c)
    }

    /** `addBalance` */
    method AddBalance(c: Currency, a: Decimal)
      modifies this
      ensures Data() == Credit(old(Data()), c, a)
    {
      balance := balance[c := Add(GetBalance(c), a)];
    }

    /** `subtractBalance` */
    method SubtractBalance(c: Currency, a: Decimal)
      modifies this
      ensures Data() == Debit(old(Data()), c, a)
    {
      balance := balance[c := Sub(GetBalance(c), a)];
    }
  }

  datatype OrderType = BUY | SELL {
    /** The enum constant's name. */
    function Name(): string {
      match this
      case BUY => "BUY"
      case SELL => "SELL"
    }
  }

  datatype OrderStatus = OPEN | FILLED | CANCELED

  /** An order as a value. */
  datatype OrderData = OrderData(
    id: Option<OrderId>,
    userId: UserId,
    walletId: WalletId,
    orderType: OrderType,
    amount: Decimal,
    baseCurrency: Currency,
    quoteCurrency: Currency,
    status: OrderStatus,
    createdAt: Option<Instant>,
    updatedAt: Option<Instant>,
    version: int
  )

  /** Two rows describe the same order: they differ at most in the fields an order may change. */
  predicate SameOrder(o: OrderData, p: OrderData) {
    o.id == p.id && o.userId == p.userId && o.walletId == p.walletId && o.orderType == p.orderType
    && o.baseCurrency == p.baseCurrency && o.quoteCurrency == p.quoteCurrency && o.createdAt == p.createdAt
  }

  /**
   * An order object. Only `amount`, `status`, `updatedAt` and `version` can be
   * assigned; every other field is fixed when the object is built.
   */
  class Order {
    const id: Option<OrderId>
    const userId: UserId
    const walletId: WalletId
    const orderType: OrderType
    var amount: Decimal
    const baseCurrency: Currency
    const quoteCurrency: Currency
    var status: OrderStatus
    const createdAt: Option<Instant>
    var updatedAt: Option<Instant>
    var version: int

    /** An order object holding the given row. */
    constructor (d: OrderData)
      ensures Data() == d
    {
      id, userId, walletId, orderType, amount := d.id, d.userId, d.walletId, d.orderType, d.amount;
      baseCurrency, quoteCurrency, status := d.baseCurrency, d.quoteCurrency, d.status;
      createdAt, updatedAt, version := d.createdAt, d.updatedAt, d.version;
    }

    function Data(): OrderData
      reads this
    {
      OrderData(id, userId, walletId, orderType, amount, baseCurrency, quoteCurrency, status,
                createdAt, updatedAt, version)
    }
  }
}
