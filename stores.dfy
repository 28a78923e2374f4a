/**
 * In-memory stand-ins for the four repositories (the interfaces under domain/repository and
 * their SQL implementations). A lookup hands out a fresh copy of the row; a
 * save overwrites the row with the same id, or inserts a new entity under the
 * id the database assigns (`newId`; `None` when it hands back no id).
 */
module Stores {
  import opened Wrappers
  import opened Types
  import opened Errors
  import opened Numbers
  import opened Entities
  import opened OrderMapper
  import opened UseCases

  /** A wallet as the database returns it from `save`. */
  function PersistedWallet(w: WalletData, newId: Option<WalletId>): (p: WalletData)
    ensures w.id.Some? ==> p == w
    ensures w.id.None? ==> p == w.(id := newId)
  {
    if w.id.Some? then w else w.(id := newId)
  }

  /** Each wallet row is filed under its own id. */
  predicate WellKeyed(wallets: map<WalletId, WalletData>) {
    forall k :: k in wallets ==> wallets[k].id == Some(k)
  }

  /** What `walletRepository.save` does to the rows, for a wallet that already has an id. */
  function SaveWalletRow(rows: map<WalletId, WalletData>, w: WalletData): map<WalletId, WalletData> {
    if w.id.Some? then rows[w.id.value := w] else rows
  }

  /** The user already has a wallet of that name. */
  predicate NameTaken(wallets: map<WalletId, WalletData>, userId: UserId, name: string) {
    exists id :: id in wallets && wallets[id].userId == userId && wallets[id].name == name
  }

  class WalletStore {
    var rows: map<WalletId, WalletData>

    constructor ()
      ensures rows == map[]
    {
      rows := map[];
    }

    /** `findById`: a fresh wallet object holding a copy of the row, or null. */
    method FindById(id: WalletId) returns (w: Wallet?)
      ensures (w != null) == (id in rows)
      ensures w != null ==> fresh(w) && w.Data() == rows[id]
    {
      if id in rows {
        w := new Wallet(rows[id]);
      } else {
        w := null;
      }
    }

    /** `existByUserIdAndName`: some wallet the user lists already has that name. */
    predicate ExistsByUserIdAndName(userId: UserId, name: string)
      reads this
      ensures ExistsByUserIdAndName(userId, name) <==> exists w :: w in FindAllByUserId(userId) && w.name == name
    {
      NameTaken(rows, userId, name)
    }

    /** `findAllByUserId`, as the set of rows it yields. */
    function FindAllByUserId(userId: UserId): (ws: set<WalletData>)
      reads this
      ensures forall w :: w in ws <==> exists id :: id in rows && rows[id] == w && w.userId == userId
    {
      set id | id in rows && rows[id].userId == userId :: rows[id]
    }

    /** `save`: the row is written under the wallet's id; the wallet as stored is returned. */
    method Save(w: WalletData, newId: Option<WalletId>) returns (saved: WalletData)
      requires w.id.None? && newId.Some? ==> newId.value !in rows
      modifies this
      ensures saved == PersistedWallet(w, newId)
      ensures saved.id.Some? ==> rows == old(rows)[saved.id.value := saved]
      ensures saved.id.None? ==> rows == old(rows)
    {
      saved := PersistedWallet(w, newId);
      if saved.id.Some? {
        rows := rows[saved.id.value := saved];
      }
    }
  }

  /** An order as the database returns it from `save`: persisted, then read back through the mapper. */
  function PersistedOrder(o: OrderData, newId: Option<OrderId>): (p: OrderData)
    ensures p == (if o.id.Some? then o else o.(id := newId)).(amount := Trim(o.amount))
  {
    var withId := if o.id.Some? then o else o.(id := newId);
    OrderRoundTrip(withId);
    ToOrder(ToOrderTable(withId))
  }

  /** Each order row is filed under its own id and holds its amount trimmed, as `save` writes it. */
  predicate StoredOrders(rows: map<OrderId, OrderTable>) {
    forall k :: k in rows ==> rows[k].id == Some(k) && Stripped(rows[k].amount)
  }

  /** What `orderRepository.save` does to the rows, for an order that already has an id. */
  function SaveOrderRow(rows: map<OrderId, OrderTable>, o: OrderData): map<OrderId, OrderTable> {
    if o.id.Some? then rows[o.id.value := ToOrderTable(o)] else rows
  }

  class OrderStore {
    var rows: map<OrderId, OrderTable>

    constructor ()
      ensures rows == map[]
    {
      rows := map[];
    }

    /** `findById`: a fresh order object read from the row, or null. */
    method FindById(id: OrderId) returns (o: Order?)
      ensures (o != null) == (id in rows)
      ensures o != null ==> fresh(o) && o.Data() == ToOrder(rows[id])
    {
      if id in rows {
        o := new Order(ToOrder(rows[id]));
      } else {
        o := null;
      }
    }

    /** `findAllByUserId`, as the set of orders it yields. */
    function FindAllByUserId(userId: UserId): (os: set<OrderData>)
      reads this
      ensures forall o :: o in os <==> exists id :: id in rows && ToOrder(rows[id]) == o && o.userId == userId
    {
      set id | id in rows && rows[id].userId == userId :: ToOrder(rows[id])
    }

    /** `save`: the order is written as its row (amount trimmed) and read back. */
    method Save(o: OrderData, newId: Option<OrderId>) returns (saved: OrderData)
      requires o.id.None? && newId.Some? ==> newId.value !in rows
      modifies this
      ensures saved == PersistedOrder(o, newId)
      ensures saved.id.Some? ==> rows == old(rows)[saved.id.value := ToOrderTable(saved)]
      ensures saved.id.None? ==> rows == old(rows)
    {
      var row := ToOrderTable(if o.id.Some? then o else o.(id := newId));
      saved := ToOrder(row);
      RoundTripStable(if o.id.Some? then o else o.(id := newId), row);
      if row.id.Some? {
        rows := rows[row.id.value := row];
      }
    }
  }

  /** Some user already has that username or that email address. */
  predicate UsernameOrEmailTaken(users: map<UserId, User>, username: Username, email: EmailAddress) {
    exists id :: id in users && (users[id].username == username || users[id].email == email)
  }

  class UserStore {
    var rows: map<UserId, User>

    constructor ()
      ensures rows == map[]
    {
      rows := map[];
    }

    /** `existsByUsernameOrEmail`: some stored user has that username or that email. */
    predicate ExistsByUsernameOrEmail(username: Username, email: EmailAddress)
      reads this
      ensures ExistsByUsernameOrEmail(username, email) <==>
        exists u :: u in rows.Values && (u.username == username || u.email == email)
    {
      UsernameOrEmailTaken(rows, username, email)
    }

    /** `findById` */
    function FindById(id: UserId): (u: Option<User>)
      reads this
      ensures u.Some? <==> id in rows
      ensures u.Some? ==> u.value == rows[id]
    {
      if id in rows then Some(rows[id]) else None
    }

    /** `save` */
    method Save(u: User, newId: Option<UserId>) returns (saved: User)
      requires u.id.None? && newId.Some? ==> newId.value !in rows
      modifies this
      ensures saved == if u.id.Some? then u else u.(id := newId)
      ensures saved.id.Some? ==> rows == old(rows)[saved.id.value := saved]
      ensures saved.id.None? ==> rows == old(rows)
    {
      saved := if u.id.Some? then u else u.(id := newId);
      if saved.id.Some? {
        rows := rows[saved.id.value := saved];
      }
    }
  }

  /** One page of a user's transactions, and how many there are in all. */
  datatype Page = Page(content: seq<Transaction>, page: nat, size: nat, total: nat)

  /** The user's records in the order they were appended to the log. */
  function Mine(log: seq<Transaction>, userId: UserId): (r: seq<Transaction>)
    ensures forall t :: t in r <==> t in log && t.userId == userId
  {
    if log == [] then []
    else
      var last := log[|log| - 1];
      assert log == log[..|log| - 1] + [last];
      Mine(log[..|log| - 1], userId) + (if last.userId == userId then [last] else [])
  }

  /** A sequence back to front. */
  function Reversed(s: seq<Transaction>): (r: seq<Transaction>)
    ensures |r| == |s|
    ensures forall k :: 0 <= k < |r| ==> r[k] == s[|s| - 1 - k]
  {
    if s == [] then [] else [s[|s| - 1]] + Reversed(s[..|s| - 1])
  }

  /**
   * The user's records, newest first (records are appended as they are created):
   * every one of them, in reverse log order.
   */
  function NewestFirst(log: seq<Transaction>, userId: UserId): (r: seq<Transaction>)
    ensures |r| == |Mine(log, userId)|
    ensures forall k :: 0 <= k < |r| ==> r[k] == Mine(log, userId)[|r| - 1 - k]
  {
    Reversed(Mine(log, userId))
  }

  /** The newest-first list holds every record of the user and nothing else. */
  lemma NewestFirstMembers(log: seq<Transaction>, userId: UserId)
    ensures forall t :: t in NewestFirst(log, userId) <==> t in log && t.userId == userId
  {
    var r, m := NewestFirst(log, userId), Mine(log, userId);
    forall t | t in r
      ensures t in m
    {
      var k :| 0 <= k < |r| && r[k] == t;
      assert m[|r| - 1 - k] == t;
    }
    forall t | t in m
      ensures t in r
    {
      var j :| 0 <= j < |m| && m[j] == t;
      assert r[|r| - 1 - j] == t;
    }
  }

  /** The offsets of page `page` of `size` rows within `n` rows: offset `page * size`, clipped to `n`. */
  function PageWindow(n: nat, page: nat, size: nat): (r: (nat, nat))
    ensures r.0 <= r.1 <= n && r.1 - r.0 <= size
    ensures page * size <= n ==> r.0 == page * size
    ensures page * size > n ==> r.0 == n
    ensures r.0 + size <= n ==> r.1 == r.0 + size
    ensures r.0 + size > n ==> r.1 == n
  {
    var offset := page * size;
    var from := if offset <= n then offset else n;
    (from, if from + size <= n then from + size else n)
  }

  lemma SliceWithin(all: seq<Transaction>, from: nat, to: nat, log: seq<Transaction>, userId: UserId)
    requires from <= to <= |all|
    requires forall t :: t in all ==> t in log && t.userId == userId
    ensures forall t :: t in all[from..to] ==> t in log && t.userId == userId
  {
    forall t | t in all[from..to]
      ensures t in log && t.userId == userId
    {
      var k :| from <= k < to && all[k] == t;
      assert t in all;
    }
  }

  /**
   * `findAllByUserId(userId, page, size)`: `PageRequest.of` refuses a negative
   * page and a size below one with an `IllegalArgumentException`.
   */
  function UserPage(log: seq<Transaction>, userId: UserId, page: int, size: int): (r: Result<Page, Throwable>)
    ensures r.Failure? <==> page < 0 || size < 1
    ensures r.Failure? ==> r.error.Platform?
    ensures r.Success? ==> r.value.page == page && r.value.size == size
    ensures r.Success? ==> |r.value.content| <= size
    ensures r.Success? ==> r.value.total == |NewestFirst(log, userId)|
    ensures r.Success? ==> forall t :: t in r.value.content ==> t in log && t.userId == userId
    ensures r.Success? ==>
      page >= 0 && size >= 1
      && var w := PageWindow(|NewestFirst(log, userId)|, page, size);
      r.value.content == NewestFirst(log, userId)[w.0..w.1]
  {
    if page < 0 then
      Failure(Platform(Some("Page index must not be less than zero")))
    else if size < 1 then
      Failure(Platform(Some("Page size must not be less than one")))
    else
      var all := NewestFirst(log, userId);
      var w := PageWindow(|all|, page, size);
      NewestFirstMembers(log, userId);
      SliceWithin(all, w.0, w.1, log, userId);
      Success(Page(all[w.0..w.1], page, size, |all|))
  }

  /** Page `page` of `size` holds, at position i, the user's record of rank k = page * size + i from the newest. */
  lemma PageHoldsRecord(log: seq<Transaction>, userId: UserId, page: nat, i: nat, size: int, k: nat)
    requires 1 <= size && i < size && page * size + i == k && k < |NewestFirst(log, userId)|
    ensures var p := UserPage(log, userId, page, size);
      && p.Success? && i < |p.value.content|
      && p.value.content[i] == NewestFirst(log, userId)[k]
  {
    var all := NewestFirst(log, userId);
    var w := PageWindow(|all|, page, size);
    WindowAt(|all|, page, i, size);
    var p := UserPage(log, userId, page, size);
    assert p.Success? && p.value.content == all[w.0..w.1];
  }

  /** Offset i of page `page` lies inside that page's window whenever the rank exists. */
  lemma WindowAt(n: nat, page: nat, i: nat, size: nat)
    requires i < size && page * size + i < n
    ensures var w := PageWindow(n, page, size);
      w.0 == page * size && w.0 + i < w.1
  {
  }

  /**
   * Paging loses no record: the k-th newest record of a user is on page k / size,
   * at position k % size.
   */
  lemma RecordOnItsPage(log: seq<Transaction>, userId: UserId, k: nat, size: int)
    requires k < |NewestFirst(log, userId)| && size >= 1
    ensures var p := UserPage(log, userId, k / size, size);
      && p.Success? && k % size < |p.value.content|
      && p.value.content[k % size] == NewestFirst(log, userId)[k]
  {
    var page, i := DivMod(k, size);
    PageHoldsRecord(log, userId, page, i, size, k);
  }

  lemma DivMod(k: nat, size: int) returns (page: nat, i: nat)
    requires size >= 1
    ensures page == k / size && i == k % size
    ensures i < size && page * size + i == k
  {
    page, i := k / size, k % size;
  }

  /** The transaction log: records are only ever appended. */
  class TransactionStore {
    var log: seq<Transaction>

    constructor ()
      ensures log == []
    {
      log := [];
    }

    /** `save`: the record is appended under the id the database assigns. */
    method Save(t: Transaction, newId: TransactionId) returns (saved: Transaction)
      modifies this
      ensures saved == t.(id := Some(newId))
      ensures log == old(log) + [saved]
    {
      saved := t.(id := Some(newId));
      log := log + [saved];
    }

    /** `findAllByUserId`: the requested page of the user's records, newest first. */
    function FindAllByUserId(userId: UserId, page: int, size: int): (r: Result<Page, Throwable>)
      reads this
      ensures r.Failure? <==> page < 0 || size < 1
      ensures r.Success? ==> r.value.page == page && r.value.size == size && r.value.total == |NewestFirst(log, userId)|
      ensures r.Success? ==>
        var w := PageWindow(|NewestFirst(log, userId)|, page, size);
        r.value.content == NewestFirst(log, userId)[w.0..w.1]
    {
      UserPage(log, userId, page, size)
    }
  }
}
