/**
 * Identifiers, currencies and the transaction types of the exchange's domain
 * (Currency.kt, types.kt, Transaction.kt, User.kt).
 */
module Types {
  import opened Wrappers

  /** Whether a currency is issued by a state or is a crypto asset. */
  datatype CurrencyType = FIAT | CRYPTO

  /** The five currencies the exchange trades. */
  datatype Currency = USD | EUR | BTC | ETH | DOGE {

    function Type(): (t: CurrencyType)
      ensures t == FIAT <==> (this == USD || this == EUR)
    {
      match this
      case USD => FIAT
      case EUR => FIAT
      case BTC => CRYPTO
      case ETH => CRYPTO
      case DOGE => CRYPTO
    }

    /** The enum constant's name, which is also what `toString` gives. */
    function Name(): string {
      match this
      case USD => "USD"
      case EUR => "EUR"
      case BTC => "BTC"
      case ETH => "ETH"
      case DOGE => "DOGE"
    }
  }

  /** Distinct currencies have distinct names. */
  lemma CurrencyNameInjective(a: Currency, b: Currency)
    requires a.Name() == b.Name()
    ensures a == b
  {
  }

  /** 2^128: one more than the largest identifier. */
  const UUID_BOUND: nat := Pow16(32)

  /** A `java.util.UUID`: a 128-bit value. */
  type Uuid = n: nat | n < UUID_BOUND

  type UserId = Uuid
  type WalletId = Uuid
  type OrderId = Uuid
  type TransactionId = Uuid
  type PaymentId = Uuid

  type Username = string
  type EmailAddress = string
  type EncodedPassword = string

  /** A `java.time.Instant`, as an opaque point on a timeline. */
  type Instant = int

  /** The kinds of record the transaction log holds. */
  datatype TransactionType =
    | DEPOSIT
    | WITHDRAWAL
    | ORDER_PLACED
    | ORDER_PARTIALLY_FILLED
    | ORDER_FILLED
    | ORDER_CANCELED

  /** A record of the transaction log. */
  datatype Transaction = Transaction(
    id: Option<TransactionId>,
    userId: UserId,
    walletId: WalletId,
    txType: TransactionType,
    metadata: map<string, string>,
    createdAt: Option<Instant>
  )

  /** A registered user; the password is already encoded. */
  datatype User = User(
    id: Option<UserId>,
    username: Username,
    password: EncodedPassword,
    firstName: string,
    lastName: string,
    email: EmailAddress
  )

  function HexDigit(d: nat): (c: char)
    requires d < 16
    ensures '0' <= c <= '9' || 'a' <= c <= 'f'
  {
    if d < 10 then (48 + d) as char else (87 + d) as char
  }

  /** The `width` lowest hexadecimal digits of `v`, most significant first. */
  function Hex(v: nat, width: nat): (s: string)
    ensures |s| == width
  {
    if width == 0 then "" else Hex(v / 16, width - 1) + [HexDigit(v % 16)]
  }

  function Pow16(n: nat): (r: nat)
    ensures r >= 1
  {
    if n == 0 then 1 else 16 * Pow16(n - 1)
  }

  /** Values below 16^width are told apart by their `width` hexadecimal digits. */
  lemma {:induction false} HexInjective(a: nat, b: nat, width: nat)
    requires a < Pow16(width) && b < Pow16(width)
    requires Hex(a, width) == Hex(b, width)
    ensures a == b
  {
    if width > 0 {
      var ha, hb := Hex(a / 16, width - 1), Hex(b / 16, width - 1);
      assert Hex(a, width) == ha + [HexDigit(a % 16)];
      assert Hex(b, width) == hb + [HexDigit(b % 16)];
      assert ha == Hex(a, width)[..width - 1] == Hex(b, width)[..width - 1] == hb;
      assert HexDigit(a % 16) == Hex(a, width)[width - 1] == HexDigit(b % 16);
      assert a % 16 == b % 16;
      assert a / 16 < Pow16(width - 1) && b / 16 < Pow16(width - 1);
      HexInjective(a / 16, b / 16, width - 1);
    }
  }

  /** `UUID.toString`: 32 lower-case hex digits grouped 8-4-4-4-12. */
  function UuidString(u: Uuid): (s: string)
    ensures |s| == 36
    ensures s[8] == s[13] == s[18] == s[23] == '-'
  {
    var h := Hex(u, 32);
    h[..8] + "-" + h[8..12] + "-" + h[12..16] + "-" + h[16..20] + "-" + h[20..]
  }

  /** The 32 hex digits of a grouped identifier string. */
  function UngroupUuid(s: string): string
    requires |s| == 36
  {
    s[..8] + s[9..13] + s[14..18] + s[19..23] + s[24..]
  }

  lemma UngroupGroups(h: string)
    requires |h| == 32
    ensures UngroupUuid(h[..8] + "-" + h[8..12] + "-" + h[12..16] + "-" + h[16..20] + "-" + h[20..]) == h
  {
    var s := h[..8] + "-" + h[8..12] + "-" + h[12..16] + "-" + h[16..20] + "-" + h[20..];
    assert s[..8] == h[..8];
    assert s[9..13] == h[8..12];
    assert s[14..18] == h[12..16];
    assert s[19..23] == h[16..20];
    assert s[24..] == h[20..];
    assert h == h[..8] + h[8..12] + h[12..16] + h[16..20] + h[20..];
  }

  /** Two identifiers print alike only when they are the same identifier. */
  lemma UuidStringInjective(a: Uuid, b: Uuid)
    requires UuidString(a) == UuidString(b)
    ensures a == b
  {
    var ha, hb := Hex(a, 32), Hex(b, 32);
    assert UngroupUuid(UuidString(a)) == ha by { UngroupGroups(ha); }
    assert UngroupUuid(UuidString(b)) == hb by { UngroupGroups(hb); }
    HexInjective(a, b, 32);
  }

  /** Kotlin's `toString()` on a nullable identifier: "null" when absent. */
  function NullableUuidString(u: Option<Uuid>): (s: string)
    ensures u.None? ==> s == "null"
    ensures u.Some? ==> |s| == 36
  {
    match u
    case None => "null"
    case Some(v) => UuidString(v)
  }
}
