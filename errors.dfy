/**
 * The exchange's error taxonomy (domain/error/errors.kt): six kinds of domain
 * error, each with a fixed type code and title, and a message that may name the
 * error's cause.
 */
module Errors {
  import opened Wrappers

  /** The six kinds of domain error; only a validation error carries field violations. */
  datatype ErrorKind =
    | Validation(violations: map<string, string>)
    | BadRequest
    | NotFound
    | NonProcessable
    | Unauthorized
    | Internal

  /** Two kinds are the same kind of error, whatever violations they carry. */
  predicate SameKind(a: ErrorKind, b: ErrorKind) {
    && (a.Validation? <==> b.Validation?)
    && (a.BadRequest? <==> b.BadRequest?)
    && (a.NotFound? <==> b.NotFound?)
    && (a.NonProcessable? <==> b.NonProcessable?)
    && (a.Unauthorized? <==> b.Unauthorized?)
    && (a.Internal? <==> b.Internal?)
  }

  /** The machine-readable type code of each kind. */
  function TypeCode(k: ErrorKind): string {
    match k
    case Validation(_) => "validation-error"
    case BadRequest => "bad-request"
    case NotFound => "not-found"
    case NonProcessable => "non-processable"
    case Unauthorized => "unauthorized"
    case Internal => "internal-error"
  }

  /** The human-readable title of each kind. */
  function Title(k: ErrorKind): string {
    match k
    case Validation(_) => "Request contains fields not passing validation"
    case BadRequest => "Bad request"
    case NotFound => "Resource not found"
    case NonProcessable => "Request cannot be processed"
    case Unauthorized => "Unauthorized"
    case Internal => "Internal error occurred"
  }

  /** A type code names exactly one kind of error. */
  lemma TypeCodeIdentifiesKind(a: ErrorKind, b: ErrorKind)
    requires TypeCode(a) == TypeCode(b)
    ensures SameKind(a, b)
  {
    assert TypeCode(a)[..3] == TypeCode(b)[..3];
  }

  /** A title names exactly one kind of error. */
  lemma TitleIdentifiesKind(a: ErrorKind, b: ErrorKind)
    requires Title(a) == Title(b)
    ensures SameKind(a, b)
  {
    assert Title(a)[..3] == Title(b)[..3];
    assert |Title(a)| == |Title(b)|;
  }

  /** The cause a domain error is built with, reduced to its (nullable) message. */
  datatype Cause = Cause(message: Option<string>)

  /**
   * `withCause`: the message, followed by the cause's message in quotes when there
   * is a cause and it has a message.
   */
  function WithCause(message: string, cause: Option<Cause>): (r: string)
    ensures cause.None? || cause.value.message.None? ==> r == message
    ensures |r| >= |message| && r[..|message|] == message
    ensures cause.Some? && cause.value.message.Some? ==> |r| == |message| + 13 + |cause.value.message.value|
  {
    if cause.Some? && cause.value.message.Some? then
      message + " caused by '" + cause.value.message.value + "'"
    else
      message
  }

  /**
   * The message is always kept at the front, followed by ` caused by '`, the
   * cause's message and a closing quote; the result is fully determined.
   */
  lemma WithCauseKeepsBoth(message: string, cause: Option<Cause>)
    ensures var r := WithCause(message, cause);
      && |r| >= |message| && r[..|message|] == message
      && (cause.Some? && cause.value.message.Some? ==>
            |r| == |message| + 13 + |cause.value.message.value|
            && r[|message|..|message| + 12] == " caused by '"
            && r[|message| + 12..|r| - 1] == cause.value.message.value
            && r[|r| - 1] == '\'')
  {
    if cause.Some? && cause.value.message.Some? {
      var m := cause.value.message.value;
      var infix := " caused by '";
      assert |infix| == 12;
      var r := message + infix + m + "'";
      assert r == WithCause(message, cause);
      assert r[..|message|] == message;
      assert r[|message|..|message| + 12] == infix;
      assert r[|message| + 12..|r| - 1] == m;
    }
  }

  /** A domain error: its kind and its final message (the cause already folded in). */
  datatype CryptoExchangeError = CryptoExchangeError(kind: ErrorKind, message: string)

  /** Building an error of a kind from a message and an optional cause, as each subclass does. */
  function MakeError(kind: ErrorKind, message: string, cause: Option<Cause>): (e: CryptoExchangeError)
    ensures e.kind == kind
    ensures cause.None? ==> e.message == message
    ensures cause.Some? && cause.value.message.None? ==> e.message == message
    ensures cause.Some? && cause.value.message.Some? ==>
      e.message == message + " caused by '" + cause.value.message.value + "'"
  {
    WithCauseKeepsBoth(message, cause);
    CryptoExchangeError(kind, WithCause(message, cause))
  }

  /**
   * The cause's message can be read back from the error: two errors built from the
   * same kind and message with messaged causes are equal exactly when the causes' messages are.
   */
  lemma {:induction false} MakeErrorKeepsCause(kind: ErrorKind, message: string, first: string, second: string)
    ensures MakeError(kind, message, Some(Cause(Some(first)))) == MakeError(kind, message, Some(Cause(Some(second))))
      <==> first == second
  {
    var a := MakeError(kind, message, Some(Cause(Some(first)))).message;
    var b := MakeError(kind, message, Some(Cause(Some(second)))).message;
    if a == b {
      assert first == a[|message| + 12..|a| - 1];
      assert second == b[|message| + 12..|b| - 1];
    }
  }

  /** Any throwable a pipeline can fail with: a domain error, or a platform exception with a nullable message. */
  datatype Throwable = Domain(error: CryptoExchangeError) | Platform(message: Option<string>)

  /** Shorthand for the uncaused domain errors the services raise. */
  function Fail(kind: ErrorKind, message: string): Throwable {
    Domain(MakeError(kind, message, None))
  }
}
