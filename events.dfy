/**
 * Application events as a publisher sees them: each published event is
 * appended, in order, and nothing is ever removed.
 */
module Events {
  import opened UseCases

  /** The two event families the core publishes. */
  datatype Event =
    | TransactionCreated(created: TransactionCreatedEvent)
    | MatchOrders(pair: MatchOrdersEvent)

  /** `ApplicationEventPublisher`, reduced to the record of what it was given. */
  class EventPublisher {
    var published: seq<Event>

    constructor ()
      ensures published == []
    {
      published := [];
    }

    /** `publishEvent` */
    method Publish(e: Event)
      modifies this
      ensures published == old(published) + [e]
    {
      published := published + [e];
    }
  }
}
