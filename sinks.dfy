/**
 * Where published things go: the domain event channel (`HubEventPublisher`), drained by the
 * event handler after the unit of work, and the broker outbox (`HubMessagePublisher`).
 */
module Sinks {
  import opened HubEvents

  /** The events raised by the hub lifecycle service, in publication order. */
  class EventChannel {
    var events: seq<HubEvent>

    constructor ()
      ensures events == []
    {
      events := [];
    }

    method Publish(e: HubEvent)
      modifies this
      ensures events == old(events) + [e]
    {
      events := events + [e];
    }
  }

  /** A message handed to the broker: a forwarded hub event or a route signal. */
  datatype Message = HubMessage(event: HubEvent) | RouteMessage(signal: HubRouteUpdated)

  /** The messages handed to the broker, in order. */
  class MessageOutbox {
    var sent: seq<Message>

    constructor ()
      ensures sent == []
    {
      sent := [];
    }

    method Publish(m: Message)
      modifies this
      ensures sent == old(sent) + [m]
    {
      sent := sent + [m];
    }
  }
}
