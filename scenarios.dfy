/** Sequences of service calls and what they guarantee together: a cancelled trade gives the
    stake back, a trade cannot be cancelled twice, an event cannot be settled twice (nor after
    the event service has settled it), and re-reading the same feed adds nothing. */
module Scenarios {
  import opened Common
  import opened Models
  import opened Repositories
  import opened Settlement
  import opened Trading
  import opened EventLifecycle

  /** Creating a trade and cancelling it leaves every balance as it was. */
  method CreateThenCancel(service: TradeService, input: TradeInput) returns (created: Result<Trade>, cancelled: Result<Trade>)
    requires service.Valid()
    modifies service.trades, service.users
    ensures service.Valid()
    ensures created.Ok? ==>
      && cancelled == Ok(created.value.(status := Cancelled))
      && service.users.users == old(service.users.users)
  {
    created := service.CreateTrade(input);
    if created.Err? {
      cancelled := created;
      return;
    }
    ghost var U0 := old(service.users.users);
    var t := created.value;
    assert service.trades.trades[|service.trades.trades| - 1] == t;
    cancelled := service.CancelTrade(t.id);
    CreditCancels(U0, input.userId, input.amount);
  }

  /** A cancelled trade is no longer executed, so cancelling it again is refused. */
  method CancelTwice(service: TradeService, id: Id) returns (first: Result<Trade>, second: Result<Trade>)
    requires service.Valid()
    modifies service.trades, service.users
    ensures first.Ok? ==> second == Err("Only executed trades can be cancelled")
  {
    first := service.CancelTrade(id);
    if first.Err? {
      second := first;
      return;
    }
    ghost var j :| 0 <= j < |old(service.trades.trades)| && old(service.trades.trades)[j].id == id;
    assert service.trades.trades[j].id == id;
    second := service.CancelTrade(id);
  }

  /** After a successful settlement the event is `settled`, so settling it again, with any
      winning option, is refused and pays nobody. */
  method SettleTwice(service: TradeService, eventId: Id, winner: Id, secondWinner: Id)
    returns (first: Result<seq<Trade>>, second: Result<seq<Trade>>)
    requires service.Valid()
    modifies service.trades, service.users, service.events
    ensures first.Ok? ==> second == Err("Event is not available for settlement")
  {
    first := service.SettleTrades(eventId, winner);
    if first.Err? {
      second := first;
      return;
    }
    SettledEventRefusesSettlement(service.events.events, eventId, secondWinner);
    second := service.SettleTrades(eventId, secondWinner);
  }

  /** Once the event service has settled an event, the trading engine refuses to settle its
      trades: the stakes of that event stay unpaid. */
  method SettleEventThenTrades(events: EventService, service: TradeService, eventId: Id, winner: Id)
    returns (settledEvent: Option<Event>, settledTrades: Result<seq<Trade>>)
    requires service.Valid() && events.events == service.events
    modifies service.trades, service.users, service.events
    ensures settledEvent.Some? ==> settledTrades == Err("Event is not available for settlement")
    ensures settledEvent.Some? ==> service.users.users == old(service.users.users)
  {
    settledEvent := events.SettleEvent(eventId, winner);
    if settledEvent.None? {
      settledTrades := Err("Event not found");
      return;
    }
    SettleEventBlocksSettleTrades(old(service.events.events), eventId, winner, winner);
    settledTrades := service.SettleTrades(eventId, winner);
  }

  /** Reading the same feed a second time changes nothing. */
  method FetchTwice(events: EventService, feed: seq<ExternalEvent>) returns (ghost afterFirst: map<Id, Event>)
    modifies events.events
    ensures events.events.events == afterFirst
    ensures forall x :: x in feed ==> Listed(afterFirst, x.category, x.title)
  {
    events.FetchExternalEvents(feed);
    afterFirst := events.events.events;
    events.FetchExternalEvents(feed);
  }
}
