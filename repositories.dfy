/** The three record stores, with only the semantics the services rely on.
    The user store is a map with an unguarded balance increment; the event store is a map
    with lookup, category filter, creation, partial update and deletion; the trade store is a
    sequence in insertion order, so that its filters return trades in store order. */
module Repositories {
  import opened Common
  import opened Models

  // ----- User store -----

  /** The user map after `updateBalance(id, delta)`: an in-place increment, no check of sign. */
  function Credit(us: map<Id, User>, id: Id, delta: real): map<Id, User>
  {
    if id in us then us[id := us[id].(balance := us[id].balance + delta)] else us
  }

  /** A debit followed by a credit of the same amount leaves every user as it was. */
  lemma CreditCancels(us: map<Id, User>, id: Id, amount: real)
    ensures Credit(Credit(us, id, -amount), id, amount) == us
  {
    if id in us {
      var u := us[id];
      assert u.(balance := u.balance - amount + amount) == u;
    }
  }

  class UserRepository {
    var users: map<Id, User>

    constructor (initial: map<Id, User>)
      ensures users == initial
    {
      users := initial;
    }

    function FindById(id: Id): Option<User>
      reads this
    {
      if id in users then Some(users[id]) else None
    }

    /** Adds `delta` to the balance; a missing id yields `None` and changes nothing. */
    method UpdateBalance(id: Id, delta: real) returns (r: Option<User>)
      modifies this
      ensures users == Credit(old(users), id, delta)
      ensures id in old(users) ==> r == Some(users[id]) && users[id].balance == old(users)[id].balance + delta
      ensures id !in old(users) ==> r == None
    {
      if id in users {
        var updated := users[id].(balance := users[id].balance + delta);
        users := users[id := updated];
        r := Some(updated);
      } else {
        r := None;
      }
    }
  }

  // ----- Event store -----

  /** The record the store keeps for a draft saved under `key`: the draft's fields as given,
      and every option with its name and odds, an id of its own and an unset result. */
  function Stored(key: Id, d: EventDraft): (e: Event)
    ensures e.title == d.title && e.description == d.description && e.category == d.category
    ensures e.startTime == d.startTime && e.endTime == d.endTime && e.status == d.status
    ensures |e.options| == |d.options|
    ensures forall i :: 0 <= i < |d.options| ==>
      e.options[i].name == d.options[i].name && e.options[i].odds == d.options[i].odds && e.options[i].result == None
  {
    Event(d.title, d.description, d.category, d.startTime, d.endTime, d.status,
          seq(|d.options|, i requires 0 <= i < |d.options| =>
            EventOption(key + "-" + NatToString(i), d.options[i].name, d.options[i].odds, None)))
  }

  class EventRepository {
    var events: map<Id, Event>

    constructor (initial: map<Id, Event>)
      ensures events == initial
    {
      events := initial;
    }

    function FindById(id: Id): Option<Event>
      reads this
    {
      if id in events then Some(events[id]) else None
    }

    /** The events of one category, keyed as in the store. */
    function FindByCategory(category: string): (r: map<Id, Event>)
      reads this
      ensures forall k :: k in r <==> k in events && events[k].category == category
      ensures forall k :: k in r ==> r[k] == events[k]
    {
      map k | k in events && events[k].category == category :: events[k]
    }

    method Create(draft: EventDraft) returns (key: Id, e: Event)
      modifies this
      ensures key !in old(events)
      ensures e == Stored(key, draft)
      ensures events == old(events)[key := e]
    {
      key := FreshKey(events.Keys);
      e := Stored(key, draft);
      events := events[key := e];
    }

    /** Merges the present fields of `patch` into the stored event; a missing id yields `None`. */
    method Update(id: Id, patch: EventPatch) returns (r: Option<Event>)
      modifies this
      ensures id in old(events) ==> events == old(events)[id := Merge(old(events)[id], patch)] && r == Some(events[id])
      ensures id !in old(events) ==> events == old(events) && r == None
    {
      if id in events {
        var merged := Merge(events[id], patch);
        events := events[id := merged];
        r := Some(merged);
      } else {
        r := None;
      }
    }

    /** `deleteOne` by id; true iff one record was removed. */
    method Delete(id: Id) returns (deleted: bool)
      modifies this
      ensures deleted <==> id in old(events)
      ensures events == old(events) - {id}
    {
      deleted := id in events;
      events := events - {id};
    }
  }

  // ----- Trade store -----

  /** The store gives every record its own id. */
  predicate UniqueIds(ts: seq<Trade>)
  {
    forall i, j :: 0 <= i < j < |ts| ==> ts[i].id != ts[j].id
  }

  function TradeIds(ts: seq<Trade>): set<Id>
  {
    set t | t in ts :: t.id
  }

  /** `findById`: the first stored trade with that id. */
  function FindIn(ts: seq<Trade>, id: Id): (r: Option<Trade>)
    ensures r.None? <==> id !in TradeIds(ts)
    ensures r.Some? ==> r.value in ts && r.value.id == id
    ensures UniqueIds(ts) ==> forall j :: 0 <= j < |ts| && ts[j].id == id ==> r == Some(ts[j])
  {
    if |ts| == 0 then None
    else if ts[0].id == id then Some(ts[0])
    else FindIn(ts[1..], id)
  }

  /** `findByEventId`: the trades of one event, in store order. */
  function ByEvent(ts: seq<Trade>, eventId: Id): (r: seq<Trade>)
    ensures forall t :: t in r <==> t in ts && t.eventId == eventId
    ensures |r| <= |ts|
    ensures UniqueIds(ts) ==> UniqueIds(r)
  {
    if |ts| == 0 then []
    else (if ts[0].eventId == eventId then [ts[0]] else []) + ByEvent(ts[1..], eventId)
  }

  /** `findByUserId`: the trades of one user, in store order. */
  function ByUser(ts: seq<Trade>, userId: Id): (r: seq<Trade>)
    ensures forall t :: t in r <==> t in ts && t.userId == userId
    ensures |r| <= |ts|
  {
    if |ts| == 0 then []
    else (if ts[0].userId == userId then [ts[0]] else []) + ByUser(ts[1..], userId)
  }

  /** The stored trade after `updateStatus(id, status, outcome, settlementAmount)`: the status is
      always written, the outcome only when one is given, the settlement amount whenever it is
      defined (zero included). */
  function ApplyStatusUpdate(t: Trade, status: TradeStatus, outcome: Option<Outcome>,
                             settlementAmount: Option<real>): (r: Trade)
    ensures r.id == t.id && r.userId == t.userId && r.eventId == t.eventId
    ensures r.optionId == t.optionId && r.amount == t.amount
    ensures r.status == status
    ensures outcome.Some? ==> r.outcome == outcome
    ensures outcome.None? ==> r.outcome == t.outcome
    ensures settlementAmount.Some? ==> r.settlementAmount == settlementAmount
    ensures settlementAmount.None? ==> r.settlementAmount == t.settlementAmount
  {
    var withOutcome := if outcome.Some? then t.(status := status, outcome := outcome) else t.(status := status);
    if settlementAmount.Some? then withOutcome.(settlementAmount := settlementAmount) else withOutcome
  }

  /** The store after `deleteOne` by id. */
  function WithoutId(ts: seq<Trade>, id: Id): (r: seq<Trade>)
    ensures forall t :: t in r <==> t in ts && t.id != id
  {
    if |ts| == 0 then []
    else (if ts[0].id == id then [] else [ts[0]]) + WithoutId(ts[1..], id)
  }

  /** The tail of a store with unique ids has unique ids, none of them the head's. */
  lemma UniqueTail(ts: seq<Trade>)
    requires |ts| > 0 && UniqueIds(ts)
    ensures UniqueIds(ts[1..])
    ensures ts[0].id !in TradeIds(ts[1..])
    ensures TradeIds(ts) == {ts[0].id} + TradeIds(ts[1..])
  {
    forall i, j | 0 <= i < j < |ts[1..]| ensures ts[1..][i].id != ts[1..][j].id {
      assert ts[1..][i] == ts[i + 1] && ts[1..][j] == ts[j + 1];
    }
    forall t | t in ts[1..] ensures t.id != ts[0].id {
      var j :| 0 <= j < |ts[1..]| && ts[1..][j] == t;
      assert ts[j + 1] == t;
    }
    assert ts == [ts[0]] + ts[1..];
  }

  /** With unique ids, deleting by id removes exactly one record when the id is stored,
      none otherwise. */
  lemma {:induction false} WithoutIdRemovesOne(ts: seq<Trade>, id: Id)
    requires UniqueIds(ts)
    ensures |WithoutId(ts, id)| == if id in TradeIds(ts) then |ts| - 1 else |ts|
    ensures UniqueIds(WithoutId(ts, id))
  {
    if |ts| > 0 {
      UniqueTail(ts);
      WithoutIdRemovesOne(ts[1..], id);
      var rest := WithoutId(ts[1..], id);
      assert forall t :: t in rest ==> t.id != ts[0].id;
    }
  }

  class TradeRepository {
    var trades: seq<Trade>

    ghost predicate Valid()
      reads this
    {
      UniqueIds(trades)
    }

    constructor (initial: seq<Trade>)
      requires UniqueIds(initial)
      ensures Valid() && trades == initial
    {
      trades := initial;
    }

    function FindById(id: Id): Option<Trade>
      reads this
    {
      FindIn(trades, id)
    }

    function FindByEventId(eventId: Id): seq<Trade>
      reads this
    {
      ByEvent(trades, eventId)
    }

    function FindByUserId(userId: Id): seq<Trade>
      reads this
    {
      ByUser(trades, userId)
    }

    /** Saves `fields` under a fresh id and returns the saved record. */
    method Create(fields: Trade) returns (t: Trade)
      requires Valid()
      modifies this
      ensures Valid()
      ensures t == fields.(id := t.id)
      ensures t.id !in TradeIds(old(trades))
      ensures trades == old(trades) + [t]
    {
      var key := FreshKey(TradeIds(trades));
      t := fields.(id := key);
      forall i | 0 <= i < |trades| ensures trades[i].id != key {
        assert trades[i] in trades;
      }
      trades := trades + [t];
    }

    /** Locates the record by id and rewrites it as `ApplyStatusUpdate` says; a missing id
        yields `None` and changes nothing. */
    method UpdateStatus(id: Id, status: TradeStatus, outcome: Option<Outcome>,
                        settlementAmount: Option<real>) returns (r: Option<Trade>)
      requires Valid()
      modifies this
      ensures Valid()
      ensures |trades| == |old(trades)|
      ensures forall j :: 0 <= j < |trades| ==>
        trades[j] == if old(trades)[j].id == id
                     then ApplyStatusUpdate(old(trades)[j], status, outcome, settlementAmount)
                     else old(trades)[j]
      ensures r.Some? <==> id in TradeIds(old(trades))
      ensures forall j :: 0 <= j < |old(trades)| && old(trades)[j].id == id ==>
        r == Some(ApplyStatusUpdate(old(trades)[j], status, outcome, settlementAmount))
    {
      var i := 0;
      while i < |trades| && trades[i].id != id
        invariant 0 <= i <= |trades|
        invariant forall k :: 0 <= k < i ==> trades[k].id != id
      {
        i := i + 1;
      }
      if i == |trades| {
        assert id !in TradeIds(trades);
        r := None;
      } else {
        var updated := ApplyStatusUpdate(trades[i], status, outcome, settlementAmount);
        assert trades[i] in trades;
        trades := trades[i := updated];
        r := Some(updated);
      }
    }

    /** `deleteOne` by id; true iff exactly one record was removed. */
    method Delete(id: Id) returns (deleted: bool)
      requires Valid()
      modifies this
      ensures Valid()
      ensures trades == WithoutId(old(trades), id)
      ensures deleted <==> id in TradeIds(old(trades))
      ensures deleted ==> |trades| == |old(trades)| - 1
      ensures !deleted ==> |trades| == |old(trades)|
    {
      var before := |trades|;
      WithoutIdRemovesOne(trades, id);
      trades := WithoutId(trades, id);
      deleted := before - |trades| == 1;
    }
  }
}
