/** The event lifecycle service: partial update, deletion, result marking at settlement,
    and ingestion of the external feed with de-duplication by category and title. */
module EventLifecycle {
  import opened Common
  import opened Models
  import opened Repositories
  import opened Settlement

  /** The options with their results marked from the winning id: true exactly for the
      options whose id is `winningOptionId`, false for all others. Nothing else changes. */
  function MarkResults(options: seq<EventOption>, winningOptionId: Id): (r: seq<EventOption>)
    ensures |r| == |options|
    ensures forall i :: 0 <= i < |options| ==>
      && r[i].id == options[i].id && r[i].name == options[i].name && r[i].odds == options[i].odds
      && r[i].result.Some?
      && (r[i].result.value <==> options[i].id == winningOptionId)
  {
    seq(|options|, i requires 0 <= i < |options| => options[i].(result := Some(options[i].id == winningOptionId)))
  }

  /** Option ids are distinct within an event. */
  predicate DistinctOptionIds(options: seq<EventOption>)
  {
    forall i, j :: 0 <= i < j < |options| ==> options[i].id != options[j].id
  }

  /** With distinct option ids, at most one option is marked as the winner, and none when the
      winning id names no option. */
  lemma AtMostOneWinner(options: seq<EventOption>, winningOptionId: Id)
    requires DistinctOptionIds(options)
    ensures forall i, j ::
      (0 <= i < |options| && 0 <= j < |options| &&
       MarkResults(options, winningOptionId)[i].result == Some(true) &&
       MarkResults(options, winningOptionId)[j].result == Some(true)) ==> i == j
    ensures (forall i :: 0 <= i < |options| ==> options[i].id != winningOptionId) ==>
      forall i :: 0 <= i < |options| ==> MarkResults(options, winningOptionId)[i].result == Some(false)
  {
  }

  /** For a well-formed event whose winning id names one of its distinct options, exactly one
      option ends up marked as the winner. */
  lemma ExactlyOneWinner(e: Event, winningOptionId: Id, w: nat)
    requires WellFormed(e) && DistinctOptionIds(e.options)
    requires w < |e.options| && e.options[w].id == winningOptionId
    ensures MarkResults(e.options, winningOptionId)[w].result == Some(true)
    ensures forall i :: 0 <= i < |e.options| && i != w ==> MarkResults(e.options, winningOptionId)[i].result == Some(false)
  {
  }

  /** The stored event after `settleEvent`: status `settled` and the results marked; no
      check of the prior status is made. */
  function SettledEvent(e: Event, winningOptionId: Id): Event
  {
    Merge(e, EventPatch(None, None, None, None, None, Some(EventStatus.Settled), Some(MarkResults(e.options, winningOptionId))))
  }

  /** After `settleEvent` on an event, the engine's `settleTrades` on the same event is refused,
      so no stake of it can be paid out any more. */
  lemma SettleEventBlocksSettleTrades(events: map<Id, Event>, eventId: Id, winningOptionId: Id, otherWinner: Id)
    requires eventId in events
    ensures SettleCheck(events[eventId := SettledEvent(events[eventId], winningOptionId)], eventId, otherWinner)
         == Err("Event is not available for settlement")
  {
  }

  /** `settleEvent` keeps every option's id, name and odds, in order, whatever the prior status. */
  lemma SettledEventKeepsOptions(e: Event, winningOptionId: Id)
    ensures SettledEvent(e, winningOptionId).status == EventStatus.Settled
    ensures |SettledEvent(e, winningOptionId).options| == |e.options|
    ensures forall i :: 0 <= i < |e.options| ==>
      var o := SettledEvent(e, winningOptionId).options[i];
      o.id == e.options[i].id && o.name == e.options[i].name && o.odds == e.options[i].odds
    ensures SettledEvent(e, winningOptionId).title == e.title && SettledEvent(e, winningOptionId).category == e.category
  {
  }

  /** Some stored event has this category and title. */
  predicate Listed(es: map<Id, Event>, category: string, title: string)
  {
    exists k :: k in es && es[k].category == category && es[k].title == title
  }

  predicate SameListing(a: Event, b: Event)
  {
    a.category == b.category && a.title == b.title
  }

  /** The record ingestion creates for a feed item: status `upcoming`. */
  function DraftOf(x: ExternalEvent): EventDraft
  {
    EventDraft(x.title, x.description, x.category, x.startTime, x.endTime, Upcoming, x.options)
  }

  /** The stored events are kept as they were. */
  ghost predicate KeepsStored(E0: map<Id, Event>, es: map<Id, Event>)
  {
    forall k :: k in E0 ==> k in es && es[k] == E0[k]
  }

  /** No feed item before position `m` has the category and title of item `m`. */
  predicate FirstWithListing(feed: seq<ExternalEvent>, m: nat)
    requires m < |feed|
  {
    forall j :: 0 <= j < m ==> !(feed[j].category == feed[m].category && feed[j].title == feed[m].title)
  }

  /** Every new event is upcoming, was not listed at the start, and is the stored form of one
      of the first `n` feed items, the first of the feed with its category and title. */
  ghost predicate NewFromFeed(E0: map<Id, Event>, es: map<Id, Event>, feed: seq<ExternalEvent>, n: nat)
  {
    forall k :: k in es && k !in E0 ==>
      && es[k].status == Upcoming
      && !Listed(E0, es[k].category, es[k].title)
      && exists m :: 0 <= m < n && m < |feed| && es[k] == Stored(k, DraftOf(feed[m])) && FirstWithListing(feed, m)
  }

  /** The first `n` feed items are listed. */
  ghost predicate FeedListed(es: map<Id, Event>, feed: seq<ExternalEvent>, n: nat)
  {
    forall m :: 0 <= m < n && m < |feed| ==> Listed(es, feed[m].category, feed[m].title)
  }

  /** No new event shares its category and title with any other event. */
  ghost predicate NoDuplicates(E0: map<Id, Event>, es: map<Id, Event>)
  {
    forall k1, k2 :: k1 in es && k2 in es && k1 != k2 && k2 !in E0 ==> !SameListing(es[k1], es[k2])
  }

  /** A feed that was listed from the start causes no change. */
  ghost predicate IdleWhenListed(E0: map<Id, Event>, es: map<Id, Event>, feed: seq<ExternalEvent>)
  {
    (forall x :: x in feed ==> Listed(E0, x.category, x.title)) ==> es == E0
  }

  /** What the feed loop keeps after the first `n` items, starting from the store `E0`. */
  ghost predicate Ingested(E0: map<Id, Event>, es: map<Id, Event>, feed: seq<ExternalEvent>, n: nat)
  {
    && n <= |feed|
    && KeepsStored(E0, es)
    && NewFromFeed(E0, es, feed, n)
    && FeedListed(es, feed, n)
    && NoDuplicates(E0, es)
    && IdleWhenListed(E0, es, feed)
  }

  /** A feed item already listed leaves the store as it is. */
  lemma IngestSkip(E0: map<Id, Event>, es: map<Id, Event>, feed: seq<ExternalEvent>, i: nat)
    requires i < |feed| && Ingested(E0, es, feed, i)
    requires Listed(es, feed[i].category, feed[i].title)
    ensures Ingested(E0, es, feed, i + 1)
  {
    assert NewFromFeed(E0, es, feed, i + 1) by {
      forall k | k in es && k !in E0
        ensures exists m :: 0 <= m < i + 1 && m < |feed| && es[k] == Stored(k, DraftOf(feed[m])) && FirstWithListing(feed, m)
      {
        var m :| 0 <= m < i && m < |feed| && es[k] == Stored(k, DraftOf(feed[m])) && FirstWithListing(feed, m);
      }
    }
  }

  /** A feed item not yet listed is created under a fresh key as an upcoming event. */
  lemma IngestCreate(E0: map<Id, Event>, before: map<Id, Event>, feed: seq<ExternalEvent>, i: nat, key: Id)
    requires i < |feed| && Ingested(E0, before, feed, i)
    requires !Listed(before, feed[i].category, feed[i].title) && key !in before
    ensures Ingested(E0, before[key := Stored(key, DraftOf(feed[i]))], feed, i + 1)
  {
    var item := feed[i];
    var after := before[key := Stored(key, DraftOf(item))];
    assert KeepsStored(E0, after);
    CreateKeepsUnique(E0, before, item, key);
    CreateListsFeed(before, feed, i, key);
    CreateFromFeed(E0, before, feed, i, key);
    assert IdleWhenListed(E0, after, feed) by {
      assert item in feed;
    }
  }

  lemma CreateKeepsUnique(E0: map<Id, Event>, before: map<Id, Event>, item: ExternalEvent, key: Id)
    requires NoDuplicates(E0, before)
    requires !Listed(before, item.category, item.title) && key !in before
    ensures NoDuplicates(E0, before[key := Stored(key, DraftOf(item))])
  {
    var created := Stored(key, DraftOf(item));
    var after := before[key := created];
    forall k1, k2 | k1 in after && k2 in after && k1 != k2 && k2 !in E0
      ensures !SameListing(after[k1], after[k2])
    {
      if k1 == key {
        assert k2 in before;
      } else if k2 == key {
        assert k1 in before;
      }
    }
  }

  lemma CreateListsFeed(before: map<Id, Event>, feed: seq<ExternalEvent>, i: nat, key: Id)
    requires i < |feed| && FeedListed(before, feed, i) && key !in before
    ensures FeedListed(before[key := Stored(key, DraftOf(feed[i]))], feed, i + 1)
  {
    var created := Stored(key, DraftOf(feed[i]));
    var after := before[key := created];
    forall m | 0 <= m < i + 1 ensures Listed(after, feed[m].category, feed[m].title) {
      if m < i {
        assert Listed(before, feed[m].category, feed[m].title);
        var k :| k in before && before[k].category == feed[m].category && before[k].title == feed[m].title;
        assert after[k] == before[k];
      } else {
        assert after[key] == created;
      }
    }
  }

  lemma CreateFromFeed(E0: map<Id, Event>, before: map<Id, Event>, feed: seq<ExternalEvent>, i: nat, key: Id)
    requires i < |feed| && KeepsStored(E0, before) && NewFromFeed(E0, before, feed, i)
    requires FeedListed(before, feed, i)
    requires !Listed(before, feed[i].category, feed[i].title) && key !in before
    ensures NewFromFeed(E0, before[key := Stored(key, DraftOf(feed[i]))], feed, i + 1)
  {
    var after := before[key := Stored(key, DraftOf(feed[i]))];
    assert FirstWithListing(feed, i) by {
      forall j | 0 <= j < i ensures !(feed[j].category == feed[i].category && feed[j].title == feed[i].title) {
        assert Listed(before, feed[j].category, feed[j].title);
      }
    }
    forall k | k in after && k !in E0
      ensures exists m :: 0 <= m < i + 1 && m < |feed| && after[k] == Stored(k, DraftOf(feed[m])) && FirstWithListing(feed, m)
    {
      if k == key {
        assert after[k] == Stored(k, DraftOf(feed[i]));
      } else {
        var m :| 0 <= m < i && m < |feed| && before[k] == Stored(k, DraftOf(feed[m])) && FirstWithListing(feed, m);
        assert after[k] == Stored(k, DraftOf(feed[m]));
      }
    }
  }

  lemma IngestedAll(E0: map<Id, Event>, es: map<Id, Event>, feed: seq<ExternalEvent>)
    requires Ingested(E0, es, feed, |feed|)
    ensures forall k :: k in E0 ==> k in es && es[k] == E0[k]
    ensures forall k :: k in es && k !in E0 ==>
      && es[k].status == Upcoming
      && !Listed(E0, es[k].category, es[k].title)
      && exists m :: 0 <= m < |feed| && es[k] == Stored(k, DraftOf(feed[m])) && FirstWithListing(feed, m)
    ensures forall x :: x in feed ==> Listed(es, x.category, x.title)
    ensures forall k1, k2 :: k1 in es && k2 in es && k1 != k2 && k2 !in E0 ==> !SameListing(es[k1], es[k2])
    ensures (forall x :: x in feed ==> Listed(E0, x.category, x.title)) ==> es == E0
  {
    forall x | x in feed ensures Listed(es, x.category, x.title) {
      var m :| 0 <= m < |feed| && feed[m] == x;
    }
  }

  class EventService {
    const events: EventRepository

    constructor (events: EventRepository)
      ensures this.events == events
    {
      this.events := events;
    }

    /** Partial update; a missing id yields `None` and changes nothing. */
    method UpdateEvent(id: Id, patch: EventPatch) returns (r: Option<Event>)
      modifies events
      ensures id !in old(events.events) ==> r == None && events.events == old(events.events)
      ensures id in old(events.events) ==>
        && events.events == old(events.events)[id := Merge(old(events.events)[id], patch)]
        && r == Some(Merge(old(events.events)[id], patch))
    {
      r := events.Update(id, patch);
    }

    /** Marks the results from the winning id and the status `settled`; a missing id yields
        `None` and changes nothing. */
    method SettleEvent(id: Id, winningOptionId: Id) returns (r: Option<Event>)
      modifies events
      ensures id !in old(events.events) ==> r == None && events.events == old(events.events)
      ensures id in old(events.events) ==>
        && events.events == old(events.events)[id := SettledEvent(old(events.events)[id], winningOptionId)]
        && r == Some(SettledEvent(old(events.events)[id], winningOptionId))
    {
      var event := events.FindById(id);
      if event.None? {
        return None;
      }
      var updatedOptions := MarkResults(event.value.options, winningOptionId);
      r := events.Update(id, EventPatch(None, None, None, None, None, Some(EventStatus.Settled), Some(updatedOptions)));
    }

    /** Deletion by id; false, and no change, for a missing id. */
    method DeleteEvent(id: Id) returns (r: bool)
      modifies events
      ensures r <==> id in old(events.events)
      ensures events.events == old(events.events) - {id}
      ensures !r ==> events.events == old(events.events)
    {
      r := events.Delete(id);
    }

    /** Creates, in `upcoming` status, each feed item whose category and title no stored event
        has, re-querying the store for every item, so of several items with the same category
        and title only the first is created. Stored events are kept; no two events
        created here, nor a created and a stored one, share a category and title; afterwards
        every feed item is listed; a feed that is already listed changes nothing. */
    method FetchExternalEvents(feed: seq<ExternalEvent>)
      modifies events
      ensures forall k :: k in old(events.events) ==> k in events.events && events.events[k] == old(events.events)[k]
      ensures forall k :: k in events.events && k !in old(events.events) ==>
        && events.events[k].status == Upcoming
        && !Listed(old(events.events), events.events[k].category, events.events[k].title)
        && exists m :: 0 <= m < |feed| && events.events[k] == Stored(k, DraftOf(feed[m])) && FirstWithListing(feed, m)
      ensures forall x :: x in feed ==> Listed(events.events, x.category, x.title)
      ensures forall k1, k2 :: k1 in events.events && k2 in events.events && k1 != k2 && k2 !in old(events.events) ==>
        !SameListing(events.events[k1], events.events[k2])
      ensures (forall x :: x in feed ==> Listed(old(events.events), x.category, x.title)) ==>
        events.events == old(events.events)
    {
      ghost var E0 := events.events;
      var i := 0;
      while i < |feed|
        invariant 0 <= i <= |feed|
        invariant Ingested(E0, events.events, feed, i)
      {
        ghost var before := events.events;
        ghost var key := IngestItem(feed[i]);
        if Listed(before, feed[i].category, feed[i].title) {
          IngestSkip(E0, before, feed, i);
        } else {
          IngestCreate(E0, before, feed, i, key);
        }
        i := i + 1;
      }
      IngestedAll(E0, events.events, feed);
    }

    /** One step of the feed loop: the item is created unless an event of its category
        already has its title. */
    method IngestItem(item: ExternalEvent) returns (ghost key: Id)
      modifies events
      ensures Listed(old(events.events), item.category, item.title) ==> events.events == old(events.events)
      ensures !Listed(old(events.events), item.category, item.title) ==>
        key !in old(events.events) && events.events == old(events.events)[key := Stored(key, DraftOf(item))]
    {
      key := "";
      var existing := events.FindByCategory(item.category);
      var existingEvent := exists k :: k in existing && existing[k].title == item.title;
      if !existingEvent {
        var created;
        key, created := events.Create(DraftOf(item));
      }
    }
  }
}
