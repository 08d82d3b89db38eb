/** The trading engine: trade creation, cancellation and the settlement pass over an event,
    each a sequence of store calls, with the scenarios that chain them. */
module Trading {
  import opened Common
  import opened Models
  import opened Repositories
  import opened Settlement

  /** Settlement fields are present exactly on settled trades: the engine writes an outcome
      and a settlement amount only when it settles a trade. */
  predicate SettlementFieldsConsistent(ts: seq<Trade>)
  {
    forall i :: 0 <= i < |ts| ==>
      (ts[i].outcome.Some? <==> ts[i].status == TradeStatus.Settled) &&
      (ts[i].settlementAmount.Some? <==> ts[i].status == TradeStatus.Settled)
  }

  class TradeService {
    const trades: TradeRepository
    const users: UserRepository
    const events: EventRepository

    ghost predicate Valid()
      reads trades
    {
      trades.Valid()
    }

    constructor (trades: TradeRepository, users: UserRepository, events: EventRepository)
      ensures this.trades == trades && this.users == users && this.events == events
    {
      this.trades := trades;
      this.users := users;
      this.events := events;
    }

    function GetTradeById(id: Id): Option<Trade>
      reads trades
    {
      trades.FindById(id)
    }

    function GetTradesByUserId(userId: Id): seq<Trade>
      reads trades
    {
      trades.FindByUserId(userId)
    }

    function GetTradesByEventId(eventId: Id): seq<Trade>
      reads trades
    {
      trades.FindByEventId(eventId)
    }

    /** Runs the checks of `CreateCheck` in order; on success stores one new `executed` trade
        and debits the stake from its owner, and from nobody else. */
    method CreateTrade(input: TradeInput) returns (r: Result<Trade>)
      requires Valid()
      modifies trades, users
      ensures Valid()
      ensures r.Err? <==> CreateCheck(old(users.users), events.events, input).Some?
      ensures r.Err? ==> r.message == CreateCheck(old(users.users), events.events, input).value
      ensures r.Err? ==> trades.trades == old(trades.trades) && users.users == old(users.users)
      ensures r.Ok? ==>
        && r.value == NewTrade(r.value.id, input)
        && r.value.id !in TradeIds(old(trades.trades))
        && trades.trades == old(trades.trades) + [r.value]
        && users.users == Credit(old(users.users), input.userId, -input.amount)
        && users.users[input.userId].balance == old(users.users)[input.userId].balance - input.amount
        && users.users[input.userId].balance >= 0.0
      ensures SettlementFieldsConsistent(old(trades.trades)) ==> SettlementFieldsConsistent(trades.trades)
    {
      var user := users.FindById(input.userId);
      if user.None? {
        return Err("User not found");
      }
      if user.value.balance < input.amount {
        return Err("Insufficient balance");
      }
      var event := events.FindById(input.eventId);
      if event.None? {
        return Err("Event not found");
      }
      if event.value.status != Live {
        return Err("Event is not live for trading");
      }
      var option := FindOption(event.value.options, input.optionId);
      if option.None? {
        return Err("Option not found");
      }
      var trade := trades.Create(NewTrade("", input));
      var _ := users.UpdateBalance(input.userId, -input.amount);
      r := Ok(trade);
    }

    /** Refunds an executed trade's stake to its owner and marks it `cancelled`; a missing or
        non-executed trade is refused and nothing changes. */
    method CancelTrade(id: Id) returns (r: Result<Trade>)
      requires Valid()
      modifies trades, users
      ensures Valid()
      ensures FindIn(old(trades.trades), id).None? ==>
        r == Err("Trade not found") && trades.trades == old(trades.trades) && users.users == old(users.users)
      ensures FindIn(old(trades.trades), id).Some? && FindIn(old(trades.trades), id).value.status != Executed ==>
        r == Err("Only executed trades can be cancelled") &&
        trades.trades == old(trades.trades) && users.users == old(users.users)
      ensures FindIn(old(trades.trades), id).Some? && FindIn(old(trades.trades), id).value.status == Executed ==>
        var t := FindIn(old(trades.trades), id).value;
        && r == Ok(t.(status := Cancelled))
        && users.users == Credit(old(users.users), t.userId, t.amount)
        && |trades.trades| == |old(trades.trades)|
        && forall j :: 0 <= j < |trades.trades| ==>
             trades.trades[j] == if old(trades.trades)[j].id == id then t.(status := Cancelled) else old(trades.trades)[j]
      ensures SettlementFieldsConsistent(old(trades.trades)) ==> SettlementFieldsConsistent(trades.trades)
    {
      var found := trades.FindById(id);
      if found.None? {
        return Err("Trade not found");
      }
      var trade := found.value;
      if trade.status != Executed {
        return Err("Only executed trades can be cancelled");
      }
      var _ := users.UpdateBalance(trade.userId, trade.amount);
      var updated := trades.UpdateStatus(id, Cancelled, None, None);
      r := Ok(updated.value);
    }

    /** Settles every executed trade of the event: each winner is credited its payout, every
        such trade is marked `settled` with its outcome and settlement amount, and the event is
        marked `settled`. The settled trades are returned in store order. A failed check
        changes nothing. */
    method SettleTrades(eventId: Id, winningOptionId: Id) returns (r: Result<seq<Trade>>)
      requires Valid()
      modifies trades, users, events
      ensures Valid()
      ensures SettleCheck(old(events.events), eventId, winningOptionId).Err? ==>
        && r == Err(SettleCheck(old(events.events), eventId, winningOptionId).message)
        && trades.trades == old(trades.trades)
        && users.users == old(users.users)
        && events.events == old(events.events)
      ensures SettleCheck(old(events.events), eventId, winningOptionId).Ok? ==>
        var odds := SettleCheck(old(events.events), eventId, winningOptionId).value.odds;
        var settling := ByEvent(old(trades.trades), eventId);
        && r == Ok(SettledList(settling, winningOptionId, odds))
        && trades.trades == SettleStore(old(trades.trades), eventId, winningOptionId, odds)
        && users.users == CreditAll(old(users.users), settling, winningOptionId, odds)
        && events.events == old(events.events)[eventId := old(events.events)[eventId].(status := EventStatus.Settled)]
      ensures SettlementFieldsConsistent(old(trades.trades)) ==> SettlementFieldsConsistent(trades.trades)
    {
      var event := events.FindById(eventId);
      if event.None? {
        return Err("Event not found");
      }
      if event.value.status != Live && event.value.status != Closed {
        return Err("Event is not available for settlement");
      }
      var option := FindOption(event.value.options, winningOptionId);
      if option.None? {
        return Err("Option not found");
      }
      var odds := option.value.odds;
      var settled := SettlePass(eventId, winningOptionId, odds);
      var _ := events.Update(eventId, EventPatch(None, None, None, None, None, Some(EventStatus.Settled), None));
      r := Ok(settled);
    }

    /** The loop of `settleTrades` over the event's trades as they stood before it, for an
        option of the given odds. */
    method SettlePass(eventId: Id, winningOptionId: Id, odds: real) returns (settled: seq<Trade>)
      requires Valid()
      modifies trades, users
      ensures Valid()
      ensures settled == SettledList(ByEvent(old(trades.trades), eventId), winningOptionId, odds)
      ensures trades.trades == SettleStore(old(trades.trades), eventId, winningOptionId, odds)
      ensures users.users == CreditAll(old(users.users), ByEvent(old(trades.trades), eventId), winningOptionId, odds)
    {
      var settling := trades.FindByEventId(eventId);
      settled := [];
      ghost var T0 := trades.trades;
      ghost var U0 := users.users;
      var i := 0;
      assert settling[..0] == [];
      assert trades.trades == PartlySettled(T0, IdSet(settling[..0]), eventId, winningOptionId, odds);
      while i < |settling|
        invariant 0 <= i <= |settling|
        invariant trades.Valid()
        invariant trades.trades == PartlySettled(T0, IdSet(settling[..i]), eventId, winningOptionId, odds)
        invariant users.users == CreditAll(U0, settling[..i], winningOptionId, odds)
        invariant settled == SettledList(settling[..i], winningOptionId, odds)
      {
        var appended := SettleAt(T0, U0, settling, i, eventId, winningOptionId, odds);
        settled := settled + appended;
        i := i + 1;
      }
      SettleDone(T0, settling, eventId, winningOptionId, odds);
      assert settling[..i] == settling;
    }

    /** Iteration `i` of the settlement loop, stated against the snapshot `settling` of the
        store `T0` and the users `U0` the loop started from. */
    method SettleAt(ghost T0: seq<Trade>, ghost U0: map<Id, User>, settling: seq<Trade>, i: nat,
                    eventId: Id, winningOptionId: Id, odds: real) returns (appended: seq<Trade>)
      requires Valid() && UniqueIds(T0)
      requires settling == ByEvent(T0, eventId) && i < |settling|
      requires trades.trades == PartlySettled(T0, IdSet(settling[..i]), eventId, winningOptionId, odds)
      requires users.users == CreditAll(U0, settling[..i], winningOptionId, odds)
      modifies trades, users
      ensures Valid()
      ensures trades.trades == PartlySettled(T0, IdSet(settling[..i + 1]), eventId, winningOptionId, odds)
      ensures users.users == CreditAll(U0, settling[..i + 1], winningOptionId, odds)
      ensures SettledList(settling[..i], winningOptionId, odds) + appended == SettledList(settling[..i + 1], winningOptionId, odds)
    {
      var trade := settling[i];
      SettleStep(T0, settling, i, eventId, winningOptionId, odds);
      appended := SettleSnapshotTrade(trade, eventId, winningOptionId, odds);
      assert settling[..i + 1][..i] == settling[..i];
    }

    /** One iteration of the settlement loop, for a trade of the snapshot that the store still
        holds as it was: an executed trade is settled (the winner credited first), any other
        trade is skipped. Returns what the loop appends to its result. */
    method SettleSnapshotTrade(trade: Trade, eventId: Id, winningOptionId: Id, odds: real)
      returns (appended: seq<Trade>)
      requires Valid()
      requires trade.eventId == eventId
      requires exists j :: 0 <= j < |trades.trades| && trades.trades[j] == trade
      modifies trades, users
      ensures Valid()
      ensures users.users == CreditOne(old(users.users), trade, winningOptionId, odds)
      ensures trades.trades == SettleId(old(trades.trades), trade.id, eventId, winningOptionId, odds)
      ensures appended == if trade.status == Executed then [SettledTrade(trade, winningOptionId, odds)] else []
    {
      if trade.status != Executed {
        assert trades.trades == SettleId(trades.trades, trade.id, eventId, winningOptionId, odds);
        return [];
      }
      var isWinningTrade := trade.optionId == winningOptionId;
      var payout := 0.0;
      if isWinningTrade {
        payout := Payout(trade.amount, odds);
        var _ := users.UpdateBalance(trade.userId, payout);
      }
      var outcome := if isWinningTrade then Win else Loss;
      var settlementAmount := if isWinningTrade then payout else 0.0;
      var settledTrade := trades.UpdateStatus(trade.id, TradeStatus.Settled, Some(outcome), Some(settlementAmount));
      appended := if settledTrade.Some? then [settledTrade.value] else [];
    }
  }

  // ----- Proof of the settlement loop -----

  /** The ids of a run of trades. */
  ghost function IdSet(ts: seq<Trade>): set<Id>
    decreases |ts|
  {
    if |ts| == 0 then {} else IdSet(ts[..|ts| - 1]) + {ts[|ts| - 1].id}
  }

  lemma {:induction false} IdSetMembers(ts: seq<Trade>, id: Id)
    ensures id in IdSet(ts) <==> exists k :: 0 <= k < |ts| && ts[k].id == id
    decreases |ts|
  {
    if |ts| > 0 {
      IdSetMembers(ts[..|ts| - 1], id);
      if id in IdSet(ts[..|ts| - 1]) {
        var k :| 0 <= k < |ts| - 1 && ts[..|ts| - 1][k].id == id;
        assert ts[k].id == id;
      }
    }
  }

  /** The trade store once the trades whose ids are in `done` have been processed. */
  ghost function PartlySettled(ts: seq<Trade>, done: set<Id>, eventId: Id, winningOptionId: Id, odds: real): (r: seq<Trade>)
    ensures |r| == |ts|
  {
    seq(|ts|, j requires 0 <= j < |ts| =>
      if ts[j].id in done then AfterSettlement(ts[j], eventId, winningOptionId, odds) else ts[j])
  }

  /** The trade store once the trade with id `id` has been processed. */
  ghost function SettleId(ts: seq<Trade>, id: Id, eventId: Id, winningOptionId: Id, odds: real): (r: seq<Trade>)
    ensures |r| == |ts|
  {
    seq(|ts|, j requires 0 <= j < |ts| =>
      if ts[j].id == id then AfterSettlement(ts[j], eventId, winningOptionId, odds) else ts[j])
  }

  /** The trade at position `i` of the snapshot is stored, untouched so far, and processing it
      extends the processed set by its id. */
  lemma SettleStep(T0: seq<Trade>, settling: seq<Trade>, i: nat, eventId: Id, winningOptionId: Id, odds: real)
    requires UniqueIds(T0) && UniqueIds(settling)
    requires forall t :: t in settling ==> t in T0 && t.eventId == eventId
    requires i < |settling|
    ensures settling[i].eventId == eventId
    ensures exists j :: 0 <= j < |T0| && T0[j] == settling[i]
    ensures exists j :: 0 <= j < |T0| && PartlySettled(T0, IdSet(settling[..i]), eventId, winningOptionId, odds)[j] == settling[i]
    ensures SettleId(PartlySettled(T0, IdSet(settling[..i]), eventId, winningOptionId, odds), settling[i].id, eventId, winningOptionId, odds)
         == PartlySettled(T0, IdSet(settling[..i]) + {settling[i].id}, eventId, winningOptionId, odds)
    ensures IdSet(settling[..i + 1]) == IdSet(settling[..i]) + {settling[i].id}
  {
    var done := IdSet(settling[..i]);
    assert settling[i] in settling;
    IdSetMembers(settling[..i], settling[i].id);
    assert settling[i].id !in done;
    var j0 :| 0 <= j0 < |T0| && T0[j0] == settling[i];
    assert PartlySettled(T0, done, eventId, winningOptionId, odds)[j0] == settling[i];
    assert settling[..i + 1][..i] == settling[..i];
  }

  /** Once the whole snapshot is processed, exactly the trades of the event have been. */
  lemma SettleDone(T0: seq<Trade>, settling: seq<Trade>, eventId: Id, winningOptionId: Id, odds: real)
    requires UniqueIds(T0)
    requires settling == ByEvent(T0, eventId)
    ensures PartlySettled(T0, IdSet(settling), eventId, winningOptionId, odds) == SettleStore(T0, eventId, winningOptionId, odds)
  {
    var done := IdSet(settling);
    forall j | 0 <= j < |T0| ensures T0[j].id in done <==> T0[j].eventId == eventId {
      IdSetMembers(settling, T0[j].id);
      if T0[j].eventId == eventId {
        assert T0[j] in settling;
        var k :| 0 <= k < |settling| && settling[k] == T0[j];
      }
      if T0[j].id in done {
        var k :| 0 <= k < |settling| && settling[k].id == T0[j].id;
        assert settling[k] in T0;
        var j' :| 0 <= j' < |T0| && T0[j'] == settling[k];
      }
    }
  }
}
