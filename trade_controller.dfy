/** The HTTP layer over the trading engine: who may see or cancel a trade, what a request body
    must hold before the engine is called, the per-event summary shown to non-admins, and the
    status code and body of every response. The caller is already authenticated. */
module TradeApi {
  import opened Common
  import opened Models
  import opened Repositories
  import opened Settlement
  import opened Trading

  /** The authenticated caller. `id` is the text of `req.user._id`, the form in which a trade
      keeps its `userId`. */
  datatype Principal = Principal(id: Id, role: Role)

  /** The owner-or-admin rule, comparing the owner with the text of the caller's id. */
  predicate MayAccess(p: Principal, owner: Id)
  {
    p.role == AdminRole || p.id == owner
  }

  // ----- The owner test as the controller writes it -----

  /** What `req.user._id` holds: the token's id string when tokens are checked in test mode,
      or the object id of the user document read with `findById(...).lean()` otherwise. */
  datatype CallerId = TextId(text: Id) | ObjectId(hex: Id)

  /** The text of a caller id, as the trade schema's `String` field stores it. */
  function IdText(c: CallerId): Id
  {
    match c
    case TextId(s) => s
    case ObjectId(h) => h
  }

  /** `owner === id` in JavaScript: strict equality, under which no string equals an object. */
  predicate StrictlyEqual(owner: Id, c: CallerId)
  {
    c.TextId? && c.text == owner
  }

  /** `role === 'admin' || owner === req.user._id`, the negation of the controller's refusal
      test. */
  predicate MayAccessAsWritten(role: Role, c: CallerId, owner: Id)
  {
    role == AdminRole || StrictlyEqual(owner, c)
  }

  /** As written, a non-admin whose id is an object id is refused their own trades, which the
      intended rule lets them see. */
  lemma OwnerRefusedAsWritten(c: CallerId, owner: Id)
    requires c.ObjectId? && IdText(c) == owner
    ensures !MayAccessAsWritten(UserRole, c, owner)
    ensures MayAccess(Principal(IdText(c), UserRole), owner)
  {
  }

  /** The intended rule admits exactly admins and the owner, whatever form the caller's id
      takes; it agrees with the written test when the id is a string, and admits everyone the
      written test admits. */
  lemma MayAccessIntended(c: CallerId, role: Role, owner: Id)
    ensures MayAccess(Principal(IdText(c), role), owner) <==> role == AdminRole || IdText(c) == owner
    ensures c.TextId? ==> (MayAccess(Principal(IdText(c), role), owner) <==> MayAccessAsWritten(role, c, owner))
    ensures MayAccessAsWritten(role, c, owner) ==> MayAccess(Principal(IdText(c), role), owner)
  {
  }

  // ----- The per-event summary -----

  /** What the summary records for one option: how many trades and how much money. */
  datatype Tally = Tally(count: nat, amount: real)

  datatype Summary = Summary(totalTrades: nat, totalAmount: real, options: map<Id, Tally>)

  function Plus(a: Tally, b: Tally): Tally
  {
    Tally(a.count + b.count, a.amount + b.amount)
  }

  /** The sum of the amounts of `ts`. */
  function TotalAmount(ts: seq<Trade>): real
    decreases |ts|
  {
    if |ts| == 0 then 0.0 else TotalAmount(ts[..|ts| - 1]) + ts[|ts| - 1].amount
  }

  /** How many trades of `ts` are on option `o`, and the sum of their amounts. */
  function TallyFor(ts: seq<Trade>, o: Id): Tally
    decreases |ts|
  {
    if |ts| == 0 then Tally(0, 0.0)
    else
      var t := ts[|ts| - 1];
      Plus(TallyFor(ts[..|ts| - 1], o), if t.optionId == o then Tally(1, t.amount) else Tally(0, 0.0))
  }

  /** The component-wise sum of all tallies of the map. */
  ghost function MapSum(m: map<Id, Tally>): Tally
    decreases m.Keys
  {
    if m == map[] then Tally(0, 0.0)
    else
      var k :| k in m;
      Plus(m[k], MapSum(m - {k}))
  }

  /** The sum does not depend on the order in which the keys are taken. */
  lemma {:induction false} MapSumRemove(m: map<Id, Tally>, k: Id)
    requires k in m
    ensures MapSum(m) == Plus(m[k], MapSum(m - {k}))
    decreases m.Keys
  {
    var p :| p in m && MapSum(m) == Plus(m[p], MapSum(m - {p}));
    if p != k {
      assert (m - {p}).Keys == m.Keys - {p};
      assert (m - {k}).Keys == m.Keys - {k};
      MapSumRemove(m - {p}, k);
      MapSumRemove(m - {k}, p);
      assert (m - {p})[k] == m[k] && (m - {k})[p] == m[p];
      assert m - {p} - {k} == m - {k} - {p};
      var rest := MapSum(m - {p} - {k});
      assert MapSum(m) == Plus(m[p], Plus(m[k], rest));
      assert MapSum(m - {k}) == Plus(m[p], rest);
    }
  }

  /** Raising the tally of key `k` by `d` raises the sum by `d`. */
  lemma MapSumBump(m: map<Id, Tally>, k: Id, d: Tally)
    ensures MapSum(m[k := Plus(if k in m then m[k] else Tally(0, 0.0), d)]) == Plus(MapSum(m), d)
  {
    var m' := m[k := Plus(if k in m then m[k] else Tally(0, 0.0), d)];
    MapSumRemove(m', k);
    if k in m {
      MapSumRemove(m, k);
      assert m' - {k} == m - {k};
    } else {
      assert m' - {k} == m;
    }
  }

  /** The options the trades `ts` are on. */
  function OptionIds(ts: seq<Trade>): (r: set<Id>)
    ensures forall o :: o in r <==> exists i :: 0 <= i < |ts| && ts[i].optionId == o
  {
    set i | 0 <= i < |ts| :: ts[i].optionId
  }

  /** What the summary of `getTradesByEventId` promises for the trades `ts`: one trade counted per trade, the
      total money staked, an entry exactly for each option traded, each entry the count and money
      of that option, and the entries adding up to the totals. Trades of every status count. */
  ghost predicate Summarizes(s: Summary, ts: seq<Trade>)
  {
    && s.totalTrades == |ts|
    && s.totalAmount == TotalAmount(ts)
    && s.options.Keys == OptionIds(ts)
    && (forall o :: o in s.options ==> s.options[o] == TallyFor(ts, o))
    && MapSum(s.options) == Tally(s.totalTrades, s.totalAmount)
  }

  /** The step of the fold: one more trade counted in the totals and in its option's entry. */
  function AddTrade(s: Summary, t: Trade): Summary
  {
    Summary(s.totalTrades + 1, s.totalAmount + t.amount,
            s.options[t.optionId := Plus(if t.optionId in s.options then s.options[t.optionId] else Tally(0, 0.0),
                                         Tally(1, t.amount))])
  }

  /** One step of the fold keeps the summary faithful to the trades counted so far. */
  lemma AddTradeSummarizes(s: Summary, ts: seq<Trade>, t: Trade)
    requires Summarizes(s, ts)
    ensures Summarizes(AddTrade(s, t), ts + [t])
  {
    var ts' := ts + [t];
    var s' := AddTrade(s, t);
    assert s'.totalTrades == |ts'| && s'.totalAmount == TotalAmount(ts') by {
      assert ts'[..|ts'| - 1] == ts;
    }
    assert MapSum(s'.options) == Tally(s'.totalTrades, s'.totalAmount) by {
      MapSumBump(s.options, t.optionId, Tally(1, t.amount));
    }
    assert s'.options.Keys == OptionIds(ts') by {
      AddTradeKeys(ts, t);
    }
    assert forall o :: o in s'.options ==> s'.options[o] == TallyFor(ts', o) by {
      AddTradeTallies(s.options, s'.options, ts, t);
    }
  }

  lemma AddTradeKeys(ts: seq<Trade>, t: Trade)
    ensures OptionIds(ts + [t]) == OptionIds(ts) + {t.optionId}
  {
    var ts' := ts + [t];
    forall o | o in OptionIds(ts) ensures o in OptionIds(ts') {
      var i :| 0 <= i < |ts| && ts[i].optionId == o;
      assert ts'[i] == ts[i];
    }
    assert ts'[|ts|] == t;
    forall o | o in OptionIds(ts') ensures o in OptionIds(ts) + {t.optionId} {
      var i :| 0 <= i < |ts'| && ts'[i].optionId == o;
      if i < |ts| {
        assert ts[i] == ts'[i];
      }
    }
  }

  lemma AddTradeTallies(m: map<Id, Tally>, m': map<Id, Tally>, ts: seq<Trade>, t: Trade)
    requires m.Keys == OptionIds(ts)
    requires forall o :: o in m ==> m[o] == TallyFor(ts, o)
    requires m' == m[t.optionId := Plus(if t.optionId in m then m[t.optionId] else Tally(0, 0.0), Tally(1, t.amount))]
    ensures forall o :: o in m' ==> m'[o] == TallyFor(ts + [t], o)
  {
    var ts' := ts + [t];
    assert ts'[..|ts'| - 1] == ts;
    forall o | o in m' ensures m'[o] == TallyFor(ts', o) {
      assert TallyFor(ts', o) == Plus(TallyFor(ts, o), if t.optionId == o then Tally(1, t.amount) else Tally(0, 0.0));
      if o != t.optionId {
        assert m'[o] == m[o];
      } else if o in m {
        assert m'[o] == Plus(m[o], Tally(1, t.amount));
      } else {
        assert !exists i :: 0 <= i < |ts| && ts[i].optionId == o;
        TallyForUntraded(ts, o);
      }
    }
  }

  /** An option none of whose trades is in `ts` has an empty tally. */
  lemma {:induction false} TallyForUntraded(ts: seq<Trade>, o: Id)
    requires forall i :: 0 <= i < |ts| ==> ts[i].optionId != o
    ensures TallyFor(ts, o) == Tally(0, 0.0)
    decreases |ts|
  {
    if |ts| > 0 {
      TallyForUntraded(ts[..|ts| - 1], o);
    }
  }

  /** The summary of the event's trades, folded in store order. */
  method Summarize(trades: seq<Trade>) returns (s: Summary)
    ensures Summarizes(s, trades)
  {
    s := Summary(0, 0.0, map[]);
    var i := 0;
    while i < |trades|
      invariant 0 <= i <= |trades|
      invariant Summarizes(s, trades[..i])
    {
      AddTradeSummarizes(s, trades[..i], trades[i]);
      assert trades[..i + 1] == trades[..i] + [trades[i]];
      s := AddTrade(s, trades[i]);
      i := i + 1;
    }
    assert trades[..i] == trades;
  }

  // ----- Request bodies and their validation -----

  /** The body of a create request; a field may be absent. */
  datatype CreateTradeBody = CreateTradeBody(eventId: Option<string>, optionId: Option<string>, amount: Option<real>)

  /** The body of a settle request. */
  datatype SettleTradesBody = SettleTradesBody(winningOptionId: Option<string>)

  /** JavaScript truthiness of a string field and of a number field. */
  predicate Truthy(s: Option<string>) { s.Some? && s.value != "" }
  predicate TruthyAmount(a: Option<real>) { a.Some? && a.value != 0.0 }

  /** The controller's checks before trade creation: all three fields truthy, then a positive
      amount. */
  function CreateBodyError(b: CreateTradeBody): (r: Option<string>)
    ensures r == Some("Please provide eventId, optionId, and amount") <==>
      !(Truthy(b.eventId) && Truthy(b.optionId) && TruthyAmount(b.amount))
    ensures r == Some("Amount must be greater than 0") <==>
      Truthy(b.eventId) && Truthy(b.optionId) && TruthyAmount(b.amount) && b.amount.value < 0.0
    ensures r.None? <==> Truthy(b.eventId) && Truthy(b.optionId) && b.amount.Some? && b.amount.value > 0.0
  {
    if !Truthy(b.eventId) || !Truthy(b.optionId) || !TruthyAmount(b.amount) then
      Some("Please provide eventId, optionId, and amount")
    else if b.amount.value <= 0.0 then Some("Amount must be greater than 0")
    else None
  }

  /** The trade the controller asks the engine to create: the caller's own, from a valid body. */
  function InputOf(p: Principal, b: CreateTradeBody): TradeInput
    requires CreateBodyError(b).None?
  {
    TradeInput(p.id, b.eventId.value, b.optionId.value, b.amount.value)
  }

  // ----- Responses -----

  datatype Body =
    | Message(text: string)
    | TradeBody(trade: Trade)
    | TradeList(trades: seq<Trade>)
    | SummaryBody(summary: Summary)
    | SettledBody(message: string, settledTradesCount: nat)

  datatype Response = Response(status: nat, body: Body)

  class TradeController {
    const service: TradeService

    constructor (service: TradeService)
      ensures this.service == service
    {
      this.service := service;
    }

    /** 404 for a missing trade, 403 unless the caller owns it or is an admin, else the trade. */
    function GetTradeById(p: Principal, id: Id): (resp: Response)
      reads service.trades
      ensures resp.status == 404 <==> FindIn(service.trades.trades, id).None?
      ensures resp.status == 403 <==>
        FindIn(service.trades.trades, id).Some? && !MayAccess(p, FindIn(service.trades.trades, id).value.userId)
      ensures resp.status == 200 <==>
        FindIn(service.trades.trades, id).Some? && MayAccess(p, FindIn(service.trades.trades, id).value.userId)
      ensures resp.status == 200 ==>
        resp.body.TradeBody? && resp.body.trade in service.trades.trades && resp.body.trade.id == id &&
        MayAccess(p, resp.body.trade.userId)
      ensures resp.status == 403 ==> resp.body == Message("Forbidden: Not authorized to view this trade")
      ensures resp.status == 404 ==> resp.body == Message("Trade not found")
    {
      match service.GetTradeById(id)
      case None => Response(404, Message("Trade not found"))
      case Some(trade) =>
        if !MayAccess(p, trade.userId) then Response(403, Message("Forbidden: Not authorized to view this trade"))
        else Response(200, TradeBody(trade))
    }

    /** 403 unless the caller asks for their own trades or is an admin, else exactly that user's
        trades in store order. */
    function GetTradesByUserId(p: Principal, userId: Id): (resp: Response)
      reads service.trades
      ensures !MayAccess(p, userId) <==> resp == Response(403, Message("Forbidden: Not authorized to view these trades"))
      ensures MayAccess(p, userId) ==>
        && resp.status == 200 && resp.body.TradeList?
        && resp.body.trades == ByUser(service.trades.trades, userId)
        && forall t :: t in resp.body.trades <==> t in service.trades.trades && t.userId == userId
    {
      if !MayAccess(p, userId) then Response(403, Message("Forbidden: Not authorized to view these trades"))
      else Response(200, TradeList(service.GetTradesByUserId(userId)))
    }

    /** An admin gets the event's trades; anyone else gets their summary. */
    method GetTradesByEventId(p: Principal, eventId: Id) returns (resp: Response)
      ensures resp.status == 200
      ensures p.role == AdminRole ==>
        && resp.body.TradeList?
        && resp.body.trades == ByEvent(service.trades.trades, eventId)
        && forall t :: t in resp.body.trades <==> t in service.trades.trades && t.eventId == eventId
      ensures p.role != AdminRole ==>
        resp.body.SummaryBody? && Summarizes(resp.body.summary, ByEvent(service.trades.trades, eventId))
    {
      var trades := service.GetTradesByEventId(eventId);
      if p.role != AdminRole {
        var summary := Summarize(trades);
        return Response(200, SummaryBody(summary));
      }
      resp := Response(200, TradeList(trades));
    }

    /** 400 with the controller's message for an invalid body, without calling the engine; else
        the engine's creation for the caller: 201 with the trade, or 400 with the engine's
        message. */
    method CreateTrade(p: Principal, body: CreateTradeBody) returns (resp: Response)
      requires service.Valid()
      modifies service.trades, service.users
      ensures service.Valid()
      ensures CreateBodyError(body).Some? ==>
        && resp == Response(400, Message(CreateBodyError(body).value))
        && service.trades.trades == old(service.trades.trades) && service.users.users == old(service.users.users)
      ensures CreateBodyError(body).None? && CreateCheck(old(service.users.users), service.events.events, InputOf(p, body)).Some? ==>
        && resp == Response(400, Message(CreateCheck(old(service.users.users), service.events.events, InputOf(p, body)).value))
        && service.trades.trades == old(service.trades.trades) && service.users.users == old(service.users.users)
      ensures CreateBodyError(body).None? && CreateCheck(old(service.users.users), service.events.events, InputOf(p, body)).None? ==>
        && resp.status == 201 && resp.body.TradeBody?
        && resp.body.trade == NewTrade(resp.body.trade.id, InputOf(p, body))
        && service.trades.trades == old(service.trades.trades) + [resp.body.trade]
        && service.users.users == Credit(old(service.users.users), p.id, -body.amount.value)
    {
      var error := CreateBodyError(body);
      if error.Some? {
        return Response(400, Message(error.value));
      }
      var trade := service.CreateTrade(InputOf(p, body));
      match trade
      case Ok(t) => resp := Response(201, TradeBody(t));
      case Err(message) => resp := Response(400, Message(message));
    }

    /** 404 for a missing trade, then 403 unless the caller owns it or is an admin, neither of
        which calls the engine; else the engine's cancellation: 200 with the cancelled trade, or
        400 with the engine's message. */
    method CancelTrade(p: Principal, id: Id) returns (resp: Response)
      requires service.Valid()
      modifies service.trades, service.users
      ensures service.Valid()
      ensures FindIn(old(service.trades.trades), id).None? ==>
        && resp == Response(404, Message("Trade not found"))
        && service.trades.trades == old(service.trades.trades) && service.users.users == old(service.users.users)
      ensures FindIn(old(service.trades.trades), id).Some? && !MayAccess(p, FindIn(old(service.trades.trades), id).value.userId) ==>
        && resp == Response(403, Message("Forbidden: Not authorized to cancel this trade"))
        && service.trades.trades == old(service.trades.trades) && service.users.users == old(service.users.users)
      ensures FindIn(old(service.trades.trades), id).Some? && MayAccess(p, FindIn(old(service.trades.trades), id).value.userId) ==>
        var t := FindIn(old(service.trades.trades), id).value;
        if t.status == Executed then
          && resp == Response(200, TradeBody(t.(status := Cancelled)))
          && service.users.users == Credit(old(service.users.users), t.userId, t.amount)
          && |service.trades.trades| == |old(service.trades.trades)|
          && (forall j :: 0 <= j < |service.trades.trades| ==>
               service.trades.trades[j] ==
                 if old(service.trades.trades)[j].id == id then t.(status := Cancelled) else old(service.trades.trades)[j])
        else
          && resp == Response(400, Message("Only executed trades can be cancelled"))
          && service.trades.trades == old(service.trades.trades) && service.users.users == old(service.users.users)
    {
      var trade := service.GetTradeById(id);
      if trade.None? {
        return Response(404, Message("Trade not found"));
      }
      if !MayAccess(p, trade.value.userId) {
        return Response(403, Message("Forbidden: Not authorized to cancel this trade"));
      }
      var updated := service.CancelTrade(id);
      match updated
      case Ok(t) => resp := Response(200, TradeBody(t));
      case Err(message) => resp := Response(400, Message(message));
    }

    /** Admins only; 400 without a winning option id, neither of which calls the engine; else
        the engine's settlement: 200 reporting how many trades it settled, or 400 with its
        message. */
    method SettleTrades(p: Principal, eventId: Id, body: SettleTradesBody) returns (resp: Response)
      requires service.Valid()
      modifies service.trades, service.users, service.events
      ensures service.Valid()
      ensures p.role != AdminRole ==>
        && resp == Response(403, Message("Forbidden: Admin access required"))
        && service.trades.trades == old(service.trades.trades) && service.users.users == old(service.users.users)
        && service.events.events == old(service.events.events)
      ensures p.role == AdminRole && !Truthy(body.winningOptionId) ==>
        && resp == Response(400, Message("Please provide winningOptionId"))
        && service.trades.trades == old(service.trades.trades) && service.users.users == old(service.users.users)
        && service.events.events == old(service.events.events)
      ensures p.role == AdminRole && Truthy(body.winningOptionId) ==>
        var check := SettleCheck(old(service.events.events), eventId, body.winningOptionId.value);
        && (check.Err? ==>
             && resp == Response(400, Message(check.message))
             && service.trades.trades == old(service.trades.trades) && service.users.users == old(service.users.users)
             && service.events.events == old(service.events.events))
        && (check.Ok? ==>
             var w := body.winningOptionId.value;
             var settling := ByEvent(old(service.trades.trades), eventId);
             var n := ExecutedCount(settling);
             && resp == Response(200, SettledBody("Successfully settled " + NatToString(n) + " trades", n))
             && service.trades.trades == SettleStore(old(service.trades.trades), eventId, w, check.value.odds)
             && service.users.users == CreditAll(old(service.users.users), settling, w, check.value.odds)
             && service.events.events ==
                  old(service.events.events)[eventId := old(service.events.events)[eventId].(status := EventStatus.Settled)])
    {
      if p.role != AdminRole {
        return Response(403, Message("Forbidden: Admin access required"));
      }
      if !Truthy(body.winningOptionId) {
        return Response(400, Message("Please provide winningOptionId"));
      }
      ghost var settling := ByEvent(service.trades.trades, eventId);
      var settled := service.SettleTrades(eventId, body.winningOptionId.value);
      match settled
      case Ok(list) =>
        SettledListCount(settling, body.winningOptionId.value, SettleCheck(old(service.events.events), eventId, body.winningOptionId.value).value.odds);
        resp := Response(200, SettledBody("Successfully settled " + NatToString(|list|) + " trades", |list|));
      case Err(message) => resp := Response(400, Message(message));
    }
  }
}
