/** The rules of the trading engine as functions of the stores: the ordered precondition
    chains of trade creation and settlement, the payout, what one settlement pass does to
    each trade and to each balance, and lemmas about them. */
module Settlement {
  import opened Common
  import opened Models
  import opened Repositories

  // ----- Options and payouts -----

  /** The first option of the list carrying id `id` (`options.find(...)`). */
  function FindOption(options: seq<EventOption>, id: Id): (r: Option<EventOption>)
    ensures r.None? <==> forall i :: 0 <= i < |options| ==> options[i].id != id
    ensures r.Some? ==> exists i :: 0 <= i < |options| && options[i] == r.value && r.value.id == id &&
                          forall k :: 0 <= k < i ==> options[k].id != id
  {
    if |options| == 0 then None
    else if options[0].id == id then Some(options[0])
    else FindOption(options[1..], id)
  }

  /** `odds || 0.5`: zero odds fall back to 0.5, so the divisor is never zero. */
  function EffectiveOdds(odds: real): (r: real)
    ensures r != 0.0
    ensures odds != 0.0 ==> r == odds
    ensures odds == 0.0 ==> r == 0.5
  {
    if odds == 0.0 then 0.5 else odds
  }

  /** The payout of a winning stake, `amount * (1 / (odds || 0.5))`. */
  function Payout(amount: real, odds: real): real
  {
    amount * (1.0 / EffectiveOdds(odds))
  }

  /** The payout is the amount that, multiplied by the effective odds, gives back the stake;
      zero odds pay double; a non-negative stake at positive odds pays a non-negative amount. */
  lemma PayoutTimesOdds(amount: real, odds: real)
    ensures Payout(amount, odds) * EffectiveOdds(odds) == amount
    ensures odds == 0.0 ==> Payout(amount, odds) == 2.0 * amount
    ensures amount >= 0.0 && odds > 0.0 ==> Payout(amount, odds) >= 0.0
  {
    var e := EffectiveOdds(odds);
    assert amount * (1.0 / e) * e == amount * ((1.0 / e) * e);
  }

  // ----- Trade creation -----

  /** The failure, if any, of `createTrade`'s checks, taken in `createTrade`'s order: user,
      balance, event, live status, option. */
  function CreateCheck(users: map<Id, User>, events: map<Id, Event>, input: TradeInput): (r: Option<string>)
    ensures r.None? <==>
      && input.userId in users
      && users[input.userId].balance >= input.amount
      && input.eventId in events
      && events[input.eventId].status == Live
      && exists i :: 0 <= i < |events[input.eventId].options| && events[input.eventId].options[i].id == input.optionId
    ensures r == Some("User not found") <==> input.userId !in users
    ensures r == Some("Insufficient balance") <==>
      input.userId in users && users[input.userId].balance < input.amount
    ensures r == Some("Event not found") <==>
      input.userId in users && users[input.userId].balance >= input.amount && input.eventId !in events
    ensures r == Some("Event is not live for trading") <==>
      input.userId in users && users[input.userId].balance >= input.amount && input.eventId in events &&
      events[input.eventId].status != Live
    ensures r == Some("Option not found") <==>
      input.userId in users && users[input.userId].balance >= input.amount && input.eventId in events &&
      events[input.eventId].status == Live &&
      forall i :: 0 <= i < |events[input.eventId].options| ==> events[input.eventId].options[i].id != input.optionId
  {
    if input.userId !in users then Some("User not found")
    else if users[input.userId].balance < input.amount then Some("Insufficient balance")
    else if input.eventId !in events then Some("Event not found")
    else if events[input.eventId].status != Live then Some("Event is not live for trading")
    else if FindOption(events[input.eventId].options, input.optionId).None? then Some("Option not found")
    else None
  }

  /** The balance is checked before the event is looked up: a user who cannot cover the
      stake is told so whatever the event store holds. */
  lemma BalanceCheckedBeforeEvent(users: map<Id, User>, events: map<Id, Event>, input: TradeInput)
    requires input.userId in users && users[input.userId].balance < input.amount
    ensures CreateCheck(users, events, input) == Some("Insufficient balance")
  {
  }

  /** Only a live event accepts trades. */
  lemma OnlyLiveEventsTrade(users: map<Id, User>, events: map<Id, Event>, input: TradeInput)
    requires input.eventId in events && events[input.eventId].status != Live
    ensures CreateCheck(users, events, input).Some?
  {
  }

  /** The record `createTrade` stores: the caller's fields, status `executed`, no outcome yet. */
  function NewTrade(id: Id, input: TradeInput): Trade
  {
    Trade(id, input.userId, input.eventId, input.optionId, input.amount, Executed, None, None)
  }

  // ----- Settlement -----

  /** The failure of `settleTrades`'s checks, or the winning option (event, then status
      `live` or `closed`, then option). */
  function SettleCheck(events: map<Id, Event>, eventId: Id, winningOptionId: Id): (r: Result<EventOption>)
    ensures r.Ok? <==>
      && eventId in events
      && (events[eventId].status == Live || events[eventId].status == Closed)
      && exists i :: 0 <= i < |events[eventId].options| && events[eventId].options[i].id == winningOptionId
    ensures r.Ok? ==> r.value in events[eventId].options && r.value.id == winningOptionId
    ensures r == Err("Event not found") <==> eventId !in events
    ensures r == Err("Event is not available for settlement") <==>
      eventId in events && events[eventId].status != Live && events[eventId].status != Closed
    ensures r == Err("Option not found") <==>
      eventId in events && (events[eventId].status == Live || events[eventId].status == Closed) &&
      forall i :: 0 <= i < |events[eventId].options| ==> events[eventId].options[i].id != winningOptionId
  {
    if eventId !in events then Err("Event not found")
    else if events[eventId].status != Live && events[eventId].status != Closed then Err("Event is not available for settlement")
    else match FindOption(events[eventId].options, winningOptionId)
      case None => Err("Option not found")
      case Some(option) => Ok(option)
  }

  /** Once the event is settled, settlement of it is refused, whatever option is named. */
  lemma SettledEventRefusesSettlement(events: map<Id, Event>, eventId: Id, winningOptionId: Id)
    requires eventId in events && events[eventId].status == EventStatus.Settled
    ensures SettleCheck(events, eventId, winningOptionId) == Err("Event is not available for settlement")
  {
  }

  /** The record `updateStatus` returns for an executed trade at settlement: outcome `win` and
      the payout for the winning option, outcome `loss` and 0 otherwise. */
  function SettledTrade(t: Trade, winningOptionId: Id, odds: real): (r: Trade)
    ensures r.id == t.id && r.userId == t.userId && r.eventId == t.eventId
    ensures r.optionId == t.optionId && r.amount == t.amount
    ensures r.status == TradeStatus.Settled
    ensures r.outcome == Some(Win) <==> t.optionId == winningOptionId
    ensures r.outcome == Some(Loss) <==> t.optionId != winningOptionId
    ensures t.optionId == winningOptionId ==> r.settlementAmount == Some(Payout(t.amount, odds))
    ensures t.optionId != winningOptionId ==> r.settlementAmount == Some(0.0)
  {
    var won := t.optionId == winningOptionId;
    ApplyStatusUpdate(t, TradeStatus.Settled, Some(if won then Win else Loss),
                      Some(if won then Payout(t.amount, odds) else 0.0))
  }

  /** What the trade store holds for `t` after settling `eventId`: only an executed trade of
      that event changes. */
  function AfterSettlement(t: Trade, eventId: Id, winningOptionId: Id, odds: real): Trade
  {
    if t.eventId == eventId && t.status == Executed then SettledTrade(t, winningOptionId, odds) else t
  }

  /** The whole trade store after settling `eventId`: every record keeps its identity and stake,
      a record that is not an executed trade of the event is untouched, each executed trade of
      the event is settled as a win with the payout exactly when it is on the winning option
      and as a loss with 0 otherwise, and no executed trade of the event is left. */
  function SettleStore(ts: seq<Trade>, eventId: Id, winningOptionId: Id, odds: real): (r: seq<Trade>)
    ensures |r| == |ts|
    ensures forall j :: 0 <= j < |ts| ==>
      && r[j].id == ts[j].id && r[j].userId == ts[j].userId && r[j].eventId == ts[j].eventId
      && r[j].optionId == ts[j].optionId && r[j].amount == ts[j].amount
    ensures forall j :: 0 <= j < |ts| && !(ts[j].eventId == eventId && ts[j].status == Executed) ==> r[j] == ts[j]
    ensures forall j :: 0 <= j < |ts| && ts[j].eventId == eventId && ts[j].status == Executed ==>
      && r[j].status == TradeStatus.Settled
      && (r[j].outcome == Some(Win) <==> ts[j].optionId == winningOptionId)
      && (r[j].outcome == Some(Loss) <==> ts[j].optionId != winningOptionId)
      && r[j].settlementAmount == Some(if ts[j].optionId == winningOptionId then Payout(ts[j].amount, odds) else 0.0)
    ensures forall j :: 0 <= j < |r| ==> !(r[j].eventId == eventId && r[j].status == Executed)
  {
    seq(|ts|, j requires 0 <= j < |ts| => AfterSettlement(ts[j], eventId, winningOptionId, odds))
  }

  /** The balance change one trade of the pass causes: the payout, to its owner, if it is an
      executed trade on the winning option. */
  function CreditOne(users: map<Id, User>, t: Trade, winningOptionId: Id, odds: real): map<Id, User>
  {
    if t.status == Executed && t.optionId == winningOptionId
    then Credit(users, t.userId, Payout(t.amount, odds))
    else users
  }

  /** The users after the pass has credited the trades `ts`, in order. */
  function CreditAll(users: map<Id, User>, ts: seq<Trade>, winningOptionId: Id, odds: real): map<Id, User>
    decreases |ts|
  {
    if |ts| == 0 then users
    else CreditOne(CreditAll(users, ts[..|ts| - 1], winningOptionId, odds), ts[|ts| - 1], winningOptionId, odds)
  }

  /** The trades the pass returns: the settled form of each executed trade of `ts`, in order. */
  function SettledList(ts: seq<Trade>, winningOptionId: Id, odds: real): seq<Trade>
    decreases |ts|
  {
    if |ts| == 0 then []
    else SettledList(ts[..|ts| - 1], winningOptionId, odds) +
         (if ts[|ts| - 1].status == Executed then [SettledTrade(ts[|ts| - 1], winningOptionId, odds)] else [])
  }

  /** How many trades of `ts` are executed. */
  function ExecutedCount(ts: seq<Trade>): nat
    decreases |ts|
  {
    if |ts| == 0 then 0
    else ExecutedCount(ts[..|ts| - 1]) + (if ts[|ts| - 1].status == Executed then 1 else 0)
  }

  /** The pass returns one settled trade per executed trade it was given. */
  lemma {:induction false} SettledListCount(ts: seq<Trade>, winningOptionId: Id, odds: real)
    ensures |SettledList(ts, winningOptionId, odds)| == ExecutedCount(ts)
    decreases |ts|
  {
    if |ts| > 0 {
      SettledListCount(ts[..|ts| - 1], winningOptionId, odds);
    }
  }

  /** The total a user wins from the trades `ts`: the payouts of their executed trades on the
      winning option. */
  function Winnings(ts: seq<Trade>, userId: Id, winningOptionId: Id, odds: real): real
    decreases |ts|
  {
    if |ts| == 0 then 0.0
    else
      var t := ts[|ts| - 1];
      Winnings(ts[..|ts| - 1], userId, winningOptionId, odds) +
      (if t.status == Executed && t.optionId == winningOptionId && t.userId == userId then Payout(t.amount, odds) else 0.0)
  }

  /** Money moves only to winners: after the pass every user's balance has grown by exactly
      their winnings, and nothing else about any user has changed. */
  lemma {:induction false} CreditAllBalances(users: map<Id, User>, ts: seq<Trade>, winningOptionId: Id, odds: real)
    ensures CreditAll(users, ts, winningOptionId, odds).Keys == users.Keys
    ensures forall u :: u in users ==>
      CreditAll(users, ts, winningOptionId, odds)[u] ==
        users[u].(balance := users[u].balance + Winnings(ts, u, winningOptionId, odds))
    decreases |ts|
  {
    if |ts| > 0 {
      CreditAllBalances(users, ts[..|ts| - 1], winningOptionId, odds);
    }
  }

  /** A user with no executed trade on the winning option wins nothing. */
  lemma {:induction false} NoWinningTradeNoWinnings(ts: seq<Trade>, userId: Id, winningOptionId: Id, odds: real)
    requires forall t :: t in ts && t.userId == userId && t.status == Executed ==> t.optionId != winningOptionId
    ensures Winnings(ts, userId, winningOptionId, odds) == 0.0
    decreases |ts|
  {
    if |ts| > 0 {
      assert forall t :: t in ts[..|ts| - 1] ==> t in ts;
      NoWinningTradeNoWinnings(ts[..|ts| - 1], userId, winningOptionId, odds);
    }
  }

  /** A pass over trades none of which is executed credits nobody and returns nothing. */
  lemma {:induction false} IdlePass(users: map<Id, User>, ts: seq<Trade>, winningOptionId: Id, odds: real)
    requires forall t :: t in ts ==> t.status != Executed
    ensures CreditAll(users, ts, winningOptionId, odds) == users
    ensures SettledList(ts, winningOptionId, odds) == []
    decreases |ts|
  {
    if |ts| > 0 {
      assert forall t :: t in ts[..|ts| - 1] ==> t in ts;
      IdlePass(users, ts[..|ts| - 1], winningOptionId, odds);
      assert ts[|ts| - 1] in ts;
    }
  }

  /** No trade is paid twice: after one pass no trade of the event is still executed, so a
      second pass over the same event (were its guard bypassed) would credit nobody, return
      nothing and leave the trade store as it is. */
  lemma SecondPassPaysNothing(users: map<Id, User>, ts: seq<Trade>, eventId: Id,
                              winningOptionId: Id, odds: real, secondWinner: Id, secondOdds: real)
    ensures var after := SettleStore(ts, eventId, winningOptionId, odds);
      && CreditAll(users, ByEvent(after, eventId), secondWinner, secondOdds) == users
      && SettledList(ByEvent(after, eventId), secondWinner, secondOdds) == []
      && SettleStore(after, eventId, secondWinner, secondOdds) == after
  {
    var after := SettleStore(ts, eventId, winningOptionId, odds);
    forall t | t in ByEvent(after, eventId) ensures t.status != Executed {
      var j :| 0 <= j < |after| && after[j] == t;
      assert after[j] == AfterSettlement(ts[j], eventId, winningOptionId, odds);
    }
    IdlePass(users, ByEvent(after, eventId), secondWinner, secondOdds);
  }
}
