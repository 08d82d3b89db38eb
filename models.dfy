/** The three record kinds: users with balances, events with options, and trades.
    Timestamps (`createdAt`, `updatedAt`) are not modelled. */
module Models {
  import opened Common

  datatype Role = UserRole | AdminRole

  /** A registered user; `password` is an opaque credential. */
  datatype User = User(username: string, email: string, password: string, balance: real, role: Role)

  datatype EventStatus = Upcoming | Live | Closed | Settled

  /** One possible outcome of an event. `result` is unset until the event is settled. */
  datatype EventOption = EventOption(id: Id, name: string, odds: real, result: Option<bool>)

  /** An event. Its id is the key under which the event store holds it. */
  datatype Event = Event(
    title: string,
    description: string,
    category: string,
    startTime: string,
    endTime: string,
    status: EventStatus,
    options: seq<EventOption>)

  /** The rule the event controller applies before creating an event. */
  predicate WellFormed(e: Event)
  {
    |e.options| >= 1
  }

  datatype TradeStatus = Pending | Executed | Settled | Cancelled

  datatype Outcome = Win | Loss

  /** A stake of `amount` on option `optionId` of event `eventId`. */
  datatype Trade = Trade(
    id: Id,
    userId: Id,
    eventId: Id,
    optionId: Id,
    amount: real,
    status: TradeStatus,
    outcome: Option<Outcome>,
    settlementAmount: Option<real>)

  /** The fields a caller supplies to trade creation. */
  datatype TradeInput = TradeInput(userId: Id, eventId: Id, optionId: Id, amount: real)

  /** An option as the external feed delivers it, before the store gives it an id. */
  datatype OptionDraft = OptionDraft(name: string, odds: real)

  /** One event of the external feed. */
  datatype ExternalEvent = ExternalEvent(
    id: string,
    title: string,
    description: string,
    category: string,
    startTime: string,
    endTime: string,
    options: seq<OptionDraft>)

  /** An event as handed to the store for creation: its options have no ids yet. */
  datatype EventDraft = EventDraft(
    title: string,
    description: string,
    category: string,
    startTime: string,
    endTime: string,
    status: EventStatus,
    options: seq<OptionDraft>)

  /** A partial update of an event: each present field replaces the stored one. */
  datatype EventPatch = EventPatch(
    title: Option<string>,
    description: Option<string>,
    category: Option<string>,
    startTime: Option<string>,
    endTime: Option<string>,
    status: Option<EventStatus>,
    options: Option<seq<EventOption>>)

  function Pick<T>(o: Option<T>, current: T): T
  {
    if o.Some? then o.value else current
  }

  /** The stored event after a partial update. */
  function Merge(e: Event, p: EventPatch): Event
  {
    Event(Pick(p.title, e.title), Pick(p.description, e.description), Pick(p.category, e.category),
          Pick(p.startTime, e.startTime), Pick(p.endTime, e.endTime), Pick(p.status, e.status),
          Pick(p.options, e.options))
  }
}
