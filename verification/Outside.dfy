/**
 What a dispatcher does not control. `World` answers the n-th call of each kind: store faults, mapping, posts,
 polls, and the reads of operator state and routes. `Calls` counts the calls made of each kind, so that a range
 of counts names exactly the calls made in between.
 */
module Outside {
  import opened EventTable
  import opened BulkResults
  import LeaseProtocol

  type Record = LeaseProtocol.Record

  const IN_REQUEST_RETRIES: nat := LeaseProtocol.IN_REQUEST_RETRIES
  const RESULT_POLL_ATTEMPTS := 5

  datatype Calls = Calls(store: nat, mapped: nat, post: nat, poll: nat, control: nat)

  const NO_CALLS := Calls(0, 0, 0, 0, 0)

  /** Decoding, parsing, mapping and enriching one event. */
  datatype Mapping =
    | Mapped(record: Record)
    | Unmappable(reason: string)            // MappingError or EnrichmentError
    | EnrichmentFails(message: string)      // the host's function threw or timed out
    | Undecodable                           // anything else is thrown on

  datatype Reply =
    | Accepted(bulk: string)
    | Transient(message: string)
    | Refused(status: int, message: string, body: string)   // PermanentHttpError
    | OtherError(message: string)

  datatype Poll = PollFails | Unsettled | Results(items: seq<ResultItem>)

  /** `Math.random()` */
  type Fraction = r: real | 0.0 <= r < 1.0 witness 0.0

  datatype World = World(
    storeUp: nat -> bool,
    mapping: (nat, EventRow) -> Mapping,
    post: (nat, seq<Record>) -> Reply,
    poll: (nat, string) -> Poll,
    controlUp: nat -> bool,
    mayForward: nat -> bool,                // the killswitch reads 'none'
    routeKnown: (nat, string) -> bool,
    routePaused: (nat, string) -> bool,
    elapsed: Calls -> nat,                  // how much later it is when the next call returns
    random: Calls -> Fraction,
    aborts: Calls -> bool)

  // ---- the answer to a call ----

  predicate StoreUp(w: World, n: nat) {
    w.storeUp(n)
  }

  function MappingOf(w: World, n: nat, event: EventRow): Mapping {
    w.mapping(n, event)
  }

  predicate ControlUp(w: World, n: nat) {
    w.controlUp(n)
  }

  predicate ForwardAllowed(w: World, n: nat) {
    w.mayForward(n)
  }

  predicate RouteKnown(w: World, n: nat, routeId: string) {
    w.routeKnown(n, routeId)
  }

  predicate RoutePaused(w: World, n: nat, routeId: string) {
    w.routePaused(n, routeId)
  }

  function Elapsed(w: World, calls: Calls): nat {
    w.elapsed(calls)
  }

  /** Whether a stop was asked for before the call after `calls`. */
  predicate Aborts(w: World, calls: Calls) {
    w.aborts(calls)
  }

  // ---- ranges of calls ----

  /** Only the store was called in between. */
  predicate OnlyStore(a: Calls, b: Calls) {
    a.store <= b.store && b == a.(store := b.store)
  }

  /** A store call made in between failed. */
  ghost predicate StoreFailed(w: World, a: Calls, b: Calls) {
    exists n: nat | a.store <= n < b.store :: !StoreUp(w, n)
  }

  // ---- the answers to a post ----

  /** What posting the records comes to: a transient error is retried at once, twice. */
  function PostOutcome(w: World, records: seq<Record>, call: nat, attempt: nat): Reply
    requires attempt <= IN_REQUEST_RETRIES
    decreases IN_REQUEST_RETRIES - attempt
  {
    var reply := w.post(call, records);
    if reply.Transient? && attempt < IN_REQUEST_RETRIES then PostOutcome(w, records, call + 1, attempt + 1) else reply
  }

  /** The number of posts that takes. */
  function PostsMade(w: World, records: seq<Record>, call: nat, attempt: nat): nat
    requires attempt <= IN_REQUEST_RETRIES
    decreases IN_REQUEST_RETRIES - attempt
  {
    if w.post(call, records).Transient? && attempt < IN_REQUEST_RETRIES then 1 + PostsMade(w, records, call + 1, attempt + 1) else 1
  }

  /** The rejected keys the polls come to; none if polling fails or the results do not settle in time. */
  function PolledRejections(w: World, bulk: string, call: nat, attempt: nat): set<string>
    requires attempt <= RESULT_POLL_ATTEMPTS
    decreases RESULT_POLL_ATTEMPTS - attempt
  {
    if attempt == RESULT_POLL_ATTEMPTS then {}
    else
      match w.poll(call, bulk)
      case PollFails => {}
      case Unsettled => PolledRejections(w, bulk, call + 1, attempt + 1)
      case Results(items) => RejectedKeys(items)
  }

  /** The number of polls that takes. */
  function PollsMade(w: World, bulk: string, call: nat, attempt: nat): nat
    requires attempt <= RESULT_POLL_ATTEMPTS
    decreases RESULT_POLL_ATTEMPTS - attempt
  {
    if attempt == RESULT_POLL_ATTEMPTS then 0
    else if w.poll(call, bulk).Unsettled? then 1 + PollsMade(w, bulk, call + 1, attempt + 1) else 1
  }

  predicate IsPermanent(reply: Reply) {
    reply.Refused? && (reply.status == 400 || reply.status == 422)
  }

  /** What a failed batch is parked or retried with; a settling that failed has the store's own message, not modelled. */
  function ErrorText(reply: Reply): string {
    match reply
    case Accepted(_) => "settling failed"
    case Transient(message) => message
    case Refused(_, message, body) => if IsPermanent(reply) then message + ": " + body else message
    case OtherError(message) => message
  }
}
