/** Usage metering: idempotent counters for each environment, metric and month, with hard limits. */
module UsageMetering {
  import opened Prelude
  import opened Text
  import opened Calendar
  import opened IsoText

  const USAGE_METRICS: set<string> := {"monthly_active_members", "loyalty_transactions", "messages"}

  datatype UsageEvent = UsageEvent(environment: string, metric: string, quantity: nat, idempotencyKey: string, occurredAt: int)

  datatype Outcome = Recorded | Duplicate | LimitExceeded

  /** What the in-memory repository holds: the keys of accepted events, and counters under composed keys. */
  datatype Meter = Meter(events: set<string>, counters: map<string, nat>)

  function EventKey(e: UsageEvent): string {
    e.environment + ":" + (e.metric + ":" + e.idempotencyKey)
  }

  function CounterKey(environment: string, metric: string, periodStart: string, periodEnd: string): string {
    environment + ":" + (metric + ":" + (periodStart + ":" + periodEnd))
  }

  function At(counters: map<string, nat>, key: string): nat {
    if key in counters then counters[key] else 0
  }

  function Record(m: Meter, e: UsageEvent, periodStart: string, periodEnd: string, hardLimit: int): (Meter, Outcome) {
    var key := CounterKey(e.environment, e.metric, periodStart, periodEnd);
    if EventKey(e) in m.events then (m, Duplicate)
    else if At(m.counters, key) + e.quantity > hardLimit then (m, LimitExceeded)
    else (Meter(m.events + {EventKey(e)}, m.counters[key := At(m.counters, key) + e.quantity]), Recorded)
  }

  /** An event with the period it falls in and the limit of the plan at the time. */
  datatype Booking = Booking(event: UsageEvent, period: Period, hardLimit: int)

  /** `stamp` is how instants are written. */
  function Book(m: Meter, b: Booking, stamp: int -> string): (Meter, Outcome) {
    Record(m, b.event, stamp(b.period.start), stamp(b.period.end), b.hardLimit)
  }

  // ---------- composed keys ----------

  lemma MetricsAreColonFree(metric: string)
    requires metric in USAGE_METRICS
    ensures Free(metric, ':')
  {
  }

  /** Events share a key only when environment, metric and idempotency key all agree: the last may hold colons. */
  lemma EventKeysDiffer(e: UsageEvent, f: UsageEvent)
    requires Free(e.environment, ':') && Free(f.environment, ':') && e.metric in USAGE_METRICS && f.metric in USAGE_METRICS
    ensures EventKey(e) == EventKey(f)
            <==> e.environment == f.environment && e.metric == f.metric && e.idempotencyKey == f.idempotencyKey
  {
    if EventKey(e) == EventKey(f) {
      MetricsAreColonFree(e.metric);
      MetricsAreColonFree(f.metric);
      JoinedOnFirst(e.environment, e.metric + ":" + e.idempotencyKey, f.environment, f.metric + ":" + f.idempotencyKey, ':');
      JoinedOnFirst(e.metric, e.idempotencyKey, f.metric, f.idempotencyKey, ':');
    }
  }

  predicate Bounded(p: Period) {
    Representable(p.start) && Representable(p.end)
  }

  /** Two periods are never written alike. */
  ghost predicate Apart(stamp: int -> string) {
    forall p: Period, q: Period :: Bounded(p) && Bounded(q) && Span(p, stamp) == Span(q, stamp) ==> p == q
  }

  function Span(p: Period, stamp: int -> string): string {
    stamp(p.start) + ":" + stamp(p.end)
  }

  function KeyIn(environment: string, metric: string, p: Period, stamp: int -> string): string {
    CounterKey(environment, metric, stamp(p.start), stamp(p.end))
  }

  lemma CounterKeysDiffer(environment: string, metric: string, p: Period, environment': string, metric': string, p': Period,
                          stamp: int -> string)
    requires Free(environment, ':') && Free(environment', ':') && metric in USAGE_METRICS && metric' in USAGE_METRICS
    requires Bounded(p) && Bounded(p') && Apart(stamp)
    ensures KeyIn(environment, metric, p, stamp) == KeyIn(environment', metric', p', stamp)
            <==> environment == environment' && metric == metric' && p == p'
  {
    if KeyIn(environment, metric, p, stamp) == KeyIn(environment', metric', p', stamp) {
      MetricsAreColonFree(metric);
      MetricsAreColonFree(metric');
      var (a, b) := (Span(p, stamp), Span(p', stamp));
      JoinedOnFirst(environment, metric + ":" + a, environment', metric' + ":" + b, ':');
      JoinedOnFirst(metric, a, metric', b, ':');
    }
  }

  /** The way instants are written keeps periods apart, so that a counter key tells which month it is for. */
  lemma IsoStringsKeepPeriodsApart()
    ensures Apart(IsoString)
  {
    forall p: Period, q: Period | Bounded(p) && Bounded(q) && Span(p, IsoString) == Span(q, IsoString) ensures p == q {
      JoinedInstants(p.start, IsoString(p.end), q.start, IsoString(q.end));
      IsoStringsDiffer(p.end, q.end);
    }
  }

  // ---------- every sequence of bookings ----------

  /** Environment ids are generated by the control plane and hold no colon; metrics are the known ones. */
  predicate WellFormed(b: Booking) {
    Free(b.event.environment, ':') && b.event.metric in USAGE_METRICS && Bounded(b.period)
  }

  ghost predicate IsRun(states: seq<Meter>, bookings: seq<Booking>, stamp: int -> string) {
    && |states| == |bookings| + 1 && states[0] == Meter({}, map[])
    && forall n :: 0 <= n < |bookings| ==>
         WellFormed(bookings[n]) && states[n + 1] == Book(states[n], bookings[n], stamp).0
  }

  /** Booking `n` was accepted as new. */
  ghost predicate Accepted(states: seq<Meter>, bookings: seq<Booking>, n: int, stamp: int -> string)
    requires |states| == |bookings| + 1
  {
    0 <= n < |bookings| && Book(states[n], bookings[n], stamp).1.Recorded?
  }

  predicate MeteredAs(b: Booking, environment: string, metric: string, period: Period) {
    b.event.environment == environment && b.event.metric == metric && b.period == period
  }

  /** The quantities accepted for an environment, a metric and a period among the first `n` bookings. */
  ghost function Metered(states: seq<Meter>, bookings: seq<Booking>, n: nat, environment: string, metric: string, period: Period,
                         stamp: int -> string): nat
    requires n <= |bookings| && |states| == |bookings| + 1
  {
    if n == 0 then 0
    else Metered(states, bookings, n - 1, environment, metric, period, stamp)
         + if Accepted(states, bookings, n - 1, stamp) && MeteredAs(bookings[n - 1], environment, metric, period)
           then bookings[n - 1].event.quantity else 0
  }

  lemma BookMoves(m: Meter, b: Booking, environment: string, metric: string, period: Period, stamp: int -> string)
    requires WellFormed(b) && Apart(stamp) && Free(environment, ':') && metric in USAGE_METRICS && Bounded(period)
    ensures At(Book(m, b, stamp).0.counters, KeyIn(environment, metric, period, stamp))
            == At(m.counters, KeyIn(environment, metric, period, stamp))
               + if Book(m, b, stamp).1.Recorded? && MeteredAs(b, environment, metric, period) then b.event.quantity else 0
  {
    CounterKeysDiffer(environment, metric, period, b.event.environment, b.event.metric, b.period, stamp);
  }

  /** Conservation: a counter is the sum of the quantities accepted for it, nothing lost and nothing counted elsewhere. */
  lemma {:induction false} CountersAreSums(states: seq<Meter>, bookings: seq<Booking>, n: nat, environment: string, metric: string,
                                           period: Period, stamp: int -> string)
    requires IsRun(states, bookings, stamp) && n <= |bookings| && Apart(stamp)
    requires Free(environment, ':') && metric in USAGE_METRICS && Bounded(period)
    ensures At(states[n].counters, KeyIn(environment, metric, period, stamp))
            == Metered(states, bookings, n, environment, metric, period, stamp)
  {
    if n > 0 {
      CountersAreSums(states, bookings, n - 1, environment, metric, period, stamp);
      BookMoves(states[n - 1], bookings[n - 1], environment, metric, period, stamp);
    }
  }

  ghost predicate AcceptedAs(states: seq<Meter>, bookings: seq<Booking>, n: nat, key: string, stamp: int -> string)
    requires |states| == |bookings| + 1
  {
    Accepted(states, bookings, n, stamp) && EventKey(bookings[n].event) == key
  }

  lemma {:induction false} EventsAreTheAcceptedKeys(states: seq<Meter>, bookings: seq<Booking>, n: nat, key: string,
                                                    stamp: int -> string)
    requires IsRun(states, bookings, stamp) && n <= |bookings|
    ensures key in states[n].events <==> exists j: nat :: j < n && AcceptedAs(states, bookings, j, key, stamp)
  {
    if n > 0 {
      EventsAreTheAcceptedKeys(states, bookings, n - 1, key, stamp);
      assert key in states[n].events <==> key in states[n - 1].events || AcceptedAs(states, bookings, n - 1, key, stamp);
    }
  }

  predicate SameEvent(e: UsageEvent, f: UsageEvent) {
    e.environment == f.environment && e.metric == f.metric && e.idempotencyKey == f.idempotencyKey
  }

  /** A booking is a duplicate exactly when the same event was accepted before: a refused one may be tried again. */
  lemma DuplicatesAreRepeats(states: seq<Meter>, bookings: seq<Booking>, n: nat, stamp: int -> string)
    requires IsRun(states, bookings, stamp) && n < |bookings|
    ensures Book(states[n], bookings[n], stamp).1.Duplicate?
            <==> exists j: nat :: j < n && Accepted(states, bookings, j, stamp) && SameEvent(bookings[j].event, bookings[n].event)
    ensures !Accepted(states, bookings, n, stamp) ==> states[n + 1] == states[n]
  {
    var key := EventKey(bookings[n].event);
    EventsAreTheAcceptedKeys(states, bookings, n, key, stamp);
    forall j: nat | j < n && Accepted(states, bookings, j, stamp)
      ensures SameEvent(bookings[j].event, bookings[n].event) <==> AcceptedAs(states, bookings, j, key, stamp)
    {
      EventKeysDiffer(bookings[j].event, bookings[n].event);
    }
  }

  /** No event is counted twice. */
  lemma AcceptedOnce(states: seq<Meter>, bookings: seq<Booking>, j: nat, n: nat, stamp: int -> string)
    requires IsRun(states, bookings, stamp) && j < n < |bookings|
    requires Accepted(states, bookings, j, stamp) && Accepted(states, bookings, n, stamp)
    ensures !SameEvent(bookings[j].event, bookings[n].event)
  {
    DuplicatesAreRepeats(states, bookings, n, stamp);
  }

  /** A counter that is not zero is within the hard limit that the last booking it accepted was given. */
  lemma {:induction false} WithinTheLimit(states: seq<Meter>, bookings: seq<Booking>, n: nat, environment: string, metric: string,
                                          period: Period, stamp: int -> string) returns (last: nat)
    requires IsRun(states, bookings, stamp) && n <= |bookings| && Apart(stamp)
    requires Free(environment, ':') && metric in USAGE_METRICS && Bounded(period)
    requires Metered(states, bookings, n, environment, metric, period, stamp) > 0
    ensures last < n && Accepted(states, bookings, last, stamp) && MeteredAs(bookings[last], environment, metric, period)
    ensures Metered(states, bookings, n, environment, metric, period, stamp) <= bookings[last].hardLimit
    ensures forall k :: last < k < n && Accepted(states, bookings, k, stamp) ==>
              !MeteredAs(bookings[k], environment, metric, period)
  {
    if Accepted(states, bookings, n - 1, stamp) && MeteredAs(bookings[n - 1], environment, metric, period) {
      CountersAreSums(states, bookings, n - 1, environment, metric, period, stamp);
      last := n - 1;
    } else {
      last := WithinTheLimit(states, bookings, n - 1, environment, metric, period, stamp);
    }
  }

  // ---------- counters and months ----------

  predicate Falls(e: UsageEvent, environment: string, metric: string, interval: Period) {
    e.environment == environment && e.metric == metric && Contains(interval, e.occurredAt)
  }

  /** The quantities accepted for events that happened in an interval. */
  ghost function AcceptedDuring(states: seq<Meter>, bookings: seq<Booking>, n: nat, environment: string, metric: string,
                                interval: Period, stamp: int -> string): nat
    requires n <= |bookings| && |states| == |bookings| + 1
  {
    if n == 0 then 0
    else AcceptedDuring(states, bookings, n - 1, environment, metric, interval, stamp)
         + if Accepted(states, bookings, n - 1, stamp) && Falls(bookings[n - 1].event, environment, metric, interval)
           then bookings[n - 1].event.quantity else 0
  }

  /** When a period collects two intervals that do not overlap, its counter is the sum for both. */
  lemma {:induction false} IntervalsAddUp(states: seq<Meter>, bookings: seq<Booking>, n: nat, environment: string, metric: string,
                                          period: Period, first: Period, second: Period, both: bool, stamp: int -> string)
    requires |states| == |bookings| + 1 && n <= |bookings|
    requires forall k :: 0 <= k < |bookings| ==>
               (bookings[k].period == period
                <==> Contains(first, bookings[k].event.occurredAt) || (both && Contains(second, bookings[k].event.occurredAt)))
    requires forall k :: 0 <= k < |bookings| ==>
               !(Contains(first, bookings[k].event.occurredAt) && Contains(second, bookings[k].event.occurredAt))
    ensures Metered(states, bookings, n, environment, metric, period, stamp)
            == AcceptedDuring(states, bookings, n, environment, metric, first, stamp)
               + if both then AcceptedDuring(states, bookings, n, environment, metric, second, stamp) else 0
  {
    if n > 0 {
      IntervalsAddUp(states, bookings, n - 1, environment, metric, period, first, second, both, stamp);
    }
  }

  predicate TwentiethCentury(month: int) {
    1900 <= month / 12 <= 1999
  }

  ghost predicate DatedByTheService(bookings: seq<Booking>) {
    forall n :: 0 <= n < |bookings| ==> MonthPeriod(bookings[n].event.occurredAt) == Some(bookings[n].period)
  }

  /**
   The counter of a month is what was accepted in that month, and in a month of the twentieth
   century also what was accepted for the same month nineteen centuries before.
   */
  lemma CountersAreMonths(states: seq<Meter>, bookings: seq<Booking>, n: nat, environment: string, metric: string, month: int)
    requires IsRun(states, bookings, IsoString) && n <= |bookings| && DatedByTheService(bookings)
    requires Free(environment, ':') && metric in USAGE_METRICS
    requires Bounded(WholeMonth(month)) && !(0 <= month / 12 <= 99)
    ensures At(states[n].counters, KeyIn(environment, metric, WholeMonth(month), IsoString))
            == AcceptedDuring(states, bookings, n, environment, metric, WholeMonth(month), IsoString)
               + if TwentiethCentury(month)
                 then AcceptedDuring(states, bookings, n, environment, metric, WholeMonth(month - NINETEEN_CENTURIES), IsoString)
                 else 0
  {
    IsoStringsKeepPeriodsApart();
    CountersAreSums(states, bookings, n, environment, metric, WholeMonth(month), IsoString);
    forall k | 0 <= k < |bookings|
      ensures bookings[k].period == WholeMonth(month)
              <==> || Contains(WholeMonth(month), bookings[k].event.occurredAt)
                   || (TwentiethCentury(month) && Contains(WholeMonth(month - NINETEEN_CENTURIES), bookings[k].event.occurredAt))
      ensures !(&& Contains(WholeMonth(month), bookings[k].event.occurredAt)
                && Contains(WholeMonth(month - NINETEEN_CENTURIES), bookings[k].event.occurredAt))
    {
      CollectedMonths(bookings[k].event.occurredAt, month);
    }
    IntervalsAddUp(states, bookings, n, environment, metric, WholeMonth(month), WholeMonth(month),
                   WholeMonth(month - NINETEEN_CENTURIES), TwentiethCentury(month), IsoString);
  }

  lemma CollectedMonths(t: int, month: int)
    requires Bounded(WholeMonth(month)) && !(0 <= month / 12 <= 99)
    ensures MonthPeriod(t) == Some(WholeMonth(month))
            <==> Contains(WholeMonth(month), t) || (TwentiethCentury(month) && Contains(WholeMonth(month - NINETEEN_CENTURIES), t))
    ensures !(Contains(WholeMonth(month), t) && Contains(WholeMonth(month - NINETEEN_CENTURIES), t))
  {
    InstantsOfAPeriod(t, month);
    MonthIs(t, month);
    MonthIs(t, month - NINETEEN_CENTURIES);
  }

  // ---------- what a caller is told remains ----------

  function Remaining(m: Meter, environment: string, metric: string, period: Period, hardLimit: int, stamp: int -> string): int {
    var left := hardLimit - At(m.counters, KeyIn(environment, metric, period, stamp));
    if left > 0 then left else 0
  }

  /** A new event is accepted exactly when it fits in what the usage report says remains. */
  lemma RemainingIsWhatFits(m: Meter, b: Booking, stamp: int -> string)
    requires EventKey(b.event) !in m.events && b.event.quantity > 0
    ensures Book(m, b, stamp).1.Recorded?
            <==> b.event.quantity <= Remaining(m, b.event.environment, b.event.metric, b.period, b.hardLimit, stamp)
    ensures Book(m, b, stamp).1.Recorded? ==>
              Remaining(Book(m, b, stamp).0, b.event.environment, b.event.metric, b.period, b.hardLimit, stamp)
              == Remaining(m, b.event.environment, b.event.metric, b.period, b.hardLimit, stamp) - b.event.quantity
    ensures Remaining(m, b.event.environment, b.event.metric, b.period, b.hardLimit, stamp) >= 0
    ensures b.hardLimit >= 0 ==>
              Remaining(Meter({}, map[]), b.event.environment, b.event.metric, b.period, b.hardLimit, stamp) == b.hardLimit
  {
  }

  // ---------- the service in front of the repository ----------

  /** What the caller's environment, role, subscription and plan come to at the time of a call. */
  datatype Account = Account(known: bool, allowed: bool, subscribed: bool, hardLimit: int)

  /** `occurredAt` is the parsed timestamp, or the clock; none stands for an invalid date. */
  datatype Request = Request(environment: string, metric: string, quantity: int, idempotencyKey: string, occurredAt: Option<int>)

  datatype Refusal = NotFound | Forbidden | ValidationFailed | SubscriptionInactive | BadDate | OverLimit

  const MAX_SAFE_INTEGER: int := 9_007_199_254_740_991

  predicate ValidRequest(r: Request) {
    && r.metric in USAGE_METRICS
    && 1 <= r.quantity <= MAX_SAFE_INTEGER
    && 8 <= |Trim(r.idempotencyKey)| <= 200
    && r.occurredAt.Some? && Representable(r.occurredAt.value)
  }

  /** What the service books, once every check before the repository is passed. */
  function Checked(a: Account, q: Request): (r: Result<Booking, Refusal>)
    ensures r.Ok? ==> a.known && r.value.event.environment == q.environment && r.value.event.quantity > 0
    ensures r.Ok? && Free(q.environment, ':') ==> WellFormed(r.value) && DatedByTheService([r.value])
    ensures r.Err? && r.error.BadDate? ==> ValidRequest(q) && MonthPeriod(q.occurredAt.value).None?
  {
    if !a.known then Err(NotFound)
    else if !a.allowed then Err(Forbidden)
    else if !ValidRequest(q) then Err(ValidationFailed)
    else if !a.subscribed then Err(SubscriptionInactive)
    else match MonthPeriod(q.occurredAt.value)
         case None => Err(BadDate)
         case Some(period) =>
           var event := UsageEvent(q.environment, q.metric, q.quantity, Trim(q.idempotencyKey), q.occurredAt.value);
           Ok(Booking(event, period, a.hardLimit))
  }

  /** One request, from the meter before to the meter after; the answer says whether it was a duplicate. */
  function Handled(m: Meter, a: Account, q: Request): (Meter, Result<bool, Refusal>) {
    match Checked(a, q)
    case Err(refusal) => (m, Err(refusal))
    case Ok(booking) =>
      match Book(m, booking, IsoString)
      case (after, Recorded) => (after, Ok(false))
      case (after, Duplicate) => (after, Ok(true))
      case (after, LimitExceeded) => (after, Err(OverLimit))
  }

  // ---------- what a request does, told of its own fields ----------

  /** The key of the counter that an instant's events are added to. */
  function CounterOf(environment: string, metric: string, t: int): string
    requires MonthPeriod(t).Some?
  {
    KeyIn(environment, metric, MonthPeriod(t).value, IsoString)
  }

  /** Nothing is wrong with the request itself. */
  predicate WellFormedRequest(q: Request) {
    && (q.metric == "monthly_active_members" || q.metric == "loyalty_transactions" || q.metric == "messages")
    && 1 <= q.quantity <= 9_007_199_254_740_991 && 8 <= |Trim(q.idempotencyKey)| <= 200
    && q.occurredAt.Some? && -8_640_000_000_000_000 <= q.occurredAt.value <= 8_640_000_000_000_000
  }

  /** What is refused and why, in the order of the checks: the last two look at the meter. */
  lemma AnsweredExactly(m: Meter, a: Account, q: Request)
    ensures var answer := Handled(m, a, q).1;
            if !a.known then answer == Err(NotFound)
            else if !a.allowed then answer == Err(Forbidden)
            else if !WellFormedRequest(q) then answer == Err(ValidationFailed)
            else if !a.subscribed then answer == Err(SubscriptionInactive)
            else if MonthPeriod(q.occurredAt.value).None? then answer == Err(BadDate)
            else if q.environment + ":" + (q.metric + ":" + Trim(q.idempotencyKey)) in m.events then answer == Ok(true)
            else if At(m.counters, CounterOf(q.environment, q.metric, q.occurredAt.value)) + q.quantity > a.hardLimit
            then answer == Err(OverLimit)
            else answer == Ok(false)
  {
  }

  /** An accepted request adds its quantity to the one counter of its environment, metric and month; any other changes nothing. */
  lemma RecordedAsAsked(m: Meter, a: Account, q: Request)
    ensures var (after, answer) := Handled(m, a, q);
            if answer != Ok(false) then after == m
            else
              && q.occurredAt.Some? && MonthPeriod(q.occurredAt.value).Some?
              && var key := CounterOf(q.environment, q.metric, q.occurredAt.value);
                 && after.counters.Keys == m.counters.Keys + {key} && after.counters[key] == At(m.counters, key) + q.quantity
                 && (forall other :: other in m.counters && other != key ==> after.counters[other] == m.counters[other])
                 && after.events == m.events + {q.environment + ":" + (q.metric + ":" + Trim(q.idempotencyKey))}
  {
  }

  /** The request happened in the month, or in the same month nineteen centuries before the twentieth. */
  predicate CountsFor(q: Request, environment: string, metric: string, month: int) {
    && q.environment == environment && q.metric == metric && q.occurredAt.Some?
    && (|| Contains(WholeMonth(month), q.occurredAt.value)
        || (TwentiethCentury(month) && Contains(WholeMonth(month - NINETEEN_CENTURIES), q.occurredAt.value)))
  }

  datatype Asked = Asked(account: Account, request: Request)

  /** Known environments have ids without a colon. */
  ghost predicate IsServiceRun(states: seq<Meter>, asked: seq<Asked>) {
    && |states| == |asked| + 1 && states[0] == Meter({}, map[])
    && forall n :: 0 <= n < |asked| ==>
         && (asked[n].account.known ==> Free(asked[n].request.environment, ':'))
         && states[n + 1] == Handled(states[n], asked[n].account, asked[n].request).0
  }

  /** What one request adds to the counter of a month. */
  function AddedBy(m: Meter, a: Account, q: Request, environment: string, metric: string, month: int): int {
    if Handled(m, a, q).1 == Ok(false) && CountsFor(q, environment, metric, month) then q.quantity else 0
  }

  function Total(added: seq<int>): int {
    if added == [] then 0 else Total(added[..|added| - 1]) + added[|added| - 1]
  }

  /** The quantities of the requests that were answered as new and count for a month. */
  ghost function AskedFor(states: seq<Meter>, asked: seq<Asked>, n: nat, environment: string, metric: string, month: int): int
    requires n <= |asked| < |states|
  {
    Total(seq(n, k requires 0 <= k < n => AddedBy(states[k], asked[k].account, asked[k].request, environment, metric, month)))
  }

  lemma {:induction false} TotalsAddUp(values: seq<int>, added: seq<int>)
    requires |values| == |added| + 1 && values[0] == 0
    requires forall k :: 0 <= k < |added| ==> values[k + 1] == values[k] + added[k]
    ensures values[|added|] == Total(added)
  {
    if added != [] {
      TotalsAddUp(values[..|added|], added[..|added| - 1]);
    }
  }

  lemma HandledMoves(m: Meter, a: Account, q: Request, environment: string, metric: string, month: int)
    requires (a.known ==> Free(q.environment, ':')) && Free(environment, ':') && metric in USAGE_METRICS
    requires Bounded(WholeMonth(month)) && !(0 <= month / 12 <= 99)
    ensures var key := KeyIn(environment, metric, WholeMonth(month), IsoString);
            At(Handled(m, a, q).0.counters, key)
            == At(m.counters, key) + AddedBy(m, a, q, environment, metric, month)
  {
    if Checked(a, q).Ok? {
      IsoStringsKeepPeriodsApart();
      BookMoves(m, Checked(a, q).value, environment, metric, WholeMonth(month), IsoString);
      CollectedMonths(q.occurredAt.value, month);
    }
  }

  /**
   Conservation from the request to the counter: after any sequence of requests, the counter of a month
   is the sum of what the requests that were answered as new asked to record for it.
   */
  lemma CountersAreWhatWasAsked(states: seq<Meter>, asked: seq<Asked>, n: nat, environment: string, metric: string, month: int)
    requires IsServiceRun(states, asked) && n <= |asked|
    requires Free(environment, ':') && metric in USAGE_METRICS
    requires Bounded(WholeMonth(month)) && !(0 <= month / 12 <= 99)
    ensures At(states[n].counters, KeyIn(environment, metric, WholeMonth(month), IsoString))
            == AskedFor(states, asked, n, environment, metric, month)
  {
    var key := KeyIn(environment, metric, WholeMonth(month), IsoString);
    var values := seq(n + 1, k requires 0 <= k <= n => At(states[k].counters, key));
    var added := seq(n, k requires 0 <= k < n => AddedBy(states[k], asked[k].account, asked[k].request, environment, metric, month));
    forall k | 0 <= k < n ensures values[k + 1] == values[k] + added[k] {
      HandledMoves(states[k], asked[k].account, asked[k].request, environment, metric, month);
    }
    TotalsAddUp(values, added);
  }

  class MemoryUsageRepository {
    var usageEvents: set<string>
    var usageCounters: map<string, nat>

    ghost function View(): Meter
      reads this
    {
      Meter(usageEvents, usageCounters)
    }

    constructor ()
      ensures View() == Meter({}, map[])
    {
      usageEvents, usageCounters := {}, map[];
    }

    method RecordUsage(event: UsageEvent, periodStart: string, periodEnd: string, hardLimit: int) returns (outcome: Outcome)
      modifies this
      ensures (View(), outcome) == Record(old(View()), event, periodStart, periodEnd, hardLimit)
    {
      var eventKey := EventKey(event);
      if eventKey in usageEvents {
        return Duplicate;
      }
      var counterKey := CounterKey(event.environment, event.metric, periodStart, periodEnd);
      var quantity := At(usageCounters, counterKey);
      if quantity + event.quantity > hardLimit {
        return LimitExceeded;
      }
      usageEvents := usageEvents + {eventKey};
      usageCounters := usageCounters[counterKey := quantity + event.quantity];
      return Recorded;
    }

    /** The report lists only metrics that were used. */
    method UsageForEnvironment(environment: string, periodStart: string, periodEnd: string) returns (usage: map<string, nat>)
      ensures forall metric :: metric in usage
                <==> metric in USAGE_METRICS && CounterKey(environment, metric, periodStart, periodEnd) in usageCounters
      ensures forall metric :: metric in usage ==>
                usage[metric] == usageCounters[CounterKey(environment, metric, periodStart, periodEnd)]
    {
      var metrics := ["monthly_active_members", "loyalty_transactions", "messages"];
      usage := map[];
      for i := 0 to |metrics|
        invariant forall metric :: metric in usage
                    <==> metric in metrics[..i] && CounterKey(environment, metric, periodStart, periodEnd) in usageCounters
        invariant forall metric :: metric in usage ==>
                    usage[metric] == usageCounters[CounterKey(environment, metric, periodStart, periodEnd)]
      {
        assert metrics[..i + 1] == metrics[..i] + [metrics[i]];
        var key := CounterKey(environment, metrics[i], periodStart, periodEnd);
        if key in usageCounters {
          usage := usage[metrics[i] := usageCounters[key]];
        }
      }
      assert metrics[..|metrics|] == metrics;
    }
  }

  class CloudUsageService {
    const repository: MemoryUsageRepository

    constructor (repository: MemoryUsageRepository)
      ensures this.repository == repository
    {
      this.repository := repository;
    }

    /** The result says whether the event was a duplicate. */
    method RecordUsage(account: Account, request: Request) returns (r: Result<bool, Refusal>)
      modifies repository
      ensures (repository.View(), r) == Handled(old(repository.View()), account, request)
    {
      if !account.known {
        return Err(NotFound);
      }
      if !account.allowed {
        return Err(Forbidden);
      }
      if request.metric !in USAGE_METRICS || !(1 <= request.quantity <= MAX_SAFE_INTEGER) {
        return Err(ValidationFailed);
      }
      var idempotencyKey := Trim(request.idempotencyKey);
      if |idempotencyKey| < 8 || |idempotencyKey| > 200 {
        return Err(ValidationFailed);
      }
      if request.occurredAt.None? || !Representable(request.occurredAt.value) {
        return Err(ValidationFailed);
      }
      if !account.subscribed {
        return Err(SubscriptionInactive);
      }
      var period := MonthPeriod(request.occurredAt.value);
      if period.None? {
        return Err(BadDate);
      }
      var event := UsageEvent(request.environment, request.metric, request.quantity, idempotencyKey, request.occurredAt.value);
      var outcome := repository.RecordUsage(event, IsoString(period.value.start), IsoString(period.value.end), account.hardLimit);
      if outcome.LimitExceeded? {
        return Err(OverLimit);
      }
      return Ok(outcome.Duplicate?);
    }
  }
}
