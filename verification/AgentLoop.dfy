/**
 The agent's store-and-forward loop: a bounded queue of readings, sends that are acknowledged,
 rejected or to be retried, results riding along, and exponential backoff.

 Ghost fields keep the history; `Valid` says what the history and the state have to do with each
 other, and holds after every call, whatever the platform answers and whatever the clock reads.
 */
module AgentLoop {

  import opened Wrappers
  import opened Sequences
  import opened FixProcesses
  import FixProtocol
  import SpoolDirectory
  import Mailbox
  import Spool

  // Times and durations are nanoseconds.
  const SECOND: int := 1_000_000_000
  const MAX_BACKOFF: int := 300 * SECOND
  const MIN_INTERVAL: int := 5 * SECOND
  const MAX_INTERVAL: int := 600 * SECOND
  const BUFFER_CAPACITY: nat := 720
  const MAX_SENDS_PER_TICK: nat := 8

  // ----- the queue -----

  class Buffer<T> {
    var items: seq<T>
    const capacity: nat

    constructor (capacity: nat)
      ensures items == [] && this.capacity == capacity
    {
      items, this.capacity := [], capacity;
    }

    /** Appends a reading; a full queue gives up its oldest one. */
    method Push(sample: T) returns (dropped: bool)
      requires 0 < capacity && |items| <= capacity
      modifies this
      ensures dropped <==> |old(items)| == capacity
      ensures items == (if dropped then old(items)[1..] else old(items)) + [sample]
    {
      dropped := false;
      if |items| >= capacity {
        items := items[1..];
        dropped := true;
      }
      items := items + [sample];
    }

    method Peek() returns (sample: Option<T>)
      ensures sample == if items == [] then None else Some(items[0])
    {
      if |items| == 0 { return None; }
      return Some(items[0]);
    }

    method Pop()
      modifies this
      ensures items == if old(items) == [] then [] else old(items)[1..]
    {
      if |items| > 0 { items := items[1..]; }
    }
  }

  // ----- what the platform may answer -----

  datatype SendError = SendError(retryable: bool, retryAfter: int)

  // An error that is not a SendError counts as one worth retrying.
  datatype Reply = Accepted(nextIntervalSeconds: int, authorised: seq<Approval>) | Failed(error: Option<SendError>)

  predicate Retries(reply: Reply) {
    reply.Failed? && (reply.error == None || reply.error.value.retryable)
  }

  // ----- history -----

  datatype Fate = Evicted | Acknowledged | Rejected

  datatype Note = OutageStarts | OutageEnds

  // What one send carries: a reading, and every result not delivered yet.
  datatype Envelope<Sample, Result> = Envelope(sample: Sample, results: seq<Result>)

  function Parcels<Sample, Result>(envelopes: seq<Envelope<Sample, Result>>): seq<seq<Result>> {
    if envelopes == [] then [] else Parcels(Init(envelopes)) + [Last(envelopes).results]
  }

  function Samples<Sample, Result>(envelopes: seq<Envelope<Sample, Result>>): seq<Sample> {
    if envelopes == [] then [] else Samples(Init(envelopes)) + [Last(envelopes).sample]
  }

  /** Of the readings pushed, those that met this fate, in the order they were pushed. */
  function Met<T>(pushed: seq<T>, fates: seq<Fate>, fate: Fate): seq<T>
    requires |fates| <= |pushed|
  {
    if fates == [] then []
    else Met(pushed, Init(fates), fate) + if Last(fates) == fate then [pushed[|fates| - 1]] else []
  }

  lemma {:induction false} MetBefore<T>(pushed: seq<T>, more: seq<T>, fates: seq<Fate>, fate: Fate)
    requires |fates| <= |pushed|
    ensures Met(pushed + more, fates, fate) == Met(pushed, fates, fate)
  {
    if fates != [] { MetBefore(pushed, more, Init(fates), fate); }
  }

  lemma MetNext<T>(pushed: seq<T>, fates: seq<Fate>, next: Fate, fate: Fate)
    requires |fates| < |pushed|
    ensures Met(pushed, fates + [next], fate)
         == Met(pushed, fates, fate) + if next == fate then [pushed[|fates|]] else []
  {
    Snoc(fates, next);
  }

  /** The outage notes strictly alternate, starting with a start; one is open exactly when `open` says. */
  ghost predicate Alternating(notes: seq<Note>, open: bool) {
    && (forall i :: 0 <= i < |notes| ==> notes[i] == if i % 2 == 0 then OutageStarts else OutageEnds)
    && (open <==> |notes| % 2 == 1)
  }

  function ClampInterval(d: int): int {
    if d < MIN_INTERVAL then MIN_INTERVAL else if d > MAX_INTERVAL then MAX_INTERVAL else d
  }

  // The value a 64-bit signed product wraps round to.
  function Wrap64(x: int): int {
    (x + 0x8000_0000_0000_0000) % 0x1_0000_0000_0000_0000 - 0x8000_0000_0000_0000
  }

  // ----- backoff -----

  function Pow2(n: nat): nat {
    if n == 0 then 1 else 2 * Pow2(n - 1)
  }

  function Min(a: int, b: int): int {
    if a <= b then a else b
  }

  /** The wait after `failures` failures in a row, without a Retry-After. */
  function Wait(interval: int, failures: nat): int {
    Min(Doubled(interval, if failures > 0 then failures - 1 else 0), MAX_BACKOFF)
  }

  function Doubled(interval: int, n: nat): int {
    interval * Pow2(n)
  }

  lemma DoubledOnce(interval: int, n: nat)
    ensures Doubled(interval, n + 1) == 2 * Doubled(interval, n) && Doubled(interval, 0) == interval
  {
    var p := Pow2(n);
    assert interval * (2 * p) == 2 * (interval * p);
  }

  lemma {:induction false} DoublingGrows(interval: int, i: nat, n: nat)
    requires i <= n && interval > 0
    ensures 0 < Doubled(interval, i) <= Doubled(interval, n)
  {
    if n == 0 {
      DoubledOnce(interval, 0);
    } else {
      DoubledOnce(interval, n - 1);
      DoublingGrows(interval, if i < n then i else n - 1, n - 1);
    }
  }

  /** The wait never shrinks from one failure to the next, and never exceeds the ceiling. */
  lemma WaitGrows(interval: int, m: nat, n: nat)
    requires 0 < interval && m <= n
    ensures Wait(interval, m) <= Wait(interval, n) <= 300_000_000_000
  {
    DoublingGrows(interval, if m > 0 then m - 1 else 0, if n > 0 then n - 1 else 0);
  }

  /** Five minutes at most; the interval itself after the first failure, and twice as long after each further one. */
  lemma WaitDoubles(interval: int, n: nat)
    requires 0 < interval
    ensures Wait(interval, 1) == if interval <= 300_000_000_000 then interval else 300_000_000_000
    ensures n > 0 ==>
      var next := 2 * Wait(interval, n);
      Wait(interval, n + 1) == if next <= 300_000_000_000 then next else 300_000_000_000
  {
    DoubledOnce(interval, 0);
    if n > 0 {
      DoubledOnce(interval, n - 1);
      DoublingGrows(interval, n - 1, n);
    }
  }

  // ----- the cadence -----

  /** A cadence of five seconds to ten minutes is taken as it is, any other at the nearer end of that range. */
  lemma ClampedIs(d: int)
    ensures 5_000_000_000 <= d <= 600_000_000_000 ==> ClampInterval(d) == d
    ensures d < 5_000_000_000 ==> ClampInterval(d) == 5_000_000_000
    ensures d > 600_000_000_000 ==> ClampInterval(d) == 600_000_000_000
  {
  }

  /** What a 64-bit product is: the one number of that width that differs from it by a multiple of 2^64. */
  lemma Wrap64Is(x: int)
    ensures -0x8000_0000_0000_0000 <= Wrap64(x) < 0x8000_0000_0000_0000
    ensures (x - Wrap64(x)) % 0x1_0000_0000_0000_0000 == 0
    ensures -0x8000_0000_0000_0000 <= x < 0x8000_0000_0000_0000 ==> Wrap64(x) == x
  {
  }

  /** The seconds asked for, as long as they fit in 64 bits of nanoseconds, and within five seconds and ten minutes. */
  lemma CadenceIsTheOneAsked(seconds: int)
    requires 0 < seconds <= 9_223_372_036
    ensures ClampInterval(Wrap64(seconds * SECOND))
         == 1_000_000_000 * if seconds < 5 then 5 else if seconds > 600 then 600 else seconds
  {
    Wrap64Is(seconds * 1_000_000_000);
    ClampedIs(seconds * 1_000_000_000);
  }

  // ----- how far a tick gets -----

  /** How many sends are acknowledged, from the `i`-th on, before one fails or the queue or the allowance is used up. */
  function Streak(reply: nat -> Reply, i: nat, queued: nat): (k: nat)
    requires i <= MAX_SENDS_PER_TICK && i <= queued
    ensures i <= k <= MAX_SENDS_PER_TICK && k <= queued
    decreases MAX_SENDS_PER_TICK - i
  {
    if i == MAX_SENDS_PER_TICK || i == queued || reply(i).Failed? then i else Streak(reply, i + 1, queued)
  }

  // `k` acknowledged envelopes: the oldest readings in order, and all results in the first.
  function Rode<Sample, Result>(items: seq<Sample>, pending: seq<Result>, k: nat): seq<Envelope<Sample, Result>>
    requires k <= |items|
  {
    if k == 0 then [] else Rode(items, pending, k - 1) + [Envelope(items[k - 1], if k == 1 then pending else [])]
  }

  /** The fixes authorised by the first `k` replies, in order. */
  function AuthorisedBy(reply: nat -> Reply, k: nat): seq<Approval> {
    if k == 0 then []
    else AuthorisedBy(reply, k - 1) + if reply(k - 1).Accepted? then reply(k - 1).authorised else []
  }

  function Acknowledgements(k: nat): seq<Fate> {
    if k == 0 then [] else Acknowledgements(k - 1) + [Acknowledged]
  }

  // What the sends work on: the queue, what became of the readings before it, the results to carry, and the
  // fixes the platform has authorised so far.
  datatype Load<Sample, Result> = Load(
    items: seq<Sample>, fates: seq<Fate>, acked: seq<Envelope<Sample, Result>>, pending: seq<Result>,
    authorised: seq<Approval>)

  /** One send of the oldest reading with every pending result. */
  function SentOne<Sample, Result>(l: Load<Sample, Result>, reply: Reply): Load<Sample, Result>
    requires l.items != []
  {
    if reply.Accepted? then
      Load(l.items[1..], l.fates + [Acknowledged], l.acked + [Envelope(l.items[0], l.pending)], [],
           l.authorised + reply.authorised)
    else if Retries(reply) then l
    else l.(items := l.items[1..], fates := l.fates + [Rejected])
  }

  /** The sends of a flush from the `sent`-th on. */
  function Flushed<Sample, Result>(l: Load<Sample, Result>, reply: nat -> Reply, sent: nat): Load<Sample, Result>
    requires sent <= MAX_SENDS_PER_TICK
    decreases MAX_SENDS_PER_TICK - sent
  {
    if sent == MAX_SENDS_PER_TICK || l.items == [] then l
    else if reply(sent).Failed? then SentOne(l, reply(sent))
    else Flushed(SentOne(l, reply(sent)), reply, sent + 1)
  }

  /** A reading pushed onto the queue, at the cost of the oldest if it is full. */
  function Queued<Sample, Result>(l: Load<Sample, Result>, capacity: nat, sample: Sample): Load<Sample, Result> {
    if |l.items| >= capacity && l.items != []
    then l.(items := l.items[1..] + [sample], fates := l.fates + [Evicted])
    else l.(items := l.items + [sample])
  }

  function Read<Result>(results: Option<seq<Result>>): seq<Result> {
    if results == None then [] else results.value
  }

  /** A tick with a reading: queue it, take the results in, and flush unless it is too early. */
  function Ticked<Sample, Result>(l: Load<Sample, Result>, capacity: nat, sample: Sample, results: Option<seq<Result>>,
                                  reply: nat -> Reply, waiting: bool): Load<Sample, Result> {
    var q := Queued(l, capacity, sample).(pending := l.pending + Read(results));
    if waiting then q else Flushed(q, reply, 0)
  }

  lemma OneMoreAcknowledged<Sample, Result>(
    fates: seq<Fate>, acked: seq<Envelope<Sample, Result>>, items: seq<Sample>, pending: seq<Result>, k: nat)
    requires k < |items|
    ensures fates + Acknowledgements(k) + [Acknowledged] == fates + Acknowledgements(k + 1)
    ensures acked + Rode(items, pending, k) + [Envelope(items[k], if k == 0 then pending else [])]
         == acked + Rode(items, pending, k + 1)
  {
  }

  lemma SpooledFurther(r: FixProtocol.Rules, files: map<string, Mailbox.File>, before: seq<Approval>,
                       now: seq<Approval>, more: seq<Approval>)
    requires before <= now
    ensures before <= now + more
    ensures Spooled(r, Spooled(r, files, now[|before|..]), more) == Spooled(r, files, (now + more)[|before|..])
  {
    SpooledInTurn(r, files, now[|before|..], more);
    assert (now + more)[|before|..] == now[|before|..] + more;
  }

  lemma OneMoreEnvelope<Sample, Result>(envelopes: seq<Envelope<Sample, Result>>, last: Envelope<Sample, Result>)
    ensures Samples(envelopes + [last]) == Samples(envelopes) + [last.sample]
    ensures Flat(Parcels(envelopes + [last])) + [] == Flat(Parcels(envelopes)) + last.results
  {
    Snoc(envelopes, last);
    FlatSnoc(Parcels(envelopes), last.results);
  }

  lemma SentOneOfMany<Sample, Result>(l: Load<Sample, Result>, k: nat, reply: nat -> Reply)
    requires k < |l.items| && reply(k).Accepted?
    ensures SentOne(Granted(l, reply, k), reply(k)) == Granted(l, reply, k + 1)
  {
    OneMoreAcknowledged(l.fates, l.acked, l.items, l.pending, k);
    Associative(l.authorised, AuthorisedBy(reply, k), reply(k).authorised);
    assert l.items[k..][1..] == l.items[k + 1..];
  }

  lemma FlushedOne<Sample, Result>(l: Load<Sample, Result>, k: nat, reply: nat -> Reply)
    requires k < |l.items| && k < MAX_SENDS_PER_TICK && reply(k).Accepted?
    ensures Flushed(Granted(l, reply, k), reply, k) == Flushed(Granted(l, reply, k + 1), reply, k + 1)
  {
    SentOneOfMany(l, k, reply);
  }

  /** The load after `k` acknowledged sends. */
  function Granted<Sample, Result>(l: Load<Sample, Result>, reply: nat -> Reply, k: nat): Load<Sample, Result>
    requires k <= |l.items|
  {
    Load(l.items[k..], l.fates + Acknowledgements(k), l.acked + Rode(l.items, l.pending, k),
         if k == 0 then l.pending else [], l.authorised + AuthorisedBy(reply, k))
  }

  lemma {:induction false} FlushedPast<Sample, Result>(l: Load<Sample, Result>, reply: nat -> Reply, k: nat)
    requires k <= MAX_SENDS_PER_TICK && k <= |l.items| && forall j :: 0 <= j < k ==> reply(j).Accepted?
    ensures Flushed(Granted(l, reply, 0), reply, 0) == Flushed(Granted(l, reply, k), reply, k)
  {
    if k > 0 {
      FlushedPast(l, reply, k - 1);
      FlushedOne(l, k - 1, reply);
    }
  }

  lemma FlushedLast<Sample, Result>(l: Load<Sample, Result>, reply: nat -> Reply, k: nat)
    requires k <= MAX_SENDS_PER_TICK && k <= |l.items|
    requires k < |l.items| && k < MAX_SENDS_PER_TICK ==> reply(k).Failed?
    ensures Flushed(Granted(l, reply, k), reply, k)
         == if k < |l.items| && k < MAX_SENDS_PER_TICK then SentOne(Granted(l, reply, k), reply(k))
            else Granted(l, reply, k)
  {
  }

  lemma GrantedNone<Sample, Result>(l: Load<Sample, Result>, reply: nat -> Reply)
    ensures Granted(l, reply, 0) == l
  {
    assert l.items[0..] == l.items && l.fates + [] == l.fates && l.acked + [] == l.acked;
    assert l.authorised + [] == l.authorised;
  }

  /** `k` acknowledged and, perhaps, one rejected after them. */
  function Delivered<Sample, Result>(l: Load<Sample, Result>, reply: nat -> Reply, k: nat, rejected: bool)
    : Load<Sample, Result>
    requires k + (if rejected then 1 else 0) <= |l.items|
  {
    if rejected
    then Load(l.items[k + 1..], l.fates + Acknowledgements(k) + [Rejected], l.acked + Rode(l.items, l.pending, k),
              if k == 0 then l.pending else [], l.authorised + AuthorisedBy(reply, k))
    else Granted(l, reply, k)
  }

  // The send after `k` acknowledged ones, if it fails.
  lemma StopsAfter<Sample, Result>(l: Load<Sample, Result>, k: nat, reply: nat -> Reply)
    requires k < |l.items| && reply(k).Failed?
    ensures SentOne(Granted(l, reply, k), reply(k)) == Delivered(l, reply, k, !Retries(reply(k)))
  {
    assert l.items[k..][1..] == l.items[k + 1..];
  }

  /**
   A flush delivers the oldest readings in order, as many as the platform acknowledges in a row and at most
   eight, with all pending results in the first, and takes in what those acknowledgements
   authorise; a send that is rejected then costs its own reading, and one to be retried costs nothing.
   */
  lemma {:induction false} FlushSends<Sample, Result>(l: Load<Sample, Result>, reply: nat -> Reply)
    ensures var n, k := |l.items|, Streak(reply, 0, |l.items|);
      && k <= 8 && k <= n && (forall i :: 0 <= i < k ==> reply(i).Accepted?)
      && (k < n && k < 8 ==> reply(k).Failed?)
      && Flushed(l, reply, 0)
           == Delivered(l, reply, k, k < n && k < 8 && reply(k).error.Some? && !reply(k).error.value.retryable)
  {
    var k := Streak(reply, 0, |l.items|);
    GrantedNone(l, reply);
    StreakStops(reply, 0, |l.items|);
    FlushedPast(l, reply, k);
    FlushedLast(l, reply, k);
    if k < |l.items| && k < MAX_SENDS_PER_TICK { StopsAfter(l, k, reply); }
  }

  lemma {:induction false} StreakStops(reply: nat -> Reply, i: nat, queued: nat)
    requires i <= MAX_SENDS_PER_TICK && i <= queued
    ensures var k := Streak(reply, i, queued); k < queued && k < MAX_SENDS_PER_TICK ==> reply(k).Failed?
    ensures forall j :: i <= j < Streak(reply, i, queued) ==> reply(j).Accepted?
    decreases MAX_SENDS_PER_TICK - i
  {
    if i < MAX_SENDS_PER_TICK && i < queued && reply(i).Accepted? { StreakStops(reply, i + 1, queued); }
  }

  // ----- the agent -----

  class Agent<Sample, Result> {
    const queue: Buffer<Sample>
    const rules: FixProtocol.Rules
    const requests: SpoolDirectory.Directory<Spool.Request>
    var interval: int
    var requested: int                 // 0 when the platform has not asked
    var pendingResults: seq<Result>
    var consecutiveFailures: nat
    var nextAttempt: Option<int>       // None is the zero time
    var loggedOutage: bool

    ghost var pushed: seq<Sample>      // every reading taken
    ghost var fates: seq<Fate>         // what became of the first of them, in order
    ghost var taken: seq<Result>       // every result taken from the spool
    ghost var acked: seq<Envelope<Sample, Result>>  // the acknowledged envelopes
    ghost var authorised: seq<Approval>  // every fix the platform authorised, in order
    ghost var notes: seq<Note>         // the outage lines of the journal

    /** The queue is the contiguous tail of what was pushed; everything before it has one fate. */
    ghost predicate QueueIsTail()
      reads this, queue
    {
      0 < queue.capacity && |queue.items| <= queue.capacity
      && |fates| <= |pushed| && queue.items == pushed[|fates|..]
    }

    /** What the platform acknowledged are the readings so marked, in the order they were pushed. */
    ghost predicate SamplesRight()
      reads this
    {
      |fates| <= |pushed| && Samples(acked) == Met(pushed, fates, Acknowledged)
    }

    /** Every result taken rode in exactly one acknowledged envelope, in order, or is still pending. */
    ghost predicate ResultsRide()
      reads this
    {
      Flat(Parcels(acked)) + pendingResults == taken
    }

    ghost predicate OutageRight()
      reads this
    {
      && (loggedOutage <==> consecutiveFailures > 0)
      && (nextAttempt.Some? <==> consecutiveFailures > 0)
      && Alternating(notes, loggedOutage)
    }

    ghost predicate Cadence()
      reads this
    {
      MIN_INTERVAL <= interval <= MAX_INTERVAL && (requested != 0 ==> MIN_INTERVAL <= requested <= MAX_INTERVAL)
    }

    ghost function Now(): Load<Sample, Result>
      reads this, queue
    {
      Load(queue.items, fates, acked, pendingResults, authorised)
    }

    ghost predicate CanSpool()
      reads this
    {
      FixProtocol.GoodRules(rules) && requests.c == rules.requests
    }

    /** Since then, the fixes authorised were handed to the spool, one by one, and nothing else was. */
    ghost predicate SpooledSince(files: map<string, Mailbox.File>, before: seq<Approval>)
      reads this, requests
    {
      before <= authorised && requests.files == Spooled(rules, files, authorised[|before|..])
    }

    ghost predicate Waiting(now: int)
      reads this
    {
      nextAttempt.Some? && now < nextAttempt.value
    }

    ghost predicate Valid()
      reads this, queue
    {
      QueueIsTail() && SamplesRight() && ResultsRide() && OutageRight() && Cadence() && CanSpool()
    }

    constructor (interval: int, rules: FixProtocol.Rules, requests: SpoolDirectory.Directory<Spool.Request>)
      requires MIN_INTERVAL <= interval <= MAX_INTERVAL
      requires FixProtocol.GoodRules(rules) && requests.c == rules.requests
      ensures Valid() && fresh(queue) && queue.capacity == 720 && pushed == [] && taken == []
      ensures nextAttempt == None && this.interval == interval && this.rules == rules && this.requests == requests
    {
      this.rules, this.requests := rules, requests;
      queue := new Buffer<Sample>(BUFFER_CAPACITY);
      this.interval, requested, pendingResults := interval, 0, [];
      consecutiveFailures, nextAttempt, loggedOutage := 0, None, false;
      pushed, fates, taken, acked, authorised, notes := [], [], [], [], [], [];
    }

    /** Doubles the wait on each failure up to the ceiling; `peak` is the largest value it went through. */
    method Backoff(retryAfter: int) returns (wait: int, ghost peak: int)
      ensures retryAfter > 0 ==> wait == retryAfter
      ensures retryAfter <= 0 ==> wait == Wait(interval, consecutiveFailures)
      ensures interval <= 2 * MAX_BACKOFF ==> peak <= 2 * MAX_BACKOFF
    {
      peak := interval;
      if retryAfter > 0 { return retryAfter, peak; }
      wait := interval;
      DoubledOnce(interval, 0);
      var i := 1;
      ghost var doublings := 0;
      while i < consecutiveFailures && wait < MAX_BACKOFF
        invariant 1 <= i && i == doublings + 1
        invariant consecutiveFailures > 0 ==> i <= consecutiveFailures
        invariant consecutiveFailures == 0 ==> i == 1
        invariant wait == Doubled(interval, doublings)
        invariant interval <= 2 * MAX_BACKOFF ==> wait <= 2 * MAX_BACKOFF && peak <= 2 * MAX_BACKOFF
        decreases consecutiveFailures - i
      {
        DoubledOnce(interval, doublings);
        wait := wait * 2;
        doublings := doublings + 1;
        i := i + 1;
        if wait > peak { peak := wait; }
      }
      if i < consecutiveFailures && interval > 0 { DoublingGrows(interval, doublings, consecutiveFailures - 1); }
      if wait > MAX_BACKOFF { wait := MAX_BACKOFF; }
    }

    // The oldest reading leaves the queue with this fate.
    method Retire(fate: Fate)
      requires QueueIsTail() && queue.items != []
      modifies queue, this`fates
      ensures QueueIsTail() && queue.items == old(queue.items)[1..] && fates == old(fates) + [fate]
    {
      queue.Pop();
      fates := fates + [fate];
    }

    method HandleSendError(error: Option<SendError>, now: int)
      requires Valid() && queue.items != []
      modifies queue, this`fates, this`consecutiveFailures, this`nextAttempt, this`loggedOutage, this`notes
      ensures Valid()
      ensures if error == None || error.value.retryable then
          && queue.items == old(queue.items) && fates == old(fates)
          && consecutiveFailures == old(consecutiveFailures) + 1
          && nextAttempt == Some(now + if error.Some? && error.value.retryAfter > 0 then error.value.retryAfter
                                       else Wait(interval, consecutiveFailures))
        else
          && queue.items == old(queue.items)[1..] && fates == old(fates) + [Rejected]
          && consecutiveFailures == old(consecutiveFailures) && nextAttempt == old(nextAttempt)
      ensures var starts := (error == None || error.value.retryable) && old(consecutiveFailures) == 0;
        notes == old(notes) + if starts then [OutageStarts] else []
    {
      var sendError := if error == None then SendError(true, 0) else error.value;
      if sendError.retryable {
        Postpone(sendError.retryAfter, now);
      } else {
        MetNext(pushed, fates, Rejected, Acknowledged);
        Retire(Rejected);
      }
    }

    method Postpone(retryAfter: int, now: int)
      requires OutageRight()
      modifies this`consecutiveFailures, this`nextAttempt, this`loggedOutage, this`notes
      ensures OutageRight() && consecutiveFailures == old(consecutiveFailures) + 1
      ensures nextAttempt == Some(now + if retryAfter > 0 then retryAfter else Wait(interval, consecutiveFailures))
      ensures notes == old(notes) + if old(consecutiveFailures) == 0 then [OutageStarts] else []
    {
      consecutiveFailures := consecutiveFailures + 1;
      var wait, _ := Backoff(retryAfter);
      nextAttempt := Some(now + wait);
      if !loggedOutage {
        loggedOutage := true;
        notes := notes + [OutageStarts];
      }
    }

    method OnSuccess(nextIntervalSeconds: int, approvals: seq<Approval>)
      requires OutageRight() && Cadence() && CanSpool()
      modifies requests, this`authorised, this`consecutiveFailures, this`nextAttempt, this`loggedOutage, this`notes,
        this`requested
      ensures OutageRight() && Cadence() && consecutiveFailures == 0 && nextAttempt == None
      ensures authorised == old(authorised) + approvals
      ensures requests.files == Spooled(rules, old(requests.files), approvals)
      ensures requested == if nextIntervalSeconds <= 0 then old(requested)
                           else ClampInterval(Wrap64(nextIntervalSeconds * SECOND))
      ensures notes == old(notes) + if old(consecutiveFailures) > 0 then [OutageEnds] else []
    {
      if loggedOutage {
        notes := notes + [OutageEnds];
        loggedOutage := false;
      }
      consecutiveFailures := 0;
      nextAttempt := None;
      if nextIntervalSeconds > 0 {
        requested := ClampInterval(Wrap64(nextIntervalSeconds * SECOND));
      }
      SpoolAuthorised(rules, requests, approvals);
      authorised := authorised + approvals;
    }

    /** One send: the oldest reading with every pending result. */
    method SendOldest(sample: Sample, reply: Reply, clock: int) returns (accepted: bool)
      requires Valid() && queue.items != [] && sample == queue.items[0]
      modifies queue, requests, this`fates, this`acked, this`authorised, this`pendingResults,
        this`consecutiveFailures, this`nextAttempt, this`loggedOutage, this`notes, this`requested
      ensures Valid() && accepted == reply.Accepted? && Now() == SentOne(old(Now()), reply)
      ensures requests.files == Spooled(rules, old(requests.files), if reply.Accepted? then reply.authorised else [])
      ensures accepted ==> nextAttempt == None
      ensures accepted ==> notes == old(notes) + if old(consecutiveFailures) > 0 then [OutageEnds] else []
      ensures !accepted ==>
        notes == old(notes) + if Retries(reply) && old(consecutiveFailures) == 0 then [OutageStarts] else []
    {
      var envelope := Envelope(sample, pendingResults);
      match reply {
        case Failed(error) =>
          HandleSendError(error, clock);
          accepted := false;
        case Accepted(next, approvals) =>
          LetGo(envelope);
          OnSuccess(next, approvals);
          accepted := true;
      }
    }

    // The platform has taken the envelope: neither its reading nor its results are needed any more.
    method LetGo(envelope: Envelope<Sample, Result>)
      requires QueueIsTail() && SamplesRight() && ResultsRide() && queue.items != []
      requires envelope == Envelope(queue.items[0], pendingResults)
      modifies queue, this`fates, this`acked, this`pendingResults
      ensures QueueIsTail() && SamplesRight() && ResultsRide()
      ensures fates == old(fates) + [Acknowledged] && queue.items == old(queue.items)[1..]
      ensures acked == old(acked) + [envelope] && pendingResults == []
    {
      OneMoreEnvelope(acked, envelope);
      MetNext(pushed, fates, Acknowledged, Acknowledged);
      acked := acked + [envelope];
      pendingResults := [];
      Retire(Acknowledged);
    }

    /** Sends until one fails, the queue is empty or the allowance is used up; nothing while backing off. */
    method Flush(now: int, reply: nat -> Reply, clock: nat -> int)
      requires Valid()
      modifies queue, requests, this`fates, this`acked, this`authorised, this`pendingResults,
        this`consecutiveFailures, this`nextAttempt, this`loggedOutage, this`notes, this`requested
      ensures Valid() && Now() == if old(Waiting(now)) then old(Now()) else Flushed(old(Now()), reply, 0)
      ensures SpooledSince(old(requests.files), old(authorised))
      ensures old(Waiting(now)) <==> old(nextAttempt).Some? && now < old(nextAttempt).value
      ensures old(Waiting(now)) ==> nextAttempt == old(nextAttempt) && notes == old(notes)
      ensures !old(Waiting(now)) && old(queue.items) != [] && (forall i :: reply(i).Accepted?) ==> nextAttempt == None
    {
      if !(nextAttempt.Some? && now < nextAttempt.value) { SendQueued(reply, clock); }
    }

    method SendQueued(reply: nat -> Reply, clock: nat -> int)
      requires Valid()
      modifies queue, requests, this`fates, this`acked, this`authorised, this`pendingResults,
        this`consecutiveFailures, this`nextAttempt, this`loggedOutage, this`notes, this`requested
      ensures Valid() && Now() == Flushed(old(Now()), reply, 0)
      ensures SpooledSince(old(requests.files), old(authorised))
      ensures old(queue.items) != [] && (forall i :: reply(i).Accepted?) ==> nextAttempt == None
    {
      for sent := 0 to MAX_SENDS_PER_TICK
        invariant Valid() && Flushed(Now(), reply, sent) == Flushed(old(Now()), reply, 0)
        invariant sent == 0 ==> queue.items == old(queue.items)
        invariant sent > 0 ==> nextAttempt == None
        invariant SpooledSince(old(requests.files), old(authorised))
      {
        var sample := queue.Peek();
        if sample.None? { return; }
        SpooledFurther(rules, old(requests.files), old(authorised), authorised,
                       if reply(sent).Accepted? then reply(sent).authorised else []);
        var accepted := SendOldest(sample.value, reply(sent), clock(sent));
        if !accepted { return; }
      }
    }

    method CollectResults(results: Option<seq<Result>>)
      requires Valid()
      modifies this`pendingResults, this`taken
      ensures Valid() && taken == old(taken) + Read(results) && pendingResults == old(pendingResults) + Read(results)
    {
      if results.Some? {
        Associative(Flat(Parcels(acked)), pendingResults, results.value);
        pendingResults := pendingResults + results.value;
        taken := taken + results.value;
      }
    }

    method TakeReading(sample: Sample)
      requires Valid()
      modifies queue, this`pushed, this`fates
      ensures Valid() && pushed == old(pushed) + [sample] && Now() == Queued(old(Now()), queue.capacity, sample)
    {
      MetBefore(pushed, [sample], fates, Acknowledged);
      MetNext(pushed + [sample], fates, Evicted, Acknowledged);
      var dropped := queue.Push(sample);
      if dropped { fates := fates + [Evicted]; }
      pushed := pushed + [sample];
    }

    /** A tick without a reading does nothing; one with a reading queues it, collects results and flushes. */
    method Tick(reading: Option<Sample>, results: Option<seq<Result>>, now: int, reply: nat -> Reply, clock: nat -> int)
      requires Valid()
      modifies queue, requests, this`pushed, this`fates, this`taken, this`acked, this`authorised, this`pendingResults,
        this`consecutiveFailures, this`nextAttempt, this`loggedOutage, this`notes, this`requested
      ensures SpooledSince(old(requests.files), old(authorised))
      ensures Valid() && pushed == old(pushed) + if reading == None then [] else [reading.value]
      ensures reading == None ==> Now() == old(Now()) && taken == old(taken) && nextAttempt == old(nextAttempt)
      ensures reading.Some? ==>
        && taken == old(taken) + Read(results)
        && Now() == Ticked(old(Now()), queue.capacity, reading.value, results, reply, old(Waiting(now)))
      ensures reading.Some? && !old(Waiting(now)) && (forall i :: reply(i).Accepted?) ==> nextAttempt == None
    {
      if reading.Some? {
        TakeReading(reading.value);
        CollectResults(results);
        Flush(now, reply, clock);
      }
    }

    /** One turn of the loop: a tick, then the cadence the platform asked for. */
    method Turn(reading: Option<Sample>, results: Option<seq<Result>>, now: int, reply: nat -> Reply, clock: nat -> int)
      requires Valid()
      modifies this, queue, requests
      ensures SpooledSince(old(requests.files), old(authorised))
      ensures Valid() && pushed == old(pushed) + if reading == None then [] else [reading.value]
      ensures interval == if requested == 0 then old(interval) else requested
      ensures reading == None ==> Now() == old(Now()) && taken == old(taken)
      ensures reading.Some? ==>
        && taken == old(taken) + Read(results)
        && Now() == Ticked(old(Now()), queue.capacity, reading.value, results, reply, old(Waiting(now)))
    {
      Tick(reading, results, now, reply, clock);
      var pending := PendingInterval();
      if interval != pending { interval := pending; }
    }

    function PendingInterval(): int
      reads this
    {
      if requested == 0 then interval else requested
    }
  }

  lemma {:induction false} AllAccepted(reply: nat -> Reply, i: nat, queued: nat)
    requires i <= MAX_SENDS_PER_TICK && i <= queued && forall j :: reply(j).Accepted?
    ensures Streak(reply, i, queued) == if queued < MAX_SENDS_PER_TICK then queued else MAX_SENDS_PER_TICK
    decreases MAX_SENDS_PER_TICK - i
  {
    if i < MAX_SENDS_PER_TICK && i < queued { AllAccepted(reply, i + 1, queued); }
  }

  // ----- the backlog drains -----

  /** The queue after a tick whose reading succeeds and whose sends are all acknowledged. */
  function AfterTick(capacity: nat, queued: nat): nat {
    var pushed := if queued == capacity then capacity else queued + 1;
    if pushed <= MAX_SENDS_PER_TICK then 0 else pushed - MAX_SENDS_PER_TICK
  }

  lemma TickGranted<Sample, Result>(l: Load<Sample, Result>, capacity: nat, sample: Sample,
                                    results: Option<seq<Result>>, reply: nat -> Reply)
    requires 0 < capacity && |l.items| <= capacity && forall i :: reply(i).Accepted?
    ensures var after := Ticked(l, capacity, sample, results, reply, false);
      var queued := if |l.items| == capacity then capacity else |l.items| + 1;
      && |after.items| == (if queued <= 8 then 0 else queued - 8) && |after.items| == AfterTick(capacity, |l.items|)
      && after.pending == []
  {
    var q := Queued(l, capacity, sample).(pending := l.pending + Read(results));
    FlushSends(q, reply);
    AllAccepted(reply, 0, |q.items|);
  }

  function AfterTicks(capacity: nat, queued: nat, ticks: nat): nat {
    if ticks == 0 then queued else AfterTick(capacity, AfterTicks(capacity, queued, ticks - 1))
  }

  lemma {:induction false} QueueAfterTicks(capacity: nat, queued: nat, ticks: nat)
    requires 0 < capacity && queued <= capacity
    ensures AfterTicks(capacity, queued, ticks) <= capacity
    ensures queued < capacity ==>
      AfterTicks(capacity, queued, ticks) == if queued <= 7 * ticks then 0 else queued - 7 * ticks
    ensures queued == capacity && ticks > 0 ==>
      AfterTicks(capacity, queued, ticks) == if queued <= 7 * ticks + 1 then 0 else queued - 7 * ticks - 1
  {
    if ticks > 0 { QueueAfterTicks(capacity, queued, ticks - 1); }
  }

  /** A backlog of n is gone within ceil(n / 7) such ticks, and not before unless the queue was full. */
  lemma BacklogDrains(capacity: nat, queued: nat, ticks: nat)
    requires 0 < capacity && queued <= capacity
    ensures ticks >= (queued + 6) / 7 ==> AfterTicks(capacity, queued, ticks) == 0
    ensures queued < capacity && ticks < (queued + 6) / 7 ==> AfterTicks(capacity, queued, ticks) > 0
  {
    QueueAfterTicks(capacity, queued, ticks);
  }

  // Ticks with these readings, every send of them acknowledged.
  function TickedAll<Sample, Result>(l: Load<Sample, Result>, capacity: nat, samples: seq<Sample>, reply: nat -> Reply)
    : Load<Sample, Result>
  {
    if samples == [] then l
    else Ticked(TickedAll(l, capacity, Init(samples), reply), capacity, Last(samples), None, reply, false)
  }

  /** A queue of n is delivered within ceil(n / 7) ticks, each bringing a new reading, once every send is granted. */
  lemma {:induction false} BacklogIsDelivered<Sample, Result>(
    l: Load<Sample, Result>, capacity: nat, samples: seq<Sample>, reply: nat -> Reply)
    requires 0 < capacity && |l.items| <= capacity && forall i :: reply(i).Accepted?
    ensures |TickedAll(l, capacity, samples, reply).items| == AfterTicks(capacity, |l.items|, |samples|)
    ensures |samples| >= (|l.items| + 6) / 7 ==> TickedAll(l, capacity, samples, reply).items == []
  {
    if samples != [] {
      BacklogIsDelivered(l, capacity, Init(samples), reply);
      QueueAfterTicks(capacity, |l.items|, |samples| - 1);
      TickGranted(TickedAll(l, capacity, Init(samples), reply), capacity, Last(samples), None, reply);
    }
    BacklogDrains(capacity, |l.items|, |samples|);
  }

  // ----- what the history amounts to -----

  function Positions(fates: seq<Fate>, fate: Fate): seq<nat> {
    if fates == [] then []
    else Positions(Init(fates), fate) + if Last(fates) == fate then [|fates| - 1] else []
  }

  lemma {:induction false} PositionsRise(fates: seq<Fate>, fate: Fate)
    ensures forall i, j :: 0 <= i < j < |Positions(fates, fate)| ==>
              Positions(fates, fate)[i] < Positions(fates, fate)[j]
    ensures forall p :: p in Positions(fates, fate) <==> 0 <= p < |fates| && fates[p] == fate
  {
    if fates != [] {
      PositionsRise(Init(fates), fate);
      var front := Positions(Init(fates), fate);
      assert forall p :: 0 <= p < |fates| - 1 ==> Init(fates)[p] == fates[p];
      forall i | 0 <= i < |front| ensures front[i] < |fates| - 1 { assert front[i] in front; }
    }
  }

  lemma {:induction false} PositionsPartition(fates: seq<Fate>)
    ensures |Positions(fates, Evicted)| + |Positions(fates, Acknowledged)| + |Positions(fates, Rejected)| == |fates|
  {
    if fates != [] { PositionsPartition(Init(fates)); }
  }

  lemma {:induction false} MetAtPositions<T>(pushed: seq<T>, fates: seq<Fate>, fate: Fate)
    requires |fates| <= |pushed|
    ensures |Met(pushed, fates, fate)| == |Positions(fates, fate)|
    ensures forall i :: 0 <= i < |Positions(fates, fate)| ==>
              Positions(fates, fate)[i] < |pushed| && Met(pushed, fates, fate)[i] == pushed[Positions(fates, fate)[i]]
  {
    if fates != [] { MetAtPositions(pushed, Init(fates), fate); }
  }

  lemma {:induction false} SamplesByIndex<Sample, Result>(envelopes: seq<Envelope<Sample, Result>>)
    ensures |Samples(envelopes)| == |envelopes|
    ensures forall i :: 0 <= i < |envelopes| ==> Samples(envelopes)[i] == envelopes[i].sample
  {
    if envelopes != [] { SamplesByIndex(Init(envelopes)); }
  }

  /**
   Every reading ever pushed is exactly one of evicted, acknowledged, rejected or queued, and the queued
   ones are the newest. The envelopes the platform acknowledged carried exactly the acknowledged
   readings, in the order they were pushed, and the results they carried, in order, with those
   still pending, are all the results ever taken from the spool.
   */
  lemma EveryReadingHasOneFate<Sample, Result>(a: Agent<Sample, Result>)
    requires a.Valid()
    ensures var e, k, r := Positions(a.fates, Evicted), Positions(a.fates, Acknowledged), Positions(a.fates, Rejected);
      && |e| + |k| + |r| + |a.queue.items| == |a.pushed|
      && (forall i :: 0 <= i < |a.queue.items| ==> a.queue.items[i] == a.pushed[|a.fates| + i])
      && (forall p :: 0 <= p < |a.fates| ==>
            && (p in k <==> a.fates[p] == Acknowledged)
            && (p in r <==> a.fates[p] == Rejected)
            && (p in e <==> a.fates[p] == Evicted))
      && |a.acked| == |k| && (forall i, j :: 0 <= i < j < |k| ==> k[i] < k[j])
      && (forall i :: 0 <= i < |k| ==> k[i] < |a.pushed| && a.acked[i].sample == a.pushed[k[i]])
      && Flat(Parcels(a.acked)) + a.pendingResults == a.taken
  {
    PositionsPartition(a.fates);
    PositionsRise(a.fates, Evicted);
    PositionsRise(a.fates, Acknowledged);
    PositionsRise(a.fates, Rejected);
    MetAtPositions(a.pushed, a.fates, Acknowledged);
    SamplesByIndex(a.acked);
  }

  /** The outage lines of the journal start with a start and never repeat themselves; one is open while sends fail. */
  lemma OutageNotesAlternate<Sample, Result>(a: Agent<Sample, Result>)
    requires a.Valid()
    ensures a.notes != [] ==> a.notes[0] == OutageStarts
    ensures forall i :: 0 <= i < |a.notes| - 1 ==> a.notes[i] != a.notes[i + 1]
    ensures a.consecutiveFailures > 0 <==> a.notes != [] && Last(a.notes) == OutageStarts
  {
  }
}
