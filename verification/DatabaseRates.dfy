/**
 Rates from cumulative counters: what one visit to a database engine reports, given the visits
 before it. Counters are 64-bit and unsigned; figures are stated before rounding.
 */
module DatabaseRates {

  import opened Wrappers
  import opened Bytes
  import opened Sequences
  import opened Ratios

  type u64 = x: int | 0 <= x < TWO_TO_64

  /** One successful visit, in each engine's own words. */
  datatype Deep =
    | Postgres(connections: int, maxConnections: int, xacts: u64, blksHit: u64, blksRead: u64,
               sizeMB: real, longestQueryS: real)
    | MySql(connections: int, maxConnections: int, questions: u64, poolReq: u64, poolRead: u64, longestQueryS: real)
    | Redis(connections: int, commands: u64, hits: u64, misses: u64, usedMemMB: real)

  datatype Visit = Unreadable | Seen(deep: Deep)

  datatype Counters = Counters(ops: u64, hit: u64, miss: u64, at: real)

  datatype Reading = Reading(
    connections: Option<int>, maxConnections: Option<int>, sizeMB: Option<real>, longestQueryS: Option<real>,
    opsPerS: Option<real>, cacheHitPct: Option<real>)

  const NOTHING := Reading(None, None, None, None, None, None)

  datatype Note = Silent | CannotRead | ReadableAgain

  function CountersOf(deep: Deep, now: real): Counters {
    match deep
    case Postgres(_, _, xacts, blksHit, blksRead, _, _) => Counters(xacts, blksHit, blksRead, now)
    // Reads that went to disk are among the requests; should they seem more, there were no hits.
    case MySql(_, _, questions, poolReq, poolRead, _) =>
      Counters(questions, if poolReq < poolRead then 0 else poolReq - poolRead, poolRead, now)
    case Redis(_, commands, hits, misses, _) => Counters(commands, hits, misses, now)
  }

  function Gauges(deep: Deep): Reading {
    var limit := if deep.Redis? then 0 else deep.maxConnections;
    var size :=
      match deep
      case Postgres(_, _, _, _, _, sizeMB, _) => sizeMB
      case MySql(_, _, _, _, _, _) => -1.0
      case Redis(_, _, _, _, usedMemMB) => usedMemMB;
    var longest := if deep.Redis? then -1.0 else deep.longestQueryS;
    Reading(Some(deep.connections), if limit > 0 then Some(limit) else None,
            if size >= 0.0 then Some(size) else None, if longest >= 0.0 then Some(longest) else None, None, None)
  }

  // 64-bit addition wraps round.
  function WrappedSum(a: u64, b: u64): u64 {
    (a + b) % TWO_TO_64
  }

  function HitPct(hits: u64, misses: u64): Option<real> {
    if WrappedSum(hits, misses) > 0 then Some(Share(hits, WrappedSum(hits, misses))) else None
  }

  function Share(part: nat, whole: nat): real
    requires whole > 0
  {
    part as real / whole as real * 100.0
  }

  predicate Comparable(prev: Counters, next: Counters) {
    next.at - prev.at > 0.0 && next.ops >= prev.ops && next.hit >= prev.hit && next.miss >= prev.miss
  }

  function WithRates(gauges: Reading, prev: Counters, next: Counters): Reading
    requires Comparable(prev, next)
  {
    gauges.(opsPerS := Some(PerSecond(next.ops - prev.ops, next.at - prev.at)),
            cacheHitPct := HitPct(next.hit - prev.hit, next.miss - prev.miss))
  }

  // What is remembered of an engine between visits.
  datatype Memory = Memory(prev: Option<Counters>, down: bool)

  const FIRST_SIGHT := Memory(None, false)

  function Visited(m: Memory, visit: Visit, now: real): (Memory, Reading, Note) {
    match visit
    case Unreadable => (Memory(None, true), NOTHING, if m.down then Silent else CannotRead)
    case Seen(deep) =>
      var next := CountersOf(deep, now);
      var gauges := Gauges(deep);
      var note := if m.down then ReadableAgain else Silent;
      if m.prev == None || !Comparable(m.prev.value, next) then (Memory(Some(next), false), gauges, note)
      else
        var prev := m.prev.value;
        (Memory(Some(next), false), WithRates(gauges, prev, next), note)
  }

  // ----- the sampler -----

  class Sampler {
    var prevDeep: map<string, Counters>
    var unreachable: map<string, bool>

    ghost function Of(id: string): Memory
      reads this
    {
      Memory(if id in prevDeep then Some(prevDeep[id]) else None, id in unreachable && unreachable[id])
    }

    constructor ()
      ensures forall id :: Of(id) == FIRST_SIGHT
    {
      prevDeep, unreachable := map[], map[];
    }

    /** One visit to a known engine: nothing of another engine is touched. */
    method DeepSample(id: string, visit: Visit, now: real) returns (m: Reading, note: Note)
      modifies this
      ensures (Of(id), m, note) == Visited(old(Of(id)), visit, now)
      ensures forall other :: other != id ==> Of(other) == old(Of(other))
    {
      if visit.Unreadable? {
        note := Missed(id);
        m := NOTHING;
      } else {
        note := Answered(id);
        m := Gauges(visit.deep);
        var counters := CountersOf(visit.deep, now);
        if id in prevDeep { m := AddRates(m, prevDeep[id], counters); }
        prevDeep := prevDeep[id := counters];
      }
    }

    // An engine that cannot be read: said once.
    method Missed(id: string) returns (note: Note)
      modifies this
      ensures Of(id) == Memory(None, true) && note == if old(Of(id)).down then Silent else CannotRead
      ensures forall other :: other != id ==> Of(other) == old(Of(other))
    {
      note := Silent;
      prevDeep := prevDeep - {id};
      if !(id in unreachable && unreachable[id]) {
        unreachable := unreachable[id := true];
        note := CannotRead;
      }
    }

    // An engine that answers: said once, if it did not before.
    method Answered(id: string) returns (note: Note)
      modifies this`unreachable
      ensures !Of(id).down && note == if old(Of(id)).down then ReadableAgain else Silent
      ensures forall other :: other != id ==> Of(other) == old(Of(other))
    {
      note := Silent;
      if id in unreachable && unreachable[id] {
        unreachable := unreachable[id := false];
        note := ReadableAgain;
      }
    }

    static method AddRates(gauges: Reading, prev: Counters, counters: Counters) returns (m: Reading)
      ensures m == if Comparable(prev, counters) then WithRates(gauges, prev, counters) else gauges
    {
      var elapsed := counters.at - prev.at;
      if elapsed <= 0.0 || counters.ops < prev.ops || counters.hit < prev.hit || counters.miss < prev.miss {
        return gauges;
      }
      var hits, misses := counters.hit - prev.hit, counters.miss - prev.miss;
      m := gauges.(opsPerS := Some(PerSecond(counters.ops - prev.ops, elapsed)), cacheHitPct := None);
      var sum := WrappedSum(hits, misses);
      if sum > 0 { m := m.(cacheHitPct := Some(Share(hits, sum))); }
    }
  }

  // ----- every run of visits -----

  datatype Call = Call(visit: Visit, now: real)

  function After(calls: seq<Call>): Memory {
    if calls == [] then FIRST_SIGHT else Visited(After(Init(calls)), Last(calls).visit, Last(calls).now).0
  }

  function Reported(calls: seq<Call>, i: nat): Reading
    requires i < |calls|
  {
    Visited(After(calls[..i]), calls[i].visit, calls[i].now).1
  }

  function Notes(calls: seq<Call>): seq<Note> {
    if calls == [] then []
    else
      var note := Visited(After(Init(calls)), Last(calls).visit, Last(calls).now).2;
      Notes(Init(calls)) + if note == Silent then [] else [note]
  }

  function At(c: Call): Counters
    requires c.visit.Seen?
  {
    CountersOf(c.visit.deep, c.now)
  }

  lemma RemembersLast(calls: seq<Call>)
    requires calls != []
    ensures After(calls) == if Last(calls).visit.Seen? then Memory(Some(At(Last(calls))), false) else Memory(None, true)
  {
  }

  /** The visit before this one succeeded, time advanced and no counter fell. */
  ghost predicate RatesDue(calls: seq<Call>, i: nat)
    requires i < |calls|
  {
    i > 0 && calls[i].visit.Seen? && calls[i - 1].visit.Seen? && Comparable(At(calls[i - 1]), At(calls[i]))
  }

  /**
   In any run of visits a rate is reported exactly when it is due, and is the difference over the
   time between exactly these two visits.
   */
  lemma {:induction false} RatesExactlyWhenDue(calls: seq<Call>, i: nat)
    requires i < |calls|
    ensures Reported(calls, i).opsPerS.Some? <==> RatesDue(calls, i)
    ensures RatesDue(calls, i) ==>
      var p, q := At(calls[i - 1]), At(calls[i]);
      && Reported(calls, i).opsPerS == Some(PerSecond(q.ops - p.ops, q.at - p.at))
      && Reported(calls, i).cacheHitPct == HitPct(q.hit - p.hit, q.miss - p.miss)
    ensures !RatesDue(calls, i) ==> Reported(calls, i).cacheHitPct == None
  {
    if i > 0 {
      RemembersLast(calls[..i]);
      assert Last(calls[..i]) == calls[i - 1];
    }
  }

  /**
   The hit ratio is a percentage exactly when the two deltas do not overflow together; it is left
   out exactly when their wrapped sum is zero.
   */
  lemma HitPctIsPercentage(hits: u64, misses: u64)
    ensures HitPct(hits, misses).Some? <==> hits + misses != 0 && hits + misses != TWO_TO_64
    ensures HitPct(hits, misses).Some? ==> HitPct(hits, misses).value >= 0.0
    ensures HitPct(hits, misses).Some? ==> (HitPct(hits, misses).value <= 100.0 <==> hits + misses < TWO_TO_64)
    ensures 0 < hits + misses < TWO_TO_64 ==>
      HitPct(hits, misses) == Some(Share(hits, hits + misses))
  {
    var sum := WrappedSum(hits, misses);
    if hits + misses >= TWO_TO_64 {
      assert sum == hits + misses - TWO_TO_64 < hits;
      if sum > 0 { FractionAboveOne(hits as real, sum as real); }
    } else if sum > 0 {
      FractionInside(hits as real, sum as real);
    }
  }

  /**
   In any run of visits, when rates are due: the hit ratio reported is a percentage if and only if the two
   counters' advances do not overflow together, and missing exactly when their wrapped sum is zero.
   */
  lemma {:induction false} HitRatioIsPercentageExactlyWhen(calls: seq<Call>, i: nat)
    requires i < |calls| && RatesDue(calls, i)
    ensures var p, q, pct := At(calls[i - 1]), At(calls[i]), Reported(calls, i).cacheHitPct;
      var advance := (q.hit - p.hit) + (q.miss - p.miss);
      && (pct.Some? <==> advance != 0 && advance != TWO_TO_64)
      && (pct.Some? ==> pct.value >= 0.0 && (pct.value <= 100.0 <==> advance < TWO_TO_64))
  {
    var p, q := At(calls[i - 1]), At(calls[i]);
    RatesExactlyWhenDue(calls, i);
    HitPctIsPercentage(q.hit - p.hit, q.miss - p.miss);
  }

  /** For MySQL, whose hits and misses are parts of one counter, the ratio is always a percentage. */
  lemma {:induction false} MySqlRatioIsPercentage(calls: seq<Call>, i: nat)
    requires i < |calls| && RatesDue(calls, i) && calls[i - 1].visit.deep.MySql? && calls[i].visit.deep.MySql?
    ensures Reported(calls, i).cacheHitPct.Some? ==> 0.0 <= Reported(calls, i).cacheHitPct.value <= 100.0
  {
    HitRatioIsPercentageExactlyWhen(calls, i);
  }

  /**
   For PostgreSQL and Redis, whose hits and misses are counters of their own, it is not: two visits after
   which more than a hundred per cent is reported, and two after which nothing is.
   */
  lemma HitPctOverflows(redis: bool) returns (above: seq<Call>, none: seq<Call>)
    ensures |above| == |none| == 2 && RatesDue(above, 1) && RatesDue(none, 1)
    ensures forall c :: c in above + none ==>
              c.visit.Seen? && if redis then c.visit.deep.Redis? else c.visit.deep.Postgres?
    ensures Reported(above, 1).cacheHitPct.Some? && Reported(above, 1).cacheHitPct.value > 100.0
    ensures Reported(none, 1).cacheHitPct == None
  {
    above, none := TwoVisits(redis, TWO_TO_64 - 1, 2), TwoVisits(redis, TWO_TO_64 - 1, 1);
    HitRatioIsPercentageExactlyWhen(above, 1);
    HitRatioIsPercentageExactlyWhen(none, 1);
  }

  // A visit right after the engine started, and one a second later.
  function TwoVisits(redis: bool, hits: u64, misses: u64): (calls: seq<Call>)
    ensures |calls| == 2 && RatesDue(calls, 1)
    ensures At(calls[0]) == Counters(0, 0, 0, 0.0) && At(calls[1]) == Counters(0, hits, misses, 1.0)
    ensures forall c :: c in calls ==> c.visit.Seen? && if redis then c.visit.deep.Redis? else c.visit.deep.Postgres?
  {
    if redis then [Call(Seen(Redis(1, 0, 0, 0, 1.0)), 0.0), Call(Seen(Redis(1, 0, hits, misses, 1.0)), 1.0)]
    else [Call(Seen(Postgres(1, 100, 0, 0, 0, 1.0, 1.0)), 0.0),
          Call(Seen(Postgres(1, 100, 0, hits, misses, 1.0, 1.0)), 1.0)]
  }

  function OpsSum(calls: seq<Call>, i: nat, j: nat): real
    requires i <= j < |calls| && forall k :: i < k <= j ==> RatesDue(calls, k)
  {
    if i == j then 0.0
    else
      RatesExactlyWhenDue(calls, j);
      OpsSum(calls, i, j - 1) + Times(Reported(calls, j).opsPerS.value, calls[j].now - calls[j - 1].now)
  }

  lemma OneVisitsOps(calls: seq<Call>, j: nat)
    requires 0 < j < |calls| && RatesDue(calls, j)
    ensures Reported(calls, j).opsPerS.Some?
    ensures Times(Reported(calls, j).opsPerS.value, calls[j].now - calls[j - 1].now)
         == (At(calls[j]).ops - At(calls[j - 1]).ops) as real
  {
    RatesExactlyWhenDue(calls, j);
    RateUndone(At(calls[j]).ops - At(calls[j - 1]).ops, At(calls[j]).at - At(calls[j - 1]).at);
  }

  /** Over an unbroken run the work reported adds up to the counter's whole advance. */
  lemma {:induction false} OpsTelescope(calls: seq<Call>, i: nat, j: nat)
    requires i < j < |calls| && forall k :: i < k <= j ==> RatesDue(calls, k)
    ensures calls[i].visit.Seen? && calls[j].visit.Seen?
    ensures OpsSum(calls, i, j) == (At(calls[j]).ops - At(calls[i]).ops) as real
  {
    OneVisitsOps(calls, j);
    if i < j - 1 { OpsTelescope(calls, i, j - 1); }
  }

  /** The journal is told once when an engine stops answering and once when it answers again, in turn. */
  lemma {:induction false} NotesAlternate(calls: seq<Call>)
    ensures forall i :: 0 <= i < |Notes(calls)| ==> Notes(calls)[i] == if i % 2 == 0 then CannotRead else ReadableAgain
    ensures After(calls).down <==> |Notes(calls)| % 2 == 1
  {
    if calls != [] { NotesAlternate(Init(calls)); }
  }

  // ----- in the engines' own words -----

  // How far a counter advanced, if it did not fall.
  ghost predicate Advanced(from: int, to: int, distance: int) {
    distance == to - from && distance >= 0
  }

  // Of so many requests to the buffer pool, those that did not go to disk; none if more did than there were.
  ghost function FromMemory(requests: int, misses: int): int {
    if requests - misses >= 0 then requests - misses else 0
  }

  /** The work done, hits and misses between two visits to the same engine, as its own counters tell them. */
  ghost predicate Advances(before: Deep, after: Deep, ops: int, hits: int, misses: int) {
    match after
    case Postgres(_, _, xacts, blksHit, blksRead, _, _) =>
      && before.Postgres? && Advanced(before.xacts, xacts, ops)
      && Advanced(before.blksHit, blksHit, hits) && Advanced(before.blksRead, blksRead, misses)
    case Redis(_, commands, redisHits, redisMisses, _) =>
      && before.Redis? && Advanced(before.commands, commands, ops)
      && Advanced(before.hits, redisHits, hits) && Advanced(before.misses, redisMisses, misses)
    case MySql(_, _, questions, poolReq, poolRead, _) =>
      && before.MySql? && Advanced(before.questions, questions, ops) && Advanced(before.poolRead, poolRead, misses)
      && Advanced(FromMemory(before.poolReq, before.poolRead), FromMemory(poolReq, poolRead), hits)
  }

  lemma AdvancesAreDue(before: Call, after: Call, ops: int, hits: int, misses: int)
    requires before.visit.Seen? && after.visit.Seen? && before.now < after.now
    requires Advances(before.visit.deep, after.visit.deep, ops, hits, misses)
    ensures var p, q := At(before), At(after);
      Comparable(p, q) && q.ops - p.ops == ops && q.hit - p.hit == hits && q.miss - p.miss == misses
      && q.at - p.at == after.now - before.now
  {
  }

  lemma HitShareIs(hits: u64, misses: u64)
    ensures 0 < hits + misses < TWO_TO_64 ==>
      HitPct(hits, misses).Some? && IsPercentage(HitPct(hits, misses).value, hits, hits + misses)
    ensures hits + misses == 0 ==> HitPct(hits, misses) == None
  {
    HitPctIsPercentage(hits, misses);
    if 0 < hits + misses < TWO_TO_64 { ShareIsPercentage(hits, hits + misses); }
  }

  /**
   What any visit reports, in the engine's own counters: if the visit before succeeded, time advanced and no
   counter fell, the rate times the time elapsed is the work counted, and the hit ratio is the hits'
   share of hits and misses, as long as there are any and they fit in 64 bits together.
   */
  lemma {:induction false} RatesAreTheEngines(calls: seq<Call>, i: nat, ops: int, hits: int, misses: int)
    requires 0 < i < |calls| && calls[i - 1].visit.Seen? && calls[i].visit.Seen? && calls[i - 1].now < calls[i].now
    requires Advances(calls[i - 1].visit.deep, calls[i].visit.deep, ops, hits, misses)
    ensures var m := Reported(calls, i);
      && m.opsPerS.Some? && IsRate(m.opsPerS.value, calls[i].now - calls[i - 1].now, ops)
      && (0 < hits + misses < TWO_TO_64 ==>
            m.cacheHitPct.Some? && IsPercentage(m.cacheHitPct.value, hits, hits + misses))
      && (hits + misses == 0 ==> m.cacheHitPct == None)
  {
    AdvancesAreDue(calls[i - 1], calls[i], ops, hits, misses);
    RatesExactlyWhenDue(calls, i);
    HitShareIs(hits, misses);
    PerSecondIsRate(ops, calls[i].now - calls[i - 1].now);
  }

  /** And none at all if the visit before failed, time did not advance or a counter fell. */
  lemma {:induction false} NoRatesOtherwise(calls: seq<Call>, i: nat)
    requires i < |calls|
    requires i == 0 || calls[i - 1].visit.Unreadable? || calls[i].visit.Unreadable? || calls[i].now <= calls[i - 1].now
      || At(calls[i]).ops < At(calls[i - 1]).ops || At(calls[i]).hit < At(calls[i - 1]).hit
      || At(calls[i]).miss < At(calls[i - 1]).miss
    ensures Reported(calls, i).opsPerS == None && Reported(calls, i).cacheHitPct == None
  {
    RatesExactlyWhenDue(calls, i);
  }

  // There if it makes sense, as it is.
  ghost predicate Shown<T>(shown: Option<T>, value: T, sensible: bool) {
    shown == if sensible then Some(value) else None
  }

  /**
   The other figures, whatever was visited before: connections always; the limit if there is one; the size, which MySQL
   does not tell, and the longest query, which Redis does not, unless they could not be had; nothing of an
   engine that does not answer.
   */
  lemma {:induction false} GaugesAreTheEngines(calls: seq<Call>, i: nat)
    requires i < |calls|
    ensures var m := Reported(calls, i);
      match calls[i].visit
      case Unreadable => m == Reading(None, None, None, None, None, None)
      case Seen(Postgres(connections, limit, _, _, _, sizeMB, longest)) =>
        m.connections == Some(connections) && Shown(m.maxConnections, limit, limit > 0)
        && Shown(m.sizeMB, sizeMB, sizeMB >= 0.0) && Shown(m.longestQueryS, longest, longest >= 0.0)
      case Seen(MySql(connections, limit, _, _, _, longest)) =>
        m.connections == Some(connections) && Shown(m.maxConnections, limit, limit > 0)
        && m.sizeMB == None && Shown(m.longestQueryS, longest, longest >= 0.0)
      case Seen(Redis(connections, _, _, _, usedMemMB)) =>
        m.connections == Some(connections) && m.maxConnections == None
        && Shown(m.sizeMB, usedMemMB, usedMemMB >= 0.0) && m.longestQueryS == None
  {
  }
}
