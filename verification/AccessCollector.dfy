/**
 The collector: lines from the tailer in, one RED sample per window out.

 The invariant `Valid` ties every counter, histogram and site slot to `window`, the entries since
 the last sample, and all the windows ever to the lines the tailer ever returned.
 */
module AccessCollector {

  import opened Wrappers
  import opened Sequences
  import opened Lines
  import opened AccessLog
  import opened LatencyHistogram
  import opened SiteWindows
  import opened SiteReport
  import opened Ratios
  import Tail
  import TailRuns
  import TailDelivery
  import Bytes

  // ----- specification -----

  /** The entries a run of lines stands for, malformed lines left out. */
  function Entries(std: Std, format: Format, lines: seq<Line>): seq<Entry> {
    if lines == [] then []
    else
      var parsed := ParseLine(std, Last(lines), format);
      Entries(std, format, Init(lines)) + if parsed == None then [] else [parsed.value]
  }

  lemma NothingYet(bounds: Scale)
    ensures forall m :: Total(bounds, m, []) == 0
    ensures SitesOf(bounds, []) == map[]
  {
    assert Slots([]) == {};
  }

  datatype RED = RED(
    rates: Rates, errorRatePct: Option<real>, p50Ms: Option<real>, p95Ms: Option<real>, p99Ms: Option<real>,
    sites: seq<SiteRED>)

  /** The right sample for a window. */
  ghost predicate IsRED(bounds: Scale, es: seq<Entry>, elapsed: real, red: RED)
    requires elapsed > 0.0
  {
    var w := WindowOf(bounds, es);
    && red.rates == RatesOf(w, elapsed)
    && red.errorRatePct == ErrorRate(w)
    && red.p50Ms == Percentile(bounds, w, 0.5)
    && red.p95Ms == Percentile(bounds, w, 0.95)
    && red.p99Ms == Percentile(bounds, w, 0.99)
    && IsReport(bounds, SitesOf(bounds, es), elapsed, red.sites)
  }

  // A sample and the time its window covers.
  datatype Report = Report(elapsed: real, red: RED)

  ghost predicate IsReportOf(bounds: Scale, es: seq<Entry>, report: Report) {
    AllClean(es) && report.elapsed > 0.0 && IsRED(bounds, es, report.elapsed, report.red)
  }

  /** One right report for each window closed. */
  ghost predicate AreReportsOf(bounds: Scale, windows: seq<seq<Entry>>, reports: seq<Report>) {
    |reports| == |windows| && forall i :: 0 <= i < |reports| ==> IsReportOf(bounds, windows[i], reports[i])
  }

  // ----- the collector -----

  class Collector {
    const tailer: Tail.Tailer
    const std: Std
    const format: Format
    const histogram: Histogram
    var requests: nat
    var status4xx: nat
    var status5xx: nat
    var sites: map<string, Window>
    var lastSample: real
    var skippedBytes: nat
    var malformedLines: nat

    ghost var window: seq<Entry>        // entries since the last sample
    ghost var closed: seq<seq<Entry>>   // the windows already reported
    ghost var reports: seq<Report>      // the samples returned, one for each of them
    ghost var fed: seq<Line>            // the lines taken from the tailer

    // Every counter says what the entries since the last sample say.
    ghost predicate Counts()
      reads this, histogram, histogram.counts
    {
      CountsOf(window)
    }

    ghost predicate CountsOf(es: seq<Entry>)
      reads this, histogram, histogram.counts
    {
      && AllClean(es)
      && histogram.Valid() && histogram.seen == Durations(es)
      && requests == Total(histogram.bounds, Requests, es)
      && status4xx == Total(histogram.bounds, Status4xx, es)
      && status5xx == Total(histogram.bounds, Status5xx, es)
      && sites == SitesOf(histogram.bounds, es)
    }

    // The windows are the entries of the lines taken so far, cut where samples were taken.
    ghost predicate History()
      reads this
    {
      && Flat(closed) + window == Entries(std, format, fed)
      && malformedLines + |Entries(std, format, fed)| == |fed|
    }

    ghost predicate Reported()
      reads this
    {
      AreReportsOf(histogram.bounds, closed, reports)
    }

    ghost predicate Valid()
      reads this, tailer, histogram, histogram.counts
    {
      Counts() && History() && Reported() && tailer.Valid() && fed == tailer.returned
    }

    constructor (std: Std, format: Format, bounds: Scale, now: real)
      ensures Valid() && window == [] && closed == [] && reports == []
      ensures fresh(tailer) && fresh(histogram) && fresh(histogram.counts)
      ensures lastSample == now && this.std == std && this.format == format && histogram.bounds == bounds
      ensures tailer.Pos() == Tail.START
    {
      this.std, this.format := std, format;
      tailer := new Tail.Tailer();
      histogram := new Histogram(bounds);
      requests, status4xx, status5xx, sites, lastSample := 0, 0, 0, map[], now;
      skippedBytes, malformedLines := 0, 0;
      window, closed, reports, fed := [], [], [], [];
    }

    /** The slot for a host, made if need be; none for entries without a host. */
    method SiteFor(host: string) returns (slot: Option<string>)
      requires forall h :: h in sites ==> |sites[h].hist.counts| == |histogram.bounds| + 1
      modifies this`sites
      ensures slot == if SlotFor(old(sites.Keys), host) == "" then None else Some(SlotFor(old(sites.Keys), host))
      ensures sites == if slot == None || slot.value in old(sites) then old(sites)
                       else old(sites)[slot.value := EmptyWindow(histogram.bounds)]
    {
      if host == "" { return None; }
      if host in sites { return Some(host); }
      var key := host;
      if |sites.Keys| >= MAX_TRACKED_SITES {
        if OVERFLOW_SITE in sites { return Some(OVERFLOW_SITE); }
        key := OVERFLOW_SITE;
      }
      sites := sites[key := EmptyWindow(histogram.bounds)];
      return Some(key);
    }

    method CountTotals(e: Entry)
      requires histogram.Valid()
      modifies this`requests, this`status4xx, this`status5xx, histogram, histogram.counts
      ensures histogram.Valid() && histogram.seen == Heard(old(histogram.seen), e.durationMs)
      ensures requests == old(requests) + Weight(histogram.bounds, Requests, e)
      ensures status4xx == old(status4xx) + Weight(histogram.bounds, Status4xx, e)
      ensures status5xx == old(status5xx) + Weight(histogram.bounds, Status5xx, e)
    {
      requests := requests + 1;
      if e.statusCode >= 500 {
        status5xx := status5xx + 1;
      } else if e.statusCode >= 400 {
        status4xx := status4xx + 1;
      }
      histogram.Observe(e.durationMs);
    }

    method CountSite(e: Entry)
      requires forall h :: h in sites ==> |sites[h].hist.counts| == |histogram.bounds| + 1
      modifies this`sites
      ensures sites == SitesWith(histogram.bounds, old(sites), e)
    {
      var slot := SiteFor(e.host);
      if slot != None {
        sites := sites[slot.value := Counted(histogram.bounds, sites[slot.value], e)];
      }
    }

    method Record(e: Entry)
      requires Counts() && CleanEntry(e)
      modifies this`requests, this`status4xx, this`status5xx, this`sites, this`window, histogram, histogram.counts
      ensures Counts() && window == old(window) + [e]
    {
      Snoc(window, e);
      SitesWithIsSitesOf(histogram.bounds, window, e);
      CountTotals(e);
      CountSite(e);
      window := window + [e];
    }

    /** Reads whatever was written since last time. A failed pass still counts the lines it returned. */
    method Ingest(w: Tail.World, luck: Tail.Luck) returns (failed: bool)
      requires Valid() && Tail.GoodWorld(w)
      modifies this`requests, this`status4xx, this`status5xx, this`sites, this`window, this`fed, this`malformedLines,
        this`skippedBytes, tailer, histogram, histogram.counts
      ensures Valid() && tailer.visits == old(tailer.visits) + [Tail.Visit(w, luck)]
      ensures var pass := Tail.Reading(old(tailer.Pos()), w, luck);
        && tailer.Pos() == pass.pos && failed == pass.failed
        && fed == old(fed) + pass.lines
        && window == old(window) + Entries(std, format, pass.lines)
        && skippedBytes == old(skippedBytes) + pass.skipped
    {
      var lines, skipped, err := tailer.ReadLines(w, luck);
      skippedBytes := skippedBytes + skipped;
      CatchUp(lines);
      failed := err;
    }

    // Take in what the tailer has just returned.
    method CatchUp(lines: seq<Line>)
      requires Counts() && History() && Reported() && tailer.Valid() && fed + lines == tailer.returned
      modifies this`requests, this`status4xx, this`status5xx, this`sites, this`window, this`fed, this`malformedLines,
        histogram, histogram.counts
      ensures Valid() && fed == old(fed) + lines
      ensures window == old(window) + Entries(std, format, lines)
    {
      IngestLines(lines);
    }

    method IngestLines(lines: seq<Line>)
      requires Counts() && History()
      modifies this`requests, this`status4xx, this`status5xx, this`sites, this`window, this`fed, this`malformedLines,
        histogram, histogram.counts
      ensures Counts() && History() && fed == old(fed) + lines
      ensures window == old(window) + Entries(std, format, lines)
    {
      for i := 0 to |lines|
        invariant Counts() && History()
        invariant fed == old(fed) + lines[..i]
        invariant window == old(window) + Entries(std, format, lines[..i])
      {
        TakeOne(lines, i);
        Associative(old(fed), lines[..i], [lines[i]]);
        ghost var parsed := ParseLine(std, lines[i], format);
        Associative(old(window), Entries(std, format, lines[..i]), if parsed == None then [] else [parsed.value]);
        IngestLine(lines[i]);
      }
      TakeAll(lines);
    }

    method IngestLine(line: Line)
      requires Counts() && History()
      modifies this`requests, this`status4xx, this`status5xx, this`sites, this`window, this`fed, this`malformedLines,
        histogram, histogram.counts
      ensures Counts() && History() && fed == old(fed) + [line]
      ensures var parsed := ParseLine(std, line, format);
        window == old(window) + if parsed == None then [] else [parsed.value]
    {
      Snoc(fed, line);
      var parsed := ParseLine(std, line, format);
      if parsed == None {
        malformedLines := malformedLines + 1;
      } else {
        ParsedEntriesAreClean(std, line, format);
        Associative(Flat(closed), window, [parsed.value]);
        Record(parsed.value);
      }
      fed := fed + [line];
    }

    method PercentileAt(p: real) returns (value: Option<real>)
      requires Counts()
      ensures value == Percentile(histogram.bounds, WindowOf(histogram.bounds, window), p)
    {
      if requests == 0 {
        value := None;
      } else {
        var q, ok := histogram.QuantileAt(p);
        value := if ok then Some(q) else None;
      }
    }

    /**
     Closes the window and starts the next one; with no time elapsed nothing is reported and
     nothing is lost.
     */
    method Sample(now: real) returns (red: Option<RED>)
      requires Valid()
      modifies this`requests, this`status4xx, this`status5xx, this`sites, this`window, this`closed, this`reports,
        this`lastSample, histogram, histogram.counts
      ensures Valid()
      ensures red.None? <==> now - old(lastSample) <= 0.0
      ensures red.None? ==> window == old(window) && closed == old(closed) && lastSample == old(lastSample)
      ensures red.Some? ==>
        && IsRED(histogram.bounds, old(window), now - old(lastSample), red.value)
        && window == [] && closed == old(closed) + [old(window)] && lastSample == now
        && reports == old(reports) + [Report(now - old(lastSample), red.value)]
    {
      var elapsed := now - lastSample;
      red := None;
      if elapsed > 0.0 {
        var closing := CloseWindow(now, elapsed);
        red := Some(closing);
      }
    }

    method CloseWindow(now: real, elapsed: real) returns (red: RED)
      requires Counts() && History() && Reported() && elapsed > 0.0
      modifies this`requests, this`status4xx, this`status5xx, this`sites, this`window, this`closed, this`reports,
        this`lastSample, histogram, histogram.counts
      ensures Counts() && History() && Reported()
      ensures reports == old(reports) + [Report(elapsed, red)]
      ensures IsRED(histogram.bounds, old(window), elapsed, red)
      ensures window == [] && closed == old(closed) + [old(window)] && lastSample == now
    {
      red := ReadWindow(elapsed);
      StartAfresh(now);
      reports := reports + [Report(elapsed, red)];
    }

    method StartAfresh(now: real)
      requires histogram.Valid() && History()
      modifies this`requests, this`status4xx, this`status5xx, this`sites, this`window, this`closed, this`lastSample,
        histogram, histogram.counts
      ensures Counts() && History()
      ensures window == [] && closed == old(closed) + [old(window)] && lastSample == now
    {
      ClearCounters();
      FlatSnoc(closed, window);
      assert Flat(closed + [window]) + [] == Flat(closed) + window;
      closed, window, lastSample := closed + [window], [], now;
    }

    method ClearCounters()
      requires histogram.Valid()
      modifies this`requests, this`status4xx, this`status5xx, this`sites, histogram, histogram.counts
      ensures CountsOf([])
    {
      NothingYet(histogram.bounds);
      requests, status4xx, status5xx := 0, 0, 0;
      histogram.Reset();
      sites := map[];
    }

    method ReadWindow(elapsed: real) returns (red: RED)
      requires Counts() && elapsed > 0.0
      ensures IsRED(histogram.bounds, window, elapsed, red)
    {
      var rows := SampleSites(elapsed);
      var p50 := PercentileAt(0.50);
      var p95 := PercentileAt(0.95);
      var p99 := PercentileAt(0.99);
      var rates := Rates(PerSecond(requests, elapsed), PerSecond(status4xx, elapsed), PerSecond(status5xx, elapsed));
      var errorRate := if requests > 0 then Some(status5xx as real / requests as real * 100.0) else None;
      red := RED(rates, errorRate, p50, p95, p99, rows);
    }

    /** One row per site in whatever order the map yields them, then sorted and cut. */
    method SampleSites(elapsed: real) returns (rows: seq<SiteRED>)
      requires Counts() && elapsed > 0.0
      ensures IsReport(histogram.bounds, SitesOf(histogram.bounds, window), elapsed, rows)
    {
      var unsorted, overflow, haveOverflow := RowsOfMap(elapsed);
      var sorted := SortSites(unsorted);
      RankingOf(histogram.bounds, sites, elapsed, unsorted, sorted);
      rows := CutRows(sorted, overflow, haveOverflow);
    }

    method RowsOfMap(elapsed: real) returns (rows: seq<SiteRED>, overflow: Rates, haveOverflow: bool)
      requires GoodSites(histogram.bounds, sites) && elapsed > 0.0
      ensures OverflowRates(sites, elapsed) == if haveOverflow then Some(overflow) else None
      ensures !haveOverflow ==> overflow == NO_RATES
      ensures DistinctHosts(rows) && RowsCover(histogram.bounds, sites, elapsed, rows, sites.Keys)
    {
      overflow, haveOverflow, rows := NO_RATES, false, [];
      var todo := sites.Keys;
      while todo != {}
        invariant todo <= sites.Keys
        invariant haveOverflow <==> OVERFLOW_SITE in sites && OVERFLOW_SITE !in todo
        invariant overflow == if haveOverflow then RatesOf(sites[OVERFLOW_SITE], elapsed) else NO_RATES
        invariant DistinctHosts(rows) && RowsCover(histogram.bounds, sites, elapsed, rows, sites.Keys - todo)
      {
        var host :| host in todo;
        todo := todo - {host};
        var w := sites[host];
        if host == OVERFLOW_SITE {
          overflow := overflow.Plus(RatesOf(w, elapsed));
          haveOverflow := true;
          continue;
        }
        CoverOneMore(histogram.bounds, sites, elapsed, rows, sites.Keys - todo - {host}, host);
        assert sites.Keys - todo - {host} + {host} == sites.Keys - todo;
        rows := rows + [Row(histogram.bounds, host, w, elapsed)];
      }
      assert sites.Keys - todo == sites.Keys;
    }

    static method CutRows(sorted: seq<SiteRED>, tracked: Rates, haveTracked: bool) returns (rows: seq<SiteRED>)
      requires !haveTracked ==> tracked == NO_RATES
      ensures rows == Cut(sorted, if haveTracked then Some(tracked) else None)
    {
      var overflow, haveOverflow := tracked, haveTracked;
      rows := sorted;
      if |sorted| > MAX_REPORTED_SITES {
        var folded := sorted[MAX_REPORTED_SITES..];
        for i := 0 to |folded|
          invariant overflow == tracked.Plus(SumRates(folded[..i]))
        {
          assert Init(folded[..i + 1]) == folded[..i];
          overflow := overflow.Plus(folded[i].rates);
        }
        assert folded[..|folded|] == folded;
        rows := sorted[..MAX_REPORTED_SITES];
        haveOverflow := true;
      }
      if haveOverflow { rows := rows + [OverflowRow(overflow)]; }
    }
  }

  // The rows are those of the sites in `done`, the overflow slot apart.
  ghost predicate RowsCover(bounds: Scale, sites: map<string, Window>, elapsed: real, rows: seq<SiteRED>,
                            done: set<string>)
    requires GoodSites(bounds, sites) && elapsed > 0.0 && done <= sites.Keys
  {
    && (forall r :: r in rows ==>
          r.host in done && r.host != OVERFLOW_SITE && r == Row(bounds, r.host, sites[r.host], elapsed))
    && (forall h :: h in done && h != OVERFLOW_SITE ==> Row(bounds, h, sites[h], elapsed) in rows)
  }

  lemma CoverOneMore(bounds: Scale, sites: map<string, Window>, elapsed: real, rows: seq<SiteRED>,
                     done: set<string>, h: string)
    requires GoodSites(bounds, sites) && elapsed > 0.0 && done <= sites.Keys && h in sites && h !in done
    requires h != OVERFLOW_SITE && DistinctHosts(rows) && RowsCover(bounds, sites, elapsed, rows, done)
    ensures DistinctHosts(rows + [Row(bounds, h, sites[h], elapsed)])
    ensures RowsCover(bounds, sites, elapsed, rows + [Row(bounds, h, sites[h], elapsed)], done + {h})
  {
    assert forall i :: 0 <= i < |rows| ==> rows[i] in rows;
  }

  lemma RankingOf(bounds: Scale, sites: map<string, Window>, elapsed: real, rows: seq<SiteRED>, sorted: seq<SiteRED>)
    requires GoodSites(bounds, sites) && elapsed > 0.0
    requires Ranked(sorted) && multiset(sorted) == multiset(rows) && RowsCover(bounds, sites, elapsed, rows, sites.Keys)
    ensures IsRanking(bounds, sites, elapsed, sorted)
  {
    forall r ensures r in sorted <==> r in rows {
      InMultiset(sorted, r);
      InMultiset(rows, r);
    }
  }

  // ----- what the samples add up to -----

  function Lengths<T>(parts: seq<seq<T>>): nat {
    if parts == [] then 0 else Lengths(Init(parts)) + |Last(parts)|
  }

  lemma {:induction false} FlatLength<T>(parts: seq<seq<T>>)
    ensures |Flat(parts)| == Lengths(parts)
  {
    if parts != [] { FlatLength(Init(parts)); }
  }

  function Parseable(std: Std, format: Format, lines: seq<Line>): nat {
    if lines == [] then 0
    else Parseable(std, format, Init(lines)) + if ParseLine(std, Last(lines), format).Some? then 1 else 0
  }

  lemma {:induction false} EntriesAreParseableLines(std: Std, format: Format, lines: seq<Line>)
    ensures |Entries(std, format, lines)| == Parseable(std, format, lines)
  {
    if lines != [] { EntriesAreParseableLines(std, format, Init(lines)); }
  }

  /**
   However ingests and samples were placed, the windows reported and the open one hold one entry
   for each parseable line the tailer returned.
   */
  lemma SamplesCountLines(c: Collector)
    requires c.Valid()
    ensures Lengths(c.closed) + |c.window| == Parseable(c.std, c.format, c.tailer.returned)
    ensures Lengths(c.closed) + |c.window| + c.malformedLines == |c.tailer.returned|
  {
    FlatLength(c.closed);
    EntriesAreParseableLines(c.std, c.format, c.tailer.returned);
  }

  lemma {:induction false} TotalConcat(bounds: Scale, m: Measure, a: seq<Entry>, b: seq<Entry>)
    ensures Total(bounds, m, a + b) == Total(bounds, m, a) + Total(bounds, m, b)
  {
    if b == [] {
      assert a + b == a;
    } else {
      TotalConcat(bounds, m, a, Init(b));
      assert Init(a + b) == a + Init(b) && Last(a + b) == Last(b);
    }
  }

  lemma ReportIsTotal(bounds: Scale, m: Measure, es: seq<Entry>, report: Report)
    requires IsCounter(m) && IsReportOf(bounds, es, report)
    ensures Times(report.red.rates.Get(m), report.elapsed) == Total(bounds, m, es) as real
  {
    ReadingIsTotal(bounds, m, es);
    RateOfReading(bounds, m, WindowOf(bounds, es), report.elapsed);
  }

  /** What samples report of a counter: each rate times the time it covers, added up. */
  function ReportedSum(m: Measure, reports: seq<Report>): real {
    if reports == [] then 0.0
    else ReportedSum(m, Init(reports)) + Times(Last(reports).red.rates.Get(m), Last(reports).elapsed)
  }

  lemma {:induction false} ReportsAreTotals(bounds: Scale, m: Measure, windows: seq<seq<Entry>>, reports: seq<Report>)
    requires IsCounter(m) && AreReportsOf(bounds, windows, reports)
    ensures ReportedSum(m, reports) == Total(bounds, m, Flat(windows)) as real
  {
    if reports != [] {
      assert AreReportsOf(bounds, Init(windows), Init(reports));
      ReportsAreTotals(bounds, m, Init(windows), Init(reports));
      ReportIsTotal(bounds, m, Last(windows), Last(reports));
      TotalConcat(bounds, m, Flat(Init(windows)), Last(windows));
    }
  }

  /**
   However ingests and samples were placed: what all samples returned reported of requests, 4xx or 5xx,
   and the open window, add up to the entries of the lines the tailer ever returned.
   */
  lemma SamplesReportEverything(c: Collector, m: Measure)
    requires c.Valid() && IsCounter(m)
    ensures ReportedSum(m, c.reports) + Total(c.histogram.bounds, m, c.window) as real
         == Total(c.histogram.bounds, m, Entries(c.std, c.format, c.tailer.returned)) as real
    ensures m == Requests ==>
              Total(c.histogram.bounds, m, Entries(c.std, c.format, c.tailer.returned))
                == Parseable(c.std, c.format, c.tailer.returned)
  {
    ReportsAreTotals(c.histogram.bounds, m, c.closed, c.reports);
    TotalConcat(c.histogram.bounds, m, Flat(c.closed), c.window);
    EntriesAreParseableLines(c.std, c.format, c.tailer.returned);
    RequestsAreEntries(c.histogram.bounds, Entries(c.std, c.format, c.tailer.returned));
  }

  lemma OutputDecides(c: Collector, d: Collector)
    requires c.Valid() && d.Valid() && c.std == d.std && c.format == d.format && c.fed == d.fed
    ensures Flat(c.closed) + c.window == Flat(d.closed) + d.window && c.malformedLines == d.malformedLines
    ensures Lengths(c.closed) + |c.window| == Lengths(d.closed) + |d.window|
  {
    FlatLength(c.closed);
    FlatLength(d.closed);
  }

  /**
   What is counted does not depend on how the reads were cut: two collectors whose tailers made the passes
   of runs that left the same stretches behind and reached the same position of the same content
   have been fed the same lines and hold, reported or still open, the same entries.
   */
  lemma {:induction false} CountsIgnoreCuts(c: Collector, d: Collector, s: TailRuns.Sys, t: TailRuns.Sys,
                         es: seq<TailRuns.Event>, fs: seq<TailRuns.Event>, content: Bytes.Blob)
    requires c.Valid() && d.Valid() && c.std == d.std && c.format == d.format
    requires TailRuns.Begins(s) && TailDelivery.EveryCutShows(s, es) && c.tailer.visits == TailRuns.Passes(s, es)
    requires TailRuns.Begins(t) && TailDelivery.EveryCutShows(t, fs) && d.tailer.visits == TailRuns.Passes(t, fs)
    requires var u, v := TailRuns.Run(s, es), TailRuns.Run(t, fs);
      && TailDelivery.Follows(u, content) && TailDelivery.Follows(v, content)
      && u.log.past == v.log.past && u.stretch.start == v.stretch.start && u.pos.offset == v.pos.offset
    ensures c.fed == d.fed && Flat(c.closed) + c.window == Flat(d.closed) + d.window
    ensures Lengths(c.closed) + |c.window| == Lengths(d.closed) + |d.window| && c.malformedLines == d.malformedLines
  {
    TailRuns.PassesReturnTheOutput(s, es);
    TailRuns.PassesReturnTheOutput(t, fs);
    TailDelivery.CutsDoNotMatter(s, t, es, fs, TailRuns.Run(s, es), TailRuns.Run(t, fs), content);
    OutputDecides(c, d);
  }

  // ----- what a sample says -----

  lemma PercentileEstimates(bounds: Scale, es: seq<Entry>, p: real)
    requires AllClean(es) && es != [] && 0.0 < p < 1.0
    ensures Estimates(bounds, Durations(es), p, Percentile(bounds, WindowOf(bounds, es), p))
  {
    CleanDurations(es);
    RequestsAreEntries(bounds, es);
    QuantileEstimates(bounds, Durations(es), p);
  }

  /** What figures over a window's entries must be, each said of the entries themselves. */
  ghost predicate TrueOf(bounds: Scale, es: seq<Entry>, elapsed: real, rates: Rates, errorRatePct: Option<real>,
                         p50Ms: Option<real>, p95Ms: Option<real>, p99Ms: Option<real>) {
    && IsRate(rates.requestsPerS, elapsed, |es|)
    && IsRate(rates.status4xxPerS, elapsed, |Answered(es, 400, 500)|)
    && IsRate(rates.status5xxPerS, elapsed, |Failed(es)|)
    && if es == [] then errorRatePct == p50Ms == p95Ms == p99Ms == None
       else
         && errorRatePct.Some? && IsPercentage(errorRatePct.value, |Failed(es)|, |es|)
         && Estimates(bounds, Durations(es), 0.5, p50Ms)
         && Estimates(bounds, Durations(es), 0.95, p95Ms)
         && Estimates(bounds, Durations(es), 0.99, p99Ms)
  }

  lemma RatesAreTrue(bounds: Scale, es: seq<Entry>, elapsed: real)
    requires elapsed > 0.0
    ensures var rates := RatesOf(WindowOf(bounds, es), elapsed);
      && IsRate(rates.requestsPerS, elapsed, |es|)
      && IsRate(rates.status4xxPerS, elapsed, |Answered(es, 400, 500)|)
      && IsRate(rates.status5xxPerS, elapsed, |Failed(es)|)
  {
    TotalsCount(bounds, es);
    PerSecondIsRate(|es|, elapsed);
    PerSecondIsRate(|Answered(es, 400, 500)|, elapsed);
    PerSecondIsRate(|Failed(es)|, elapsed);
  }

  lemma ErrorRateIsTrue(bounds: Scale, es: seq<Entry>)
    ensures var errorRate := ErrorRate(WindowOf(bounds, es));
      if es == [] then errorRate == None
      else errorRate.Some? && IsPercentage(errorRate.value, |Failed(es)|, |es|)
  {
    TotalsCount(bounds, es);
    FailedAreSome(es);
    if es != [] { ShareIsPercentage(|Failed(es)|, |es|); }
  }

  lemma {:induction false} FailedAreSome(es: seq<Entry>)
    ensures |Failed(es)| <= |es|
  {
    if es != [] {
      FailedAreSome(Init(es));
      FailedStep(es);
    } else {
      assert Failed(es) == {};
    }
  }

  lemma FiguresAreTrue(bounds: Scale, es: seq<Entry>, elapsed: real)
    requires AllClean(es) && elapsed > 0.0
    ensures var w := WindowOf(bounds, es);
      TrueOf(bounds, es, elapsed, RatesOf(w, elapsed), ErrorRate(w), Percentile(bounds, w, 0.5),
             Percentile(bounds, w, 0.95), Percentile(bounds, w, 0.99))
  {
    RatesAreTrue(bounds, es, elapsed);
    ErrorRateIsTrue(bounds, es);
    if es == [] {
      PercentilesInOrder(bounds, es);
    } else {
      PercentileEstimates(bounds, es, 0.5);
      PercentileEstimates(bounds, es, 0.95);
      PercentileEstimates(bounds, es, 0.99);
    }
  }

  /**
   Every figure of a sample is true of the entries of its window: the rates count them, the error rate is
   the share of those answered 500 or more, and the percentiles estimate their durations.
   */
  lemma {:induction false} SampleIsTrue(bounds: Scale, es: seq<Entry>, elapsed: real, red: RED)
    requires AllClean(es) && elapsed > 0.0 && IsRED(bounds, es, elapsed, red)
    ensures TrueOf(bounds, es, elapsed, red.rates, red.errorRatePct, red.p50Ms, red.p95Ms, red.p99Ms)
  {
    FiguresAreTrue(bounds, es, elapsed);
  }

  /** And every figure of a named row is true of the entries that name its site, of which there is one at least. */
  lemma {:induction false} RowsAreTrue(bounds: Scale, es: seq<Entry>, elapsed: real, rows: seq<SiteRED>, row: SiteRED)
    requires AllClean(es) && elapsed > 0.0 && IsReport(bounds, SitesOf(bounds, es), elapsed, rows)
    requires row in rows && row.host != "(other)"
    ensures var own := Within(es, {row.host});
      && own != [] && |own| == |For(es, row.host)| && (forall e :: e in own <==> e in es && e.host == row.host)
      && TrueOf(bounds, own, elapsed, row.rates, row.errorRatePct, row.p50Ms, row.p95Ms, row.p99Ms)
  {
    var named := ReportShape(bounds, SitesOf(bounds, es), elapsed, rows);
    var i :| 0 <= i < |rows| && rows[i] == row;
    assert i < named && rows[..named][i] == row;
    var own := Within(es, {row.host});
    assert SitesOf(bounds, es)[row.host] == WindowOf(bounds, own);
    NamedHasEntries(es, row.host);
    WithinIsOwn(es, row.host);
    WithinIsClean(es, {row.host});
    FiguresAreTrue(bounds, own, elapsed);
  }

  lemma NamedHasEntries(es: seq<Entry>, host: string)
    requires AllClean(es) && host in Slots(es) && host != "(other)"
    ensures Within(es, {host}) != []
  {
    WithinIsOwn(es, host);
    NamedWasNamed(es, host);
  }

  lemma {:induction false} NamedWasNamed(es: seq<Entry>, host: string)
    requires host in Named(es)
    ensures exists e :: e in es && e.host == host
  {
    if Last(es).host == host {
      assert Last(es) in es;
    } else {
      NamedWasNamed(Init(es), host);
      assert forall e :: e in Init(es) ==> e in es;
    }
  }

  /** A sample's own rate, multiplied out, is the number of entries of its window. */
  lemma SampleCountsWindow(bounds: Scale, es: seq<Entry>, elapsed: real, red: RED)
    requires AllClean(es) && elapsed > 0.0 && IsRED(bounds, es, elapsed, red)
    ensures Times(red.rates.requestsPerS, elapsed) == |es| as real
    ensures forall m :: IsCounter(m) ==>
              Times(SumRates(red.sites).Get(m), elapsed) == Total(bounds, m, Hosted(es)) as real
    ensures es == [] ==> red.p50Ms == red.p95Ms == red.p99Ms == red.errorRatePct == None
    ensures es != [] ==> red.p50Ms.Some? && red.p95Ms.Some? && red.p99Ms.Some? && red.errorRatePct.Some?
    ensures es != [] ==> 0.0 <= red.p50Ms.value <= red.p95Ms.value <= red.p99Ms.value
  {
    RequestsAreEntries(bounds, es);
    RateOfReading(bounds, Requests, WindowOf(bounds, es), elapsed);
    forall m | IsCounter(m) ensures Times(SumRates(red.sites).Get(m), elapsed) == Total(bounds, m, Hosted(es)) as real {
      ReportConserves(bounds, m, es, elapsed, red.sites);
    }
    PercentilesInOrder(bounds, es);
  }
}
