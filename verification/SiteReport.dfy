/**
 The per-site rows of a sample: busiest first, at most `MAX_REPORTED_SITES` by name, the rest
 summed into one last row.

 `IsReport` says which rows are right for given site windows without saying how they are found;
 the lemmas show that there is only one such answer, what it looks like, and that it adds up.
 */
module SiteReport {

  import opened Wrappers
  import opened Sequences
  import opened AccessLog
  import opened LatencyHistogram
  import opened SiteWindows
  import opened Ratios

  const MAX_REPORTED_SITES: nat := 20

  datatype Rates = Rates(requestsPerS: real, status4xxPerS: real, status5xxPerS: real) {
    function Plus(more: Rates): Rates {
      Rates(requestsPerS + more.requestsPerS, status4xxPerS + more.status4xxPerS, status5xxPerS + more.status5xxPerS)
    }

    function Get(m: Measure): real {
      match m
      case Requests => requestsPerS
      case Status4xx => status4xxPerS
      case _ => status5xxPerS
    }
  }

  const NO_RATES := Rates(0.0, 0.0, 0.0)

  datatype SiteRED = SiteRED(
    host: string, rates: Rates,
    errorRatePct: Option<real>, p50Ms: Option<real>, p95Ms: Option<real>, p99Ms: Option<real>)

  function RatesOf(w: Window, elapsed: real): Rates
    requires elapsed > 0.0
  {
    Rates(PerSecond(w.requests, elapsed), PerSecond(w.status4xx, elapsed), PerSecond(w.status5xx, elapsed))
  }

  function ErrorRate(w: Window): Option<real> {
    if w.requests > 0 then Some(w.status5xx as real / w.requests as real * 100.0) else None
  }

  function Percentile(bounds: Scale, w: Window, p: real): Option<real>
    requires |w.hist.counts| == |bounds| + 1
  {
    if w.requests > 0 then Quantile(bounds, w.hist, p) else None
  }

  function Row(bounds: Scale, host: string, w: Window, elapsed: real): SiteRED
    requires |w.hist.counts| == |bounds| + 1 && elapsed > 0.0
  {
    SiteRED(host, RatesOf(w, elapsed), ErrorRate(w),
            Percentile(bounds, w, 0.5), Percentile(bounds, w, 0.95), Percentile(bounds, w, 0.99))
  }

  // No percentiles for the overflow row.
  function OverflowRow(rates: Rates): SiteRED {
    SiteRED(OVERFLOW_SITE, rates, None, None, None, None)
  }

  // ----- the order of the rows -----

  predicate StringLess(a: string, b: string) {
    if b == "" then false
    else if a == "" then true
    else if a[0] != b[0] then a[0] < b[0]
    else StringLess(a[1..], b[1..])
  }

  lemma {:induction false} StringLessIsStrict(a: string, b: string)
    ensures a == b ==> !StringLess(a, b)
    ensures !(StringLess(a, b) && StringLess(b, a))
    ensures StringLess(a, b) || StringLess(b, a) || a == b
  {
    if a != "" && b != "" {
      StringLessIsStrict(a[1..], b[1..]);
      assert a == [a[0]] + a[1..] && b == [b[0]] + b[1..];
    }
  }

  /** Byte by byte: the first difference decides, and a beginning comes before what it begins. */
  ghost predicate DiffersAt(a: string, b: string, k: nat) {
    k <= |a| && k < |b| && a[..k] == b[..k] && (k == |a| || a[k] < b[k])
  }

  lemma SameStart(a: string, b: string, k: nat)
    requires DiffersAt(a, b, k)
    ensures k > 0 ==> a != "" && b != "" && a[0] == b[0]
  {
    if k > 0 { assert a[..k][0] == b[..k][0]; }
  }

  lemma DiffersLater(a: string, b: string, k: nat)
    requires a != "" && b != "" && a[0] == b[0] && k > 0
    ensures DiffersAt(a, b, k) <==> DiffersAt(a[1..], b[1..], k - 1)
  {
    if k <= |a| && k <= |b| {
      assert a[..k] == [a[0]] + a[1..][..k - 1] && b[..k] == [b[0]] + b[1..][..k - 1];
      assert a[1..][..k - 1] == a[..k][1..] && b[1..][..k - 1] == b[..k][1..];
    }
  }

  lemma {:induction false} StringLessIsLexical(a: string, b: string)
    ensures StringLess(a, b) <==> exists k: nat :: DiffersAt(a, b, k)
  {
    if a == "" || b == "" || a[0] != b[0] {
      if StringLess(a, b) { assert DiffersAt(a, b, 0); }
      forall k: nat | DiffersAt(a, b, k) ensures StringLess(a, b) {
        SameStart(a, b, k);
      }
    } else {
      StringLessIsLexical(a[1..], b[1..]);
      if StringLess(a, b) {
        var k: nat :| DiffersAt(a[1..], b[1..], k);
        DiffersLater(a, b, k + 1);
      }
      forall k: nat | DiffersAt(a, b, k) ensures StringLess(a, b) { DiffersLater(a, b, k); }
    }
  }

  lemma {:induction false} StringLessTransitive(a: string, b: string, c: string)
    requires StringLess(a, b) && StringLess(b, c)
    ensures StringLess(a, c)
  {
    if a != "" && a[0] == b[0] == c[0] { StringLessTransitive(a[1..], b[1..], c[1..]); }
  }

  /** Busier first, by name under equal load. */
  predicate Before(a: SiteRED, b: SiteRED) {
    if a.rates.requestsPerS != b.rates.requestsPerS then a.rates.requestsPerS > b.rates.requestsPerS
    else StringLess(a.host, b.host)
  }

  lemma BeforeIsStrict(a: SiteRED, b: SiteRED)
    ensures !(Before(a, b) && Before(b, a))
    ensures a.host != b.host ==> Before(a, b) || Before(b, a)
  {
    StringLessIsStrict(a.host, b.host);
  }

  lemma BeforeTransitive(a: SiteRED, b: SiteRED, c: SiteRED)
    requires Before(a, b) && Before(b, c)
    ensures Before(a, c)
  {
    if a.rates.requestsPerS == b.rates.requestsPerS == c.rates.requestsPerS {
      StringLessTransitive(a.host, b.host, c.host);
    }
  }

  ghost predicate Ranked(rows: seq<SiteRED>) {
    forall i, j :: 0 <= i < j < |rows| ==> Before(rows[i], rows[j])
  }

  ghost predicate DistinctHosts(rows: seq<SiteRED>) {
    forall i, j :: 0 <= i < j < |rows| ==> rows[i].host != rows[j].host
  }

  // Put a row in its place among ranked ones.
  function Inserted(rows: seq<SiteRED>, row: SiteRED): seq<SiteRED> {
    if rows == [] || Before(Last(rows), row) then rows + [row]
    else Inserted(Init(rows), row) + [Last(rows)]
  }

  lemma {:induction false} InsertedContents(rows: seq<SiteRED>, row: SiteRED)
    ensures multiset(Inserted(rows, row)) == multiset(rows) + multiset{row}
  {
    if rows != [] && !Before(Last(rows), row) {
      InsertedContents(Init(rows), row);
      assert rows == Init(rows) + [Last(rows)];
    }
  }

  lemma InMultiset(rows: seq<SiteRED>, r: SiteRED)
    ensures r in rows <==> r in multiset(rows)
  {
  }

  lemma {:induction false} InsertedRanks(rows: seq<SiteRED>, row: SiteRED)
    requires Ranked(rows) && forall i :: 0 <= i < |rows| ==> rows[i].host != row.host
    ensures Ranked(Inserted(rows, row))
  {
    if rows == [] {
    } else if Before(Last(rows), row) {
      forall i | 0 <= i < |rows| - 1 ensures Before(rows[i], row) { BeforeTransitive(rows[i], Last(rows), row); }
    } else {
      var front, last := Init(rows), Last(rows);
      InsertedRanks(front, row);
      InsertedContents(front, row);
      BeforeIsStrict(last, row);
      var placed := Inserted(front, row);
      forall i | 0 <= i < |placed| ensures Before(placed[i], last) {
        InMultiset(placed, placed[i]);
        InMultiset(front, placed[i]);
        assert placed[i] in front || placed[i] == row;
      }
    }
  }

  /** sort.Slice, on rows that name different sites. */
  method SortSites(rows: seq<SiteRED>) returns (sorted: seq<SiteRED>)
    requires DistinctHosts(rows)
    ensures Ranked(sorted) && multiset(sorted) == multiset(rows)
  {
    sorted := [];
    for i := 0 to |rows|
      invariant Ranked(sorted) && multiset(sorted) == multiset(rows[..i])
    {
      assert rows[..i + 1] == rows[..i] + [rows[i]];
      forall k | 0 <= k < |sorted| ensures sorted[k].host != rows[i].host {
        InMultiset(sorted, sorted[k]);
        InMultiset(rows[..i], sorted[k]);
      }
      InsertedRanks(sorted, rows[i]);
      InsertedContents(sorted, rows[i]);
      sorted := Inserted(sorted, rows[i]);
    }
    assert rows[..|rows|] == rows;
  }

  // ----- the report -----

  ghost predicate GoodSites(bounds: Scale, sites: map<string, Window>) {
    forall h :: h in sites ==> |sites[h].hist.counts| == |bounds| + 1
  }

  /** One row per site, and no other, in order. */
  ghost predicate IsRanking(bounds: Scale, sites: map<string, Window>, elapsed: real, ranking: seq<SiteRED>)
    requires GoodSites(bounds, sites) && elapsed > 0.0
  {
    && Ranked(ranking)
    && (forall r :: r in ranking ==>
          r.host in sites && r.host != OVERFLOW_SITE && r == Row(bounds, r.host, sites[r.host], elapsed))
    && (forall h :: h in sites && h != OVERFLOW_SITE ==> Row(bounds, h, sites[h], elapsed) in ranking)
  }

  function SumRates(rows: seq<SiteRED>): Rates {
    if rows == [] then NO_RATES else SumRates(Init(rows)).Plus(Last(rows).rates)
  }

  function OverflowRates(sites: map<string, Window>, elapsed: real): Option<Rates>
    requires elapsed > 0.0
  {
    if OVERFLOW_SITE in sites then Some(RatesOf(sites[OVERFLOW_SITE], elapsed)) else None
  }

  function Folded(ranking: seq<SiteRED>): seq<SiteRED> {
    if |ranking| > MAX_REPORTED_SITES then ranking[MAX_REPORTED_SITES..] else []
  }

  function Reported(ranking: seq<SiteRED>): seq<SiteRED> {
    if |ranking| > MAX_REPORTED_SITES then ranking[..MAX_REPORTED_SITES] else ranking
  }

  /** The first rows by name; the rest, and whatever overflowed already, in one row after them. */
  function Cut(ranking: seq<SiteRED>, overflow: Option<Rates>): seq<SiteRED> {
    if Folded(ranking) == [] && overflow == None then ranking
    else
      var already := if overflow == None then NO_RATES else overflow.value;
      Reported(ranking) + [OverflowRow(already.Plus(SumRates(Folded(ranking))))]
  }

  ghost predicate IsReport(bounds: Scale, sites: map<string, Window>, elapsed: real, rows: seq<SiteRED>)
    requires GoodSites(bounds, sites) && elapsed > 0.0
  {
    exists ranking :: IsRanking(bounds, sites, elapsed, ranking) && rows == Cut(ranking, OverflowRates(sites, elapsed))
  }

  lemma RankedFirst(a: seq<SiteRED>, b: seq<SiteRED>)
    requires Ranked(a) && Ranked(b) && a != [] && forall r :: r in a <==> r in b
    ensures b != [] && a[0] == b[0]
  {
    assert a[0] in a;
    var i :| 0 <= i < |b| && b[i] == a[0];
    assert b[0] in b;
    var j :| 0 <= j < |a| && a[j] == b[0];
    BeforeIsStrict(a[0], b[0]);
  }

  lemma {:induction false} RankingUnique(a: seq<SiteRED>, b: seq<SiteRED>)
    requires Ranked(a) && Ranked(b) && forall r :: r in a <==> r in b
    ensures a == b
  {
    if a == [] {
      assert forall i :: 0 <= i < |b| ==> b[i] in a;
    } else {
      RankedFirst(a, b);
      RankedTail(a);
      RankedTail(b);
      RankingUnique(a[1..], b[1..]);
      assert a == [a[0]] + a[1..] && b == [b[0]] + b[1..];
    }
  }

  lemma RankedTail(a: seq<SiteRED>)
    requires Ranked(a) && a != []
    ensures Ranked(a[1..]) && forall r :: r in a[1..] <==> r in a && r != a[0]
  {
    BeforeIsStrict(a[0], a[0]);
    forall r | r in a && r != a[0] ensures r in a[1..] {
      var i :| 0 <= i < |a| && a[i] == r;
      assert a[1..][i - 1] == r;
    }
    forall r | r in a[1..] ensures r != a[0] {
      var i :| 0 <= i < |a[1..]| && a[1..][i] == r;
      assert Before(a[0], a[i + 1]);
    }
  }

  /** Any two right answers are the same: the order in which the map is walked cannot show. */
  lemma ReportIsUnique(bounds: Scale, sites: map<string, Window>, elapsed: real, a: seq<SiteRED>, b: seq<SiteRED>)
    requires GoodSites(bounds, sites) && elapsed > 0.0
    requires IsReport(bounds, sites, elapsed, a) && IsReport(bounds, sites, elapsed, b)
    ensures a == b
  {
    var ra :| IsRanking(bounds, sites, elapsed, ra) && a == Cut(ra, OverflowRates(sites, elapsed));
    var rb :| IsRanking(bounds, sites, elapsed, rb) && b == Cut(rb, OverflowRates(sites, elapsed));
    RankingUnique(ra, rb);
  }

  lemma RankingHosts(bounds: Scale, sites: map<string, Window>, elapsed: real, ranking: seq<SiteRED>)
    requires GoodSites(bounds, sites) && elapsed > 0.0 && IsRanking(bounds, sites, elapsed, ranking)
    ensures DistinctHosts(ranking)
  {
    forall i, j | 0 <= i < j < |ranking| ensures ranking[i].host != ranking[j].host {
      assert ranking[i] in ranking && ranking[j] in ranking;
      assert Before(ranking[i], ranking[j]);
      BeforeIsStrict(ranking[i], ranking[i]);
    }
  }

  lemma CutShape(ranking: seq<SiteRED>, overflow: Option<Rates>)
    requires Ranked(ranking) && DistinctHosts(ranking) && forall r :: r in ranking ==> r.host != OVERFLOW_SITE
    ensures var rows := Cut(ranking, overflow);
      && |Reported(ranking)| <= |rows| <= |Reported(ranking)| + 1
      && |Reported(ranking)| == (if |ranking| <= 20 then |ranking| else 20)
      && (forall i :: 0 <= i < |Reported(ranking)| ==> rows[i] == ranking[i] && rows[i].host != OVERFLOW_SITE)
      && (|rows| > |Reported(ranking)| <==> |ranking| > 20 || overflow.Some?)
      && (|rows| > |Reported(ranking)| ==>
            && Last(rows).host == OVERFLOW_SITE && Last(rows).errorRatePct == None
            && Last(rows).p50Ms == Last(rows).p95Ms == Last(rows).p99Ms == None)
      && DistinctHosts(rows)
      && (forall r, i :: r in ranking && r !in rows && 0 <= i < |Reported(ranking)| ==> Before(rows[i], r))
  {
    var rows := Cut(ranking, overflow);
    forall r, i | r in ranking && r !in rows && 0 <= i < |Reported(ranking)| ensures Before(rows[i], r) {
      var k :| 0 <= k < |ranking| && ranking[k] == r;
      assert forall j :: 0 <= j < |Reported(ranking)| ==> rows[j] in rows && rows[j] == ranking[j];
    }
  }

  lemma RankingRow(bounds: Scale, sites: map<string, Window>, elapsed: real, ranking: seq<SiteRED>, i: nat)
    requires GoodSites(bounds, sites) && elapsed > 0.0 && IsRanking(bounds, sites, elapsed, ranking) && i < |ranking|
    ensures ranking[i].host in sites && ranking[i].host != OVERFLOW_SITE
    ensures ranking[i] == Row(bounds, ranking[i].host, sites[ranking[i].host], elapsed)
  {
    assert ranking[i] in ranking;
  }

  // Busier, or as busy and earlier by name.
  ghost predicate Leads(a: SiteRED, b: SiteRED) {
    a.rates.requestsPerS > b.rates.requestsPerS
    || (a.rates.requestsPerS == b.rates.requestsPerS && exists k: nat :: DiffersAt(a.host, b.host, k))
  }

  lemma BeforeLeads(a: SiteRED, b: SiteRED)
    requires Before(a, b)
    ensures Leads(a, b)
  {
    StringLessIsLexical(a.host, b.host);
  }

  lemma NamedRowsLead(rows: seq<SiteRED>, ranking: seq<SiteRED>)
    requires Ranked(ranking) && |rows| <= |ranking| && forall i :: 0 <= i < |rows| ==> rows[i] == ranking[i]
    ensures forall i, j :: 0 <= i < j < |rows| ==> Leads(rows[i], rows[j])
  {
    forall i, j | 0 <= i < j < |rows| ensures Leads(rows[i], rows[j]) { BeforeLeads(ranking[i], ranking[j]); }
  }

  /** Each named row is that site's own, every other site has been left out, and none of those is busier. */
  ghost predicate NamesTheBusiest(bounds: Scale, sites: map<string, Window>, elapsed: real, rows: seq<SiteRED>)
    requires GoodSites(bounds, sites) && elapsed > 0.0
  {
    && (forall i :: 0 <= i < |rows| ==>
          && rows[i].host in sites && rows[i].host != OVERFLOW_SITE
          && rows[i] == Row(bounds, rows[i].host, sites[rows[i].host], elapsed))
    && (forall i, j :: 0 <= i < j < |rows| ==> Leads(rows[i], rows[j]))
    && (forall h :: h in sites && h != OVERFLOW_SITE ==>
          var row := Row(bounds, h, sites[h], elapsed);
          row in rows || (|rows| == 20 && forall i :: 0 <= i < |rows| ==> Leads(rows[i], row)))
  }

  lemma RankingNames(bounds: Scale, sites: map<string, Window>, elapsed: real, ranking: seq<SiteRED>)
    requires GoodSites(bounds, sites) && elapsed > 0.0 && IsRanking(bounds, sites, elapsed, ranking)
    ensures NamesTheBusiest(bounds, sites, elapsed, Reported(ranking))
  {
    var rows := Reported(ranking);
    forall i | 0 <= i < |rows|
      ensures rows[i].host in sites && rows[i].host != OVERFLOW_SITE
      ensures rows[i] == Row(bounds, rows[i].host, sites[rows[i].host], elapsed)
    {
      RankingRow(bounds, sites, elapsed, ranking, i);
    }
    NamedRowsLead(rows, ranking);
    forall h | h in sites && h != OVERFLOW_SITE
      ensures var row := Row(bounds, h, sites[h], elapsed);
        row in rows || (|rows| == 20 && forall i :: 0 <= i < |rows| ==> Leads(rows[i], row))
    {
      var row := Row(bounds, h, sites[h], elapsed);
      var k :| 0 <= k < |ranking| && ranking[k] == row;
      if k < |rows| {
        assert rows[k] == row;
      } else {
        forall i | 0 <= i < |rows| ensures Leads(rows[i], row) { BeforeLeads(ranking[i], ranking[k]); }
      }
    }
  }

  /**
   At most twenty named rows, each that site's own, busiest first, by name under equal load; a site is left out
   only when there are twenty, each of them before it in that order. One row "(other)" after them,
   without error rate or percentiles, if and only if a site was left out or requests had overflowed.
   No host twice.
   */
  lemma ReportShape(bounds: Scale, sites: map<string, Window>, elapsed: real, rows: seq<SiteRED>)
    returns (named: nat)
    requires GoodSites(bounds, sites) && elapsed > 0.0 && IsReport(bounds, sites, elapsed, rows)
    ensures named <= 20 && named <= |rows| <= named + 1 && DistinctHosts(rows)
    ensures NamesTheBusiest(bounds, sites, elapsed, rows[..named])
    ensures |rows| > named <==>
              "(other)" in sites
              || exists h :: h in sites && h != "(other)" && Row(bounds, h, sites[h], elapsed) !in rows[..named]
    ensures |rows| > named ==>
      Last(rows) == SiteRED("(other)", Last(rows).rates, None, None, None, None)
  {
    var ranking :| IsRanking(bounds, sites, elapsed, ranking) && rows == Cut(ranking, OverflowRates(sites, elapsed));
    RankingHosts(bounds, sites, elapsed, ranking);
    CutShape(ranking, OverflowRates(sites, elapsed));
    RankingNames(bounds, sites, elapsed, ranking);
    named := |Reported(ranking)|;
    assert rows[..named] == Reported(ranking);
    if |ranking| > 20 {
      RankingRow(bounds, sites, elapsed, ranking, 20);
      assert ranking[20] !in rows[..named];
    } else {
      assert rows[..named] == ranking;
    }
  }

  // ----- the report adds up -----

  lemma {:induction false} SumRatesConcat(a: seq<SiteRED>, b: seq<SiteRED>)
    ensures SumRates(a + b) == SumRates(a).Plus(SumRates(b))
  {
    if b == [] {
      assert a + b == a;
    } else {
      assert Init(a + b) == a + Init(b);
      SumRatesConcat(a, Init(b));
    }
  }

  lemma CutKeepsSum(ranking: seq<SiteRED>, overflow: Option<Rates>)
    ensures SumRates(Cut(ranking, overflow))
         == SumRates(ranking).Plus(if overflow == None then NO_RATES else overflow.value)
  {
    var already := if overflow == None then NO_RATES else overflow.value;
    var last := OverflowRow(already.Plus(SumRates(Folded(ranking))));
    assert ranking == Reported(ranking) + Folded(ranking);
    SumRatesConcat(Reported(ranking), Folded(ranking));
    Snoc(Reported(ranking), last);
  }

  function HostsOf(rows: seq<SiteRED>): (hosts: seq<string>)
    ensures |hosts| == |rows| && forall i :: 0 <= i < |rows| ==> hosts[i] == rows[i].host
  {
    if rows == [] then [] else HostsOf(Init(rows)) + [Last(rows).host]
  }

  ghost predicate IsCounter(m: Measure) {
    m == Requests || m == Status4xx || m == Status5xx
  }

  lemma RateOfReading(bounds: Scale, m: Measure, w: Window, elapsed: real)
    requires |w.hist.counts| == |bounds| + 1 && elapsed > 0.0 && IsCounter(m)
    ensures Times(RatesOf(w, elapsed).Get(m), elapsed) == Reading(bounds, m, w) as real
  {
    RateUndone(Reading(bounds, m, w), elapsed);
  }

  // Each row's rate is its site's reading over the time elapsed.
  ghost predicate RowsOfSites(bounds: Scale, m: Measure, sites: map<string, Window>, elapsed: real, rows: seq<SiteRED>)
    requires GoodSites(bounds, sites)
  {
    forall i :: 0 <= i < |rows| ==>
      rows[i].host in sites && Times(rows[i].rates.Get(m), elapsed) == Reading(bounds, m, sites[rows[i].host]) as real
  }

  lemma HostsAreSites(bounds: Scale, m: Measure, sites: map<string, Window>, elapsed: real, rows: seq<SiteRED>)
    requires GoodSites(bounds, sites) && RowsOfSites(bounds, m, sites, elapsed, rows)
    ensures forall h :: h in HostsOf(rows) ==> h in sites
  {
  }

  lemma {:induction false} SumRatesIsSum(bounds: Scale, m: Measure, sites: map<string, Window>, elapsed: real,
                                         rows: seq<SiteRED>)
    requires GoodSites(bounds, sites) && IsCounter(m) && RowsOfSites(bounds, m, sites, elapsed, rows)
    requires forall h :: h in HostsOf(rows) ==> h in sites
    ensures Times(SumRates(rows).Get(m), elapsed) == SumOver(bounds, m, sites, HostsOf(rows)) as real
  {
    if rows != [] {
      var front, last := Init(rows), Last(rows);
      Snoc(HostsOf(front), last.host);
      HostsAreSites(bounds, m, sites, elapsed, front);
      SumRatesIsSum(bounds, m, sites, elapsed, front);
      assert SumOver(bounds, m, sites, HostsOf(rows))
          == SumOver(bounds, m, sites, HostsOf(front)) + Reading(bounds, m, sites[last.host]);
      SumStep(m, front, last, elapsed);
    }
  }

  lemma SumStep(m: Measure, rows: seq<SiteRED>, row: SiteRED, elapsed: real)
    ensures Times(SumRates(rows + [row]).Get(m), elapsed)
         == Times(SumRates(rows).Get(m), elapsed) + Times(row.rates.Get(m), elapsed)
  {
    Snoc(rows, row);
    TimesDistributes(SumRates(rows).Get(m), row.rates.Get(m), elapsed);
  }

  lemma RankingRates(bounds: Scale, m: Measure, sites: map<string, Window>, elapsed: real, ranking: seq<SiteRED>)
    requires GoodSites(bounds, sites) && elapsed > 0.0 && IsRanking(bounds, sites, elapsed, ranking) && IsCounter(m)
    ensures RowsOfSites(bounds, m, sites, elapsed, ranking)
  {
    forall i | 0 <= i < |ranking|
      ensures ranking[i].host in sites
      ensures Times(ranking[i].rates.Get(m), elapsed) == Reading(bounds, m, sites[ranking[i].host]) as real
    {
      RankingRow(bounds, sites, elapsed, ranking, i);
      assert ranking[i].rates == RatesOf(sites[ranking[i].host], elapsed);
      RateOfReading(bounds, m, sites[ranking[i].host], elapsed);
    }
  }

  lemma RankingEnumerates(bounds: Scale, sites: map<string, Window>, elapsed: real, ranking: seq<SiteRED>)
    requires GoodSites(bounds, sites) && elapsed > 0.0 && IsRanking(bounds, sites, elapsed, ranking)
    ensures Distinct(HostsOf(ranking)) && Elements(HostsOf(ranking)) == sites.Keys - {OVERFLOW_SITE}
  {
    RankingHosts(bounds, sites, elapsed, ranking);
    var names := HostsOf(ranking);
    assert forall i :: 0 <= i < |ranking| ==> ranking[i] in ranking;
    forall h | h in sites && h != OVERFLOW_SITE ensures h in names {
      var i :| 0 <= i < |ranking| && ranking[i] == Row(bounds, h, sites[h], elapsed);
      assert names[i] == h;
    }
  }

  lemma OverflowConserves(bounds: Scale, m: Measure, sites: map<string, Window>, elapsed: real)
    requires GoodSites(bounds, sites) && elapsed > 0.0 && IsCounter(m)
    ensures var overflow := OverflowRates(sites, elapsed);
      Times((if overflow == None then NO_RATES else overflow.value).Get(m), elapsed)
        == OverflowReading(bounds, m, sites) as real
  {
    if OVERFLOW_SITE in sites { RateOfReading(bounds, m, sites[OVERFLOW_SITE], elapsed); }
  }

  lemma CutTimes(m: Measure, elapsed: real, ranking: seq<SiteRED>, overflow: Option<Rates>)
    ensures Times(SumRates(Cut(ranking, overflow)).Get(m), elapsed)
         == Times(SumRates(ranking).Get(m), elapsed)
          + Times((if overflow == None then NO_RATES else overflow.value).Get(m), elapsed)
  {
    CutKeepsSum(ranking, overflow);
    PlusTimes(m, SumRates(ranking), if overflow == None then NO_RATES else overflow.value, elapsed);
  }

  lemma PlusTimes(m: Measure, a: Rates, b: Rates, elapsed: real)
    ensures Times(a.Plus(b).Get(m), elapsed) == Times(a.Get(m), elapsed) + Times(b.Get(m), elapsed)
  {
    TimesDistributes(a.Get(m), b.Get(m), elapsed);
  }

  lemma CutConserves(bounds: Scale, m: Measure, sites: map<string, Window>, elapsed: real,
                     ranking: seq<SiteRED>, overflow: Option<Rates>)
    requires GoodSites(bounds, sites) && IsCounter(m) && RowsOfSites(bounds, m, sites, elapsed, ranking)
    ensures forall h :: h in HostsOf(ranking) ==> h in sites
    ensures Times(SumRates(Cut(ranking, overflow)).Get(m), elapsed)
         == SumOver(bounds, m, sites, HostsOf(ranking)) as real
          + Times((if overflow == None then NO_RATES else overflow.value).Get(m), elapsed)
  {
    HostsAreSites(bounds, m, sites, elapsed, ranking);
    SumRatesIsSum(bounds, m, sites, elapsed, ranking);
    CutTimes(m, elapsed, ranking, overflow);
  }

  lemma RankingConserves(bounds: Scale, m: Measure, es: seq<Entry>, elapsed: real, ranking: seq<SiteRED>)
    requires AllClean(es) && elapsed > 0.0 && IsCounter(m)
    requires IsRanking(bounds, SitesOf(bounds, es), elapsed, ranking)
    ensures Times(SumRates(Cut(ranking, OverflowRates(SitesOf(bounds, es), elapsed))).Get(m), elapsed)
         == Total(bounds, m, Hosted(es)) as real
  {
    var sites := SitesOf(bounds, es);
    RankingRates(bounds, m, sites, elapsed, ranking);
    RankingEnumerates(bounds, sites, elapsed, ranking);
    CutConserves(bounds, m, sites, elapsed, ranking, OverflowRates(sites, elapsed));
    OverflowConserves(bounds, m, sites, elapsed);
    SitesConserve(bounds, m, es, HostsOf(ranking));
  }

  /**
   The rows lose nothing: their rates, multiplied out, add up to the entries of the window that
   name a site, for requests, 4xx and 5xx alike.
   */
  lemma ReportConserves(bounds: Scale, m: Measure, es: seq<Entry>, elapsed: real, rows: seq<SiteRED>)
    requires AllClean(es) && elapsed > 0.0 && IsCounter(m)
    requires IsReport(bounds, SitesOf(bounds, es), elapsed, rows)
    ensures Times(SumRates(rows).Get(m), elapsed) == Total(bounds, m, Hosted(es)) as real
  {
    var sites := SitesOf(bounds, es);
    var ranking :| IsRanking(bounds, sites, elapsed, ranking) && rows == Cut(ranking, OverflowRates(sites, elapsed));
    RankingConserves(bounds, m, es, elapsed, ranking);
  }

  /** Percentiles are there exactly when there were requests, and in order. */
  lemma PercentilesInOrder(bounds: Scale, es: seq<Entry>)
    requires AllClean(es)
    ensures var w := WindowOf(bounds, es);
      var a, b, c := Percentile(bounds, w, 0.5), Percentile(bounds, w, 0.95), Percentile(bounds, w, 0.99);
      if es == [] then a == b == c == None
      else a.Some? && b.Some? && c.Some? && 0.0 <= a.value <= b.value <= c.value
  {
    CleanDurations(es);
    RequestsAreEntries(bounds, es);
    if es != [] {
      QuantileMonotone(bounds, Durations(es), 0.5, 0.95);
      QuantileMonotone(bounds, Durations(es), 0.95, 0.99);
      assert Least(Durations(es)) in Durations(es);
    }
  }
}
