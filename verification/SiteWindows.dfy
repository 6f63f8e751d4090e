/**
 What one window of access-log entries amounts to, in total and per site.

 A window is the sequence of entries ingested since the last sample; every counter, histogram
 and per-site slot the collector keeps is a function of it.
 */
module SiteWindows {

  import opened Sequences
  import opened AccessLog
  import opened LatencyHistogram

  const MAX_TRACKED_SITES: nat := 48

  // ----- totals -----

  datatype Measure = Requests | Status4xx | Status5xx | InBucketNo(i: nat)

  function Weight(bounds: Scale, m: Measure, e: Entry): nat {
    match m
    case Requests => 1
    case Status4xx => if 400 <= e.statusCode < 500 then 1 else 0
    case Status5xx => if e.statusCode >= 500 then 1 else 0
    case InBucketNo(i) => if e.durationMs >= 0.0 && Bucket(bounds, e.durationMs) == i then 1 else 0
  }

  function Total(bounds: Scale, m: Measure, es: seq<Entry>): nat {
    if es == [] then 0 else Total(bounds, m, Init(es)) + Weight(bounds, m, Last(es))
  }

  /** The durations the histogram accepts. */
  function Durations(es: seq<Entry>): (ds: seq<real>)
    ensures NonNegative(ds)
  {
    if es == [] then []
    else Heard(Durations(Init(es)), Last(es).durationMs)
  }

  datatype Window = Window(requests: nat, status4xx: nat, status5xx: nat, hist: Hist)

  ghost function WindowOf(bounds: Scale, es: seq<Entry>): Window {
    Window(Total(bounds, Requests, es), Total(bounds, Status4xx, es), Total(bounds, Status5xx, es),
           Summary(bounds, Durations(es)))
  }

  function Reading(bounds: Scale, m: Measure, w: Window): nat
    requires |w.hist.counts| == |bounds| + 1
  {
    match m
    case Requests => w.requests
    case Status4xx => w.status4xx
    case Status5xx => w.status5xx
    case InBucketNo(i) => if i <= |bounds| then w.hist.counts[i] else 0
  }

  lemma {:induction false} CountIsTotal(bounds: Scale, es: seq<Entry>, i: nat)
    ensures Count(bounds, Durations(es), i) == Total(bounds, InBucketNo(i), es)
  {
    if es != [] {
      CountIsTotal(bounds, Init(es), i);
      Snoc(Durations(Init(es)), Last(es).durationMs);
    }
  }

  lemma {:induction false} NoneOutsideTheBuckets(bounds: Scale, es: seq<Entry>, i: nat)
    requires i > |bounds|
    ensures Total(bounds, InBucketNo(i), es) == 0
  {
    if es != [] { NoneOutsideTheBuckets(bounds, Init(es), i); }
  }

  lemma ReadingIsTotal(bounds: Scale, m: Measure, es: seq<Entry>)
    ensures Reading(bounds, m, WindowOf(bounds, es)) == Total(bounds, m, es)
  {
    match m
    case InBucketNo(i) =>
      CountIsTotal(bounds, es, i);
      if i > |bounds| { NoneOutsideTheBuckets(bounds, es, i); }
    case _ =>
  }

  ghost predicate AllClean(es: seq<Entry>) {
    forall i :: 0 <= i < |es| ==> CleanEntry(es[i])
  }

  /** The histogram is given every request's own duration, in order. */
  lemma {:induction false} CleanDurations(es: seq<Entry>)
    requires AllClean(es)
    ensures |Durations(es)| == |es| && forall i :: 0 <= i < |es| ==> Durations(es)[i] == es[i].durationMs
  {
    if es != [] {
      CleanDurations(Init(es));
      assert Last(es).durationMs >= 0.0;
    }
  }

  // The positions of the requests answered with a status in this range.
  ghost function Answered(es: seq<Entry>, low: int, high: int): set<nat> {
    set i | 0 <= i < |es| && low <= es[i].statusCode < high
  }

  lemma AnsweredStep(es: seq<Entry>, low: int, high: int)
    requires es != []
    ensures |Answered(es, low, high)|
         == |Answered(Init(es), low, high)| + if low <= Last(es).statusCode < high then 1 else 0
  {
    var before := Answered(Init(es), low, high);
    assert Answered(es, low, high) == if low <= Last(es).statusCode < high then before + {|es| - 1} else before;
  }

  ghost function Failed(es: seq<Entry>): set<nat> {
    set i | 0 <= i < |es| && es[i].statusCode >= 500
  }

  lemma FailedStep(es: seq<Entry>)
    requires es != []
    ensures |Failed(es)| == |Failed(Init(es))| + if Last(es).statusCode >= 500 then 1 else 0
  {
    var before := Failed(Init(es));
    assert Failed(es) == if Last(es).statusCode >= 500 then before + {|es| - 1} else before;
  }

  /** The counters count requests: all of them, those answered 400 to 499, and those answered 500 or more. */
  lemma {:induction false} TotalsCount(bounds: Scale, es: seq<Entry>)
    ensures Total(bounds, Requests, es) == |es|
    ensures Total(bounds, Status4xx, es) == |Answered(es, 400, 500)|
    ensures Total(bounds, Status5xx, es) == |Failed(es)|
  {
    if es != [] {
      TotalsCount(bounds, Init(es));
      AnsweredStep(es, 400, 500);
      FailedStep(es);
    }
  }

  // The positions of the requests for a host.
  ghost function For(es: seq<Entry>, host: string): set<nat> {
    set i | 0 <= i < |es| && es[i].host == host
  }

  /** The entries within one host's window are those that name it, all of them. */
  lemma {:induction false} WithinIsOwn(es: seq<Entry>, host: string)
    ensures |Within(es, {host})| == |For(es, host)|
    ensures forall e :: e in Within(es, {host}) <==> e in es && e.host == host
  {
    if es != [] {
      WithinIsOwn(Init(es), host);
      assert es == Init(es) + [Last(es)];
      assert For(es, host) == if Last(es).host == host then For(Init(es), host) + {|es| - 1} else For(Init(es), host);
    }
  }

  lemma {:induction false} WithinIsClean(es: seq<Entry>, hosts: set<string>)
    requires AllClean(es)
    ensures AllClean(Within(es, hosts))
  {
    if es != [] { WithinIsClean(Init(es), hosts); }
  }

  lemma {:induction false} RequestsAreEntries(bounds: Scale, es: seq<Entry>)
    ensures Total(bounds, Requests, es) == |es|
  {
    if es != [] { RequestsAreEntries(bounds, Init(es)); }
  }

  // ----- sites -----

  /** The distinct sites named, in order of first appearance. */
  function Named(es: seq<Entry>): seq<string> {
    if es == [] then []
    else
      var before := Named(Init(es));
      if Last(es).host == "" || Last(es).host in before then before else before + [Last(es).host]
  }

  /** The sites that get a window of their own: the first few named. */
  ghost function Tracked(es: seq<Entry>): set<string> {
    var named := Named(es);
    set i | 0 <= i < |named| && i < MAX_TRACKED_SITES :: named[i]
  }

  function Within(es: seq<Entry>, hosts: set<string>): seq<Entry> {
    if es == [] then [] else Within(Init(es), hosts) + if Last(es).host in hosts then [Last(es)] else []
  }

  /** The entries that name a site outside `hosts`. */
  function Beyond(es: seq<Entry>, hosts: set<string>): seq<Entry> {
    if es == [] then []
    else Beyond(Init(es), hosts) + if Last(es).host != "" && Last(es).host !in hosts then [Last(es)] else []
  }

  function Hosted(es: seq<Entry>): seq<Entry> {
    Beyond(es, {})
  }

  function Hostless(es: seq<Entry>): seq<Entry> {
    Within(es, {""})
  }

  /** The slots in use: one per tracked site, and the overflow slot once anything overflowed. */
  ghost function Slots(es: seq<Entry>): set<string> {
    Tracked(es) + if Beyond(es, Tracked(es)) == [] then {} else {OVERFLOW_SITE}
  }

  /** The entries counted in a slot. */
  ghost function Share(es: seq<Entry>, slot: string): seq<Entry> {
    if slot == OVERFLOW_SITE then Beyond(es, Tracked(es)) else Within(es, {slot})
  }

  ghost function Shares(es: seq<Entry>): map<string, seq<Entry>> {
    map slot | slot in Slots(es) :: Share(es, slot)
  }

  ghost function Windows(bounds: Scale, shares: map<string, seq<Entry>>): map<string, Window> {
    map slot | slot in shares :: WindowOf(bounds, shares[slot])
  }

  /** The site windows the collector must hold after these entries. */
  ghost function SitesOf(bounds: Scale, es: seq<Entry>): map<string, Window> {
    Windows(bounds, Shares(es))
  }

  ghost predicate Distinct<T>(s: seq<T>) {
    forall i, j :: 0 <= i < j < |s| ==> s[i] != s[j]
  }

  lemma {:induction false} NamedAreTheHosts(es: seq<Entry>)
    requires AllClean(es)
    ensures Distinct(Named(es))
    ensures forall h :: h in Named(es) ==> IsHost(h)
    ensures forall i :: 0 <= i < |es| && es[i].host != "" ==> es[i].host in Named(es)
  {
    if es != [] {
      NamedAreTheHosts(Init(es));
      forall i | 0 <= i < |es| && es[i].host != "" ensures es[i].host in Named(es) {
        if i < |es| - 1 { assert Init(es)[i] == es[i]; }
      }
    }
  }

  lemma {:induction false} PrefixSize(s: seq<string>, n: nat)
    requires Distinct(s) && n <= |s|
    ensures |set i | 0 <= i < |s| && i < n :: s[i]| == n
  {
    if n > 0 {
      PrefixSize(s, n - 1);
      var smaller := set i | 0 <= i < |s| && i < n - 1 :: s[i];
      assert (set i | 0 <= i < |s| && i < n :: s[i]) == smaller + {s[n - 1]};
    }
  }

  /** At most 48 sites are tracked, and fewer only while all named ones are. */
  lemma TrackedSize(es: seq<Entry>)
    requires AllClean(es)
    ensures |Tracked(es)| == if |Named(es)| < 48 then |Named(es)| else 48
    ensures OVERFLOW_SITE !in Tracked(es) && "" !in Tracked(es)
    ensures |Named(es)| <= 48 ==> forall h :: h in Named(es) <==> h in Tracked(es)
  {
    NamedAreTheHosts(es);
    OverflowIsNoHost();
    var n := if |Named(es)| < MAX_TRACKED_SITES then |Named(es)| else MAX_TRACKED_SITES;
    PrefixSize(Named(es), n);
    assert Tracked(es) == set i | 0 <= i < |Named(es)| && i < n :: Named(es)[i];
  }

  lemma {:induction false} NothingBeyond(es: seq<Entry>, hosts: set<string>)
    requires forall i :: 0 <= i < |es| && es[i].host != "" ==> es[i].host in hosts
    ensures Beyond(es, hosts) == []
  {
    if es != [] { NothingBeyond(Init(es), hosts); }
  }

  lemma {:induction false} NothingWithin(es: seq<Entry>, host: string)
    requires forall i :: 0 <= i < |es| ==> es[i].host != host
    ensures Within(es, {host}) == []
  {
    if es != [] { NothingWithin(Init(es), host); }
  }

  /** Where the collector puts an entry, given the slots in use. */
  function SlotFor(slots: set<string>, host: string): string {
    if host == "" || host in slots then host
    else if |slots| >= MAX_TRACKED_SITES then OVERFLOW_SITE
    else host
  }

  /** No overflow while there is room. */
  lemma RoomMeansNoOverflow(es: seq<Entry>)
    requires AllClean(es)
    ensures |Slots(es)| < 48 <==> |Named(es)| < 48
    ensures |Named(es)| <= 48 ==> Slots(es) == Tracked(es)
    ensures |Slots(es)| <= 49
  {
    TrackedSize(es);
    NamedAreTheHosts(es);
    if |Named(es)| <= MAX_TRACKED_SITES { NothingBeyond(es, Tracked(es)); }
    assert Slots(es) == Tracked(es) || Slots(es) == Tracked(es) + {OVERFLOW_SITE};
  }

  lemma TrackedAfter(es: seq<Entry>, e: Entry)
    requires AllClean(es) && CleanEntry(e)
    ensures Tracked(es + [e])
         == if e.host == "" || e.host in Tracked(es) || |Named(es)| >= MAX_TRACKED_SITES then Tracked(es)
            else Tracked(es) + {e.host}
  {
    Snoc(es, e);
    TrackedSize(es);
    var named, after := Named(es), Named(es + [e]);
    if after != named {
      assert after == named + [e.host];
      assert forall i :: 0 <= i < |named| ==> after[i] == named[i];
      if |named| < MAX_TRACKED_SITES {
        assert after[|named|] == e.host;
        assert Tracked(es + [e]) == Tracked(es) + {e.host};
      } else {
        assert Tracked(es + [e]) == Tracked(es);
      }
    }
  }

  lemma FiltersSnoc(es: seq<Entry>, e: Entry, hosts: set<string>)
    ensures Within(es + [e], hosts) == Within(es, hosts) + if e.host in hosts then [e] else []
    ensures Beyond(es + [e], hosts) == Beyond(es, hosts) + if e.host != "" && e.host !in hosts then [e] else []
  {
    Snoc(es, e);
  }

  lemma SharesStep(es: seq<Entry>, e: Entry, slot: string, h: string)
    requires AllClean(es) && CleanEntry(e) && slot == SlotFor(Slots(es), e.host)
    requires Tracked(es + [e]) == Tracked(es) && h in Slots(es + [e])
    ensures Share(es + [e], h) == if h == slot then Share(es, h) + [e] else Share(es, h)
  {
    FiltersSnoc(es, e, {h});
    FiltersSnoc(es, e, Tracked(es));
    TrackedSize(es);
    RoomMeansNoOverflow(es);
    TrackedAfter(es, e);
    OverflowIsNoHost();
  }

  lemma NothingBeyondNew(es: seq<Entry>, e: Entry)
    requires AllClean(es) && CleanEntry(e) && e.host != "" && e.host !in Named(es) && |Named(es)| < MAX_TRACKED_SITES
    ensures Beyond(es, Tracked(es)) == Beyond(es + [e], Tracked(es + [e])) == []
    ensures Tracked(es + [e]) == Tracked(es) + {e.host}
  {
    TrackedSize(es);
    TrackedAfter(es, e);
    NamedAreTheHosts(es);
    NothingBeyond(es, Tracked(es));
    NothingBeyond(es, Tracked(es + [e]));
    FiltersSnoc(es, e, Tracked(es + [e]));
  }

  lemma HostIsNotOverflow(e: Entry)
    requires CleanEntry(e)
    ensures e.host != OVERFLOW_SITE
  {
    OverflowIsNoHost();
  }

  lemma SharesStepNew(es: seq<Entry>, e: Entry, h: string)
    requires AllClean(es) && CleanEntry(e) && e.host != "" && e.host !in Named(es) && |Named(es)| < MAX_TRACKED_SITES
    requires h in Slots(es + [e])
    ensures Share(es + [e], h) == if h == e.host then Share(es, h) + [e] else Share(es, h)
  {
    HostIsNotOverflow(e);
    if h == OVERFLOW_SITE { NothingBeyondNew(es, e); } else { FiltersSnoc(es, e, {h}); }
  }

  lemma SlotsStepSame(es: seq<Entry>, e: Entry, slot: string)
    requires AllClean(es) && CleanEntry(e) && slot == SlotFor(Slots(es), e.host)
    requires Tracked(es + [e]) == Tracked(es)
    requires e.host == "" || e.host in Tracked(es) || |Slots(es)| >= MAX_TRACKED_SITES
    ensures Slots(es + [e]) == if slot == "" then Slots(es) else Slots(es) + {slot}
    ensures slot != "" && slot !in Slots(es) ==> Share(es, slot) == []
  {
    OverflowIsNoHost();
    FiltersSnoc(es, e, Tracked(es));
    if e.host == "" || e.host in Tracked(es) {
      assert Beyond(es + [e], Tracked(es)) == Beyond(es, Tracked(es));
      assert Slots(es + [e]) == Slots(es);
    } else {
      assert e.host !in Slots(es) && slot == OVERFLOW_SITE;
      assert Beyond(es + [e], Tracked(es)) != [];
    }
  }

  lemma UnseenHasNoShare(es: seq<Entry>, e: Entry)
    requires AllClean(es) && CleanEntry(e) && e.host != "" && e.host !in Named(es)
    ensures Share(es, e.host) == []
  {
    HostIsNotOverflow(e);
    NamedAreTheHosts(es);
    NothingWithin(es, e.host);
  }

  lemma SlotsWithRoom(es: seq<Entry>)
    requires AllClean(es) && |Named(es)| < MAX_TRACKED_SITES
    ensures Slots(es) == Tracked(es) && |Tracked(es)| < MAX_TRACKED_SITES
    ensures forall h :: h in Named(es) <==> h in Tracked(es)
  {
    TrackedSize(es);
    RoomMeansNoOverflow(es);
  }

  lemma SlotsStepNew(es: seq<Entry>, e: Entry, slot: string)
    requires AllClean(es) && CleanEntry(e) && slot == SlotFor(Slots(es), e.host)
    requires e.host != "" && e.host !in Named(es) && |Named(es)| < MAX_TRACKED_SITES
    ensures Slots(es + [e]) == Slots(es) + {slot} && slot == e.host && Share(es, slot) == []
  {
    SlotsWithRoom(es);
    NothingBeyondNew(es, e);
    UnseenHasNoShare(es, e);
  }

  lemma SlotsStep(es: seq<Entry>, e: Entry, slot: string)
    requires AllClean(es) && CleanEntry(e) && slot == SlotFor(Slots(es), e.host)
    ensures Slots(es + [e]) == if slot == "" then Slots(es) else Slots(es) + {slot}
    ensures slot != "" && slot !in Slots(es) ==> Share(es, slot) == []
    ensures Tracked(es + [e]) != Tracked(es) ==>
              e.host != "" && e.host !in Named(es) && |Named(es)| < MAX_TRACKED_SITES && slot == e.host
  {
    TrackedSize(es);
    RoomMeansNoOverflow(es);
    TrackedAfter(es, e);
    if e.host != "" && e.host !in Tracked(es) && |Named(es)| < MAX_TRACKED_SITES {
      SlotsStepNew(es, e, slot);
    } else {
      SlotsStepSame(es, e, slot);
    }
  }

  /**
   One step of the bounded map: the slot chosen from the slots in use gains exactly this entry,
   every other slot keeps its share, and no other slot appears.
   */
  lemma RecordingOne(es: seq<Entry>, e: Entry, slot: string)
    requires AllClean(es) && CleanEntry(e) && slot == SlotFor(Slots(es), e.host)
    ensures Slots(es + [e]) == if slot == "" then Slots(es) else Slots(es) + {slot}
    ensures forall h :: h in Slots(es + [e]) ==>
              Share(es + [e], h) == if h == slot then Share(es, h) + [e] else Share(es, h)
    ensures slot != "" && slot !in Slots(es) ==> Share(es, slot) == []
  {
    SlotsStep(es, e, slot);
    forall h | h in Slots(es + [e])
      ensures Share(es + [e], h) == if h == slot then Share(es, h) + [e] else Share(es, h)
    {
      if Tracked(es + [e]) == Tracked(es) { SharesStep(es, e, slot, h); } else { SharesStepNew(es, e, h); }
    }
  }

  // ----- counting as the collector does it -----

  function EmptyWindow(bounds: Scale): Window {
    Window(0, 0, 0, Hist(seq(|bounds| + 1, _ => 0), 0, 0.0, 0.0, false))
  }

  /** A site window after one more entry. */
  function Counted(bounds: Scale, w: Window, e: Entry): Window
    requires |w.hist.counts| == |bounds| + 1
  {
    Window(w.requests + 1,
           if 400 <= e.statusCode < 500 then w.status4xx + 1 else w.status4xx,
           if e.statusCode >= 500 then w.status5xx + 1 else w.status5xx,
           Observed(bounds, w.hist, e.durationMs))
  }

  lemma {:induction false} CountedIsWindowOf(bounds: Scale, es: seq<Entry>, e: Entry)
    ensures Counted(bounds, WindowOf(bounds, es), e) == WindowOf(bounds, es + [e])
    ensures WindowOf(bounds, []) == EmptyWindow(bounds)
  {
    Snoc(es, e);
    ObservedKeepsSummary(bounds, Durations(es), e.durationMs);
    assert Summary(bounds, []).counts == EmptyWindow(bounds).hist.counts;
  }

  /** The map after one more entry: the slot its host belongs to, made if need be, gains it. */
  function SitesWith(bounds: Scale, sites: map<string, Window>, e: Entry): map<string, Window>
    requires forall h :: h in sites ==> |sites[h].hist.counts| == |bounds| + 1
  {
    var slot := SlotFor(sites.Keys, e.host);
    if slot == "" then sites
    else sites[slot := Counted(bounds, if slot in sites then sites[slot] else EmptyWindow(bounds), e)]
  }

  function SharesAt(shares: map<string, seq<Entry>>, slot: string, e: Entry): map<string, seq<Entry>> {
    if slot == "" then shares else shares[slot := (if slot in shares then shares[slot] else []) + [e]]
  }

  function SharesWith(shares: map<string, seq<Entry>>, e: Entry): map<string, seq<Entry>> {
    SharesAt(shares, SlotFor(shares.Keys, e.host), e)
  }

  lemma SharesWithIs(before: map<string, seq<Entry>>, after: map<string, seq<Entry>>, slot: string, e: Entry)
    requires "" !in before
    requires after.Keys == if slot == "" then before.Keys else before.Keys + {slot}
    requires forall h :: h in after && h != slot ==> after[h] == before[h]
    requires slot != "" ==> after[slot] == (if slot in before then before[slot] else []) + [e]
    ensures after == SharesAt(before, slot, e)
  {
  }

  lemma SharesStepByStep(es: seq<Entry>, e: Entry)
    requires AllClean(es) && CleanEntry(e)
    ensures Shares(es + [e]) == SharesWith(Shares(es), e)
  {
    var before, after := Shares(es), Shares(es + [e]);
    assert before.Keys == Slots(es) && after.Keys == Slots(es + [e]);
    var slot := SlotFor(before.Keys, e.host);
    RecordingOne(es, e, slot);
    HostlessHasNoSlot(es);
    SharesWithIs(before, after, slot, e);
  }

  lemma HostlessHasNoSlot(es: seq<Entry>)
    requires AllClean(es)
    ensures "" !in Slots(es)
  {
    TrackedSize(es);
  }

  lemma WindowsStepByStep(bounds: Scale, shares: map<string, seq<Entry>>, e: Entry)
    ensures SitesWith(bounds, Windows(bounds, shares), e) == Windows(bounds, SharesWith(shares, e))
  {
    assert Windows(bounds, shares).Keys == shares.Keys;
    var slot := SlotFor(shares.Keys, e.host);
    CountedIsWindowOf(bounds, if slot in shares then shares[slot] else [], e);
  }

  /** The bounded map holds what the entries of the window prescribe, entry by entry. */
  lemma SitesWithIsSitesOf(bounds: Scale, es: seq<Entry>, e: Entry)
    requires AllClean(es) && CleanEntry(e)
    ensures SitesWith(bounds, SitesOf(bounds, es), e) == SitesOf(bounds, es + [e])
  {
    SharesStepByStep(es, e);
    WindowsStepByStep(bounds, Shares(es), e);
  }

  // ----- conservation -----

  lemma TotalStep(bounds: Scale, m: Measure, es: seq<Entry>, e: Entry, keep: bool)
    ensures Total(bounds, m, es + if keep then [e] else [])
         == Total(bounds, m, es) + if keep then Weight(bounds, m, e) else 0
  {
    if keep { Snoc(es, e); } else { assert es + [] == es; }
  }

  lemma {:induction false} HostedSplits(bounds: Scale, m: Measure, es: seq<Entry>, hosts: set<string>)
    requires "" !in hosts
    ensures Total(bounds, m, Within(es, hosts)) + Total(bounds, m, Beyond(es, hosts)) == Total(bounds, m, Hosted(es))
  {
    if es != [] {
      HostedSplits(bounds, m, Init(es), hosts);
      var host := Last(es).host;
      TotalStep(bounds, m, Within(Init(es), hosts), Last(es), host in hosts);
      TotalStep(bounds, m, Beyond(Init(es), hosts), Last(es), host != "" && host !in hosts);
      TotalStep(bounds, m, Hosted(Init(es)), Last(es), host != "");
    }
  }

  lemma {:induction false} TotalSplits(bounds: Scale, m: Measure, es: seq<Entry>)
    ensures Total(bounds, m, Hosted(es)) + Total(bounds, m, Hostless(es)) == Total(bounds, m, es)
  {
    if es != [] {
      TotalSplits(bounds, m, Init(es));
      TotalStep(bounds, m, Hosted(Init(es)), Last(es), Last(es).host != "");
      TotalStep(bounds, m, Hostless(Init(es)), Last(es), Last(es).host == "");
    }
  }

  lemma {:induction false} WithinGrows(bounds: Scale, m: Measure, es: seq<Entry>, hosts: set<string>, host: string)
    requires host !in hosts
    ensures Total(bounds, m, Within(es, hosts + {host}))
         == Total(bounds, m, Within(es, hosts)) + Total(bounds, m, Within(es, {host}))
  {
    if es != [] {
      WithinGrows(bounds, m, Init(es), hosts, host);
      TotalStep(bounds, m, Within(Init(es), hosts), Last(es), Last(es).host in hosts);
      TotalStep(bounds, m, Within(Init(es), {host}), Last(es), Last(es).host in {host});
      TotalStep(bounds, m, Within(Init(es), hosts + {host}), Last(es), Last(es).host in hosts + {host});
    }
  }

  lemma {:induction false} WithinNone(es: seq<Entry>)
    ensures Within(es, {}) == []
  {
    if es != [] { WithinNone(Init(es)); }
  }

  function Elements(s: seq<string>): set<string> {
    set h | h in s
  }

  /** The readings of the named slots, added up. */
  ghost function SumOver(bounds: Scale, m: Measure, sites: map<string, Window>, names: seq<string>): nat
    requires forall h :: h in names ==> h in sites && |sites[h].hist.counts| == |bounds| + 1
  {
    if names == [] then 0
    else
      assert forall h :: h in Init(names) ==> h in names;
      SumOver(bounds, m, sites, Init(names)) + Reading(bounds, m, sites[Last(names)])
  }

  lemma DistinctFront(names: seq<string>)
    requires names != [] && Distinct(names)
    ensures Distinct(Init(names)) && Last(names) !in Elements(Init(names))
    ensures Elements(names) == Elements(Init(names)) + {Last(names)}
    ensures forall h :: h in Init(names) ==> h in names
  {
    assert names == Init(names) + [Last(names)];
  }

  // Each of these slots holds the window of its own site's entries.
  ghost predicate HoldOwn(bounds: Scale, es: seq<Entry>, sites: map<string, Window>, names: seq<string>) {
    forall h :: h in names ==> h in sites && sites[h] == WindowOf(bounds, Within(es, {h}))
  }

  lemma {:induction false} SumOfOwn(bounds: Scale, m: Measure, es: seq<Entry>, sites: map<string, Window>,
                                    names: seq<string>)
    requires Distinct(names) && HoldOwn(bounds, es, sites, names)
    ensures SumOver(bounds, m, sites, names) == Total(bounds, m, Within(es, Elements(names)))
  {
    if names == [] {
      assert Elements(names) == {};
      WithinNone(es);
    } else {
      var front, last := Init(names), Last(names);
      DistinctFront(names);
      SumOfOwn(bounds, m, es, sites, front);
      WithinGrows(bounds, m, es, Elements(front), last);
      assert last in names;
      ReadingIsTotal(bounds, m, Within(es, {last}));
    }
  }

  lemma SumOfTracked(bounds: Scale, m: Measure, es: seq<Entry>, names: seq<string>)
    requires Distinct(names) && forall h :: h in names ==> h in Slots(es) && h != OVERFLOW_SITE
    ensures SumOver(bounds, m, SitesOf(bounds, es), names) == Total(bounds, m, Within(es, Elements(names)))
  {
    SumOfOwn(bounds, m, es, SitesOf(bounds, es), names);
  }

  ghost function OverflowReading(bounds: Scale, m: Measure, sites: map<string, Window>): nat
    requires OVERFLOW_SITE in sites ==> |sites[OVERFLOW_SITE].hist.counts| == |bounds| + 1
  {
    if OVERFLOW_SITE in sites then Reading(bounds, m, sites[OVERFLOW_SITE]) else 0
  }

  /**
   Nothing is lost between the aggregate and the sites: for requests, 4xx, 5xx and every single
   histogram bucket, the slots add up to the entries that name a site, and with the host-less
   entries to the whole window.
   */
  lemma {:induction false} SitesConserve(bounds: Scale, m: Measure, es: seq<Entry>, names: seq<string>)
    requires AllClean(es) && Distinct(names) && Elements(names) == Slots(es) - {OVERFLOW_SITE}
    ensures forall h :: h in names ==> h in names && h in Slots(es) && h != OVERFLOW_SITE
    ensures SumOver(bounds, m, SitesOf(bounds, es), names) + OverflowReading(bounds, m, SitesOf(bounds, es))
         == Total(bounds, m, Hosted(es))
    ensures Total(bounds, m, Hosted(es)) + Total(bounds, m, Hostless(es)) == Reading(bounds, m, WindowOf(bounds, es))
  {
    forall h | h in names ensures h in Slots(es) && h != OVERFLOW_SITE { assert h in Elements(names); }
    TrackedSize(es);
    SumOfTracked(bounds, m, es, names);
    assert Elements(names) == Tracked(es);
    HostedSplits(bounds, m, es, Tracked(es));
    TotalSplits(bounds, m, es);
    ReadingIsTotal(bounds, m, Beyond(es, Tracked(es)));
    ReadingIsTotal(bounds, m, es);
  }
}
