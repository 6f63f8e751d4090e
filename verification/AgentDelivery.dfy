/**
 The agent's loop and the fix protocol: a flush, and a whole tick, are runs of the protocol with the same
 outcomes pending and acknowledged, so that what holds of every run there holds of the loop's sends.
 */
module AgentDelivery {

  import opened Wrappers
  import opened Spool
  import opened AgentLoop
  import opened FixProcesses
  import Mailbox
  import SpoolDirectory
  import FixProtocol

  type Delivery<Sample> = Load<Sample, Mailbox.Letter<Outcome>>

  // Two states that differ only in what the agent's sends and its spooling may touch.
  ghost predicate OnlySent(s: FixProtocol.State, t: FixProtocol.State) {
    t == s.(pending := t.pending, delivered := t.delivered, heard := t.heard, requests := t.requests)
  }

  // Ready for a flush: the same outcomes pending, and no request half written.
  ghost predicate Ready<Sample(!new)>(r: FixProtocol.Rules, s: FixProtocol.State, l: Delivery<Sample>) {
    FixProtocol.GoodRules(r) && l.pending == s.pending && s.requests.job == None
  }

  ghost predicate IssuedFor(s: FixProtocol.State, t: FixProtocol.State, approvals: seq<Approval>) {
    forall tag :: tag in t.requests.issued ==>
      tag in s.requests.issued || exists i :: 0 <= i < |approvals| && approvals[i].call.tag == tag
  }

  // What acknowledged sends, if any, make of a state: all that was pending is delivered with the first of them,
  // and what the replies authorise is spooled.
  ghost predicate SentTo(r: FixProtocol.Rules, s: FixProtocol.State, t: FixProtocol.State, approvals: seq<Approval>,
                         any: bool) {
    && OnlySent(s, t) && t.requests.job == None && IssuedFor(s, t, approvals)
    && t.requests.files == Spooled(r, s.requests.files, approvals)
    && t.pending == (if any then [] else s.pending)
    && t.delivered == s.delivered + (if any then s.pending else [])
    && t.heard == s.heard + if any then s.pending else []
  }

  lemma AcknowledgedIsARun(r: FixProtocol.Rules, before: seq<FixProtocol.Event>, s: FixProtocol.State,
                           approvals: seq<Approval>)
    returns (events: seq<FixProtocol.Event>, t: FixProtocol.State)
    requires FixProtocol.GoodRules(r) && s == FixProtocol.Run(r, before) && s.requests.job == None
    requires NewTags(approvals, s.requests.issued)
    ensures t == FixProtocol.Run(r, events) && SentTo(r, s, t, approvals, true)
  {
    events, t := FixProtocol.Extend(r, before, s, FixProtocol.Acknowledged);
    events, t := SpoolingIsARun(r, events, t, approvals);
  }

  lemma SentOneMore(r: FixProtocol.Rules, s: FixProtocol.State, u: FixProtocol.State, t: FixProtocol.State,
                    a: seq<Approval>, b: seq<Approval>, any: bool)
    requires SentTo(r, s, u, a, any) && SentTo(r, u, t, b, true)
    ensures SentTo(r, s, t, a + b, true)
  {
    SpooledInTurn(r, s.requests.files, a, b);
    IssuedForBoth(s, u, t, a, b);
    Nothing(s.delivered + s.pending);
    Nothing(s.heard + s.pending);
    Nothing(s.delivered);
    Nothing(s.heard);
  }

  lemma Nothing<T>(xs: seq<T>)
    ensures xs + [] == xs
  {
  }

  // New together: new in turn.
  lemma NewInTurn(a: seq<Approval>, b: seq<Approval>, issued: set<nat>)
    requires NewTags(a + b, issued)
    ensures NewTags(a, issued) && NewTags(b, issued)
    ensures forall i, j :: 0 <= i < |a| && 0 <= j < |b| ==> a[i].call.tag != b[j].call.tag
  {
    assert forall i :: 0 <= i < |a| ==> (a + b)[i] == a[i];
    assert forall j :: 0 <= j < |b| ==> (a + b)[|a| + j] == b[j];
  }

  lemma {:induction false} NewUpTo(reply: nat -> Reply, k: nat, n: nat, issued: set<nat>)
    requires k <= n && NewTags(AuthorisedBy(reply, n), issued)
    ensures NewTags(AuthorisedBy(reply, k), issued)
    decreases n
  {
    if k < n {
      NewInTurn(AuthorisedBy(reply, n - 1), if reply(n - 1).Accepted? then reply(n - 1).authorised else [], issued);
      NewUpTo(reply, k, n - 1, issued);
    }
  }

  lemma NewAfter(s: FixProtocol.State, t: FixProtocol.State, a: seq<Approval>, b: seq<Approval>)
    requires NewTags(a + b, s.requests.issued) && IssuedFor(s, t, a)
    ensures NewTags(b, t.requests.issued)
  {
    NewInTurn(a, b, s.requests.issued);
  }

  lemma IssuedForBoth(s: FixProtocol.State, t: FixProtocol.State, u: FixProtocol.State, a: seq<Approval>,
                      b: seq<Approval>)
    requires IssuedFor(s, t, a) && IssuedFor(t, u, b)
    ensures IssuedFor(s, u, a + b)
  {
    assert forall i :: 0 <= i < |a| ==> (a + b)[i] == a[i];
    assert forall j :: 0 <= j < |b| ==> (a + b)[|a| + j] == b[j];
  }

  /** `k` acknowledged sends are a run of the protocol: the first delivers all that was pending. */
  lemma {:induction false} GrantedIsARun(r: FixProtocol.Rules, before: seq<FixProtocol.Event>, s: FixProtocol.State,
                                         reply: nat -> Reply, k: nat)
    returns (events: seq<FixProtocol.Event>, t: FixProtocol.State)
    requires FixProtocol.GoodRules(r) && s == FixProtocol.Run(r, before) && s.requests.job == None
    requires forall i :: 0 <= i < k ==> reply(i).Accepted?
    requires NewTags(AuthorisedBy(reply, k), s.requests.issued)
    ensures t == FixProtocol.Run(r, events) && SentTo(r, s, t, AuthorisedBy(reply, k), k > 0)
  {
    if k == 0 {
      events, t := before, s;
      Nothing(s.delivered);
      Nothing(s.heard);
    } else {
      var earlier, last := AuthorisedBy(reply, k - 1), reply(k - 1).authorised;
      NewInTurn(earlier, last, s.requests.issued);
      var u: FixProtocol.State;
      events, u := GrantedIsARun(r, before, s, reply, k - 1);
      NewAfter(s, u, earlier, last);
      events, t := AcknowledgedIsARun(r, events, u, last);
      SentOneMore(r, s, u, t, earlier, last, k - 1 > 0);
    }
  }

  // Does this send reach the platform, acknowledged or not? One that is rejected does not.
  predicate Reaches(reply: Reply, took: bool) {
    reply.Accepted? || (Retries(reply) && took)
  }

  lemma LosingIsAStep(r: FixProtocol.Rules, s: FixProtocol.State)
    ensures FixProtocol.Step(r, s, FixProtocol.AckLost) == s.(heard := s.heard + s.pending)
  {
  }

  // Of the sends of a flush only the first carries anything.
  ghost predicate SentAll<Sample(!new)>(s: FixProtocol.State, t: FixProtocol.State, l: Delivery<Sample>, reply: Reply,
                                        took: bool) {
    && t.delivered == s.delivered + (if l.items != [] && reply.Accepted? then l.pending else [])
    && t.heard == s.heard + if l.items != [] && Reaches(reply, took) then l.pending else []
  }

  lemma FlushAuthorises<Sample>(l: Delivery<Sample>, reply: nat -> Reply, k: nat)
    requires k == Streak(reply, 0, |l.items|)
    ensures Flushed(l, reply, 0).authorised == l.authorised + AuthorisedBy(reply, k)
    ensures Flushed(l, reply, 0).authorised[|l.authorised|..] == AuthorisedBy(reply, k)
    ensures Flushed(l, reply, 0).pending == if k == 0 then l.pending else []
    ensures forall i :: 0 <= i < k ==> reply(i).Accepted?
    ensures k == 0 ==> l.items == [] || reply(0).Failed?
  {
    FlushSends(l, reply);
    StreakStops(reply, 0, |l.items|);
  }

  // Whether the first send got no answer though the platform took it.
  predicate Lost<Sample(!new)>(l: Delivery<Sample>, reply: Reply, took: bool) {
    l.items != [] && reply.Failed? && Reaches(reply, took)
  }

  lemma SendsSay<Sample(!new)>(r: FixProtocol.Rules, s: FixProtocol.State, u: FixProtocol.State, l: Delivery<Sample>,
                               reply: nat -> Reply, took: bool, k: nat)
    requires k == Streak(reply, 0, |l.items|) && l.pending == s.pending
    requires SentTo(r, s, u, AuthorisedBy(reply, k), k > 0)
    ensures var t := if Lost(l, reply(0), took) then u.(heard := u.heard + u.pending) else u;
      OnlySent(s, t) && SentAll(s, t, l, reply(0), took)
  {
    FlushAuthorises(l, reply, k);
    Nothing(s.heard);
    if k > 0 { assert l.items != [] && reply(0).Accepted?; }
  }

  /**
   Whatever state the protocol has reached, a flush is one of its runs, whatever the platform answers: the same
   outcomes are pending afterwards, all of them were delivered with the first send if that was acknowledged, and
   heard if it was or if `took` says that the platform took it without an answer; later sends carry
   none. And the request directory holds what the replies authorised.
   */
  lemma {:induction false} FlushIsARun<Sample(!new)>(
    r: FixProtocol.Rules, before: seq<FixProtocol.Event>, s: FixProtocol.State, l: Delivery<Sample>,
    reply: nat -> Reply, took: bool)
    returns (events: seq<FixProtocol.Event>, t: FixProtocol.State)
    requires s == FixProtocol.Run(r, before) && Ready(r, s, l)
    requires NewTags(AuthorisedBy(reply, MAX_SENDS_PER_TICK), s.requests.issued)
    ensures t == FixProtocol.Run(r, events) && OnlySent(s, t) && Ready(r, t, Flushed(l, reply, 0))
    ensures SentAll(s, t, l, reply(0), took) && l.authorised <= Flushed(l, reply, 0).authorised
    ensures t.requests.files
         == Spooled(r, s.requests.files, Flushed(l, reply, 0).authorised[|l.authorised|..])
  {
    var k := Streak(reply, 0, |l.items|);
    FlushAuthorises(l, reply, k);
    NewUpTo(reply, k, MAX_SENDS_PER_TICK, s.requests.issued);
    events, t := GrantedIsARun(r, before, s, reply, k);
    SendsSay(r, s, t, l, reply, took, k);
    if Lost(l, reply(0), took) {
      LosingIsAStep(r, t);
      events, t := FixProtocol.Extend(r, events, t, FixProtocol.AckLost);
    }
  }

  // The results a tick finds: what the pass over the directory yields, or nothing if it cannot be listed.
  function Results(r: FixProtocol.Rules, s: FixProtocol.State, entries: Option<seq<string>>, readable: string -> bool)
    : Option<seq<Mailbox.Letter<Outcome>>>
  {
    if entries == None then None
    else Some(SpoolDirectory.Yields(r.outcomes, s.outcomes.files, entries.value, readable))
  }

  /** And so is collecting what the executor left, listing the directory or failing to. */
  lemma CollectingResultsIsARun(r: FixProtocol.Rules, before: seq<FixProtocol.Event>, s: FixProtocol.State,
                                entries: Option<seq<string>>, readable: string -> bool)
    returns (events: seq<FixProtocol.Event>, t: FixProtocol.State)
    requires FixProtocol.GoodRules(r) && s == FixProtocol.Run(r, before) && s.outcomes.reader.Off?
    requires entries.Some? ==> SpoolDirectory.IsListing(entries.value, s.outcomes.files)
    ensures t == FixProtocol.Run(r, events) && t == s.(outcomes := t.outcomes, pending := t.pending)
    ensures t.outcomes.reader.Off? && t.pending == s.pending + Read(Results(r, s, entries, readable))
  {
    if entries.Some? {
      events, t := CollectingIsARun(r, before, s, entries.value, readable);
    } else {
      events, t := before, s;
      assert s.pending + [] == s.pending;
    }
  }

  /**
   Whatever state the protocol has reached, a whole tick of the agent is one of its runs: outcomes collected are
   pending, those an acknowledged send carries are delivered, and what is pending, and what is in the
   spool, is what the loop says.
   */
  lemma {:induction false} TickIsARun<Sample(!new)>(
    r: FixProtocol.Rules, before: seq<FixProtocol.Event>, s: FixProtocol.State, l: Delivery<Sample>, capacity: nat,
    sample: Sample, entries: Option<seq<string>>, readable: string -> bool, reply: nat -> Reply, waiting: bool,
    took: bool)
    returns (events: seq<FixProtocol.Event>, t: FixProtocol.State)
    requires s == FixProtocol.Run(r, before) && Ready(r, s, l) && s.outcomes.reader.Off?
    requires entries.Some? ==> SpoolDirectory.IsListing(entries.value, s.outcomes.files)
    requires NewTags(AuthorisedBy(reply, MAX_SENDS_PER_TICK), s.requests.issued)
    ensures t == FixProtocol.Run(r, events) && t.outcomes.reader.Off?
    ensures var results := Results(r, s, entries, readable);
      var m := Ticked(l, capacity, sample, results, reply, waiting);
      var carried := l.pending + Read(results);
      && Ready(r, t, m) && l.authorised <= m.authorised
      && t.requests.files == Spooled(r, s.requests.files, m.authorised[|l.authorised|..])
      && t.delivered == s.delivered + (if !waiting && reply(0).Accepted? then carried else [])
      && t.heard == s.heard + if !waiting && Reaches(reply(0), took) then carried else []
  {
    var results := Results(r, s, entries, readable);
    var q := Queued(l, capacity, sample).(pending := l.pending + Read(results));
    events, t := CollectingResultsIsARun(r, before, s, entries, readable);
    if !waiting { events, t := FlushIsARun(r, events, t, q, reply, took); }
  }
}
