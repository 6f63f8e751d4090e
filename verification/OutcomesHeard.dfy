/**
 What the platform hears of the fixes it authorised, when acknowledgements can be lost on the way back
 to the agent: nothing made up, and the same outcome twice exactly when the agent had to send again.
 */
module OutcomesHeard {

  import opened Wrappers
  import opened Spool
  import M = Mailbox
  import opened FixProtocol

  /**
   Whatever acknowledgements are lost, everything the platform hears is the outcome of a published request
   and carries its id, and everything delivered was heard.
   */
  lemma HeardIsGenuine(r: Rules, events: seq<Event>)
    requires GoodRules(r)
    ensures var s := Run(r, events);
      && (forall l :: l in s.heard ==>
            l.tag in s.outcomes.sent && s.outcomes.sent[l.tag] == l.item
            && l.tag in s.requests.sent && s.requests.sent[l.tag].id == l.item.id)
      && (forall l :: l in s.delivered ==> l in s.heard)
  {
    EveryRunKeepsInvariant(r, events);
  }

  // ----- what two runs of letters share -----

  lemma DisjointRight(a: seq<M.Letter<Outcome>>, b: seq<M.Letter<Outcome>>, c: seq<M.Letter<Outcome>>)
    ensures Disjoint(a, b + c) <==> Disjoint(a, b) && Disjoint(a, c)
  {
    assert forall l :: l in b + c <==> l in b || l in c;
  }

  lemma DisjointLeft(a: seq<M.Letter<Outcome>>, b: seq<M.Letter<Outcome>>, c: seq<M.Letter<Outcome>>)
    ensures Disjoint(a + b, c) <==> Disjoint(a, c) && Disjoint(b, c)
  {
    assert forall l :: l in a + b <==> l in a || l in b;
  }

  lemma DistinctApart(a: seq<M.Letter<Outcome>>, b: seq<M.Letter<Outcome>>)
    requires M.DistinctTags(a + b)
    ensures M.DistinctTags(a) && M.DistinctTags(b) && Disjoint(a, b)
  {
    assert forall i :: 0 <= i < |a| ==> (a + b)[i] == a[i];
    assert forall j :: 0 <= j < |b| ==> (a + b)[|a| + j] == b[j];
    forall l, m | l in a && m in b ensures l.tag != m.tag {
      var i :| 0 <= i < |a| && a[i] == l;
      var j :| 0 <= j < |b| && b[j] == m;
      assert (a + b)[i] == l && (a + b)[|a| + j] == m;
    }
  }

  lemma DistinctTogether(a: seq<M.Letter<Outcome>>, b: seq<M.Letter<Outcome>>)
    requires M.DistinctTags(a) && M.DistinctTags(b) && Disjoint(a, b)
    ensures M.DistinctTags(a + b)
  {
    forall i, j | 0 <= i < |a| && 0 <= j < |b| ensures a[i].tag != b[j].tag { assert a[i] in a && b[j] in b; }
  }

  // ----- when the agent holds what the platform has heard -----

  /**
   Was the last the agent could know of its pending outcomes a send whose acknowledgement was lost? An
   acknowledgement that does arrive, the agent's death or a reboot clears them.
   */
  ghost predicate Exposed(r: Rules, events: seq<Event>) {
    if events == [] then false
    else
      var front := events[..|events| - 1];
      ExposedAfter(Exposed(r, front), Run(r, front), events[|events| - 1])
  }

  predicate ExposedAfter(exposed: bool, s: State, e: Event) {
    match e
    case AckLost => s.pending != []
    case Acknowledged => false
    case AgentDies => false
    case Reboot => false
    case _ => exposed
  }

  // What the agent is taking now, the platform has not heard.
  ghost predicate NewToPlatform(s: State) {
    s.outcomes.reader.Taking? ==> Disjoint(s.heard, s.outcomes.reader.batch)
  }

  // Neither what was heard nor what is pending changes, and what is being taken is new.
  ghost predicate Unmoved(s: State, t: State) {
    t.heard == s.heard && t.pending == s.pending && NewToPlatform(t)
  }

  lemma OutcomeEventMoves(r: Rules, s: State, e: Event)
    requires GoodRules(r) && Invariant(r, s) && NewToPlatform(s) && OfOutcomes(e)
    ensures Unmoved(s, Step(r, s, e))
  {
    IsOutcomeStep(r, s, e);
    var step := OutcomeStepOf(e);
    if M.Takes(s.outcomes, step) {
      TakingIsNew(r, s);
    } else {
      M.StepMoves(r.outcomes, s.outcomes, step);
    }
  }

  lemma TakingIsNew(r: Rules, s: State)
    requires GoodRules(r) && Invariant(r, s) && NewToPlatform(s) && M.Takes(s.outcomes, M.Remove)
    ensures Unmoved(s, Outcomes(r, s, M.Remove))
  {
    var kept := M.Kept(r.outcomes, s.outcomes.reader.at, s.outcomes.reader.held);
    var more := if kept == None then [] else [kept.value];
    TakenTags(s.outcomes);
    assert Disjoint(s.heard, more);
    DisjointRight(s.heard, s.outcomes.reader.batch, more);
  }

  lemma AckLostExposes(r: Rules, s: State)
    requires Invariant(r, s) && NewToPlatform(s)
    ensures NewToPlatform(Step(r, s, AckLost))
    ensures s.pending != [] <==> !Disjoint(Step(r, s, AckLost).heard, s.pending)
  {
    var heard := s.heard + s.pending;
    if s.outcomes.reader.Taking? { DisjointLeft(s.heard, s.pending, s.outcomes.reader.batch); }
    if s.pending != [] { assert s.pending[0] in heard && s.pending[0] in s.pending; }
  }

  lemma AcknowledgedCovers(r: Rules, s: State)
    requires Invariant(r, s) && NewToPlatform(s)
    ensures NewToPlatform(Step(r, s, Acknowledged)) && Step(r, s, Acknowledged).pending == []
  {
    if s.outcomes.reader.Taking? { DisjointLeft(s.heard, s.pending, s.outcomes.reader.batch); }
  }

  lemma TakenJoins(r: Rules, s: State)
    requires Invariant(r, s) && NewToPlatform(s)
    ensures NewToPlatform(Step(r, s, OutcomesTaken))
    ensures Disjoint(s.heard, Step(r, s, OutcomesTaken).pending) <==> Disjoint(s.heard, s.pending)
    ensures Step(r, s, OutcomesTaken).heard == s.heard
  {
    if M.Finished(s.outcomes) { DisjointRight(s.heard, s.pending, s.outcomes.reader.batch); }
  }

  predicate Elsewhere(e: Event) {
    !OfOutcomes(e) && !e.AckLost? && !e.Acknowledged? && !e.OutcomesTaken? && !e.AgentDies? && !e.Reboot?
  }

  lemma ElsewhereMovesNothing(r: Rules, s: State, e: Event)
    requires NewToPlatform(s) && Elsewhere(e)
    ensures Unmoved(s, Step(r, s, e))
  {
  }

  lemma DeathClears(r: Rules, s: State, e: Event)
    requires e.AgentDies? || e.Reboot?
    ensures NewToPlatform(Step(r, s, e)) && Step(r, s, e).pending == []
  {
  }

  lemma MovesKeepExposure(s: State, t: State, e: Event, exposed: bool)
    requires Unmoved(s, t) && (OfOutcomes(e) || Elsewhere(e))
    ensures ExposedAfter(exposed, s, e) == exposed
    ensures !Disjoint(t.heard, t.pending) <==> !Disjoint(s.heard, s.pending)
  {
  }

  lemma StepKeepsExposure(r: Rules, s: State, e: Event, exposed: bool)
    requires GoodRules(r) && Invariant(r, s) && NewToPlatform(s) && (exposed <==> !Disjoint(s.heard, s.pending))
    ensures var t := Step(r, s, e);
      NewToPlatform(t) && (ExposedAfter(exposed, s, e) <==> !Disjoint(t.heard, t.pending))
  {
    if OfOutcomes(e) {
      OutcomeEventMoves(r, s, e);
      MovesKeepExposure(s, Step(r, s, e), e, exposed);
    } else if Elsewhere(e) {
      ElsewhereMovesNothing(r, s, e);
      MovesKeepExposure(s, Step(r, s, e), e, exposed);
    } else {
      match e
      case AckLost => AckLostExposes(r, s);
      case Acknowledged => AcknowledgedCovers(r, s);
      case OutcomesTaken => TakenJoins(r, s);
      case _ => DeathClears(r, s, e);
    }
  }

  /** In every run, the agent holds an outcome the platform has heard if and only if it is exposed. */
  lemma {:induction false} ExposedExactlyWhen(r: Rules, events: seq<Event>)
    requires GoodRules(r)
    ensures NewToPlatform(Run(r, events))
    ensures Exposed(r, events) <==> !Disjoint(Run(r, events).heard, Run(r, events).pending)
  {
    if events != [] {
      var front := events[..|events| - 1];
      ExposedExactlyWhen(r, front);
      EveryRunKeepsInvariant(r, front);
      StepKeepsExposure(r, Run(r, front), events[|events| - 1], Exposed(r, front));
    }
  }

  // ----- hearing twice -----

  predicate Sends(e: Event) {
    e.AckLost? || e.Acknowledged?
  }

  ghost predicate SendsAgainAt(r: Rules, events: seq<Event>, i: nat) {
    i < |events| && Sends(events[i]) && Exposed(r, events[..i])
  }

  /** Did the agent send while exposed: again, with nothing in between to clear what was pending? */
  ghost predicate SendsAgain(r: Rules, events: seq<Event>) {
    exists i: nat :: SendsAgainAt(r, events, i)
  }

  lemma SameBefore(r: Rules, events: seq<Event>, i: nat)
    requires i < |events| - 1
    ensures SendsAgainAt(r, events, i) <==> SendsAgainAt(r, events[..|events| - 1], i)
  {
    assert events[..|events| - 1][..i] == events[..i];
  }

  lemma SendsAgainStep(r: Rules, events: seq<Event>)
    requires events != []
    ensures var front := events[..|events| - 1];
      SendsAgain(r, events) <==> SendsAgain(r, front) || SendsAgainAt(r, events, |events| - 1)
  {
    var front := events[..|events| - 1];
    if i: nat :| i < |events| - 1 && SendsAgainAt(r, events, i) { SameBefore(r, events, i); }
    if i: nat :| i < |front| && SendsAgainAt(r, front, i) { SameBefore(r, events, i); }
  }

  lemma OnlySendsAreHeard(r: Rules, s: State, e: Event)
    requires !Sends(e)
    ensures Step(r, s, e).heard == s.heard
  {
  }

  lemma SendIsHeard(r: Rules, s: State, e: Event)
    requires Invariant(r, s) && Sends(e)
    ensures M.DistinctTags(Step(r, s, e).heard) <==> M.DistinctTags(s.heard) && Disjoint(s.heard, s.pending)
  {
    if M.DistinctTags(s.heard + s.pending) { DistinctApart(s.heard, s.pending); }
    if M.DistinctTags(s.heard) && Disjoint(s.heard, s.pending) { DistinctTogether(s.heard, s.pending); }
  }

  /**
   In every run, the platform hears some outcome twice if and only if the agent sent again while exposed:
   an envelope with pending outcomes reached the platform, its acknowledgement was lost, and before the
   next send no acknowledgement arrived, the agent did not die and the machine was not rebooted.
   */
  lemma {:induction false} HeardTwiceExactlyWhen(r: Rules, events: seq<Event>)
    requires GoodRules(r)
    ensures !M.DistinctTags(Run(r, events).heard) <==> SendsAgain(r, events)
  {
    if events != [] {
      var front, e := events[..|events| - 1], events[|events| - 1];
      HeardTwiceExactlyWhen(r, front);
      EveryRunKeepsInvariant(r, front);
      ExposedExactlyWhen(r, front);
      SendsAgainStep(r, events);
      if Sends(e) { SendIsHeard(r, Run(r, front), e); } else { OnlySendsAreHeard(r, Run(r, front), e); }
    }
  }

  lemma HearingIsAcknowledged(r: Rules, s: State, e: Event)
    requires s.heard == s.delivered && !e.AckLost?
    ensures Step(r, s, e).heard == Step(r, s, e).delivered
  {
  }

  /** In particular: if no acknowledgement is lost the platform hears what was acknowledged, and each outcome once. */
  lemma {:induction false} HeardOnceIfNoneLost(r: Rules, events: seq<Event>)
    requires GoodRules(r) && forall i :: 0 <= i < |events| ==> !events[i].AckLost?
    ensures Run(r, events).heard == Run(r, events).delivered && M.DistinctTags(Run(r, events).heard)
  {
    EveryRunKeepsInvariant(r, events);
    if events != [] {
      HeardOnceIfNoneLost(r, events[..|events| - 1]);
      HearingIsAcknowledged(r, Run(r, events[..|events| - 1]), events[|events| - 1]);
    }
  }
}
