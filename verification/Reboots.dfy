/**
 Both spool directories are on a file system that a reboot empties: nothing written before it is ever acted on
 after it.
 */
module Reboots {

  import opened Wrappers
  import opened Spool
  import M = Mailbox
  import opened FixProtocol

  // This request was begun and is nowhere any more: on disk, in the writer's hand or in the reader's.
  ghost predicate Absent(b: M.Box<Request>, tag: nat) {
    && tag in b.issued
    && (b.job.Some? ==> b.job.value.tag != tag)
    && (forall n :: n in b.files ==> b.files[n].tag != tag)
    && (b.reader.Taking? ==>
          && (b.reader.held.Got? ==> b.reader.held.file.tag != tag)
          && (forall l :: l in b.reader.batch ==> l.tag != tag))
  }

  lemma StepKeepsAbsent(r: Rules, b: M.Box<Request>, step: M.Step<Request>, tag: nat)
    requires Absent(b, tag) && (step.Begin? ==> step.letter.tag !in b.issued)
    ensures Absent(M.Apply(r.requests, b, step), tag)
  {
  }

  ghost predicate Forgotten(s: State, tag: nat) {
    && Absent(s.requests, tag)
    && (forall l :: l in s.work ==> l.tag != tag)
    && (s.running.Some? ==> s.running.value.tag != tag)
  }

  lemma RequestEventKeepsForgotten(r: Rules, s: State, e: Event, tag: nat)
    requires Forgotten(s, tag) && OfRequests(e)
    ensures Forgotten(Step(r, s, e), tag) && Step(r, s, e).started == s.started
  {
    IsRequestStep(r, s, e);
    if Step(r, s, e) != s { StepKeepsAbsent(r, s.requests, RequestStepOf(e), tag); }
  }

  lemma OtherEventKeepsForgotten(r: Rules, s: State, e: Event, tag: nat)
    requires Forgotten(s, tag) && !OfRequests(e)
    ensures Forgotten(Step(r, s, e), tag)
    ensures s.started <= Step(r, s, e).started
    ensures forall i :: |s.started| <= i < |Step(r, s, e).started| ==> Step(r, s, e).started[i].tag != tag
  {
    StepKeepsAbsent(r, s.requests, M.Return, tag);
    StepKeepsAbsent(r, s.requests, M.WriterDies, tag);
    StepKeepsAbsent(r, s.requests, M.ReaderDies, tag);
    StepKeepsAbsent(r, s.requests, M.Wipe, tag);
    if s.work != [] { assert s.work[0] in s.work; }
  }

  // Since then this request was not started, and cannot be any more.
  ghost predicate NotSince(s: State, t: State, tag: nat) {
    && Forgotten(t, tag) && s.started <= t.started
    && forall i :: |s.started| <= i < |t.started| ==> t.started[i].tag != tag
  }

  lemma StepKeepsNotSince(r: Rules, s: State, t: State, e: Event, tag: nat)
    requires NotSince(s, t, tag)
    ensures NotSince(s, Step(r, t, e), tag)
  {
    if OfRequests(e) { RequestEventKeepsForgotten(r, t, e, tag); } else { OtherEventKeepsForgotten(r, t, e, tag); }
  }

  lemma OneMore(r: Rules, events: seq<Event>, more: seq<Event>)
    requires more != []
    ensures var front := more[..|more| - 1];
      Run(r, events + more) == Step(r, Run(r, events + front), more[|more| - 1])
  {
    assert (events + more)[..|events + more| - 1] == events + more[..|more| - 1];
  }

  lemma {:induction false} StaysForgotten(r: Rules, events: seq<Event>, more: seq<Event>, s: State, tag: nat)
    requires s == Run(r, events) && NotSince(s, s, tag)
    ensures NotSince(s, Run(r, events + more), tag)
  {
    if more == [] {
      assert events + more == events;
    } else {
      var front, e := more[..|more| - 1], more[|more| - 1];
      StaysForgotten(r, events, front, s, tag);
      StepKeepsNotSince(r, s, Run(r, events + front), e, tag);
      OneMore(r, events, more);
    }
  }

  lemma StartsGrowByOne(r: Rules, s: State, e: Event)
    ensures s.started <= Step(r, s, e).started
  {
  }

  lemma {:induction false} StartsGrow(r: Rules, events: seq<Event>, more: seq<Event>)
    ensures Run(r, events).started <= Run(r, events + more).started
  {
    if more == [] {
      assert events + more == events;
    } else {
      StartsGrow(r, events, more[..|more| - 1]);
      StartsGrowByOne(r, Run(r, events + more[..|more| - 1]), more[|more| - 1]);
      OneMore(r, events, more);
    }
  }

  lemma RebootLeavesNothing(r: Rules, s: State, tag: nat)
    requires tag in s.requests.issued
    ensures NotSince(Step(r, s, Reboot), Step(r, s, Reboot), tag)
  {
  }

  /**
   Whatever happened before a reboot and whatever happens after it: of the actions started after it, none is for a
   request begun before it.
   */
  lemma {:induction false} RebootForgets(r: Rules, events: seq<Event>, more: seq<Event>)
    ensures var s, t := Run(r, events + [Reboot]), Run(r, events + [Reboot] + more);
      && s.started <= t.started
      && forall i :: |s.started| <= i < |t.started| ==> t.started[i].tag !in Run(r, events).requests.issued
  {
    var s, t := Run(r, events + [Reboot]), Run(r, events + [Reboot] + more);
    StartsGrow(r, events + [Reboot], more);
    forall i | |s.started| <= i < |t.started| ensures t.started[i].tag !in Run(r, events).requests.issued {
      if t.started[i].tag in Run(r, events).requests.issued {
        NeverStartedAgain(r, events, more, t.started[i].tag);
      }
    }
  }

  lemma NeverStartedAgain(r: Rules, events: seq<Event>, more: seq<Event>, tag: nat)
    requires tag in Run(r, events).requests.issued
    ensures NotSince(Run(r, events + [Reboot]), Run(r, events + [Reboot] + more), tag)
  {
    var s := Run(r, events + [Reboot]);
    OneMore(r, events, [Reboot]);
    assert events + [] == events;
    RebootLeavesNothing(r, Run(r, events), tag);
    StaysForgotten(r, events + [Reboot], more, s, tag);
  }
}
