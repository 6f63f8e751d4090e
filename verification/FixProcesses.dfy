/**
 The two processes of the fix protocol as they run when nobody interrupts them: the agent spooling
 what was authorised, and the executor taking, judging, acting and reporting.

 Each is proved to do what its specification functions say, and every such run to be a run of the
 steps of `FixProtocol`, so that all that holds of every interleaving there holds of them.
 */
module FixProcesses {

  import opened Wrappers
  import opened Sequences
  import opened Spool
  import opened Mailbox
  import opened SpoolDirectory
  import opened FixProtocol
  import opened Commands

  // ----- the agent: handing over what was authorised -----

  datatype Fix = Fix(id: string, action: string, target: string)

  // The clock, the tag that tells this publication apart, and how its system calls turn out.
  datatype WriteCall = WriteCall(now: int, tag: nat, luck: WriteLuck)

  // An authorised fix, and how spooling it turns out.
  datatype Approval = Approval(fix: Fix, call: WriteCall)

  predicate MaySpool(r: Rules, fix: Fix) {
    r.known(fix.action) && r.validTarget(fix.target) && SafeId(fix.id)
  }

  function RequestOf(fix: Fix, now: int): Request {
    Request(fix.id, fix.action, fix.target, Some(now))
  }

  function AfterSpooling(r: Rules, files: map<string, File>, fix: Fix, call: WriteCall): map<string, File> {
    if MaySpool(r, fix) then Published(r.requests, files, Letter(call.tag, RequestOf(fix, call.now)), call.luck)
    else files
  }

  /** The request directory after the authorised fixes, one by one; what cannot be spooled is passed over. */
  function Spooled(r: Rules, files: map<string, File>, approvals: seq<Approval>): map<string, File> {
    if approvals == [] then files
    else AfterSpooling(r, Spooled(r, files, Init(approvals)), Last(approvals).fix, Last(approvals).call)
  }

  lemma {:induction false} SpooledInTurn(r: Rules, files: map<string, File>, a: seq<Approval>, b: seq<Approval>)
    ensures Spooled(r, files, a + b) == Spooled(r, Spooled(r, files, a), b)
  {
    if b == [] {
      assert a + b == a;
    } else {
      assert Init(a + b) == a + Init(b);
      SpooledInTurn(r, files, a, Init(b));
    }
  }

  method Write(r: Rules, requests: Directory<Request>, fix: Fix, call: WriteCall) returns (ok: bool)
    requires GoodRules(r) && requests.c == r.requests
    modifies requests
    ensures ok <==> MaySpool(r, fix) && call.luck.Fine?
    ensures requests.files == AfterSpooling(r, old(requests.files), fix, call)
  {
    if !r.known(fix.action) { return false; }
    if !r.validTarget(fix.target) { return false; }
    if !SafeId(fix.id) { return false; }
    ok := requests.WriteAtomic(Letter(call.tag, RequestOf(fix, call.now)), call.luck);
  }

  method SpoolAuthorised(r: Rules, requests: Directory<Request>, approvals: seq<Approval>)
    requires GoodRules(r) && requests.c == r.requests
    modifies requests
    ensures requests.files == Spooled(r, old(requests.files), approvals)
  {
    for i := 0 to |approvals|
      invariant requests.files == Spooled(r, old(requests.files), approvals[..i])
    {
      TakeOne(approvals, i);
      var _ := Write(r, requests, approvals[i].fix, approvals[i].call);
    }
    TakeAll(approvals);
  }

  // ----- the executor -----

  // The `i`-th entry is a finished file that can be read, of at most 8 KiB and not empty, and holds this letter.
  ghost predicate HoldsLetter<T>(c: Codec<T>, files: map<string, File>, names: seq<string>, i: nat,
                                 readable: string -> bool, l: Letter<T>)
    requires i < |names|
  {
    var name := names[i];
    && |name| >= 5 && name[|name| - 5..] == ".json" && readable(name) && name in files
    && 1 <= |files[name].body| <= 8192 && c.decode(files[name].body) == Some(l.item) && files[name].tag == l.tag
  }

  lemma HoldingIsHolding<T(!new)>(c: Codec<T>, files: map<string, File>, names: seq<string>, readable: string -> bool,
                                  l: Letter<T>)
    ensures forall i: nat :: i < |names| ==>
      (Holds(c, files, names, i, readable, l) <==>
        HoldsLetter(c, files, names, i, readable, l) && (c.cap.Some? ==> i < c.cap.value))
  {
  }

  /**
   What the executor gets into its hands: the letters held by the first 32 entries of the directory, and no more
   than 32. The agent's own pass over the outcomes knows no such bound.
   */
  lemma {:induction false} TakenExactly(r: Rules, requests: map<string, File>, outcomes: map<string, File>,
                                        names: seq<string>, readable: string -> bool, q: Letter<Request>,
                                        o: Letter<Outcome>)
    requires GoodRules(r)
    ensures q in Yields(r.requests, requests, names, readable) <==>
              exists i: nat :: i < |names| && i < 32 && HoldsLetter(r.requests, requests, names, i, readable, q)
    ensures |Yields(r.requests, requests, names, readable)| <= 32
    ensures o in Yields(r.outcomes, outcomes, names, readable) <==>
              exists i: nat :: i < |names| && HoldsLetter(r.outcomes, outcomes, names, i, readable, o)
  {
    YieldsExactly(r.requests, requests, names, readable, q);
    YieldsExactly(r.outcomes, outcomes, names, readable, o);
    HoldingIsHolding(r.requests, requests, names, readable, q);
    HoldingIsHolding(r.outcomes, outcomes, names, readable, o);
  }

  // What the clock says, how the command's effects turn out, what is said of it, and how reporting it turns out.
  datatype Luck = Luck(now: int, effects: Effects, detail: string, finished: int, write: WriteLuck, handedOver: bool)

  // The command behind a request the executor may act on.
  function CommandFor(r: Rules, request: Request): Command
    requires r.plan(request.action, request.target).Some?
  {
    r.plan(request.action, request.target).value
  }

  /** The outcome of a request: refused when stale or not planned for, else what the command came to. */
  function Verdict(r: Rules, request: Request, luck: Luck): Outcome {
    if MayAct(r, request, luck.now)
    then Outcome(request.id, Succeeds(CommandFor(r, request), luck.effects), luck.detail, luck.finished)
    else Outcome(request.id, false, luck.detail, luck.now)
  }

  function DeedsFor(r: Rules, request: Request, luck: Luck): seq<Deed> {
    if MayAct(r, request, luck.now) then Deeds(CommandFor(r, request), luck.effects) else []
  }

  /** Everything done to the machine for these requests, in order. */
  function AllDeeds(r: Rules, letters: seq<Letter<Request>>, lucks: nat -> Luck): seq<Deed> {
    if letters == [] then []
    else AllDeeds(r, Init(letters), lucks) + DeedsFor(r, Last(letters).item, lucks(|letters| - 1))
  }

  /**
   What is reported of a request is true: it says "done" if and only if the request was fresh and planned, something
   was done to the machine, and all of it went well; the swap was only touched when memory could take it.
   */
  lemma VerdictIsTruthful(r: Rules, request: Request, luck: Luck)
    ensures var deeds := DeedsFor(r, request, luck);
      && (Verdict(r, request, luck).ok <==> MayAct(r, request, luck.now) && deeds != [] && AllWell(deeds))
      && (forall i :: 0 <= i < |deeds| && deeds[i].what.SwapsOff? ==>
            luck.effects.figures.Some? && MayPurge(luck.effects.figures.value))
  {
    if MayAct(r, request, luck.now) { SuccessIsTruthful(CommandFor(r, request), luck.effects); }
  }

  // Written, not in the future, and at most ten minutes ago.
  ghost predicate Timely(request: Request, now: int) {
    request.writtenAt.Some? && 0 <= now - request.writtenAt.value <= 600_000_000_000
  }

  // Did everything go well that this kind of command takes?
  ghost predicate WentWell(c: Command, e: Effects) {
    match c
    case Setting => e.changed
    case Program => e.inTime && e.exited
    case SwapPurge => e.figures.Some? && MayPurge(e.figures.value) && e.tools && e.swappedOff && e.swappedOn
  }

  /**
   What becomes of a request: one without a time, from the future or older than ten minutes, or one that is not
   planned, starts nothing, does nothing to the machine and fails; any other is started, and succeeds
   if and only if all went well that its kind of command takes.
   */
  ghost predicate Handled(r: Rules, l: Letter<Request>, luck: Luck, started: seq<Start>, deeds: seq<Deed>,
                          outcome: Outcome) {
    && outcome.id == l.item.id && outcome.detail == luck.detail
    && var planned := r.plan(l.item.action, l.item.target);
    if Timely(l.item, luck.now) && planned.Some? then
      && started == [Start(l.tag, l.item, luck.now)] && outcome.finishedAt == luck.finished
      && (outcome.ok <==> WentWell(planned.value, luck.effects))
      && (planned == Some(SwapPurge) || |deeds| == 1)
    else started == [] && deeds == [] && !outcome.ok && outcome.finishedAt == luck.now
  }

  lemma RequestsAreHandled(r: Rules, l: Letter<Request>, luck: Luck)
    ensures Handled(r, l, luck, StartOf(r, l, luck), DeedsFor(r, l.item, luck), Verdict(r, l.item, luck))
  {
  }

  /** However many requests are carried out, whatever fails: swap switched off is switched on again at once. */
  lemma {:induction false} SwapIsRearmed(r: Rules, letters: seq<Letter<Request>>, lucks: nat -> Luck)
    ensures Rearmed(AllDeeds(r, letters, lucks))
  {
    if letters != [] {
      var request, luck := Last(letters).item, lucks(|letters| - 1);
      SwapIsRearmed(r, Init(letters), lucks);
      if MayAct(r, request, luck.now) { SuccessIsTruthful(CommandFor(r, request), luck.effects); }
      RearmedTogether(AllDeeds(r, Init(letters), lucks), DeedsFor(r, request, luck));
    }
  }

  function StartOf(r: Rules, l: Letter<Request>, luck: Luck): seq<Start> {
    if MayAct(r, l.item, luck.now) then [Start(l.tag, l.item, luck.now)] else []
  }

  /** The commands started for these requests, in order. */
  function Starts(r: Rules, letters: seq<Letter<Request>>, lucks: nat -> Luck): seq<Start> {
    if letters == [] then []
    else Starts(r, Init(letters), lucks) + StartOf(r, Last(letters), lucks(|letters| - 1))
  }

  function AfterReport(r: Rules, files: map<string, File>, l: Letter<Request>, luck: Luck): map<string, File> {
    if SafeId(l.item.id) then Published(r.outcomes, files, Letter(l.tag, Verdict(r, l.item, luck)), luck.write)
    else files
  }

  /** The result directory after these requests, one by one. */
  function Reports(r: Rules, files: map<string, File>, letters: seq<Letter<Request>>, lucks: nat -> Luck)
    : map<string, File>
  {
    if letters == [] then files
    else AfterReport(r, Reports(r, files, Init(letters), lucks), Last(letters), lucks(|letters| - 1))
  }

  class Executor {
    const r: Rules
    const requests: Directory<Request>
    const results: Directory<Outcome>
    const hasGroup: bool               // is there an agent's group to hand results to?
    ghost var started: seq<Start>
    ghost var deeds: seq<Deed>         // everything done to the machine

    ghost predicate Valid()
      reads this
    {
      GoodRules(r) && requests.c == r.requests && results.c == r.outcomes
    }

    constructor (r: Rules, requests: Directory<Request>, results: Directory<Outcome>, hasGroup: bool)
      requires GoodRules(r) && requests.c == r.requests && results.c == r.outcomes
      ensures Valid() && started == [] && deeds == []
      ensures this.r == r && this.requests == requests && this.results == results && this.hasGroup == hasGroup
    {
      this.r, this.requests, this.results, this.hasGroup := r, requests, results, hasGroup;
      started, deeds := [], [];
    }

    /** Guard, swapoff, swapon; when swapoff fails the swap is armed again all the same. */
    method PurgeSwap(e: Effects) returns (ok: bool)
      modifies this`deeds
      ensures ok == Succeeds(SwapPurge, e) && deeds == old(deeds) + Deeds(SwapPurge, e)
    {
      if e.figures == None { return false; }
      if !MayPurge(e.figures.value) { return false; }
      if !e.tools { return false; }
      deeds := deeds + [Deed(SwapsOff, e.swappedOff)];
      deeds := deeds + [Deed(SwapsOn, e.swappedOn)];
      if !e.swappedOff { return false; }
      return e.swappedOn;
    }

    method Perform(c: Command, e: Effects) returns (ok: bool)
      modifies this`deeds
      ensures ok == Succeeds(c, e) && deeds == old(deeds) + Deeds(c, e)
    {
      match c {
        case Setting =>
          deeds := deeds + [Deed(Changes, e.changed)];
          ok := e.changed;
        case SwapPurge =>
          ok := PurgeSwap(e);
        case Program =>
          deeds := deeds + [Deed(Runs, e.inTime && e.exited)];
          ok := e.inTime && e.exited;
      }
    }

    /** Decides for itself, acts if it may, and always has something to report. */
    method CarryOut(l: Letter<Request>, luck: Luck) returns (outcome: Outcome)
      modifies this`started, this`deeds
      ensures outcome == Verdict(r, l.item, luck)
      ensures started == old(started) + StartOf(r, l, luck) && deeds == old(deeds) + DeedsFor(r, l.item, luck)
      ensures old(started) <= started && old(deeds) <= deeds
      ensures Handled(r, l, luck, started[|old(started)|..], deeds[|old(deeds)|..], outcome)
    {
      RequestsAreHandled(r, l, luck);
      assert (old(started) + StartOf(r, l, luck))[|old(started)|..] == StartOf(r, l, luck);
      assert (old(deeds) + DeedsFor(r, l.item, luck))[|old(deeds)|..] == DeedsFor(r, l.item, luck);
      if !Fresh(l.item, luck.now) { return Outcome(l.item.id, false, luck.detail, luck.now); }
      var command := r.plan(l.item.action, l.item.target);
      if command == None { return Outcome(l.item.id, false, luck.detail, luck.now); }
      started := started + [Start(l.tag, l.item, luck.now)];
      var ok := Perform(command.value, luck.effects);
      return Outcome(l.item.id, ok, luck.detail, luck.finished);
    }

    /**
     Publishes the outcome and hands the file to the agent's group, if there is one; should handing over fail,
     the file is there all the same.
     */
    method WriteResult(tag: nat, outcome: Outcome, luck: WriteLuck, handedOver: bool) returns (ok: bool)
      requires Valid()
      modifies results
      ensures results.files
           == if SafeId(outcome.id) then Published(r.outcomes, old(results.files), Letter(tag, outcome), luck)
              else old(results.files)
      ensures ok <==> SafeId(outcome.id) && luck.Fine? && (hasGroup ==> handedOver)
    {
      if !SafeId(outcome.id) { return false; }
      ok := results.WriteAtomic(Letter(tag, outcome), luck);
      if ok && hasGroup && !handedOver { ok := false; }
    }

    /** Takes everything pending off the disk, and only then carries it out, one request after the other. */
    method Run(entries: seq<string>, readable: string -> bool, lucks: nat -> Luck)
      requires Valid() && IsListing(entries, requests.files) && (requests as object) != results
      modifies requests, results, this`started, this`deeds
      ensures Unfinished(old(requests.files), requests.files)
      ensures var letters := Yields(r.requests, old(requests.files), entries, readable);
        && started == old(started) + Starts(r, letters, lucks) && deeds == old(deeds) + AllDeeds(r, letters, lucks)
        && results.files == Reports(r, old(results.files), letters, lucks)
    {
      var letters := requests.TakeAll(entries, readable);
      ghost var left := requests.files;
      for i := 0 to |letters|
        invariant requests.files == left
        invariant started == old(started) + Starts(r, letters[..i], lucks)
        invariant deeds == old(deeds) + AllDeeds(r, letters[..i], lucks)
        invariant results.files == Reports(r, old(results.files), letters[..i], lucks)
      {
        TakeOne(letters, i);
        Associative(old(started), Starts(r, letters[..i], lucks), StartOf(r, letters[i], lucks(i)));
        Associative(old(deeds), AllDeeds(r, letters[..i], lucks), DeedsFor(r, letters[i].item, lucks(i)));
        var outcome := CarryOut(letters[i], lucks(i));
        var _ := WriteResult(letters[i].tag, outcome, lucks(i).write, lucks(i).handedOver);
      }
      TakeAll(letters);
    }
  }

  // ----- the agent's half is a run of the protocol -----

  function WriteEvent(luck: WriteLuck): Event {
    match luck
    case WriteFails(_) => Event.WriteFails(false)
    case Fine => WritePublishes
    case _ => Event.WriteFails(true)
  }

  lemma SpoolingIsSteps(r: Rules, s: State, fix: Fix, call: WriteCall)
    requires GoodRules(r) && MaySpool(r, fix) && s.requests.job == None && call.tag !in s.requests.issued
    ensures var letter := Letter(call.tag, RequestOf(fix, call.now));
      var begun := s.(requests := s.requests.(job := Some(letter), issued := s.requests.issued + {call.tag}));
      && FixProtocol.Step(r, s, Authorise(call.tag, fix.id, fix.action, fix.target, call.now)) == begun
      && FixProtocol.Step(r, FixProtocol.Step(r, begun, WritePart(PartReached(r.requests, letter, call.luck))),
                          WriteEvent(call.luck))
           == s.(requests := begun.requests.(job := None, files := AfterSpooling(r, s.requests.files, fix, call),
                   sent := if call.luck.Fine? then s.requests.sent[call.tag := letter.item] else s.requests.sent))
  {
    var letter := Letter(call.tag, RequestOf(fix, call.now));
    WriteIsSteps(r.requests, s.requests.(job := Some(letter), issued := s.requests.issued + {call.tag}),
                 letter, call.luck);
  }

  lemma OneSpooled(r: Rules, before: seq<Event>, s: State, fix: Fix, call: WriteCall)
    returns (events: seq<Event>, t: State)
    requires GoodRules(r) && s == FixProtocol.Run(r, before) && s.requests.job == None && call.tag !in s.requests.issued
    ensures t == FixProtocol.Run(r, events) && t == s.(requests := t.requests) && t.requests.job == None
    ensures t.requests.files == AfterSpooling(r, s.requests.files, fix, call)
    ensures t.requests.issued <= s.requests.issued + {call.tag}
  {
    events, t := before, s;
    if MaySpool(r, fix) {
      var letter := Letter(call.tag, RequestOf(fix, call.now));
      SpoolingIsSteps(r, s, fix, call);
      events, t := Extend(r, events, t, Authorise(call.tag, fix.id, fix.action, fix.target, call.now));
      events, t := Extend(r, events, t, WritePart(PartReached(r.requests, letter, call.luck)));
      events, t := Extend(r, events, t, WriteEvent(call.luck));
    }
  }

  /** Whatever state the protocol is in, spooling a batch of authorised fixes is one of its runs. */
  lemma {:induction false} SpoolingIsARun(r: Rules, before: seq<Event>, s: State, approvals: seq<Approval>)
    returns (events: seq<Event>, t: State)
    requires GoodRules(r) && s == FixProtocol.Run(r, before) && s.requests.job == None
    requires NewTags(approvals, s.requests.issued)
    ensures t == FixProtocol.Run(r, events) && t == s.(requests := t.requests) && t.requests.job == None
    ensures t.requests.files == Spooled(r, s.requests.files, approvals)
    ensures forall tag :: tag in t.requests.issued ==>
              tag in s.requests.issued || exists i :: 0 <= i < |approvals| && approvals[i].call.tag == tag
  {
    events, t := before, s;
    if approvals != [] {
      events, t := SpoolingIsARun(r, before, s, Init(approvals));
      events, t := OneSpooled(r, events, t, Last(approvals).fix, Last(approvals).call);
    }
  }

  // No two of these publications are the same, and none was begun before.
  ghost predicate NewTags(approvals: seq<Approval>, issued: set<nat>) {
    && (forall i :: 0 <= i < |approvals| ==> approvals[i].call.tag !in issued)
    && (forall i, j :: 0 <= i < j < |approvals| ==> approvals[i].call.tag != approvals[j].call.tag)
  }

  // ----- the executor's half is a run of the protocol -----

  function EntryEvents(r: Rules, s: State, readable: string -> bool): State
    requires AtEntry(s.requests)
  {
    var name := s.requests.reader.names[s.requests.reader.at];
    if IsFinal(name) then FixProtocol.Step(r, FixProtocol.Step(r, s, ReadRequest(readable(name))), RemoveRequest)
    else FixProtocol.Step(r, s, SkipRequest)
  }

  lemma EntryIsSteps(r: Rules, s: State, readable: string -> bool)
    requires AtEntry(s.requests)
    ensures EntryEvents(r, s, readable) == s.(requests := TakeEntry(r.requests, s.requests, readable))
  {
  }

  lemma EntryIsTaken(r: Rules, before: seq<Event>, s: State, readable: string -> bool)
    returns (events: seq<Event>, t: State)
    requires s == FixProtocol.Run(r, before) && AtEntry(s.requests) && s.requests.reader.held == Unread
    ensures t == FixProtocol.Run(r, events) && t == EntryEvents(r, s, readable)
  {
    var name := s.requests.reader.names[s.requests.reader.at];
    if IsFinal(name) {
      events, t := Extend(r, before, s, ReadRequest(readable(name)));
      events, t := Extend(r, events, t, RemoveRequest);
    } else {
      events, t := Extend(r, before, s, SkipRequest);
    }
  }

  lemma {:induction false} RestIsTaken(r: Rules, before: seq<Event>, s: State, readable: string -> bool)
    returns (events: seq<Event>, t: State)
    requires s == FixProtocol.Run(r, before)
    requires s.requests.reader.Taking? && s.requests.reader.held == Unread
    requires s.requests.reader.at <= |s.requests.reader.names|
    ensures t == FixProtocol.Run(r, events) && t == s.(requests := TakeRest(r.requests, s.requests, readable))
    decreases if s.requests.reader.Taking? then |s.requests.reader.names| - s.requests.reader.at else 0
  {
    events, t := before, s;
    if s.requests.reader.at < |s.requests.reader.names| {
      OneEntryOn(r.requests, s.requests, readable);
      EntryIsSteps(r, s, readable);
      events, t := EntryIsTaken(r, before, s, readable);
      events, t := RestIsTaken(r, events, t, readable);
    }
  }

  lemma HandingOverIsAStep(r: Rules, s: State)
    requires Finished(s.requests)
    ensures FixProtocol.Step(r, s, RequestsTaken)
         == s.(work := s.requests.reader.batch, requests := s.requests.(reader := Off))
  {
  }

  /**
   Listing, reading and removing everything pending puts in the executor's hands what `TakeAll` returns, and
   leaves the files it leaves.
   */
  lemma {:induction false} TakingIsARun(r: Rules, before: seq<Event>, s: State, entries: seq<string>,
                                        readable: string -> bool)
    returns (events: seq<Event>, t: State)
    requires GoodRules(r) && s == FixProtocol.Run(r, before) && ExecutorIdle(s) && s.requests.reader.Off?
    requires IsListing(entries, s.requests.files)
    ensures t == FixProtocol.Run(r, events) && t.work == Yields(r.requests, s.requests.files, entries, readable)
    ensures t == s.(requests := t.requests, work := t.work) && t.requests.reader.Off?
    ensures Unfinished(s.requests.files, t.requests.files)
  {
    ListingIsTaken(r.requests, s.requests, entries, readable);
    events, t := Extend(r, before, s, ListRequests(entries));
    events, t := RestIsTaken(r, events, t, readable);
    HandingOverIsAStep(r, t);
    events, t := Extend(r, events, t, RequestsTaken);
  }

  function ReportEvent(luck: WriteLuck): Event {
    match luck
    case WriteFails(_) => OutcomeFails(false)
    case Fine => OutcomePublishes
    case _ => OutcomeFails(true)
  }

  // The state once the verdict on the next request is being written.
  function Judged(r: Rules, s: State, luck: Luck): State
    requires s.work != []
  {
    var l := s.work[0];
    var letter := Letter(l.tag, Verdict(r, l.item, luck));
    s.(work := s.work[1..], started := s.started + StartOf(r, l, luck),
       outcomes := s.outcomes.(job := Some(letter), issued := s.outcomes.issued + {l.tag}))
  }

  function Finishing(r: Rules, request: Request, luck: Luck): Event
    requires MayAct(r, request, luck.now)
  {
    Finish(Succeeds(CommandFor(r, request), luck.effects), luck.detail, luck.finished)
  }

  function JudgingEvents(r: Rules, s: State, luck: Luck): State
    requires s.work != []
  {
    if MayAct(r, s.work[0].item, luck.now)
    then FixProtocol.Step(r, FixProtocol.Step(r, s, Act(luck.now)), Finishing(r, s.work[0].item, luck))
    else FixProtocol.Step(r, s, Refuse(luck.detail, luck.now))
  }

  lemma ActingIsSteps(r: Rules, s: State, luck: Luck)
    requires GoodRules(r) && NextUp(s) && SafeId(s.work[0].item.id) && MayAct(r, s.work[0].item, luck.now)
    ensures JudgingEvents(r, s, luck) == Judged(r, s, luck)
  {
  }

  lemma RefusingIsAStep(r: Rules, s: State, luck: Luck)
    requires GoodRules(r) && NextUp(s) && SafeId(s.work[0].item.id) && !MayAct(r, s.work[0].item, luck.now)
    ensures JudgingEvents(r, s, luck) == Judged(r, s, luck)
  {
    assert s.started + [] == s.started;
  }

  lemma JudgingIsSteps(r: Rules, before: seq<Event>, s: State, luck: Luck) returns (events: seq<Event>, t: State)
    requires GoodRules(r) && s == FixProtocol.Run(r, before) && NextUp(s) && SafeId(s.work[0].item.id)
    ensures t == FixProtocol.Run(r, events) && t == Judged(r, s, luck)
  {
    if MayAct(r, s.work[0].item, luck.now) {
      ActingIsSteps(r, s, luck);
      events, t := Extend(r, before, s, Act(luck.now));
      events, t := Extend(r, events, t, Finishing(r, s.work[0].item, luck));
    } else {
      RefusingIsAStep(r, s, luck);
      events, t := Extend(r, before, s, Refuse(luck.detail, luck.now));
    }
  }

  lemma ReportingIsSteps(r: Rules, s: State, letter: Letter<Outcome>, luck: WriteLuck)
    requires GoodRules(r) && s.outcomes.job == Some(letter) && SafeId(letter.item.id)
    ensures var t := FixProtocol.Step(r, FixProtocol.Step(r, s, OutcomePart(PartReached(r.outcomes, letter, luck))),
                                      ReportEvent(luck));
      && t == s.(outcomes := t.outcomes) && t.outcomes.job == None
      && t.outcomes.files == Published(r.outcomes, s.outcomes.files, letter, luck)
  {
    WriteIsSteps(r.outcomes, s.outcomes, letter, luck);
  }

  lemma OneCarriedOut(r: Rules, before: seq<Event>, s: State, luck: Luck) returns (events: seq<Event>, t: State)
    requires GoodRules(r) && s == FixProtocol.Run(r, before) && NextUp(s) && SafeId(s.work[0].item.id)
    ensures t == FixProtocol.Run(r, events)
    ensures t.work == s.work[1..] && t.started == s.started + StartOf(r, s.work[0], luck)
    ensures t.outcomes.files == AfterReport(r, s.outcomes.files, s.work[0], luck)
    ensures t.requests == s.requests && t.running == None && t.outcomes.job == None
  {
    var letter := Letter(s.work[0].tag, Verdict(r, s.work[0].item, luck));
    events, t := JudgingIsSteps(r, before, s, luck);
    ReportingIsSteps(r, t, letter, luck.write);
    events, t := Extend(r, events, t, OutcomePart(PartReached(r.outcomes, letter, luck.write)));
    events, t := Extend(r, events, t, ReportEvent(luck.write));
  }

  // What is left to do after the first `i` of these requests.
  ghost predicate Progress(r: Rules, s: State, t: State, letters: seq<Letter<Request>>, lucks: nat -> Luck, i: nat)
    requires i <= |letters|
  {
    && t.work == letters[i..] && t.started == s.started + Starts(r, letters[..i], lucks)
    && t.outcomes.files == Reports(r, s.outcomes.files, letters[..i], lucks)
    && t.requests == s.requests && t.running == None && t.outcomes.job == None
  }

  lemma ProgressStep(r: Rules, s: State, t: State, u: State, letters: seq<Letter<Request>>, lucks: nat -> Luck, i: nat)
    requires i < |letters| && Progress(r, s, t, letters, lucks, i)
    requires u.work == t.work[1..] && u.started == t.started + StartOf(r, t.work[0], lucks(i))
    requires u.outcomes.files == AfterReport(r, t.outcomes.files, t.work[0], lucks(i))
    requires u.requests == t.requests && u.running == None && u.outcomes.job == None
    ensures Progress(r, s, u, letters, lucks, i + 1)
  {
    Sequences.TakeOne(letters, i);
    Associative(s.started, Starts(r, letters[..i], lucks), StartOf(r, letters[i], lucks(i)));
  }

  lemma {:induction false} WorkIsDone(r: Rules, before: seq<Event>, s: State, t0: State, letters: seq<Letter<Request>>,
                                      lucks: nat -> Luck, i: nat)
    returns (events: seq<Event>, t: State)
    requires GoodRules(r) && t0 == FixProtocol.Run(r, before) && s.requests.reader.Off?
    requires i <= |letters| && Progress(r, s, t0, letters, lucks, i)
    requires forall k :: 0 <= k < |letters| ==> SafeId(letters[k].item.id)
    ensures t == FixProtocol.Run(r, events) && Progress(r, s, t, letters, lucks, |letters|)
    decreases |letters| - i
  {
    events, t := before, t0;
    if i < |letters| {
      assert t0.work[0] == letters[i];
      events, t := OneCarriedOut(r, before, t0, lucks(i));
      ProgressStep(r, s, t0, t, letters, lucks, i);
      events, t := WorkIsDone(r, events, s, t, letters, lucks, i + 1);
    }
  }

  lemma WorkIsSafe(r: Rules, events: seq<Event>, s: State)
    requires GoodRules(r) && s == FixProtocol.Run(r, events)
    ensures forall k :: 0 <= k < |s.work| ==> SafeId(s.work[k].item.id)
  {
    EveryRunKeepsInvariant(r, events);
    forall k | 0 <= k < |s.work| ensures SafeId(s.work[k].item.id) { assert s.work[k] in s.work; }
  }

  /**
   Whatever state the protocol has reached, a whole undisturbed run of the executor is one of its runs:
   the same requests started in the same order, and the same result files.
   */
  lemma {:induction false} ExecutorRunIsARun(r: Rules, before: seq<Event>, s: State, entries: seq<string>,
                                             readable: string -> bool, lucks: nat -> Luck)
    returns (events: seq<Event>, t: State)
    requires GoodRules(r) && s == FixProtocol.Run(r, before) && ExecutorIdle(s) && s.requests.reader.Off?
    requires IsListing(entries, s.requests.files)
    ensures t == FixProtocol.Run(r, events) && ExecutorIdle(t)
    ensures var letters := Yields(r.requests, s.requests.files, entries, readable);
      && t.started == s.started + Starts(r, letters, lucks)
      && t.outcomes.files == Reports(r, s.outcomes.files, letters, lucks)
      && Unfinished(s.requests.files, t.requests.files)
  {
    var letters := Yields(r.requests, s.requests.files, entries, readable);
    var taken: State;
    events, taken := TakingIsARun(r, before, s, entries, readable);
    WorkIsSafe(r, events, taken);
    assert letters[..0] == [] && s.started + [] == s.started;
    events, t := WorkIsDone(r, events, taken, taken, letters, lucks, 0);
    Sequences.TakeAll(letters);
  }

  // ----- collecting outcomes is a run of the protocol -----

  function OutcomeEntryEvents(r: Rules, s: State, readable: string -> bool): State
    requires AtEntry(s.outcomes)
  {
    var name := s.outcomes.reader.names[s.outcomes.reader.at];
    if IsFinal(name) then FixProtocol.Step(r, FixProtocol.Step(r, s, ReadOutcome(readable(name))), RemoveOutcome)
    else FixProtocol.Step(r, s, SkipOutcome)
  }

  lemma OutcomeEntryIsSteps(r: Rules, s: State, readable: string -> bool)
    requires AtEntry(s.outcomes)
    ensures OutcomeEntryEvents(r, s, readable) == s.(outcomes := TakeEntry(r.outcomes, s.outcomes, readable))
  {
  }

  lemma OutcomeEntryIsTaken(r: Rules, before: seq<Event>, s: State, readable: string -> bool)
    returns (events: seq<Event>, t: State)
    requires s == FixProtocol.Run(r, before) && AtEntry(s.outcomes) && s.outcomes.reader.held == Unread
    ensures t == FixProtocol.Run(r, events) && t == OutcomeEntryEvents(r, s, readable)
  {
    var name := s.outcomes.reader.names[s.outcomes.reader.at];
    if IsFinal(name) {
      events, t := Extend(r, before, s, ReadOutcome(readable(name)));
      events, t := Extend(r, events, t, RemoveOutcome);
    } else {
      events, t := Extend(r, before, s, SkipOutcome);
    }
  }

  lemma {:induction false} OutcomesRestIsTaken(r: Rules, before: seq<Event>, s: State, readable: string -> bool)
    returns (events: seq<Event>, t: State)
    requires s == FixProtocol.Run(r, before)
    requires s.outcomes.reader.Taking? && s.outcomes.reader.held == Unread
    requires s.outcomes.reader.at <= |s.outcomes.reader.names|
    ensures t == FixProtocol.Run(r, events) && t == s.(outcomes := TakeRest(r.outcomes, s.outcomes, readable))
    decreases if s.outcomes.reader.Taking? then |s.outcomes.reader.names| - s.outcomes.reader.at else 0
  {
    events, t := before, s;
    if s.outcomes.reader.at < |s.outcomes.reader.names| {
      OneEntryOn(r.outcomes, s.outcomes, readable);
      OutcomeEntryIsSteps(r, s, readable);
      events, t := OutcomeEntryIsTaken(r, before, s, readable);
      events, t := OutcomesRestIsTaken(r, events, t, readable);
    }
  }

  lemma CollectingIsAStep(r: Rules, s: State)
    requires Finished(s.outcomes)
    ensures FixProtocol.Step(r, s, OutcomesTaken)
         == s.(pending := s.pending + s.outcomes.reader.batch, outcomes := s.outcomes.(reader := Off))
  {
  }

  /**
   Whatever state the protocol has reached, the agent's undisturbed pass over the result directory is one
   of its runs: it adds to what is pending exactly what `TakeAll` returns, and leaves the files it leaves.
   */
  lemma {:induction false} CollectingIsARun(r: Rules, before: seq<Event>, s: State, entries: seq<string>,
                                            readable: string -> bool)
    returns (events: seq<Event>, t: State)
    requires GoodRules(r) && s == FixProtocol.Run(r, before) && s.outcomes.reader.Off?
    requires IsListing(entries, s.outcomes.files)
    ensures t == FixProtocol.Run(r, events)
    ensures t.pending == s.pending + Yields(r.outcomes, s.outcomes.files, entries, readable)
    ensures t == s.(outcomes := t.outcomes, pending := t.pending) && t.outcomes.reader.Off?
    ensures Unfinished(s.outcomes.files, t.outcomes.files)
  {
    ListingIsTaken(r.outcomes, s.outcomes, entries, readable);
    events, t := Extend(r, before, s, ListOutcomes(entries));
    events, t := OutcomesRestIsTaken(r, events, t, readable);
    CollectingIsAStep(r, t);
    events, t := Extend(r, events, t, OutcomesTaken);
  }
}
