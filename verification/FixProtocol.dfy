/**
 The two-process fix protocol: the agent publishes authorised requests, the privileged executor
 takes them, acts and publishes outcomes, and the agent takes those and delivers them.

 `Step` interleaves every atomic step of both processes with crashes, reboots and arbitrary clock
 readings; `Invariant` holds of every state any run of steps reaches.
 */
module FixProtocol {

  import opened Wrappers
  import opened Spool
  import opened Mailbox
  import opened Commands

  // What the two processes consult: the allowlist, the target pattern, and the executor's plan.
  datatype Rules = Rules(
    known: string -> bool, validTarget: string -> bool, plan: (string, string) -> Option<Command>,
    requests: Codec<Request>, outcomes: Codec<Outcome>)

  ghost predicate GoodRules(r: Rules) {
    && RoundTrips(r.requests) && RoundTrips(r.outcomes)
    && r.requests.cap == Some(MAX_PENDING) && r.outcomes.cap == None
    && (forall q: Request :: r.requests.id(q) == q.id)
    && (forall o: Outcome :: r.outcomes.id(o) == o.id)
  }

  datatype Start = Start(tag: nat, request: Request, now: int)

  // `work` are the requests the executor has taken and not yet looked at, `running` the one whose
  // command was started. `started`, `delivered` and `heard` are history: the commands started, the outcomes
  // whose delivery was acknowledged, and those that reached the platform, acknowledged or not.
  datatype State = State(
    requests: Box<Request>, outcomes: Box<Outcome>,
    work: seq<Letter<Request>>, running: Option<Letter<Request>>,
    pending: seq<Letter<Outcome>>,
    started: seq<Start>, delivered: seq<Letter<Outcome>>, heard: seq<Letter<Outcome>>)

  function Initial(): State {
    State(Empty(), Empty(), [], None, [], [], [], [])
  }

  datatype Event =
    // the agent's half
    | Authorise(tag: nat, id: string, action: string, target: string, now: int)
    | WritePart(k: nat) | WriteFails(removeTemp: bool) | WritePublishes
    | ListOutcomes(names: seq<string>) | SkipOutcome | ReadOutcome(ok: bool) | RemoveOutcome | OutcomesTaken
    | Acknowledged
    | AckLost                           // the platform took the envelope, and the agent never learns of it
    // the executor's half
    | ListRequests(names: seq<string>) | SkipRequest | ReadRequest(ok: bool) | RemoveRequest | RequestsTaken
    | Refuse(detail: string, now: int) | Act(now: int) | Finish(ok: bool, detail: string, now: int)
    | OutcomePart(k: nat) | OutcomeFails(removeTemp: bool) | OutcomePublishes
    // the machine
    | AgentDies | ExecutorDies | Reboot

  predicate ExecutorIdle(s: State) {
    s.work == [] && s.running == None && s.outcomes.job == None
  }

  // May the executor look at the next request?
  predicate NextUp(s: State) {
    s.work != [] && s.running == None && s.outcomes.job == None && s.requests.reader.Off?
  }

  function Reported(tag: nat, request: Request, ok: bool, detail: string, now: int): Mailbox.Step<Outcome> {
    Begin(Letter(tag, Outcome(request.id, ok, detail, now)))
  }

  function Requests(r: Rules, s: State, step: Mailbox.Step<Request>): State {
    s.(requests := Apply(r.requests, s.requests, step))
  }

  function Outcomes(r: Rules, s: State, step: Mailbox.Step<Outcome>): State {
    s.(outcomes := Apply(r.outcomes, s.outcomes, step))
  }

  function Step(r: Rules, s: State, e: Event): State {
    match e
    case Authorise(tag, id, action, target, now) =>
      if r.known(action) && r.validTarget(target) && SafeId(id) && s.requests.job == None && tag !in s.requests.issued
      then Requests(r, s, Begin(Letter(tag, Request(id, action, target, Some(now))))) else s
    case WritePart(k) => Requests(r, s, Part(k))
    case WriteFails(removeTemp) => Requests(r, s, Abort(removeTemp))
    case WritePublishes => Requests(r, s, Publish)
    case ListOutcomes(names) => Outcomes(r, s, List(names))
    case SkipOutcome => Outcomes(r, s, Skip)
    case ReadOutcome(ok) => Outcomes(r, s, Read(ok))
    case RemoveOutcome => Outcomes(r, s, Remove)
    case OutcomesTaken =>
      if Finished(s.outcomes)
      then Outcomes(r, s.(pending := s.pending + s.outcomes.reader.batch), Return) else s
    case Acknowledged => s.(delivered := s.delivered + s.pending, heard := s.heard + s.pending, pending := [])
    case AckLost => s.(heard := s.heard + s.pending)
    case ListRequests(names) => if ExecutorIdle(s) then Requests(r, s, List(names)) else s
    case SkipRequest => Requests(r, s, Skip)
    case ReadRequest(ok) => Requests(r, s, Read(ok))
    case RemoveRequest => Requests(r, s, Remove)
    case RequestsTaken =>
      if Finished(s.requests) then Requests(r, s.(work := s.requests.reader.batch), Return) else s
    case Refuse(detail, now) =>
      if NextUp(s) && !MayAct(r, s.work[0].item, now)
      then Outcomes(r, s.(work := s.work[1..]), Reported(s.work[0].tag, s.work[0].item, false, detail, now)) else s
    case Act(now) =>
      if NextUp(s) && MayAct(r, s.work[0].item, now)
      then s.(work := s.work[1..], running := Some(s.work[0]),
              started := s.started + [Start(s.work[0].tag, s.work[0].item, now)])
      else s
    case Finish(ok, detail, now) =>
      if s.running.Some? && s.outcomes.job == None
      then Outcomes(r, s.(running := None), Reported(s.running.value.tag, s.running.value.item, ok, detail, now)) else s
    case OutcomePart(k) => Outcomes(r, s, Part(k))
    case OutcomeFails(removeTemp) => Outcomes(r, s, Abort(removeTemp))
    case OutcomePublishes => Outcomes(r, s, Publish)
    case AgentDies => Outcomes(r, Requests(r, s.(pending := []), WriterDies), ReaderDies)
    case ExecutorDies => Outcomes(r, Requests(r, s.(work := [], running := None), ReaderDies), WriterDies)
    case Reboot => Outcomes(r, Requests(r, s.(pending := [], work := [], running := None), Wipe), Wipe)
  }

  // The executor's own decision: still fresh, and on its compiled-in list.
  predicate MayAct(r: Rules, request: Request, now: int) {
    Fresh(request, now) && r.plan(request.action, request.target).Some?
  }

  ghost function Run(r: Rules, events: seq<Event>): State {
    if events == [] then Initial() else Step(r, Run(r, events[..|events| - 1]), events[|events| - 1])
  }

  // ----- the invariant -----

  ghost predicate StartedTag(s: State, tag: nat) {
    exists i :: 0 <= i < |s.started| && s.started[i].tag == tag
  }

  // Not acted on and not reported on yet.
  ghost predicate Untouched(s: State, tag: nat) {
    !StartedTag(s, tag) && tag !in s.outcomes.issued
  }

  ghost predicate WorkRight(s: State) {
    && DistinctTags(s.work)
    && (forall l :: l in s.work ==> l in s.requests.taken && Untouched(s, l.tag))
    && (s.requests.reader.Taking? ==>
          && s.work == [] && s.running == None
          && (forall l :: l in s.requests.reader.batch ==> Untouched(s, l.tag)))
    && (s.running.Some? ==>
          && s.running.value in s.requests.taken && s.running.value.tag !in s.outcomes.issued
          && (forall l :: l in s.work ==> l.tag != s.running.value.tag))
  }

  ghost predicate StartsRight(r: Rules, s: State) {
    && (forall i, j :: 0 <= i < j < |s.started| ==> s.started[i].tag != s.started[j].tag)
    && (forall i :: 0 <= i < |s.started| ==>
          && Letter(s.started[i].tag, s.started[i].request) in s.requests.taken
          && MayAct(r, s.started[i].request, s.started[i].now))
  }

  // Every outcome is about a request that was taken, and carries its id.
  ghost predicate OutcomesRight(s: State) {
    && s.outcomes.issued <= Tags(s.requests.taken)
    && (forall t :: t in s.outcomes.sent ==> t in s.requests.sent && s.outcomes.sent[t].id == s.requests.sent[t].id)
    && (s.outcomes.job.Some? ==>
          var l := s.outcomes.job.value;
          l.tag in s.requests.sent && l.item.id == s.requests.sent[l.tag].id)
  }

  ghost predicate Disjoint<T>(a: seq<Letter<T>>, b: seq<Letter<T>>) {
    forall l, m :: l in a && m in b ==> l.tag != m.tag
  }

  ghost predicate DeliveriesRight(s: State) {
    && DistinctTags(s.delivered) && DistinctTags(s.pending)
    && (forall l :: l in s.delivered ==> l in s.outcomes.taken)
    && (forall l :: l in s.pending ==> l in s.outcomes.taken)
    && Disjoint(s.delivered, s.pending)
    && (s.outcomes.reader.Taking? ==>
          Disjoint(s.delivered, s.outcomes.reader.batch) && Disjoint(s.pending, s.outcomes.reader.batch))
  }

  // The platform hears of nothing but outcomes taken, and of all that count as delivered.
  ghost predicate HeardRight(s: State) {
    && (forall l :: l in s.heard ==> l in s.outcomes.taken)
    && (forall l :: l in s.delivered ==> l in s.heard)
  }

  ghost predicate Invariant(r: Rules, s: State) {
    && Good(r.requests, s.requests) && Good(r.outcomes, s.outcomes)
    && WorkRight(s) && StartsRight(r, s) && OutcomesRight(s) && DeliveriesRight(s) && HeardRight(s)
  }

  // ----- every step keeps it -----

  lemma TakenTags<T>(b: Box<T>)
    ensures forall l :: l in b.taken ==> l.tag in Tags(b.taken)
  {
  }

  // A request newly taken was never acted on nor reported on.
  lemma NewlyTaken(r: Rules, s: State, tag: nat)
    requires Invariant(r, s) && tag !in Tags(s.requests.taken)
    ensures Untouched(s, tag)
  {
    TakenTags(s.requests);
    assert forall i :: 0 <= i < |s.started| ==> Letter(s.started[i].tag, s.started[i].request) in s.requests.taken;
  }

  lemma RequestRemoved(r: Rules, s: State)
    requires GoodRules(r) && Invariant(r, s) && Takes(s.requests, Remove)
    ensures Invariant(r, Requests(r, s, Remove))
  {
    StepKeepsGood(r.requests, s.requests, Remove);
    var after := Requests(r, s, Remove);
    var kept := Kept(r.requests, s.requests.reader.at, s.requests.reader.held);
    if kept.Some? {
      NewlyTaken(r, s, kept.value.tag);
      assert after.requests.taken == s.requests.taken + [kept.value];
      assert after.requests.reader.batch == s.requests.reader.batch + [kept.value];
    } else {
      assert after.requests.taken == s.requests.taken + [];
      assert after.requests.reader.batch == s.requests.reader.batch + [];
    }
    assert Tags(s.requests.taken) <= Tags(after.requests.taken);
    assert forall tag :: Untouched(after, tag) <==> Untouched(s, tag);
  }

  lemma RequestsMoved(r: Rules, s: State, b: Box<Request>)
    requires GoodRules(r) && Invariant(r, s) && Good(r.requests, b) && Moved(s.requests, b)
    requires b.reader.Taking? ==> s.requests.reader.Taking? || ExecutorIdle(s)
    ensures Invariant(r, s.(requests := b))
  {
    var after := s.(requests := b);
    assert forall tag :: Untouched(after, tag) <==> Untouched(s, tag);
  }

  lemma RequestStep(r: Rules, s: State, step: Mailbox.Step<Request>)
    requires GoodRules(r) && Invariant(r, s)
    requires step.Begin? ==> step.letter.tag !in s.requests.issued
    requires step.List? ==> ExecutorIdle(s)
    ensures Invariant(r, Requests(r, s, step))
  {
    if Takes(s.requests, step) {
      RequestRemoved(r, s);
    } else {
      StepKeepsGood(r.requests, s.requests, step);
      StepMoves(r.requests, s.requests, step);
      RequestsMoved(r, s, Apply(r.requests, s.requests, step));
    }
  }

  lemma OutcomeRemoved(r: Rules, s: State)
    requires GoodRules(r) && Invariant(r, s) && Takes(s.outcomes, Remove)
    ensures Invariant(r, Outcomes(r, s, Remove))
  {
    StepKeepsGood(r.outcomes, s.outcomes, Remove);
    TakenTags(s.outcomes);
    var after := Outcomes(r, s, Remove);
    var kept := Kept(r.outcomes, s.outcomes.reader.at, s.outcomes.reader.held);
    var more := if kept == None then [] else [kept.value];
    assert after.outcomes.taken == s.outcomes.taken + more;
    assert after.outcomes.reader.batch == s.outcomes.reader.batch + more;
    assert forall tag :: Untouched(after, tag) <==> Untouched(s, tag);
  }

  lemma OutcomesMoved(r: Rules, s: State, b: Box<Outcome>)
    requires GoodRules(r) && Invariant(r, s) && Good(r.outcomes, b) && Moved(s.outcomes, b)
    requires b.issued == s.outcomes.issued && (b.job == s.outcomes.job || b.job == None)
    ensures Invariant(r, s.(outcomes := b))
  {
    var after := s.(outcomes := b);
    assert forall tag :: Untouched(after, tag) <==> Untouched(s, tag);
  }

  lemma OutcomeStep(r: Rules, s: State, step: Mailbox.Step<Outcome>)
    requires GoodRules(r) && Invariant(r, s) && !step.Begin?
    ensures Invariant(r, Outcomes(r, s, step))
  {
    if Takes(s.outcomes, step) {
      OutcomeRemoved(r, s);
    } else {
      StepKeepsGood(r.outcomes, s.outcomes, step);
      StepMoves(r.outcomes, s.outcomes, step);
      OutcomesMoved(r, s, Apply(r.outcomes, s.outcomes, step));
    }
  }

  /** A report can always be begun: no request is ever reported on twice. */
  lemma {:induction false} ReportBegins(r: Rules, s: State, l: Letter<Request>, ok: bool, detail: string, now: int)
    requires GoodRules(r) && Invariant(r, s) && s.outcomes.job == None
    requires l in s.requests.taken && l.tag !in s.outcomes.issued
    requires s.running == None && s.requests.reader.Off? && forall k :: k in s.work ==> k.tag != l.tag
    ensures Invariant(r, Outcomes(r, s, Reported(l.tag, l.item, ok, detail, now)))
    ensures Outcomes(r, s, Reported(l.tag, l.item, ok, detail, now)).outcomes.job.Some?
  {
    StepKeepsGood(r.outcomes, s.outcomes, Reported(l.tag, l.item, ok, detail, now));
    TakenTags(s.requests);
    assert SafeId(l.item.id);
    var after := Outcomes(r, s, Reported(l.tag, l.item, ok, detail, now));
    assert forall tag :: tag != l.tag ==> (Untouched(after, tag) <==> Untouched(s, tag));
  }

  lemma Refused(r: Rules, s: State, detail: string, now: int)
    requires GoodRules(r) && Invariant(r, s)
    ensures Invariant(r, Step(r, s, Refuse(detail, now)))
  {
    if NextUp(s) && !MayAct(r, s.work[0].item, now) {
      var l := s.work[0];
      assert l in s.work;
      var t := s.(work := s.work[1..]);
      assert forall k :: k in t.work ==> k in s.work;
      assert forall k :: k in t.work ==> k.tag != l.tag;
      assert forall tag :: Untouched(t, tag) <==> Untouched(s, tag);
      assert Invariant(r, t);
      ReportBegins(r, t, l, false, detail, now);
    }
  }

  lemma ActedWork(r: Rules, s: State, now: int)
    requires Invariant(r, s) && NextUp(s) && MayAct(r, s.work[0].item, now)
    ensures WorkRight(Step(r, s, Act(now))) && !StartedTag(s, s.work[0].tag)
  {
    var l := s.work[0];
    assert l in s.work && Untouched(s, l.tag);
    var t := Step(r, s, Act(now));
    assert forall k :: k in t.work ==> k in s.work && k.tag != l.tag;
    forall tag | tag != l.tag && Untouched(s, tag) ensures Untouched(t, tag) {
      assert forall i :: 0 <= i < |s.started| ==> s.started[i].tag != tag;
    }
  }

  lemma Acted(r: Rules, s: State, now: int)
    requires GoodRules(r) && Invariant(r, s)
    ensures Invariant(r, Step(r, s, Act(now)))
  {
    if NextUp(s) && MayAct(r, s.work[0].item, now) {
      var l := s.work[0];
      assert l in s.work;
      ActedWork(r, s, now);
      assert forall i :: 0 <= i < |s.started| ==> s.started[i].tag != l.tag;
    }
  }

  lemma Finishes(r: Rules, s: State, ok: bool, detail: string, now: int)
    requires GoodRules(r) && Invariant(r, s)
    ensures Invariant(r, Step(r, s, Finish(ok, detail, now)))
  {
    if s.running.Some? && s.outcomes.job == None {
      var t := s.(running := None);
      assert forall tag :: Untouched(t, tag) <==> Untouched(s, tag);
      assert Invariant(r, t);
      ReportBegins(r, t, s.running.value, ok, detail, now);
    }
  }

  lemma Collected(r: Rules, s: State)
    requires GoodRules(r) && Invariant(r, s)
    ensures Invariant(r, Step(r, s, OutcomesTaken))
  {
    StepKeepsGood(r.outcomes, s.outcomes, Return);
    var t := Step(r, s, OutcomesTaken);
    assert forall tag :: Untouched(t, tag) <==> Untouched(s, tag);
  }

  lemma Delivered(r: Rules, s: State)
    requires GoodRules(r) && Invariant(r, s)
    ensures Invariant(r, Step(r, s, Acknowledged))
  {
    var t := Step(r, s, Acknowledged);
    assert forall tag :: Untouched(t, tag) <==> Untouched(s, tag);
  }

  lemma Overheard(r: Rules, s: State)
    requires GoodRules(r) && Invariant(r, s)
    ensures Invariant(r, Step(r, s, AckLost))
  {
    var t := Step(r, s, AckLost);
    assert forall tag :: Untouched(t, tag) <==> Untouched(s, tag);
  }

  lemma HandedOver(r: Rules, s: State)
    requires GoodRules(r) && Invariant(r, s)
    ensures Invariant(r, Step(r, s, RequestsTaken))
  {
    StepKeepsGood(r.requests, s.requests, Return);
    var t := Step(r, s, RequestsTaken);
    assert forall tag :: Untouched(t, tag) <==> Untouched(s, tag);
  }

  // Losing memory and files leaves less to say, and nothing new.
  lemma LosingKeeps(r: Rules, s: State, t: State)
    requires GoodRules(r) && Invariant(r, s) && Good(r.requests, t.requests) && Good(r.outcomes, t.outcomes)
    requires t.started == s.started && t.delivered == s.delivered && t.heard == s.heard
    requires t.requests.taken == s.requests.taken && t.requests.sent == s.requests.sent
    requires t.outcomes.taken == s.outcomes.taken && t.outcomes.sent == s.outcomes.sent
    requires t.outcomes.issued == s.outcomes.issued
    requires t.outcomes.job == s.outcomes.job || t.outcomes.job == None
    requires t.requests.reader == s.requests.reader || t.requests.reader.Off?
    requires t.outcomes.reader == s.outcomes.reader || t.outcomes.reader.Off?
    requires (t.work == s.work && t.running == s.running) || (t.work == [] && t.running == None)
    requires t.pending == s.pending || t.pending == []
    ensures Invariant(r, t)
  {
    assert forall tag :: Untouched(t, tag) <==> Untouched(s, tag);
  }

  lemma AgentDied(r: Rules, s: State)
    requires GoodRules(r) && Invariant(r, s)
    ensures Invariant(r, Step(r, s, AgentDies))
  {
    StepKeepsGood(r.requests, s.requests, WriterDies);
    StepKeepsGood(r.outcomes, s.outcomes, ReaderDies);
    LosingKeeps(r, s, Step(r, s, AgentDies));
  }

  lemma ExecutorDied(r: Rules, s: State)
    requires GoodRules(r) && Invariant(r, s)
    ensures Invariant(r, Step(r, s, ExecutorDies))
  {
    StepKeepsGood(r.requests, s.requests, ReaderDies);
    StepKeepsGood(r.outcomes, s.outcomes, WriterDies);
    LosingKeeps(r, s, Step(r, s, ExecutorDies));
  }

  lemma Rebooted(r: Rules, s: State)
    requires GoodRules(r) && Invariant(r, s)
    ensures Invariant(r, Step(r, s, Reboot))
  {
    StepKeepsGood(r.requests, s.requests, Wipe);
    StepKeepsGood(r.outcomes, s.outcomes, Wipe);
    LosingKeeps(r, s, Step(r, s, Reboot));
  }

  // The events that are one step of the request directory, and which step.
  predicate OfRequests(e: Event) {
    e.Authorise? || e.WritePart? || e.WriteFails? || e.WritePublishes?
    || e.ListRequests? || e.SkipRequest? || e.ReadRequest? || e.RemoveRequest?
  }

  function RequestStepOf(e: Event): Mailbox.Step<Request>
    requires OfRequests(e)
  {
    match e
    case Authorise(tag, id, action, target, now) => Begin(Letter(tag, Request(id, action, target, Some(now))))
    case WritePart(k) => Part(k)
    case WriteFails(removeTemp) => Abort(removeTemp)
    case WritePublishes => Publish
    case ListRequests(names) => List(names)
    case SkipRequest => Skip
    case ReadRequest(ok) => Read(ok)
    case RemoveRequest => Remove
  }

  lemma IsRequestStep(r: Rules, s: State, e: Event)
    requires OfRequests(e)
    ensures Step(r, s, e) == s || Step(r, s, e) == Requests(r, s, RequestStepOf(e))
    ensures Step(r, s, e) == s || (e.Authorise? ==> e.tag !in s.requests.issued)
    ensures Step(r, s, e) == s || (e.ListRequests? ==> ExecutorIdle(s))
  {
  }

  lemma RequestEvent(r: Rules, s: State, e: Event)
    requires GoodRules(r) && Invariant(r, s) && OfRequests(e)
    ensures Invariant(r, Step(r, s, e))
  {
    IsRequestStep(r, s, e);
    if Step(r, s, e) != s { RequestStep(r, s, RequestStepOf(e)); }
  }

  // The events that are one step of the result directory, and which step.
  predicate OfOutcomes(e: Event) {
    e.ListOutcomes? || e.SkipOutcome? || e.ReadOutcome? || e.RemoveOutcome?
    || e.OutcomePart? || e.OutcomeFails? || e.OutcomePublishes?
  }

  function OutcomeStepOf(e: Event): (step: Mailbox.Step<Outcome>)
    requires OfOutcomes(e)
    ensures !step.Begin? && !step.Return?
  {
    match e
    case ListOutcomes(names) => List(names)
    case SkipOutcome => Skip
    case ReadOutcome(ok) => Read(ok)
    case RemoveOutcome => Remove
    case OutcomePart(k) => Part(k)
    case OutcomeFails(removeTemp) => Abort(removeTemp)
    case OutcomePublishes => Publish
  }

  lemma IsOutcomeStep(r: Rules, s: State, e: Event)
    requires OfOutcomes(e)
    ensures Step(r, s, e) == Outcomes(r, s, OutcomeStepOf(e))
  {
  }

  lemma OutcomeEvent(r: Rules, s: State, e: Event)
    requires GoodRules(r) && Invariant(r, s) && OfOutcomes(e)
    ensures Invariant(r, Step(r, s, e))
  {
    IsOutcomeStep(r, s, e);
    OutcomeStep(r, s, OutcomeStepOf(e));
  }

  lemma {:induction false} StepKeepsInvariant(r: Rules, s: State, e: Event)
    requires GoodRules(r) && Invariant(r, s)
    ensures Invariant(r, Step(r, s, e))
  {
    if OfRequests(e) {
      RequestEvent(r, s, e);
    } else if OfOutcomes(e) {
      OutcomeEvent(r, s, e);
    } else {
      match e
      case RequestsTaken => HandedOver(r, s);
      case OutcomesTaken => Collected(r, s);
      case Acknowledged => Delivered(r, s);
      case AckLost => Overheard(r, s);
      case Refuse(detail, now) => Refused(r, s, detail, now);
      case Act(now) => Acted(r, s, now);
      case Finish(ok, detail, now) => Finishes(r, s, ok, detail, now);
      case AgentDies => AgentDied(r, s);
      case ExecutorDies => ExecutorDied(r, s);
      case Reboot => Rebooted(r, s);
    }
  }

  lemma {:induction false} EveryRunKeepsInvariant(r: Rules, events: seq<Event>)
    requires GoodRules(r)
    ensures Invariant(r, Run(r, events))
  {
    if events != [] {
      EveryRunKeepsInvariant(r, events[..|events| - 1]);
      StepKeepsInvariant(r, Run(r, events[..|events| - 1]), events[|events| - 1]);
    }
  }

  // ----- what the invariant is for -----

  // Tags of everything published, on disk, taken but not yet looked at, started, and delivered for one id.
  ghost function Written(s: State, id: string): set<nat> {
    set t | t in s.requests.sent && s.requests.sent[t].id == id
  }

  ghost function OnDisk(s: State, id: string): set<nat> {
    if FinalName(id) in s.requests.files then {s.requests.files[FinalName(id)].tag} else {}
  }

  ghost function InMemory(s: State): seq<Letter<Request>> {
    if s.requests.reader.Taking? then s.requests.reader.batch else s.work
  }

  ghost function Awaiting(s: State, id: string): set<nat> {
    set l | l in InMemory(s) && l.item.id == id :: l.tag
  }

  ghost function StartedFor(s: State, id: string): set<nat> {
    set i | 0 <= i < |s.started| && s.started[i].request.id == id :: s.started[i].tag
  }

  ghost function DeliveredFor(s: State, id: string): set<nat> {
    set l | l in s.delivered && l.item.id == id :: l.tag
  }

  lemma StartsAreTaken(r: Rules, s: State, i: nat)
    requires Invariant(r, s) && i < |s.started|
    ensures s.started[i].tag in s.requests.sent && s.started[i].request == s.requests.sent[s.started[i].tag]
    ensures s.started[i].tag in Tags(s.requests.taken)
  {
    TakenTags(s.requests);
    assert Letter(s.started[i].tag, s.started[i].request) in s.requests.taken;
  }

  lemma ThreePlaces(r: Rules, s: State, id: string)
    requires GoodRules(r) && Invariant(r, s) && SafeId(id)
    ensures StartedFor(s, id) !! OnDisk(s, id) && StartedFor(s, id) !! Awaiting(s, id)
    ensures OnDisk(s, id) !! Awaiting(s, id)
  {
    NamesAreDistinct(id, id);
    TakenTags(s.requests);
    forall t | t in StartedFor(s, id) ensures t in Tags(s.requests.taken) && StartedTag(s, t) {
      var i :| 0 <= i < |s.started| && s.started[i].tag == t;
      StartsAreTaken(r, s, i);
    }
    forall l | l in InMemory(s) ensures Untouched(s, l.tag) && l in s.requests.taken { }
  }

  lemma AllWereWritten(r: Rules, s: State, id: string)
    requires GoodRules(r) && Invariant(r, s) && SafeId(id)
    ensures StartedFor(s, id) + OnDisk(s, id) + Awaiting(s, id) <= Written(s, id)
  {
    NamesAreDistinct(id, id);
    forall t | t in StartedFor(s, id) ensures t in Written(s, id) {
      var i :| 0 <= i < |s.started| && s.started[i].request.id == id && s.started[i].tag == t;
      StartsAreTaken(r, s, i);
    }
    forall t | t in OnDisk(s, id) ensures t in Written(s, id) {
      assert Whole(r.requests, s.requests.sent, FinalName(id), s.requests.files[FinalName(id)]);
      NamesAreDistinct(id, s.requests.sent[t].id);
    }
    forall l | l in InMemory(s) ensures l in s.requests.taken { }
  }

  /**
   At most once, in every reachable state: an action is started at most once for each request
   published; actions started, the copy on disk and the copies in the executor's memory are about
   different publications and together never exceed those made for the id; what is started is exactly
   what was published, while fresh and planned; and no request acted on is still on disk.
   */
  lemma {:induction false} AtMostOnce(r: Rules, events: seq<Event>, id: string)
    requires GoodRules(r) && SafeId(id)
    ensures var s := Run(r, events);
      && (forall i, j :: 0 <= i < j < |s.started| ==> s.started[i].tag != s.started[j].tag)
      && |StartedFor(s, id)| + |OnDisk(s, id)| + |Awaiting(s, id)| <= |Written(s, id)|
    ensures var s := Run(r, events);
      forall i :: 0 <= i < |s.started| ==>
        && s.started[i].tag in s.requests.sent && s.started[i].request == s.requests.sent[s.started[i].tag]
        && MayAct(r, s.started[i].request, s.started[i].now)
        && (forall n :: n in s.requests.files && IsFinal(n) ==> s.requests.files[n].tag != s.started[i].tag)
  {
    EveryRunKeepsInvariant(r, events);
    var s := Run(r, events);
    ThreePlaces(r, s, id);
    AllWereWritten(r, s, id);
    DisjointSizes(StartedFor(s, id), OnDisk(s, id), Awaiting(s, id), Written(s, id));
    forall i | 0 <= i < |s.started|
      ensures s.started[i].tag in s.requests.sent && s.started[i].request == s.requests.sent[s.started[i].tag]
      ensures forall n :: n in s.requests.files && IsFinal(n) ==> s.requests.files[n].tag != s.started[i].tag
    {
      StartsAreTaken(r, s, i);
    }
  }

  /**
   What is started is young: in every reachable state each action was started at or after the time its request
   was written, and no more than ten minutes later.
   */
  lemma StartedWhileFresh(r: Rules, events: seq<Event>)
    requires GoodRules(r)
    ensures forall i :: 0 <= i < |Run(r, events).started| ==>
      var start := Run(r, events).started[i];
      && start.request.writtenAt.Some?
      && 0 <= start.now - start.request.writtenAt.value <= 600_000_000_000
      && r.plan(start.request.action, start.request.target).Some?
  {
    EveryRunKeepsInvariant(r, events);
  }

  ghost predicate Allowed(r: Rules, q: Request) {
    r.known(q.action) && r.validTarget(q.target) && SafeId(q.id) && q.writtenAt.Some?
  }

  // Every request published, or about to be, names a known action, a valid target and a safe id.
  ghost predicate OnlyAllowed(r: Rules, b: Box<Request>) {
    && (forall t :: t in b.sent ==> Allowed(r, b.sent[t]))
    && (b.job.Some? ==> Allowed(r, b.job.value.item))
  }

  lemma BoxKeepsAllowed(r: Rules, b: Box<Request>, step: Mailbox.Step<Request>)
    requires OnlyAllowed(r, b) && (step.Begin? ==> Allowed(r, step.letter.item))
    ensures OnlyAllowed(r, Apply(r.requests, b, step))
  {
  }

  lemma StepKeepsAllowed(r: Rules, s: State, e: Event)
    requires OnlyAllowed(r, s.requests)
    ensures OnlyAllowed(r, Step(r, s, e).requests)
  {
    if OfRequests(e) {
      AuthorisedIsAllowed(r, s, e);
      IsRequestStep(r, s, e);
    } else {
      BoxKeepsAllowed(r, s.requests, Return);
      BoxKeepsAllowed(r, s.requests, WriterDies);
      BoxKeepsAllowed(r, s.requests, ReaderDies);
      BoxKeepsAllowed(r, s.requests, Wipe);
      OtherEvents(r, s, e);
    }
  }

  lemma OtherEvents(r: Rules, s: State, e: Event)
    requires !OfRequests(e)
    ensures Step(r, s, e).requests == s.requests
      || Step(r, s, e).requests == Apply(r.requests, s.requests, Return)
      || Step(r, s, e).requests == Apply(r.requests, s.requests, WriterDies)
      || Step(r, s, e).requests == Apply(r.requests, s.requests, ReaderDies)
      || Step(r, s, e).requests == Apply(r.requests, s.requests, Wipe)
  {
  }

  lemma AuthorisedIsAllowed(r: Rules, s: State, e: Event)
    requires OfRequests(e) && OnlyAllowed(r, s.requests)
    ensures Step(r, s, e) == s || OnlyAllowed(r, Apply(r.requests, s.requests, RequestStepOf(e)))
  {
    if Step(r, s, e) != s { BoxKeepsAllowed(r, s.requests, RequestStepOf(e)); }
  }

  /** Nothing is ever published to the executor but known actions on valid targets, under a safe id and with a time. */
  lemma {:induction false} OnlyAllowedIsPublished(r: Rules, events: seq<Event>)
    ensures forall t :: t in Run(r, events).requests.sent ==>
      var q := Run(r, events).requests.sent[t];
      r.known(q.action) && r.validTarget(q.target) && SafeId(q.id) && q.writtenAt.Some?
  {
    PublishedAreAllowed(r, events);
  }

  lemma {:induction false} PublishedAreAllowed(r: Rules, events: seq<Event>)
    ensures OnlyAllowed(r, Run(r, events).requests)
  {
    if events != [] {
      PublishedAreAllowed(r, events[..|events| - 1]);
      StepKeepsAllowed(r, Run(r, events[..|events| - 1]), events[|events| - 1]);
    }
  }

  lemma DisjointSizes(a: set<nat>, b: set<nat>, c: set<nat>, all: set<nat>)
    requires a !! b && a !! c && b !! c && a + b + c <= all
    ensures |a| + |b| + |c| <= |all|
  {
    assert |a + b + c| == |a| + |b| + |c|;
    SubsetSize(a + b + c, all);
  }

  lemma {:induction false} SubsetSize(a: set<nat>, b: set<nat>)
    requires a <= b
    ensures |a| <= |b|
  {
    assert b == a + (b - a);
  }

  /**
   An outcome is delivered at most once for each request published: every delivered outcome is about a
   different published request, carries its id, and no more are delivered than requests were
   published, through any crashes and reboots.
   */
  lemma DeliveredAtMostOnce(r: Rules, events: seq<Event>, id: string)
    requires GoodRules(r)
    ensures var s := Run(r, events);
      && (forall i, j :: 0 <= i < j < |s.delivered| ==> s.delivered[i].tag != s.delivered[j].tag)
      && (forall l :: l in s.delivered ==> l.tag in s.requests.sent && s.requests.sent[l.tag].id == l.item.id)
      && |DeliveredFor(s, id)| <= |Written(s, id)|
  {
    EveryRunKeepsInvariant(r, events);
    var s := Run(r, events);
    SubsetSize(DeliveredFor(s, id), Written(s, id));
  }

  /** Every finished file of either directory is one whole letter under its own name, in every run. */
  lemma {:induction false} PublicationIsAtomic(r: Rules, events: seq<Event>)
    requires GoodRules(r)
    ensures var s := Run(r, events);
      && (forall n :: n in s.requests.files && IsFinal(n) ==>
            Whole(r.requests, s.requests.sent, n, s.requests.files[n]))
      && (forall n :: n in s.outcomes.files && IsFinal(n) ==>
            Whole(r.outcomes, s.outcomes.sent, n, s.outcomes.files[n]))
  {
    EveryRunKeepsInvariant(r, events);
  }

  // ----- and it gets there -----

  lemma Extend(r: Rules, events: seq<Event>, s: State, e: Event) returns (longer: seq<Event>, later: State)
    requires s == Run(r, events)
    ensures later == Run(r, longer) && later == Step(r, s, e)
  {
    longer, later := events + [e], Step(r, s, e);
    assert longer[..|longer| - 1] == events;
  }

  lemma RequestPublishes(r: Rules, q: Request) returns (events: seq<Event>, s: State)
    requires GoodRules(r) && r.known(q.action) && r.validTarget(q.target) && SafeId(q.id) && q.writtenAt.Some?
    ensures s == Run(r, events)
    ensures s == Initial().(
      requests := Empty<Request>().(files := map[FinalName(q.id) := File(r.requests.encode(q), 0)],
                                    sent := map[0 := q], issued := {0}))
  {
    events, s := [], Initial();
    events, s := Extend(r, events, s, Authorise(0, q.id, q.action, q.target, q.writtenAt.value));
    LetterIsSent(r.requests, s.requests, Letter(0, q));
    events, s := Extend(r, events, s, WritePart(|r.requests.encode(q)|));
    events, s := Extend(r, events, s, WritePublishes);
  }

  // One listing, one entry, from whatever state the executor is idle in.
  lemma RequestTakenSteps(r: Rules, s: State, l: Letter<Request>, name: string)
    requires GoodRules(r) && ExecutorIdle(s) && s.requests.reader.Off? && IsFinal(name)
    requires s.requests.files == map[name := File(r.requests.encode(l.item), l.tag)]
    requires Bearable(r.requests.encode(l.item))
    ensures Step(r, Step(r, Step(r, Step(r, s, ListRequests([name])), ReadRequest(true)), RemoveRequest), RequestsTaken)
         == s.(requests := s.requests.(files := map[], taken := s.requests.taken + [l]), work := [l])
  {
    LetterIsTaken(r.requests, s.requests, l, name);
    var listed := s.(requests := s.requests.(reader := Taking([name], 0, Unread, [])));
    assert Step(r, s, ListRequests([name])) == listed;
    var read := s.(requests := s.requests.(reader := Taking([name], 0, Got(s.requests.files[name]), [])));
    assert Step(r, listed, ReadRequest(true)) == read;
  }

  lemma RequestIsTaken(r: Rules, before: seq<Event>, s: State, l: Letter<Request>, name: string)
    returns (events: seq<Event>, t: State)
    requires GoodRules(r) && s == Run(r, before) && ExecutorIdle(s) && s.requests.reader.Off? && IsFinal(name)
    requires s.requests.files == map[name := File(r.requests.encode(l.item), l.tag)]
    requires Bearable(r.requests.encode(l.item))
    ensures t == Run(r, events)
    ensures t == s.(requests := s.requests.(files := map[], taken := s.requests.taken + [l]), work := [l])
  {
    RequestTakenSteps(r, s, l, name);
    events, t := ExtendBy(r, before, s, ListRequests([name]), ReadRequest(true), RemoveRequest, RequestsTaken);
  }

  lemma ExtendBy(r: Rules, events: seq<Event>, s: State, a: Event, b: Event, c: Event, d: Event)
    returns (longer: seq<Event>, later: State)
    requires s == Run(r, events)
    ensures later == Run(r, longer) && later == Step(r, Step(r, Step(r, Step(r, s, a), b), c), d)
  {
    longer, later := Extend(r, events, s, a);
    longer, later := Extend(r, longer, later, b);
    longer, later := Extend(r, longer, later, c);
    longer, later := Extend(r, longer, later, d);
  }

  lemma OutcomeSentSteps(r: Rules, s: State, o: Outcome)
    requires GoodRules(r) && SafeId(o.id)
    requires s.outcomes == Empty<Outcome>().(job := Some(Letter(0, o)), issued := {0})
    ensures Step(r, Step(r, s, OutcomePart(|r.outcomes.encode(o)|)), OutcomePublishes)
         == s.(outcomes := Empty<Outcome>().(files := map[FinalName(o.id) := File(r.outcomes.encode(o), 0)],
                                             sent := map[0 := o], issued := {0}))
  {
    LetterIsSent(r.outcomes, s.outcomes, Letter(0, o));
    assert Step(r, s, OutcomePart(|r.outcomes.encode(o)|))
        == s.(outcomes := s.outcomes.(files := map[TempName(o.id) := File(r.outcomes.encode(o), 0)]));
  }

  lemma OutcomePublished(r: Rules, before: seq<Event>, s: State, o: Outcome) returns (events: seq<Event>, t: State)
    requires GoodRules(r) && s == Run(r, before) && SafeId(o.id)
    requires s.outcomes == Empty<Outcome>().(job := Some(Letter(0, o)), issued := {0})
    ensures t == Run(r, events)
    ensures t == s.(outcomes := Empty<Outcome>().(files := map[FinalName(o.id) := File(r.outcomes.encode(o), 0)],
                                                  sent := map[0 := o], issued := {0}))
  {
    OutcomeSentSteps(r, s, o);
    events, t := Extend(r, before, s, OutcomePart(|r.outcomes.encode(o)|));
    events, t := Extend(r, events, t, OutcomePublishes);
  }

  lemma OutcomeTakenSteps(r: Rules, s: State, l: Letter<Outcome>, name: string)
    requires GoodRules(r) && s.outcomes.reader.Off? && IsFinal(name)
    requires s.outcomes.files == map[name := File(r.outcomes.encode(l.item), l.tag)]
    requires Bearable(r.outcomes.encode(l.item))
    ensures Step(r, Step(r, Step(r, Step(r, s, ListOutcomes([name])), ReadOutcome(true)), RemoveOutcome), OutcomesTaken)
         == s.(outcomes := s.outcomes.(files := map[], taken := s.outcomes.taken + [l]), pending := s.pending + [l])
  {
    LetterIsTaken(r.outcomes, s.outcomes, l, name);
    var listed := s.(outcomes := s.outcomes.(reader := Taking([name], 0, Unread, [])));
    assert Step(r, s, ListOutcomes([name])) == listed;
    var read := s.(outcomes := s.outcomes.(reader := Taking([name], 0, Got(s.outcomes.files[name]), [])));
    assert Step(r, listed, ReadOutcome(true)) == read;
  }

  lemma OutcomeIsPending(r: Rules, before: seq<Event>, s: State, l: Letter<Outcome>, name: string)
    returns (events: seq<Event>, t: State)
    requires GoodRules(r) && s == Run(r, before) && s.outcomes.reader.Off? && IsFinal(name)
    requires s.outcomes.files == map[name := File(r.outcomes.encode(l.item), l.tag)]
    requires Bearable(r.outcomes.encode(l.item))
    ensures t == Run(r, events)
    ensures t == s.(outcomes := s.outcomes.(files := map[], taken := s.outcomes.taken + [l]),
                    pending := s.pending + [l])
  {
    OutcomeTakenSteps(r, s, l, name);
    events, t := ExtendBy(r, before, s, ListOutcomes([name]), ReadOutcome(true), RemoveOutcome, OutcomesTaken);
  }

  // ----- one request all the way -----

  // What is asked of a request, and of the encodings, for it to get that far.
  ghost predicate CanGoThrough(r: Rules, q: Request, o: Outcome, now: int) {
    && GoodRules(r) && r.known(q.action) && r.validTarget(q.target) && SafeId(q.id) && MayAct(r, q, now)
    && o.id == q.id && Bearable(r.requests.encode(q)) && Bearable(r.outcomes.encode(o))
  }

  // The request taken off the disk and in the executor's hands.
  ghost function InHand(q: Request): State {
    Initial().(requests := Empty<Request>().(sent := map[0 := q], issued := {0}, taken := [Letter(0, q)]),
               work := [Letter(0, q)])
  }

  // Carried out, its outcome being written.
  ghost function CarriedOut(q: Request, o: Outcome, now: int): State {
    InHand(q).(work := [], started := [Start(0, q, now)],
               outcomes := Empty<Outcome>().(job := Some(Letter(0, o)), issued := {0}))
  }

  // Its outcome published.
  ghost function Concluded(r: Rules, q: Request, o: Outcome, now: int): State {
    CarriedOut(q, o, now).(outcomes := Empty<Outcome>().(files := map[FinalName(o.id) := File(r.outcomes.encode(o), 0)],
                                                         sent := map[0 := o], issued := {0}))
  }

  lemma ReachInHand(r: Rules, q: Request, o: Outcome, now: int) returns (events: seq<Event>)
    requires CanGoThrough(r, q, o, now)
    ensures Run(r, events) == InHand(q)
  {
    NamesAreDistinct(q.id, q.id);
    var s: State;
    events, s := RequestPublishes(r, q);
    events, s := RequestIsTaken(r, events, s, Letter(0, q), FinalName(q.id));
  }

  lemma ActsAndFinishes(r: Rules, q: Request, o: Outcome, now: int)
    requires CanGoThrough(r, q, o, now)
    ensures Step(r, Step(r, InHand(q), Act(now)), Finish(o.ok, o.detail, o.finishedAt)) == CarriedOut(q, o, now)
  {
  }

  lemma ReachCarriedOut(r: Rules, q: Request, o: Outcome, now: int) returns (events: seq<Event>)
    requires CanGoThrough(r, q, o, now)
    ensures Run(r, events) == CarriedOut(q, o, now)
  {
    ActsAndFinishes(r, q, o, now);
    events := ReachInHand(r, q, o, now);
    var s := InHand(q);
    events, s := Extend(r, events, s, Act(now));
    events, s := Extend(r, events, s, Finish(o.ok, o.detail, o.finishedAt));
  }

  lemma ReachConcluded(r: Rules, q: Request, o: Outcome, now: int) returns (events: seq<Event>)
    requires CanGoThrough(r, q, o, now)
    ensures Run(r, events) == Concluded(r, q, o, now)
  {
    events := ReachCarriedOut(r, q, o, now);
    var s := CarriedOut(q, o, now);
    events, s := OutcomePublished(r, events, s, o);
  }

  // The outcome in the agent's hands.
  ghost function Collectable(r: Rules, q: Request, o: Outcome, now: int): State {
    Concluded(r, q, o, now).(outcomes := Empty<Outcome>().(sent := map[0 := o], issued := {0}, taken := [Letter(0, o)]),
                             pending := [Letter(0, o)])
  }

  lemma ReachCollectable(r: Rules, q: Request, o: Outcome, now: int) returns (events: seq<Event>)
    requires CanGoThrough(r, q, o, now)
    ensures Run(r, events) == Collectable(r, q, o, now)
  {
    NamesAreDistinct(q.id, q.id);
    events := ReachConcluded(r, q, o, now);
    var s := Concluded(r, q, o, now);
    events, s := OutcomeIsPending(r, events, s, Letter(0, o), FinalName(o.id));
  }

  /** An authorised request that is fresh and planned can be acted on and its outcome delivered. */
  lemma RequestGoesThrough(r: Rules, q: Request, o: Outcome, now: int) returns (events: seq<Event>)
    requires CanGoThrough(r, q, o, now)
    ensures Run(r, events).started == [Start(0, q, now)] && Run(r, events).delivered == [Letter(0, o)]
    ensures Run(r, events).requests.files == map[] && Run(r, events).outcomes.files == map[]
  {
    events := ReachCollectable(r, q, o, now);
    var s := Collectable(r, q, o, now);
    events, s := Extend(r, events, s, Acknowledged);
  }

  // ----- but need not, and may be heard of twice -----

  lemma {:induction false} GoneIsNeverHeard(r: Rules, events: seq<Event>, more: seq<Event>, tag: nat)
    requires GoodRules(r) && Gone(Run(r, events).outcomes, tag)
    ensures Gone(Run(r, events + more).outcomes, tag) && tag !in Tags(Run(r, events + more).heard)
  {
    EveryRunKeepsInvariant(r, events + more);
    if more == [] {
      assert events + more == events;
    } else {
      var front := more[..|more| - 1];
      assert (events + more)[..|events + more| - 1] == events + front;
      GoneIsNeverHeard(r, events, front, tag);
      EveryRunKeepsInvariant(r, events + front);
      StepKeepsOutcomeGone(r, Run(r, events + front), more[|more| - 1], tag);
    }
  }

  lemma StepKeepsOutcomeGone(r: Rules, s: State, e: Event, tag: nat)
    requires GoodRules(r) && Invariant(r, s) && Gone(s.outcomes, tag)
    ensures Gone(Step(r, s, e).outcomes, tag)
  {
    if OfOutcomes(e) {
      IsOutcomeStep(r, s, e);
      StepKeepsGone(r.outcomes, s.outcomes, OutcomeStepOf(e), tag);
    } else {
      match e
      case Refuse(detail, now) =>
        if NextUp(s) { StepKeepsBegunGone(r, s, s.work[0], false, detail, now, tag); }
      case Finish(ok, detail, now) =>
        if s.running.Some? { StepKeepsBegunGone(r, s, s.running.value, ok, detail, now, tag); }
      case _ => StepLeavesGone(r, s, e, tag);
    }
  }

  lemma StepLeavesGone(r: Rules, s: State, e: Event, tag: nat)
    requires Gone(s.outcomes, tag) && !OfOutcomes(e) && !e.Refuse? && !e.Finish?
    ensures Gone(Step(r, s, e).outcomes, tag)
  {
    if e.OutcomesTaken? || e.AgentDies? || e.ExecutorDies? || e.Reboot? {
      StepKeepsGone(r.outcomes, s.outcomes, Return, tag);
      StepKeepsGone(r.outcomes, s.outcomes, ReaderDies, tag);
      StepKeepsGone(r.outcomes, s.outcomes, WriterDies, tag);
      StepKeepsGone(r.outcomes, s.outcomes, Wipe, tag);
    } else {
      assert Step(r, s, e).outcomes == s.outcomes;
    }
  }

  lemma StepKeepsBegunGone(r: Rules, s: State, l: Letter<Request>, ok: bool, detail: string, now: int, tag: nat)
    requires GoodRules(r) && Invariant(r, s) && Gone(s.outcomes, tag) && (l in s.work || s.running == Some(l))
    ensures Gone(Apply(r.outcomes, s.outcomes, Reported(l.tag, l.item, ok, detail, now)), tag)
  {
    assert l.tag !in s.outcomes.issued;
    StepKeepsGone(r.outcomes, s.outcomes, Reported(l.tag, l.item, ok, detail, now), tag);
  }

  lemma OutcomeLostSteps(r: Rules, s: State, name: string)
    requires s.outcomes.reader.Off? && IsFinal(name) && s.outcomes.files.Keys == {name}
    ensures Step(r, Step(r, Step(r, Step(r, s, ListOutcomes([name])), ReadOutcome(false)), RemoveOutcome),
                 OutcomesTaken)
         == s.(outcomes := s.outcomes.(files := map[]))
  {
    LetterIsLost(r.outcomes, s.outcomes, name);
    var listed := s.(outcomes := s.outcomes.(reader := Taking([name], 0, Unread, [])));
    assert Step(r, s, ListOutcomes([name])) == listed;
    var read := s.(outcomes := s.outcomes.(reader := Taking([name], 0, Unreadable, [])));
    assert Step(r, listed, ReadOutcome(false)) == read;
    assert s.pending + [] == s.pending;
  }

  lemma ReachLost(r: Rules, q: Request, o: Outcome, now: int) returns (events: seq<Event>)
    requires CanGoThrough(r, q, o, now)
    ensures Run(r, events)
         == Concluded(r, q, o, now).(outcomes := Empty<Outcome>().(sent := map[0 := o], issued := {0}))
  {
    NamesAreDistinct(q.id, q.id);
    events := ReachConcluded(r, q, o, now);
    var s := Concluded(r, q, o, now);
    OutcomeLostSteps(r, s, FinalName(o.id));
    events, s := ExtendBy(r, events, s, ListOutcomes([FinalName(o.id)]), ReadOutcome(false), RemoveOutcome,
                          OutcomesTaken);
  }

  /**
   Delivery is at most once and not exactly once: looked at before it is handed to the agent's group, a
   published outcome is removed unread, and however the run goes on nobody will ever hear of it.
   */
  lemma OutcomeCanBeLost(r: Rules, q: Request, o: Outcome, now: int) returns (events: seq<Event>)
    requires CanGoThrough(r, q, o, now)
    ensures Run(r, events).started == [Start(0, q, now)] && Run(r, events).outcomes.sent == map[0 := o]
    ensures forall more :: 0 !in Tags(Run(r, events + more).heard)
  {
    events := ReachLost(r, q, o, now);
    assert Gone(Run(r, events).outcomes, 0);
    forall more ensures 0 !in Tags(Run(r, events + more).heard) { GoneIsNeverHeard(r, events, more, 0); }
  }

  /** An acknowledgement lost on the way: the same outcome is sent again and the platform hears it twice. */
  lemma OutcomeHeardTwice(r: Rules, q: Request, o: Outcome, now: int) returns (events: seq<Event>)
    requires CanGoThrough(r, q, o, now)
    ensures Run(r, events).heard == [Letter(0, o), Letter(0, o)] && Run(r, events).delivered == [Letter(0, o)]
  {
    events := ReachCollectable(r, q, o, now);
    var s := Collectable(r, q, o, now);
    events, s := Extend(r, events, s, AckLost);
    events, s := Extend(r, events, s, Acknowledged);
  }
}
