/**
 The tailer against a writer: every interleaving of passes with appends, rotations, truncations,
 removals and renames, with calls that fail and reads that fall short.

 Every byte ever written has a serial number, its index in `written`. The ledger keeps which
 serials stand in which file, which ones were taken in which order, and every line returned;
 no process ever looks at it. What was written is then returned exactly once when no serial
 is taken twice and the lines returned are those of the bytes taken.
 */
module TailRuns {

  import opened Wrappers
  import opened Bytes
  import opened Sequences
  import opened Lines
  import opened Tail

  datatype Event =
    | Append(id: FileId, bytes: Blob)
    | Rotate(id: FileId)                // the path now names a new, empty file
    | Vanish                            // the path names nothing
    | Restore(id: FileId)               // the path names a file that already existed
    | Truncate(id: FileId, keep: nat)   // cut short in place
    | Call(luck: Luck)

  // `past` are the bytes of the stretches left behind, `out` every line the passes returned.
  datatype Ledger = Ledger(
    written: Blob, serials: map<FileId, seq<nat>>, taken: seq<nat>, past: seq<Blob>, out: seq<Line>)

  // `cut` says that bytes already taken were cut from the followed file and it was not looked at since.
  datatype Sys = Sys(w: World, pos: Position, stretch: Stretch, cut: bool, log: Ledger)

  // ----- what a pass takes -----

  // Where in the file the bytes taken begin.
  function GivenFrom(p: Position, w: World, luck: Luck): nat
    requires GoodWorld(w)
  {
    var (q, failed) := EnsuredOpen(p, w, luck);
    if failed || q.file == None || !luck.fstat then q.offset
    else
      var size := |w.content[w.path.value]|;
      SkippedAhead(Noticed(q, size), size).offset
  }

  // Did the pass get as far as learning the size of the file at the path?
  ghost predicate Looks(p: Position, w: World, luck: Luck)
    requires GoodWorld(w)
  {
    var (q, failed) := EnsuredOpen(p, w, luck);
    !failed && q.file.Some? && luck.fstat
  }

  /** Does the pass start a file from its beginning: another file than before, or one seen to be shorter? */
  ghost predicate Resets(p: Position, w: World, luck: Luck)
    requires GoodWorld(w)
  {
    var (q, failed) := EnsuredOpen(p, w, luck);
    q.identity != p.identity || (Looks(p, w, luck) && |w.content[w.path.value]| < q.offset)
  }

  function Between(xs: seq<nat>, from: nat, n: nat): seq<nat> {
    if from + n <= |xs| then xs[from..from + n] else []
  }

  ghost function TakenBy(log: Ledger, p: Position, w: World, luck: Luck): seq<nat>
    requires GoodWorld(w)
  {
    if w.path.Some? && w.path.value in log.serials
    then Between(log.serials[w.path.value], GivenFrom(p, w, luck), |Given(p, w, luck)|) else []
  }

  lemma OpenMoves(p: Position, content: Blob, luck: Luck)
    requires luck.fstat
    ensures var from, pass := SkippedAhead(Noticed(p, |content|), |content|).offset, ReadingOpen(p, content, luck);
      && pass.pos.offset == from + |GivenOpen(p, content, luck)| && pass.pos.identity == p.identity
      && (|content| >= p.offset ==> p.offset <= from)
  {
  }

  lemma OpeningTurns(p: Position, w: World, luck: Luck)
    requires GoodWorld(w) && (p.file.Some? ==> p.file == p.identity) && (p.everOpened <==> p.identity.Some?)
    ensures var q := EnsuredOpen(p, w, luck).0;
      && (q.identity == p.identity ==> q.offset == p.offset)
      && (q.identity != p.identity || q.file.Some? ==> w.path.Some? && q.identity == w.path)
      && (q.identity != p.identity && p.everOpened ==> q.offset == 0)
  {
  }

  lemma PassMoves(p: Position, w: World, luck: Luck)
    requires GoodWorld(w) && (p.file.Some? ==> p.file == p.identity) && (p.everOpened <==> p.identity.Some?)
    ensures Reading(p, w, luck).pos.offset == GivenFrom(p, w, luck) + |Given(p, w, luck)|
    ensures !Resets(p, w, luck) ==>
              Reading(p, w, luck).pos.identity == p.identity && p.offset <= GivenFrom(p, w, luck)
    ensures Resets(p, w, luck) || Given(p, w, luck) != [] ==>
              w.path.Some? && Reading(p, w, luck).pos.identity == w.path
    ensures Reading(p, w, luck).pos.identity == p.identity || Reading(p, w, luck).pos.identity == w.path
  {
    OpeningTurns(p, w, luck);
    if Looks(p, w, luck) { OpenMoves(EnsuredOpen(p, w, luck).0, w.content[w.path.value], luck); }
  }

  lemma GivenStands(p: Position, w: World, luck: Luck)
    requires GoodWorld(w) && Given(p, w, luck) != []
    ensures w.path.Some?
    ensures var from, n, content := GivenFrom(p, w, luck), |Given(p, w, luck)|, w.content[w.path.value];
      from + n <= |content| && content[from..from + n] == Given(p, w, luck)
  {
  }

  // ----- the runs -----

  ghost function Entered(log: Ledger, s: Sys, luck: Luck): Ledger
    requires GoodWorld(s.w)
  {
    log.(taken := log.taken + TakenBy(log, s.pos, s.w, luck),
         past := if Ends(s.pos, s.w, luck) then log.past + [s.stretch.got] else log.past,
         out := log.out + Reading(s.pos, s.w, luck).lines)
  }

  function Numbers(from: nat, n: nat): (numbers: seq<nat>)
    ensures |numbers| == n && forall k :: 0 <= k < n ==> numbers[k] == from + k
  {
    seq(n, k => from + k)
  }

  ghost function Grown(s: Sys, id: FileId, bytes: Blob): Sys
    requires id in s.w.content && id in s.log.serials
  {
    s.(w := s.w.(content := s.w.content[id := s.w.content[id] + bytes]),
       log := s.log.(written := s.log.written + bytes,
                     serials := s.log.serials[id := s.log.serials[id] + Numbers(|s.log.written|, |bytes|)]))
  }

  ghost function Shortened(s: Sys, id: FileId, keep: nat): Sys
    requires id in s.w.content && keep <= |s.w.content[id]|
    requires id in s.log.serials && |s.log.serials[id]| == |s.w.content[id]|
  {
    s.(w := s.w.(content := s.w.content[id := s.w.content[id][..keep]]),
       log := s.log.(serials := s.log.serials[id := s.log.serials[id][..keep]]),
       cut := s.cut || (s.pos.identity == Some(id) && keep < s.pos.offset))
  }

  ghost function Called(s: Sys, luck: Luck): Sys
    requires GoodWorld(s.w)
  {
    var pass := Reading(s.pos, s.w, luck);
    Sys(s.w, pass.pos, Tracked(s.stretch, s.pos, s.w, luck),
        s.cut && pass.pos.identity == s.pos.identity && !Looks(s.pos, s.w, luck),
        Entered(s.log, s, luck))
  }

  ghost function Apply(s: Sys, e: Event): (t: Sys)
    requires Sound(s)
    ensures Sound(t)
  {
    match e
    case Append(id, bytes) => if id in s.w.content then Grown(s, id, bytes) else s
    case Rotate(id) =>
      if id in s.w.content then s
      else s.(w := World(Some(id), s.w.content[id := []]), log := s.log.(serials := s.log.serials[id := []]))
    case Vanish => s.(w := s.w.(path := None))
    case Restore(id) => if id in s.w.content then s.(w := s.w.(path := Some(id))) else s
    case Truncate(id, keep) =>
      if id in s.w.content && keep <= |s.w.content[id]| then Shortened(s, id, keep) else s
    case Call(luck) => Called(s, luck)
  }

  // The serials of a file are as many as its bytes.
  ghost predicate Sound(s: Sys) {
    && GoodWorld(s.w) && s.log.serials.Keys == s.w.content.Keys
    && forall id :: id in s.w.content ==> |s.log.serials[id]| == |s.w.content[id]|
  }

  ghost function Run(s: Sys, events: seq<Event>): (end: Sys)
    requires Sound(s)
    ensures Sound(end)
  {
    if events == [] then s else Apply(Run(s, Init(events)), Last(events))
  }

  // ----- the books -----

  /** These serials, looked up in order, spell these bytes. */
  ghost predicate Spells(written: Blob, serials: seq<nat>, bytes: Blob) {
    |serials| == |bytes| && forall k :: 0 <= k < |serials| ==> serials[k] < |written| && written[serials[k]] == bytes[k]
  }

  ghost predicate Stands(w: World, log: Ledger, id: FileId)
    requires id in w.content && id in log.serials
  {
    Spells(log.written, log.serials[id], w.content[id])
  }

  ghost predicate FilesSpelt(s: Sys)
    requires Sound(s)
  {
    forall id :: id in s.w.content ==> Stands(s.w, s.log, id)
  }

  /** No byte stands in two places. */
  ghost predicate OnePlace(log: Ledger) {
    forall id, i, jd, j ::
      id in log.serials && 0 <= i < |log.serials[id]| && jd in log.serials && 0 <= j < |log.serials[jd]|
      && log.serials[id][i] == log.serials[jd][j] ==>
        id == jd && i == j
  }

  /** The lines of every stretch left behind. */
  function LinesOf(past: seq<Blob>): seq<Line> {
    if past == [] then [] else LinesOf(Init(past)) + Complete(Last(past))
  }

  ghost predicate Books(s: Sys) {
    && Sound(s) && Accounts(s.stretch, s.pos) && FilesSpelt(s) && OnePlace(s.log)
    && (s.pos.identity.Some? ==> s.pos.identity.value in s.w.content)
    && Spells(s.log.written, s.log.taken, Flat(s.log.past) + s.stretch.got)
    && s.log.out == LinesOf(s.log.past) + s.stretch.lines
    && (s.pos.identity == None ==> s.log.taken == [])
  }

  ghost predicate Begins(s: Sys) {
    && Sound(s) && FilesSpelt(s) && OnePlace(s.log)
    && s.pos == START && s.stretch == Fresh(0) && !s.cut
    && s.log.taken == [] && s.log.past == [] && s.log.out == []
  }

  lemma SpellsConcat(written: Blob, a: seq<nat>, x: Blob, b: seq<nat>, y: Blob)
    requires Spells(written, a, x) && Spells(written, b, y)
    ensures Spells(written, a + b, x + y)
  {
  }

  lemma SpellsMore(written: Blob, more: Blob, serials: seq<nat>, bytes: Blob)
    requires Spells(written, serials, bytes)
    ensures Spells(written + more, serials, bytes)
  {
  }

  lemma TakenSpells(s: Sys, luck: Luck)
    requires Sound(s) && FilesSpelt(s)
    ensures Spells(s.log.written, TakenBy(s.log, s.pos, s.w, luck), Given(s.pos, s.w, luck))
  {
    if Given(s.pos, s.w, luck) != [] {
      GivenStands(s.pos, s.w, luck);
      assert Stands(s.w, s.log, s.w.path.value);
    }
  }

  lemma LinesOfSnoc(past: seq<Blob>, last: Blob)
    ensures LinesOf(past + [last]) == LinesOf(past) + Complete(last)
  {
    Snoc(past, last);
  }

  lemma StretchLeft(s: Sys)
    requires Accounts(s.stretch, s.pos)
    ensures LinesOf(s.log.past + [s.stretch.got]) == LinesOf(s.log.past) + s.stretch.lines
    ensures Flat(s.log.past + [s.stretch.got]) + [] == Flat(s.log.past) + s.stretch.got
  {
    LinesOfSnoc(s.log.past, s.stretch.got);
    FlatSnoc(s.log.past, s.stretch.got);
  }

  // What the pass starts from stands for the same lines and bytes as before, in the books.
  lemma CarriedBooks(s: Sys, luck: Luck)
    requires Books(s)
    ensures var past, kept := Entered(s.log, s, luck).past, Carried(s.stretch, Ends(s.pos, s.w, luck));
      && LinesOf(past) + kept.lines == s.log.out
      && Flat(past) + kept.got == Flat(s.log.past) + s.stretch.got
  {
    StretchLeft(s);
    if Ends(s.pos, s.w, luck) { assert LinesOf(s.log.past + [s.stretch.got]) + [] == s.log.out; }
  }

  lemma CallKeepsLines(s: Sys, luck: Luck)
    requires Books(s)
    ensures var t := Called(s, luck);
      && t.log.out == LinesOf(t.log.past) + t.stretch.lines
      && Spells(t.log.written, t.log.taken, Flat(t.log.past) + t.stretch.got)
  {
    var past, kept := Entered(s.log, s, luck).past, Carried(s.stretch, Ends(s.pos, s.w, luck));
    CarriedBooks(s, luck);
    PassReturnsLines(s.stretch, s.pos, s.w, luck);
    Associative(LinesOf(past), kept.lines, Reading(s.pos, s.w, luck).lines);
    Associative(Flat(past), kept.got, Given(s.pos, s.w, luck));
    TakenSpells(s, luck);
    SpellsConcat(s.log.written, s.log.taken, Flat(past) + kept.got,
                 TakenBy(s.log, s.pos, s.w, luck), Given(s.pos, s.w, luck));
  }

  lemma CallKeepsBooks(s: Sys, luck: Luck)
    requires Books(s)
    ensures Books(Called(s, luck))
  {
    var t := Called(s, luck);
    PassKeepsAccounts(s.stretch, s.pos, s.w, luck);
    PassMoves(s.pos, s.w, luck);
    CallKeepsLines(s, luck);
    assert forall id :: id in t.w.content ==> Stands(s.w, s.log, id) == Stands(t.w, t.log, id);
    assert t.pos.identity == None ==> TakenBy(s.log, s.pos, s.w, luck) == [];
  }

  lemma GrowthKeepsPlaces(log: Ledger, id: FileId, n: nat)
    requires OnePlace(log) && id in log.serials
    requires forall jd, j :: jd in log.serials && 0 <= j < |log.serials[jd]| ==> log.serials[jd][j] < |log.written|
    ensures OnePlace(log.(serials := log.serials[id := log.serials[id] + Numbers(|log.written|, n)]))
  {
  }

  lemma GrowthSpells(s: Sys, id: FileId, bytes: Blob, jd: FileId)
    requires Sound(s) && FilesSpelt(s) && id in s.w.content && jd in s.w.content
    ensures Stands(Grown(s, id, bytes).w, Grown(s, id, bytes).log, jd)
  {
    assert Stands(s.w, s.log, jd);
    SpellsMore(s.log.written, bytes, s.log.serials[jd], s.w.content[jd]);
    if jd == id {
      var numbers := Numbers(|s.log.written|, |bytes|);
      assert Spells(s.log.written + bytes, numbers, bytes);
      SpellsConcat(s.log.written + bytes, s.log.serials[jd], s.w.content[jd], numbers, bytes);
    }
  }

  lemma SerialsAreWritten(s: Sys, id: FileId, k: nat)
    requires Sound(s) && FilesSpelt(s) && id in s.log.serials && k < |s.log.serials[id]|
    ensures s.log.serials[id][k] < |s.log.written|
  {
    assert Stands(s.w, s.log, id);
  }

  lemma GrowthKeepsBooks(s: Sys, id: FileId, bytes: Blob)
    requires Books(s) && id in s.w.content
    ensures Books(Grown(s, id, bytes))
  {
    var t := Grown(s, id, bytes);
    forall jd | jd in t.w.content ensures Stands(t.w, t.log, jd) { GrowthSpells(s, id, bytes, jd); }
    forall jd, j | jd in s.log.serials && 0 <= j < |s.log.serials[jd]| ensures s.log.serials[jd][j] < |s.log.written| {
      SerialsAreWritten(s, jd, j);
    }
    GrowthKeepsPlaces(s.log, id, |bytes|);
    SpellsMore(s.log.written, bytes, s.log.taken, Flat(s.log.past) + s.stretch.got);
  }

  lemma CuttingKeepsBooks(s: Sys, id: FileId, keep: nat)
    requires Books(s) && id in s.w.content && keep <= |s.w.content[id]|
    ensures Books(Shortened(s, id, keep))
  {
    var t := Shortened(s, id, keep);
    forall jd | jd in t.w.content ensures Stands(t.w, t.log, jd) { assert Stands(s.w, s.log, jd); }
  }

  lemma RotatingKeepsBooks(s: Sys, id: FileId)
    requires Books(s) && id !in s.w.content
    ensures Books(Apply(s, Rotate(id)))
  {
    var t := Apply(s, Rotate(id));
    forall jd | jd in t.w.content ensures Stands(t.w, t.log, jd) {
      if jd != id { assert Stands(s.w, s.log, jd); }
    }
  }

  lemma NamingKeepsBooks(s: Sys, path: Option<FileId>)
    requires Books(s) && (path.Some? ==> path.value in s.w.content)
    ensures Books(s.(w := s.w.(path := path)))
  {
    var t := s.(w := s.w.(path := path));
    forall jd | jd in t.w.content ensures Stands(t.w, t.log, jd) { assert Stands(s.w, s.log, jd); }
  }

  lemma ApplyKeepsBooks(s: Sys, e: Event)
    requires Books(s)
    ensures Books(Apply(s, e))
  {
    match e
    case Append(id, bytes) => if id in s.w.content { GrowthKeepsBooks(s, id, bytes); }
    case Truncate(id, keep) =>
      if id in s.w.content && keep <= |s.w.content[id]| { CuttingKeepsBooks(s, id, keep); }
    case Call(luck) => CallKeepsBooks(s, luck);
    case Rotate(id) => if id !in s.w.content { RotatingKeepsBooks(s, id); }
    case Vanish => NamingKeepsBooks(s, None);
    case Restore(id) => if id in s.w.content { NamingKeepsBooks(s, Some(id)); }
  }

  lemma {:induction false} RunKeepsBooks(s: Sys, events: seq<Event>)
    requires Begins(s)
    ensures Books(Run(s, events))
  {
    if events == [] {
      assert Flat(s.log.past) + s.stretch.got == [];
    } else {
      RunKeepsBooks(s, Init(events));
      ApplyKeepsBooks(Run(s, Init(events)), Last(events));
    }
  }

  /**
   In every run, whatever the writer and the system calls do: the lines returned are those of the
   stretches left behind and of the present one, stretch by stretch; the present one's lines, each
   followed by a newline, and the partial line are exactly its bytes; and all bytes taken are bytes that
   were written, one written byte for each. A stretch is one range of the file, disjoint from the
   ranges taken before since the file was taken up; bytes taken and bytes reported as skipped
   add up to the distance travelled, and if none were skipped nothing since then is missing.
   */
  lemma {:induction false} EveryRunAccounts(s: Sys, events: seq<Event>)
    requires Begins(s)
    ensures var t := Run(s, events);
      && Accounts(t.stretch, t.pos)
      && t.log.out == LinesOf(t.log.past) + Complete(t.stretch.got)
      && Glue(Complete(t.stretch.got)) + t.pos.partial == t.stretch.got
      && Spells(t.log.written, t.log.taken, Flat(t.log.past) + t.stretch.got)
  {
    RunKeepsBooks(s, events);
    GlueInvertsSplit(Run(s, events).stretch.got);
  }

  // ----- the passes of a run -----

  /** The passes made in a run, each with the files as it found them. */
  ghost function Passes(s: Sys, events: seq<Event>): seq<Visit>
    requires Sound(s)
  {
    if events == [] then []
    else
      Passes(s, Init(events))
      + if Last(events).Call? then [Visit(Run(s, Init(events)).w, Last(events).luck)] else []
  }

  lemma OneMorePass(visits: seq<Visit>, v: Visit)
    requires GoodVisits(visits) && GoodWorld(v.w)
    ensures GoodVisits(visits + [v])
    ensures After(visits + [v]) == Reading(After(visits), v.w, v.luck).pos
    ensures Returned(visits + [v]) == Returned(visits) + Reading(After(visits), v.w, v.luck).lines
  {
    Snoc(visits, v);
  }

  lemma OnlyCallsMove(s: Sys, e: Event)
    requires Sound(s) && !e.Call?
    ensures Apply(s, e).pos == s.pos && Apply(s, e).log.out == s.log.out
  {
  }

  /** The lines in the ledger are those a tailer that makes these passes has returned. */
  lemma {:induction false} PassesReturnTheOutput(s: Sys, events: seq<Event>)
    requires Begins(s)
    ensures GoodVisits(Passes(s, events))
    ensures Run(s, events).pos == After(Passes(s, events)) && Run(s, events).log.out == Returned(Passes(s, events))
  {
    if events != [] {
      PassesReturnTheOutput(s, Init(events));
      var before, passes := Run(s, Init(events)), Passes(s, Init(events));
      if Last(events).Call? {
        OneMorePass(passes, Visit(before.w, Last(events).luck));
      } else {
        OnlyCallsMove(before, Last(events));
        assert passes + [] == passes;
      }
    }
  }
}
