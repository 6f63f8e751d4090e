/**
 What a reader of the log may rely on: which bytes come back once, which twice, which never, and
 that it does not matter how the reads were placed.
 */
module TailDelivery {

  import opened Wrappers
  import opened Bytes
  import opened Sequences
  import opened Lines
  import opened Tail
  import opened TailRuns

  // ----- the lines are those of the file -----

  // A cut the size gives away: the file is shorter than the position.
  ghost predicate CutShows(s: Sys) {
    s.cut && s.pos.identity.Some? && s.pos.identity.value in s.w.content ==>
      |s.w.content[s.pos.identity.value]| < s.pos.offset
  }

  ghost predicate EveryCutShows(s: Sys, events: seq<Event>)
    requires Sound(s)
  {
    forall i :: 0 <= i < |events| && events[i].Call? ==> CutShows(Run(s, events[..i]))
  }

  ghost predicate Faithful(s: Sys) {
    && (s.pos.identity.Some? ==> s.pos.identity.value in s.w.content)
    && (s.pos.identity.Some? && !s.cut ==> Kept(s.stretch, s.w.content[s.pos.identity.value]))
  }

  // Opening begins a stretch anew exactly when it turns to another file, and such a stretch is true.
  lemma OpeningKeeps(s: Sys, luck: Luck, q: Position, s0: Stretch)
    requires GoodWorld(s.w) && Accounts(s.stretch, s.pos) && Faithful(s) && CutShows(s)
    requires q == EnsuredOpen(s.pos, s.w, luck).0
    requires s0 == if q.identity != s.pos.identity then Fresh(q.offset) else s.stretch
    ensures Accounts(s0, q)
    ensures q.identity.Some? ==> q.identity.value in s.w.content
    ensures q.file.Some? ==> q.identity == s.w.path
    ensures q.identity.Some? ==>
      var content := s.w.content[q.identity.value];
      Kept(s0, content) || (s.cut && q.identity == s.pos.identity && |content| < q.offset)
  {
  }

  lemma CallKeepsFaithful(s: Sys, luck: Luck)
    requires GoodWorld(s.w) && Accounts(s.stretch, s.pos) && Faithful(s) && CutShows(s)
    ensures Faithful(Called(s, luck))
  {
    var (q, failed) := EnsuredOpen(s.pos, s.w, luck);
    var s0 := if q.identity != s.pos.identity then Fresh(q.offset) else s.stretch;
    OpeningKeeps(s, luck, q, s0);
    if !failed && q.file.Some? && luck.fstat {
      LookIsFaithful(s0, q, s.w.content[s.w.path.value], luck);
      assert ReadingOpen(q, s.w.content[s.w.path.value], luck).pos.identity == q.identity;
    }
  }

  lemma KeptInPart(st: Stretch, before: Blob, after: Blob)
    requires Kept(st, before) && st.start + |st.got| <= |after|
    requires before <= after || after <= before
    ensures Kept(st, after)
  {
    assert after[st.start..st.start + |st.got|] == before[st.start..st.start + |st.got|];
  }

  // Only what happens to the followed file can matter.
  lemma WorldChanges(s: Sys, t: Sys)
    requires Faithful(s) && t.pos == s.pos && t.stretch == s.stretch && Accounts(s.stretch, s.pos)
    requires s.pos.identity.Some? ==> s.pos.identity.value in t.w.content
    requires s.pos.identity.Some? && !t.cut ==> !s.cut && SameStart(s, t)
    ensures Faithful(t)
  {
    if s.pos.identity.Some? && !t.cut {
      KeptInPart(s.stretch, s.w.content[s.pos.identity.value], t.w.content[s.pos.identity.value]);
    }
  }

  // Grown, or cut behind everything taken.
  ghost predicate SameStart(s: Sys, t: Sys) {
    s.pos.identity.Some? && s.pos.identity.value in s.w.content && s.pos.identity.value in t.w.content
    && var before, after := s.w.content[s.pos.identity.value], t.w.content[s.pos.identity.value];
    before <= after || (after <= before && s.pos.offset <= |after|)
  }

  lemma ApplyKeepsFaithful(s: Sys, e: Event)
    requires Books(s) && Faithful(s)
    requires e.Call? ==> CutShows(s)
    ensures Faithful(Apply(s, e))
  {
    if e.Call? { CallKeepsFaithful(s, e.luck); } else { WorldChanges(s, Apply(s, e)); }
  }

  lemma {:induction false} StaysFaithful(s: Sys, events: seq<Event>)
    requires Begins(s) && EveryCutShows(s, events)
    ensures Faithful(Run(s, events))
  {
    if events != [] {
      var front := Init(events);
      forall i | 0 <= i < |front| && front[i].Call? ensures CutShows(Run(s, front[..i])) {
        assert front[..i] == events[..i];
      }
      StaysFaithful(s, front);
      RunKeepsBooks(s, front);
      assert events[..|events| - 1] == front;
      ApplyKeepsFaithful(Run(s, front), Last(events));
    }
  }

  // The followed file holds `content`, and nothing taken from it was cut off unseen.
  ghost predicate Follows(s: Sys, content: Blob) {
    && s.pos.identity.Some? && s.pos.identity.value in s.w.content
    && s.w.content[s.pos.identity.value] == content && !s.cut
  }

  lemma FaithfulSays(t: Sys, content: Blob)
    requires Books(t) && Kept(t.stretch, content)
    ensures t.stretch.start <= t.pos.offset <= |content|
    ensures t.log.out == LinesOf(t.log.past) + Complete(content[t.stretch.start..t.pos.offset])
    ensures t.pos.partial == Remainder(content[t.stretch.start..t.pos.offset])
  {
  }

  /**
   If every cut shows in the size, the run has returned, after the lines of the stretches left behind,
   exactly the finished lines that stand in the followed file from the start of the stretch to the
   position, and holds back exactly the unfinished one.
   */
  lemma {:induction false} EveryRunIsFaithful(s: Sys, events: seq<Event>, content: Blob)
    requires Begins(s) && EveryCutShows(s, events) && Follows(Run(s, events), content)
    ensures var t := Run(s, events);
      && t.stretch.start <= t.pos.offset <= |content|
      && t.log.out == LinesOf(t.log.past) + Complete(content[t.stretch.start..t.pos.offset])
      && t.pos.partial == Remainder(content[t.stretch.start..t.pos.offset])
  {
    RunKeepsBooks(s, events);
    StaysFaithful(s, events);
    FaithfulSays(Run(s, events), content);
  }

  /**
   What is returned depends on the files alone, not on how the reads were placed and cut or which calls
   failed: two runs that left the same stretches behind and follow files of the same content from the
   same start to the same position have returned the same lines and hold back the same partial line.
   */
  lemma {:induction false} CutsDoNotMatter(s: Sys, t: Sys, es: seq<Event>, fs: seq<Event>, u: Sys, v: Sys,
                                           content: Blob)
    requires Begins(s) && EveryCutShows(s, es) && u == Run(s, es)
    requires Begins(t) && EveryCutShows(t, fs) && v == Run(t, fs)
    requires Follows(u, content) && Follows(v, content)
    requires u.log.past == v.log.past && u.stretch.start == v.stretch.start && u.pos.offset == v.pos.offset
    ensures u.log.out == v.log.out && u.pos.partial == v.pos.partial
  {
    EveryRunIsFaithful(s, es, content);
    EveryRunIsFaithful(t, fs, content);
  }

  // ----- what comes back twice -----

  ghost predicate Once(taken: seq<nat>) {
    forall i, j :: 0 <= i < j < |taken| ==> taken[i] != taken[j]
  }

  ghost predicate NotAmong(s: Sys, id: FileId, from: nat, taken: seq<nat>)
    requires id in s.log.serials
  {
    forall k :: from <= k < |s.log.serials[id]| ==> s.log.serials[id][k] !in taken
  }

  ghost predicate Untaken(s: Sys, id: FileId, from: nat)
    requires id in s.log.serials
  {
    NotAmong(s, id, from, s.log.taken)
  }

  // Nothing ahead of the position is among what was taken lately.
  ghost predicate Ahead(s: Sys, lately: seq<nat>)
    requires Sound(s)
  {
    s.pos.identity.Some? && s.pos.identity.value in s.log.serials ==>
      NotAmong(s, s.pos.identity.value, s.pos.offset, lately)
  }

  /** If the pass starts a file from its beginning, nothing from where it reads was taken before. */
  ghost predicate Clean(s: Sys, luck: Luck)
    requires Sound(s)
  {
    Resets(s.pos, s.w, luck) && s.w.path.Some? ==> Untaken(s, s.w.path.value, GivenFrom(s.pos, s.w, luck))
  }

  ghost predicate EveryStartClean(s: Sys, events: seq<Event>)
    requires Sound(s)
  {
    events != [] ==>
      && EveryStartClean(s, Init(events))
      && (Last(events).Call? ==> Clean(Run(s, Init(events)), Last(events).luck))
  }

  ghost predicate Fit(s: Sys) {
    Books(s) && Once(s.log.taken) && Ahead(s, s.log.taken)
  }

  lemma SliceOnce(taken: seq<nat>, xs: seq<nat>, from: nat, n: nat)
    requires Once(taken) && Once(xs)
    requires forall k :: from <= k < |xs| ==> xs[k] !in taken
    ensures Once(taken + Between(xs, from, n))
    ensures from + n <= |xs| ==> forall k :: from + n <= k < |xs| ==> xs[k] !in taken + Between(xs, from, n)
  {
  }

  lemma FileOnce(log: Ledger, id: FileId)
    requires OnePlace(log) && id in log.serials
    ensures Once(log.serials[id])
  {
  }

  /** What a pass takes is taken once as far as those bytes go that it cannot meet again. */
  lemma CallTakesOnce(s: Sys, luck: Luck, lately: seq<nat>)
    requires Books(s) && Once(lately)
    requires if Resets(s.pos, s.w, luck)
             then s.w.path.Some? ==> NotAmong(s, s.w.path.value, GivenFrom(s.pos, s.w, luck), lately)
             else Ahead(s, lately)
    ensures Once(lately + TakenBy(s.log, s.pos, s.w, luck))
    ensures Ahead(Called(s, luck), lately + TakenBy(s.log, s.pos, s.w, luck))
  {
    var t := Called(s, luck);
    var from, n := GivenFrom(s.pos, s.w, luck), |Given(s.pos, s.w, luck)|;
    PassMoves(s.pos, s.w, luck);
    if t.pos.identity.Some? && t.pos.identity == s.w.path {
      var xs := s.log.serials[s.w.path.value];
      FileOnce(s.log, s.w.path.value);
      if n > 0 { GivenStands(s.pos, s.w, luck); }
      assert forall k :: from <= k < |xs| ==> xs[k] !in lately;
      SliceOnce(lately, xs, from, n);
    } else {
      assert TakenBy(s.log, s.pos, s.w, luck) == [];
      assert lately + [] == lately;
    }
  }

  // All of these were written.
  ghost predicate WereWritten(s: Sys, lately: seq<nat>) {
    forall k :: 0 <= k < |lately| ==> lately[k] < |s.log.written|
  }

  lemma GrowthKeepsAhead(s: Sys, id: FileId, bytes: Blob, lately: seq<nat>)
    requires Sound(s) && Ahead(s, lately) && WereWritten(s, lately) && id in s.w.content
    ensures Ahead(Grown(s, id, bytes), lately)
  {
    var t := Grown(s, id, bytes);
    if s.pos.identity == Some(id) {
      forall k | s.pos.offset <= k < |t.log.serials[id]| ensures t.log.serials[id][k] !in lately {
        if k < |s.log.serials[id]| { assert t.log.serials[id][k] == s.log.serials[id][k]; }
      }
    }
  }

  lemma CuttingKeepsAhead(s: Sys, id: FileId, keep: nat, lately: seq<nat>)
    requires Sound(s) && Ahead(s, lately) && id in s.w.content && keep <= |s.w.content[id]|
    ensures Ahead(Shortened(s, id, keep), lately)
  {
    var t := Shortened(s, id, keep);
    if s.pos.identity == Some(id) {
      assert forall k :: 0 <= k < keep ==> t.log.serials[id][k] == s.log.serials[id][k];
    }
  }

  lemma WritingKeepsAhead(s: Sys, e: Event, lately: seq<nat>)
    requires Books(s) && Ahead(s, lately) && WereWritten(s, lately) && !e.Call?
    ensures Ahead(Apply(s, e), lately) && Apply(s, e).log.taken == s.log.taken
  {
    match e
    case Append(id, bytes) => if id in s.w.content { GrowthKeepsAhead(s, id, bytes, lately); }
    case Truncate(id, keep) =>
      if id in s.w.content && keep <= |s.w.content[id]| { CuttingKeepsAhead(s, id, keep, lately); }
    case Call(_) =>
    case _ => MovingKeepsAhead(s, e, lately);
  }

  lemma MovingKeepsAhead(s: Sys, e: Event, lately: seq<nat>)
    requires Sound(s) && Ahead(s, lately) && (e.Rotate? || e.Vanish? || e.Restore?)
    ensures Ahead(Apply(s, e), lately)
  {
    if s.pos.identity.Some? && s.pos.identity.value in s.log.serials {
      assert Apply(s, e).log.serials[s.pos.identity.value] == s.log.serials[s.pos.identity.value];
    }
  }

  lemma ApplyKeepsFit(s: Sys, e: Event)
    requires Fit(s) && (e.Call? ==> Clean(s, e.luck))
    ensures Fit(Apply(s, e))
  {
    ApplyKeepsBooks(s, e);
    if e.Call? { CallTakesOnce(s, e.luck, s.log.taken); } else { WritingKeepsAhead(s, e, s.log.taken); }
  }

  lemma {:induction false} RunIsFit(s: Sys, events: seq<Event>)
    requires Begins(s) && EveryStartClean(s, events)
    ensures Fit(Run(s, events))
  {
    if events == [] {
      RunKeepsBooks(s, events);
    } else {
      RunIsFit(s, Init(events));
      ApplyKeepsFit(Run(s, Init(events)), Last(events));
    }
  }

  // ----- the bytes of the lines returned -----

  /** Of the serials taken, stretch by stretch, those whose bytes went into finished lines. */
  function LineSerials(parts: seq<Blob>, taken: seq<nat>): (serials: seq<nat>)
    requires |taken| == |Flat(parts)|
    ensures forall x :: x in serials ==> x in taken
  {
    if parts == [] then []
    else
      var before := |Flat(Init(parts))|;
      GlueInvertsSplit(Last(parts));
      LineSerials(Init(parts), taken[..before]) + taken[before..before + |Glue(Complete(Last(parts)))|]
  }

  lemma PartsOnce(taken: seq<nat>, xs: seq<nat>, i: nat, j: nat)
    requires Once(taken) && i <= j <= |taken| && Once(xs) && forall x :: x in xs ==> x in taken[..i]
    ensures Once(xs + taken[i..j])
  {
    forall a, b | 0 <= a < |xs| && i <= b < j ensures xs[a] != taken[b] {
      assert xs[a] in taken[..i];
    }
  }

  lemma SpellsPart(written: Blob, serials: seq<nat>, bytes: Blob, i: nat, j: nat)
    requires Spells(written, serials, bytes) && i <= j <= |bytes|
    ensures Spells(written, serials[i..j], bytes[i..j])
  {
  }

  lemma LastPartSpells(written: Blob, taken: seq<nat>, front: Blob, last: Blob)
    requires Spells(written, taken, front + last)
    ensures var n := |Glue(Complete(last))|;
      && |front| + n <= |taken| && Spells(written, taken[..|front|], front)
      && Spells(written, taken[|front|..|front| + n], Glue(Complete(last)))
  {
    var end := |front| + |Glue(Complete(last))|;
    GlueInvertsSplit(last);
    SpellsPart(written, taken, front + last, 0, |front|);
    SpellsPart(written, taken, front + last, |front|, end);
    assert (front + last)[0..|front|] == front && (front + last)[|front|..end] == Glue(Complete(last));
    assert taken[0..|front|] == taken[..|front|];
  }

  lemma LastLinesSpell(written: Blob, parts: seq<Blob>, serials: seq<nat>, last: seq<nat>)
    requires parts != [] && Spells(written, serials, Glue(LinesOf(Init(parts))))
    requires Spells(written, last, Glue(Complete(Last(parts))))
    ensures Spells(written, serials + last, Glue(LinesOf(parts)))
  {
    GlueConcat(LinesOf(Init(parts)), Complete(Last(parts)));
    SpellsConcat(written, serials, Glue(LinesOf(Init(parts))), last, Glue(Complete(Last(parts))));
  }

  lemma {:induction false} LinesSpell(written: Blob, parts: seq<Blob>, taken: seq<nat>)
    requires Spells(written, taken, Flat(parts))
    ensures Spells(written, LineSerials(parts, taken), Glue(LinesOf(parts)))
  {
    if parts != [] {
      var front, last := Flat(Init(parts)), Last(parts);
      LastPartSpells(written, taken, front, last);
      LinesSpell(written, Init(parts), taken[..|front|]);
      LastLinesSpell(written, parts, LineSerials(Init(parts), taken[..|front|]),
                     taken[|front|..|front| + |Glue(Complete(last))|]);
    }
  }

  lemma {:induction false} LinesOnce(parts: seq<Blob>, taken: seq<nat>)
    requires |taken| == |Flat(parts)| && Once(taken)
    ensures Once(LineSerials(parts, taken))
  {
    if parts != [] {
      var before := |Flat(Init(parts))|;
      GlueInvertsSplit(Last(parts));
      LinesOnce(Init(parts), taken[..before]);
      PartsOnce(taken, LineSerials(Init(parts), taken[..before]), before, before + |Glue(Complete(Last(parts)))|);
    }
  }

  lemma BooksOfLines(s: Sys)
    requires Books(s)
    ensures var parts := s.log.past + [s.stretch.got];
      && Flat(parts) == Flat(s.log.past) + s.stretch.got && |s.log.taken| == |Flat(parts)|
      && s.log.out == LinesOf(parts)
  {
    FlatSnoc(s.log.past, s.stretch.got);
    LinesOfSnoc(s.log.past, s.stretch.got);
  }

  /** The serials behind everything the run returned. */
  ghost function ReturnedSerials(s: Sys): seq<nat>
    requires |s.log.taken| == |Flat(s.log.past + [s.stretch.got])|
  {
    LineSerials(s.log.past + [s.stretch.got], s.log.taken)
  }

  // Every call of the pass turns out well, and the read asks for enough.
  ghost predicate ReadsOn(p: Position, w: World, luck: Luck)
    requires GoodWorld(w)
  {
    && w.path.Some? && luck.stat.Found? && luck.open.Opened? && luck.fstat && luck.seek && luck.read.Some?
    && luck.read.value >= |w.content[w.path.value]|
  }

  // The part of a file that one pass over all of it takes: the last `MAX_BYTES_PER_READ` bytes.
  function Within(size: nat): nat {
    if size > MAX_BYTES_PER_READ then size - MAX_BYTES_PER_READ else 0
  }

  lemma WholeIsGiven(p: Position, w: World, luck: Luck)
    requires GoodWorld(w) && ReadsOn(p, w, luck) && Resets(p, w, luck) && p.everOpened
    requires (p.file.Some? ==> p.file == p.identity) && (p.everOpened <==> p.identity.Some?)
    ensures var size := |w.content[w.path.value]|;
      GivenFrom(p, w, luck) == Within(size) && |Given(p, w, luck)| == size - Within(size)
  {
  }

  lemma WholeIsTaken(s: Sys, luck: Luck)
    requires Books(s) && s.pos.everOpened && Resets(s.pos, s.w, luck) && ReadsOn(s.pos, s.w, luck)
    ensures s.w.path.value in s.log.serials
    ensures var xs := s.log.serials[s.w.path.value];
      |xs| == |s.w.content[s.w.path.value]| && TakenBy(s.log, s.pos, s.w, luck) == xs[Within(|xs|)..]
  {
    var xs := s.log.serials[s.w.path.value];
    WholeIsGiven(s.pos, s.w, luck);
    assert Between(xs, Within(|xs|), |xs| - Within(|xs|)) == xs[Within(|xs|)..];
  }

  lemma SliceDoubles(taken: seq<nat>, xs: seq<nat>, from: nat)
    requires Once(taken) && Once(xs) && from <= |xs|
    ensures Once(taken + xs[from..]) <==> forall k :: from <= k < |xs| ==> xs[k] !in taken
  {
    if k :| from <= k < |xs| && xs[k] in taken {
      var i :| 0 <= i < |taken| && taken[i] == xs[k];
      assert (taken + xs[from..])[|taken| + k - from] == (taken + xs[from..])[i];
    }
  }

  /**
   A pass that starts a file from its beginning and reads all it may takes some byte twice if and only
   if, of the last `MAX_BYTES_PER_READ` bytes that stand in the file, one was taken before: a log
   renamed back, or one cut short but not emptied.
   */
  lemma {:induction false} StartDoublesExactlyWhen(s: Sys, luck: Luck)
    requires Fit(s) && s.pos.everOpened && Resets(s.pos, s.w, luck) && ReadsOn(s.pos, s.w, luck)
    ensures Once(Called(s, luck).log.taken) <==> Untaken(s, s.w.path.value, Within(|s.w.content[s.w.path.value]|))
  {
    var xs := s.log.serials[s.w.path.value];
    WholeIsTaken(s, luck);
    FileOnce(s.log, s.w.path.value);
    SliceDoubles(s.log.taken, xs, Within(|xs|));
  }

  // How much had been taken when the followed file was last started from its beginning, given that number before.
  ghost function StartOf(s: Sys, e: Event, start: nat): nat
    requires Sound(s)
  {
    if e.Call? && Resets(s.pos, s.w, e.luck) then |s.log.taken| else start
  }

  ghost function LastStart(s: Sys, events: seq<Event>): nat
    requires Sound(s)
  {
    if events == [] then 0 else StartOf(Run(s, Init(events)), Last(events), LastStart(s, Init(events)))
  }

  // Does the pass take nothing that had been taken when the file it reads was started from its beginning?
  ghost predicate TakesNew(s: Sys, e: Event, start: nat)
    requires Sound(s)
  {
    e.Call? && start <= |s.log.taken| ==>
      forall x :: x in TakenBy(s.log, s.pos, s.w, e.luck) ==> x !in s.log.taken[..start]
  }

  ghost predicate EveryPassTakesNew(s: Sys, events: seq<Event>)
    requires Sound(s)
  {
    events != [] ==>
      && EveryPassTakesNew(s, Init(events))
      && TakesNew(Run(s, Init(events)), Last(events), LastStart(s, events))
  }

  // Whatever was taken since the last start is never met again.
  ghost predicate Since(s: Sys, start: nat)
    requires Sound(s)
  {
    start <= |s.log.taken| && Once(s.log.taken[start..]) && Ahead(s, s.log.taken[start..])
  }

  lemma OnceApart(earlier: seq<nat>, start: nat, more: seq<nat>)
    requires start <= |earlier| && Once(earlier + more)
    ensures Once(earlier) && forall x :: x in more ==> x !in earlier[..start]
  {
    var all := earlier + more;
    assert forall k :: 0 <= k < |earlier| ==> all[k] == earlier[k];
    forall x | x in more ensures x !in earlier[..start] {
      var j :| 0 <= j < |more| && more[j] == x;
      assert all[|earlier| + j] == x;
    }
  }

  lemma OnceJoined(earlier: seq<nat>, start: nat, more: seq<nat>)
    requires start <= |earlier| && Once(earlier[start..] + more)
    requires Once(earlier) && forall x :: x in more ==> x !in earlier[..start]
    ensures Once(earlier + more)
  {
    var all, late := earlier + more, earlier[start..] + more;
    forall i, j | 0 <= i < j < |all| ensures all[i] != all[j] {
      if start <= i {
        assert late[i - start] == all[i] && late[j - start] == all[j];
      } else if j >= |earlier| {
        assert all[i] in earlier[..start] && all[j] in more;
      }
    }
  }

  lemma OnceTogether(earlier: seq<nat>, start: nat, more: seq<nat>)
    requires start <= |earlier| && Once(earlier[start..] + more)
    ensures Once(earlier + more) <==> Once(earlier) && forall x :: x in more ==> x !in earlier[..start]
  {
    if Once(earlier + more) { OnceApart(earlier, start, more); }
    if Once(earlier) && forall x :: x in more ==> x !in earlier[..start] { OnceJoined(earlier, start, more); }
  }

  lemma MoreSince(s: Sys, t: Sys, from: nat, more: seq<nat>)
    requires Sound(t) && t.log.taken == s.log.taken + more && from <= |s.log.taken|
    requires Once(s.log.taken[from..] + more) && Ahead(t, s.log.taken[from..] + more)
    ensures Since(t, from)
  {
    assert t.log.taken[from..] == s.log.taken[from..] + more;
  }

  lemma CallSince(s: Sys, luck: Luck, start: nat, from: nat)
    requires Books(s) && Since(s, start) && from == StartOf(s, Call(luck), start)
    ensures Since(Called(s, luck), from) && Once(s.log.taken[from..] + TakenBy(s.log, s.pos, s.w, luck))
  {
    CallTakesOnce(s, luck, s.log.taken[from..]);
    MoreSince(s, Called(s, luck), from, TakenBy(s.log, s.pos, s.w, luck));
  }

  lemma WritingSince(s: Sys, e: Event, start: nat)
    requires Books(s) && Since(s, start) && !e.Call?
    ensures Since(Apply(s, e), start) && Apply(s, e).log.taken == s.log.taken
  {
    assert forall k :: 0 <= k < |s.log.taken| ==> s.log.taken[k] < |s.log.written|;
    WritingKeepsAhead(s, e, s.log.taken[start..]);
  }

  lemma ApplySince(s: Sys, e: Event, start: nat)
    requires Books(s) && Since(s, start)
    ensures Since(Apply(s, e), StartOf(s, e, start))
    ensures Once(Apply(s, e).log.taken) <==> Once(s.log.taken) && TakesNew(s, e, StartOf(s, e, start))
  {
    if e.Call? {
      var from := StartOf(s, e, start);
      CallSince(s, e.luck, start, from);
      OnceTogether(s.log.taken, from, TakenBy(s.log, s.pos, s.w, e.luck));
    } else {
      WritingSince(s, e, start);
    }
  }

  lemma {:induction false} RunSince(s: Sys, events: seq<Event>)
    requires Begins(s)
    ensures Since(Run(s, events), LastStart(s, events))
    ensures Once(Run(s, events).log.taken) <==> EveryPassTakesNew(s, events)
  {
    if events != [] {
      RunSince(s, Init(events));
      RunKeepsBooks(s, Init(events));
      ApplySince(Run(s, Init(events)), Last(events), LastStart(s, Init(events)));
    }
  }

  /**
   In every run whatever, through any rotations, truncations, renames and failures: no byte is taken twice if and only
   if no pass takes a byte that had been taken already when the file it reads was last started from its beginning.
   */
  lemma {:induction false} OnceExactlyWhen(s: Sys, events: seq<Event>)
    requires Begins(s)
    ensures Once(Run(s, events).log.taken) <==> EveryPassTakesNew(s, events)
  {
    RunSince(s, events);
  }

  /**
   At most once, over the whole run and every file, through any rotations, truncations and renames: the
   lines returned, each with its newline, are written bytes, and none of them is used twice, provided
   no pass takes a byte that had been taken when the file it reads was last started from its beginning.
   */
  lemma {:induction false} NothingTwice(s: Sys, events: seq<Event>)
    requires Begins(s)
    ensures var t := Run(s, events);
      && |t.log.taken| == |Flat(t.log.past + [t.stretch.got])|
      && Spells(t.log.written, ReturnedSerials(t), Glue(t.log.out))
      && (EveryPassTakesNew(s, events) ==> Once(ReturnedSerials(t)))
  {
    var t := Run(s, events);
    RunKeepsBooks(s, events);
    OnceExactlyWhen(s, events);
    BooksOfLines(t);
    LinesSpell(t.log.written, t.log.past + [t.stretch.got], t.log.taken);
    if Once(t.log.taken) { LinesOnce(t.log.past + [t.stretch.got], t.log.taken); }
  }

  // A pass that starts a file from its beginning gets through to it.
  ghost predicate StartReads(s: Sys, luck: Luck)
    requires Sound(s)
  {
    Resets(s.pos, s.w, luck) ==> ReadsOn(s.pos, s.w, luck)
  }

  ghost predicate EveryStartReads(s: Sys, events: seq<Event>)
    requires Sound(s)
  {
    events != [] ==>
      && EveryStartReads(s, Init(events))
      && (Last(events).Call? ==> StartReads(Run(s, Init(events)), Last(events).luck))
  }

  lemma UncleanDoubles(s: Sys, luck: Luck)
    requires Fit(s) && StartReads(s, luck) && !Clean(s, luck)
    ensures !Once(Called(s, luck).log.taken)
  {
    assert s.pos.everOpened;
    WholeIsGiven(s.pos, s.w, luck);
    StartDoublesExactlyWhen(s, luck);
  }

  lemma TakenGrows(s: Sys, e: Event)
    requires Sound(s) && !Once(s.log.taken)
    ensures !Once(Apply(s, e).log.taken)
  {
    var i, j :| 0 <= i < j < |s.log.taken| && s.log.taken[i] == s.log.taken[j];
    assert s.log.taken <= Apply(s, e).log.taken;
    assert Apply(s, e).log.taken[i] == Apply(s, e).log.taken[j];
  }

  lemma Spoilt(s: Sys, e: Event)
    requires Sound(s)
    requires Once(s.log.taken) ==> Fit(s) && e.Call? && StartReads(s, e.luck) && !Clean(s, e.luck)
    ensures !Once(Apply(s, e).log.taken)
  {
    if Once(s.log.taken) { UncleanDoubles(s, e.luck); } else { TakenGrows(s, e); }
  }

  lemma {:induction false} UncleanRunDoubles(s: Sys, events: seq<Event>, front: Sys)
    requires Begins(s) && EveryStartReads(s, events) && !EveryStartClean(s, events)
    requires events != [] && front == Run(s, Init(events))
    ensures !Once(Run(s, events).log.taken)
    decreases |events|
  {
    if EveryStartClean(s, Init(events)) {
      RunIsFit(s, Init(events));
    } else {
      UncleanRunDoubles(s, Init(events), Run(s, Init(Init(events))));
    }
    Spoilt(front, Last(events));
  }

  /**
   And when passes that start a file from its beginning get through to it, that can be told each time from what
   stands in the file before the pass: no byte is taken twice if and only if none was taken from where it reads.
   */
  lemma {:induction false} StartsDecide(s: Sys, events: seq<Event>)
    requires Begins(s) && EveryStartReads(s, events)
    ensures Once(Run(s, events).log.taken) <==> EveryStartClean(s, events)
  {
    if EveryStartClean(s, events) {
      RunIsFit(s, events);
    } else {
      UncleanRunDoubles(s, events, Run(s, Init(events)));
    }
  }

  // ----- what never comes back -----

  ghost predicate StaysAway(s: Sys, events: seq<Event>, id: FileId)
    requires Sound(s)
  {
    forall i :: 0 <= i < |events| && events[i].Call? ==> Run(s, events[..i]).w.path != Some(id)
  }

  // This byte stands in this file or nowhere, and was not taken.
  ghost predicate Unread(s: Sys, id: FileId, x: nat) {
    && x < |s.log.written| && x !in s.log.taken
    && forall jd, k :: jd in s.log.serials && 0 <= k < |s.log.serials[jd]| && s.log.serials[jd][k] == x ==> jd == id
  }

  lemma ApplyKeepsUnread(s: Sys, e: Event, id: FileId, x: nat)
    requires Sound(s) && Unread(s, id, x) && (e.Call? ==> s.w.path != Some(id))
    ensures Unread(Apply(s, e), id, x)
  {
  }

  /** A byte left unread in a file is not taken by any run in which the path does not name that file again. */
  lemma {:induction false} UnreadStaysUnread(s: Sys, events: seq<Event>, id: FileId, x: nat)
    requires Sound(s) && Unread(s, id, x) && StaysAway(s, events, id)
    ensures Unread(Run(s, events), id, x)
  {
    if events != [] {
      var front := Init(events);
      forall i | 0 <= i < |front| && front[i].Call? ensures Run(s, front[..i]).w.path != Some(id) {
        assert front[..i] == events[..i] && events[i].Call?;
      }
      UnreadStaysUnread(s, front, id, x);
      assert events[..|events| - 1] == front;
      ApplyKeepsUnread(Run(s, front), Last(events), id, x);
    }
  }

  lemma StandsUnread(s: Sys, id: FileId, k: nat)
    requires Books(s) && id in s.log.serials && k < |s.log.serials[id]| && s.log.serials[id][k] !in s.log.taken
    ensures Unread(s, id, s.log.serials[id][k])
  {
    SerialsAreWritten(s, id, k);
  }

  /** What was written to a file and not read is lost for good, unless the path names the file again. */
  lemma {:induction false} LeftBehindForGood(s: Sys, events: seq<Event>, id: FileId, k: nat)
    requires Books(s) && id in s.log.serials && k < |s.log.serials[id]| && s.log.serials[id][k] !in s.log.taken
    requires StaysAway(s, events, id)
    ensures s.log.serials[id][k] !in Run(s, events).log.taken
  {
    StandsUnread(s, id, k);
    UnreadStaysUnread(s, events, id, s.log.serials[id][k]);
  }

  lemma InSlice(xs: seq<nat>, from: nat, k: nat)
    requires Once(xs) && k < |xs| && from <= |xs|
    ensures xs[k] in xs[from..] <==> from <= k
  {
    if from <= k { assert xs[from..][k - from] == xs[k]; }
  }

  lemma NamedAgainIsRead(s: Sys, luck: Luck, k: nat)
    requires Books(s) && s.pos.everOpened && Resets(s.pos, s.w, luck) && ReadsOn(s.pos, s.w, luck)
    requires k < |s.log.serials[s.w.path.value]| && s.log.serials[s.w.path.value][k] !in s.log.taken
    ensures s.log.serials[s.w.path.value][k] in Called(s, luck).log.taken <==>
              Within(|s.log.serials[s.w.path.value]|) <= k
  {
    var xs := s.log.serials[s.w.path.value];
    WholeIsTaken(s, luck);
    FileOnce(s.log, s.w.path.value);
    InSlice(xs, Within(|xs|), k);
  }

  lemma TurningResets(s: Sys, luck: Luck)
    requires Books(s) && s.w.path.Some? && s.pos.identity != s.w.path && luck.stat.Found? && luck.open.Opened?
    ensures Resets(s.pos, s.w, luck)
  {
  }

  /**
   A byte left unread in a file that was left is taken by the next pass that reads all it may if and only if
   the path names that file again, and the byte is among its last `MAX_BYTES_PER_READ`.
   */
  lemma LeftUnreadExactlyUntil(s: Sys, luck: Luck, id: FileId, k: nat)
    requires Books(s) && id in s.log.serials && k < |s.log.serials[id]| && s.log.serials[id][k] !in s.log.taken
    requires s.pos.everOpened && s.pos.identity != Some(id) && ReadsOn(s.pos, s.w, luck)
    ensures s.log.serials[id][k] in Called(s, luck).log.taken <==>
              s.w.path == Some(id) && Within(|s.log.serials[id]|) <= k
  {
    if s.w.path == Some(id) {
      TurningResets(s, luck);
      NamedAgainIsRead(s, luck, k);
    } else {
      StandsUnread(s, id, k);
      ApplyKeepsUnread(s, Call(luck), id, s.log.serials[id][k]);
    }
  }

  lemma LinesCoverExactly(got: Blob, start: nat, content: Blob)
    requires start + |got| <= |content| && content[start..start + |got|] == got
    ensures Glue(Complete(got)) == content[start..] <==> Remainder(got) == [] && start + |got| == |content|
  {
    GlueInvertsSplit(got);
    if Remainder(got) == [] && start + |got| == |content| {
      assert Glue(Complete(got)) + [] == Glue(Complete(got));
    } else {
      assert |Glue(Complete(got))| + |Remainder(got)| == |got|;
    }
  }

  lemma TurnsAway(s: Sys, luck: Luck)
    requires Books(s) && s.pos.identity.Some? && s.w.path.Some? && s.w.path != s.pos.identity
    requires luck.stat.Found? && luck.open.Opened?
    ensures EnsuredOpen(s.pos, s.w, luck) == (Position(s.w.path, s.w.path, 0, [], true), false)
    ensures Ends(s.pos, s.w, luck)
  {
  }

  lemma RotationSays(s: Sys, left: Blob)
    requires Books(s) && Kept(s.stretch, left)
    ensures s.stretch.start <= |left|
    ensures Glue(Complete(s.stretch.got)) == left[s.stretch.start..] <==> s.pos.partial == [] && s.pos.offset == |left|
  {
    LinesCoverExactly(s.stretch.got, s.stretch.start, left);
  }

  /**
   The pass that notices a rotation goes on exactly as if the old file had never been, and leaves the
   stretch behind as it is: all of that file from where the stretch began was returned in lines if and
   only if its last line was finished and nothing in it was unread.
   */
  lemma {:induction false} RotationLosesExactly(begin: Sys, events: seq<Event>, s: Sys, left: Blob, luck: Luck)
    requires Begins(begin) && EveryCutShows(begin, events) && s == Run(begin, events) && Follows(s, left)
    requires s.w.path.Some? && s.w.path != s.pos.identity && luck.stat.Found? && luck.open.Opened?
    ensures Reading(s.pos, s.w, luck)
         == ReadingOpen(Position(s.w.path, s.w.path, 0, [], true), s.w.content[s.w.path.value], luck)
    ensures Called(s, luck).log.past == s.log.past + [s.stretch.got] && s.stretch.start <= |left|
    ensures Glue(Complete(s.stretch.got)) == left[s.stretch.start..] <==> s.pos.partial == [] && s.pos.offset == |left|
  {
    RunKeepsBooks(begin, events);
    StaysFaithful(begin, events);
    TurnsAway(s, luck);
    RotationSays(s, left);
  }
}
