/**
 What stood in the log before the tailer first opened it is history: it is never returned, unless the
 file is started again from its beginning later on.
 */
module TailHistory {

  import opened Wrappers
  import opened Bytes
  import opened Sequences
  import opened Lines
  import opened Tail
  import opened TailRuns
  import opened TailDelivery

  // These serials stand in this file or nowhere, in it not ahead of the position, and were not taken.
  ghost predicate Behind(s: Sys, id: FileId, history: seq<nat>) {
    && Books(s) && s.pos.identity.Some? && WereWritten(s, history)
    && (forall x :: x in history ==> x !in s.log.taken)
    && (forall jd, k :: jd in s.log.serials && 0 <= k < |s.log.serials[jd]| && s.log.serials[jd][k] in history ==>
          jd == id)
    && (id in s.log.serials && s.pos.identity == Some(id) ==> NotAmong(s, id, s.pos.offset, history))
  }

  // Does this event start the file from its beginning?
  ghost predicate StartsAgain(s: Sys, e: Event, id: FileId)
    requires Sound(s)
  {
    e.Call? && s.w.path == Some(id) && Resets(s.pos, s.w, e.luck)
  }

  ghost predicate NeverStartsAgain(s: Sys, events: seq<Event>, id: FileId)
    requires Sound(s)
  {
    events != [] ==>
      NeverStartsAgain(s, Init(events), id) && !StartsAgain(Run(s, Init(events)), Last(events), id)
  }

  lemma CallLeavesBehind(s: Sys, luck: Luck, id: FileId, history: seq<nat>)
    requires Behind(s, id, history) && !StartsAgain(s, Call(luck), id)
    ensures Behind(Called(s, luck), id, history)
  {
    PassMoves(s.pos, s.w, luck);
    CallKeepsBooks(s, luck);
    var t := Called(s, luck);
    forall x | x in TakenBy(s.log, s.pos, s.w, luck) ensures x !in history { TakesNoHistory(s, luck, id, history, x); }
    assert t.log.taken == s.log.taken + TakenBy(s.log, s.pos, s.w, luck);
  }

  lemma TakesNoHistory(s: Sys, luck: Luck, id: FileId, history: seq<nat>, x: nat)
    requires Behind(s, id, history) && !StartsAgain(s, Call(luck), id) && x in TakenBy(s.log, s.pos, s.w, luck)
    ensures x !in history
  {
    var xs, from := s.log.serials[s.w.path.value], GivenFrom(s.pos, s.w, luck);
    PassMoves(s.pos, s.w, luck);
    var k :| from <= k < |xs| && xs[k] == x;
    assert x in history ==> s.w.path == Some(id);
  }

  lemma WritingLeavesBehind(s: Sys, e: Event, id: FileId, history: seq<nat>)
    requires Behind(s, id, history) && !e.Call?
    ensures Behind(Apply(s, e), id, history)
  {
    ApplyKeepsBooks(s, e);
    if s.pos.identity == Some(id) { WritingKeepsAhead(s, e, history); }
  }

  lemma {:induction false} RunLeavesBehind(s: Sys, events: seq<Event>, id: FileId, history: seq<nat>)
    requires Behind(s, id, history) && NeverStartsAgain(s, events, id)
    ensures Behind(Run(s, events), id, history)
  {
    if events != [] {
      RunLeavesBehind(s, Init(events), id, history);
      var front, e := Run(s, Init(events)), Last(events);
      if e.Call? { CallLeavesBehind(front, e.luck, id, history); } else { WritingLeavesBehind(front, e, id, history); }
    }
  }

  lemma StandsAtHome(s: Sys, id: FileId)
    requires Books(s) && id in s.log.serials
    ensures WereWritten(s, s.log.serials[id])
    ensures forall jd, k ::
      jd in s.log.serials && 0 <= k < |s.log.serials[jd]| && s.log.serials[jd][k] in s.log.serials[id] ==> jd == id
  {
    forall k | 0 <= k < |s.log.serials[id]| ensures s.log.serials[id][k] < |s.log.written| {
      SerialsAreWritten(s, id, k);
    }
  }

  // The pass that opens the first file, found and able to seek to its end.
  ghost predicate OpensFirst(s: Sys, luck: Luck, id: FileId) {
    && s.pos.identity == None && s.w.path == Some(id)
    && luck.stat == Found && luck.open == Opened && luck.seekEnd
  }

  lemma FirstPass(p: Position, w: World, luck: Luck)
    requires GoodWorld(w) && GoodPosition(p) && p.identity == None && w.path.Some?
    requires luck.stat == Found && luck.open == Opened && luck.seekEnd
    ensures var pass := Reading(p, w, luck);
      && pass.pos.identity == w.path && pass.pos.offset == |w.content[w.path.value]| && pass.lines == []
  {
    var content := w.content[w.path.value];
    PassGoesOn(p, w, luck);
    PassReturnsRead(p, w, luck);
    assert content[|content|..] == [] && Complete([]) == [];
  }

  lemma FirstCall(s: Sys, luck: Luck, id: FileId)
    requires Books(s) && OpensFirst(s, luck, id)
    ensures var t := Called(s, luck);
      && t.pos.identity == Some(id) && t.pos.offset == |s.w.content[id]| == |s.log.serials[id]|
      && t.log.out == s.log.out && t.log.taken == [] && t.log.serials == s.log.serials
  {
    AccountedIsGood(s.stretch, s.pos);
    FirstPass(s.pos, s.w, luck);
    PassMoves(s.pos, s.w, luck);
    NothingGiven(s, luck);
    assert s.log.out + [] == s.log.out;
  }

  lemma NothingGiven(s: Sys, luck: Luck)
    requires Books(s) && s.pos.identity == None && Called(s, luck).pos.identity.Some? && luck.seekEnd
    ensures TakenBy(s.log, s.pos, s.w, luck) == [] && s.log.taken == []
  {
  }

  lemma IsBehind(t: Sys, id: FileId, history: seq<nat>)
    requires Books(t) && t.pos.identity == Some(id) && id in t.log.serials && t.log.serials[id] == history
    requires t.pos.offset == |history| && t.log.taken == []
    ensures Behind(t, id, history)
  {
    StandsAtHome(t, id);
  }

  lemma FirstCallLeavesBehind(s: Sys, luck: Luck, id: FileId)
    requires Books(s) && OpensFirst(s, luck, id)
    ensures Behind(Called(s, luck), id, s.log.serials[id])
  {
    FirstCall(s, luck, id);
    CallKeepsBooks(s, luck);
    IsBehind(Called(s, luck), id, s.log.serials[id]);
  }

  lemma HistoryIsLeftFrom(s: Sys, luck: Luck, more: seq<Event>, id: FileId)
    requires Books(s) && OpensFirst(s, luck, id) && NeverStartsAgain(Called(s, luck), more, id)
    ensures forall x :: x in s.log.serials[id] ==> x !in Run(Called(s, luck), more).log.taken
  {
    FirstCallLeavesBehind(s, luck, id);
    RunLeavesBehind(Called(s, luck), more, id, s.log.serials[id]);
  }

  /**
   The first pass ever to open a file returns nothing and takes up its end; and what stood in the file by then is
   not taken in any continuation that does not start that file from its beginning: the old log is
   never reported as present traffic.
   */
  lemma {:induction false} HistoryIsLeft(s: Sys, before: seq<Event>, luck: Luck, more: seq<Event>, id: FileId)
    requires Begins(s) && OpensFirst(Run(s, before), luck, id)
    requires NeverStartsAgain(Called(Run(s, before), luck), more, id)
    ensures var u := Run(s, before); var t := Called(u, luck);
      && t.pos.offset == |u.w.content[id]| && t.log.out == [] && t.log.taken == []
      && forall x :: x in u.log.serials[id] ==> x !in Run(t, more).log.taken
  {
    RunKeepsBooks(s, before);
    NothingBefore(s, before);
    FirstCall(Run(s, before), luck, id);
    HistoryIsLeftFrom(Run(s, before), luck, more, id);
  }

  // Nothing was returned while no file had ever been opened.
  lemma {:induction false} NothingBefore(s: Sys, events: seq<Event>)
    requires Begins(s) && Run(s, events).pos.identity == None
    ensures Run(s, events).log.out == []
  {
    if events != [] {
      RunKeepsBooks(s, Init(events));
      NothingFromNoFile(Run(s, Init(events)), Last(events));
      NothingBefore(s, Init(events));
    }
  }

  lemma NothingFromNoFile(s: Sys, e: Event)
    requires Books(s) && Apply(s, e).pos.identity == None
    ensures s.pos.identity == None && Apply(s, e).log.out == s.log.out
  {
    if e.Call? {
      AccountedIsGood(s.stretch, s.pos);
      NothingMissed(s.pos, s.w, e.luck);
      assert s.log.out + [] == s.log.out;
    }
  }

  lemma NothingMissed(p: Position, w: World, luck: Luck)
    requires GoodWorld(w) && GoodPosition(p) && Reading(p, w, luck).pos.identity == None
    ensures p.identity == None && Reading(p, w, luck).lines == []
  {
    if Reaches(p, w, luck) { PassGoesOn(p, w, luck); } else { MissedKeepsPosition(p, w, luck); }
  }
}
