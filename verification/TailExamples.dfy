/** Runs of the tailer in which a line comes back twice, is made up, or never comes. */
module TailExamples {

  import opened Wrappers
  import opened Bytes
  import opened Sequences
  import opened Lines
  import opened Tail
  import opened TailRuns
  import opened TailDelivery

  const LUCKY := Luck(Found, Opened, true, true, true, Some(100))

  ghost const EMPTY_LOG :=
    Sys(World(Some(0), map[0 := []]), START, Fresh(0), false, Ledger([], map[0 := []], [], [], []))

  // No file is cut short.
  ghost predicate Uncut(events: seq<Event>) {
    forall i :: 0 <= i < |events| ==> !events[i].Truncate?
  }

  lemma Extend(events: seq<Event>, end: Sys, e: Event, later: Sys) returns (longer: seq<Event>)
    requires Sound(EMPTY_LOG) && Sound(end) && end == Run(EMPTY_LOG, events) && later == Apply(end, e)
    ensures Run(EMPTY_LOG, longer) == later && (Uncut(events) && !e.Truncate? ==> Uncut(longer))
  {
    Snoc(events, e);
    longer := events + [e];
  }

  lemma ExtendByCall(events: seq<Event>, end: Sys, later: Sys) returns (longer: seq<Event>)
    requires Sound(EMPTY_LOG) && Sound(end) && end == Run(EMPTY_LOG, events) && later == Called(end, LUCKY)
    ensures Run(EMPTY_LOG, longer) == later && (Uncut(events) ==> Uncut(longer))
  {
    longer := Extend(events, end, Call(LUCKY), later);
  }

  lemma {:induction false} NeverCut(s: Sys, events: seq<Event>)
    requires Sound(s) && !s.cut && Uncut(events)
    ensures !Run(s, events).cut
  {
    if events != [] { NeverCut(s, Init(events)); }
  }

  lemma NoCutToShow(s: Sys, events: seq<Event>)
    requires Sound(s) && !s.cut && Uncut(events)
    ensures EveryCutShows(s, events)
  {
    forall i | 0 <= i < |events| && events[i].Call? ensures CutShows(Run(s, events[..i])) { NeverCut(s, events[..i]); }
  }

  // ----- the log opened while empty, then written to, then read -----

  ghost function Written(text: Blob): Sys {
    Sys(World(Some(0), map[0 := text]), Position(Some(0), Some(0), 0, [], true), Fresh(0), false,
        Ledger(text, map[0 := Numbers(0, |text|)], [], [[]], []))
  }

  ghost function Following(text: Blob): Stretch {
    Stretch(0, text, Complete(text), [], 0, 0)
  }

  ghost function ReadSoFar(text: Blob): Sys {
    Sys(World(Some(0), map[0 := text]), Position(Some(0), Some(0), |text|, Remainder(text), true),
        Following(text), false,
        Ledger(text, map[0 := Numbers(0, |text|)], Numbers(0, |text|), [[]], Complete(text)))
  }

  lemma FirstOpening()
    ensures Called(EMPTY_LOG, LUCKY) == Written([])
  {
  }

  lemma FirstWriting(text: Blob)
    ensures Grown(Written([]), 0, text) == Written(text)
  {
    assert [] + text == text && [] + Numbers(0, |text|) == Numbers(0, |text|);
  }

  // A pass that finds the whole of a short file ahead of it.
  lemma WholeRead(p: Position, w: World, text: Blob)
    requires w.path.Some? && w.path.value in w.content && w.content[w.path.value] == text && 0 < |text| <= 100
    requires EnsuredOpen(p, w, LUCKY) == (Position(w.path, w.path, 0, [], true), false)
    ensures Reading(p, w, LUCKY)
         == Pass(Position(w.path, w.path, |text|, Remainder(text), true), Complete(text), 0, false)
    ensures Given(p, w, LUCKY) == text && GivenFrom(p, w, LUCKY) == 0
  {
    var q := Position(w.path, w.path, 0, [], true);
    assert Delivered(q, text, 100) == text && [] + text == text;
  }

  lemma WholeTracked(s: Stretch, p: Position, w: World, text: Blob)
    requires w.path.Some? && w.path.value in w.content && w.content[w.path.value] == text && 0 < |text| <= 100
    requires EnsuredOpen(p, w, LUCKY) == (Position(w.path, w.path, 0, [], true), false)
    requires p.identity != w.path || s == Fresh(0)
    ensures Tracked(s, p, w, LUCKY) == Following(text)
  {
    var q := Position(w.path, w.path, 0, [], true);
    assert Delivered(q, text, 100) == text && [] + text == text && [] + Complete(text) == Complete(text);
  }

  lemma AllTaken(n: nat)
    ensures Between(Numbers(0, n), 0, n) == Numbers(0, n) && [] + Numbers(0, n) == Numbers(0, n)
  {
  }

  lemma FirstReading(text: Blob)
    requires 0 < |text| <= 100
    ensures Called(Written(text), LUCKY) == ReadSoFar(text)
  {
    var s := Written(text);
    WholeRead(s.pos, s.w, text);
    WholeTracked(s.stretch, s.pos, s.w, text);
    AllTaken(|text|);
    assert [] + Complete(text) == Complete(text);
  }

  lemma IsBegun()
    ensures Begins(EMPTY_LOG)
  {
  }

  lemma OpenedAndWritten(text: Blob) returns (events: seq<Event>)
    ensures Sound(EMPTY_LOG) && Run(EMPTY_LOG, events) == Written(text) && Uncut(events)
  {
    FirstOpening();
    FirstWriting(text);
    events := Extend([], EMPTY_LOG, Call(LUCKY), Written([]));
    events := Extend(events, Written([]), Append(0, text), Written(text));
  }

  lemma ReadAll(text: Blob) returns (events: seq<Event>)
    requires 0 < |text| <= 100
    ensures Sound(EMPTY_LOG) && Run(EMPTY_LOG, events) == ReadSoFar(text) && Uncut(events)
  {
    events := OpenedAndWritten(text);
    FirstReading(text);
    events := Extend(events, Written(text), Call(LUCKY), ReadSoFar(text));
  }

  // ----- a log renamed away and back -----

  ghost function TwoFiles(path: FileId, text: Blob): World {
    World(Some(path), map[0 := text, 1 := []])
  }

  ghost function Away(text: Blob): Sys {
    Sys(TwoFiles(1, text), Position(Some(1), Some(1), 0, [], true), Fresh(0), false,
        Ledger(text, map[0 := Numbers(0, |text|), 1 := []], Numbers(0, |text|), [[], text], Complete(text)))
  }

  ghost function Back(text: Blob): Sys {
    Sys(TwoFiles(0, text), Position(Some(0), Some(0), |text|, Remainder(text), true), Following(text), false,
        Ledger(text, map[0 := Numbers(0, |text|), 1 := []], Numbers(0, |text|) + Numbers(0, |text|), [[], text, []],
               Complete(text) + Complete(text)))
  }

  lemma GoesAway(text: Blob)
    ensures Sound(ReadSoFar(text)) && Called(Apply(ReadSoFar(text), Rotate(1)), LUCKY) == Away(text)
  {
    var s := Apply(ReadSoFar(text), Rotate(1));
    assert s.w == TwoFiles(1, text);
    assert Complete(text) + [] == Complete(text) && Numbers(0, |text|) + [] == Numbers(0, |text|);
    assert [[]] + [text] == [[], text];
  }

  // Back under its name, not yet looked at.
  ghost function Named(text: Blob): Sys {
    Away(text).(w := TwoFiles(0, text))
  }

  lemma IsNamed(text: Blob)
    ensures Sound(Away(text)) && Apply(Away(text), Restore(0)) == Named(text) && Sound(Named(text))
  {
  }

  lemma ComesBack(text: Blob)
    requires 0 < |text| <= 100
    ensures Called(Named(text), LUCKY) == Back(text)
  {
    var s := Named(text);
    WholeRead(s.pos, s.w, text);
    WholeTracked(s.stretch, s.pos, s.w, text);
    AllTaken(|text|);
    assert [[], text] + [[]] == [[], text, []];
  }

  lemma ReadThenAway(text: Blob) returns (events: seq<Event>)
    requires 0 < |text| <= 100
    ensures Sound(EMPTY_LOG) && Run(EMPTY_LOG, events) == Away(text) && Uncut(events)
  {
    events := ReadAll(text);
    GoesAway(text);
    var rotated := Apply(ReadSoFar(text), Rotate(1));
    events := Extend(events, ReadSoFar(text), Rotate(1), rotated);
    events := Extend(events, rotated, Call(LUCKY), Away(text));
  }

  lemma AwayThenNamed(text: Blob) returns (events: seq<Event>)
    requires 0 < |text| <= 100
    ensures Sound(EMPTY_LOG) && Run(EMPTY_LOG, events) == Named(text) && Uncut(events)
  {
    events := ReadThenAway(text);
    IsNamed(text);
    events := Extend(events, Away(text), Restore(0), Named(text));
  }

  lemma AwayThenBack(text: Blob) returns (events: seq<Event>)
    requires 0 < |text| <= 100
    ensures Sound(EMPTY_LOG) && Run(EMPTY_LOG, events) == Back(text) && Uncut(events)
  {
    events := AwayThenNamed(text);
    ComesBack(text);
    IsNamed(text);
    events := ExtendByCall(events, Named(text), Back(text));
  }

  /**
   A log renamed away and back is returned twice: all that was ever written is "a" and a newline, no cut
   goes unseen, and "a" comes back as two lines.
   */
  lemma RestoredIsReturnedTwice() returns (events: seq<Event>, end: Sys)
    ensures Begins(EMPTY_LOG) && end == Run(EMPTY_LOG, events) && EveryCutShows(EMPTY_LOG, events)
    ensures end.log.written == [97, NEWLINE] && end.log.out == [[97], [97]] && !Once(end.log.taken)
  {
    var text: Blob := [97, NEWLINE];
    OneLine();
    IsBegun();
    events := AwayThenBack(text);
    end := Back(text);
    assert end.log.taken[0] == end.log.taken[2];
    NoCutToShow(EMPTY_LOG, events);
  }

  lemma OneLine()
    ensures Complete([97, NEWLINE]) == [[97]] && Remainder([97, NEWLINE]) == []
  {
    SplitInvertsGlue([[97]], []);
    assert Glue([[97]]) == [97, NEWLINE] && [97, NEWLINE] + [] == [97, NEWLINE];
  }

  // ----- a log rotated before it was read -----

  ghost function Missed(text: Blob): Sys {
    Sys(TwoFiles(1, text), Position(Some(1), Some(1), 0, [], true), Fresh(0), false,
        Ledger(text, map[0 := Numbers(0, |text|), 1 := []], [], [[], []], []))
  }

  lemma IsMissed(text: Blob)
    ensures Sound(Written(text)) && Called(Apply(Written(text), Rotate(1)), LUCKY) == Missed(text)
  {
    assert Apply(Written(text), Rotate(1)).w == TwoFiles(1, text);
    var nothing: Blob := [];
    assert [nothing] + [nothing] == [nothing, nothing];
  }

  lemma WrittenThenMissed(text: Blob) returns (events: seq<Event>)
    ensures Sound(EMPTY_LOG) && Run(EMPTY_LOG, events) == Missed(text) && Uncut(events)
  {
    events := OpenedAndWritten(text);
    IsMissed(text);
    var rotated := Apply(Written(text), Rotate(1));
    events := Extend(events, Written(text), Rotate(1), rotated);
    events := Extend(events, rotated, Call(LUCKY), Missed(text));
  }

  lemma MissedIsUnread(x: nat, text: Blob)
    requires x < |text|
    ensures Sound(Missed(text)) && Unread(Missed(text), 0, x)
  {
  }

  /**
   Bytes written before a rotation and not read by then: the pass that notices the rotation has been made,
   and no run from here on ever takes one of them while their file stays away.
   */
  lemma {:induction false} RotationLosesBytes(text: Blob) returns (events: seq<Event>, end: Sys)
    ensures Begins(EMPTY_LOG) && end == Run(EMPTY_LOG, events) && EveryCutShows(EMPTY_LOG, events)
    ensures end.pos.identity == end.w.path == Some(1) && end.w.content == map[0 := text, 1 := []]
    ensures 0 in end.log.serials && end.log.serials[0] == Numbers(0, |text|) && end.log.out == []
    ensures forall more, x :: StaysAway(end, more, 0) && 0 <= x < |text| ==> x !in Run(end, more).log.taken
  {
    IsBegun();
    events := WrittenThenMissed(text);
    end := Missed(text);
    NoCutToShow(EMPTY_LOG, events);
    forall more, x | StaysAway(end, more, 0) && 0 <= x < |text| ensures x !in Run(end, more).log.taken {
      MissedIsUnread(x, text);
      UnreadStaysUnread(end, more, 0, x);
    }
  }

  // ----- a log cut short -----

  // Read to its end, then cut to its first `keep` bytes and refilled with `more`.
  ghost function Cut(text: Blob, keep: nat, more: Blob): Sys
    requires keep < |text|
  {
    Sys(World(Some(0), map[0 := text[..keep] + more]), ReadSoFar(text).pos, Following(text), true,
        Ledger(text + more, map[0 := Numbers(0, keep) + Numbers(|text|, |more|)], Numbers(0, |text|), [[]],
               Complete(text)))
  }

  lemma IsCut(text: Blob, keep: nat, more: Blob)
    requires keep < |text|
    ensures Sound(ReadSoFar(text))
    ensures Apply(Apply(ReadSoFar(text), Truncate(0, keep)), Append(0, more)) == Cut(text, keep, more)
  {
    assert Numbers(0, |text|)[..keep] == Numbers(0, keep);
  }

  lemma ReadThenCut(text: Blob, keep: nat, more: Blob) returns (events: seq<Event>)
    requires keep < |text| <= 100
    ensures Sound(EMPTY_LOG) && Run(EMPTY_LOG, events) == Cut(text, keep, more)
  {
    events := ReadAll(text);
    IsCut(text, keep, more);
    var shortened := Apply(ReadSoFar(text), Truncate(0, keep));
    events := Extend(events, ReadSoFar(text), Truncate(0, keep), shortened);
    events := Extend(events, shortened, Append(0, more), Cut(text, keep, more));
  }

  lemma CutReadSays(text: Blob, keep: nat, more: Blob, lines: seq<Line>)
    requires keep < |text|
    requires var before := Cut(text, keep, more);
      GoodWorld(before.w) && Reading(before.pos, before.w, LUCKY).lines == lines
    ensures var end := Called(Cut(text, keep, more), LUCKY);
      && end.log.written == text + more && end.w == World(Some(0), map[0 := text[..keep] + more])
      && end.log.out == Complete(text) + lines
  {
  }

  // The pass after the cut, and the run with it.
  lemma CutThenRead(text: Blob, keep: nat, more: Blob, lines: seq<Line>) returns (events: seq<Event>, end: Sys)
    requires keep < |text| <= 100
    requires var before := Cut(text, keep, more);
      GoodWorld(before.w) && Reading(before.pos, before.w, LUCKY).lines == lines
    ensures Sound(EMPTY_LOG) && end == Run(EMPTY_LOG, events)
    ensures end.log.written == text + more && end.w == World(Some(0), map[0 := text[..keep] + more])
    ensures end.log.out == Complete(text) + lines
  {
    var before := Cut(text, keep, more);
    events := ReadThenCut(text, keep, more);
    CutReadSays(text, keep, more, lines);
    end := Called(before, LUCKY);
    events := ExtendByCall(events, before, end);
  }

  lemma ReadAgain(text: Blob, kept: Blob)
    requires 0 < |kept| < |text| <= 100 && text[..|kept|] + [] == kept
    ensures GoodWorld(Cut(text, |kept|, []).w)
    ensures Reading(Cut(text, |kept|, []).pos, Cut(text, |kept|, []).w, LUCKY).lines == Complete(kept)
  {
    assert Delivered(Position(Some(0), Some(0), 0, [], true), kept, 100) == kept && [] + kept == kept;
  }

  lemma ReadAcross(text: Blob, more: Blob, tail: Blob)
    requires 0 < |text| < |more| <= 100 && more[|text|..] == tail
    ensures GoodWorld(Cut(text, 0, more).w)
    ensures Reading(Cut(text, 0, more).pos, Cut(text, 0, more).w, LUCKY).lines == Complete(Remainder(text) + tail)
  {
    assert text[..0] + more == more;
    assert Delivered(Cut(text, 0, more).pos, more, 100) == tail;
  }

  /** Cut short but not emptied, a log gives the lines it keeps a second time: "a", "b", and "a" again. */
  lemma CutShortIsReturnedTwice() returns (events: seq<Event>, end: Sys)
    ensures Begins(EMPTY_LOG) && end == Run(EMPTY_LOG, events)
    ensures end.log.written == [97, NEWLINE, 98, NEWLINE] && end.log.out == [[97], [98], [97]]
  {
    var text: Blob, kept: Blob := [97, NEWLINE, 98, NEWLINE], [97, NEWLINE];
    IsBegun();
    OneLine();
    TwoLines();
    assert text[..2] + [] == kept && text + [] == text;
    ReadAgain(text, kept);
    events, end := CutThenRead(text, 2, [], [[97]]);
    assert [[97 as byte], [98]] + [[97]] == [[97], [98], [97]];
  }

  lemma TwoLines()
    ensures Complete([97, NEWLINE, 98, NEWLINE]) == [[97], [98]]
  {
    var lines: seq<Line> := [[97], [98]];
    SplitInvertsGlue(lines, []);
    assert Init(lines) == [[97]] && Glue([[97]]) == [97, NEWLINE];
    assert Glue(lines) == [97, NEWLINE, 98, NEWLINE] && [97, NEWLINE, 98, NEWLINE] + [] == [97, NEWLINE, 98, NEWLINE];
  }

  lemma SpliceInText()
    ensures Complete([97, NEWLINE, 98]) == [[97]] && Remainder([97, NEWLINE, 98]) == [98]
    ensures Complete([98, 121, NEWLINE]) == [[98, 121]]
  {
    SplitInvertsGlue([[97]], [98]);
    assert Glue([[97]]) == [97, NEWLINE] && [97, NEWLINE] + [98] == [97, NEWLINE, 98];
    SplitInvertsGlue([[98, 121]], []);
    assert Glue([[98, 121]]) == [98, 121, NEWLINE] && [98, 121, NEWLINE] + [] == [98, 121, NEWLINE];
  }

  /**
   Emptied and refilled past the position between two reads, a file yields a line that was never
   written to it: here "by", from "b" before the truncation and "y" after it.
   */
  lemma HiddenTruncationSplices() returns (events: seq<Event>, end: Sys)
    ensures Begins(EMPTY_LOG) && end == Run(EMPTY_LOG, events)
    ensures end.log.written == [97, NEWLINE, 98] + [120, 120, NEWLINE, 121, NEWLINE]
    ensures end.w.content == map[0 := [120, 120, NEWLINE, 121, NEWLINE]] && end.log.out == [[97], [98, 121]]
  {
    var first: Blob, second: Blob := [97, NEWLINE, 98], [120, 120, NEWLINE, 121, NEWLINE];
    IsBegun();
    SpliceInText();
    assert [98 as byte] + [121, NEWLINE] == [98, 121, NEWLINE];
    assert second[3..] == [121, NEWLINE] && first[..0] + second == second;
    ReadAcross(first, second, [121, NEWLINE]);
    events, end := CutThenRead(first, 0, second, [[98, 121]]);
    assert [[97 as byte]] + [[98, 121]] == [[97], [98, 121]];
  }
}
