/**
 Following a log file that another process appends to, rotates, truncates or removes: one pass.

 `Tailer` is the object; `Reading` is what one `ReadLines` call does to its position and returns.
 A `Stretch` stands for the bytes taken since the position was last reset; the lemmas tie it
 to the position, to the lines a pass returns and to the file.
 */
module Tail {

  import opened Wrappers
  import opened Bytes
  import opened Sequences
  import opened Lines

  // Identity of a file, as os.SameFile compares it.
  type FileId = nat

  // What the log's path names, and what every file holds.
  datatype World = World(path: Option<FileId>, content: map<FileId, Blob>)

  ghost predicate GoodWorld(w: World) {
    w.path.Some? ==> w.path.value in w.content
  }

  // How the system calls of one pass turn out. A short read delivers fewer bytes than asked for.
  datatype StatLuck = Found | Absent | Broken
  datatype OpenLuck = Opened | Denied | Refused
  datatype Luck = Luck(stat: StatLuck, open: OpenLuck, seekEnd: bool, fstat: bool, seek: bool, read: Option<nat>)

  const MAX_BYTES_PER_READ: nat := 8388608

  datatype Position = Position(
    file: Option<FileId>, identity: Option<FileId>, offset: nat, partial: Blob, everOpened: bool)

  const START := Position(None, None, 0, [], false)

  // ----- what one pass does -----

  function EnsuredOpen(p: Position, w: World, luck: Luck): (Position, bool)
    requires GoodWorld(w)
  {
    var closed := p.(file := None);
    if luck.stat == Broken then (closed, true)
    else if luck.stat == Absent || w.path == None then (closed, false)
    else
      var id := w.path.value;
      var same := p.identity == Some(id);
      if p.file.Some? && same then (p, false)
      else if luck.open == Denied then (closed, false)
      else if luck.open == Refused then (closed, true)
      else if !p.everOpened then
        (Position(Some(id), Some(id), if luck.seekEnd then |w.content[id]| else p.offset, [], true), false)
      else if !same then (Position(Some(id), Some(id), 0, [], true), false)
      else (p.(file := Some(id)), false)
  }

  // Truncated in place: start again from the beginning.
  function Noticed(p: Position, size: nat): Position {
    if size < p.offset then p.(offset := 0, partial := []) else p
  }

  // Too far behind: pass over all but the last stretch.
  function SkippedAhead(p: Position, size: nat): Position {
    if size > p.offset + MAX_BYTES_PER_READ then p.(offset := size - MAX_BYTES_PER_READ, partial := []) else p
  }

  function Delivered(p: Position, content: Blob, n: nat): Blob
    requires p.offset <= |content|
  {
    content[p.offset..if p.offset + n <= |content| then p.offset + n else |content|]
  }

  // The new bytes complete some lines, the first of them begun by the partial line held back.
  function Consumed(p: Position, bytes: Blob): Position {
    p.(offset := p.offset + |bytes|, partial := Remainder(p.partial + bytes))
  }

  datatype Pass = Pass(pos: Position, lines: seq<Line>, skipped: nat, failed: bool)

  function ReadingOpen(p: Position, content: Blob, luck: Luck): Pass {
    if !luck.fstat then Pass(p.(file := None), [], 0, true)
    else
      var q := Noticed(p, |content|);
      if |content| <= q.offset then Pass(q, [], 0, false)
      else
        var r := SkippedAhead(q, |content|);
        var skipped := r.offset - q.offset;
        if !luck.seek || luck.read == None then Pass(r.(file := None), [], skipped, true)
        else
          var bytes := Delivered(r, content, luck.read.value);
          Pass(Consumed(r, bytes), Complete(r.partial + bytes), skipped, false)
  }

  function Reading(p: Position, w: World, luck: Luck): Pass
    requires GoodWorld(w)
  {
    var (q, failed) := EnsuredOpen(p, w, luck);
    if failed || q.file == None then Pass(q, [], 0, failed)
    else ReadingOpen(q, w.content[w.path.value], luck)
  }

  // The file system as one pass finds it, and how its calls turn out.
  datatype Visit = Visit(w: World, luck: Luck)

  ghost predicate GoodVisits(visits: seq<Visit>) {
    forall i :: 0 <= i < |visits| ==> GoodWorld(visits[i].w)
  }

  /** The position after so many passes. */
  ghost function After(visits: seq<Visit>): Position
    requires GoodVisits(visits)
  {
    if visits == [] then START else Reading(After(Init(visits)), Last(visits).w, Last(visits).luck).pos
  }

  /** Every line those passes return, in order. */
  ghost function Returned(visits: seq<Visit>): seq<Line>
    requires GoodVisits(visits)
  {
    if visits == [] then []
    else Returned(Init(visits)) + Reading(After(Init(visits)), Last(visits).w, Last(visits).luck).lines
  }

  class Tailer {
    var file: Option<FileId>
    var identity: Option<FileId>
    var offset: nat
    var partial: Blob
    var everOpened: bool
    // Every pass made so far, and every line handed out, in order.
    ghost var visits: seq<Visit>
    ghost var returned: seq<Line>

    ghost function Pos(): Position
      reads this
    {
      Position(file, identity, offset, partial, everOpened)
    }

    ghost predicate Valid()
      reads this
    {
      GoodVisits(visits) && Pos() == After(visits) && returned == Returned(visits)
    }

    constructor ()
      ensures Valid() && Pos() == START && visits == [] && returned == []
    {
      file, identity, offset, partial, everOpened := None, None, 0, [], false;
      visits, returned := [], [];
    }

    method DropHandle()
      modifies this`file
      ensures file == None
    {
      if file != None { file := None; }
    }

    method EnsureOpen(w: World, luck: Luck) returns (failed: bool)
      requires GoodWorld(w)
      modifies this`file, this`identity, this`offset, this`partial, this`everOpened
      ensures (Pos(), failed) == EnsuredOpen(old(Pos()), w, luck)
      ensures !failed && file.Some? ==> w.path.Some?
    {
      if luck.stat == Broken || luck.stat == Absent || w.path == None {
        DropHandle();
        return luck.stat == Broken;
      }
      var info := w.path.value;
      var sameFile := identity != None && identity.value == info;
      if file != None && sameFile { return false; }
      DropHandle();
      if luck.open != Opened { return luck.open == Refused; }
      file := Some(info);
      if !everOpened {
        everOpened := true;
        if luck.seekEnd { offset := |w.content[info]|; }
        partial := [];
      } else if !sameFile {
        offset := 0;
        partial := [];
      }
      identity := Some(info);
      return false;
    }

    /** The lines written since last time, in one pass. */
    method ReadLines(w: World, luck: Luck) returns (lines: seq<Line>, skippedBytes: nat, failed: bool)
      requires Valid() && GoodWorld(w)
      modifies this
      ensures Valid() && visits == old(visits) + [Visit(w, luck)] && returned == old(returned) + lines
      ensures Pass(Pos(), lines, skippedBytes, failed) == Reading(old(Pos()), w, luck)
    {
      lines, skippedBytes, failed := ReadOnce(w, luck);
      Snoc(visits, Visit(w, luck));
      visits, returned := visits + [Visit(w, luck)], returned + lines;
    }

    method ReadOnce(w: World, luck: Luck) returns (lines: seq<Line>, skippedBytes: nat, failed: bool)
      requires GoodWorld(w)
      modifies this`file, this`identity, this`offset, this`partial, this`everOpened
      ensures Pass(Pos(), lines, skippedBytes, failed) == Reading(old(Pos()), w, luck)
    {
      lines, skippedBytes, failed := [], 0, false;
      failed := EnsureOpen(w, luck);
      if failed || file == None { return; }
      if !luck.fstat {
        DropHandle();
        return [], 0, true;
      }
      var content := w.content[w.path.value];
      var size := |content|;
      ghost var atOpen := Pos();
      if size < offset {
        offset := 0;
        partial := [];
      }
      assert Pos() == Noticed(atOpen, size);
      var pending := size - offset;
      if pending <= 0 { return; }
      if pending > MAX_BYTES_PER_READ {
        skippedBytes := pending - MAX_BYTES_PER_READ;
        offset := size - MAX_BYTES_PER_READ;
        partial := [];
      }
      ghost var settled := Pos();
      assert settled == SkippedAhead(Noticed(atOpen, size), size);
      if !luck.seek {
        DropHandle();
        return [], skippedBytes, true;
      }
      if luck.read == None {
        DropHandle();
        return [], skippedBytes, true;
      }
      var read := if luck.read.value <= size - offset then luck.read.value else size - offset;
      var buffer := content[offset..offset + read];
      assert buffer == Delivered(settled, content, luck.read.value);
      offset := offset + read;
      lines := HoldBack(buffer);
      assert Pos() == Consumed(settled, buffer);
    }

    // Hand out the finished lines; keep the unfinished one for next time.
    method HoldBack(bytes: Blob) returns (lines: seq<Line>)
      modifies this`partial
      ensures lines == Complete(old(partial) + bytes) && partial == Remainder(old(partial) + bytes)
    {
      var buffer := bytes;
      assert partial + buffer == if |partial| > 0 then partial + buffer else buffer;
      if |partial| > 0 {
        buffer := partial + buffer;
        partial := [];
      }
      var segments := Split(buffer);
      var last := segments[|segments| - 1];
      if |last| > 0 { partial := last; }
      lines := segments[..|segments| - 1];
    }
  }

  // ----- the stretch of bytes the position stands for -----

  // `start`..offset of the followed file is where `got` came from and `lines` what was returned
  // for it. `earlier` are the ranges taken from the same file since position `base`, and `skipped`
  // counts the bytes reported as passed over since then.
  datatype Stretch = Stretch(start: nat, got: Blob, lines: seq<Line>, earlier: seq<Range>, base: nat, skipped: nat)
  datatype Range = Range(from: nat, to: nat)

  function Fresh(at: nat): Stretch {
    Stretch(at, [], [], [], at, 0)
  }

  function Size(ranges: seq<Range>): int {
    if ranges == [] then 0 else Size(Init(ranges)) + Last(ranges).to - Last(ranges).from
  }

  // Later ranges begin where earlier ones have ended: no index is in two of them.
  ghost predicate Disjoint(ranges: seq<Range>, end: nat) {
    && (forall i :: 0 <= i < |ranges| ==> ranges[i].from <= ranges[i].to <= end)
    && (forall i, j :: 0 <= i < j < |ranges| ==> ranges[i].to <= ranges[j].from)
  }

  /** What the position and everything returned for this file amount to. */
  ghost predicate Accounts(s: Stretch, p: Position) {
    && p.offset == s.start + |s.got|
    && s.lines == Complete(s.got)
    && p.partial == Remainder(s.got)
    && Disjoint(s.earlier, s.start)
    && p.offset - s.base == Size(s.earlier) + s.skipped + |s.got|
    && (s.skipped == 0 ==> s.start == s.base && s.earlier == [])
    && (p.identity == None ==> !p.everOpened && p == START && s == Fresh(0))
    && (p.everOpened <==> p.identity.Some?)
    && (p.file.Some? ==> p.file == p.identity)
  }

  function Tracked(s: Stretch, p: Position, w: World, luck: Luck): Stretch
    requires GoodWorld(w)
  {
    var (q, failed) := EnsuredOpen(p, w, luck);
    var s0 := if q.identity != p.identity then Fresh(q.offset) else s;
    if failed || q.file == None || !luck.fstat then s0
    else TrackedOpen(s0, q, w.content[w.path.value], luck)
  }

  function Rewound(s: Stretch, p: Position, size: nat): Stretch {
    if size < p.offset then Fresh(0) else s
  }

  function Jumped(s: Stretch, p: Position, size: nat): Stretch {
    var to := SkippedAhead(p, size).offset;
    if to == p.offset then s
    else s.(start := to, got := [], lines := [], earlier := s.earlier + [Range(s.start, p.offset)],
            skipped := s.skipped + to - p.offset)
  }

  function Took(s: Stretch, p: Position, bytes: Blob): Stretch {
    s.(got := s.got + bytes, lines := s.lines + Complete(p.partial + bytes))
  }

  function TrackedOpen(s: Stretch, p: Position, content: Blob, luck: Luck): Stretch {
    var size := |content|;
    var q := Noticed(p, size);
    if size <= q.offset then Rewound(s, p, size)
    else
      var r := SkippedAhead(q, size);
      var jumped := Jumped(Rewound(s, p, size), q, size);
      if !luck.seek || luck.read == None then jumped
      else Took(jumped, r, Delivered(r, content, luck.read.value))
  }

  lemma RewindKeepsAccounts(s: Stretch, p: Position, size: nat)
    requires Accounts(s, p) && p.identity.Some?
    ensures Accounts(Rewound(s, p, size), Noticed(p, size))
  {
  }

  lemma JumpKeepsAccounts(s: Stretch, p: Position, size: nat)
    requires Accounts(s, p) && p.identity.Some? && p.offset <= size
    ensures Accounts(Jumped(s, p, size), SkippedAhead(p, size))
  {
    Snoc(s.earlier, Range(s.start, p.offset));
  }

  lemma TakingKeepsAccounts(s: Stretch, p: Position, bytes: Blob)
    requires Accounts(s, p) && p.identity.Some?
    ensures Accounts(Took(s, p, bytes), Consumed(p, bytes))
  {
    SplitConcat(s.got, bytes);
  }

  lemma OpenKeepsAccounts(s: Stretch, p: Position, content: Blob, luck: Luck)
    requires Accounts(s, p) && p.file.Some? && luck.fstat
    ensures Accounts(TrackedOpen(s, p, content, luck), ReadingOpen(p, content, luck).pos)
  {
    var size := |content|;
    var q := Noticed(p, size);
    RewindKeepsAccounts(s, p, size);
    if size > q.offset {
      JumpKeepsAccounts(Rewound(s, p, size), q, size);
      var r := SkippedAhead(q, size);
      if luck.seek && luck.read.Some? {
        TakingKeepsAccounts(Jumped(Rewound(s, p, size), q, size), r, Delivered(r, content, luck.read.value));
      }
    }
  }

  lemma PassKeepsAccounts(s: Stretch, p: Position, w: World, luck: Luck)
    requires GoodWorld(w) && Accounts(s, p)
    ensures Accounts(Tracked(s, p, w, luck), Reading(p, w, luck).pos)
  {
    var (q, failed) := EnsuredOpen(p, w, luck);
    var s0 := if q.identity != p.identity then Fresh(q.offset) else s;
    assert Accounts(s0, q);
    if !failed && q.file != None && luck.fstat { OpenKeepsAccounts(s0, q, w.content[w.path.value], luck); }
  }

  // ----- the stretch and the lines a pass returns -----

  predicate EndsOpen(p: Position, size: nat) {
    size < p.offset || size > p.offset + MAX_BYTES_PER_READ
  }

  /** Does this pass leave the stretch behind: another file, a file seen to be shorter, or too large a gap? */
  predicate Ends(p: Position, w: World, luck: Luck)
    requires GoodWorld(w)
  {
    var (q, failed) := EnsuredOpen(p, w, luck);
    q.identity != p.identity || (!failed && q.file.Some? && luck.fstat && EndsOpen(q, |w.content[w.path.value]|))
  }

  function GivenOpen(p: Position, content: Blob, luck: Luck): Blob {
    var q := Noticed(p, |content|);
    if !luck.fstat || |content| <= q.offset || !luck.seek || luck.read == None then []
    else Delivered(SkippedAhead(q, |content|), content, luck.read.value)
  }

  /** The bytes a pass takes from the file. */
  function Given(p: Position, w: World, luck: Luck): Blob
    requires GoodWorld(w)
  {
    var (q, failed) := EnsuredOpen(p, w, luck);
    if failed || q.file == None then [] else GivenOpen(q, w.content[w.path.value], luck)
  }

  // What the pass starts from: the stretch as it was, or a new one where the old one ended.
  function Carried(s: Stretch, ends: bool): Stretch {
    if ends then Fresh(0) else s
  }

  lemma OpenReturnsLines(s: Stretch, p: Position, content: Blob, luck: Luck)
    requires luck.fstat
    ensures var t, kept := TrackedOpen(s, p, content, luck), Carried(s, EndsOpen(p, |content|));
      && t.lines == kept.lines + ReadingOpen(p, content, luck).lines
      && t.got == kept.got + GivenOpen(p, content, luck)
  {
    assert s.lines + [] == s.lines && s.got + [] == s.got;
  }

  /**
   The lines of the stretch after a pass are those before it, unless the pass left it behind, and
   exactly the lines the pass returns; likewise its bytes and the bytes the pass takes.
   */
  lemma PassReturnsLines(s: Stretch, p: Position, w: World, luck: Luck)
    requires GoodWorld(w)
    ensures var t, kept := Tracked(s, p, w, luck), Carried(s, Ends(p, w, luck));
      && t.lines == kept.lines + Reading(p, w, luck).lines
      && t.got == kept.got + Given(p, w, luck)
  {
    var (q, failed) := EnsuredOpen(p, w, luck);
    var s0 := if q.identity != p.identity then Fresh(q.offset) else s;
    if !failed && q.file.Some? && luck.fstat {
      OpenReturnsLines(s0, q, w.content[w.path.value], luck);
    } else {
      assert s.lines + [] == s.lines && s.got + [] == s.got;
    }
  }

  // ----- agreement with the file -----

  /** The bytes taken are the bytes that stand in the file, where they stand. */
  ghost predicate Kept(s: Stretch, content: Blob) {
    s.start + |s.got| <= |content| && content[s.start..s.start + |s.got|] == s.got
  }

  lemma TakingIsFaithful(s: Stretch, p: Position, content: Blob, n: nat)
    requires p.offset == s.start + |s.got| <= |content|
    ensures Kept(Took(s, p, Delivered(p, content, n)), content) <==> Kept(s, content)
  {
    var bytes := Delivered(p, content, n);
    var end := p.offset;
    assert content[s.start..end + |bytes|] == content[s.start..end] + bytes;
    assert s.got == (s.got + bytes)[..|s.got|];
    assert content[s.start..end] == content[s.start..end + |bytes|][..|s.got|];
  }

  lemma RewindIsFaithful(s: Stretch, p: Position, content: Blob)
    requires p.offset == s.start + |s.got|
    ensures var q, t := Noticed(p, |content|), Rewound(s, p, |content|);
      && q.offset == t.start + |t.got| && (Kept(t, content) <==> Kept(s, content) || |content| < p.offset)
  {
  }

  lemma JumpIsFaithful(s: Stretch, p: Position, content: Blob)
    requires p.offset == s.start + |s.got| <= |content|
    ensures var q, t := SkippedAhead(p, |content|), Jumped(s, p, |content|);
      && q.offset == t.start + |t.got| <= |content|
      && (Kept(t, content) <==> Kept(s, content) || |content| > p.offset + MAX_BYTES_PER_READ)
  {
  }

  /**
   Looking at the followed file leaves the stretch true to it exactly when the stretch was true
   before, or the file is seen to be shorter than the position, or the gap is above the cap.
   */
  lemma LookIsFaithful(s: Stretch, p: Position, content: Blob, luck: Luck)
    requires p.offset == s.start + |s.got|
    ensures Kept(TrackedOpen(s, p, content, luck), content)
       <==> Kept(s, content) || |content| < p.offset || |content| > p.offset + MAX_BYTES_PER_READ
  {
    var size := |content|;
    var q := Noticed(p, size);
    RewindIsFaithful(s, p, content);
    if size > q.offset {
      var s1, r := Rewound(s, p, size), SkippedAhead(q, size);
      JumpIsFaithful(s1, q, content);
      if luck.seek && luck.read.Some? { TakingIsFaithful(Jumped(s1, q, size), r, content, luck.read.value); }
    }
  }

  // ----- a pass in full -----

  // A position a tailer can be in.
  ghost predicate GoodPosition(p: Position) {
    HandleRight(p) && (!p.everOpened ==> p == START) && NEWLINE !in p.partial
  }

  ghost predicate HandleRight(p: Position) {
    (p.file.Some? ==> p.file == p.identity) && (p.everOpened <==> p.identity.Some?)
  }

  lemma AccountedIsGood(s: Stretch, p: Position)
    requires Accounts(s, p)
    ensures GoodPosition(p)
  {
    GlueInvertsSplit(s.got);
  }

  // Does the pass get at the file at the path, because it is followed already or because it can be opened?
  predicate Reaches(p: Position, w: World, luck: Luck) {
    luck.stat == Found && w.path.Some? && ((p.file.Some? && p.identity == w.path) || luck.open == Opened)
  }

  lemma MissesAt(p: Position, w: World, luck: Luck)
    requires GoodWorld(w) && HandleRight(p) && !Reaches(p, w, luck)
    ensures EnsuredOpen(p, w, luck)
         == (p.(file := None), luck.stat == Broken || (luck.stat == Found && w.path.Some? && luck.open == Refused))
  {
  }

  /** A pass that gets at no file returns nothing and keeps the position; it fails unless that may well be so. */
  lemma MissedKeepsPosition(p: Position, w: World, luck: Luck)
    requires GoodWorld(w) && GoodPosition(p) && !Reaches(p, w, luck)
    ensures var pass := Reading(p, w, luck);
      && pass.pos == p.(file := None) && pass.lines == [] && pass.skipped == 0
      && (pass.failed <==> luck.stat == Broken || (luck.stat == Found && w.path.Some? && luck.open == Refused))
  {
    MissesAt(p, w, luck);
  }

  /** Where the pass looks for more: the end of the first file ever opened, the start of any other new one. */
  function LooksFrom(p: Position, w: World, luck: Luck): nat
    requires GoodWorld(w) && w.path.Some?
  {
    if p.identity == w.path then p.offset
    else if p.identity == None && luck.seekEnd then |w.content[w.path.value]|
    else 0
  }

  // Where in the file the pass starts to read: from the beginning if the file has become shorter, and past all but
  // the last 8 MiB of what is new.
  function ReadsFrom(p: Position, w: World, luck: Luck): (from: nat)
    requires GoodWorld(w) && w.path.Some?
    ensures from <= |w.content[w.path.value]|
  {
    var size, looks := |w.content[w.path.value]|, LooksFrom(p, w, luck);
    var at := if size < looks then 0 else looks;
    if size - at > 8388608 then size - 8388608 else at
  }

  lemma OpensAt(p: Position, w: World, luck: Luck)
    requires GoodWorld(w) && GoodPosition(p) && Reaches(p, w, luck)
    ensures EnsuredOpen(p, w, luck)
         == (Position(w.path, w.path, LooksFrom(p, w, luck), if p.identity == w.path then p.partial else [], true),
             false)
  {
  }

  /**
   Where any pass that gets at a file ends up, what it says it passed over, and whether it fails: if the
   file's size cannot be had, or if there is something new and it cannot be got.
   */
  lemma PassGoesOn(p: Position, w: World, luck: Luck)
    requires GoodWorld(w) && GoodPosition(p) && Reaches(p, w, luck)
    ensures var pass, size, looks := Reading(p, w, luck), |w.content[w.path.value]|, LooksFrom(p, w, luck);
      var from, at := ReadsFrom(p, w, luck), if size < looks then 0 else looks;
      && pass.pos.identity == w.path && pass.pos.everOpened
      && pass.pos.file == (if pass.failed then None else w.path)
      && (pass.failed <==> !luck.fstat || (size > at && (!luck.seek || luck.read == None)))
      && (!luck.fstat ==> pass.pos.offset == looks && pass.skipped == 0)
      && (luck.fstat ==> pass.skipped == from - at)
      && (luck.fstat && pass.failed ==> pass.pos.offset == from)
      && (!pass.failed ==>
            pass.pos.offset
              == if luck.read.None? || luck.read.value >= size - from then size else from + luck.read.value)
  {
    OpensAt(p, w, luck);
  }

  lemma OpenReturnsRead(q: Position, content: Blob, luck: Luck, from: nat)
    requires NEWLINE !in q.partial && luck.fstat && from <= |content|
    requires from == SkippedAhead(Noticed(q, |content|), |content|).offset
    ensures var pass, held := ReadingOpen(q, content, luck), if from == q.offset then q.partial else [];
      if pass.failed then pass.lines == []
      else
        && from <= pass.pos.offset <= |content|
        && pass.lines == Complete(held + content[from..pass.pos.offset])
        && pass.pos.partial == Remainder(held + content[from..pass.pos.offset])
  {
    PlainTextHasNoLines(q.partial);
    PlainTextHasNoLines([]);
    assert q.partial + [] == q.partial;
  }

  /**
   The lines such a pass returns are those finished by the bytes it read, the first of them begun by what was
   held back if nothing came between; and what follows the last of them is held back.
   */
  lemma PassReturnsRead(p: Position, w: World, luck: Luck)
    requires GoodWorld(w) && GoodPosition(p) && Reaches(p, w, luck)
    ensures var pass, content := Reading(p, w, luck), w.content[w.path.value];
      var from, goesOn := ReadsFrom(p, w, luck), p.identity == w.path && ReadsFrom(p, w, luck) == p.offset;
      if pass.failed then pass.lines == []
      else
        && from <= pass.pos.offset <= |content|
        && pass.lines == Complete((if goesOn then p.partial else []) + content[from..pass.pos.offset])
        && pass.pos.partial == Remainder((if goesOn then p.partial else []) + content[from..pass.pos.offset])
  {
    var content := w.content[w.path.value];
    OpensAt(p, w, luck);
    if luck.fstat { OpenReturnsRead(EnsuredOpen(p, w, luck).0, content, luck, ReadsFrom(p, w, luck)); }
  }
}
