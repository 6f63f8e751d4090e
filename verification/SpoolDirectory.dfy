/**
 The spool calls as they are made: one process writes atomically, one takes everything pending.

 A call that nobody interrupts has the effect of its steps in `Mailbox`, one after the other.
 */
module SpoolDirectory {

  import opened Wrappers
  import opened Bytes
  import opened Spool
  import opened Mailbox

  // How the system calls behind one write turn out.
  datatype WriteLuck = WriteFails(reached: nat) | ChmodFails | RenameFails | Fine

  /** Reading and removing the entry at the front of the listing, or passing it over. */
  function TakeEntry<T>(c: Codec<T>, b: Box<T>, readable: string -> bool): Box<T>
    requires AtEntry(b)
  {
    var name := b.reader.names[b.reader.at];
    if IsFinal(name) then Apply(c, Apply(c, b, Read(readable(name))), Remove) else Apply(c, b, Skip)
  }

  lemma OneEntryOn<T>(c: Codec<T>, b: Box<T>, readable: string -> bool)
    requires AtEntry(b) && b.reader.held == Unread
    ensures var after := TakeEntry(c, b, readable);
      && after.reader.Taking? && after.reader.names == b.reader.names && after.reader.held == Unread
      && after.reader.at == b.reader.at + 1
  {
  }

  function TakeRest<T>(c: Codec<T>, b: Box<T>, readable: string -> bool): Box<T>
    requires b.reader.Taking? && b.reader.held == Unread && b.reader.at <= |b.reader.names|
    decreases if b.reader.Taking? then |b.reader.names| - b.reader.at else 0
  {
    if b.reader.at == |b.reader.names| then b
    else
      OneEntryOn(c, b, readable);
      TakeRest(c, TakeEntry(c, b, readable), readable)
  }

  // What one entry yields, given the directory as listed.
  function Yield<T>(c: Codec<T>, files: map<string, File>, name: string, index: nat, readable: string -> bool)
    : seq<Letter<T>>
  {
    if !IsFinal(name) then []
    else
      var kept := Kept(c, index, if readable(name) && name in files then Got(files[name]) else Unreadable);
      if kept == None then [] else [kept.value]
  }

  function Yields<T>(c: Codec<T>, files: map<string, File>, names: seq<string>, readable: string -> bool)
    : seq<Letter<T>>
  {
    if names == [] then []
    else
      var last := |names| - 1;
      Yields(c, files, names[..last], readable) + Yield(c, files, names[last], last, readable)
  }

  lemma YieldsStep<T>(c: Codec<T>, files: map<string, File>, names: seq<string>, i: nat, readable: string -> bool)
    requires i < |names|
    ensures Yields(c, files, names[..i + 1], readable)
         == Yields(c, files, names[..i], readable) + Yield(c, files, names[i], i, readable)
  {
    assert names[..i + 1][..i] == names[..i];
  }

  ghost predicate IsListing(names: seq<string>, files: map<string, File>) {
    && (forall i, j :: 0 <= i < j < |names| ==> names[i] != names[j])
    && (forall n :: n in names <==> n in files)
  }

  // How much of a body a failed write got down.
  function Reached(body: Blob, reached: nat): (k: nat)
    ensures k <= |body|
  {
    if reached <= |body| then reached else |body|
  }

  /** What one write leaves in the directory: the whole letter under its own name, or at most a temporary file. */
  function Published<T>(c: Codec<T>, files: map<string, File>, letter: Letter<T>, luck: WriteLuck): map<string, File> {
    var body := c.encode(letter.item);
    var temp := TempName(c.id(letter.item));
    match luck
    case WriteFails(reached) => files[temp := File(body[..Reached(body, reached)], letter.tag)]
    case Fine => (files - {temp})[FinalName(c.id(letter.item)) := File(body, letter.tag)]
    case _ => files - {temp}
  }

  function WriteStep<T>(luck: WriteLuck): Mailbox.Step<T> {
    match luck
    case WriteFails(_) => Abort(false)
    case Fine => Publish
    case _ => Abort(true)
  }

  function PartReached<T>(c: Codec<T>, letter: Letter<T>, luck: WriteLuck): nat {
    var body := c.encode(letter.item);
    if luck.WriteFails? then Reached(body, luck.reached) else |body|
  }

  /** A write nobody interrupts is three steps of the mailbox. */
  lemma {:induction false} WriteIsSteps<T>(c: Codec<T>, b: Box<T>, letter: Letter<T>, luck: WriteLuck)
    requires b.job == Some(letter) && SafeId(c.id(letter.item))
    ensures Apply(c, Apply(c, b, Part(PartReached(c, letter, luck))), WriteStep(luck))
         == b.(job := None, files := Published(c, b.files, letter, luck),
               sent := if luck.Fine? then b.sent[letter.tag := letter.item] else b.sent)
  {
    var body := c.encode(letter.item);
    var temp := TempName(c.id(letter.item));
    assert body[..|body|] == body;
    assert b.files[temp := File(body, letter.tag)] - {temp} == b.files - {temp};
  }

  class Directory<T(!new)> {
    const c: Codec<T>
    var files: map<string, File>

    constructor (c: Codec<T>)
      ensures this.c == c && files == map[]
    {
      this.c := c;
      files := map[];
    }

    /** Publish under the letter's own name, or touch nothing but the temporary file. */
    method WriteAtomic(letter: Letter<T>, luck: WriteLuck) returns (ok: bool)
      requires SafeId(c.id(letter.item))
      modifies this
      ensures ok <==> luck.Fine?
      ensures files == Published(c, old(files), letter, luck)
      ensures var temp := TempName(c.id(letter.item));
        var whole := File(c.encode(letter.item), letter.tag);
        files - {temp} == (if ok then old(files)[FinalName(c.id(letter.item)) := whole] else old(files)) - {temp}
      ensures !luck.WriteFails? ==> TempName(c.id(letter.item)) !in files
    {
      NamesAreDistinct(c.id(letter.item), c.id(letter.item));
      var path := FinalName(c.id(letter.item));
      var temp := path + ".tmp";
      var body := c.encode(letter.item);
      if luck.WriteFails? {
        files := files[temp := File(body[..Reached(body, luck.reached)], letter.tag)];
        return false;
      }
      files := files[temp := File(body, letter.tag)];
      if luck.ChmodFails? {
        files := files - {temp};
        return false;
      }
      if luck.RenameFails? {
        files := files - {temp};
        return false;
      }
      files := (files - {temp})[path := files[temp]];
      return true;
    }

    /** Reads and removes every pending letter, whatever order the directory lists them in. */
    method TakeAll(entries: seq<string>, readable: string -> bool) returns (letters: seq<Letter<T>>)
      requires IsListing(entries, files)
      modifies this
      ensures letters == Yields(c, old(files), entries, readable) && Unfinished(old(files), files)
    {
      letters := [];
      for i := 0 to |entries|
        invariant letters == Yields(c, old(files), entries[..i], readable)
        invariant Left(old(files), files, entries[..i])
      {
        var name := entries[i];
        YieldsStep(c, old(files), entries, i, readable);
        assert name in entries && name !in entries[..i];
        assert name in old(files) && name in files && files[name] == old(files)[name];
        LeftStep(old(files), files, entries, i);
        if IsFinal(name) {
          var held := if readable(name) then Got(files[name]) else Unreadable;
          files := files - {name};
          var kept := Kept(c, i, held);
          if kept.Some? { letters := letters + [kept.value]; }
        }
      }
      assert entries[..|entries|] == entries;
    }
  }

  // What is left once the finished files among `seen` are gone.
  ghost predicate Left(before: map<string, File>, now: map<string, File>, seen: seq<string>) {
    && (forall n :: n in now <==> n in before && !(IsFinal(n) && n in seen))
    && (forall n :: n in now ==> now[n] == before[n])
  }

  lemma LeftStep(before: map<string, File>, now: map<string, File>, entries: seq<string>, i: nat)
    requires i < |entries| && Left(before, now, entries[..i])
    ensures Left(before, if IsFinal(entries[i]) then now - {entries[i]} else now, entries[..i + 1])
  {
    assert entries[..i + 1] == entries[..i] + [entries[i]];
  }

  // The entries still ahead of the reader are as they were listed.
  ghost predicate Ahead<T>(b: Box<T>, start: map<string, File>) {
    b.reader.Taking? && forall i :: b.reader.at <= i < |b.reader.names| ==>
      && b.reader.names[i] in b.files && b.reader.names[i] in start
      && b.files[b.reader.names[i]] == start[b.reader.names[i]]
  }

  lemma OneEntryYields<T(!new)>(c: Codec<T>, b: Box<T>, start: map<string, File>, readable: string -> bool)
    requires AtEntry(b) && b.reader.held == Unread && IsListing(b.reader.names, start) && Ahead(b, start)
    ensures var after := TakeEntry(c, b, readable);
      && after.reader.Taking?
      && after.reader.batch == b.reader.batch + Yield(c, start, b.reader.names[b.reader.at], b.reader.at, readable)
      && Ahead(after, start)
  {
    var names, at := b.reader.names, b.reader.at;
    assert names[at] in names;
    var after := TakeEntry(c, b, readable);
    assert b.reader.batch + [] == b.reader.batch;
    assert forall i :: at < i < |names| ==> names[i] != names[at];
  }

  /** Uninterrupted, the loop over the listing is the run of its steps. */
  lemma {:induction false} TakeRestYields<T(!new)>(c: Codec<T>, b: Box<T>, start: map<string, File>,
                                                   readable: string -> bool)
    requires b.reader.Taking? && b.reader.held == Unread && b.reader.at <= |b.reader.names|
    requires IsListing(b.reader.names, start) && Ahead(b, start)
    requires b.reader.batch == Yields(c, start, b.reader.names[..b.reader.at], readable)
    ensures var after := TakeRest(c, b, readable);
      && Finished(after) && after.reader.batch == Yields(c, start, b.reader.names, readable)
    decreases if b.reader.Taking? then |b.reader.names| - b.reader.at else 0
  {
    var names, at := b.reader.names, b.reader.at;
    if at == |names| {
      assert names[..at] == names;
    } else {
      assert names[..at + 1][..at] == names[..at];
      OneEntryOn(c, b, readable);
      OneEntryYields(c, b, start, readable);
      TakeRestYields(c, TakeEntry(c, b, readable), start, readable);
    }
  }

  lemma OneEntryLeaves<T>(c: Codec<T>, b: Box<T>, start: map<string, File>, readable: string -> bool)
    requires AtEntry(b) && b.reader.held == Unread && Left(start, b.files, b.reader.names[..b.reader.at])
    ensures Left(start, TakeEntry(c, b, readable).files, b.reader.names[..b.reader.at + 1])
  {
    LeftStep(start, b.files, b.reader.names, b.reader.at);
  }

  /** And it leaves the directory without its finished files. */
  lemma {:induction false} TakeRestLeaves<T>(c: Codec<T>, b: Box<T>, start: map<string, File>, readable: string -> bool)
    requires b.reader.Taking? && b.reader.held == Unread && b.reader.at <= |b.reader.names|
    requires Left(start, b.files, b.reader.names[..b.reader.at])
    ensures Left(start, TakeRest(c, b, readable).files, b.reader.names)
    decreases if b.reader.Taking? then |b.reader.names| - b.reader.at else 0
  {
    if b.reader.at == |b.reader.names| {
      assert b.reader.names[..b.reader.at] == b.reader.names;
    } else {
      OneEntryOn(c, b, readable);
      OneEntryLeaves(c, b, start, readable);
      TakeRestLeaves(c, TakeEntry(c, b, readable), start, readable);
    }
  }

  /** Exactly the files that are not finished ones. */
  ghost predicate Unfinished(before: map<string, File>, now: map<string, File>) {
    && (forall n :: n in now <==> n in before && !IsFinal(n))
    && (forall n :: n in now ==> now[n] == before[n])
  }

  /** A whole undisturbed pass over the listing, in the state machine: what it hands over and what it leaves. */
  lemma ListingIsTaken<T(!new)>(c: Codec<T>, b: Box<T>, entries: seq<string>, readable: string -> bool)
    requires b.reader.Off? && IsListing(entries, b.files)
    ensures var listed := b.(reader := Taking(entries, 0, Unread, []));
      var after := TakeRest(c, listed, readable);
      && Apply(c, b, List(entries)) == listed && Finished(after)
      && after.reader.batch == Yields(c, b.files, entries, readable) && Unfinished(b.files, after.files)
  {
    assert entries[..0] == [];
    TakeRestYields(c, b.(reader := Taking(entries, 0, Unread, [])), b.files, readable);
    TakeRestLeaves(c, b.(reader := Taking(entries, 0, Unread, [])), b.files, readable);
  }

  /** This entry of the listing is a finished, readable file that holds this letter, and not too far down. */
  ghost predicate Holds<T>(c: Codec<T>, files: map<string, File>, names: seq<string>, i: nat, readable: string -> bool,
                           l: Letter<T>)
    requires i < |names|
  {
    && IsFinal(names[i]) && names[i] in files && readable(names[i]) && (c.cap.Some? ==> i < c.cap.value)
    && Bearable(files[names[i]].body) && files[names[i]].tag == l.tag && c.decode(files[names[i]].body) == Some(l.item)
  }

  lemma HeldIsYielded<T>(c: Codec<T>, files: map<string, File>, names: seq<string>, i: nat, readable: string -> bool,
                         l: Letter<T>)
    requires i < |names|
    ensures l in Yield(c, files, names[i], i, readable) <==> Holds(c, files, names, i, readable, l)
  {
  }

  /** A letter is handed over exactly when some entry of the listing holds it; never more than the cap. */
  lemma {:induction false} YieldsExactly<T(!new)>(c: Codec<T>, files: map<string, File>, names: seq<string>,
                                                  readable: string -> bool, l: Letter<T>)
    ensures l in Yields(c, files, names, readable) <==>
              exists i :: 0 <= i < |names| && Holds(c, files, names, i, readable, l)
    ensures c.cap.Some? ==> |Yields(c, files, names, readable)| <= c.cap.value
    ensures |Yields(c, files, names, readable)| <= |names|
  {
    if names != [] {
      var last := |names| - 1;
      YieldsExactly(c, files, names[..last], readable, l);
      HeldIsYielded(c, files, names, last, readable, l);
      forall i | 0 <= i < last
        ensures Holds(c, files, names, i, readable, l) <==> Holds(c, files, names[..last], i, readable, l)
      {
      }
    }
  }
}
