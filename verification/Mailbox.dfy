/**
 One direction of the spool: a directory that one process publishes into and another takes from.

 The writer writes a temporary file and renames it; the reader lists, reads and removes. Either may
 die at any step, and a reboot wipes the directory. Tags are history: they tell two letters with
 the same id apart, and no process ever looks at them.
 */
module Mailbox {

  import opened Wrappers
  import opened Bytes
  import opened Spool

  datatype Codec<!T> = Codec(encode: T -> Blob, decode: Blob -> Option<T>, id: T -> string, cap: Option<nat>)

  ghost predicate RoundTrips<T(!new)>(c: Codec<T>) {
    forall x: T :: c.decode(c.encode(x)) == Some(x)
  }

  datatype Letter<T> = Letter(tag: nat, item: T)

  datatype File = File(body: Blob, tag: nat)

  datatype Held = Unread | Unreadable | Got(file: File)

  // The reader works through the names it listed; `batch` is what it has taken so far.
  datatype Reader<T> = Off | Taking(names: seq<string>, at: nat, held: Held, batch: seq<Letter<T>>)

  // `sent` and `taken` are history: what was ever published, and what was ever removed by the
  // reader and kept. `issued` are the tags ever begun.
  datatype Box<T> = Box(
    files: map<string, File>, job: Option<Letter<T>>, reader: Reader<T>,
    sent: map<nat, T>, taken: seq<Letter<T>>, issued: set<nat>)

  function Empty<T>(): Box<T> {
    Box(map[], None, Off, map[], [], {})
  }

  datatype Step<T> =
    | Begin(letter: Letter<T>)      // the writer takes up a letter
    | Part(k: nat)                  // some first part of it is in the temporary file
    | Abort(removeTemp: bool)       // a failed write leaves the temporary file, a failed rename does not
    | Publish                       // the rename
    | List(names: seq<string>)      // the reader lists the directory, in some order
    | Skip                          // an entry that is not a finished file
    | Read(ok: bool)
    | Remove                        // taken, whatever happens next
    | Return                        // the listing is exhausted
    | WriterDies
    | ReaderDies
    | Wipe

  // What one capped read of a file delivers: something, and not too much.
  predicate Bearable(body: Blob) {
    0 < |body| <= MAX_FILE_BYTES
  }

  // Is this entry kept, once removed? `index` counts every entry listed, finished file or not.
  function Kept<T>(c: Codec<T>, index: nat, held: Held): Option<Letter<T>> {
    if c.cap.Some? && index >= c.cap.value then None
    else match held
      case Got(file) =>
        if !Bearable(file.body) then None
        else (match c.decode(file.body)
              case None => None
              case Some(item) => Some(Letter(file.tag, item)))
      case _ => None
  }

  function Apply<T>(c: Codec<T>, b: Box<T>, s: Step<T>): Box<T> {
    match s
    case Begin(letter) =>
      if b.job == None && SafeId(c.id(letter.item))
      then b.(job := Some(letter), issued := b.issued + {letter.tag}) else b
    case Part(k) =>
      if b.job.Some? && k <= |c.encode(b.job.value.item)|
      then
        var l := b.job.value;
        b.(files := b.files[TempName(c.id(l.item)) := File(c.encode(l.item)[..k], l.tag)])
      else b
    case Abort(removeTemp) =>
      if b.job.Some?
      then b.(job := None, files := if removeTemp then b.files - {TempName(c.id(b.job.value.item))} else b.files) else b
    case Publish =>
      if b.job.Some? && ReadyToPublish(c, b) then
        var l := b.job.value;
        var temp := TempName(c.id(l.item));
        b.(job := None, files := (b.files - {temp})[FinalName(c.id(l.item)) := b.files[temp]],
           sent := b.sent[l.tag := l.item])
      else b
    case List(names) =>
      if b.reader.Off? && (forall n :: n in names ==> n in b.files) && (forall n :: n in b.files ==> n in names)
      then b.(reader := Taking(names, 0, Unread, [])) else b
    case Skip =>
      if AtEntry(b) && !IsFinal(b.reader.names[b.reader.at])
      then b.(reader := b.reader.(at := b.reader.at + 1)) else b
    case Read(ok) =>
      if AtEntry(b) && IsFinal(b.reader.names[b.reader.at]) && b.reader.held == Unread
      then
        var name := b.reader.names[b.reader.at];
        b.(reader := b.reader.(held := if ok && name in b.files then Got(b.files[name]) else Unreadable))
      else b
    case Remove =>
      if AtEntry(b) && b.reader.held != Unread then
        var kept := Kept(c, b.reader.at, b.reader.held);
        var more := if kept == None then [] else [kept.value];
        b.(files := b.files - {b.reader.names[b.reader.at]}, taken := b.taken + more,
           reader := Taking(b.reader.names, b.reader.at + 1, Unread, b.reader.batch + more))
      else b
    case Return => if Finished(b) then b.(reader := Off) else b
    case WriterDies => b.(job := None)
    case ReaderDies => b.(reader := Off)
    case Wipe => b.(job := None, reader := Off, files := map[])
  }

  // The temporary file holds the whole letter.
  predicate ReadyToPublish<T>(c: Codec<T>, b: Box<T>)
    requires b.job.Some?
  {
    var l := b.job.value;
    var temp := TempName(c.id(l.item));
    temp in b.files && b.files[temp] == File(c.encode(l.item), l.tag)
  }

  predicate AtEntry<T>(b: Box<T>) {
    b.reader.Taking? && b.reader.at < |b.reader.names|
  }

  predicate Finished<T>(b: Box<T>) {
    b.reader.Taking? && b.reader.at == |b.reader.names|
  }

  ghost function Run<T>(c: Codec<T>, b: Box<T>, steps: seq<Step<T>>): Box<T> {
    if steps == [] then b else Apply(c, Run(c, b, steps[..|steps| - 1]), steps[|steps| - 1])
  }

  // ----- what every step keeps -----

  ghost function Tags<T>(ls: seq<Letter<T>>): set<nat> {
    set l | l in ls :: l.tag
  }

  ghost predicate DistinctTags<T>(ls: seq<Letter<T>>) {
    forall i, j :: 0 <= i < j < |ls| ==> ls[i].tag != ls[j].tag
  }

  /** A finished file: the whole of one published letter, under that letter's own name. */
  ghost predicate Whole<T>(c: Codec<T>, sent: map<nat, T>, name: string, file: File) {
    && file.tag in sent && SafeId(c.id(sent[file.tag]))
    && name == FinalName(c.id(sent[file.tag])) && file.body == c.encode(sent[file.tag])
  }

  ghost predicate FilesWhole<T>(c: Codec<T>, b: Box<T>) {
    forall n :: n in b.files && IsFinal(n) ==> Whole(c, b.sent, n, b.files[n]) && b.files[n].tag !in Tags(b.taken)
  }

  ghost predicate TakenOnce<T>(b: Box<T>) {
    && DistinctTags(b.taken)
    && (forall l :: l in b.taken ==> l.tag in b.sent && b.sent[l.tag] == l.item)
  }

  ghost predicate JobFresh<T>(c: Codec<T>, b: Box<T>) {
    && (forall tag :: tag in b.sent ==> tag in b.issued && SafeId(c.id(b.sent[tag])))
    && (b.job.Some? ==> b.job.value.tag in b.issued && b.job.value.tag !in b.sent && SafeId(c.id(b.job.value.item)))
  }

  ghost predicate ReaderRight<T>(c: Codec<T>, b: Box<T>) {
    b.reader.Taking? ==>
      && b.reader.at <= |b.reader.names|
      && DistinctTags(b.reader.batch) && (forall l :: l in b.reader.batch ==> l in b.taken)
      && (b.reader.held != Unread ==> AtEntry(b) && IsFinal(b.reader.names[b.reader.at]))
      && (b.reader.held.Got? ==>
            && Whole(c, b.sent, b.reader.names[b.reader.at], b.reader.held.file)
            && b.reader.held.file.tag !in Tags(b.taken))
  }

  ghost predicate Good<T>(c: Codec<T>, b: Box<T>) {
    FilesWhole(c, b) && TakenOnce(b) && JobFresh(c, b) && ReaderRight(c, b)
  }

  lemma PublishKeeps<T(!new)>(c: Codec<T>, b: Box<T>)
    requires Good(c, b) && b.job.Some? && ReadyToPublish(c, b)
    ensures Good(c, Apply(c, b, Publish))
  {
    var l := b.job.value;
    var id := c.id(l.item);
    var after := Apply(c, b, Publish);
    NamesAreDistinct(id, id);
    assert l.tag !in Tags(b.taken);
    forall n | n in after.files && IsFinal(n)
      ensures Whole(c, after.sent, n, after.files[n]) && after.files[n].tag !in Tags(after.taken)
    {
      if n != FinalName(id) { assert n in b.files && b.files[n] == after.files[n]; }
    }
  }

  lemma PartKeeps<T(!new)>(c: Codec<T>, b: Box<T>, k: nat)
    requires Good(c, b)
    ensures Good(c, Apply(c, b, Part(k)))
  {
    if b.job.Some? { NamesAreDistinct(c.id(b.job.value.item), c.id(b.job.value.item)); }
  }

  // The letter held is the one that was sent, and once its file is gone it is nowhere on disk.
  lemma RemoveKeeps<T(!new)>(c: Codec<T>, b: Box<T>)
    requires RoundTrips(c) && Good(c, b) && Takes(b, Remove)
    ensures Good(c, Apply(c, b, Remove))
  {
    var after := Apply(c, b, Remove);
    var kept := Kept(c, b.reader.at, b.reader.held);
    if kept.Some? {
      var file := b.reader.held.file;
      assert kept.value == Letter(file.tag, b.sent[file.tag]);
      assert Tags(after.taken) == Tags(b.taken) + {file.tag};
      assert forall l :: l in b.taken ==> l.tag in Tags(b.taken);
      assert forall l :: l in b.reader.batch ==> l.tag in Tags(b.taken);
      forall n | n in after.files && IsFinal(n) ensures after.files[n].tag != file.tag {
        assert Whole(c, b.sent, n, b.files[n]);
      }
    } else {
      assert after.taken == b.taken;
      assert after.reader.batch == b.reader.batch;
    }
  }

  lemma StepKeepsGood<T(!new)>(c: Codec<T>, b: Box<T>, s: Step<T>)
    requires RoundTrips(c) && Good(c, b)
    requires s.Begin? ==> s.letter.tag !in b.issued
    ensures Good(c, Apply(c, b, s))
  {
    match s
    case Part(k) => PartKeeps(c, b, k);
    case Publish => if b.job.Some? && ReadyToPublish(c, b) { PublishKeeps(c, b); }
    case Remove => if Takes(b, s) { RemoveKeeps(c, b); }
    case _ =>
  }

  // What a step does to the parts other processes depend on; only `Remove` takes, only `Begin` issues.
  ghost predicate Moved<T>(b: Box<T>, after: Box<T>) {
    && after.taken == b.taken
    && (after.sent == b.sent || (b.job.Some? && after.sent == b.sent[b.job.value.tag := b.job.value.item]))
    && (after.reader.Taking? ==>
          after.reader.batch == [] || (b.reader.Taking? && after.reader.batch == b.reader.batch))
  }

  // Does this step remove a file?
  predicate Takes<T>(b: Box<T>, s: Step<T>) {
    s.Remove? && AtEntry(b) && b.reader.held != Unread
  }

  lemma StepMoves<T>(c: Codec<T>, b: Box<T>, s: Step<T>)
    requires !Takes(b, s)
    ensures var after := Apply(c, b, s);
      && Moved(b, after)
      && (!s.Begin? ==> after.issued == b.issued && (after.job == b.job || after.job == None))
      && (after.reader.Taking? ==> b.reader.Taking? || s.List?)
  {
  }

  ghost predicate FreshTags<T>(c: Codec<T>, b: Box<T>, steps: seq<Step<T>>) {
    forall i :: 0 <= i < |steps| && steps[i].Begin? ==> steps[i].letter.tag !in Run(c, b, steps[..i]).issued
  }

  /**
   Atomic publication and taking once, over every interleaving of the writer, the reader, crashes
   and reboots: every name ending in ".json" holds one whole published letter under its own
   name; everything taken is exactly what was sent; and nothing taken is taken again or still on disk.
   */
  lemma {:induction false} EveryRunIsGood<T(!new)>(c: Codec<T>, steps: seq<Step<T>>)
    requires RoundTrips(c) && FreshTags(c, Empty(), steps)
    ensures Good(c, Run(c, Empty(), steps))
  {
    if steps != [] {
      var front := steps[..|steps| - 1];
      forall i | 0 <= i < |front| && front[i].Begin?
        ensures front[i].letter.tag !in Run(c, Empty<T>(), front[..i]).issued
      {
        assert front[..i] == steps[..i];
      }
      EveryRunIsGood(c, front);
      StepKeepsGood(c, Run(c, Empty(), front), steps[|steps| - 1]);
    }
  }

  // ----- and a letter gets through -----

  lemma LetterIsSent<T>(c: Codec<T>, b: Box<T>, l: Letter<T>)
    requires b.job == Some(l) && b.files == map[] && SafeId(c.id(l.item))
    ensures var file := File(c.encode(l.item), l.tag);
      && Apply(c, b, Part(|c.encode(l.item)|)) == b.(files := map[TempName(c.id(l.item)) := file])
      && Apply(c, b.(files := map[TempName(c.id(l.item)) := file]), Publish)
           == b.(job := None, files := map[FinalName(c.id(l.item)) := file], sent := b.sent[l.tag := l.item])
  {
    NamesAreDistinct(c.id(l.item), c.id(l.item));
    var body := c.encode(l.item);
    assert body[..|body|] == body;
  }

  lemma LetterIsTaken<T(!new)>(c: Codec<T>, b: Box<T>, l: Letter<T>, name: string)
    requires RoundTrips(c) && b.reader.Off? && IsFinal(name) && (c.cap.Some? ==> c.cap.value > 0)
    requires b.files == map[name := File(c.encode(l.item), l.tag)] && Bearable(c.encode(l.item))
    ensures var listed := b.(reader := Taking([name], 0, Unread, []));
      var read := b.(reader := Taking([name], 0, Got(b.files[name]), []));
      && Apply(c, b, List([name])) == listed && Apply(c, listed, Read(true)) == read
      && Apply(c, read, Remove) == b.(files := map[], taken := b.taken + [l], reader := Taking([name], 1, Unread, [l]))
  {
    var read := b.(reader := Taking([name], 0, Got(b.files[name]), []));
    assert Kept(c, 0, read.reader.held) == Some(l);
    assert b.files - {name} == map[] && [] + [l] == [l];
  }

  // A file that cannot be read is removed all the same.
  lemma LetterIsLost<T>(c: Codec<T>, b: Box<T>, name: string)
    requires b.reader.Off? && IsFinal(name) && b.files.Keys == {name}
    ensures var listed := b.(reader := Taking([name], 0, Unread, []));
      var read := b.(reader := Taking([name], 0, Unreadable, []));
      && Apply(c, b, List([name])) == listed && Apply(c, listed, Read(false)) == read
      && Apply(c, read, Remove) == b.(files := map[], reader := Taking([name], 1, Unread, []))
  {
    var read := b.(reader := Taking([name], 0, Unreadable, []));
    assert forall n :: n in b.files <==> n in [name];
    assert Kept(c, 0, read.reader.held) == None;
    assert name in b.files && b.files - {name} == map[] && b.taken + [] == b.taken;
    assert Apply(c, read, Remove).reader == Taking([name], 1, Unread, []);
  }

  // ----- what is gone stays gone -----

  /** Nothing is left of this letter but its tag: no file, no hand holds it, and it was never taken. */
  ghost predicate Gone<T>(b: Box<T>, tag: nat) {
    && tag in b.issued && tag !in Tags(b.taken)
    && (b.job.Some? ==> b.job.value.tag != tag)
    && (forall n :: n in b.files ==> b.files[n].tag != tag)
    && (b.reader.Taking? && b.reader.held.Got? ==> b.reader.held.file.tag != tag)
  }

  lemma StepKeepsGone<T>(c: Codec<T>, b: Box<T>, s: Step<T>, tag: nat)
    requires Gone(b, tag) && (s.Begin? ==> s.letter.tag != tag)
    ensures Gone(Apply(c, b, s), tag)
  {
  }
}
