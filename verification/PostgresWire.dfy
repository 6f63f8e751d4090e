/**
 The PostgreSQL simple-query protocol as the agent speaks it: framing, DataRow decoding, error
 messages, startup and the loop over one reply, against encoders written from the PostgreSQL 16
 documentation (section 55.2.2 "Simple Query", section 55.7 "Message Formats").
 */
module PostgresWire {

  import opened Wrappers
  import opened Bytes
  import opened Fields

  const MAX_MESSAGE: nat := 0x10_0000
  const TWO_TO_31: nat := 0x8000_0000
  const TWO_TO_32: nat := 0x1_0000_0000

  const AUTHENTICATION: byte := 82    // 'R'
  const DATA_ROW: byte := 68          // 'D'
  const ERROR_RESPONSE: byte := 69    // 'E'
  const READY_FOR_QUERY: byte := 90   // 'Z'
  const QUERY: byte := 81             // 'Q'
  const MESSAGE_FIELD: byte := 77     // 'M'

  lemma Powers()
    ensures Pow256(2) == 0x1_0000 && Pow256(4) == TWO_TO_32
  {
  }

  // ----- rows -----

  // A 32-bit size read as signed: negative from 2^31 on, which is how NULL is sent.
  predicate IsNull(size: nat) {
    size >= TWO_TO_31
  }

  function ParseFields(b: Blob, count: nat): Option<seq<Blob>> {
    if count == 0 then Some([])
    else if |b| < 4 then None
    else
      var size := FromBig(b[..4]);
      if IsNull(size) then Prefixed([], ParseFields(b[4..], count - 1))
      else if |b| - 4 < size then None
      else Prefixed(b[4..4 + size], ParseFields(b[4 + size..], count - 1))
  }

  function ParseDataRow(payload: Blob): Option<seq<Blob>> {
    if |payload| < 2 then None else ParseFields(payload[2..], FromBig(payload[..2]))
  }

  method DecodeDataRow(payload: Blob) returns (row: Option<seq<Blob>>)
    ensures row == ParseDataRow(payload)
  {
    if |payload| < 2 { return None; }
    var count := FromBig(payload[..2]);
    var fields: seq<Blob>, rest := [], payload[2..];
    AfterNothing(ParseFields(rest, count));
    for i := 0 to count
      invariant ParseDataRow(payload) == After(fields, ParseFields(rest, count - i))
    {
      if |rest| < 4 { return None; }
      var size := FromBig(rest[..4]);
      var value := rest[4..];
      if IsNull(size) {
        AfterPrefixed(fields, [], ParseFields(value, count - i - 1));
        fields := fields + [[]];
        rest := value;
        continue;
      }
      if |value| < size { return None; }
      assert value[..size] == rest[4..4 + size] && value[size..] == rest[4 + size..];
      AfterPrefixed(fields, value[..size], ParseFields(value[size..], count - i - 1));
      fields := fields + [value[..size]];
      rest := value[size..];
    }
    assert fields + [] == fields;
    return Some(fields);
  }

  predicate Encodable(row: seq<Field>) {
    |row| < 0x1_0000 && forall i :: 0 <= i < |row| ==> |Text(row[i])| < TWO_TO_31
  }

  function EncodeField(f: Field): Blob
    requires |Text(f)| < TWO_TO_31
  {
    if f == None then ToBig(TWO_TO_32 - 1, 4) else ToBig(|f.value|, 4) + f.value
  }

  function EncodeFields(row: seq<Field>): Blob
    requires Encodable(row)
  {
    if row == [] then [] else EncodeField(row[0]) + EncodeFields(row[1..])
  }

  function EncodeDataRow(row: seq<Field>): Blob
    requires Encodable(row)
  {
    ToBig(|row|, 2) + EncodeFields(row)
  }

  lemma FieldIsRead(f: Field, rest: Blob, count: nat)
    requires |Text(f)| < TWO_TO_31
    ensures ParseFields(EncodeField(f) + rest, count + 1) == Prefixed(Text(f), ParseFields(rest, count))
  {
    Powers();
    var size := if f == None then TWO_TO_32 - 1 else |f.value|;
    var b := EncodeField(f) + rest;
    BigRoundTrip(size, 4);
    assert b[..4] == ToBig(size, 4);
    if f == None {
      assert b[4..] == rest;
    } else {
      assert b[4..4 + size] == f.value && b[4 + size..] == rest;
    }
  }

  lemma {:induction false} FieldsAreRead(row: seq<Field>, rest: Blob)
    requires Encodable(row)
    ensures ParseFields(EncodeFields(row) + rest, |row|) == Some(Texts(row))
  {
    if row != [] {
      FieldsAreRead(row[1..], rest);
      assert EncodeFields(row) + rest == EncodeField(row[0]) + (EncodeFields(row[1..]) + rest);
      FieldIsRead(row[0], EncodeFields(row[1..]) + rest, |row| - 1);
    }
  }

  /** A row is read back value by value, NULL as the empty text. */
  lemma DataRowRoundTrip(row: seq<Field>)
    requires Encodable(row)
    ensures ParseDataRow(EncodeDataRow(row)) == Some(Texts(row))
  {
    Powers();
    var b := EncodeDataRow(row);
    BigRoundTrip(|row|, 2);
    assert b[..2] == ToBig(|row|, 2) && b[2..] == EncodeFields(row);
    FieldsAreRead(row, []);
    assert EncodeFields(row) + [] == EncodeFields(row);
  }

  // ----- error messages -----

  const FALLBACK: Option<Blob> := None   // "the database refused the request"

  function ZeroAt(b: Blob): (end: nat)
    ensures end <= |b| && (forall i :: 0 <= i < end ==> b[i] != 0) && (end < |b| ==> b[end] == 0)
  {
    if b == [] || b[0] == 0 then 0 else 1 + ZeroAt(b[1..])
  }

  /** The text of the first message field, or the fallback. */
  function MessageIn(b: Blob): Option<Blob>
    decreases |b|
  {
    if b == [] || b[0] == 0 then FALLBACK
    else
      var end := ZeroAt(b[1..]);
      if b[0] == MESSAGE_FIELD then Some(b[1..][..end])
      else if end + 1 > |b[1..]| then FALLBACK
      else MessageIn(b[1..][end + 1..])
  }

  method ErrorMessage(payload: Blob) returns (text: Option<Blob>)
    ensures text == MessageIn(payload)
  {
    var rest := payload;
    while |rest| > 0 && rest[0] != 0
      invariant MessageIn(payload) == MessageIn(rest)
      decreases |rest|
    {
      var code := rest[0];
      var value := rest[1..];
      var end := 0;
      while end < |value| && value[end] != 0
        invariant end <= |value| && end <= ZeroAt(value)
      {
        end := end + 1;
      }
      assert end == ZeroAt(value);
      if code == MESSAGE_FIELD { return Some(value[..end]); }
      if end + 1 > |value| { return FALLBACK; }
      rest := value[end + 1..];
    }
    return FALLBACK;
  }

  datatype ErrorField = ErrorField(code: byte, text: Blob)

  predicate GoodFields(fields: seq<ErrorField>) {
    forall i :: 0 <= i < |fields| ==> fields[i].code != 0 && 0 !in fields[i].text
  }

  function EncodeError(fields: seq<ErrorField>): Blob {
    if fields == [] then [0] else [fields[0].code] + fields[0].text + [0] + EncodeError(fields[1..])
  }

  function FirstMessage(fields: seq<ErrorField>): Option<Blob> {
    if fields == [] then FALLBACK
    else if fields[0].code as int == 'M' as int then Some(fields[0].text)
    else FirstMessage(fields[1..])
  }

  lemma {:induction false} ZeroEnds(text: Blob, rest: Blob)
    requires 0 !in text
    ensures ZeroAt(text + [0] + rest) == |text|
  {
    var b := text + [0] + rest;
    var end := ZeroAt(b);
    assert b[|text|] == 0;
    assert forall i :: 0 <= i < |text| ==> b[i] == text[i];
  }

  lemma ErrorFieldIsRead(code: byte, text: Blob, others: Blob)
    requires code != 0 && 0 !in text
    ensures MessageIn([code] + text + [0] + others)
         == if code as int == 'M' as int then Some(text) else MessageIn(others)
  {
    var b, value := [code] + text + [0] + others, text + [0] + others;
    assert b[1..] == value;
    ZeroEnds(text, others);
    assert value[..|text|] == text && value[|text| + 1..] == others;
  }

  /** The message shown is the first message field of the ErrorResponse, wherever it stands. */
  lemma {:induction false} ErrorRoundTrip(fields: seq<ErrorField>)
    requires GoodFields(fields)
    ensures MessageIn(EncodeError(fields)) == FirstMessage(fields)
  {
    if fields != [] {
      ErrorRoundTrip(fields[1..]);
      ErrorFieldIsRead(fields[0].code, fields[0].text, EncodeError(fields[1..]));
    }
  }

  // ----- messages -----

  datatype Message = Message(kind: byte, payload: Blob)

  // A size as four bytes hold it.
  function Size(n: nat): (b: Blob)
    ensures |b| == 4
  {
    ToBig(n % TWO_TO_32, 4)
  }

  lemma SizeIsRead(n: nat)
    requires n < TWO_TO_32
    ensures FromBig(Size(n)) == n
  {
    SizeFits(n);
    Powers();
    BigRoundTrip(n, 4);
  }

  lemma SizeFits(n: nat)
    requires n < TWO_TO_32
    ensures Size(n) == ToBig(n, 4)
  {
    assert n % TWO_TO_32 == n;
  }

  function Frame(m: Message): Blob {
    [m.kind] + Size(|m.payload| + 4) + m.payload
  }

  // The next message and what is left unread; nothing if the stream ends or the length is implausible.
  function TakeMessage(s: Blob): (r: (Option<Message>, Blob))
    ensures |r.1| <= |s| && (r.0.Some? ==> |r.1| < |s|)
  {
    if |s| < 5 then (None, [])
    else
      var length := FromBig(s[1..5]);
      if length < 4 || length > MAX_MESSAGE then (None, s[5..])
      else if |s| - 1 < length then (None, [])
      else (Some(Message(s[0], s[5..1 + length])), s[1 + length..])
  }

  predicate Fits(m: Message) {
    |m.payload| + 4 <= MAX_MESSAGE
  }

  lemma Slices(kind: byte, size: Blob, payload: Blob, rest: Blob)
    requires |size| == 4
    ensures var s := [kind] + size + payload + rest;
      s[0] == kind && s[1..5] == size && s[5..5 + |payload|] == payload && s[5 + |payload|..] == rest
  {
  }

  lemma MessageRoundTrip(m: Message, rest: Blob)
    requires Fits(m)
    ensures TakeMessage(Frame(m) + rest) == (Some(m), rest)
  {
    SizeIsRead(|m.payload| + 4);
    IsTaken(m, Size(|m.payload| + 4), rest);
  }

  lemma IsTaken(m: Message, size: Blob, rest: Blob)
    requires |size| == 4 && FromBig(size) == |m.payload| + 4 && Fits(m)
    ensures TakeMessage([m.kind] + size + m.payload + rest) == (Some(m), rest)
  {
    Slices(m.kind, size, m.payload, rest);
  }

  function Frames(ms: seq<Message>): Blob {
    if ms == [] then [] else Frame(ms[0]) + Frames(ms[1..])
  }

  // ----- a query -----

  datatype Error = Lost | Undecodable | Server(message: Option<Blob>)

  datatype Result = Rows(rows: seq<seq<Blob>>) | Failed(error: Error)

  // What the loop remembers between messages.
  datatype Memory = Memory(rows: seq<seq<Blob>>, error: Option<Error>)

  function Noted(m: Message, memory: Memory): Memory {
    if m.kind == DATA_ROW then
      match ParseDataRow(m.payload)
      case None => memory.(error := Some(Undecodable))
      case Some(row) => memory.(rows := memory.rows + [row])
    else if m.kind == ERROR_RESPONSE then memory.(error := Some(Server(MessageIn(m.payload))))
    else memory
  }

  function Concluded(memory: Memory): Result {
    if memory.error == None then Rows(memory.rows) else Failed(memory.error.value)
  }

  /** What a query makes of the stream: its result, and what it leaves unread. */
  function ReadReply(s: Blob, memory: Memory): (Result, Blob)
    decreases |s|
  {
    var (m, rest) := TakeMessage(s);
    if m == None then (Failed(Lost), rest)
    else if m.value.kind == READY_FOR_QUERY then (Concluded(memory), rest)
    else ReadReply(rest, Noted(m.value, memory))
  }

  const NOTHING := Memory([], None)

  // ----- startup -----

  datatype Startup = Ready | Refused

  predicate IsAuthenticationOk(payload: Blob) {
    |payload| >= 4 && FromBig(payload[..4]) == 0
  }

  function ReadStartup(s: Blob): (Startup, Blob)
    decreases |s|
  {
    var (m, rest) := TakeMessage(s);
    if m == None then (Refused, rest)
    else if m.value.kind == AUTHENTICATION then
      if IsAuthenticationOk(m.value.payload) then ReadStartup(rest) else (Refused, rest)
    else if m.value.kind == ERROR_RESPONSE then (Refused, rest)
    else if m.value.kind == READY_FOR_QUERY then (Ready, rest)
    else ReadStartup(rest)
  }

  // "user" and "database", each name and value closed by a zero byte, and one more to end them.
  const USER_KEY: Blob := [117, 115, 101, 114, 0]
  const DATABASE_PAIR: Blob := [100, 97, 116, 97, 98, 97, 115, 101, 0, 112, 111, 115, 116, 103, 114, 101, 115, 0, 0]
  const PROTOCOL: nat := 196608

  function Introduction(user: Blob, others: Blob): Blob {
    Framed(ToBig(PROTOCOL, 4) + USER_KEY + (user + [0] + others))
  }

  // A body after its length, which counts itself.
  function Framed(body: Blob): Blob {
    Size(|body| + 4) + body
  }

  lemma BodyLength(protocol: Blob, key: Blob, user: Blob, others: Blob)
    requires |protocol| == 4 && |key| == 5
    ensures |protocol + key + (user + [0] + others)| == 10 + |user| + |others|
  {
  }

  lemma ParametersAre()
    ensures USER_KEY == Ascii("user") + [0] && DATABASE_PAIR == Ascii("database") + [0] + Ascii("postgres") + [0] + [0]
  {
  }

  lemma ProtocolIs()
    ensures ToBig(PROTOCOL, 4) == [0, 3, 0, 0]
  {
    assert ToBig(3, 2) == [0, 3] && ToBig(768, 3) == [0, 3, 0];
  }

  lemma ProtocolStands(user: Blob, others: Blob)
    ensures |Introduction(user, others)| >= 13
    ensures Introduction(user, others)[4..8] == ToBig(PROTOCOL, 4) && Introduction(user, others)[8..13] == USER_KEY
  {
    var body := ToBig(PROTOCOL, 4) + USER_KEY + (user + [0] + others);
    HeaderSlices(Size(|body| + 4), ToBig(PROTOCOL, 4), USER_KEY, user + [0] + others);
  }

  /** The startup message: its length, protocol 3.0, the user and the database "postgres", each closed by a zero. */
  lemma {:induction false} StartupIsWhole(user: Blob)
    requires 0 !in user && |user| < 0x1_0000
    ensures var s := StartupMessage(user);
      && Introduces(s, user, Ascii("database") + [0] + Ascii("postgres") + [0] + [0])
      && s[4..8] == [0, 3, 0, 0] && s[8..13] == Ascii("user") + [0]
  {
    IntroductionIsWhole(user, DATABASE_PAIR);
    ParametersAre();
    ProtocolIs();
    ProtocolStands(user, DATABASE_PAIR);
  }

  function StartupMessage(user: Blob): Blob {
    Introduction(user, DATABASE_PAIR)
  }

  lemma HeaderSlices(size: Blob, protocol: Blob, key: Blob, tail: Blob)
    requires |size| == 4 && |protocol| == 4 && |key| == 5
    ensures var s := size + (protocol + key + tail);
      s[..4] == size && s[4..8] == protocol && s[8..13] == key && s[13..] == tail
  {
  }

  lemma UpToZero(text: Blob, rest: Blob)
    requires 0 !in text
    ensures var tail := text + [0] + rest;
      && ZeroAt(tail) == |text| < |tail|
      && tail[..ZeroAt(tail)] == text && tail[ZeroAt(tail) + 1..] == rest
  {
    ZeroEnds(text, rest);
  }

  lemma ProtocolIsRead()
    ensures FromBig(ToBig(PROTOCOL, 4)) == PROTOCOL
  {
    Powers();
    BigRoundTrip(PROTOCOL, 4);
  }

  /** What a server reads in a message: its length, the protocol, the first key and value, and the rest. */
  ghost predicate Introduces(s: Blob, user: Blob, others: Blob) {
    && |s| >= 13 && FromBig(s[..4]) == |s| && FromBig(s[4..8]) == PROTOCOL && s[8..13] == USER_KEY
    && var tail := s[13..];
    ZeroAt(tail) < |tail| && tail[..ZeroAt(tail)] == user && tail[ZeroAt(tail) + 1..] == others
  }

  lemma PartsIntroduce(size: Blob, protocol: Blob, key: Blob, user: Blob, others: Blob)
    requires |size| == 4 && |protocol| == 4 && key == USER_KEY && 0 !in user
    requires FromBig(size) == 14 + |user| + |others| && FromBig(protocol) == PROTOCOL
    ensures Introduces(size + (protocol + key + (user + [0] + others)), user, others)
  {
    HeaderSlices(size, protocol, key, user + [0] + others);
    UpToZero(user, others);
  }

  /** A startup message states its own length, protocol 3.0 and the user's name. */
  lemma IntroductionIsWhole(user: Blob, others: Blob)
    requires 0 !in user && 14 + |user| + |others| < TWO_TO_32
    ensures Introduces(Introduction(user, others), user, others)
  {
    var length := 14 + |user| + |others|;
    BodyLength(ToBig(PROTOCOL, 4), USER_KEY, user, others);
    SizeIsRead(length);
    ProtocolIsRead();
    PartsIntroduce(Size(length), ToBig(PROTOCOL, 4), USER_KEY, user, others);
  }

  class Connection {
    var inbox: Blob     // what the server has sent and the client not yet read
    var outbox: Blob    // what the client has sent

    constructor (inbox: Blob)
      ensures this.inbox == inbox && outbox == []
    {
      this.inbox, outbox := inbox, [];
    }

    method ReadMessage() returns (m: Option<Message>)
      modifies this`inbox
      ensures (m, inbox) == TakeMessage(old(inbox))
    {
      if |inbox| < 5 {
        inbox := [];
        return None;
      }
      var kind, length := inbox[0], FromBig(inbox[1..5]);
      inbox := inbox[5..];
      if length < 4 || length > MAX_MESSAGE { return None; }
      if |inbox| < length - 4 {
        inbox := [];
        return None;
      }
      assert inbox[..length - 4] == old(inbox)[5..1 + length] && inbox[length - 4..] == old(inbox)[1 + length..];
      m := Some(Message(kind, inbox[..length - 4]));
      inbox := inbox[length - 4..];
    }

    method Query(sql: Blob) returns (result: Result)
      modifies this
      ensures outbox == old(outbox) + Frame(Message(Ascii("Q")[0], sql + [0]))
      ensures (result, inbox) == ReadReply(old(inbox), NOTHING)
    {
      outbox := outbox + Frame(Message(QUERY, sql + [0]));
      var rows: seq<seq<Blob>> := [];
      var error: Option<Error> := None;
      while true
        invariant outbox == old(outbox) + Frame(Message(QUERY, sql + [0]))
        invariant ReadReply(old(inbox), NOTHING) == ReadReply(inbox, Memory(rows, error))
        decreases |inbox|
      {
        var m := ReadMessage();
        if m == None { return Failed(Lost); }
        if m.value.kind == DATA_ROW {
          var row := DecodeDataRow(m.value.payload);
          if row == None {
            error := Some(Undecodable);
          } else {
            rows := rows + [row.value];
          }
        } else if m.value.kind == ERROR_RESPONSE {
          // Keep reading: the server still sends ReadyForQuery.
          var message := ErrorMessage(m.value.payload);
          error := Some(Server(message));
        } else if m.value.kind == READY_FOR_QUERY {
          if error != None { return Failed(error.value); }
          return Rows(rows);
        }
      }
    }

    method Start(user: Blob) returns (outcome: Startup)
      modifies this
      ensures outbox == old(outbox) + StartupMessage(user)
      ensures (outcome, inbox) == ReadStartup(old(inbox))
    {
      outbox := outbox + StartupMessage(user);
      while true
        invariant outbox == old(outbox) + StartupMessage(user)
        invariant ReadStartup(old(inbox)) == ReadStartup(inbox)
        decreases |inbox|
      {
        var m := ReadMessage();
        if m == None { return Refused; }
        if m.value.kind == AUTHENTICATION {
          if |m.value.payload| < 4 { return Refused; }
          if FromBig(m.value.payload[..4]) != 0 { return Refused; }
        } else if m.value.kind == ERROR_RESPONSE {
          return Refused;
        } else if m.value.kind == READY_FOR_QUERY {
          return Ready;
        }
      }
    }
  }

  // ----- well-formed replies -----

  /** Any messages at all, then one ReadyForQuery. */
  datatype Reply = Reply(body: seq<Message>, ready: Message)

  predicate WellFormed(reply: Reply) {
    && (forall i :: 0 <= i < |reply.body| ==> Fits(reply.body[i]) && !IsKind(reply.body[i], 'Z'))
    && Fits(reply.ready) && IsKind(reply.ready, 'Z')
  }

  // Is the message of the kind the documentation gives this letter?
  predicate IsKind(m: Message, letter: char) {
    m.kind as int == letter as int
  }

  predicate IsFailure(m: Message) {
    IsKind(m, 'E') || (IsKind(m, 'D') && ParseDataRow(m.payload) == None)
  }

  function ErrorOf(m: Message): Error
    requires IsFailure(m)
  {
    if IsKind(m, 'E') then Server(MessageIn(m.payload)) else Undecodable
  }

  /** The rows of a reply, in order. */
  function RowsOf(body: seq<Message>): seq<seq<Blob>> {
    if body == [] then [] else RowIn(body[0]) + RowsOf(body[1..])
  }

  /** The last thing that went wrong in a reply, if anything did. */
  function LastError(body: seq<Message>): Option<Error> {
    if body == [] then None
    else if LastError(body[1..]).Some? then LastError(body[1..])
    else if IsFailure(body[0]) then Some(ErrorOf(body[0])) else None
  }

  function Expected(reply: Reply): Result {
    match LastError(reply.body)
    case None => Rows(RowsOf(reply.body))
    case Some(error) => Failed(error)
  }

  lemma {:induction false} ErrorExactlyWhen(body: seq<Message>)
    ensures LastError(body).Some? <==> exists i :: 0 <= i < |body| && IsFailure(body[i])
  {
    if body != [] {
      ErrorExactlyWhen(body[1..]);
      if LastError(body[1..]).Some? {
        var i :| 0 <= i < |body[1..]| && IsFailure(body[1..][i]);
        assert body[i + 1] == body[1..][i];
      }
      forall i | 0 < i < |body| && IsFailure(body[i]) ensures LastError(body[1..]).Some? {
        assert body[1..][i - 1] == body[i];
      }
    }
  }

  lemma FirstMessageIs(ms: seq<Message>, rest: Blob)
    requires ms != [] && Fits(ms[0])
    ensures TakeMessage(Frames(ms) + rest) == (Some(ms[0]), Frames(ms[1..]) + rest)
  {
    assert Frames(ms) + rest == Frame(ms[0]) + (Frames(ms[1..]) + rest);
    MessageRoundTrip(ms[0], Frames(ms[1..]) + rest);
  }

  function NotedAll(body: seq<Message>, memory: Memory): Memory {
    if body == [] then memory else NotedAll(body[1..], Noted(body[0], memory))
  }

  lemma {:induction false} BodyIsRead(body: seq<Message>, ready: Message, rest: Blob, memory: Memory)
    requires WellFormed(Reply(body, ready))
    ensures ReadReply(Frames(body + [ready]) + rest, memory) == (Concluded(NotedAll(body, memory)), rest)
  {
    FirstMessageIs(body + [ready], rest);
    if body == [] {
      assert (body + [ready])[1..] == [] && [] + rest == rest;
    } else {
      assert (body + [ready])[1..] == body[1..] + [ready];
      BodyIsRead(body[1..], ready, rest, Noted(body[0], memory));
    }
  }

  // The row a message holds, if it holds one.
  function RowIn(m: Message): seq<seq<Blob>> {
    if IsKind(m, 'D') && ParseDataRow(m.payload).Some? then [ParseDataRow(m.payload).value] else []
  }

  lemma RowIsNoted(m: Message, memory: Memory)
    ensures Noted(m, memory).rows == memory.rows + RowIn(m)
  {
    assert memory.rows + [] == memory.rows;
  }

  lemma Regroup(a: seq<seq<Blob>>, b: seq<seq<Blob>>, c: seq<seq<Blob>>)
    ensures (a + b) + c == a + (b + c)
  {
  }

  lemma {:induction false} RowsAreNoted(body: seq<Message>, memory: Memory)
    ensures NotedAll(body, memory).rows == memory.rows + RowsOf(body)
  {
    if body == [] {
      assert memory.rows + [] == memory.rows;
    } else {
      RowIsNoted(body[0], memory);
      RowsAreNoted(body[1..], Noted(body[0], memory));
      Regroup(memory.rows, RowIn(body[0]), RowsOf(body[1..]));
    }
  }

  lemma {:induction false} ErrorIsNoted(body: seq<Message>, memory: Memory)
    ensures NotedAll(body, memory).error == if LastError(body).Some? then LastError(body) else memory.error
  {
    if body != [] { ErrorIsNoted(body[1..], Noted(body[0], memory)); }
  }

  /**
   A query reads exactly its own reply, whatever comes after it: the decodable rows in order, or the
   last error, which there is exactly when the reply held an ErrorResponse or an undecodable row.
   */
  lemma ReplyIsRead(reply: Reply, rest: Blob)
    requires WellFormed(reply)
    ensures ReadReply(Frames(reply.body + [reply.ready]) + rest, NOTHING) == (Expected(reply), rest)
    ensures Expected(reply).Failed? <==> exists i :: 0 <= i < |reply.body| && IsFailure(reply.body[i])
  {
    BodyIsRead(reply.body, reply.ready, rest, NOTHING);
    RowsAreNoted(reply.body, NOTHING);
    ErrorIsNoted(reply.body, NOTHING);
    assert [] + RowsOf(reply.body) == RowsOf(reply.body);
    ErrorExactlyWhen(reply.body);
  }

  function ReadOne(s: Blob): (Result, Blob) {
    ReadReply(s, NOTHING)
  }

  function Streams(replies: seq<Reply>): (pieces: seq<Blob>)
    ensures |pieces| == |replies|
    ensures forall i :: 0 <= i < |replies| ==> pieces[i] == Frames(replies[i].body + [replies[i].ready])
  {
    if replies == [] then [] else [Frames(replies[0].body + [replies[0].ready])] + Streams(replies[1..])
  }

  function AllExpected(replies: seq<Reply>): (results: seq<Result>)
    ensures |results| == |replies| && forall i :: 0 <= i < |replies| ==> results[i] == Expected(replies[i])
  {
    if replies == [] then [] else [Expected(replies[0])] + AllExpected(replies[1..])
  }

  /** Query after query over one stream, errors or not, the session stays in step with the server. */
  lemma SessionStaysInStep(replies: seq<Reply>, rest: Blob)
    requires forall i :: 0 <= i < |replies| ==> WellFormed(replies[i])
    ensures Repeat(ReadOne, Concat(Streams(replies)) + rest, |replies|) == (AllExpected(replies), rest)
  {
    var pieces, results := Streams(replies), AllExpected(replies);
    forall i, tail: Blob | 0 <= i < |pieces| ensures ReadOne(pieces[i] + tail) == (results[i], tail) {
      ReplyIsRead(replies[i], tail);
    }
    RepeatInStep(ReadOne, pieces, results, rest);
  }

  predicate Welcomes(m: Message) {
    !IsKind(m, 'E') && (IsKind(m, 'R') ==> |m.payload| >= 4 && m.payload[..4] == [0, 0, 0, 0])
  }

  lemma ZeroIsOk(payload: Blob)
    ensures IsAuthenticationOk(payload) <==> |payload| >= 4 && payload[..4] == [0, 0, 0, 0]
  {
    if |payload| >= 4 { BigWeights(payload[..4]); }
  }

  lemma StartupStep(s: Blob, m: Message, rest: Blob)
    requires TakeMessage(s) == (Some(m), rest)
    ensures ReadStartup(s)
         == if !Welcomes(m) then (Refused, rest) else if IsKind(m, 'Z') then (Ready, rest) else ReadStartup(rest)
  {
    ZeroIsOk(m.payload);
  }

  /**
   Startup succeeds exactly when nothing before ReadyForQuery is an error or asks for more than peer
   authentication, and then leaves the stream right after it.
   */
  lemma {:induction false} StartupExactlyWhen(body: seq<Message>, ready: Message, rest: Blob)
    requires WellFormed(Reply(body, ready))
    ensures ReadStartup(Frames(body + [ready]) + rest).0 == Ready <==>
      forall i :: 0 <= i < |body| ==> Welcomes(body[i])
    ensures ReadStartup(Frames(body + [ready]) + rest).0 == Ready ==>
              ReadStartup(Frames(body + [ready]) + rest).1 == rest
  {
    FirstMessageIs(body + [ready], rest);
    StartupStep(Frames(body + [ready]) + rest, (body + [ready])[0], Frames((body + [ready])[1..]) + rest);
    if body == [] {
      assert (body + [ready])[1..] == [] && [] + rest == rest;
    } else {
      assert (body + [ready])[1..] == body[1..] + [ready];
      StartupExactlyWhen(body[1..], ready, rest);
      assert forall i :: 0 < i < |body| ==> body[i] == body[1..][i - 1];
    }
  }

  // ----- what breaks off -----

  // Messages that leave a reply open.
  ghost predicate Open(body: seq<Message>) {
    forall i :: 0 <= i < |body| ==> Fits(body[i]) && !IsKind(body[i], 'Z')
  }

  /** A reply that breaks off before ReadyForQuery fails, whatever rows came before. */
  lemma {:induction false} BrokenReplyFails(body: seq<Message>, tail: Blob, memory: Memory)
    requires Open(body) && TakeMessage(tail).0 == None
    ensures ReadReply(Frames(body) + tail, memory) == (Failed(Lost), TakeMessage(tail).1)
  {
    if body == [] {
      assert [] + tail == tail;
    } else {
      FirstMessageIs(body, tail);
      BrokenReplyFails(body[1..], tail, Noted(body[0], memory));
    }
  }

  /** Startup stops at the first message that does not welcome it, and reads no further. */
  lemma {:induction false} StartupStopsAt(body: seq<Message>, bad: Message, others: Blob)
    requires Open(body + [bad]) && (forall i :: 0 <= i < |body| ==> Welcomes(body[i])) && !Welcomes(bad)
    ensures ReadStartup(Frames(body + [bad]) + others) == (Refused, others)
  {
    FirstMessageIs(body + [bad], others);
    StartupStep(Frames(body + [bad]) + others, (body + [bad])[0], Frames((body + [bad])[1..]) + others);
    if body == [] {
      assert (body + [bad])[1..] == [] && [] + others == others;
    } else {
      assert (body + [bad])[0] == body[0];
      assert (body + [bad])[1..] == body[1..] + [bad];
      StartupStopsAt(body[1..], bad, others);
    }
  }

  /** Nor does it succeed when the stream breaks off. */
  lemma {:induction false} BrokenStartupFails(body: seq<Message>, tail: Blob)
    requires Open(body) && TakeMessage(tail).0 == None
    ensures ReadStartup(Frames(body) + tail).0 == Refused
  {
    if body == [] {
      assert [] + tail == tail;
    } else {
      FirstMessageIs(body, tail);
      BrokenStartupFails(body[1..], tail);
    }
  }

  // ----- the bytes themselves -----

  /** Any size with the highest bit set is negative, and stands for NULL; all others are lengths. */
  lemma SizeIsSigned(size: Blob, rest: Blob, count: nat)
    requires |size| == 4
    ensures size[0] >= 128 ==> ParseFields(size + rest, count + 1) == Prefixed([], ParseFields(rest, count))
    ensures size[0] < 128 ==>
      ParseFields(size + rest, count + 1)
        == var n := FromBig(size);
           if |rest| < n then None else Prefixed(rest[..n], ParseFields(rest[n..], count))
  {
    var b := size + rest;
    BigWeights(size);
    assert b[..4] == size && b[4..] == rest;
    var n := FromBig(size);
    if size[0] < 128 && |rest| >= n { assert b[4..4 + n] == rest[..n] && b[4 + n..] == rest[n..]; }
  }

  // A value cut short on the wire.
  lemma CutFieldIsRefused(f: Field, k: nat, count: nat)
    requires |Text(f)| < TWO_TO_31 && k < |EncodeField(f)|
    ensures ParseFields(EncodeField(f)[..k], count + 1) == None
  {
    var b := EncodeField(f)[..k];
    if k >= 4 {
      Powers();
      BigRoundTrip(|f.value|, 4);
      assert b[..4] == ToBig(|f.value|, 4);
    }
  }

  lemma CutLaterIsRefused(f: Field, others: Blob, k: nat, count: nat)
    requires |Text(f)| < TWO_TO_31 && k <= |others| && ParseFields(others[..k], count) == None
    ensures ParseFields((EncodeField(f) + others)[..|EncodeField(f)| + k], count + 1) == None
  {
    assert (EncodeField(f) + others)[..|EncodeField(f)| + k] == EncodeField(f) + others[..k];
    FieldIsRead(f, others[..k], count);
  }

  lemma {:induction false} CutFieldsAreRefused(row: seq<Field>, k: nat)
    requires Encodable(row) && k < |EncodeFields(row)|
    ensures ParseFields(EncodeFields(row)[..k], |row|) == None
  {
    var first, others := EncodeField(row[0]), EncodeFields(row[1..]);
    if k < |first| {
      assert EncodeFields(row)[..k] == first[..k];
      CutFieldIsRefused(row[0], k, |row| - 1);
    } else {
      CutFieldsAreRefused(row[1..], k - |first|);
      CutLaterIsRefused(row[0], others, k - |first|, |row| - 1);
    }
  }

  /** A row cut short anywhere is refused, never read as a shorter one. */
  lemma {:induction false} CutRowIsRefused(row: seq<Field>, k: nat)
    requires Encodable(row) && k < |EncodeDataRow(row)|
    ensures ParseDataRow(EncodeDataRow(row)[..k]) == None
  {
    if k >= 2 {
      Powers();
      var b := EncodeDataRow(row)[..k];
      BigRoundTrip(|row|, 2);
      assert b[..2] == ToBig(|row|, 2) && b[2..] == EncodeFields(row)[..k - 2];
      CutFieldsAreRefused(row, k - 2);
    }
  }

  /** The message field of an error cut short is shown as far as it goes. */
  lemma UnfinishedMessageIsShown(text: Blob)
    requires 0 !in text
    ensures MessageIn(Ascii("M") + text) == Some(text)
  {
    var b := Ascii("M") + text;
    assert b[1..] == text && text[..|text|] == text;
    assert forall i :: 0 <= i < |text| ==> text[i] != 0;
  }

  // What the header of a message says of its length, itself included.
  function Announced(s: Blob): nat
    requires |s| >= 5
  {
    0x100_0000 * s[1] as nat + 0x1_0000 * s[2] as nat + 0x100 * s[3] as nat + s[4] as nat
  }

  /**
   A message is taken if and only if the stream begins with its kind, a length of at most 2^20 that counts itself, and
   as many bytes as that; and then just that is taken.
   */
  lemma MessageExactlyWhen(s: Blob, m: Message, rest: Blob)
    ensures TakeMessage(s) == (Some(m), rest) <==>
              |s| >= 5 && s[0] == m.kind && Announced(s) == |m.payload| + 4 <= 0x10_0000 && s[5..] == m.payload + rest
  {
    if |s| >= 5 {
      BigWeights(s[1..5]);
      var n := Announced(s);
      if |s| >= 1 + n && n >= 4 { assert s[5..] == s[5..1 + n] + s[1 + n..]; }
      if s[5..] == m.payload + rest && n == |m.payload| + 4 {
        assert s[5..1 + n] == (m.payload + rest)[..n - 4] && s[1 + n..] == (m.payload + rest)[n - 4..];
      }
    }
  }

  /** Otherwise the stream is used up, or read past the header if what it announces is implausible. */
  lemma MessageMissing(s: Blob)
    requires TakeMessage(s).0 == None
    ensures TakeMessage(s).1 == if |s| >= 5 && (Announced(s) < 4 || Announced(s) > 0x10_0000) then s[5..] else []
  {
    if |s| >= 5 { BigWeights(s[1..5]); }
  }
}
