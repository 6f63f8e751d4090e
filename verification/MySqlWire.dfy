/**
 The MySQL text protocol as the agent speaks it: packets, length-encoded integers, text rows and
 the reply to one query, against encoders written from the MySQL Client/Server Protocol
 ("MySQL Packets", "Length-Encoded Integer", "Text Resultset").
 */
module MySqlWire {

  import opened Wrappers
  import opened Bytes
  import opened Fields

  const MAX_PACKET: nat := 0x10_0000
  const OK_BYTE: byte := 0x00
  const NULL_BYTE: byte := 0xfb
  const EOF_BYTE: byte := 0xfe
  const ERR_BYTE: byte := 0xff

  // ----- length-encoded integers -----

  lemma Powers()
    ensures Pow256(2) == 0x1_0000 && Pow256(3) == 0x100_0000 && Pow256(8) == TWO_TO_64
  {
    assert Pow256(4) == 0x1_0000_0000;
    assert Pow256(6) == 0x1_0000_0000_0000;
  }

  datatype Lenenc = Lenenc(value: nat, consumed: nat)

  function ReadLenenc(b: Blob): (r: Option<Lenenc>)
    ensures r.Some? ==> 0 < r.value.consumed <= |b|
  {
    if b == [] then None
    else if b[0] < 0xfb then Some(Lenenc(b[0] as nat, 1))
    else if b[0] == 0xfc && |b| >= 3 then Some(Lenenc(FromLittle(b[1..3]), 3))
    else if b[0] == 0xfd && |b| >= 4 then Some(Lenenc(FromLittle(b[1..4]), 4))
    else if b[0] == 0xfe && |b| >= 9 then Some(Lenenc(FromLittle(b[1..9]), 9))
    else None
  }

  function EncodeLenenc(v: nat): (b: Blob)
    requires v < TWO_TO_64
    ensures b != []
  {
    if v < 0xfb then [v as byte]
    else if v < 0x1_0000 then [0xfc] + ToLittle(v, 2)
    else if v < 0x100_0000 then [0xfd] + ToLittle(v, 3)
    else [0xfe] + ToLittle(v, 8)
  }

  /** Every 64-bit value is read back, whatever follows it. */
  lemma LenencRoundTrip(v: nat, rest: Blob)
    requires v < TWO_TO_64
    ensures ReadLenenc(EncodeLenenc(v) + rest) == Some(Lenenc(v, |EncodeLenenc(v)|))
  {
    Powers();
    var b := EncodeLenenc(v) + rest;
    if v >= 0xfb {
      var width := if v < 0x1_0000 then 2 else if v < 0x100_0000 then 3 else 8;
      LittleRoundTrip(v, width);
      assert b[1..1 + width] == ToLittle(v, width);
    }
  }

  // ----- rows -----

  /** The next `columns` values, NULL as the empty text; whatever follows them is ignored. */
  function ParseFields(b: Blob, columns: nat): Option<seq<Blob>> {
    if columns == 0 then Some([])
    else if b == [] then None
    else if b[0] == NULL_BYTE then Prefixed([], ParseFields(b[1..], columns - 1))
    else
      match ReadLenenc(b)
      case None => None
      case Some(Lenenc(length, consumed)) =>
        if |b| - consumed < length then None
        else Prefixed(b[consumed..consumed + length], ParseFields(b[consumed + length..], columns - 1))
  }

  method ParseTextRow(payload: Blob, columns: nat) returns (row: Option<seq<Blob>>)
    ensures row == ParseFields(payload, columns)
  {
    var fields: seq<Blob>, rest := [], payload;
    AfterNothing(ParseFields(payload, columns));
    for i := 0 to columns
      invariant ParseFields(payload, columns) == After(fields, ParseFields(rest, columns - i))
    {
      if |rest| == 0 { return None; }
      if rest[0] == NULL_BYTE {
        AfterPrefixed(fields, [], ParseFields(rest[1..], columns - i - 1));
        fields := fields + [[]];
        rest := rest[1..];
        continue;
      }
      var length := ReadLenenc(rest);
      if length == None { return None; }
      var n, consumed := length.value.value, length.value.consumed;
      if |rest| - consumed < n { return None; }
      AfterPrefixed(fields, rest[consumed..consumed + n], ParseFields(rest[consumed + n..], columns - i - 1));
      fields := fields + [rest[consumed..consumed + n]];
      rest := rest[consumed + n..];
    }
    assert fields + [] == fields;
    return Some(fields);
  }

  function EncodeField(f: Field): (b: Blob)
    requires |Text(f)| < TWO_TO_64
    ensures b != []
  {
    if f == None then [NULL_BYTE] else EncodeLenenc(|f.value|) + f.value
  }

  predicate Encodable(row: seq<Field>) {
    forall i :: 0 <= i < |row| ==> |Text(row[i])| < TWO_TO_64
  }

  function EncodeRow(row: seq<Field>): Blob
    requires Encodable(row)
  {
    if row == [] then [] else EncodeField(row[0]) + EncodeRow(row[1..])
  }

  lemma FieldIsRead(f: Field, rest: Blob, columns: nat)
    requires |Text(f)| < TWO_TO_64
    ensures ParseFields(EncodeField(f) + rest, columns + 1) == Prefixed(Text(f), ParseFields(rest, columns))
  {
    var b := EncodeField(f) + rest;
    if f == None {
      assert b[1..] == rest;
    } else {
      var head := EncodeLenenc(|f.value|);
      assert b == head + (f.value + rest);
      LenencRoundTrip(|f.value|, f.value + rest);
      assert b[|head|..|head| + |f.value|] == f.value && b[|head| + |f.value|..] == rest;
      assert b[0] == head[0] && head[0] != NULL_BYTE;
    }
  }

  lemma OneFieldMore(f: Field, others: Blob, left: nat, texts: seq<Blob>)
    requires left > 0 && |Text(f)| < TWO_TO_64 && ParseFields(others, left - 1) == Some(texts)
    ensures ParseFields(EncodeField(f) + others, left) == Some([Text(f)] + texts)
  {
    FieldIsRead(f, others, left - 1);
  }

  lemma EncodedRowSplits(row: seq<Field>, rest: Blob)
    requires row != [] && Encodable(row)
    ensures EncodeRow(row) + rest == EncodeField(row[0]) + (EncodeRow(row[1..]) + rest)
  {
  }

  /** A row is read back value by value, NULL as the empty text. */
  lemma {:induction false} RowRoundTrip(row: seq<Field>, rest: Blob)
    requires Encodable(row)
    ensures ParseFields(EncodeRow(row) + rest, |row|) == Some(Texts(row))
  {
    if row != [] {
      RowRoundTrip(row[1..], rest);
      EncodedRowSplits(row, rest);
      OneFieldMore(row[0], EncodeRow(row[1..]) + rest, |row|, Texts(row[1..]));
    }
  }

  predicate IsEof(payload: Blob) {
    |payload| > 0 && payload[0] == EOF_BYTE && |payload| < 9
  }

  predicate IsErr(payload: Blob) {
    |payload| > 0 && payload[0] == ERR_BYTE
  }

  /** No row that fits a packet looks like an EOF or an ERR packet. */
  lemma {:induction false} RowIsNoMarker(row: seq<Field>)
    requires row != [] && Encodable(row) && |EncodeRow(row)| <= MAX_PACKET
    ensures !IsEof(EncodeRow(row)) && !IsErr(EncodeRow(row))
  {
    var first := EncodeField(row[0]);
    assert EncodeRow(row)[0] == first[0];
    assert |first| <= |EncodeRow(row)|;
  }

  // ----- packets -----

  function Frame(number: byte, payload: Blob): Blob {
    ToLittle(|payload| % 0x100_0000, 3) + [number] + payload
  }

  // The next packet and what is left unread; nothing if the stream ends or the length is implausible.
  function TakePacket(s: Blob): (r: (Option<Blob>, Blob))
    ensures |r.1| <= |s| && (r.0.Some? ==> |r.1| < |s|)
  {
    if |s| < 4 then (None, [])
    else
      var length := FromLittle(s[..3]);
      if length > MAX_PACKET then (None, s[4..])
      else if |s| < 4 + length then (None, [])
      else (Some(s[4..4 + length]), s[4 + length..])
  }

  lemma PacketRoundTrip(number: byte, payload: Blob, rest: Blob)
    requires |payload| <= MAX_PACKET
    ensures TakePacket(Frame(number, payload) + rest) == (Some(payload), rest)
  {
    Powers();
    LittleRoundTrip(|payload|, 3);
    var s := Frame(number, payload) + rest;
    assert s[..3] == ToLittle(|payload|, 3);
    assert s[4..4 + |payload|] == payload && s[4 + |payload|..] == rest;
  }

  // ----- the reply to a query -----

  datatype Result = Rows(rows: seq<seq<Blob>>) | Failed

  // Read past packets until an EOF, but no more than `left` of them.
  function SkipDefinitions(s: Blob, left: nat): (r: (bool, Blob))
    ensures |r.1| <= |s|
    decreases left
  {
    if left == 0 then (true, s)
    else
      var (payload, rest) := TakePacket(s);
      if payload == None then (false, rest)
      else if IsEof(payload.value) then (true, rest)
      else SkipDefinitions(rest, left - 1)
  }

  function ReadRows(s: Blob, columns: nat, rows: seq<seq<Blob>>): (Result, Blob)
    decreases |s|
  {
    var (payload, rest) := TakePacket(s);
    if payload == None then (Failed, rest)
    else if IsEof(payload.value) then (Rows(rows), rest)
    else if IsErr(payload.value) then (Failed, rest)
    else
      match ParseFields(payload.value, columns)
      case None => (Failed, rest)
      case Some(row) => ReadRows(rest, columns, rows + [row])
  }

  /** What a query makes of the stream: its result, and what it leaves unread. */
  function ReadReply(s: Blob): (Result, Blob) {
    var (first, rest) := TakePacket(s);
    if first == None then (Failed, rest)
    else if IsErr(first.value) then (Failed, rest)
    else if |first.value| > 0 && first.value[0] == OK_BYTE then (Rows([]), rest)
    else
      match ReadLenenc(first.value)
      case None => (Failed, rest)
      case Some(Lenenc(columns, _)) =>
        var (ok, after) := SkipDefinitions(rest, columns + 1);
        if !ok then (Failed, after) else ReadRows(after, columns, [])
  }

  class Connection {
    var inbox: Blob     // what the server has sent and the client not yet read
    var outbox: Blob    // what the client has sent
    var number: byte

    constructor (inbox: Blob)
      ensures this.inbox == inbox && outbox == [] && number == 0
    {
      this.inbox, outbox, number := inbox, [], 0;
    }

    method WritePacket(payload: Blob)
      modifies this`outbox, this`number
      ensures outbox == old(outbox) + Frame(old(number), payload)
      ensures number as int == (old(number) as int + 1) % 256
    {
      outbox := outbox + Frame(number, payload);
      number := ((number as int + 1) % 256) as byte;
    }

    method ReadPacket() returns (payload: Option<Blob>)
      modifies this`inbox, this`number
      ensures (payload, inbox) == TakePacket(old(inbox))
      ensures payload.Some? ==> number as int == (old(inbox)[3] as int + 1) % 256
    {
      if |inbox| < 4 {
        inbox := [];
        return None;
      }
      var header := inbox[..4];
      assert header[..3] == inbox[..3];
      var length := FromLittle(header[..3]);
      inbox := inbox[4..];
      if length > MAX_PACKET { return None; }
      number := ((header[3] as int + 1) % 256) as byte;
      if |inbox| < length {
        inbox := [];
        return None;
      }
      assert inbox[..length] == old(inbox)[4..4 + length] && inbox[length..] == old(inbox)[4 + length..];
      payload := Some(inbox[..length]);
      inbox := inbox[length..];
    }

    method Query(sql: Blob) returns (result: Result)
      modifies this
      ensures outbox == old(outbox) + Frame(0, [0x03] + sql)
      ensures (result, inbox) == ReadReply(old(inbox))
    {
      number := 0;
      WritePacket([0x03] + sql);
      var first := ReadPacket();
      if first.None? || IsErr(first.value) { return Failed; }
      if |first.value| > 0 && first.value[0] == OK_BYTE { return Rows([]); }
      var count := ReadLenenc(first.value);
      if count.None? { return Failed; }
      var ok := PassDefinitions(count.value.value);
      if !ok { return Failed; }
      result := TakeRows(count.value.value);
    }

    // The column definitions, then the EOF after them.
    method PassDefinitions(columns: nat) returns (ok: bool)
      modifies this`inbox, this`number
      ensures (ok, inbox) == SkipDefinitions(old(inbox), columns + 1)
    {
      var i := 0;
      while i <= columns
        invariant i <= columns + 1
        invariant SkipDefinitions(old(inbox), columns + 1) == SkipDefinitions(inbox, columns + 1 - i)
      {
        var payload := ReadPacket();
        if payload.None? { return false; }
        if IsEof(payload.value) { return true; }
        i := i + 1;
      }
      return true;
    }

    // The rows, up to an EOF, an ERR or one that cannot be decoded.
    method TakeRows(columns: nat) returns (result: Result)
      modifies this`inbox, this`number
      ensures (result, inbox) == ReadRows(old(inbox), columns, [])
    {
      var rows: seq<seq<Blob>> := [];
      while true
        invariant ReadRows(old(inbox), columns, []) == ReadRows(inbox, columns, rows)
        decreases |inbox|
      {
        var payload := ReadPacket();
        if payload.None? { return Failed; }
        if IsEof(payload.value) { return Rows(rows); }
        if IsErr(payload.value) { return Failed; }
        var row := ParseTextRow(payload.value, columns);
        if row.None? { return Failed; }
        rows := rows + [row.value];
      }
    }
  }

  // ----- well-formed replies -----

  datatype Reply =
    | ResultSet(definitions: seq<Blob>, eof: Blob, rows: seq<seq<Field>>, lastEof: Blob)
    | BrokenOff(definitions: seq<Blob>, eof: Blob, rows: seq<seq<Field>>, error: Blob)   // an ERR among the rows
    | Okay(payload: Blob)
    | Error(payload: Blob)

  predicate Fits(payload: Blob) {
    |payload| <= MAX_PACKET
  }

  predicate GoodRow(row: seq<Field>, columns: nat) {
    |row| == columns && Encodable(row) && Fits(EncodeRow(row))
  }

  predicate GoodHead(definitions: seq<Blob>, eof: Blob) {
    && 1 <= |definitions| < TWO_TO_64
    && (forall i :: 0 <= i < |definitions| ==> Fits(definitions[i]) && !IsEof(definitions[i]))
    && IsEof(eof)
  }

  predicate GoodSet(definitions: seq<Blob>, eof: Blob, rows: seq<seq<Field>>) {
    && GoodHead(definitions, eof)
    && (forall i :: 0 <= i < |rows| ==> GoodRow(rows[i], |definitions|))
  }

  predicate WellFormed(reply: Reply) {
    match reply
    case ResultSet(definitions, eof, rows, lastEof) => GoodSet(definitions, eof, rows) && IsEof(lastEof)
    case BrokenOff(definitions, eof, rows, error) => GoodSet(definitions, eof, rows) && Fits(error) && IsErr(error)
    case Okay(payload) => Fits(payload) && |payload| > 0 && payload[0] == OK_BYTE
    case Error(payload) => Fits(payload) && IsErr(payload)
  }

  function EncodeRows(rows: seq<seq<Field>>): seq<Blob>
    requires forall i :: 0 <= i < |rows| ==> Encodable(rows[i])
  {
    if rows == [] then [] else [EncodeRow(rows[0])] + EncodeRows(rows[1..])
  }

  function AllTexts(rows: seq<seq<Field>>): seq<seq<Blob>> {
    if rows == [] then [] else [Texts(rows[0])] + AllTexts(rows[1..])
  }

  /** The payloads a server sends for a reply, in order. */
  function Payloads(reply: Reply): seq<Blob>
    requires WellFormed(reply)
  {
    match reply
    case ResultSet(definitions, eof, rows, lastEof) =>
      SetOfPayloads(definitions, eof, EncodeRows(rows), lastEof, [])
    case BrokenOff(definitions, eof, rows, error) =>
      SetOfPayloads(definitions, eof, EncodeRows(rows), error, [])
    case Okay(payload) => [payload]
    case Error(payload) => [payload]
  }

  function Expected(reply: Reply): Result {
    match reply
    case ResultSet(_, _, rows, _) => Rows(AllTexts(rows))
    case Okay(_) => Rows([])
    case _ => Failed
  }

  /** The payloads on the wire; the sequence numbers are whatever the server chose. */
  function Frames(payloads: seq<Blob>, numbers: nat -> byte, at: nat): Blob {
    if payloads == [] then [] else Frame(numbers(at), payloads[0]) + Frames(payloads[1..], numbers, at + 1)
  }

  lemma FirstFrame(payloads: seq<Blob>, first: Blob, others: seq<Blob>, numbers: nat -> byte, at: nat, rest: Blob)
    requires payloads == [first] + others && Fits(first)
    ensures TakePacket(Frames(payloads, numbers, at) + rest) == (Some(first), Frames(others, numbers, at + 1) + rest)
  {
    var tail := Frames(others, numbers, at + 1);
    assert payloads[1..] == others;
    assert Frames(payloads, numbers, at) + rest == Frame(numbers(at), first) + (tail + rest);
    PacketRoundTrip(numbers(at), first, tail + rest);
  }

  lemma SkipOne(s: Blob, left: nat, payload: Blob, after: Blob)
    requires TakePacket(s) == (Some(payload), after)
    ensures SkipDefinitions(s, left + 1) == if IsEof(payload) then (true, after) else SkipDefinitions(after, left)
  {
  }

  // The column definitions on the wire, the EOF after them, then others.
  function DefinitionPayloads(definitions: seq<Blob>, eof: Blob, others: seq<Blob>): seq<Blob> {
    definitions + ([eof] + others)
  }

  lemma DefinitionPayloadsSplit(definitions: seq<Blob>, eof: Blob, others: seq<Blob>)
    ensures DefinitionPayloads(definitions, eof, others)
         == if definitions == [] then [eof] + others
            else [definitions[0]] + DefinitionPayloads(definitions[1..], eof, others)
  {
  }

  lemma {:induction false} DefinitionsAreSkipped(definitions: seq<Blob>, eof: Blob, others: seq<Blob>,
                                                 numbers: nat -> byte, at: nat, end: nat, rest: Blob)
    requires end == at + |definitions| + 1
    requires IsEof(eof) && forall i :: 0 <= i < |definitions| ==> Fits(definitions[i]) && !IsEof(definitions[i])
    ensures SkipDefinitions(Frames(DefinitionPayloads(definitions, eof, others), numbers, at) + rest, |definitions| + 1)
         == (true, Frames(others, numbers, end) + rest)
  {
    var all := DefinitionPayloads(definitions, eof, others);
    DefinitionPayloadsSplit(definitions, eof, others);
    if definitions == [] {
      FirstFrame(all, eof, others, numbers, at, rest);
      SkipOne(Frames(all, numbers, at) + rest, 0, eof, Frames(others, numbers, at + 1) + rest);
    } else {
      var left := DefinitionPayloads(definitions[1..], eof, others);
      FirstFrame(all, definitions[0], left, numbers, at, rest);
      SkipOne(Frames(all, numbers, at) + rest, |definitions|, definitions[0], Frames(left, numbers, at + 1) + rest);
      DefinitionsAreSkipped(definitions[1..], eof, others, numbers, at + 1, end, rest);
    }
  }

  // A payload that is read as a row, well or badly.
  predicate Plain(payload: Blob) {
    Fits(payload) && !IsEof(payload) && !IsErr(payload)
  }

  predicate Decodes(payload: Blob, columns: nat) {
    ParseFields(payload, columns).Some?
  }

  predicate AllDecode(body: seq<Blob>, columns: nat) {
    forall i :: 0 <= i < |body| ==> Plain(body[i]) && Decodes(body[i], columns)
  }

  /** The rows a run of payloads stands for. */
  function AllParsed(body: seq<Blob>, columns: nat): seq<seq<Blob>>
    requires AllDecode(body, columns)
  {
    if body == [] then [] else [ParseFields(body[0], columns).value] + AllParsed(body[1..], columns)
  }

  lemma RowDecodes(row: seq<Field>, columns: nat)
    requires columns > 0 && GoodRow(row, columns)
    ensures Plain(EncodeRow(row)) && ParseFields(EncodeRow(row), columns) == Some(Texts(row))
  {
    RowIsNoMarker(row);
    RowRoundTrip(row, []);
    assert EncodeRow(row) + [] == EncodeRow(row);
  }

  lemma {:induction false} RowsDecode(rows: seq<seq<Field>>, columns: nat)
    requires columns > 0 && forall i :: 0 <= i < |rows| ==> Encodable(rows[i]) && GoodRow(rows[i], columns)
    ensures AllDecode(EncodeRows(rows), columns) && AllParsed(EncodeRows(rows), columns) == AllTexts(rows)
    ensures |EncodeRows(rows)| == |rows|
  {
    if rows != [] {
      RowDecodes(rows[0], columns);
      RowsDecode(rows[1..], columns);
    }
  }

  lemma RowIsRead(columns: nat, s: Blob, payload: Blob, after: Blob, sofar: seq<seq<Blob>>)
    requires Plain(payload) && Decodes(payload, columns)
    requires TakePacket(s) == (Some(payload), after)
    ensures ReadRows(s, columns, sofar) == ReadRows(after, columns, sofar + [ParseFields(payload, columns).value])
  {
  }

  predicate Ends(last: Blob, columns: nat) {
    Fits(last) && (IsEof(last) || IsErr(last) || !Decodes(last, columns))
  }

  lemma LastIsRead(columns: nat, s: Blob, after: Blob, last: Blob, sofar: seq<seq<Blob>>)
    requires Ends(last, columns) && TakePacket(s) == (Some(last), after)
    ensures ReadRows(s, columns, sofar) == (if IsEof(last) then Rows(sofar) else Failed, after)
  {
  }

  // The rows on the wire, then one last payload, then others.
  function RowPayloads(body: seq<Blob>, last: Blob, others: seq<Blob>): seq<Blob> {
    body + ([last] + others)
  }

  lemma RowPayloadsSplit(body: seq<Blob>, last: Blob, others: seq<Blob>)
    ensures RowPayloads(body, last, others)
         == if body == [] then [last] + others else [body[0]] + RowPayloads(body[1..], last, others)
  {
  }

  lemma NextRow(columns: nat, body: seq<Blob>, sofar: seq<seq<Blob>>, last: Blob, others: seq<Blob>,
                numbers: nat -> byte, at: nat, rest: Blob)
    requires body != [] && Plain(body[0]) && Decodes(body[0], columns)
    ensures ReadRows(Frames(RowPayloads(body, last, others), numbers, at) + rest, columns, sofar)
         == ReadRows(Frames(RowPayloads(body[1..], last, others), numbers, at + 1) + rest, columns,
                     sofar + [ParseFields(body[0], columns).value])
  {
    var s := Frames(RowPayloads(body, last, others), numbers, at) + rest;
    var after := Frames(RowPayloads(body[1..], last, others), numbers, at + 1) + rest;
    RowPayloadsSplit(body, last, others);
    FirstFrame(RowPayloads(body, last, others), body[0], RowPayloads(body[1..], last, others), numbers, at, rest);
    RowIsRead(columns, s, body[0], after, sofar);
  }

  lemma NoMoreRows(columns: nat, sofar: seq<seq<Blob>>, last: Blob, others: seq<Blob>,
                   numbers: nat -> byte, at: nat, rest: Blob)
    requires Ends(last, columns)
    ensures ReadRows(Frames(RowPayloads([], last, others), numbers, at) + rest, columns, sofar)
         == (if IsEof(last) then Rows(sofar) else Failed, Frames(others, numbers, at + 1) + rest)
  {
    var all := RowPayloads([], last, others);
    RowPayloadsSplit([], last, others);
    FirstFrame(all, last, others, numbers, at, rest);
    LastIsRead(columns, Frames(all, numbers, at) + rest, Frames(others, numbers, at + 1) + rest, last, sofar);
  }

  lemma {:induction false} RowsAreRead(columns: nat, body: seq<Blob>, sofar: seq<seq<Blob>>, last: Blob,
                                       others: seq<Blob>, numbers: nat -> byte, at: nat, end: nat, rest: Blob)
    requires end == at + |body| + 1 && AllDecode(body, columns) && Ends(last, columns)
    ensures ReadRows(Frames(RowPayloads(body, last, others), numbers, at) + rest, columns, sofar)
         == (if IsEof(last) then Rows(sofar + AllParsed(body, columns)) else Failed,
             Frames(others, numbers, end) + rest)
  {
    if body == [] {
      NoMoreRows(columns, sofar, last, others, numbers, at, rest);
      assert sofar + [] == sofar;
    } else {
      var row := ParseFields(body[0], columns).value;
      NextRow(columns, body, sofar, last, others, numbers, at, rest);
      RowsAreRead(columns, body[1..], sofar + [row], last, others, numbers, at + 1, end, rest);
      Regroup(sofar, row, AllParsed(body[1..], columns));
    }
  }

  lemma Regroup(a: seq<seq<Blob>>, x: seq<Blob>, b: seq<seq<Blob>>)
    ensures a + [x] + b == a + ([x] + b)
  {
  }

  // A column count is neither an OK nor an ERR packet, and is read back.
  lemma CountIsRead(columns: nat)
    requires 1 <= columns < TWO_TO_64
    ensures var b := EncodeLenenc(columns);
      Fits(b) && !IsErr(b) && b[0] != OK_BYTE && ReadLenenc(b) == Some(Lenenc(columns, |b|))
  {
    LenencRoundTrip(columns, []);
    assert EncodeLenenc(columns) + [] == EncodeLenenc(columns);
  }

  // A whole result set on the wire, ending in `last`, with `others` after it.
  function SetOfPayloads(definitions: seq<Blob>, eof: Blob, body: seq<Blob>, last: Blob, others: seq<Blob>): seq<Blob>
    requires |definitions| < TWO_TO_64
  {
    [EncodeLenenc(|definitions|)] + DefinitionPayloads(definitions, eof, RowPayloads(body, last, others))
  }

  lemma FirstIsTheCount(columns: nat, body: seq<Blob>, numbers: nat -> byte, rest: Blob)
    requires 1 <= columns < TWO_TO_64
    ensures TakePacket(Frames([EncodeLenenc(columns)] + body, numbers, 0) + rest)
         == (Some(EncodeLenenc(columns)), Frames(body, numbers, 1) + rest)
  {
    CountIsRead(columns);
    FirstFrame([EncodeLenenc(columns)] + body, EncodeLenenc(columns), body, numbers, 0, rest);
  }

  lemma CountedReply(s: Blob, columns: nat, body: Blob, after: Blob)
    requires 1 <= columns < TWO_TO_64
    requires TakePacket(s) == (Some(EncodeLenenc(columns)), body) && SkipDefinitions(body, columns + 1) == (true, after)
    ensures ReadReply(s) == ReadRows(after, columns, [])
  {
    CountIsRead(columns);
  }

  // The count and the definitions read, what remains is the rows.
  lemma HeadIsRead(definitions: seq<Blob>, eof: Blob, body: seq<Blob>, last: Blob, others: seq<Blob>,
                   numbers: nat -> byte, rest: Blob)
    requires GoodHead(definitions, eof)
    ensures ReadReply(Frames(SetOfPayloads(definitions, eof, body, last, others), numbers, 0) + rest)
         == ReadRows(Frames(RowPayloads(body, last, others), numbers, |definitions| + 2) + rest, |definitions|, [])
  {
    var inside := RowPayloads(body, last, others);
    FirstIsTheCount(|definitions|, DefinitionPayloads(definitions, eof, inside), numbers, rest);
    DefinitionsAreSkipped(definitions, eof, inside, numbers, 1, |definitions| + 2, rest);
    CountedReply(Frames(SetOfPayloads(definitions, eof, body, last, others), numbers, 0) + rest, |definitions|,
                 Frames(DefinitionPayloads(definitions, eof, inside), numbers, 1) + rest,
                 Frames(inside, numbers, |definitions| + 2) + rest);
  }

  lemma BodyIsRead(columns: nat, body: seq<Blob>, last: Blob, others: seq<Blob>,
                   numbers: nat -> byte, at: nat, end: nat, rest: Blob)
    requires end == at + |body| + 1 && AllDecode(body, columns) && Ends(last, columns)
    ensures ReadRows(Frames(RowPayloads(body, last, others), numbers, at) + rest, columns, [])
         == (if IsEof(last) then Rows(AllParsed(body, columns)) else Failed, Frames(others, numbers, end) + rest)
  {
    RowsAreRead(columns, body, [], last, others, numbers, at, end, rest);
    assert [] + AllParsed(body, columns) == AllParsed(body, columns);
  }

  /** A query reads up to the first EOF, ERR or undecodable row after the definitions, and no further. */
  lemma SetIsRead(definitions: seq<Blob>, eof: Blob, body: seq<Blob>, last: Blob, others: seq<Blob>,
                  numbers: nat -> byte, end: nat, rest: Blob)
    requires GoodHead(definitions, eof) && AllDecode(body, |definitions|) && Ends(last, |definitions|)
    requires end == |definitions| + |body| + 3
    ensures ReadReply(Frames(SetOfPayloads(definitions, eof, body, last, others), numbers, 0) + rest)
         == (if IsEof(last) then Rows(AllParsed(body, |definitions|)) else Failed, Frames(others, numbers, end) + rest)
  {
    HeadIsRead(definitions, eof, body, last, others, numbers, rest);
    BodyIsRead(|definitions|, body, last, others, numbers, |definitions| + 2, end, rest);
  }

  lemma RowsAreSent(definitions: seq<Blob>, eof: Blob, rows: seq<seq<Field>>, last: Blob, numbers: nat -> byte,
                    rest: Blob)
    requires GoodSet(definitions, eof, rows) && Fits(last) && (IsEof(last) || IsErr(last))
    ensures ReadReply(Frames(SetOfPayloads(definitions, eof, EncodeRows(rows), last, []), numbers, 0) + rest)
         == (if IsEof(last) then Rows(AllTexts(rows)) else Failed, rest)
  {
    RowsDecode(rows, |definitions|);
    SetIsRead(definitions, eof, EncodeRows(rows), last, [], numbers, |definitions| + |rows| + 3, rest);
    assert [] + rest == rest;
  }

  /**
   A query reads exactly its own reply, whatever comes after it: the rows sent, NULL as the empty
   text, or a failure when the server reports one.
   */
  lemma ReplyIsRead(reply: Reply, numbers: nat -> byte, rest: Blob)
    requires WellFormed(reply)
    ensures ReadReply(Frames(Payloads(reply), numbers, 0) + rest) == (Expected(reply), rest)
  {
    assert [] + rest == rest;
    match reply
    case Okay(payload) => FirstFrame([payload], payload, [], numbers, 0, rest);
    case Error(payload) => FirstFrame([payload], payload, [], numbers, 0, rest);
    case ResultSet(definitions, eof, rows, lastEof) => RowsAreSent(definitions, eof, rows, lastEof, numbers, rest);
    case BrokenOff(definitions, eof, rows, error) => RowsAreSent(definitions, eof, rows, error, numbers, rest);
  }

  function Streams(replies: seq<Reply>, numbers: nat -> byte): (pieces: seq<Blob>)
    requires forall i :: 0 <= i < |replies| ==> WellFormed(replies[i])
    ensures |pieces| == |replies|
    ensures forall i :: 0 <= i < |replies| ==> pieces[i] == Frames(Payloads(replies[i]), numbers, 0)
  {
    if replies == [] then []
    else [Frames(Payloads(replies[0]), numbers, 0)] + Streams(replies[1..], numbers)
  }

  function AllExpected(replies: seq<Reply>): (results: seq<Result>)
    ensures |results| == |replies| && forall i :: 0 <= i < |replies| ==> results[i] == Expected(replies[i])
  {
    if replies == [] then [] else [Expected(replies[0])] + AllExpected(replies[1..])
  }

  /** Query after query over one stream, the session stays in step with the server. */
  lemma SessionStaysInStep(replies: seq<Reply>, numbers: nat -> byte, rest: Blob)
    requires forall i :: 0 <= i < |replies| ==> WellFormed(replies[i])
    ensures Repeat(ReadReply, Concat(Streams(replies, numbers)) + rest, |replies|) == (AllExpected(replies), rest)
  {
    var pieces, results := Streams(replies, numbers), AllExpected(replies);
    forall i, tail: Blob | 0 <= i < |pieces| ensures ReadReply(pieces[i] + tail) == (results[i], tail) {
      ReplyIsRead(replies[i], numbers, tail);
    }
    RepeatInStep(ReadReply, pieces, results, rest);
  }

  lemma FirstUndecodable(body: seq<Blob>, columns: nat) returns (k: nat)
    requires (forall i :: 0 <= i < |body| ==> Plain(body[i])) && !AllDecode(body, columns)
    ensures k < |body| && AllDecode(body[..k], columns) && !Decodes(body[k], columns)
  {
    k := 0;
    while Decodes(body[k], columns)
      invariant k < |body| && AllDecode(body[..k], columns)
      invariant exists i :: k <= i < |body| && !Decodes(body[i], columns)
      decreases |body| - k
    {
      k := k + 1;
    }
  }

  lemma FramesTakeRoom(payloads: seq<Blob>, numbers: nat -> byte, at: nat)
    requires payloads != []
    ensures |Frames(payloads, numbers, at)| >= 4
  {
  }

  /**
   After a result set of any payloads at all, the session is in step exactly when every row decoded: at
   the first that does not, the query fails at once, and everything the server sends after it is left
   for the next query to trip over.
   */
  lemma {:induction false} InStepExactlyWhen(definitions: seq<Blob>, eof: Blob, body: seq<Blob>, lastEof: Blob,
                                             numbers: nat -> byte, rest: Blob)
    requires GoodHead(definitions, eof) && (forall i :: 0 <= i < |body| ==> Plain(body[i])) && IsEof(lastEof)
    ensures
      var (result, unread) := ReadReply(Frames(SetOfPayloads(definitions, eof, body, lastEof, []), numbers, 0) + rest);
      && (unread == rest <==> AllDecode(body, |definitions|))
      && (result.Rows? <==> AllDecode(body, |definitions|))
      && (result.Rows? ==> result.rows == AllParsed(body, |definitions|))
  {
    var columns := |definitions|;
    if AllDecode(body, columns) {
      SetIsRead(definitions, eof, body, lastEof, [], numbers, columns + |body| + 3, rest);
      assert [] + rest == rest;
    } else {
      var k := FirstUndecodable(body, columns);
      var others := body[k + 1..] + [lastEof];
      SetSplitsAt(definitions, eof, body, k, lastEof);
      SetIsRead(definitions, eof, body[..k], body[k], others, numbers, columns + k + 3, rest);
      FramesTakeRoom(others, numbers, columns + k + 3);
    }
  }

  /** An empty row is one: the EOF after it is left unread, and the session is out of step. */
  lemma EmptyRowDesynchronises(numbers: nat -> byte, rest: Blob)
    ensures ReadReply(Frames(SetOfPayloads([[]], [EOF_BYTE], [[]], [EOF_BYTE], []), numbers, 0) + rest).1 != rest
  {
    assert !Decodes([[]][0], 1);
    InStepExactlyWhen([[]], [EOF_BYTE], [[]], [EOF_BYTE], numbers, rest);
  }

  lemma SetSplitsAt(definitions: seq<Blob>, eof: Blob, body: seq<Blob>, k: nat, last: Blob)
    requires |definitions| < TWO_TO_64 && k < |body|
    ensures SetOfPayloads(definitions, eof, body, last, [])
         == SetOfPayloads(definitions, eof, body[..k], body[k], body[k + 1..] + [last])
  {
    assert RowPayloads(body, last, []) == RowPayloads(body[..k], body[k], body[k + 1..] + [last]);
  }

  // ----- what breaks off -----

  lemma FirstOf(payloads: seq<Blob>, numbers: nat -> byte, at: nat, tail: Blob)
    requires payloads != [] && Fits(payloads[0])
    ensures TakePacket(Frames(payloads, numbers, at) + tail)
         == (Some(payloads[0]), Frames(payloads[1..], numbers, at + 1) + tail)
  {
    FirstFrame(payloads, payloads[0], payloads[1..], numbers, at, tail);
  }

  /** Definitions that break off before they are complete. */
  lemma {:induction false} BrokenDefinitionsFail(definitions: seq<Blob>, left: nat, numbers: nat -> byte, at: nat,
                                                 tail: Blob)
    requires |definitions| < left && TakePacket(tail).0 == None
    requires forall i :: 0 <= i < |definitions| ==> Fits(definitions[i]) && !IsEof(definitions[i])
    ensures SkipDefinitions(Frames(definitions, numbers, at) + tail, left) == (false, TakePacket(tail).1)
  {
    if definitions == [] {
      assert [] + tail == tail;
    } else {
      FirstOf(definitions, numbers, at, tail);
      BrokenDefinitionsFail(definitions[1..], left - 1, numbers, at + 1, tail);
    }
  }

  /** Rows that break off before an EOF. */
  lemma {:induction false} BrokenRowsFail(columns: nat, body: seq<Blob>, sofar: seq<seq<Blob>>, numbers: nat -> byte,
                                          at: nat, tail: Blob)
    requires AllDecode(body, columns) && TakePacket(tail).0 == None
    ensures ReadRows(Frames(body, numbers, at) + tail, columns, sofar) == (Failed, TakePacket(tail).1)
  {
    if body == [] {
      assert [] + tail == tail;
    } else {
      FirstOf(body, numbers, at, tail);
      BrokenRowsFail(columns, body[1..], sofar + [ParseFields(body[0], columns).value], numbers, at + 1, tail);
    }
  }

  lemma CountBeforeTail(columns: nat, others: seq<Blob>, numbers: nat -> byte, tail: Blob)
    requires 1 <= columns < TWO_TO_64
    ensures var (ok, after) := SkipDefinitions(Frames(others, numbers, 1) + tail, columns + 1);
      ReadReply(Frames([EncodeLenenc(columns)] + others, numbers, 0) + tail)
        == if ok then ReadRows(after, columns, []) else (Failed, after)
  {
    CountIsRead(columns);
    FirstIsTheCount(columns, others, numbers, tail);
  }

  /**
   A result set that breaks off anywhere fails, whatever rows came before: after some of the definitions, or after all
   of them, their EOF and some of the rows.
   */
  lemma {:induction false} BrokenSetFails(definitions: seq<Blob>, some: nat, eof: Blob, body: seq<Blob>,
                                          numbers: nat -> byte, tail: Blob)
    requires GoodHead(definitions, eof) && some <= |definitions| && AllDecode(body, |definitions|)
    requires TakePacket(tail).0 == None
    ensures ReadReply(tail).0 == Failed
    ensures ReadReply(Frames([EncodeLenenc(|definitions|)] + definitions[..some], numbers, 0) + tail).0 == Failed
    ensures ReadReply(Frames([EncodeLenenc(|definitions|)] + DefinitionPayloads(definitions, eof, body), numbers, 0)
                      + tail).0 == Failed
  {
    CountBeforeTail(|definitions|, definitions[..some], numbers, tail);
    BrokenDefinitionsFail(definitions[..some], |definitions| + 1, numbers, 1, tail);
    CountBeforeTail(|definitions|, DefinitionPayloads(definitions, eof, body), numbers, tail);
    DefinitionsAreSkipped(definitions, eof, body, numbers, 1, |definitions| + 2, tail);
    BrokenRowsFail(|definitions|, body, [], numbers, |definitions| + 2, tail);
  }

  // ----- the bytes themselves -----

  /** The first bytes that the protocol reserves, and what marks the end of a list. */
  lemma MarkersAre(payload: Blob)
    ensures IsEof(payload) <==> 1 <= |payload| <= 8 && payload[0] == 0xfe
    ensures IsErr(payload) <==> 1 <= |payload| && payload[0] == 0xff
    ensures EncodeField(None) == [0xfb] && EncodeField(Some([])) == [0x00]
  {
  }

  /** A length up to 250 takes one byte; from 252 on that byte says how many more hold it; 251 and 255 hold none. */
  lemma LengthIsWritten(b: Blob)
    ensures b == [] ==> ReadLenenc(b) == None
    ensures b != [] && b[0] <= 250 ==> ReadLenenc(b) == Some(Lenenc(b[0] as nat, 1))
    ensures b != [] && b[0] == 252 ==>
      ReadLenenc(b) == if |b| < 3 then None else Some(Lenenc(b[1] as int + 0x100 * b[2] as int, 3))
    ensures b != [] && b[0] == 253 ==>
      ReadLenenc(b)
        == if |b| < 4 then None else Some(Lenenc(b[1] as int + 0x100 * b[2] as int + 0x1_0000 * b[3] as int, 4))
    ensures b != [] && b[0] == 254 ==>
      if |b| < 9 then ReadLenenc(b) == None
      else ReadLenenc(b) == Some(Lenenc(FromLittle(b[1..5]) + 0x1_0000_0000 * FromLittle(b[5..9]), 9))
    ensures b != [] && b[0] in {251, 255} ==> ReadLenenc(b) == None
  {
    if |b| >= 3 { LittleWeights(b[1..3]); }
    if |b| >= 4 { LittleWeights(b[1..4]); }
    if |b| >= 9 {
      assert b[1..9] == b[1..5] + b[5..9];
      LittleHalves(b[1..5], b[5..9]);
      assert Pow256(4) == 0x1_0000_0000;
    }
  }

  // What the header of a packet says of its length.
  function Announced(s: Blob): nat
    requires |s| >= 4
  {
    s[0] as nat + 0x100 * s[1] as nat + 0x1_0000 * s[2] as nat
  }

  /** What is sent: the payload's length, the number of the packet, and the payload. */
  lemma FrameIsWritten(number: byte, payload: Blob)
    requires |payload| < 0x100_0000
    ensures var s := Frame(number, payload);
      |s| >= 4 && Announced(s) == |payload| && s[3] == number && s[4..] == payload
  {
    var s := Frame(number, payload);
    Powers();
    LittleRoundTrip(|payload|, 3);
    LittleWeights(ToLittle(|payload|, 3));
    assert s[..3] == ToLittle(|payload|, 3);
  }

  /**
   A packet is taken if and only if the stream begins with a header and as many bytes as it announces, at most 2^20;
   and then just that is taken.
   */
  lemma PacketExactlyWhen(s: Blob, payload: Blob, rest: Blob)
    ensures TakePacket(s) == (Some(payload), rest) <==>
              |s| >= 4 && Announced(s) == |payload| <= 0x10_0000 && s[4..] == payload + rest
  {
    if |s| >= 4 {
      LittleWeights(s[..3]);
      var n := Announced(s);
      if |s| >= 4 + n { assert s[4..] == s[4..4 + n] + s[4 + n..]; }
      if s[4..] == payload + rest && n == |payload| {
        assert s[4..4 + n] == (payload + rest)[..n] && s[4 + n..] == (payload + rest)[n..];
      }
    }
  }

  /** Otherwise the stream is used up, or read past the header if what it announces is implausible. */
  lemma PacketMissing(s: Blob)
    requires TakePacket(s).0 == None
    ensures TakePacket(s).1 == if |s| >= 4 && Announced(s) > 0x10_0000 then s[4..] else []
  {
    if |s| >= 4 { LittleWeights(s[..3]); }
  }

  // A value cut short on the wire.
  lemma CutFieldIsRefused(f: Field, k: nat, columns: nat)
    requires |Text(f)| < TWO_TO_64 && k < |EncodeField(f)|
    ensures ParseFields(EncodeField(f)[..k], columns + 1) == None
  {
    if k > 0 {
      var head := EncodeLenenc(|f.value|);
      var b := EncodeField(f)[..k];
      assert b[0] == head[0] && head[0] != NULL_BYTE;
      if k >= |head| {
        assert b == head + f.value[..k - |head|];
        LenencRoundTrip(|f.value|, f.value[..k - |head|]);
      }
    }
  }

  lemma CutLaterIsRefused(f: Field, others: Blob, k: nat, columns: nat)
    requires |Text(f)| < TWO_TO_64 && k <= |others| && ParseFields(others[..k], columns) == None
    ensures ParseFields((EncodeField(f) + others)[..|EncodeField(f)| + k], columns + 1) == None
  {
    assert (EncodeField(f) + others)[..|EncodeField(f)| + k] == EncodeField(f) + others[..k];
    FieldIsRead(f, others[..k], columns);
  }

  lemma CutFirstIsRefused(f: Field, others: Blob, k: nat, columns: nat)
    requires |Text(f)| < TWO_TO_64 && k < |EncodeField(f)|
    ensures ParseFields((EncodeField(f) + others)[..k], columns + 1) == None
  {
    assert (EncodeField(f) + others)[..k] == EncodeField(f)[..k];
    CutFieldIsRefused(f, k, columns);
  }

  /** A row cut short anywhere is refused, never read as a shorter one. */
  lemma {:induction false} CutRowIsRefused(row: seq<Field>, k: nat)
    requires Encodable(row) && k < |EncodeRow(row)|
    ensures ParseFields(EncodeRow(row)[..k], |row|) == None
  {
    var first, others := EncodeField(row[0]), EncodeRow(row[1..]);
    assert EncodeRow(row) == first + others;
    if k < |first| {
      CutFirstIsRefused(row[0], others, k, |row| - 1);
    } else {
      CutRowIsRefused(row[1..], k - |first|);
      CutLaterIsRefused(row[0], others, k - |first|, |row| - 1);
    }
  }
}
