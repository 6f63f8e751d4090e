/**
 One access-log line turned into an entry: host allowlisting, duration units and the two line
 formats. Standard-library calls (trimming, case folding, JSON, number parsing) are parameters.
 */
module AccessLog {

  import opened Wrappers
  import opened Bytes
  import opened Alphabets

  datatype Entry = Entry(statusCode: int, durationMs: real, host: string)

  datatype TraefikJson = TraefikJson(duration: int, downstreamStatus: int, originStatus: int, requestHost: string)

  datatype Format = Json | Clf | Auto

  datatype Std = Std(
    trimmed: Blob -> string,                  // strings.TrimSpace(string(line))
    fold: string -> string,                   // strings.ToLower(strings.TrimSpace(raw))
    json: string -> Option<TraefikJson>,      // json.Unmarshal
    fields: string -> seq<string>,            // strings.Fields
    atoi: string -> Option<int>,              // strconv.Atoi
    float: string -> Option<real>)            // strconv.ParseFloat

  // ----- hosts -----

  // Where requests beyond the tracked sites are counted.
  const OVERFLOW_SITE := "(other)"

  const MAX_HOST: nat := 100

  predicate AllowedChar(c: char) {
    'a' <= c <= 'z' || '0' <= c <= '9' || c == '.' || c == '-' || c == '_' || c == ':'
  }

  /** What a site may be called. */
  predicate IsHost(host: string) {
    1 <= |host| <= MAX_HOST && forall i :: 0 <= i < |host| ==> AllowedChar(host[i])
  }

  function LastIndex(s: string, c: char): (i: int)
    ensures -1 <= i < |s|
    ensures i >= 0 ==> s[i] == c
    ensures forall j :: i < j < |s| ==> s[j] != c
  {
    if s == [] then -1 else if s[|s| - 1] == c then |s| - 1 else LastIndex(s[..|s| - 1], c)
  }

  function WithoutPort(host: string): string {
    var i := LastIndex(host, ':');
    if i >= 0 && ']' !in host[i + 1..] then host[..i] else host
  }

  predicate Bracket(c: char) {
    c == '[' || c == ']'
  }

  function TrimFront(s: string): string {
    if s != [] && Bracket(s[0]) then TrimFront(s[1..]) else s
  }

  function TrimBack(s: string): string {
    if s != [] && Bracket(s[|s| - 1]) then TrimBack(s[..|s| - 1]) else s
  }

  function WithoutDot(s: string): string {
    if s != [] && s[|s| - 1] == '.' then s[..|s| - 1] else s
  }

  function Candidate(folded: string): string {
    WithoutDot(TrimBack(TrimFront(WithoutPort(folded))))
  }

  /** The site a folded Host header names, or "" for anything that is not a host name. */
  function HostOf(folded: string): string {
    if IsHost(Candidate(folded)) then Candidate(folded) else ""
  }

  method NormalizeHost(folded: string) returns (host: string)
    ensures host == HostOf(folded)
  {
    host := folded;
    var i := LastIndex(host, ':');
    if i >= 0 && ']' !in host[i + 1..] { host := host[..i]; }
    host := TrimBack(TrimFront(host));
    if host != [] && host[|host| - 1] == '.' { host := host[..|host| - 1]; }
    if host == "" || |host| > MAX_HOST { return ""; }
    for k := 0 to |host|
      invariant forall j :: 0 <= j < k ==> AllowedChar(host[j])
    {
      if !AllowedChar(host[k]) { return ""; }
    }
  }

  lemma OverflowIsNoHost()
    ensures !IsHost(OVERFLOW_SITE)
  {
    assert !AllowedChar(OVERFLOW_SITE[0]);
  }

  /** No header whatever is attributed to the overflow row. */
  lemma HostNeverOverflows(folded: string)
    ensures HostOf(folded) != OVERFLOW_SITE
    ensures HostOf(folded) == "" || IsHost(HostOf(folded))
  {
    OverflowIsNoHost();
  }

  ghost predicate IsPort(port: string) {
    ':' !in port && ']' !in port
  }

  lemma PortIsDropped(name: string, port: string)
    requires IsPort(port)
    ensures WithoutPort(name + ":" + port) == name
  {
    var s := name + ":" + port;
    assert s[|name|] == ':';
    assert s[|name| + 1..] == port;
    assert forall k :: |name| < k < |s| ==> s[k] == port[k - |name| - 1];
    assert s[..|name|] == name;
  }

  lemma TrimKeeps(name: string)
    requires IsHost(name)
    ensures TrimFront(name) == name && TrimBack(name) == name
  {
    assert AllowedChar(name[0]) && AllowedChar(name[|name| - 1]);
  }

  /** The same site whatever port, or final dot, it was asked for with. */
  lemma {:induction false} SiteIgnoresPortAndDot(name: string, port: string)
    requires IsHost(name) && ':' !in name && name[|name| - 1] != '.' && IsPort(port)
    ensures HostOf(name) == HostOf(name + ":" + port) == HostOf(name + ".") == HostOf(name + "." + ":" + port) == name
  {
    TrimKeeps(name);
    PortIsDropped(name, port);
    PortIsDropped(name + ".", port);
    var dotted := name + ".";
    assert WithoutPort(name) == name;
    assert WithoutPort(dotted) == dotted;
    assert TrimFront(dotted) == dotted;
    assert WithoutDot(dotted) == name;
  }

  /** An IPv6 literal keeps all of its own colons when it is bracketed, with or without a port. */
  lemma BracketedLiteralSurvives(literal: string, port: string)
    requires IsHost(literal) && literal[|literal| - 1] != '.' && IsPort(port)
    ensures HostOf("[" + literal + "]") == HostOf("[" + literal + "]" + ":" + port) == literal
  {
    var boxed := "[" + literal + "]";
    PortIsDropped(boxed, port);
    assert boxed[|boxed| - 1] == ']';
    var i := LastIndex(boxed, ':');
    assert i >= 0 ==> boxed[i + 1..][|boxed| - 1 - i - 1] == ']';
    assert WithoutPort(boxed) == boxed;
    BracketsAreTrimmed(literal);
  }

  lemma BracketsAreTrimmed(literal: string)
    requires IsHost(literal)
    ensures TrimBack(TrimFront("[" + literal + "]")) == literal
  {
    var boxed := "[" + literal + "]";
    assert boxed[1..] == literal + "]";
    assert AllowedChar(literal[0]);
    assert TrimFront(literal + "]") == literal + "]";
    assert (literal + "]")[..|literal|] == literal;
    TrimKeeps(literal);
    assert TrimBack(literal + "]") == TrimBack(literal);
  }

  lemma {:induction false} TrimsAreShort(s: string)
    ensures |TrimFront(s)| <= |s| && |TrimBack(s)| <= |s|
    decreases |s|
  {
    if s != "" {
      TrimsAreShort(s[1..]);
      TrimsAreShort(s[..|s| - 1]);
    }
  }

  lemma ColonShortens(host: string)
    requires IsHost(host) && ':' in host
    ensures |WithoutPort(host)| < |host|
  {
    var i := LastIndex(host, ':');
    assert forall k :: 0 <= k < |host| ==> host[k] != ']';
  }

  lemma CandidateIsShort(folded: string)
    ensures |Candidate(folded)| <= |WithoutPort(folded)|
  {
    TrimsAreShort(WithoutPort(folded));
    TrimsAreShort(TrimFront(WithoutPort(folded)));
  }

  /**
   A reported name asked for again names the same site exactly when it holds no colon and no final
   dot: a colon outside brackets is taken for the start of a port.
   */
  lemma {:induction false} StableExactlyWhen(host: string)
    requires IsHost(host)
    ensures HostOf(host) == host <==> ':' !in host && host[|host| - 1] != '.'
  {
    if ':' in host {
      ColonShortens(host);
      CandidateIsShort(host);
    } else {
      TrimKeeps(host);
      assert WithoutPort(host) == host;
    }
  }

  ghost predicate TwoColons(s: string) {
    exists i, j :: 0 <= i < j < |s| && s[i] == ':' && s[j] == ':'
  }

  // A colon with a closing bracket somewhere after it, as in a bracketed literal.
  ghost predicate ColonBeforeBracket(s: string) {
    exists i, j :: 0 <= i < j < |s| && s[i] == ':' && s[j] == ']'
  }

  // No bracket after the last colon: what follows it is taken for a port.
  lemma ColonBeforeLast(folded: string, i: nat)
    requires i < |folded| && folded[i] == ':' && forall j :: i < j < |folded| ==> folded[j] != ':' && folded[j] != ']'
    ensures ':' in folded[..i] <==> TwoColons(folded) || ColonBeforeBracket(folded)
  {
    if ':' in folded[..i] {
      var k :| 0 <= k < i && folded[..i][k] == ':';
      assert folded[k] == ':';
    }
    forall k, j | 0 <= k < j < |folded| && folded[k] == ':' && (folded[j] == ':' || folded[j] == ']')
      ensures ':' in folded[..i]
    {
      assert k < i && folded[..i][k] == ':';
    }
  }

  lemma ColonAfterPort(folded: string)
    ensures ':' in WithoutPort(folded) <==> TwoColons(folded) || ColonBeforeBracket(folded)
  {
    var i := LastIndex(folded, ':');
    if i >= 0 {
      var rest := folded[i + 1..];
      assert forall j :: i < j < |folded| ==> folded[j] == rest[j - i - 1];
      if ']' in rest {
        var j :| 0 <= j < |rest| && rest[j] == ']';
        assert folded[i + 1 + j] == ']';
      } else {
        ColonBeforeLast(folded, i);
      }
    }
  }

  lemma {:induction false} FrontKeepsColon(s: string)
    ensures ':' in TrimFront(s) <==> ':' in s
  {
    if s != "" && Bracket(s[0]) {
      FrontKeepsColon(s[1..]);
      assert s == [s[0]] + s[1..];
    }
  }

  lemma {:induction false} BackKeepsColon(s: string)
    ensures ':' in TrimBack(s) <==> ':' in s
  {
    if s != "" && Bracket(s[|s| - 1]) {
      BackKeepsColon(s[..|s| - 1]);
      assert s == s[..|s| - 1] + [s[|s| - 1]];
    }
  }

  lemma DotKeepsColon(s: string)
    ensures ':' in WithoutDot(s) <==> ':' in s
  {
    if s != "" && s[|s| - 1] == '.' { assert s == s[..|s| - 1] + "."; }
  }

  /**
   Whatever the header: a colon survives in the site it names if and only if the header held two colons, or
   a colon inside brackets. Without brackets, then, every address with two colons keeps all but the last.
   */
  lemma ColonSurvivesExactlyWhen(folded: string)
    requires HostOf(folded) != ""
    ensures ':' in HostOf(folded) <==> TwoColons(folded) || ColonBeforeBracket(folded)
  {
    var bare := WithoutPort(folded);
    ColonAfterPort(folded);
    FrontKeepsColon(bare);
    BackKeepsColon(TrimFront(bare));
    DotKeepsColon(TrimBack(TrimFront(bare)));
  }

  /** For a header that could itself be a site's name, that is: exactly when it holds two colons. */
  lemma ColonSurvivesUnbracketed(host: string)
    requires IsHost(host)
    ensures ':' in HostOf(host) <==> TwoColons(host)
  {
    assert !ColonBeforeBracket(host);
    if TwoColons(host) { TwoColonsLeaveAName(host); }
    if HostOf(host) != "" { ColonSurvivesExactlyWhen(host); }
  }

  lemma TwoColonsLeaveAName(host: string)
    requires IsHost(host) && TwoColons(host)
    ensures HostOf(host) != ""
  {
    var i := LastIndex(host, ':');
    var bare := host[..i];
    ColonAfterPort(host);
    assert ']' !in host[i + 1..] && WithoutPort(host) == bare;
    assert forall k :: 0 <= k < |bare| ==> AllowedChar(bare[k]);
    TrimKeeps(bare);
    DotKeepsColon(bare);
  }

  /** Without brackets an IPv6 address loses its last group, and a colon survives. */
  lemma BareAddressIsCut()
    ensures HostOf("fe80::1:2") == "fe80::1"
  {
    var host := "fe80::1:2";
    var i := LastIndex(host, ':');
    assert host[7] == ':' && host[8] == '2';
    assert i == 7 && host[..7] == "fe80::1";
    assert IsHost("fe80::1");
    TrimKeeps("fe80::1");
  }

  // ----- durations -----

  datatype Unit = Unit(suffix: string, toMs: real)

  const UNITS: seq<Unit> :=
    [Unit("ms", 1.0), Unit("\U{B5}s", 0.001), Unit("us", 0.001), Unit("ns", 0.000001), Unit("s", 1000.0)]

  predicate HasSuffix(s: string, suffix: string) {
    |suffix| <= |s| && s[|s| - |suffix|..] == suffix
  }

  function InMs(value: real, toMs: real): real {
    value * toMs
  }

  function Scaled(value: Option<real>, toMs: real): Option<real> {
    if value == None || value.value < 0.0 then None else Some(InMs(value.value, toMs))
  }

  function DurationFrom(std: Std, units: seq<Unit>, field: string, i: nat): Option<real>
    requires i <= |units|
    decreases |units| - i
  {
    if i == |units| then Scaled(std.float(field), 1.0)
    else if HasSuffix(field, units[i].suffix) then
      Scaled(std.float(field[..|field| - |units[i].suffix|]), units[i].toMs)
    else DurationFrom(std, units, field, i + 1)
  }

  /** Milliseconds: the first unit in the table whose suffix matches, or plain milliseconds. */
  function DurationOf(std: Std, field: string): Option<real> {
    DurationFrom(std, UNITS, field, 0)
  }

  method ParseDuration(std: Std, field: string) returns (ms: Option<real>)
    ensures ms == DurationOf(std, field)
  {
    ms := ParseWith(std, UNITS, field);
  }

  method ParseWith(std: Std, units: seq<Unit>, field: string) returns (ms: Option<real>)
    ensures ms == DurationFrom(std, units, field, 0)
  {
    for i := 0 to |units|
      invariant DurationFrom(std, units, field, i) == DurationFrom(std, units, field, 0)
    {
      var unit := units[i];
      if HasSuffix(field, unit.suffix) {
        var value := std.float(field[..|field| - |unit.suffix|]);
        if value == None || value.value < 0.0 { return None; }
        return Some(InMs(value.value, unit.toMs));
      }
    }
    var value := std.float(field);
    if value == None || value.value < 0.0 { return None; }
    return value;
  }

  lemma {:induction false} DurationNonNegative(std: Std, units: seq<Unit>, field: string, i: nat)
    requires i <= |units| && forall k :: 0 <= k < |units| ==> units[k].toMs > 0.0
    ensures DurationFrom(std, units, field, i).Some? ==> DurationFrom(std, units, field, i).value >= 0.0
    decreases |units| - i
  {
    if i < |units| && !HasSuffix(field, units[i].suffix) { DurationNonNegative(std, units, field, i + 1); }
  }

  // ----- lines -----

  function ParseJson(std: Std, line: string): Option<Entry> {
    match std.json(line)
    case None => None
    case Some(decoded) =>
      var status := if decoded.downstreamStatus == 0 then decoded.originStatus else decoded.downstreamStatus;
      if status == 0 || decoded.duration < 0 then None
      else Some(Entry(status, decoded.duration as real / 1000000.0, HostOf(std.fold(decoded.requestHost))))
  }

  function FirstIndex(s: string, c: char): (i: int)
    ensures -1 <= i < |s|
    ensures i >= 0 ==> s[i] == c && forall j :: 0 <= j < i ==> s[j] != c
    ensures i < 0 ==> c !in s
  {
    if s == [] then -1 else if s[0] == c then 0
    else
      var i := FirstIndex(s[1..], c);
      if i < 0 then -1 else i + 1
  }

  // What follows the quoted request.
  function AfterRequest(line: string): Option<string> {
    var start := FirstIndex(line, '"');
    if start < 0 then None else
    var end := FirstIndex(line[start + 1..], '"');
    if end < 0 then None else Some(line[start + 1 + end + 1..])
  }

  function FromFields(std: Std, rest: seq<string>): Option<Entry> {
    if |rest| < 2 then None else
    var status := std.atoi(rest[0]);
    if status == None || status.value < 100 || status.value > 599 then None else
    var duration := DurationOf(std, rest[|rest| - 1]);
    if duration == None then None else Some(Entry(status.value, duration.value, ""))
  }

  function ParseClf(std: Std, line: string): Option<Entry> {
    var rest := AfterRequest(line);
    if rest == None then None else FromFields(std, std.fields(rest.value))
  }

  function ParseLine(std: Std, line: Blob, format: Format): Option<Entry> {
    var trimmed := std.trimmed(line);
    if trimmed == "" then None
    else match format
      case Json => ParseJson(std, trimmed)
      case Clf => ParseClf(std, trimmed)
      case Auto => if trimmed[0] == '{' then ParseJson(std, trimmed) else ParseClf(std, trimmed)
  }

  /** What every later stage relies on. */
  ghost predicate CleanEntry(e: Entry) {
    e.durationMs >= 0.0 && e.statusCode != 0 && (e.host == "" || IsHost(e.host))
  }

  lemma JsonEntriesAreClean(std: Std, line: string)
    ensures ParseJson(std, line).Some? ==> CleanEntry(ParseJson(std, line).value)
  {
    if std.json(line).Some? { HostNeverOverflows(std.fold(std.json(line).value.requestHost)); }
  }

  lemma ClfEntriesAreClean(std: Std, line: string)
    ensures ParseClf(std, line).Some? ==> CleanEntry(ParseClf(std, line).value)
  {
    if AfterRequest(line).Some? {
      var rest := std.fields(AfterRequest(line).value);
      if |rest| >= 2 { DurationNonNegative(std, UNITS, rest[|rest| - 1], 0); }
    }
  }

  lemma ParsedEntriesAreClean(std: Std, line: Blob, format: Format)
    ensures ParseLine(std, line, format).Some? ==> CleanEntry(ParseLine(std, line, format).value)
  {
    JsonEntriesAreClean(std, std.trimmed(line));
    ClfEntriesAreClean(std, std.trimmed(line));
  }

  /** Text that does not itself end like a unit. */
  ghost predicate PlainNumber(number: string) {
    number != "" && number[|number| - 1] !in {'m', '\U{B5}', 'u', 'n', 's'}
  }

  lemma {:induction false} SkipTo(std: Std, units: seq<Unit>, field: string, i: nat, j: nat)
    requires i <= j <= |units| && forall k :: i <= k < j ==> !HasSuffix(field, units[k].suffix)
    ensures DurationFrom(std, units, field, i) == DurationFrom(std, units, field, j)
    decreases j - i
  {
    if i < j { SkipTo(std, units, field, i + 1, j); }
  }

  lemma SuffixEndsIn(s: string, suffix: string, back: nat)
    requires back < |suffix|
    ensures HasSuffix(s, suffix) ==> s[|s| - 1 - back] == suffix[|suffix| - 1 - back]
  {
    if HasSuffix(s, suffix) { assert s[|s| - |suffix|..][|suffix| - 1 - back] == s[|s| - 1 - back]; }
  }

  lemma OtherUnit(number: string, i: nat, k: nat)
    requires PlainNumber(number) && k < i < |UNITS|
    ensures !HasSuffix(number + UNITS[i].suffix, UNITS[k].suffix)
  {
    var suffix := UNITS[i].suffix;
    var field := number + suffix;
    assert |UNITS[k].suffix| == 2 && UNITS[k].suffix[0] in {'m', '\U{B5}', 'u', 'n'};
    assert field[|field| - 2] == if |suffix| == 2 then suffix[0] else number[|number| - 1];
    SuffixEndsIn(field, UNITS[k].suffix, 1);
  }

  /** Every unit of the table is read with its own factor, whatever the number before it. */
  lemma {:induction false} DurationUnits(std: Std, number: string, i: nat)
    requires PlainNumber(number) && i < |UNITS|
    ensures DurationOf(std, number + UNITS[i].suffix) == Scaled(std.float(number), UNITS[i].toMs)
  {
    var field := number + UNITS[i].suffix;
    forall k | 0 <= k < i ensures !HasSuffix(field, UNITS[k].suffix) { OtherUnit(number, i, k); }
    SkipTo(std, UNITS, field, 0, i);
    assert field[|field| - |UNITS[i].suffix|..] == UNITS[i].suffix;
    assert field[..|field| - |UNITS[i].suffix|] == number;
  }

  /** A number without a unit is milliseconds. */
  lemma {:induction false} DurationWithoutUnit(std: Std, number: string)
    requires PlainNumber(number)
    ensures DurationOf(std, number) == Scaled(std.float(number), 1.0)
  {
    forall k | 0 <= k < |UNITS| ensures !HasSuffix(number, UNITS[k].suffix) {
      SuffixEndsIn(number, UNITS[k].suffix, 0);
    }
    SkipTo(std, UNITS, number, 0, |UNITS|);
  }

  // ----- what an accepted line says -----

  lemma ScaledIs(v: real, toMs: real)
    ensures Scaled(Some(v), toMs) == if v < 0.0 then None else Some(v * toMs)
  {
  }

  lemma UnitsAre()
    ensures |UNITS| == 5
    ensures UNITS[0] == Unit("ms", 1.0) && UNITS[1] == Unit("\U{B5}s", 0.001) && UNITS[2] == Unit("us", 0.001)
    ensures UNITS[3] == Unit("ns", 0.000001) && UNITS[4] == Unit("s", 1000.0)
  {
  }

  lemma UnitIs(std: Std, number: string, v: real, i: nat, suffix: string, field: string, ms: real)
    requires PlainNumber(number) && std.float(number) == Some(v) && i < |UNITS|
    requires UNITS[i].suffix == suffix && field == number + suffix && ms == v * UNITS[i].toMs
    ensures DurationOf(std, field) == if v < 0.0 then None else Some(ms)
  {
    DurationUnits(std, number, i);
    assert DurationOf(std, field) == Scaled(Some(v), UNITS[i].toMs);
    ScaledIs(v, UNITS[i].toMs);
  }

  /** How many milliseconds there are in each unit, by its name. */
  function MillisecondsIn(suffix: string): real {
    if suffix == "s" then 1000.0 else if suffix == "ms" then 1.0 else if suffix == "ns" then 0.000001 else 0.001
  }

  /** A number with a unit, whichever of the five it is, and a number without one are read as that many milliseconds. */
  lemma {:induction false} DurationInMilliseconds(std: Std, number: string, suffix: string, v: real)
    requires PlainNumber(number) && std.float(number) == Some(v)
    requires suffix in ["ms", "\U{B5}s", "us", "ns", "s"]
    ensures DurationOf(std, number + suffix) == if v < 0.0 then None else Some(v * MillisecondsIn(suffix))
  {
    var i :| 0 <= i < 5 && ["ms", "\U{B5}s", "us", "ns", "s"][i] == suffix;
    UnitsAre();
    assert UNITS[i].suffix == suffix && UNITS[i].toMs == MillisecondsIn(suffix);
    UnitIs(std, number, v, i, suffix, number + suffix, v * MillisecondsIn(suffix));
  }

  /**
   A line of JSON is an entry if and only if one of its two statuses is there and its duration is not
   negative. The duration is read as nanoseconds, the status is the one the client received, or
   the backend's if there is none, and the site is the one its host header names.
   */
  lemma JsonLineIsRead(std: Std, line: Blob)
    ensures var decoded, entry := std.json(std.trimmed(line)), ParseLine(std, line, Json);
      if std.trimmed(line) == "" || decoded == None then entry == None
      else
        var d := decoded.value;
        && (entry.Some? <==> (d.downstreamStatus != 0 || d.originStatus != 0) && d.duration >= 0)
        && (entry.Some? ==>
              && entry.value.durationMs * 1000000.0 == d.duration as real
              && (d.downstreamStatus != 0 ==> entry.value.statusCode == d.downstreamStatus)
              && (d.downstreamStatus == 0 ==> entry.value.statusCode == d.originStatus)
              && entry.value.host == HostOf(std.fold(d.requestHost)))
  {
  }

  /** A line of the common format: some text, the quoted request, and what follows it. */
  function ClfLine(text: string, request: string, tail: string): string {
    text + ['"'] + request + ['"'] + tail
  }

  lemma FirstIndexIs(before: string, c: char, after: string)
    requires c !in before
    ensures FirstIndex(before + [c] + after, c) == |before|
  {
    var s := before + [c] + after;
    assert s[|before|] == c;
    assert forall j :: 0 <= j < |before| ==> s[j] == before[j];
  }

  lemma QuotesAreFound(text: string, request: string, tail: string)
    requires '"' !in text && '"' !in request
    ensures AfterRequest(ClfLine(text, request, tail)) == Some(tail)
  {
    var line := ClfLine(text, request, tail);
    assert line == text + ['"'] + (request + ['"'] + tail);
    FirstIndexIs(text, '"', request + ['"'] + tail);
    assert line[|text| + 1..] == request + ['"'] + tail;
    FirstIndexIs(request, '"', tail);
    assert line[|text| + 1 + |request| + 1..] == tail;
  }

  lemma FieldsAreReadFrom(std: Std, fields: seq<string>)
    ensures ReadFrom(std, fields, FromFields(std, fields))
  {
  }

  // What the fields after the request amount to: the first is the status, the last the duration.
  ghost predicate ReadFrom(std: Std, fields: seq<string>, entry: Option<Entry>) {
    if |fields| < 2 then entry == None
    else
      var status, duration := std.atoi(fields[0]), DurationOf(std, fields[|fields| - 1]);
      && (entry.Some? <==> status.Some? && 100 <= status.value <= 599 && duration.Some?)
      && (entry.Some? ==>
            && entry.value.statusCode == status.value && entry.value.durationMs == duration.value
            && entry.value.host == "")
  }

  lemma ClfIsRead(std: Std, text: string, request: string, tail: string)
    requires '"' !in text && '"' !in request
    ensures ReadFrom(std, std.fields(tail), ParseClf(std, ClfLine(text, request, tail)))
  {
    QuotesAreFound(text, request, tail);
    FieldsAreReadFrom(std, std.fields(tail));
  }

  /**
   Such a line is an entry if and only if two fields or more follow the request, the first of them is a number from
   100 to 599 and the last a duration; these are its status and its duration, and it names no site.
   */
  lemma {:induction false} ClfLineIsRead(std: Std, line: Blob, text: string, request: string, tail: string)
    requires std.trimmed(line) == ClfLine(text, request, tail) && '"' !in text && '"' !in request
    ensures ReadFrom(std, std.fields(tail), ParseLine(std, line, Clf))
  {
    ClfIsRead(std, text, request, tail);
    assert ClfLine(text, request, tail)[|text|] == '"';
  }

  lemma SplitAtQuote(s: string, i: nat)
    requires i < |s| && s[i] == '"' && forall j :: 0 <= j < i ==> s[j] != '"'
    ensures s == s[..i] + ['"'] + s[i + 1..] && '"' !in s[..i]
  {
  }

  lemma Reassemble(trimmed: string, text: string, after: string, request: string, tail: string)
    requires trimmed == text + ['"'] + after && after == request + ['"'] + tail
    ensures trimmed == ClfLine(text, request, tail)
  {
  }

  // Two quotes, or it is no such line.
  lemma Requoted(trimmed: string) returns (text: string, request: string, tail: string)
    ensures '"' !in text && '"' !in request
    ensures AfterRequest(trimmed).Some? ==> trimmed == ClfLine(text, request, tail)
  {
    text, request, tail := "", "", "";
    var start := FirstIndex(trimmed, '"');
    if start >= 0 {
      var after := trimmed[start + 1..];
      var end := FirstIndex(after, '"');
      if end >= 0 {
        text, request, tail := trimmed[..start], after[..end], after[end + 1..];
        SplitAtQuote(trimmed, start);
        SplitAtQuote(after, end);
        Reassemble(trimmed, text, after, request, tail);
      }
    }
  }

  /** And no other line is an entry of that format. */
  lemma OnlyClfLinesAreRead(std: Std, line: Blob) returns (text: string, request: string, tail: string)
    ensures '"' !in text && '"' !in request
    ensures ParseLine(std, line, Clf).Some? ==> std.trimmed(line) == ClfLine(text, request, tail)
  {
    text, request, tail := Requoted(std.trimmed(line));
  }

  /** Left to decide for itself, the parser reads as JSON what begins with a brace, all else as the common format. */
  lemma AutoDecidesByBrace(std: Std, line: Blob)
    ensures var trimmed := std.trimmed(line);
      ParseLine(std, line, Auto)
        == if trimmed != "" && trimmed[0] == '{' then ParseLine(std, line, Json) else ParseLine(std, line, Clf)
  {
  }

  predicate HostCharacter(c: char) {
    c in LOWER || c in DIGITS || c in ['.', '-', '_', ':']
  }

  /** A header without a port, brackets or a final dot names itself or nothing, by its length and its letters alone. */
  lemma {:induction false} PlainHeaderExactlyWhen(host: string)
    requires host != "" && ':' !in host && host[|host| - 1] != '.'
    requires !Bracket(host[0]) && !Bracket(host[|host| - 1])
    ensures HostOf(host)
         == if |host| <= 100 && forall i :: 0 <= i < |host| ==> HostCharacter(host[i]) then host else ""
  {
    assert WithoutPort(host) == host && Candidate(host) == host;
    forall i | 0 <= i < |host| ensures AllowedChar(host[i]) <==> HostCharacter(host[i]) {
      LowerIs(host[i]);
      DigitsAre(host[i]);
    }
  }
}
