/** What passes through the spool: names, requests, results, and when a request is still fresh. */
module Spool {

  import opened Wrappers
  import opened Alphabets

  // Times are nanoseconds; `None` is the zero time.
  datatype Request = Request(id: string, action: string, target: string, writtenAt: Option<int>)

  datatype Outcome = Outcome(id: string, ok: bool, detail: string, finishedAt: int)

  const MAX_AGE: int := 600_000_000_000

  const MAX_PENDING: nat := 32

  const MAX_FILE_BYTES: nat := 8192

  predicate SafeChar(c: char) {
    'a' <= c <= 'z' || 'A' <= c <= 'Z' || '0' <= c <= '9' || c == '-'
  }

  predicate SafeId(id: string) {
    id != "" && |id| <= 64 && forall i :: 0 <= i < |id| ==> SafeChar(id[i])
  }

  function FinalName(id: string): string {
    id + ".json"
  }

  function TempName(id: string): string {
    FinalName(id) + ".tmp"
  }

  predicate IsFinal(name: string) {
    |name| >= 5 && name[|name| - 5..] == ".json"
  }

  predicate Fresh(r: Request, now: int) {
    r.writtenAt.Some? && 0 <= now - r.writtenAt.value <= MAX_AGE
  }

  /**
   Safe ids never share a name, temporary names are never taken for finished files, and no name
   leaves the directory.
   */
  lemma NamesAreDistinct(a: string, b: string)
    requires SafeId(a) && SafeId(b)
    ensures FinalName(a) == FinalName(b) || TempName(a) == TempName(b) ==> a == b
    ensures FinalName(a) != TempName(b)
    ensures IsFinal(FinalName(a)) && !IsFinal(TempName(a))
    ensures FinalName(a) == a + ".json" && TempName(a) == a + ".json.tmp"
    ensures '/' !in FinalName(a) && '/' !in TempName(a) && FinalName(a)[0] != '.'
  {
    var x, y := FinalName(a), FinalName(b);
    assert x[..|x| - 5] == a && y[..|y| - 5] == b;
    assert x[|x| - 5..] == ".json";
    var t, u := TempName(a), TempName(b);
    assert t[..|t| - 4] == x && u[..|u| - 4] == y;
    assert t[|t| - 1] == 'p' && u[|u| - 1] == 'p' && x[|x| - 1] == 'n';
    assert t[|t| - 5..][4] == 'p';
    assert forall i :: 0 <= i < |a| ==> a[i] != '/';
    assert SafeChar(a[0]);
  }

  /** An id is safe by its length and its characters alone: letters, digits and dashes. */
  lemma SafeIdExactlyWhen(id: string)
    ensures SafeId(id) <==>
      && 1 <= |id| <= 64
      && forall i :: 0 <= i < |id| ==> id[i] in LOWER || id[i] in UPPER || id[i] in DIGITS || id[i] == '-'
  {
    forall i | 0 <= i < |id|
      ensures SafeChar(id[i]) <==> id[i] in LOWER || id[i] in UPPER || id[i] in DIGITS || id[i] == '-'
    {
      LowerIs(id[i]);
      UpperIs(id[i]);
      DigitsAre(id[i]);
    }
  }
}
