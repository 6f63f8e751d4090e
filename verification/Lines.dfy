/** Cutting a byte stream into lines, and why it does not matter where the reads were cut. */
module Lines {

  import opened Bytes
  import opened Sequences

  type Line = Blob

  const NEWLINE: byte := 10

  /** bytes.Split(b, "\n"): the stretches between newlines, the last one possibly empty. */
  function Split(b: Blob): (segments: seq<Line>)
    ensures segments != []
  {
    if b == [] then [[]]
    else
      var before := Split(Init(b));
      if Last(b) == NEWLINE then before + [[]] else Init(before) + [Last(before) + [Last(b)]]
  }

  /** The finished lines of `b`. */
  function Complete(b: Blob): seq<Line> {
    Init(Split(b))
  }

  /** What follows the last newline of `b`. */
  function Remainder(b: Blob): Line {
    Last(Split(b))
  }

  /** The lines written out again, each followed by its newline. */
  function Glue(lines: seq<Line>): Blob {
    if lines == [] then [] else Glue(Init(lines)) + Last(lines) + [NEWLINE]
  }

  lemma SplitSnoc(b: Blob, x: byte)
    ensures x == NEWLINE ==> Complete(b + [x]) == Complete(b) + [Remainder(b)] && Remainder(b + [x]) == []
    ensures x != NEWLINE ==> Complete(b + [x]) == Complete(b) && Remainder(b + [x]) == Remainder(b) + [x]
  {
    Snoc(b, x);
    assert Split(b) == Init(Split(b)) + [Last(Split(b))];
  }

  lemma GlueSnoc(lines: seq<Line>, line: Line)
    ensures Glue(lines + [line]) == Glue(lines) + line + [NEWLINE]
  {
    Snoc(lines, line);
  }

  /** No byte is lost or invented, and no line contains a newline. */
  lemma {:induction false} GlueInvertsSplit(b: Blob)
    ensures Glue(Complete(b)) + Remainder(b) == b
    ensures 10 as byte !in Remainder(b) && forall line :: line in Complete(b) ==> 10 as byte !in line
  {
    if b != [] {
      GlueInvertsSplit(Init(b));
      SplitSnoc(Init(b), Last(b));
      assert b == Init(b) + [Last(b)];
      GlueSnoc(Complete(Init(b)), Remainder(Init(b)));
    }
  }

  lemma {:induction false} PlainTextHasNoLines(b: Blob)
    requires NEWLINE !in b
    ensures Complete(b) == [] && Remainder(b) == b
  {
    if b != [] {
      PlainTextHasNoLines(Init(b));
      SplitSnoc(Init(b), Last(b));
      assert b == Init(b) + [Last(b)];
    }
  }

  /** Reading `a` and then `b`, holding back the unfinished line, gives the lines of `a + b`. */
  lemma {:induction false} SplitConcat(a: Blob, b: Blob)
    ensures Complete(a + b) == Complete(a) + Complete(Remainder(a) + b)
    ensures Remainder(a + b) == Remainder(Remainder(a) + b)
  {
    if b == [] {
      GlueInvertsSplit(a);
      PlainTextHasNoLines(Remainder(a));
      assert a + b == a && Remainder(a) + b == Remainder(a);
    } else {
      SplitConcat(a, Init(b));
      assert a + b == (a + Init(b)) + [Last(b)];
      assert Remainder(a) + b == (Remainder(a) + Init(b)) + [Last(b)];
      SplitSnoc(a + Init(b), Last(b));
      SplitSnoc(Remainder(a) + Init(b), Last(b));
    }
  }

  /** Splitting recovers exactly the lines that were written. */
  lemma {:induction false} SplitInvertsGlue(lines: seq<Line>, rest: Line)
    requires NEWLINE !in rest && forall line :: line in lines ==> NEWLINE !in line
    ensures Complete(Glue(lines) + rest) == lines && Remainder(Glue(lines) + rest) == rest
  {
    if lines == [] {
      assert Glue(lines) + rest == rest;
      PlainTextHasNoLines(rest);
    } else {
      var last := Last(lines);
      assert last in lines;
      SplitInvertsGlue(Init(lines), last);
      SplitSnoc(Glue(Init(lines)) + last, NEWLINE);
      SplitConcat(Glue(lines), rest);
      PlainTextHasNoLines(rest);
      assert Remainder(Glue(lines)) + rest == rest;
      assert lines == Init(lines) + [last];
    }
  }

  lemma {:induction false} GlueConcat(a: seq<Line>, b: seq<Line>)
    ensures Glue(a + b) == Glue(a) + Glue(b)
  {
    if b == [] {
      assert a + b == a && Glue(a) + [] == Glue(a);
    } else {
      GlueConcat(a, Init(b));
      assert Init(a + b) == a + Init(b) && Last(a + b) == Last(b);
    }
  }
}
