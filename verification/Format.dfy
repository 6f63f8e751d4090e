/** Writing counts out for the journal: decimal digits, and bytes in binary units. */
module Format {

  import opened Wrappers
  import opened Sequences

  const MAX_INT64: int := 0x7fff_ffff_ffff_ffff

  function Pow10(k: nat): (p: nat)
    ensures p > 0
  {
    if k == 0 then 1 else 10 * Pow10(k - 1)
  }

  predicate IsDigit(c: char) {
    '0' <= c <= '9'
  }

  /** The number a decimal numeral stands for. */
  function Value(s: string): nat
    requires forall i :: 0 <= i < |s| ==> IsDigit(s[i])
  {
    if s == "" then 0
    else
      assert IsDigit(Last(s));
      10 * Value(Init(s)) + (Last(s) as int - '0' as int)
  }

  // What a number contributes with `places` digits after it.
  function Shifted(n: nat, places: nat): nat {
    n * Pow10(places)
  }

  lemma ShiftPlace(n: nat, places: nat)
    ensures Shifted(n, places + 1) == 10 * Shifted(n, places)
  {
    var p := Pow10(places);
    assert n * (10 * p) == 10 * (n * p);
  }

  lemma {:induction false} ValueFront(c: char, s: string)
    requires IsDigit(c) && forall i :: 0 <= i < |s| ==> IsDigit(s[i])
    ensures Value([c] + s) == Shifted(c as int - '0' as int, |s|) + Value(s)
  {
    if s == "" {
      assert [c] + s == [c] && Init([c]) == "";
    } else {
      ValueFront(c, Init(s));
      assert Init([c] + s) == [c] + Init(s) && Last([c] + s) == Last(s);
      ShiftPlace(c as int - '0' as int, |Init(s)|);
    }
  }

  /** A numeral without a leading zero. */
  ghost predicate IsNumeral(s: string, n: nat) {
    && s != "" && (forall i :: 0 <= i < |s| ==> IsDigit(s[i]))
    && Value(s) == n && (|s| > 1 ==> s[0] != '0')
  }

  function DigitOf(n: int): (c: char)
    requires 0 <= n < 10
    ensures IsDigit(c) && c as int - '0' as int == n
  {
    ('0' as int + n) as char
  }

  lemma TwentyDigitsSuffice()
    ensures MAX_INT64 < Pow10(20)
  {
    assert Pow10(5) == 100000;
    assert Pow10(10) == 10000000000;
    assert Pow10(15) == 1000000000000000;
    assert Pow10(20) == 100000000000000000000;
  }

  lemma ShiftDigit(n: nat, places: nat)
    ensures Shifted(n / 10, places + 1) + Shifted(n % 10, places) == Shifted(n, places)
  {
    var p := Pow10(places);
    assert n == 10 * (n / 10) + n % 10;
    assert (10 * (n / 10) + n % 10) * p == (n / 10) * (10 * p) + (n % 10) * p;
  }

  lemma OneDigitMore(n: nat, all: nat, i: nat, text: string)
    requires n > 0 && i > 0 && n < Pow10(i) && forall k :: 0 <= k < |text| ==> IsDigit(text[k])
    requires Shifted(n, |text|) + Value(text) == all
    ensures n / 10 < Pow10(i - 1)
    ensures Shifted(n / 10, |text| + 1) + Value([DigitOf(n % 10)] + text) == all
  {
    ValueFront(DigitOf(n % 10), text);
    ShiftDigit(n, |text|);
  }

  // The loop has written the last digits of `n`, those of `rest` are still to come, in `i` places.
  ghost predicate Writing(n: nat, rest: nat, i: nat, done: string) {
    && rest < Pow10(i) && (forall k :: 0 <= k < |done| ==> IsDigit(done[k]))
    && Shifted(rest, |done|) + Value(done) == n
    && (rest == 0 ==> done != "" && done[0] != '0')
  }

  lemma WritesOneMore(n: nat, rest: nat, i: nat, done: string)
    requires Writing(n, rest, i, done) && rest > 0
    ensures i > 0 && Writing(n, rest / 10, i - 1, [DigitOf(rest % 10)] + done)
  {
    OneDigitMore(rest, n, i, done);
  }

  lemma WritingBegins(n: nat)
    requires 0 < n <= MAX_INT64
    ensures Writing(n, n, 20, "")
  {
    TwentyDigitsSuffice();
    assert Shifted(n, 0) == n;
  }

  lemma WritingEnds(n: nat, i: nat, done: string)
    requires Writing(n, 0, i, done)
    ensures IsNumeral(done, n)
  {
    assert Shifted(0, |done|) == 0;
  }

  /** The digits of `n`, filled in from the back of a twenty-place buffer; nothing for a negative `n`. */
  method Itoa(n: int) returns (s: string)
    requires n <= MAX_INT64
    ensures n >= 0 ==> IsNumeral(s, n)
    ensures n < 0 ==> s == ""
  {
    if n == 0 {
      assert Init("0") == "";
      return "0";
    }
    if n < 0 { return ""; }
    s := PositiveDigits(n);
  }

  method PositiveDigits(n: nat) returns (s: string)
    requires 0 < n <= MAX_INT64
    ensures IsNumeral(s, n)
  {
    var digits := new char[20](_ => '0');
    var i := digits.Length;
    var rest := n;
    ghost var done := "";
    WritingBegins(n);
    while rest > 0
      invariant 0 <= i <= digits.Length && digits[i..] == done
      invariant 0 <= rest && Writing(n, rest, i, done)
      decreases rest
    {
      WritesOneMore(n, rest, i, done);
      i := i - 1;
      digits[i] := DigitOf(rest % 10);
      done := [DigitOf(rest % 10)] + done;
      rest := rest / 10;
    }
    WritingEnds(n, i, done);
    s := digits[i..];
  }

  const UNIT: nat := 1024
  const UNIT_LETTERS := "KMG"

  function PowUnit(k: nat): (p: nat)
    ensures p > 0
  {
    if k == 0 then 1 else UNIT * PowUnit(k - 1)
  }

  lemma UnitsAre()
    ensures PowUnit(1) == 1024 && PowUnit(2) == 1_048_576 && PowUnit(3) == 1_073_741_824
    ensures PowUnit(4) == 1_099_511_627_776
  {
  }

  /**
   A byte count in the largest unit that leaves a whole number: bytes, KiB, MiB or GiB. From 1024
   GiB on there is no letter left and the lookup fails, which is what `None` stands for.
   */
  method FormatBytes(n: int) returns (text: Option<string>, ghost digits: string, ghost exp: nat)
    requires n <= MAX_INT64
    ensures text == None <==> n >= 1_099_511_627_776
    ensures 0 <= n < 1024 ==> IsNumeral(digits, n) && text == Some(digits + " B")
    ensures 1024 <= n < 1_048_576 ==> IsNumeral(digits, n / 1024) && text == Some(digits + "KiB")
    ensures 1_048_576 <= n < 1_073_741_824 ==> IsNumeral(digits, n / 1_048_576) && text == Some(digits + "MiB")
    ensures 1_073_741_824 <= n < 1_099_511_627_776 ==>
      IsNumeral(digits, n / 1_073_741_824) && text == Some(digits + "GiB")
  {
    UnitsAre();
    if n < UNIT {
      var number := Itoa(n);
      return Some(number + " B"), number, 0;
    }
    var div, power := UNIT, 0;
    while n / div >= UNIT && power < 3
      invariant power <= 3 && div == PowUnit(power + 1) <= n
      decreases 3 - power
    {
      AtLeastNextUnit(n, div);
      div := div * UNIT;
      power := power + 1;
    }
    exp := power;
    WholeUnits(n, div);
    if power >= |UNIT_LETTERS| { return None, "", exp; }
    var number := Itoa(n / div);
    assert [UNIT_LETTERS[power]] + "iB" == if power == 0 then "KiB" else if power == 1 then "MiB" else "GiB";
    assert number + [UNIT_LETTERS[power]] + "iB" == number + ([UNIT_LETTERS[power]] + "iB");
    return Some(number + [UNIT_LETTERS[power]] + "iB"), number, exp;
  }

  lemma AtLeastNextUnit(n: nat, div: nat)
    requires div > 0 && n / div >= UNIT
    ensures div * UNIT <= n
  {
    assert div * (n / div) <= n;
    assert div * UNIT <= div * (n / div);
  }

  lemma Bigger(div: nat, a: nat, b: nat)
    requires a <= b
    ensures div * a <= div * b
  {
  }

  lemma WholeUnits(n: nat, div: nat)
    requires 0 < div <= n
    ensures 1 <= n / div <= n
    ensures n / div < UNIT <==> n < div * UNIT
  {
    var q := n / div;
    assert n == div * q + n % div;
    Bigger(q, 1, div);
    if q < UNIT { Bigger(div, q, UNIT - 1); } else { Bigger(div, UNIT, q); }
  }
}
