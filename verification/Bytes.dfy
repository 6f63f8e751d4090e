/** Bytes, and fixed-width integers spelt out in them. */
module Bytes {

  newtype byte = x: int | 0 <= x < 256

  type Blob = seq<byte>

  const TWO_TO_64: nat := 0x1_0000_0000_0000_0000

  function Pow256(n: nat): (p: nat)
    ensures p > 0
  {
    if n == 0 then 1 else 256 * Pow256(n - 1)
  }

  /** The value of bytes written least significant first. */
  function FromLittle(b: Blob): (v: nat)
    ensures v < Pow256(|b|)
  {
    if b == [] then 0 else b[0] as nat + 256 * FromLittle(b[1..])
  }

  function ToLittle(v: nat, width: nat): (b: Blob)
    ensures |b| == width
  {
    if width == 0 then [] else [(v % 256) as byte] + ToLittle(v / 256, width - 1)
  }

  lemma {:induction false} LittleRoundTrip(v: nat, width: nat)
    requires v < Pow256(width)
    ensures FromLittle(ToLittle(v, width)) == v
  {
    if width > 0 {
      LittleRoundTrip(v / 256, width - 1);
      assert ToLittle(v, width)[1..] == ToLittle(v / 256, width - 1);
    }
  }

  /** The value of bytes written most significant first. */
  function FromBig(b: Blob): (v: nat)
    ensures v < Pow256(|b|)
  {
    if b == [] then 0 else 256 * FromBig(b[..|b| - 1]) + b[|b| - 1] as nat
  }

  function ToBig(v: nat, width: nat): (b: Blob)
    ensures |b| == width
  {
    if width == 0 then [] else ToBig(v / 256, width - 1) + [(v % 256) as byte]
  }

  lemma {:induction false} BigRoundTrip(v: nat, width: nat)
    requires v < Pow256(width)
    ensures FromBig(ToBig(v, width)) == v
  {
    if width > 0 {
      BigRoundTrip(v / 256, width - 1);
      assert ToBig(v, width)[..width - 1] == ToBig(v / 256, width - 1);
    }
  }

  /** Least significant first: what each byte is worth. */
  lemma LittleWeights(b: Blob)
    ensures |b| == 2 ==> FromLittle(b) == b[0] as int + 0x100 * b[1] as int
    ensures |b| == 3 ==> FromLittle(b) == b[0] as int + 0x100 * b[1] as int + 0x1_0000 * b[2] as int
  {
    assert |b| >= 1 ==> FromLittle(b) == b[0] as int + 256 * FromLittle(b[1..]);
    assert |b| >= 2 ==> FromLittle(b[1..]) == b[1] as int + 256 * FromLittle(b[2..]) && b[1..][1..] == b[2..];
    assert |b| >= 3 ==> FromLittle(b[2..]) == b[2] as int + 256 * FromLittle(b[3..]) && b[2..][1..] == b[3..];
  }

  // What `v` is worth with so many bytes below it.
  function Above(v: nat, width: nat): nat {
    Pow256(width) * v
  }

  lemma AboveOneMore(v: nat, width: nat)
    ensures Above(v, width + 1) == 256 * Above(v, width) && Above(v, 0) == v
  {
    var w := Pow256(width);
    assert 256 * w * v == 256 * (w * v);
  }

  lemma {:induction false} LittleHalves(a: Blob, b: Blob)
    ensures FromLittle(a + b) == FromLittle(a) + Above(FromLittle(b), |a|)
  {
    if a == [] {
      assert a + b == b;
      AboveOneMore(FromLittle(b), 0);
    } else {
      assert (a + b)[1..] == a[1..] + b;
      LittleHalves(a[1..], b);
      AboveOneMore(FromLittle(b), |a| - 1);
    }
  }

  /** Most significant first: likewise. */
  lemma BigWeights(b: Blob)
    ensures |b| == 2 ==> FromBig(b) == 0x100 * b[0] as int + b[1] as int
    ensures |b| == 4 ==>
      FromBig(b) == 0x100_0000 * b[0] as int + 0x1_0000 * b[1] as int + 0x100 * b[2] as int + b[3] as int
  {
    if |b| == 2 {
      assert b[..1][..0] == [];
      assert FromBig(b[..1]) == b[0] as int;
    }
    if |b| == 4 {
      assert b[..3][..2] == b[..2] && b[..2][..1] == b[..1] && b[..1][..0] == [];
      assert FromBig(b[..1]) == b[0] as int;
      assert FromBig(b[..2]) == 256 * FromBig(b[..1]) + b[1] as int;
      assert FromBig(b[..3]) == 256 * FromBig(b[..2]) + b[2] as int;
    }
  }

  /** Text in one byte a character. */
  function Ascii(text: string): (b: Blob)
    requires forall i :: 0 <= i < |text| ==> text[i] < 128 as char
    ensures |b| == |text| && forall i :: 0 <= i < |text| ==> b[i] as int == text[i] as int
  {
    seq(|text|, i requires 0 <= i < |text| => (text[i] as int) as byte)
  }

  // ----- reading a stream piece by piece -----

  /** The results of taking `n` pieces off a stream, and what is left of it. */
  function Repeat<R>(take: Blob -> (R, Blob), s: Blob, n: nat): (seq<R>, Blob)
    decreases n
  {
    if n == 0 then ([], s)
    else
      var (result, rest) := take(s);
      var (results, end) := Repeat(take, rest, n - 1);
      ([result] + results, end)
  }

  function Concat(pieces: seq<Blob>): Blob {
    if pieces == [] then [] else pieces[0] + Concat(pieces[1..])
  }

  /** A reader that takes each piece whole, whatever follows it, reads any number of pieces in step. */
  lemma {:induction false} RepeatInStep<R>(take: Blob -> (R, Blob), pieces: seq<Blob>, results: seq<R>, rest: Blob)
    requires |pieces| == |results|
    requires forall i, tail: Blob :: 0 <= i < |pieces| ==> take(pieces[i] + tail) == (results[i], tail)
    ensures Repeat(take, Concat(pieces) + rest, |pieces|) == (results, rest)
  {
    if pieces == [] {
      assert Concat(pieces) + rest == rest;
    } else {
      var others := Concat(pieces[1..]) + rest;
      assert Concat(pieces) + rest == pieces[0] + others;
      assert take(pieces[0] + others) == (results[0], others);
      forall i, tail: Blob | 0 <= i < |pieces[1..]| ensures take(pieces[1..][i] + tail) == (results[1..][i], tail) {
        assert pieces[1..][i] == pieces[i + 1];
      }
      RepeatInStep(take, pieces[1..], results[1..], rest);
      assert results == [results[0]] + results[1..];
    }
  }
}
