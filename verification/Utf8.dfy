/** TextEncoder and TextDecoder as the IDL codec uses them: UTF-8 of the WHATWG Encoding Standard. */
module Utf8 {
  import opened Wrappers
  import opened Bytes
  import Division

  /** A Unicode scalar value; well-formed JavaScript strings are sequences of these. */
  type Scalar = n: nat | n < 0xD800 || 0xE000 <= n < 0x11_0000 witness 0

  const REPLACEMENT: Scalar := 0xFFFD
  const MARK: Scalar := 0xFEFF

  function EncodeOne(c: Scalar): (bs: seq<byte>)
    ensures 1 <= |bs| <= 4
  {
    if c < 0x80 then [c]
    else if c < 0x800 then [0xC0 + c / 64, 0x80 + c % 64]
    else if c < 0x1_0000 then [0xE0 + c / 4096, 0x80 + c / 64 % 64, 0x80 + c % 64]
    else [0xF0 + c / 0x4_0000, 0x80 + c / 4096 % 64, 0x80 + c / 64 % 64, 0x80 + c % 64]
  }

  function Encode(text: seq<Scalar>): seq<byte> {
    if text == [] then [] else EncodeOne(text[0]) + Encode(text[1..])
  }

  // ---- The decoder ----

  predicate Trail(b: byte) {
    0x80 <= b < 0xC0
  }

  /** How many bytes a lead byte asks for; no byte from 0x80 to 0xC1 or above 0xF4 leads. */
  function Needs(b: byte): nat {
    if 0xC2 <= b < 0xE0 then 1 else if 0xE0 <= b < 0xF0 then 2 else if 0xF0 <= b < 0xF5 then 3 else 0
  }

  /** The second byte also keeps out overlong forms, surrogates and values past the last scalar. */
  predicate Second(lead: byte, b: byte) {
    && Trail(b)
    && (lead == 0xE0 ==> b >= 0xA0) && (lead == 0xED ==> b < 0xA0)
    && (lead == 0xF0 ==> b >= 0x90) && (lead == 0xF4 ==> b < 0x90)
  }

  /** One scalar, or None for bytes that cannot be part of one, with how many bytes that took. */
  datatype Taken = Taken(scalar: Option<Scalar>, length: nat)

  function ReadOne(bs: seq<byte>): (t: Taken)
    requires bs != []
    ensures 1 <= t.length <= |bs|
  {
    var b: nat := bs[0];
    if b < 0x80 then Taken(Some(b), 1)
    else if Needs(b) == 0 || |bs| < 2 || !Second(b, bs[1]) then Taken(None, 1)
    else if Needs(b) == 1 then Taken(Some((b - 0xC0) * 64 + Low(bs[1])), 2)
    else if |bs| < 3 || !Trail(bs[2]) then Taken(None, 2)
    else if Needs(b) == 2 then Taken(Some((b - 0xE0) * 4096 + Low(bs[1]) * 64 + Low(bs[2])), 3)
    else if |bs| < 4 || !Trail(bs[3]) then Taken(None, 3)
    else Taken(Some((b - 0xF0) * 0x4_0000 + Low(bs[1]) * 4096 + Low(bs[2]) * 64 + Low(bs[3])), 4)
  }

  /** The six bits of a trail byte. */
  function Low(b: byte): (n: nat)
    requires Trail(b)
    ensures n < 64
  {
    b - 0x80
  }

  /** Whatever cannot be part of a scalar becomes one replacement character. */
  function DecodeAll(bs: seq<byte>): seq<Scalar>
    decreases |bs|
  {
    if bs == [] then []
    else
      var t := ReadOne(bs);
      [if t.scalar.Some? then t.scalar.value else REPLACEMENT] + DecodeAll(bs[t.length..])
  }

  predicate Marked(bs: seq<byte>) {
    |bs| >= 3 && bs[0] == 0xEF && bs[1] == 0xBB && bs[2] == 0xBF
  }

  /** A leading byte-order mark is dropped. */
  function Decode(bs: seq<byte>): seq<Scalar> {
    DecodeAll(if Marked(bs) then bs[3..] else bs)
  }

  predicate Valid(bs: seq<byte>)
    decreases |bs|
  {
    bs == [] || (ReadOne(bs).scalar.Some? && Valid(bs[ReadOne(bs).length..]))
  }

  /** Valid UTF-8 without a byte-order mark in front. */
  predicate Plain(bs: seq<byte>) {
    Valid(bs) && !Marked(bs)
  }

  // ---- One scalar ----

  lemma ReadEncoded(c: Scalar, rest: seq<byte>)
    ensures ReadOne(EncodeOne(c) + rest) == Taken(Some(c), |EncodeOne(c)|)
  {
    var one := EncodeOne(c);
    var bs := one + rest;
    assert forall i :: 0 <= i < |one| ==> bs[i] == one[i];
    if 0x80 <= c < 0x800 {
      ReadTwo(c, bs);
    } else if 0x800 <= c < 0x1_0000 {
      ReadThree(c, bs);
    } else if c >= 0x1_0000 {
      ReadFour(c, bs);
    }
  }

  lemma ReadTwo(c: Scalar, bs: seq<byte>)
    requires 0x80 <= c < 0x800 && |bs| >= 2 && bs[0] == 0xC0 + c / 64 && bs[1] == 0x80 + c % 64
    ensures ReadOne(bs) == Taken(Some(c), 2)
  {
  }

  lemma ReadThree(c: Scalar, bs: seq<byte>)
    requires 0x800 <= c < 0x1_0000 && |bs| >= 3
    requires bs[0] == 0xE0 + c / 4096 && bs[1] == 0x80 + c / 64 % 64 && bs[2] == 0x80 + c % 64
    ensures ReadOne(bs) == Taken(Some(c), 3)
  {
    assert c / 64 == c / 4096 * 64 + c / 64 % 64;
  }

  lemma ReadFour(c: Scalar, bs: seq<byte>)
    requires 0x1_0000 <= c && |bs| >= 4
    requires bs[0] == 0xF0 + c / 0x4_0000 && bs[1] == 0x80 + c / 4096 % 64
    requires bs[2] == 0x80 + c / 64 % 64 && bs[3] == 0x80 + c % 64
    ensures ReadOne(bs) == Taken(Some(c), 4)
  {
    assert c / 4096 == c / 0x4_0000 * 64 + c / 4096 % 64;
    assert c / 64 == c / 4096 * 64 + c / 64 % 64;
  }

  /** A scalar cut short is one unit of what cannot be decoded. */
  lemma ReadCut(c: Scalar, k: nat)
    requires 1 <= k < |EncodeOne(c)|
    ensures ReadOne(EncodeOne(c)[..k]) == Taken(None, k)
  {
    var whole := EncodeOne(c) + [];
    assert whole == EncodeOne(c);
    ReadEncoded(c, []);
  }

  lemma EncodeRead(bs: seq<byte>)
    requires bs != [] && ReadOne(bs).scalar.Some?
    ensures EncodeOne(ReadOne(bs).scalar.value) == bs[..ReadOne(bs).length]
  {
    hide EncodeOne;
    var b := bs[0];
    if b < 0x80 {
      EncodeAscii(b);
      assert bs[..1] == [b];
    } else if Needs(b) == 1 {
      EncodeTwo(b, bs[1]);
      assert bs[..2] == [b, bs[1]];
    } else if Needs(b) == 2 {
      EncodeThree(b, bs[1], bs[2]);
      assert bs[..3] == [b, bs[1], bs[2]];
    } else {
      EncodeFour(b, bs[1], bs[2], bs[3]);
      assert bs[..4] == [b, bs[1], bs[2], bs[3]];
    }
  }

  lemma EncodeAscii(b: byte)
    requires b < 0x80
    ensures EncodeOne(b) == [b]
  {
  }

  lemma EncodeTwo(b: nat, x: byte)
    requires b < 256 && Needs(b) == 1 && Trail(x)
    ensures EncodeOne((b - 0xC0) * 64 + Low(x)) == [b, x]
  {
    Digits(b - 0xC0, Low(x));
  }

  lemma EncodeThree(b: nat, x: byte, y: byte)
    requires b < 256 && Needs(b) == 2 && Second(b, x) && Trail(y)
    ensures EncodeOne((b - 0xE0) * 4096 + Low(x) * 64 + Low(y)) == [b, x, y]
  {
    var high := (b - 0xE0) * 64 + Low(x);
    Digits(b - 0xE0, Low(x));
    Digits(high, Low(y));
    var c: nat := high * 64 + Low(y);
    assert c / 4096 == c / 64 / 64;
  }

  lemma EncodeFour(b: nat, x: byte, y: byte, z: byte)
    requires b < 256 && Needs(b) == 3 && Second(b, x) && Trail(y) && Trail(z)
    ensures EncodeOne((b - 0xF0) * 0x4_0000 + Low(x) * 4096 + Low(y) * 64 + Low(z)) == [b, x, y, z]
  {
    var top := (b - 0xF0) * 64 + Low(x);
    var high := top * 64 + Low(y);
    Digits(b - 0xF0, Low(x));
    Digits(top, Low(y));
    Digits(high, Low(z));
    var c: nat := high * 64 + Low(z);
    assert c / 4096 == c / 64 / 64 && c / 0x4_0000 == c / 64 / 64 / 64;
  }

  lemma Digits(high: nat, low: nat)
    requires low < 64
    ensures (high * 64 + low) / 64 == high && (high * 64 + low) % 64 == low
  {
    Division.DivModUnique(high * 64 + low, 64, high, low);
  }

  // ---- Whole texts ----

  lemma {:induction false} DecodeEncode(text: seq<Scalar>)
    ensures DecodeAll(Encode(text)) == text && Valid(Encode(text))
  {
    hide EncodeOne, ReadOne;
    if text != [] {
      var rest := Encode(text[1..]);
      ReadEncoded(text[0], rest);
      DecodeEncode(text[1..]);
      assert Encode(text)[|EncodeOne(text[0])|..] == rest;
    }
  }

  lemma {:induction false} EncodeDecode(bs: seq<byte>)
    requires Valid(bs)
    ensures Encode(DecodeAll(bs)) == bs
    decreases |bs|
  {
    hide EncodeOne, ReadOne;
    if bs != [] {
      var n := ReadOne(bs).length;
      EncodeRead(bs);
      EncodeDecode(bs[n..]);
      assert bs == bs[..n] + bs[n..];
      assert DecodeAll(bs)[1..] == DecodeAll(bs[n..]);
    }
  }

  /** The encoding of a text starts with the mark exactly when the text does. */
  lemma MarkedText(text: seq<Scalar>)
    ensures Marked(Encode(text)) <==> text != [] && text[0] == MARK
    ensures Marked(Encode(text)) ==> Encode(text)[3..] == Encode(text[1..])
  {
    hide EncodeOne, ReadOne, Marked;
    if text != [] {
      var rest := Encode(text[1..]);
      ReadEncoded(text[0], rest);
      EncodedMark();
      if Marked(Encode(text)) {
        ReadMark(Encode(text));
      }
      if text[0] == MARK {
        MarkInFront(rest);
      }
    } else {
      MarkInFront([]);
    }
  }

  lemma EncodedMark()
    ensures EncodeOne(MARK) == [0xEF, 0xBB, 0xBF]
  {
  }

  lemma ReadMark(bs: seq<byte>)
    requires Marked(bs)
    ensures ReadOne(bs) == Taken(Some(MARK), 3)
  {
  }

  lemma MarkInFront(rest: seq<byte>)
    ensures Marked(EncodeOne(MARK) + rest) && !Marked([])
  {
    EncodedMark();
    var bs := EncodeOne(MARK) + rest;
    assert bs[0] == EncodeOne(MARK)[0] && bs[1] == EncodeOne(MARK)[1] && bs[2] == EncodeOne(MARK)[2];
  }

  /** A text comes back exactly when it does not start with the byte-order mark. */
  lemma TextBack(text: seq<Scalar>)
    ensures Decode(Encode(text)) == text <==> text == [] || text[0] != MARK
  {
    hide Encode, DecodeAll;
    MarkedText(text);
    DecodeEncode(text);
    if Marked(Encode(text)) {
      DecodeEncode(text[1..]);
    }
  }

  /** Valid bytes behind a valid mark, and the other way round. */
  lemma MarkedValid(bs: seq<byte>)
    requires Marked(bs)
    ensures Valid(bs) <==> Valid(bs[3..])
  {
  }

  /** Bytes come back exactly when they are valid UTF-8 without a leading mark. */
  lemma BytesBack(bs: seq<byte>)
    ensures Encode(Decode(bs)) == bs <==> Plain(bs)
  {
    hide ReadOne, EncodeOne;
    if Plain(bs) {
      EncodeDecode(bs);
    }
    if Encode(Decode(bs)) == bs {
      DecodeEncode(Decode(bs));
      if Marked(bs) {
        MarkedValid(bs);
        EncodeDecode(bs[3..]);
      }
    }
  }

  // ---- Bytes that do not come back ----

  /** The start of an encoding decodes to its scalars and at most one replacement for the last, cut one. */
  lemma {:induction false} CutLength(text: seq<Scalar>, bs: seq<byte>)
    requires bs <= Encode(text)
    ensures |Encode(DecodeAll(bs))| <= |bs| + 2
  {
    hide EncodeOne, ReadOne;
    if bs != [] {
      var one, rest := EncodeOne(text[0]), Encode(text[1..]);
      if |bs| >= |one| {
        assert bs == one + bs[|one|..];
        assert bs[|one|..] == rest[..|bs| - |one|];
        ReadEncoded(text[0], bs[|one|..]);
        CutLength(text[1..], bs[|one|..]);
        assert DecodeAll(bs)[1..] == DecodeAll(bs[|one|..]);
      } else {
        assert bs == one[..|bs|];
        ReadCut(text[0], |bs|);
        assert DecodeAll(bs) == [REPLACEMENT] + DecodeAll([]);
        OneReplacement();
      }
    }
  }

  lemma OneReplacement()
    ensures |Encode([REPLACEMENT] + DecodeAll([]))| == 3
  {
    assert ([REPLACEMENT] + DecodeAll([]))[1..] == [];
  }

  ghost predicate Differ(a: seq<byte>, b: seq<byte>) {
    exists i :: 0 <= i < |a| && i < |b| && a[i] != b[i]
  }

  /**
   * Bytes that do not come back show it at a byte both sequences have, or by a length that differs modulo any number
   * above the length read.
   */
  lemma BytesChange(bs: seq<byte>, modulus: nat)
    requires !Plain(bs) && 4 <= modulus && |bs| < modulus
    ensures var back := Encode(Decode(bs)); Differ(back, bs) || |back| % modulus != |bs| % modulus
  {
    hide ReadOne, EncodeOne, Encode, DecodeAll, Plain, Marked;
    hide Decode, Valid;
    var back := Encode(Decode(bs));
    BytesBack(bs);
    if !Differ(back, bs) {
      NoDifference(back, bs);
      if |back| < |bs| {
        Division.DivModUnique(|back|, modulus, 0, |back|);
        Division.DivModUnique(|bs|, modulus, 0, |bs|);
      } else if |back| > |bs| {
        GrowsLittle(bs);
        LittleMore(|bs|, |back|, modulus);
      }
    }
  }

  lemma NoDifference(a: seq<byte>, b: seq<byte>)
    requires !Differ(a, b)
    ensures |a| == |b| ==> a == b
    ensures |a| >= |b| ==> b <= a
  {
    assert forall i :: 0 <= i < |a| && i < |b| ==> a[i] == b[i];
  }

  lemma LittleMore(n: nat, m: nat, modulus: nat)
    requires n < m <= n + 2 && n < modulus && 4 <= modulus
    ensures m % modulus != n % modulus
  {
    Division.DivModUnique(n, modulus, 0, n);
    Division.DivModUnique(m, modulus, if m < modulus then 0 else 1, if m < modulus then m else m - modulus);
  }

  /** Bytes that their re-encoding continues are only ever continued by a byte or two. */
  lemma GrowsLittle(bs: seq<byte>)
    requires bs <= Encode(Decode(bs))
    ensures |Encode(Decode(bs))| <= |bs| + 2
  {
    hide ReadOne, EncodeOne, DecodeAll;
    var text := Decode(bs);
    if Marked(bs) {
      assert Marked(Encode(text));
      MarkedText(text);
      assert bs[3..] <= Encode(text[1..]);
      CutLength(text[1..], bs[3..]);
    } else {
      CutLength(text, bs);
    }
  }
}
