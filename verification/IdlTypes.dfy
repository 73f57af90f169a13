/** IDL types, values and integer layout shared by the Borsh encoder and decoder. */
module IdlTypes {
  import opened Wrappers
  import opened Bytes
  import Division
  import Utf8

  type Width = n: nat | n == 1 || n == 2 || n == 4 || n == 8 || n == 16 witness 1

  datatype Ty =
    | IntT(width: Width, signed: bool)
    | BoolT
    | PubkeyT
    | StringT
    | BytesT
    | VecT(item: Ty)
    | OptionT(some: Ty)
    | ArrayT(elem: Ty, len: nat)
    | DefinedT(name: string)
    | UnknownT(spelling: string)

  datatype Field = Field(name: string, ty: Ty)

  /** `fields` of a struct or variant: absent, named, or positional. */
  datatype Fields = Absent | Named(named: seq<Field>) | Positional(tys: seq<Ty>)

  datatype Variant = Variant(name: string, fields: Fields)
  datatype TypeDef = Struct(fields: Fields) | Enum(variants: seq<Variant>)
  type Types = map<string, TypeDef>

  /** Decoded values; strings are their scalar values, a field-less enum case is its name. */
  datatype Val =
    | VInt(n: int)
    | VBool(b: bool)
    | VKey(key: seq<byte>)
    | VStr(text: seq<Utf8.Scalar>)
    | VBytes(bytes: seq<byte>)
    | VNull
    | VList(items: seq<Val>)
    | VObj(fields: map<string, Val>)
    | VUnit(variant: string)
    | VCase(variant: string, payload: Val)

  predicate LowerOrDigit(c: char) {
    ('a' <= c <= 'z') || ('0' <= c <= '9')
  }

  function Upper(c: char): char {
    if 'a' <= c <= 'z' then (c as int - 32) as char else c
  }

  /** Every `_x` becomes `X`, scanning left to right. */
  function CamelCase(s: string): string {
    if s == "" then ""
    else if |s| >= 2 && s[0] == '_' && LowerOrDigit(s[1]) then [Upper(s[1])] + CamelCase(s[2..])
    else [s[0]] + CamelCase(s[1..])
  }

  // ---- Little-endian integers ----

  function Pow256(n: nat): (p: nat)
    ensures p >= 1
  {
    if n == 0 then 1 else 256 * Pow256(n - 1)
  }

  function LittleEndian(v: nat, size: nat): (bs: seq<byte>)
    ensures |bs| == size
  {
    if size == 0 then [] else [v % 256] + LittleEndian(v / 256, size - 1)
  }

  /** `le`: two's complement of any integer in `size` bytes. */
  function Le(v: int, size: nat): (bs: seq<byte>)
    ensures |bs| == size
  {
    LittleEndian(v % Pow256(size), size)
  }

  function UintLE(bytes: seq<byte>): nat {
    if bytes == [] then 0 else bytes[0] + 256 * UintLE(bytes[1..])
  }

  function IntLE(bytes: seq<byte>): int {
    var u := UintLE(bytes);
    if bytes != [] && u >= Pow256(|bytes|) / 2 then u - Pow256(|bytes|) else u
  }

  method LeLoop(v: int, size: nat) returns (out: seq<byte>)
    ensures out == Le(v, size)
  {
    var x: nat := v % Pow256(size);
    out := [];
    for i := 0 to size
      invariant Le(v, size) == out + LittleEndian(x, size - i)
    {
      assert out + ([x % 256] + LittleEndian(x / 256, size - i - 1))
        == out + [x % 256] + LittleEndian(x / 256, size - i - 1);
      out := out + [x % 256];
      x := x / 256;
    }
  }

  method UintLELoop(bytes: seq<byte>) returns (v: nat)
    ensures v == UintLE(bytes)
  {
    v := 0;
    var i := |bytes|;
    while i > 0
      invariant 0 <= i <= |bytes|
      invariant v == UintLE(bytes[i..])
    {
      i := i - 1;
      assert bytes[i..][1..] == bytes[i + 1..];
      v := 256 * v + bytes[i];
    }
    assert bytes[0..] == bytes;
  }

  lemma {:induction false} LittleEndianBack(v: nat, size: nat)
    requires v < Pow256(size)
    ensures UintLE(LittleEndian(v, size)) == v
  {
    if size > 0 {
      assert v / 256 < Pow256(size - 1);
      LittleEndianBack(v / 256, size - 1);
      assert LittleEndian(v, size)[1..] == LittleEndian(v / 256, size - 1);
    }
  }

  lemma Pow256Even(n: nat)
    requires n >= 1
    ensures Pow256(n) == 2 * (Pow256(n) / 2)
  {
  }

  predicate InRange(v: int, width: nat, signed: bool)
    requires width >= 1
  {
    var p := Pow256(width);
    if signed then -(p / 2) <= v < p / 2 else 0 <= v < p
  }

  /** Unsigned and two's-complement integers of every width survive the byte layout. */
  lemma IntBack(v: int, width: nat, signed: bool)
    requires width >= 1 && InRange(v, width, signed)
    ensures (if signed then IntLE(Le(v, width)) else UintLE(Le(v, width))) == v
  {
    hide LittleEndian, UintLE, Pow256;
    var p := Pow256(width);
    Pow256Even(width);
    var u := if v >= 0 then v else v + p;
    Division.DivModUnique(v, p, if v >= 0 then 0 else -1, u);
    LittleEndianBack(u, width);
  }
}
