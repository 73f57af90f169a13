/**
 * Recursive Borsh encoder and decoder driven by IDL types (packages/pumpfun-events/src/idl-encoder.ts, idl-decoder.ts).
 */
module IdlCodec {
  import opened Wrappers
  import opened Bytes
  import opened IdlTypes
  import Utf8

  /** `Depth` stands for a `defined` chain longer than the fuel; every other error is the source's own. */
  datatype Error = Eof | Unsupported | NotInSchema | NoVariant | IllTyped | Depth

  type Decoded<T> = Result<(T, nat), Error>

  // ---- Decoder, as functions of (buffer, offset) ----

  function Take(buf: seq<byte>, off: nat, n: nat): (r: Decoded<seq<byte>>)
    ensures r.Ok? ==> r.value.1 == off + n <= |buf| && |r.value.0| == n
  {
    if off + n > |buf| then Err(Eof) else Ok((buf[off..off + n], off + n))
  }

  /** A `u32` length, then that many bytes. */
  function TakeSized(buf: seq<byte>, off: nat): (r: Decoded<seq<byte>>)
    ensures r.Ok? ==> off < r.value.1 <= |buf|
  {
    var n :- Take(buf, off, 4);
    Take(buf, n.1, UintLE(n.0))
  }

  function DecodeValue(buf: seq<byte>, off: nat, ty: Ty, types: Types, fuel: nat): (r: Decoded<Val>)
    ensures r.Ok? && off <= |buf| ==> off <= r.value.1 <= |buf|
    decreases fuel, ty, 0
  {
    match ty
    case IntT(w, signed) =>
      var b :- Take(buf, off, w);
      Ok((VInt(if signed then IntLE(b.0) else UintLE(b.0)), b.1))
    case BoolT =>
      var b :- Take(buf, off, 1);
      Ok((VBool(b.0[0] != 0), b.1))
    case PubkeyT =>
      var b :- Take(buf, off, 32);
      Ok((VKey(b.0), b.1))
    case StringT =>
      var b :- TakeSized(buf, off);
      Ok((VStr(Utf8.Decode(b.0)), b.1))
    case BytesT =>
      var b :- TakeSized(buf, off);
      Ok((VBytes(b.0), b.1))
    case VecT(item) =>
      var n :- Take(buf, off, 4);
      var items :- DecodeMany(buf, n.1, item, UintLE(n.0), types, fuel);
      Ok((VList(items.0), items.1))
    case OptionT(some) =>
      var tag :- Take(buf, off, 1);
      if tag.0[0] == 0 then Ok((VNull, tag.1)) else DecodeValue(buf, tag.1, some, types, fuel)
    case ArrayT(elem, len) =>
      var items :- DecodeMany(buf, off, elem, len, types, fuel);
      Ok((VList(items.0), items.1))
    case DefinedT(name) =>
      if name !in types then Err(NotInSchema)
      else if fuel == 0 then Err(Depth)
      else DecodeDefined(buf, off, types[name], types, fuel - 1)
    case UnknownT(_) => Err(Unsupported)
  }

  function DecodeMany(buf: seq<byte>, off: nat, item: Ty, n: nat, types: Types, fuel: nat): (r: Decoded<seq<Val>>)
    ensures r.Ok? && off <= |buf| ==> off <= r.value.1 <= |buf|
    decreases fuel, item, n + 1
  {
    if n == 0 then Ok(([], off))
    else
      var first :- DecodeValue(buf, off, item, types, fuel);
      var rest :- DecodeMany(buf, first.1, item, n - 1, types, fuel);
      Ok(([first.0] + rest.0, rest.1))
  }

  function DecodePositional(buf: seq<byte>, off: nat, tys: seq<Ty>, types: Types, fuel: nat): (r: Decoded<seq<Val>>)
    ensures r.Ok? && off <= |buf| ==> off <= r.value.1 <= |buf|
    decreases fuel, tys, 1
  {
    if tys == [] then Ok(([], off))
    else
      var first :- DecodeValue(buf, off, tys[0], types, fuel);
      var rest :- DecodePositional(buf, first.1, tys[1..], types, fuel);
      Ok(([first.0] + rest.0, rest.1))
  }

  /** Fields are stored under their camelCased names; a repeated name overwrites. */
  function DecodeNamed(buf: seq<byte>, off: nat, fs: seq<Field>, types: Types, fuel: nat, acc: map<string, Val>)
    : (r: Decoded<map<string, Val>>)
    ensures r.Ok? && off <= |buf| ==> off <= r.value.1 <= |buf|
    decreases fuel, fs, 1
  {
    if fs == [] then Ok((acc, off))
    else
      var v :- DecodeValue(buf, off, fs[0].ty, types, fuel);
      DecodeNamed(buf, v.1, fs[1..], types, fuel, acc[CamelCase(fs[0].name) := v.0])
  }

  /** decodeFieldList: no fields give an empty object, whichever way they were declared. */
  function DecodeFields(buf: seq<byte>, off: nat, fields: Fields, types: Types, fuel: nat): (r: Decoded<Val>)
    ensures r.Ok? && off <= |buf| ==> off <= r.value.1 <= |buf|
    decreases fuel, fields, 2
  {
    match fields
    case Absent => Ok((VObj(map[]), off))
    case Named(fs) =>
      var m :- DecodeNamed(buf, off, fs, types, fuel, map[]);
      Ok((VObj(m.0), m.1))
    case Positional(tys) =>
      if tys == [] then Ok((VObj(map[]), off))
      else
        var vs :- DecodePositional(buf, off, tys, types, fuel);
        Ok((VList(vs.0), vs.1))
  }

  function DecodeDefined(buf: seq<byte>, off: nat, def: TypeDef, types: Types, fuel: nat): (r: Decoded<Val>)
    ensures r.Ok? && off <= |buf| ==> off <= r.value.1 <= |buf|
    decreases fuel, def, 3
  {
    match def
    case Struct(fields) => DecodeFields(buf, off, fields, types, fuel)
    case Enum(variants) =>
      var tag :- Take(buf, off, 1);
      var idx := tag.0[0];
      if idx >= |variants| then Err(NoVariant)
      else if variants[idx].fields.Absent? then Ok((VUnit(variants[idx].name), tag.1))
      else
        var payload :- DecodeFields(buf, tag.1, variants[idx].fields, types, fuel);
        Ok((VCase(variants[idx].name, payload.0), payload.1))
  }

  // ---- Encoder ----

  /** Position of the first variant called `name`. */
  function VariantIndex(variants: seq<Variant>, name: string): (i: nat)
    ensures i <= |variants|
    ensures i < |variants| ==> variants[i].name == name
  {
    if variants == [] || variants[0].name == name then 0 else 1 + VariantIndex(variants[1..], name)
  }

  /** A `u32` length, then the bytes. */
  function Sized(bytes: seq<byte>): (r: seq<byte>)
    ensures |r| == 4 + |bytes|
  {
    Le(|bytes|, 4) + bytes
  }

  function EncodeValue(ty: Ty, v: Val, types: Types, fuel: nat): Result<seq<nat>, Error>
    decreases fuel, ty, 0
  {
    match ty
    case IntT(w, _) => if v.VInt? then Ok(Le(v.n, w)) else Err(IllTyped)
    case BoolT => if v.VBool? then Ok([if v.b then 1 else 0]) else Err(IllTyped)
    case PubkeyT => if v.VKey? then Ok(v.key) else Err(IllTyped)
    case StringT => if v.VStr? then Ok(Sized(Utf8.Encode(v.text))) else Err(IllTyped)
    case BytesT => if v.VBytes? then Ok(Sized(v.bytes)) else Err(IllTyped)
    case VecT(item) =>
      if !v.VList? then Err(IllTyped)
      else
        var items :- EncodeMany(item, v.items, types, fuel);
        Ok(Le(|v.items|, 4) + items)
    case OptionT(some) =>
      if v.VNull? then Ok([0])
      else
        var inner :- EncodeValue(some, v, types, fuel);
        Ok([1] + inner)
    case ArrayT(elem, _) => if v.VList? then EncodeMany(elem, v.items, types, fuel) else Err(IllTyped)
    case DefinedT(name) =>
      if name !in types then Err(NotInSchema)
      else if fuel == 0 then Err(Depth)
      else EncodeDefined(types[name], v, types, fuel - 1)
    case UnknownT(_) => Err(Unsupported)
  }

  function EncodeMany(item: Ty, vs: seq<Val>, types: Types, fuel: nat): Result<seq<nat>, Error>
    decreases fuel, item, |vs| + 1
  {
    if vs == [] then Ok([])
    else
      var first :- EncodeValue(item, vs[0], types, fuel);
      var rest :- EncodeMany(item, vs[1..], types, fuel);
      Ok(first + rest)
  }

  function EncodePositional(tys: seq<Ty>, vs: seq<Val>, types: Types, fuel: nat): Result<seq<nat>, Error>
    decreases fuel, tys, 1
  {
    if tys == [] then Ok([])
    else if vs == [] then Err(IllTyped)
    else
      var first :- EncodeValue(tys[0], vs[0], types, fuel);
      var rest :- EncodePositional(tys[1..], vs[1..], types, fuel);
      Ok(first + rest)
  }

  function EncodeNamed(fs: seq<Field>, m: map<string, Val>, types: Types, fuel: nat): Result<seq<nat>, Error>
    decreases fuel, fs, 1
  {
    if fs == [] then Ok([])
    else if CamelCase(fs[0].name) !in m then Err(IllTyped)
    else
      var first :- EncodeValue(fs[0].ty, m[CamelCase(fs[0].name)], types, fuel);
      var rest :- EncodeNamed(fs[1..], m, types, fuel);
      Ok(first + rest)
  }

  function EncodeFields(fields: Fields, v: Val, types: Types, fuel: nat): Result<seq<nat>, Error>
    decreases fuel, fields, 2
  {
    match fields
    case Absent => Ok([])
    case Named(fs) =>
      if fs == [] then Ok([]) else if v.VObj? then EncodeNamed(fs, v.fields, types, fuel) else Err(IllTyped)
    case Positional(tys) =>
      if tys == [] then Ok([]) else if v.VList? then EncodePositional(tys, v.items, types, fuel) else Err(IllTyped)
  }

  function EncodeDefined(def: TypeDef, v: Val, types: Types, fuel: nat): Result<seq<nat>, Error>
    decreases fuel, def, 3
  {
    match def
    case Struct(fields) => EncodeFields(fields, v, types, fuel)
    case Enum(variants) =>
      if !v.VUnit? && !v.VCase? then Err(IllTyped)
      else
        var idx := VariantIndex(variants, v.variant);
        if idx == |variants| then Err(NoVariant)
        else if variants[idx].fields.Absent? then Ok([idx])
        else if v.VUnit? then
          (if NoFieldsLeft(variants[idx].fields) then Ok([idx]) else Err(IllTyped))
        else
          var payload :- EncodeFields(variants[idx].fields, v.payload, types, fuel);
          Ok([idx] + payload)
  }

  predicate NoFieldsLeft(fields: Fields) {
    match fields
    case Absent => true
    case Named(fs) => fs == []
    case Positional(tys) => tys == []
  }

  /** encodeIdlFields: named fields in IDL order, numbers truncated to bytes at the end. */
  function EncodeIdlFields(fs: seq<Field>, m: map<string, Val>, types: Types, fuel: nat): Result<seq<byte>, Error> {
    var ns :- EncodeNamed(fs, m, types, fuel);
    Ok(ToU8Array(ns))
  }

  // ---- Values that conform to a type ----

  /** The decoder drops a byte-order mark in front, so a text that starts with one does not come back. */
  predicate Unmarked(text: seq<Utf8.Scalar>) {
    text == [] || text[0] != Utf8.MARK
  }

  predicate Conforms(ty: Ty, v: Val, types: Types, fuel: nat)
    decreases fuel, ty, 0
  {
    match ty
    case IntT(w, signed) => v.VInt? && InRange(v.n, w, signed)
    case BoolT => v.VBool?
    case PubkeyT => v.VKey? && |v.key| == 32
    case StringT => v.VStr? && |Utf8.Encode(v.text)| < Pow256(4) && Unmarked(v.text)
    case BytesT => v.VBytes? && |v.bytes| < Pow256(4)
    case VecT(item) => v.VList? && |v.items| < Pow256(4) && ConformsMany(item, v.items, types, fuel)
    case OptionT(some) => v.VNull? || Conforms(some, v, types, fuel)
    case ArrayT(elem, len) => v.VList? && |v.items| == len && ConformsMany(elem, v.items, types, fuel)
    case DefinedT(name) => name in types && fuel > 0 && ConformsDefined(types[name], v, types, fuel - 1)
    case UnknownT(_) => false
  }

  predicate ConformsMany(item: Ty, vs: seq<Val>, types: Types, fuel: nat)
    decreases fuel, item, |vs| + 1
  {
    vs == [] || (Conforms(item, vs[0], types, fuel) && ConformsMany(item, vs[1..], types, fuel))
  }

  predicate ConformsPositional(tys: seq<Ty>, vs: seq<Val>, types: Types, fuel: nat)
    decreases fuel, tys, 1
  {
    if tys == [] then vs == []
    else vs != [] && Conforms(tys[0], vs[0], types, fuel) && ConformsPositional(tys[1..], vs[1..], types, fuel)
  }

  function CamelNames(fs: seq<Field>): (ns: set<string>)
    ensures forall i :: 0 <= i < |fs| ==> CamelCase(fs[i].name) in ns
  {
    if fs == [] then {} else {CamelCase(fs[0].name)} + CamelNames(fs[1..])
  }

  predicate DistinctNames(fs: seq<Field>) {
    fs == [] || (CamelCase(fs[0].name) !in CamelNames(fs[1..]) && DistinctNames(fs[1..]))
  }

  predicate ConformsNamed(fs: seq<Field>, m: map<string, Val>, types: Types, fuel: nat)
    decreases fuel, fs, 1
  {
    fs == []
    || (CamelCase(fs[0].name) in m
        && Conforms(fs[0].ty, m[CamelCase(fs[0].name)], types, fuel)
        && ConformsNamed(fs[1..], m, types, fuel))
  }

  predicate ConformsFields(fields: Fields, v: Val, types: Types, fuel: nat)
    decreases fuel, fields, 2
  {
    match fields
    case Absent => v == VObj(map[])
    case Named(fs) =>
      v.VObj? && v.fields.Keys == CamelNames(fs) && DistinctNames(fs) && ConformsNamed(fs, v.fields, types, fuel)
    case Positional(tys) =>
      if tys == [] then v == VObj(map[]) else v.VList? && ConformsPositional(tys, v.items, types, fuel)
  }

  predicate ConformsDefined(def: TypeDef, v: Val, types: Types, fuel: nat)
    decreases fuel, def, 3
  {
    match def
    case Struct(fields) => ConformsFields(fields, v, types, fuel)
    case Enum(variants) =>
      && (v.VUnit? || v.VCase?)
      && var idx := VariantIndex(variants, v.variant);
         && idx < |variants| && idx < 256
         && (if v.VUnit? then variants[idx].fields.Absent?
             else !variants[idx].fields.Absent? && ConformsFields(variants[idx].fields, v.payload, types, fuel))
  }
}
