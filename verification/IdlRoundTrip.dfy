/** Decoding what was encoded, in any buffer; independence of the fuel; locality and truncation of the decoder. */
module IdlRoundTrip {
  import opened Wrappers
  import opened Bytes
  import opened Slices
  import opened IdlTypes
  import Utf8
  import opened IdlCodec

  lemma TakeAt(buf: seq<byte>, off: nat, part: seq<byte>)
    requires At(buf, off, part)
    ensures Take(buf, off, |part|) == Ok((part, off + |part|))
  {
    assert buf[off..off + |part|] == part;
  }

  lemma LengthBack(n: nat)
    requires n < Pow256(4)
    ensures UintLE(Le(n, 4)) == n
  {
    IntBack(n, 4, false);
  }

  lemma SizedAt(buf: seq<byte>, off: nat, part: seq<byte>)
    requires |part| < Pow256(4) && At(buf, off, Sized(part))
    ensures TakeSized(buf, off) == Ok((part, off + 4 + |part|))
  {
    hide Le, UintLE, Pow256, Take;
    AtSplit(buf, off, Le(|part|, 4), part);
    TakeAt(buf, off, Le(|part|, 4));
    TakeAt(buf, off + 4, part);
    LengthBack(|part|);
  }

  /** Encoding succeeds and decoding it anywhere gives the value back, cursor right behind it. */
  ghost predicate Back<T>(buf: seq<byte>, off: nat, enc: Result<seq<nat>, Error>, dec: Decoded<T>, v: T) {
    && enc.Ok? && AllBytes(enc.value)
    && (At(buf, off, enc.value) ==> dec == Ok((v, off + |enc.value|)))
  }

  lemma {:induction false} ValueBack(buf: seq<byte>, off: nat, ty: Ty, v: Val, types: Types, fuel: nat)
    requires Conforms(ty, v, types, fuel)
    ensures Back(buf, off, EncodeValue(ty, v, types, fuel), DecodeValue(buf, off, ty, types, fuel), v)
    decreases fuel, ty, 0
  {
    hide At, AllBytes, Le, UintLE, IntLE, Pow256, InRange, ConformsMany, DecodeMany, EncodeMany, TakeSized,
         ConformsDefined, DecodeDefined, EncodeDefined, Sized, Utf8.Encode, Utf8.Decode;
    var enc := EncodeValue(ty, v, types, fuel);
    match ty
    case IntT(w, signed) =>
      IntBack(v.n, w, signed);
      BytesAreBytes(Le(v.n, w));
      if At(buf, off, enc.value) {
        TakeAt(buf, off, Le(v.n, w));
      }
    case BoolT =>
      BytesAreBytes([if v.b then 1 else 0]);
      if At(buf, off, enc.value) {
        TakeAt(buf, off, [if v.b then 1 else 0]);
      }
    case PubkeyT =>
      BytesAreBytes(v.key);
      if At(buf, off, enc.value) {
        TakeAt(buf, off, v.key);
      }
    case StringT =>
      BytesAreBytes(Sized(Utf8.Encode(v.text)));
      Utf8.TextBack(v.text);
      if At(buf, off, enc.value) {
        SizedAt(buf, off, Utf8.Encode(v.text));
      }
    case BytesT =>
      BytesAreBytes(Sized(v.bytes));
      if At(buf, off, enc.value) {
        SizedAt(buf, off, v.bytes);
      }
    case VecT(item) =>
      ManyBack(buf, off + 4, item, v.items, types, fuel);
      BytesAreBytes(Le(|v.items|, 4));
      AllBytesJoin(Le(|v.items|, 4), EncodeMany(item, v.items, types, fuel).value);
      if At(buf, off, enc.value) {
        AtSplit(buf, off, Le(|v.items|, 4), EncodeMany(item, v.items, types, fuel).value);
        TakeAt(buf, off, Le(|v.items|, 4));
        LengthBack(|v.items|);
      }
    case OptionT(some) =>
      OptionBack(buf, off, some, v, types, fuel);
    case ArrayT(elem, len) =>
      ManyBack(buf, off, elem, v.items, types, fuel);
    case DefinedT(name) =>
      DefinedBack(buf, off, types[name], v, types, fuel - 1);
    case UnknownT(_) =>
  }

  lemma {:induction false} OptionBack(buf: seq<byte>, off: nat, some: Ty, v: Val, types: Types, fuel: nat)
    requires Conforms(OptionT(some), v, types, fuel)
    ensures Back(buf, off, EncodeValue(OptionT(some), v, types, fuel),
                 DecodeValue(buf, off, OptionT(some), types, fuel), v)
    decreases fuel, some, 1
  {
    hide At, AllBytes;
    var enc := EncodeValue(OptionT(some), v, types, fuel);
    var tag: byte := if v.VNull? then 0 else 1;
    BytesAreBytes([tag]);
    if v.VNull? {
      if At(buf, off, enc.value) {
        TakeAt(buf, off, [tag]);
      }
    } else {
      ValueBack(buf, off + 1, some, v, types, fuel);
      AllBytesJoin([1], EncodeValue(some, v, types, fuel).value);
      if At(buf, off, enc.value) {
        var tagPart: seq<nat> := [1];
        AtSplit(buf, off, tagPart, EncodeValue(some, v, types, fuel).value);
        TakeAt(buf, off, [tag]);
      }
    }
  }

  /** A value and the list behind it, both back, are one list back. */
  lemma BackCons(buf: seq<byte>, off: nat, v: Val, vs: seq<Val>, a: Result<seq<nat>, Error>, b: Result<seq<nat>, Error>,
                 first: Decoded<Val>, rest: Decoded<seq<Val>>)
    requires Back(buf, off, a, first, v)
    requires Back(buf, off + |a.value|, b, rest, vs)
    ensures AllBytes(a.value + b.value)
    ensures At(buf, off, a.value + b.value)
            ==> first == Ok((v, off + |a.value|)) && rest == Ok((vs, off + |a.value + b.value|))
  {
    hide At, AllBytes;
    AllBytesJoin(a.value, b.value);
    if At(buf, off, a.value + b.value) {
      AtSplit(buf, off, a.value, b.value);
    }
  }

  lemma {:induction false} ManyBack(buf: seq<byte>, off: nat, item: Ty, vs: seq<Val>, types: Types, fuel: nat)
    requires ConformsMany(item, vs, types, fuel)
    ensures Back(buf, off, EncodeMany(item, vs, types, fuel), DecodeMany(buf, off, item, |vs|, types, fuel), vs)
    decreases fuel, item, |vs| + 1
  {
    hide At, AllBytes, Conforms, EncodeValue, DecodeValue;
    BytesAreBytes([]);
    if vs != [] {
      ValueBack(buf, off, item, vs[0], types, fuel);
      var first := EncodeValue(item, vs[0], types, fuel).value;
      ManyBack(buf, off + |first|, item, vs[1..], types, fuel);
      assert [vs[0]] + vs[1..] == vs;
      BackCons(buf, off, vs[0], vs[1..], EncodeValue(item, vs[0], types, fuel), EncodeMany(item, vs[1..], types, fuel),
               DecodeValue(buf, off, item, types, fuel),
               DecodeMany(buf, off + |first|, item, |vs| - 1, types, fuel));
    }
  }

  lemma {:induction false} PositionalBack(buf: seq<byte>, off: nat, tys: seq<Ty>, vs: seq<Val>, types: Types, fuel: nat)
    requires ConformsPositional(tys, vs, types, fuel)
    ensures Back(buf, off, EncodePositional(tys, vs, types, fuel), DecodePositional(buf, off, tys, types, fuel), vs)
    decreases fuel, tys, 1
  {
    hide At, AllBytes, Conforms, EncodeValue, DecodeValue;
    BytesAreBytes([]);
    if tys != [] {
      ValueBack(buf, off, tys[0], vs[0], types, fuel);
      var first := EncodeValue(tys[0], vs[0], types, fuel).value;
      PositionalBack(buf, off + |first|, tys[1..], vs[1..], types, fuel);
      assert [vs[0]] + vs[1..] == vs;
      BackCons(buf, off, vs[0], vs[1..], EncodeValue(tys[0], vs[0], types, fuel),
               EncodePositional(tys[1..], vs[1..], types, fuel), DecodeValue(buf, off, tys[0], types, fuel),
               DecodePositional(buf, off + |first|, tys[1..], types, fuel));
    }
  }

  /** The part of `m` that the fields `fs` describe. */
  function Restrict(m: map<string, Val>, names: set<string>): map<string, Val> {
    map k | k in m && k in names :: m[k]
  }

  lemma RestrictNothing(acc: map<string, Val>, m: map<string, Val>)
    ensures acc + Restrict(m, {}) == acc
  {
  }

  lemma RestrictStep(acc: map<string, Val>, m: map<string, Val>, fs: seq<Field>)
    requires fs != [] && CamelCase(fs[0].name) in m && DistinctNames(fs)
    ensures var k := CamelCase(fs[0].name);
            acc[k := m[k]] + Restrict(m, CamelNames(fs[1..])) == acc + Restrict(m, CamelNames(fs))
  {
    hide CamelCase;
  }

  lemma {:induction false} NamedBack(buf: seq<byte>, off: nat, fs: seq<Field>, m: map<string, Val>, types: Types,
                                     fuel: nat,
                                     acc: map<string, Val>)
    requires ConformsNamed(fs, m, types, fuel) && DistinctNames(fs)
    ensures Back(buf, off, EncodeNamed(fs, m, types, fuel), DecodeNamed(buf, off, fs, types, fuel, acc),
                 acc + Restrict(m, CamelNames(fs)))
    decreases fuel, fs, 1
  {
    hide At, AllBytes, Conforms, EncodeValue, DecodeValue, CamelCase, Restrict;
    BytesAreBytes([]);
    if fs == [] {
      RestrictNothing(acc, m);
    } else {
      var k := CamelCase(fs[0].name);
      ValueBack(buf, off, fs[0].ty, m[k], types, fuel);
      var first := EncodeValue(fs[0].ty, m[k], types, fuel).value;
      NamedBack(buf, off + |first|, fs[1..], m, types, fuel, acc[k := m[k]]);
      var rest := EncodeNamed(fs[1..], m, types, fuel).value;
      AllBytesJoin(first, rest);
      RestrictStep(acc, m, fs);
      if At(buf, off, first + rest) {
        AtSplit(buf, off, first, rest);
      }
    }
  }

  lemma {:induction false} FieldsBack(buf: seq<byte>, off: nat, fields: Fields, v: Val, types: Types, fuel: nat)
    requires ConformsFields(fields, v, types, fuel)
    ensures Back(buf, off, EncodeFields(fields, v, types, fuel), DecodeFields(buf, off, fields, types, fuel), v)
    decreases fuel, fields, 2
  {
    hide At, AllBytes, CamelCase;
    BytesAreBytes([]);
    match fields
    case Absent =>
    case Named(fs) =>
      NamedBack(buf, off, fs, v.fields, types, fuel, map[]);
      assert map[] + Restrict(v.fields, CamelNames(fs)) == v.fields;
    case Positional(tys) =>
      if tys != [] {
        PositionalBack(buf, off, tys, v.items, types, fuel);
      }
  }

  lemma {:induction false} DefinedBack(buf: seq<byte>, off: nat, def: TypeDef, v: Val, types: Types, fuel: nat)
    requires ConformsDefined(def, v, types, fuel)
    ensures Back(buf, off, EncodeDefined(def, v, types, fuel), DecodeDefined(buf, off, def, types, fuel), v)
    decreases fuel, def, 3
  {
    hide At, AllBytes, EncodeFields, DecodeFields, ConformsFields;
    match def
    case Struct(fields) => FieldsBack(buf, off, fields, v, types, fuel);
    case Enum(variants) =>
      var idx := VariantIndex(variants, v.variant);
      var tag: seq<nat> := [idx];
      BytesAreBytes([idx]);
      var fields := variants[idx].fields;
      if v.VUnit? {
        if At(buf, off, tag) {
          TakeAt(buf, off, [idx]);
        }
      } else {
        assert fields < def;
        FieldsBack(buf, off + 1, fields, v.payload, types, fuel);
        var payload := EncodeFields(fields, v.payload, types, fuel).value;
        AllBytesJoin(tag, payload);
        if At(buf, off, tag + payload) {
          AtSplit(buf, off, tag, payload);
          TakeAt(buf, off, [idx]);
        }
      }
  }
}
