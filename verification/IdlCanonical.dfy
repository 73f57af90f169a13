/** Which bytes a decoded value encodes back to (packages/pumpfun-events/src/idl-decoder.ts, idl-encoder.ts). */
module IdlCanonical {
  import opened Wrappers
  import opened Bytes
  import opened Slices
  import opened IdlTypes
  import Utf8
  import opened IdlCodec
  import opened IdlRoundTrip
  import opened IdlEvents
  import Division

  // ---- Canonical bytes ----

  /**
   * Every bool byte and option tag read is 0 or 1, every string is UTF-8 without a byte-order mark in front, no present
   * option holds a null, and each enum index is that of the first variant of its name.
   */
  predicate Canonical(buf: seq<byte>, off: nat, ty: Ty, types: Types, fuel: nat)
    decreases fuel, ty, 0
  {
    match ty
    case BoolT => off < |buf| && buf[off] <= 1
    case StringT => TakeSized(buf, off).Ok? && Utf8.Plain(TakeSized(buf, off).value.0)
    case VecT(item) =>
      off + 4 <= |buf| && CanonicalMany(buf, off + 4, item, UintLE(buf[off..off + 4]), types, fuel)
    case OptionT(some) =>
      off < |buf|
      && (buf[off] == 0
          || (buf[off] == 1 && Canonical(buf, off + 1, some, types, fuel) && !NullAt(buf, off + 1, some, types, fuel)))
    case ArrayT(elem, len) => CanonicalMany(buf, off, elem, len, types, fuel)
    case DefinedT(name) => name in types && fuel > 0 && CanonicalDefined(buf, off, types[name], types, fuel - 1)
    case _ => true
  }

  predicate NullAt(buf: seq<byte>, off: nat, ty: Ty, types: Types, fuel: nat) {
    var d := DecodeValue(buf, off, ty, types, fuel);
    d.Ok? && d.value.0 == VNull
  }

  /** Where the value at `off` ends. */
  function EndOf(buf: seq<byte>, off: nat, ty: Ty, types: Types, fuel: nat): nat {
    var d := DecodeValue(buf, off, ty, types, fuel);
    if d.Ok? then d.value.1 else off
  }

  predicate CanonicalMany(buf: seq<byte>, off: nat, item: Ty, n: nat, types: Types, fuel: nat)
    decreases fuel, item, n + 1
  {
    n == 0
    || (Canonical(buf, off, item, types, fuel)
        && CanonicalMany(buf, EndOf(buf, off, item, types, fuel), item, n - 1, types, fuel))
  }

  predicate CanonicalList(buf: seq<byte>, off: nat, tys: seq<Ty>, types: Types, fuel: nat)
    decreases fuel, tys, 1
  {
    tys == []
    || (Canonical(buf, off, tys[0], types, fuel)
        && CanonicalList(buf, EndOf(buf, off, tys[0], types, fuel), tys[1..], types, fuel))
  }

  predicate CanonicalNamed(buf: seq<byte>, off: nat, fs: seq<Field>, types: Types, fuel: nat)
    decreases fuel, fs, 1
  {
    fs == []
    || (Canonical(buf, off, fs[0].ty, types, fuel)
        && CanonicalNamed(buf, EndOf(buf, off, fs[0].ty, types, fuel), fs[1..], types, fuel))
  }

  predicate CanonicalFields(buf: seq<byte>, off: nat, fields: Fields, types: Types, fuel: nat)
    decreases fuel, fields, 2
  {
    match fields
    case Absent => true
    case Named(fs) => CanonicalNamed(buf, off, fs, types, fuel)
    case Positional(tys) => CanonicalList(buf, off, tys, types, fuel)
  }

  predicate CanonicalDefined(buf: seq<byte>, off: nat, def: TypeDef, types: Types, fuel: nat)
    decreases fuel, def, 3
  {
    match def
    case Struct(fields) => CanonicalFields(buf, off, fields, types, fuel)
    case Enum(variants) =>
      off < |buf| && buf[off] < |variants|
      && VariantIndex(variants, variants[buf[off]].name) == buf[off]
      && CanonicalFields(buf, off + 1, variants[buf[off]].fields, types, fuel)
  }

  // ---- Schemas whose objects keep every field ----

  predicate DistinctFields(fields: Fields) {
    fields.Named? ==> DistinctNames(fields.named)
  }

  predicate DistinctDef(def: TypeDef) {
    match def
    case Struct(fields) => DistinctFields(fields)
    case Enum(variants) => forall i :: 0 <= i < |variants| ==> DistinctFields(variants[i].fields)
  }

  predicate DistinctTypes(types: Types) {
    forall n :: n in types ==> DistinctDef(types[n])
  }

  // ---- Re-encoding, piece by piece ----

  /** Some byte of `ns` differs from the byte read in its place. */
  ghost predicate Diverges(buf: seq<byte>, off: nat, end: nat, ns: seq<nat>) {
    exists i :: 0 <= i < |ns| && off + i < end <= |buf| && ns[i] != buf[off + i]
  }

  /** Canonical bytes come back exactly; others do not come back, or differ at a byte both have. */
  ghost predicate Verdict(buf: seq<byte>, off: nat, end: nat, enc: Result<seq<nat>, Error>, canonical: bool) {
    && off <= end <= |buf|
    && (canonical ==> enc == Ok(buf[off..end]))
    && (!canonical ==> enc.Err? || Diverges(buf, off, end, enc.value))
  }

  function Joined(a: Result<seq<nat>, Error>, b: Result<seq<nat>, Error>): Result<seq<nat>, Error> {
    if a.Err? then a else if b.Err? then b else Ok(a.value + b.value)
  }

  lemma VerdictJoin(buf: seq<byte>, off: nat, mid: nat, end: nat, a: Result<seq<nat>, Error>,
                    b: Result<seq<nat>, Error>, first: bool, rest: bool)
    requires Verdict(buf, off, mid, a, first) && Verdict(buf, mid, end, b, rest)
    ensures Verdict(buf, off, end, Joined(a, b), first && rest)
  {
    if a.Ok? && b.Ok? {
      var both := a.value + b.value;
      if !first {
        var i :| 0 <= i < |a.value| && off + i < mid <= |buf| && a.value[i] != buf[off + i];
        assert both[i] == a.value[i];
      } else if !rest {
        var i :| 0 <= i < |b.value| && mid + i < end <= |buf| && b.value[i] != buf[mid + i];
        assert both[|a.value| + i] == b.value[i];
      } else {
        assert buf[off..end] == buf[off..mid] + buf[mid..end];
      }
    }
  }

  /** A verdict decides: the bytes come back exactly when they are canonical. */
  lemma VerdictDecides(buf: seq<byte>, off: nat, end: nat, enc: Result<seq<nat>, Error>, canonical: bool)
    requires Verdict(buf, off, end, enc, canonical)
    ensures enc == Ok(buf[off..end]) <==> canonical
  {
  }

  /** One byte, kept or replaced. */
  lemma VerdictByte(buf: seq<byte>, off: nat, n: nat)
    requires off < |buf|
    ensures Verdict(buf, off, off + 1, Ok([n]), n == buf[off])
  {
    assert buf[off..off + 1] == [buf[off]];
    var ns: seq<nat> := [n];
    assert ns[0] == n;
  }

  lemma VerdictNothing(buf: seq<byte>, off: nat)
    requires off <= |buf|
    ensures Verdict(buf, off, off, Ok([]), true)
  {
    assert buf[off..off] == [];
  }

  lemma VerdictSame(buf: seq<byte>, off: nat, end: nat, part: seq<byte>)
    requires off <= end <= |buf| && part == buf[off..end]
    ensures Verdict(buf, off, end, Ok(part), true)
  {
  }

  // ---- Integers read are written back ----

  lemma {:induction false} UintRewritten(bytes: seq<byte>)
    ensures UintLE(bytes) < Pow256(|bytes|)
    ensures LittleEndian(UintLE(bytes), |bytes|) == bytes
    decreases |bytes|
  {
    if bytes != [] {
      UintRewritten(bytes[1..]);
      Division.DivModUnique(UintLE(bytes), 256, UintLE(bytes[1..]), bytes[0]);
      assert bytes == [bytes[0]] + bytes[1..];
    }
  }

  /** Every byte pattern of an integer, signed or not, is the one its value is written as. */
  lemma IntRewritten(bytes: seq<byte>, signed: bool)
    ensures Le(if signed then IntLE(bytes) else UintLE(bytes), |bytes|) == bytes
  {
    hide LittleEndian, UintLE, Pow256;
    UintRewritten(bytes);
    var u: int := UintLE(bytes);
    var p := Pow256(|bytes|);
    Division.DivModUnique(u, p, 0, u);
    if signed && bytes != [] && u >= p / 2 {
      Division.DivModUnique(u - p, p, -1, u);
    }
  }

  /** A length prefix and what follows it. */
  lemma SizedVerdict(buf: seq<byte>, off: nat)
    requires TakeSized(buf, off).Ok?
    ensures var d := TakeSized(buf, off).value;
            Verdict(buf, off, d.1, Ok(Sized(d.0)), true)
  {
    hide Le, UintLE;
    IntRewritten(buf[off..off + 4], false);
    var d := TakeSized(buf, off).value;
    assert buf[off..d.1] == buf[off..off + 4] + buf[off + 4..d.1];
  }

  lemma {:induction false} UintBelow(bytes: seq<byte>)
    ensures UintLE(bytes) < Pow256(|bytes|)
  {
    UintRewritten(bytes);
  }

  /** Four bytes tell lengths apart modulo 2^32. */
  lemma LengthsApart(a: nat, b: nat)
    requires a % Pow256(4) != b % Pow256(4)
    ensures exists i :: 0 <= i < 4 && Le(a, 4)[i] != Le(b, 4)[i]
  {
    hide Pow256, LittleEndian, UintLE;
    LittleEndianBack(a % Pow256(4), 4);
    LittleEndianBack(b % Pow256(4), 4);
    assert Le(a, 4) != Le(b, 4);
  }

  /** A text read comes back as bytes exactly when those are plain UTF-8; otherwise its length or a byte differs. */
  lemma TextVerdict(buf: seq<byte>, off: nat)
    requires TakeSized(buf, off).Ok?
    ensures var d := TakeSized(buf, off).value;
            Verdict(buf, off, d.1, Ok(Sized(Utf8.Encode(Utf8.Decode(d.0)))), Utf8.Plain(d.0))
  {
    hide Le, UintLE, Utf8.Encode, Utf8.Decode, Utf8.Plain, Verdict, Pow256;
    var d := TakeSized(buf, off).value;
    var bs, back := d.0, Utf8.Encode(Utf8.Decode(d.0));
    SizedVerdict(buf, off);
    Utf8.BytesBack(bs);
    if !Utf8.Plain(bs) {
      UintBelow(buf[off..off + 4]);
      FourBytes();
      Utf8.BytesChange(bs, Pow256(4));
      IntRewritten(buf[off..off + 4], false);
      TextDiverges(buf, off, bs, back);
    }
  }

  lemma FourBytes()
    ensures Pow256(4) >= 4
  {
  }

  lemma TextDiverges(buf: seq<byte>, off: nat, bs: seq<byte>, back: seq<byte>)
    requires off + 4 + |bs| <= |buf| && buf[off..off + 4] == Le(|bs|, 4) && buf[off + 4..off + 4 + |bs|] == bs
    requires Utf8.Differ(back, bs) || |back| % Pow256(4) != |bs| % Pow256(4)
    ensures Verdict(buf, off, off + 4 + |bs|, Ok(Sized(back)), false)
  {
    hide Le, Pow256;
    var ns: seq<nat> := Sized(back);
    if Utf8.Differ(back, bs) {
      var i :| 0 <= i < |back| && i < |bs| && back[i] != bs[i];
      assert ns[4 + i] == back[i] && buf[off + 4..off + 4 + |bs|][i] == buf[off + (4 + i)];
    } else {
      LengthsApart(|back|, |bs|);
      var i :| 0 <= i < 4 && Le(|back|, 4)[i] != Le(|bs|, 4)[i];
      assert ns[i] == Le(|back|, 4)[i] && buf[off..off + 4][i] == buf[off + i];
    }
  }

  // ---- Values ----

  lemma {:induction false} ValueVerdict(buf: seq<byte>, off: nat, ty: Ty, types: Types, fuel: nat)
    requires off <= |buf| && DistinctTypes(types) && DecodeValue(buf, off, ty, types, fuel).Ok?
    ensures var d := DecodeValue(buf, off, ty, types, fuel).value;
            Verdict(buf, off, d.1, EncodeValue(ty, d.0, types, fuel), Canonical(buf, off, ty, types, fuel))
    decreases fuel, ty, 0
  {
    hide Verdict, Le, UintLE, IntLE, TakeSized, DecodeMany, EncodeMany, CanonicalMany, DecodeDefined, EncodeDefined,
         CanonicalDefined, DistinctDef, Sized, Utf8.Encode, Utf8.Decode, Utf8.Plain;
    var d := DecodeValue(buf, off, ty, types, fuel).value;
    match ty
    case IntT(w, signed) =>
      IntRewritten(buf[off..off + w], signed);
      VerdictSame(buf, off, off + w, buf[off..off + w]);
    case BoolT =>
      VerdictByte(buf, off, if d.0.b then 1 else 0);
    case PubkeyT =>
      VerdictSame(buf, off, off + 32, d.0.key);
    case StringT =>
      TextVerdict(buf, off);
    case BytesT =>
      SizedVerdict(buf, off);
    case VecT(item) =>
      var n := UintLE(buf[off..off + 4]);
      IntRewritten(buf[off..off + 4], false);
      VerdictSame(buf, off, off + 4, buf[off..off + 4]);
      ManyVerdict(buf, off + 4, item, n, types, fuel);
      VerdictJoin(buf, off, off + 4, d.1, Ok(Le(n, 4)), EncodeMany(item, d.0.items, types, fuel),
                  true, CanonicalMany(buf, off + 4, item, n, types, fuel));
    case OptionT(some) =>
      OptionVerdict(buf, off, some, types, fuel);
    case ArrayT(elem, len) =>
      ManyVerdict(buf, off, elem, len, types, fuel);
    case DefinedT(name) =>
      DefinedVerdict(buf, off, types[name], types, fuel - 1);
  }

  lemma {:induction false} OptionVerdict(buf: seq<byte>, off: nat, some: Ty, types: Types, fuel: nat)
    requires off <= |buf| && DistinctTypes(types) && DecodeValue(buf, off, OptionT(some), types, fuel).Ok?
    ensures var d := DecodeValue(buf, off, OptionT(some), types, fuel).value;
            Verdict(buf, off, d.1, EncodeValue(OptionT(some), d.0, types, fuel),
                    Canonical(buf, off, OptionT(some), types, fuel))
    decreases fuel, some, 1
  {
    hide Verdict, DistinctTypes;
    var d := DecodeValue(buf, off, OptionT(some), types, fuel).value;
    if buf[off] == 0 {
      VerdictByte(buf, off, 0);
    } else {
      ValueVerdict(buf, off + 1, some, types, fuel);
      if d.0.VNull? {
        LostTag(buf, off, d.1);
      } else {
        VerdictByte(buf, off, 1);
        VerdictJoin(buf, off, off + 1, d.1, Ok([1]), EncodeValue(some, d.0, types, fuel),
                    1 == buf[off], Canonical(buf, off + 1, some, types, fuel));
      }
    }
  }

  /** A single 0 where a nonzero byte was read. */
  lemma LostTag(buf: seq<byte>, off: nat, end: nat)
    requires off < end <= |buf| && buf[off] != 0
    ensures Verdict(buf, off, end, Ok([0]), false)
  {
    var ns: seq<nat> := [0];
    assert ns[0] != buf[off + 0];
  }

  /** A first byte other than the one read, whatever follows. */
  lemma LostFirst(buf: seq<byte>, off: nat, end: nat, enc: Result<seq<nat>, Error>)
    requires off < end <= |buf| && (enc.Ok? ==> enc.value != [] && enc.value[0] != buf[off])
    ensures Verdict(buf, off, end, enc, false)
  {
    if enc.Ok? {
      assert enc.value[0] != buf[off + 0];
    }
  }

  lemma {:induction false} ManyVerdict(buf: seq<byte>, off: nat, item: Ty, n: nat, types: Types, fuel: nat)
    requires off <= |buf| && DistinctTypes(types) && DecodeMany(buf, off, item, n, types, fuel).Ok?
    ensures var d := DecodeMany(buf, off, item, n, types, fuel).value;
            && |d.0| == n
            && Verdict(buf, off, d.1, EncodeMany(item, d.0, types, fuel), CanonicalMany(buf, off, item, n, types, fuel))
    decreases fuel, item, n + 1
  {
    hide Verdict, DistinctTypes, DecodeValue, EncodeValue, Canonical;
    if n == 0 {
      VerdictNothing(buf, off);
    } else {
      var first := DecodeValue(buf, off, item, types, fuel).value;
      ValueVerdict(buf, off, item, types, fuel);
      ManyVerdict(buf, first.1, item, n - 1, types, fuel);
      var rest := DecodeMany(buf, first.1, item, n - 1, types, fuel).value;
      assert ([first.0] + rest.0)[1..] == rest.0;
      VerdictJoin(buf, off, first.1, rest.1, EncodeValue(item, first.0, types, fuel),
                  EncodeMany(item, rest.0, types, fuel), Canonical(buf, off, item, types, fuel),
                  CanonicalMany(buf, first.1, item, n - 1, types, fuel));
    }
  }

  lemma {:induction false} ListVerdict(buf: seq<byte>, off: nat, tys: seq<Ty>, types: Types, fuel: nat)
    requires off <= |buf| && DistinctTypes(types) && DecodePositional(buf, off, tys, types, fuel).Ok?
    ensures var d := DecodePositional(buf, off, tys, types, fuel).value;
            Verdict(buf, off, d.1, EncodePositional(tys, d.0, types, fuel), CanonicalList(buf, off, tys, types, fuel))
    decreases fuel, tys, 1
  {
    hide Verdict, DistinctTypes, DecodeValue, EncodeValue, Canonical;
    if tys == [] {
      VerdictNothing(buf, off);
    } else {
      var first := DecodeValue(buf, off, tys[0], types, fuel).value;
      ValueVerdict(buf, off, tys[0], types, fuel);
      ListVerdict(buf, first.1, tys[1..], types, fuel);
      var rest := DecodePositional(buf, first.1, tys[1..], types, fuel).value;
      assert ([first.0] + rest.0)[1..] == rest.0;
      VerdictJoin(buf, off, first.1, rest.1, EncodeValue(tys[0], first.0, types, fuel),
                  EncodePositional(tys[1..], rest.0, types, fuel), Canonical(buf, off, tys[0], types, fuel),
                  CanonicalList(buf, first.1, tys[1..], types, fuel));
    }
  }

  /** Names outside `fs` keep what they had. */
  lemma {:induction false} NamedKeeps(buf: seq<byte>, off: nat, fs: seq<Field>, types: Types, fuel: nat,
                                      acc: map<string, Val>, k: string)
    requires DecodeNamed(buf, off, fs, types, fuel, acc).Ok? && k in acc && k !in CamelNames(fs)
    ensures var m := DecodeNamed(buf, off, fs, types, fuel, acc).value.0;
            k in m && m[k] == acc[k]
    decreases |fs|
  {
    hide DecodeValue, CamelCase;
    if fs != [] {
      var first := DecodeValue(buf, off, fs[0].ty, types, fuel).value;
      NamedKeeps(buf, first.1, fs[1..], types, fuel, acc[CamelCase(fs[0].name) := first.0], k);
    }
  }

  lemma {:induction false} NamedVerdict(buf: seq<byte>, off: nat, fs: seq<Field>, types: Types, fuel: nat,
                                        acc: map<string, Val>)
    requires off <= |buf| && DistinctTypes(types) && DistinctNames(fs)
    requires DecodeNamed(buf, off, fs, types, fuel, acc).Ok?
    ensures var d := DecodeNamed(buf, off, fs, types, fuel, acc).value;
            Verdict(buf, off, d.1, EncodeNamed(fs, d.0, types, fuel), CanonicalNamed(buf, off, fs, types, fuel))
    decreases fuel, fs, 1
  {
    hide Verdict, DistinctTypes, DecodeValue, EncodeValue, Canonical, CamelCase;
    if fs == [] {
      VerdictNothing(buf, off);
    } else {
      var k := CamelCase(fs[0].name);
      var first := DecodeValue(buf, off, fs[0].ty, types, fuel).value;
      ValueVerdict(buf, off, fs[0].ty, types, fuel);
      NamedVerdict(buf, first.1, fs[1..], types, fuel, acc[k := first.0]);
      NamedKeeps(buf, first.1, fs[1..], types, fuel, acc[k := first.0], k);
      var rest := DecodeNamed(buf, first.1, fs[1..], types, fuel, acc[k := first.0]).value;
      VerdictJoin(buf, off, first.1, rest.1, EncodeValue(fs[0].ty, first.0, types, fuel),
                  EncodeNamed(fs[1..], rest.0, types, fuel), Canonical(buf, off, fs[0].ty, types, fuel),
                  CanonicalNamed(buf, first.1, fs[1..], types, fuel));
    }
  }

  lemma {:induction false} FieldsVerdict(buf: seq<byte>, off: nat, fields: Fields, types: Types, fuel: nat)
    requires off <= |buf| && DistinctTypes(types) && DistinctFields(fields)
    requires DecodeFields(buf, off, fields, types, fuel).Ok?
    ensures var d := DecodeFields(buf, off, fields, types, fuel).value;
            Verdict(buf, off, d.1, EncodeFields(fields, d.0, types, fuel),
                    CanonicalFields(buf, off, fields, types, fuel))
    decreases fuel, fields, 2
  {
    hide Verdict, DistinctTypes;
    match fields
    case Absent => VerdictNothing(buf, off);
    case Named(fs) => NamedVerdict(buf, off, fs, types, fuel, map[]);
    case Positional(tys) => ListVerdict(buf, off, tys, types, fuel);
  }

  lemma {:induction false} DefinedVerdict(buf: seq<byte>, off: nat, def: TypeDef, types: Types, fuel: nat)
    requires off <= |buf| && DistinctTypes(types) && DistinctDef(def)
    requires DecodeDefined(buf, off, def, types, fuel).Ok?
    ensures var d := DecodeDefined(buf, off, def, types, fuel).value;
            Verdict(buf, off, d.1, EncodeDefined(def, d.0, types, fuel), CanonicalDefined(buf, off, def, types, fuel))
    decreases fuel, def, 3
  {
    hide Verdict, DistinctTypes, DistinctFields, DecodeFields, EncodeFields;
    var d := DecodeDefined(buf, off, def, types, fuel).value;
    var enc := EncodeDefined(def, d.0, types, fuel);
    match def
    case Struct(fields) => FieldsVerdict(buf, off, fields, types, fuel);
    case Enum(variants) =>
      var idx := buf[off];
      if VariantIndex(variants, variants[idx].name) != idx {
        LostFirst(buf, off, d.1, enc);
      } else {
        VerdictByte(buf, off, idx);
        var fields := variants[idx].fields;
        if !fields.Absent? {
          assert fields < def;
          FieldsVerdict(buf, off + 1, fields, types, fuel);
          VerdictJoin(buf, off, off + 1, d.1, Ok([idx]), EncodeFields(fields, d.0.payload, types, fuel),
                      true, CanonicalFields(buf, off + 1, fields, types, fuel));
        }
      }
  }

  // ---- Decode, then encode ----

  /**
   * What was read is written back byte for byte exactly when the bytes are canonical. Distinct field names are the
   * schema's part: a repeated name leaves one value for two places.
   */
  lemma ReencodeIff(buf: seq<byte>, off: nat, ty: Ty, types: Types, fuel: nat)
    requires off <= |buf| && DistinctTypes(types) && DecodeValue(buf, off, ty, types, fuel).Ok?
    ensures var d := DecodeValue(buf, off, ty, types, fuel).value;
            EncodeValue(ty, d.0, types, fuel) == Ok(buf[off..d.1]) <==> Canonical(buf, off, ty, types, fuel)
  {
    hide Canonical, EncodeValue, DecodeValue, Verdict;
    var d := DecodeValue(buf, off, ty, types, fuel).value;
    ValueVerdict(buf, off, ty, types, fuel);
    VerdictDecides(buf, off, d.1, EncodeValue(ty, d.0, types, fuel), Canonical(buf, off, ty, types, fuel));
  }

  /** Why the names must be distinct: two fields of one name leave one value, and both places get it. */
  lemma RepeatedFieldName()
    ensures var fs := [Field("a", BoolT), Field("a", BoolT)];
            && CanonicalNamed([1, 0], 0, fs, map[], 0)
            && DecodeNamed([1, 0], 0, fs, map[], 0, map[]) == Ok((map[CamelCase("a") := VBool(false)], 2))
            && EncodeNamed(fs, map[CamelCase("a") := VBool(false)], map[], 0) == Ok([0, 0])
  {
    hide CamelCase;
    var fs := [Field("a", BoolT), Field("a", BoolT)];
    var last := [Field("a", BoolT)];
    assert fs[1..] == last && last[1..] == [];
    var k := CamelCase("a");
    var one, both := map[k := VBool(true)], map[k := VBool(false)];
    assert one[k := VBool(false)] == both;
    var buf: seq<byte> := [1, 0];
    assert DecodeValue(buf, 0, BoolT, map[], 0) == Ok((VBool(true), 1));
    assert DecodeValue(buf, 1, BoolT, map[], 0) == Ok((VBool(false), 2));
    assert DecodeNamed(buf, 2, [], map[], 0, both) == Ok((both, 2));
    assert DecodeNamed(buf, 1, last, map[], 0, one) == Ok((both, 2));
    assert EncodeValue(BoolT, both[k], map[], 0) == Ok([0]);
    assert EncodeNamed([], both, map[], 0) == Ok([]);
    var zero: seq<nat> := [0];
    assert zero + [] == zero && zero + zero == [0, 0];
    assert EncodeNamed(last, both, map[], 0) == Ok(zero + []);
  }

  /** The encoder writes canonical bytes only. */
  lemma EncodedIsCanonical(buf: seq<byte>, off: nat, ty: Ty, v: Val, types: Types, fuel: nat)
    requires Conforms(ty, v, types, fuel) && DistinctTypes(types)
    requires EncodeValue(ty, v, types, fuel).Ok? && At(buf, off, EncodeValue(ty, v, types, fuel).value)
    ensures Canonical(buf, off, ty, types, fuel)
  {
    hide Canonical, Conforms, EncodeValue, DecodeValue, At;
    ValueBack(buf, off, ty, v, types, fuel);
    var ns := EncodeValue(ty, v, types, fuel).value;
    AtWithin(buf, off, ns);
    AtSlice(buf, off, ns);
    ReencodeIff(buf, off, ty, types, fuel);
  }
}
