/** Two facts about every decode, of encoded bytes or not: fuel only matters when it runs out, and a cut buffer
    either decodes the same or ends in `Eof`. */
module IdlDecoderFacts {
  import opened Wrappers
  import opened Bytes
  import opened IdlTypes
  import opened IdlCodec

  // ---- Fuel ----

  lemma {:induction false} ValueFuel(buf: seq<byte>, off: nat, ty: Ty, types: Types, fuel: nat, more: nat)
    requires more >= fuel && DecodeValue(buf, off, ty, types, fuel) != Err(Depth)
    ensures DecodeValue(buf, off, ty, types, more) == DecodeValue(buf, off, ty, types, fuel)
    decreases fuel, ty, 0
  {
    hide Take, TakeSized, UintLE, IntLE, DecodeMany, DecodeDefined;
    match ty
    case VecT(item) =>
      var n := Take(buf, off, 4);
      if n.Ok? {
        ManyFuel(buf, n.value.1, item, UintLE(n.value.0), types, fuel, more);
      }
    case OptionT(some) =>
      var tag := Take(buf, off, 1);
      if tag.Ok? && tag.value.0[0] != 0 {
        ValueFuel(buf, tag.value.1, some, types, fuel, more);
      }
    case ArrayT(elem, len) => ManyFuel(buf, off, elem, len, types, fuel, more);
    case DefinedT(name) =>
      if name in types {
        DefinedFuel(buf, off, types[name], types, fuel - 1, more - 1);
      }
    case _ =>
  }

  lemma {:induction false} ManyFuel(buf: seq<byte>, off: nat, item: Ty, n: nat, types: Types, fuel: nat, more: nat)
    requires more >= fuel && DecodeMany(buf, off, item, n, types, fuel) != Err(Depth)
    ensures DecodeMany(buf, off, item, n, types, more) == DecodeMany(buf, off, item, n, types, fuel)
    decreases fuel, item, n + 1
  {
    hide DecodeValue;
    if n > 0 {
      ValueFuel(buf, off, item, types, fuel, more);
      var first := DecodeValue(buf, off, item, types, fuel);
      if first.Ok? {
        ManyFuel(buf, first.value.1, item, n - 1, types, fuel, more);
      }
    }
  }

  lemma {:induction false} PositionalFuel(buf: seq<byte>, off: nat, tys: seq<Ty>, types: Types, fuel: nat, more: nat)
    requires more >= fuel && DecodePositional(buf, off, tys, types, fuel) != Err(Depth)
    ensures DecodePositional(buf, off, tys, types, more) == DecodePositional(buf, off, tys, types, fuel)
    decreases fuel, tys, 1
  {
    hide DecodeValue;
    if tys != [] {
      ValueFuel(buf, off, tys[0], types, fuel, more);
      var first := DecodeValue(buf, off, tys[0], types, fuel);
      if first.Ok? {
        PositionalFuel(buf, first.value.1, tys[1..], types, fuel, more);
      }
    }
  }

  lemma {:induction false} NamedFuel(buf: seq<byte>, off: nat, fs: seq<Field>, types: Types, fuel: nat, more: nat,
                                     acc: map<string, Val>)
    requires more >= fuel && DecodeNamed(buf, off, fs, types, fuel, acc) != Err(Depth)
    ensures DecodeNamed(buf, off, fs, types, more, acc) == DecodeNamed(buf, off, fs, types, fuel, acc)
    decreases fuel, fs, 1
  {
    hide DecodeValue, CamelCase;
    if fs != [] {
      ValueFuel(buf, off, fs[0].ty, types, fuel, more);
      var first := DecodeValue(buf, off, fs[0].ty, types, fuel);
      if first.Ok? {
        NamedFuel(buf, first.value.1, fs[1..], types, fuel, more, acc[CamelCase(fs[0].name) := first.value.0]);
      }
    }
  }

  lemma {:induction false} FieldsFuel(buf: seq<byte>, off: nat, fields: Fields, types: Types, fuel: nat, more: nat)
    requires more >= fuel && DecodeFields(buf, off, fields, types, fuel) != Err(Depth)
    ensures DecodeFields(buf, off, fields, types, more) == DecodeFields(buf, off, fields, types, fuel)
    decreases fuel, fields, 2
  {
    hide DecodeNamed, DecodePositional;
    match fields
    case Absent =>
    case Named(fs) => NamedFuel(buf, off, fs, types, fuel, more, map[]);
    case Positional(tys) =>
      if tys != [] {
        PositionalFuel(buf, off, tys, types, fuel, more);
      }
  }

  /** More fuel than enough changes nothing, so the fuel only stands in for unbounded recursion. */
  lemma {:induction false} DefinedFuel(buf: seq<byte>, off: nat, def: TypeDef, types: Types, fuel: nat, more: nat)
    requires more >= fuel && DecodeDefined(buf, off, def, types, fuel) != Err(Depth)
    ensures DecodeDefined(buf, off, def, types, more) == DecodeDefined(buf, off, def, types, fuel)
    decreases fuel, def, 3
  {
    hide DecodeFields, Take;
    match def
    case Struct(fields) => FieldsFuel(buf, off, fields, types, fuel, more);
    case Enum(variants) =>
      var tag := Take(buf, off, 1);
      if tag.Ok? && tag.value.0[0] < |variants| {
        var fields := variants[tag.value.0[0]].fields;
        assert fields < def;
        if !fields.Absent? {
          FieldsFuel(buf, tag.value.1, fields, types, fuel, more);
        }
      }
  }

  // ---- Cutting the buffer ----

  /** What a successful decode becomes when only the first `m` bytes are there. */
  function Cut<T>(r: Decoded<T>, m: nat): Decoded<T> {
    if r.Ok? && r.value.1 > m then Err(Eof) else r
  }

  lemma TakeCut(buf: seq<byte>, off: nat, n: nat, m: nat)
    requires m <= |buf| && Take(buf, off, n).Ok?
    ensures Take(buf[..m], off, n) == Cut(Take(buf, off, n), m)
  {
    if off + n <= m {
      assert buf[..m][off..off + n] == buf[off..off + n];
    }
  }

  lemma SizedCut(buf: seq<byte>, off: nat, m: nat)
    requires m <= |buf| && TakeSized(buf, off).Ok?
    ensures TakeSized(buf[..m], off) == Cut(TakeSized(buf, off), m)
  {
    hide Take, UintLE;
    var n := Take(buf, off, 4).value;
    TakeCut(buf, off, 4, m);
    if n.1 <= m {
      TakeCut(buf, n.1, UintLE(n.0), m);
    }
  }

  lemma {:induction false} ValueCut(buf: seq<byte>, off: nat, ty: Ty, types: Types, fuel: nat, m: nat)
    requires off <= m <= |buf| && DecodeValue(buf, off, ty, types, fuel).Ok?
    ensures DecodeValue(buf[..m], off, ty, types, fuel) == Cut(DecodeValue(buf, off, ty, types, fuel), m)
    decreases fuel, ty, 0
  {
    hide Take, TakeSized, UintLE, IntLE, DecodeMany, DecodeDefined;
    match ty
    case IntT(w, signed) => TakeCut(buf, off, w, m);
    case BoolT => TakeCut(buf, off, 1, m);
    case PubkeyT => TakeCut(buf, off, 32, m);
    case StringT => SizedCut(buf, off, m);
    case BytesT => SizedCut(buf, off, m);
    case VecT(item) =>
      TakeCut(buf, off, 4, m);
      var n := Take(buf, off, 4).value;
      if n.1 <= m {
        ManyCut(buf, n.1, item, UintLE(n.0), types, fuel, m);
      }
    case OptionT(some) => OptionCut(buf, off, some, types, fuel, m);
    case ArrayT(elem, len) => ManyCut(buf, off, elem, len, types, fuel, m);
    case DefinedT(name) => DefinedCut(buf, off, types[name], types, fuel - 1, m);
    case UnknownT(_) =>
  }

  lemma {:induction false} OptionCut(buf: seq<byte>, off: nat, some: Ty, types: Types, fuel: nat, m: nat)
    requires off <= m <= |buf| && DecodeValue(buf, off, OptionT(some), types, fuel).Ok?
    ensures DecodeValue(buf[..m], off, OptionT(some), types, fuel)
            == Cut(DecodeValue(buf, off, OptionT(some), types, fuel), m)
    decreases fuel, some, 1
  {
    hide Take;
    TakeCut(buf, off, 1, m);
    var tag := Take(buf, off, 1).value;
    if tag.1 <= m && tag.0[0] != 0 {
      ValueCut(buf, tag.1, some, types, fuel, m);
    }
  }

  lemma {:induction false} ManyCut(buf: seq<byte>, off: nat, item: Ty, n: nat, types: Types, fuel: nat, m: nat)
    requires off <= m <= |buf| && DecodeMany(buf, off, item, n, types, fuel).Ok?
    ensures DecodeMany(buf[..m], off, item, n, types, fuel) == Cut(DecodeMany(buf, off, item, n, types, fuel), m)
    decreases fuel, item, n + 1
  {
    hide DecodeValue;
    if n > 0 {
      ValueCut(buf, off, item, types, fuel, m);
      var first := DecodeValue(buf, off, item, types, fuel).value;
      if first.1 <= m {
        ManyCut(buf, first.1, item, n - 1, types, fuel, m);
      }
    }
  }

  lemma {:induction false} PositionalCut(buf: seq<byte>, off: nat, tys: seq<Ty>, types: Types, fuel: nat, m: nat)
    requires off <= m <= |buf| && DecodePositional(buf, off, tys, types, fuel).Ok?
    ensures DecodePositional(buf[..m], off, tys, types, fuel) == Cut(DecodePositional(buf, off, tys, types, fuel), m)
    decreases fuel, tys, 1
  {
    hide DecodeValue;
    if tys != [] {
      ValueCut(buf, off, tys[0], types, fuel, m);
      var first := DecodeValue(buf, off, tys[0], types, fuel).value;
      if first.1 <= m {
        PositionalCut(buf, first.1, tys[1..], types, fuel, m);
      }
    }
  }

  lemma {:induction false} NamedCut(buf: seq<byte>, off: nat, fs: seq<Field>, types: Types, fuel: nat,
                                    acc: map<string, Val>, m: nat)
    requires off <= m <= |buf| && DecodeNamed(buf, off, fs, types, fuel, acc).Ok?
    ensures DecodeNamed(buf[..m], off, fs, types, fuel, acc) == Cut(DecodeNamed(buf, off, fs, types, fuel, acc), m)
    decreases fuel, fs, 1
  {
    hide DecodeValue, CamelCase;
    if fs != [] {
      ValueCut(buf, off, fs[0].ty, types, fuel, m);
      var first := DecodeValue(buf, off, fs[0].ty, types, fuel).value;
      if first.1 <= m {
        NamedCut(buf, first.1, fs[1..], types, fuel, acc[CamelCase(fs[0].name) := first.0], m);
      }
    }
  }

  lemma {:induction false} FieldsCut(buf: seq<byte>, off: nat, fields: Fields, types: Types, fuel: nat, m: nat)
    requires off <= m <= |buf| && DecodeFields(buf, off, fields, types, fuel).Ok?
    ensures DecodeFields(buf[..m], off, fields, types, fuel) == Cut(DecodeFields(buf, off, fields, types, fuel), m)
    decreases fuel, fields, 2
  {
    hide DecodeNamed, DecodePositional;
    match fields
    case Absent =>
    case Named(fs) => NamedCut(buf, off, fs, types, fuel, map[], m);
    case Positional(tys) =>
      if tys != [] {
        PositionalCut(buf, off, tys, types, fuel, m);
      }
  }

  lemma {:induction false} DefinedCut(buf: seq<byte>, off: nat, def: TypeDef, types: Types, fuel: nat, m: nat)
    requires off <= m <= |buf| && DecodeDefined(buf, off, def, types, fuel).Ok?
    ensures DecodeDefined(buf[..m], off, def, types, fuel) == Cut(DecodeDefined(buf, off, def, types, fuel), m)
    decreases fuel, def, 3
  {
    hide DecodeFields, Take;
    match def
    case Struct(fields) => FieldsCut(buf, off, fields, types, fuel, m);
    case Enum(variants) =>
      TakeCut(buf, off, 1, m);
      var tag := Take(buf, off, 1).value;
      var fields := variants[tag.0[0]].fields;
      assert fields < def;
      if tag.1 <= m && !fields.Absent? {
        FieldsCut(buf, tag.1, fields, types, fuel, m);
      }
  }
}
