/** The decoder's cursor loops, event decoding, and how decoding behaves as programs append fields. */
module IdlEvents {
  import opened Wrappers
  import opened Bytes
  import opened Slices
  import opened IdlTypes
  import Utf8
  import opened IdlCodec
  import opened IdlRoundTrip
  import opened IdlDecoderFacts

  datatype EventSchema = EventSchema(name: string, discriminator: seq<byte>, fields: seq<Field>)
  datatype DecodedEvent = DecodedEvent(name: string, fields: map<string, Val>, complete: bool)

  // ---- The cursor ----

  class Cursor {
    var offset: nat
    const buf: seq<byte>

    constructor (buf: seq<byte>)
      ensures this.buf == buf && offset == 0
    {
      this.buf := buf;
      offset := 0;
    }

    /** The next `n` bytes, or `Eof` with the cursor left where it was. */
    method Take(n: nat) returns (r: Result<seq<byte>, Error>)
      modifies this
      ensures Follows(this, old(offset), IdlCodec.Take(buf, old(offset), n), r)
      ensures r.Err? ==> offset == old(offset)
    {
      if offset + n > |buf| {
        return Err(Eof);
      }
      r := Ok(buf[offset..offset + n]);
      offset := offset + n;
    }

    predicate Done()
      reads this
    {
      offset >= |buf|
    }
  }

  /** The cursor did what the function of (buffer, offset) says. */
  ghost predicate Follows<T>(c: Cursor, before: nat, spec: Decoded<T>, r: Result<T, Error>)
    reads c
  {
    match spec
    case Ok(p) => r == Ok(p.0) && c.offset == p.1
    case Err(e) => r == Err(e)
  }

  method TakeSizedAt(c: Cursor) returns (r: Result<seq<byte>, Error>)
    modifies c
    ensures Follows(c, old(c.offset), TakeSized(c.buf, old(c.offset)), r)
  {
    var n := c.Take(4);
    if n.Err? {
      return Err(n.error);
    }
    var len := UintLELoop(n.value);
    r := c.Take(len);
  }

  method ReadValue(c: Cursor, ty: Ty, types: Types, fuel: nat) returns (r: Result<Val, Error>)
    modifies c
    ensures Follows(c, old(c.offset), DecodeValue(c.buf, old(c.offset), ty, types, fuel), r)
    decreases fuel, ty, 0
  {
    match ty
    case IntT(w, signed) =>
      var b := c.Take(w);
      if b.Err? {
        return Err(b.error);
      }
      var u := UintLELoop(b.value);
      r := Ok(VInt(if signed then IntLE(b.value) else u));
    case BoolT =>
      var b := c.Take(1);
      if b.Err? {
        return Err(b.error);
      }
      r := Ok(VBool(b.value[0] != 0));
    case PubkeyT =>
      var b := c.Take(32);
      if b.Err? {
        return Err(b.error);
      }
      r := Ok(VKey(b.value));
    case StringT =>
      var b := TakeSizedAt(c);
      if b.Err? {
        return Err(b.error);
      }
      r := Ok(VStr(Utf8.Decode(b.value)));
    case BytesT =>
      var b := TakeSizedAt(c);
      if b.Err? {
        return Err(b.error);
      }
      r := Ok(VBytes(b.value));
    case VecT(item) =>
      var n := c.Take(4);
      if n.Err? {
        return Err(n.error);
      }
      var len := UintLELoop(n.value);
      var items := ReadMany(c, item, len, types, fuel);
      if items.Err? {
        return Err(items.error);
      }
      r := Ok(VList(items.value));
    case OptionT(some) =>
      var tag := c.Take(1);
      if tag.Err? {
        return Err(tag.error);
      }
      if tag.value[0] == 0 {
        return Ok(VNull);
      }
      r := ReadValue(c, some, types, fuel);
    case ArrayT(elem, len) =>
      var items := ReadMany(c, elem, len, types, fuel);
      if items.Err? {
        return Err(items.error);
      }
      r := Ok(VList(items.value));
    case DefinedT(name) =>
      if name !in types {
        return Err(NotInSchema);
      }
      if fuel == 0 {
        return Err(Depth);
      }
      r := ReadDefined(c, types[name], types, fuel - 1);
    case UnknownT(_) =>
      r := Err(Unsupported);
  }

  method ReadMany(c: Cursor, item: Ty, n: nat, types: Types, fuel: nat) returns (r: Result<seq<Val>, Error>)
    modifies c
    ensures Follows(c, old(c.offset), DecodeMany(c.buf, old(c.offset), item, n, types, fuel), r)
    decreases fuel, item, 1
  {
    hide DecodeValue;
    var items: seq<Val> := [];
    ghost var whole := DecodeMany(c.buf, c.offset, item, n, types, fuel);
    BehindNothing(whole);
    for i := 0 to n
      invariant |items| == i
      invariant whole == Behind(items, DecodeMany(c.buf, c.offset, item, n - i, types, fuel))
    {
      ghost var before := c.offset;
      var v := ReadValue(c, item, types, fuel);
      if v.Err? {
        return Err(v.error);
      }
      BehindStep(items, v.value, DecodeMany(c.buf, c.offset, item, n - i - 1, types, fuel));
      items := items + [v.value];
    }
    assert items + [] == items;
    return Ok(items);
  }

  /** A decoded list with the items read so far in front. */
  function Behind(done: seq<Val>, rest: Decoded<seq<Val>>): Decoded<seq<Val>> {
    match rest
    case Ok(p) => Ok((done + p.0, p.1))
    case Err(e) => Err(e)
  }

  lemma BehindNothing(rest: Decoded<seq<Val>>)
    ensures Behind([], rest) == rest
  {
    if rest.Ok? {
      assert [] + rest.value.0 == rest.value.0;
    }
  }

  lemma BehindStep(done: seq<Val>, v: Val, rest: Decoded<seq<Val>>)
    ensures Behind(done, Behind([v], rest)) == Behind(done + [v], rest)
  {
    if rest.Ok? {
      assert done + ([v] + rest.value.0) == done + [v] + rest.value.0;
    }
  }

  method ReadPositional(c: Cursor, tys: seq<Ty>, types: Types, fuel: nat) returns (r: Result<seq<Val>, Error>)
    modifies c
    ensures Follows(c, old(c.offset), DecodePositional(c.buf, old(c.offset), tys, types, fuel), r)
    decreases fuel, tys, 1
  {
    hide DecodeValue;
    var items: seq<Val> := [];
    ghost var whole := DecodePositional(c.buf, c.offset, tys, types, fuel);
    assert tys[0..] == tys;
    BehindNothing(whole);
    for i := 0 to |tys|
      invariant |items| == i
      invariant whole == Behind(items, DecodePositional(c.buf, c.offset, tys[i..], types, fuel))
    {
      assert tys[i..][1..] == tys[i + 1..];
      var v := ReadValue(c, tys[i], types, fuel);
      if v.Err? {
        return Err(v.error);
      }
      BehindStep(items, v.value, DecodePositional(c.buf, c.offset, tys[i + 1..], types, fuel));
      items := items + [v.value];
    }
    assert items + [] == items;
    return Ok(items);
  }

  method ReadNamed(c: Cursor, fs: seq<Field>, types: Types, fuel: nat) returns (r: Result<map<string, Val>, Error>)
    modifies c
    ensures Follows(c, old(c.offset), DecodeNamed(c.buf, old(c.offset), fs, types, fuel, map[]), r)
    decreases fuel, fs, 1
  {
    hide DecodeValue, CamelCase;
    var out: map<string, Val> := map[];
    ghost var whole := DecodeNamed(c.buf, c.offset, fs, types, fuel, map[]);
    assert fs[0..] == fs;
    for i := 0 to |fs|
      invariant whole == DecodeNamed(c.buf, c.offset, fs[i..], types, fuel, out)
    {
      assert fs[i..][1..] == fs[i + 1..];
      var v := ReadValue(c, fs[i].ty, types, fuel);
      if v.Err? {
        return Err(v.error);
      }
      out := out[CamelCase(fs[i].name) := v.value];
    }
    return Ok(out);
  }

  method ReadFields(c: Cursor, fields: Fields, types: Types, fuel: nat) returns (r: Result<Val, Error>)
    modifies c
    ensures Follows(c, old(c.offset), DecodeFields(c.buf, old(c.offset), fields, types, fuel), r)
    decreases fuel, fields, 2
  {
    match fields
    case Absent => r := Ok(VObj(map[]));
    case Named(fs) =>
      var m := ReadNamed(c, fs, types, fuel);
      if m.Err? {
        return Err(m.error);
      }
      r := Ok(VObj(m.value));
    case Positional(tys) =>
      if tys == [] {
        return Ok(VObj(map[]));
      }
      var vs := ReadPositional(c, tys, types, fuel);
      if vs.Err? {
        return Err(vs.error);
      }
      r := Ok(VList(vs.value));
  }

  method ReadDefined(c: Cursor, def: TypeDef, types: Types, fuel: nat) returns (r: Result<Val, Error>)
    modifies c
    ensures Follows(c, old(c.offset), DecodeDefined(c.buf, old(c.offset), def, types, fuel), r)
    decreases fuel, def, 3
  {
    match def
    case Struct(fields) => r := ReadFields(c, fields, types, fuel);
    case Enum(variants) =>
      var tag := c.Take(1);
      if tag.Err? {
        return Err(tag.error);
      }
      var idx := tag.value[0];
      if idx >= |variants| {
        return Err(NoVariant);
      }
      if variants[idx].fields.Absent? {
        return Ok(VUnit(variants[idx].name));
      }
      var fields := variants[idx].fields;
      assert fields < def;
      var payload := ReadFields(c, fields, types, fuel);
      if payload.Err? {
        return Err(payload.error);
      }
      r := Ok(VCase(variants[idx].name, payload.value));
  }

  // ---- Events ----

  function FindEvent(events: seq<EventSchema>, disc: seq<byte>): Option<EventSchema> {
    if events == [] then None
    else if events[0].discriminator == disc then Some(events[0])
    else FindEvent(events[1..], disc)
  }

  /** Fields until the buffer is used up at a field start; the last component is where reading stopped. */
  function DecodeEventFields(buf: seq<byte>, off: nat, fs: seq<Field>, types: Types, fuel: nat, acc: map<string, Val>)
    : Result<(map<string, Val>, bool, nat), Error>
    decreases |fs|
  {
    if fs == [] then Ok((acc, true, off))
    else if off >= |buf| then Ok((acc, false, off))
    else
      var v :- DecodeValue(buf, off, fs[0].ty, types, fuel);
      DecodeEventFields(buf, v.1, fs[1..], types, fuel, acc[CamelCase(fs[0].name) := v.0])
  }

  /** None when the data is too short or carries no known discriminator. */
  function DecodeEvent(events: seq<EventSchema>, types: Types, data: seq<byte>, fuel: nat)
    : Result<Option<DecodedEvent>, Error>
  {
    if |data| < 8 then Ok(None)
    else
      match FindEvent(events, data[..8])
      case None => Ok(None)
      case Some(event) =>
        var r :- DecodeEventFields(data[8..], 0, event.fields, types, fuel, map[]);
        Ok(Some(DecodedEvent(event.name, r.0, r.1)))
  }

  method FindEventLoop(events: seq<EventSchema>, disc: seq<byte>) returns (r: Option<EventSchema>)
    ensures r == FindEvent(events, disc)
  {
    for i := 0 to |events|
      invariant FindEvent(events, disc) == FindEvent(events[i..], disc)
    {
      if events[i].discriminator == disc {
        return Some(events[i]);
      }
    }
    return None;
  }

  method DecodeIdlEvent(events: seq<EventSchema>, types: Types, data: seq<byte>, fuel: nat)
    returns (r: Result<Option<DecodedEvent>, Error>)
    ensures r == DecodeEvent(events, types, data, fuel)
  {
    hide DecodeValue, CamelCase;
    if |data| < 8 {
      return Ok(None);
    }
    var event := FindEventLoop(events, data[..8]);
    if event.None? {
      return Ok(None);
    }
    var fs := event.value.fields;
    var c := new Cursor(data[8..]);
    var fields: map<string, Val> := map[];
    ghost var whole := DecodeEventFields(c.buf, 0, fs, types, fuel, map[]);
    assert fs[0..] == fs;
    for i := 0 to |fs|
      invariant c.buf == data[8..]
      invariant whole == DecodeEventFields(c.buf, c.offset, fs[i..], types, fuel, fields)
    {
      assert fs[i..][1..] == fs[i + 1..];
      if c.Done() {
        return Ok(Some(DecodedEvent(event.value.name, fields, false)));
      }
      var v := ReadValue(c, fs[i].ty, types, fuel);
      if v.Err? {
        return Err(v.error);
      }
      fields := fields[CamelCase(fs[i].name) := v.value];
    }
    return Ok(Some(DecodedEvent(event.value.name, fields, true)));
  }

  // ---- Schema evolution ----

  /** Encoded length of the first field. */
  ghost function FieldLength(fs: seq<Field>, m: map<string, Val>, types: Types, fuel: nat): nat
    requires fs != [] && ConformsNamed(fs, m, types, fuel)
  {
    ValueBack([], 0, fs[0].ty, m[CamelCase(fs[0].name)], types, fuel);
    |EncodeValue(fs[0].ty, m[CamelCase(fs[0].name)], types, fuel).value|
  }

  lemma FirstFieldAt(buf: seq<byte>, off: nat, fs: seq<Field>, m: map<string, Val>, types: Types, fuel: nat)
    requires fs != [] && ConformsNamed(fs, m, types, fuel) && DistinctNames(fs)
    requires EncodeNamed(fs, m, types, fuel).Ok? && At(buf, off, EncodeNamed(fs, m, types, fuel).value)
    ensures var k := CamelCase(fs[0].name);
            var n := FieldLength(fs, m, types, fuel);
            && DecodeValue(buf, off, fs[0].ty, types, fuel) == Ok((m[k], off + n))
            && EncodeNamed(fs[1..], m, types, fuel).Ok?
            && |EncodeNamed(fs, m, types, fuel).value| == n + |EncodeNamed(fs[1..], m, types, fuel).value|
            && At(buf, off + n, EncodeNamed(fs[1..], m, types, fuel).value)
            && off + n <= |buf|
  {
    hide At, Conforms, EncodeValue, DecodeValue, CamelCase;
    var k := CamelCase(fs[0].name);
    ValueBack(buf, off, fs[0].ty, m[k], types, fuel);
    AtSplit(buf, off, EncodeValue(fs[0].ty, m[k], types, fuel).value, EncodeNamed(fs[1..], m, types, fuel).value);
    AtWithin(buf, off, EncodeValue(fs[0].ty, m[k], types, fuel).value);
  }

  /** `d` bytes from the start of the fields end exactly behind one of them (or before the first). */
  ghost predicate EndsAtField(fs: seq<Field>, m: map<string, Val>, types: Types, fuel: nat, d: int)
    requires ConformsNamed(fs, m, types, fuel)
    decreases |fs|
  {
    d == 0 || (fs != [] && EndsAtField(fs[1..], m, types, fuel, d - FieldLength(fs, m, types, fuel)))
  }

  lemma {:induction false} EndsAtFieldNonNegative(fs: seq<Field>, m: map<string, Val>, types: Types, fuel: nat, d: int)
    requires ConformsNamed(fs, m, types, fuel) && EndsAtField(fs, m, types, fuel, d)
    ensures d >= 0
    decreases |fs|
  {
    hide FieldLength, Conforms;
    if d != 0 {
      EndsAtFieldNonNegative(fs[1..], m, types, fuel, d - FieldLength(fs, m, types, fuel));
    }
  }

  /**
   * A complete payload cut anywhere: decoding succeeds exactly when the cut falls on a field boundary, and a cut
   * strictly inside a field always fails with `Eof` instead of passing for an older layout.
   */
  lemma {:induction false} CutPayload(buf: seq<byte>, off: nat, fs: seq<Field>, m: map<string, Val>, types: Types,
                                      fuel: nat, acc: map<string, Val>, cut: nat)
    requires ConformsNamed(fs, m, types, fuel) && DistinctNames(fs)
    requires EncodeNamed(fs, m, types, fuel).Ok? && At(buf, off, EncodeNamed(fs, m, types, fuel).value)
    requires off <= cut <= off + |EncodeNamed(fs, m, types, fuel).value| && cut <= |buf|
    ensures var r := DecodeEventFields(buf[..cut], off, fs, types, fuel, acc);
            && (r.Ok? <==> EndsAtField(fs, m, types, fuel, cut - off))
            && (r.Err? ==> r.error == Eof)
    decreases |fs|
  {
    hide At, Conforms, EncodeValue, DecodeValue, CamelCase, FieldLength, EncodeNamed, DistinctNames;
    if fs != [] && off < cut {
      var n := FieldLength(fs, m, types, fuel);
      FirstFieldAt(buf, off, fs, m, types, fuel);
      ValueCut(buf, off, fs[0].ty, types, fuel, cut);
      DistinctRest(fs);
      if off + n <= cut {
        CutPayload(buf, off + n, fs[1..], m, types, fuel, acc[CamelCase(fs[0].name) := m[CamelCase(fs[0].name)]], cut);
      } else if EndsAtField(fs, m, types, fuel, cut - off) {
        EndsAtFieldNonNegative(fs[1..], m, types, fuel, cut - off - n);
      }
    } else {
      EmptyFields(fs, m, types, fuel);
    }
  }

  lemma DistinctRest(fs: seq<Field>)
    requires fs != [] && DistinctNames(fs)
    ensures DistinctNames(fs[1..])
  {
  }

  lemma EmptyFields(fs: seq<Field>, m: map<string, Val>, types: Types, fuel: nat)
    ensures fs == [] ==> EncodeNamed(fs, m, types, fuel) == Ok([])
  {
  }

  lemma {:induction false} DistinctPrefix(fs: seq<Field>, k: nat)
    requires DistinctNames(fs) && k <= |fs|
    ensures DistinctNames(fs[..k]) && CamelNames(fs[..k]) <= CamelNames(fs)
    decreases k
  {
    hide CamelCase;
    if k > 0 {
      assert fs[..k][1..] == fs[1..][..k - 1];
      DistinctPrefix(fs[1..], k - 1);
    }
  }

  lemma {:induction false} ConformsPrefix(fs: seq<Field>, m: map<string, Val>, types: Types, fuel: nat, k: nat)
    requires ConformsNamed(fs, m, types, fuel) && DistinctNames(fs) && k <= |fs|
    ensures ConformsNamed(fs[..k], m, types, fuel) && DistinctNames(fs[..k])
    decreases k
  {
    hide Conforms, CamelCase;
    DistinctPrefix(fs, k);
    if k > 0 {
      assert fs[..k][1..] == fs[1..][..k - 1];
      ConformsPrefix(fs[1..], m, types, fuel, k - 1);
    }
  }

  /** How many fields stand before the trailing run of fields that encode to nothing. */
  function Kept(fs: seq<Field>, m: map<string, Val>, types: Types, fuel: nat): (k: nat)
    ensures k <= |fs|
  {
    if fs == [] || EncodeNamed(fs, m, types, fuel) == Ok([]) then 0 else 1 + Kept(fs[1..], m, types, fuel)
  }

  /** The last field of the list takes at least one byte. */
  predicate LastTakesBytes(fs: seq<Field>, m: map<string, Val>, types: Types, fuel: nat) {
    fs == [] || EncodeNamed([fs[|fs| - 1]], m, types, fuel) != Ok([])
  }

  lemma {:induction false} AllKeptIff(fs: seq<Field>, m: map<string, Val>, types: Types, fuel: nat)
    requires EncodeNamed(fs, m, types, fuel).Ok?
    ensures Kept(fs, m, types, fuel) == |fs| <==> LastTakesBytes(fs, m, types, fuel)
    decreases |fs|
  {
    hide EncodeValue, CamelCase;
    if |fs| == 1 {
      assert fs == [fs[0]];
    } else if |fs| > 1 {
      AllKeptIff(fs[1..], m, types, fuel);
    }
  }

  /** The first of `j` fields put in by hand, the rest by restriction. */
  lemma KeptStep(acc: map<string, Val>, m: map<string, Val>, fs: seq<Field>, j: nat)
    requires 1 <= j <= |fs| && CamelCase(fs[0].name) in m && DistinctNames(fs)
    ensures var k := CamelCase(fs[0].name);
            acc[k := m[k]] + Restrict(m, CamelNames(fs[1..][..j - 1])) == acc + Restrict(m, CamelNames(fs[..j]))
  {
    hide CamelCase, Restrict;
    assert fs[..j][1..] == fs[1..][..j - 1];
    DistinctPrefix(fs, j);
    RestrictStep(acc, m, fs[..j]);
  }

  /**
   * A payload that carries the first `k` of the fields decodes to exactly those, but for a trailing run of fields
   * without bytes, and `complete` says whether they were all of the schema's.
   */
  lemma {:induction false} PrefixPayload(buf: seq<byte>, off: nat, fs: seq<Field>, m: map<string, Val>, types: Types,
                                         fuel: nat, acc: map<string, Val>, k: nat)
    requires k <= |fs| && ConformsNamed(fs, m, types, fuel) && DistinctNames(fs)
    requires EncodeNamed(fs[..k], m, types, fuel).Ok?
    requires At(buf, off, EncodeNamed(fs[..k], m, types, fuel).value)
    requires |buf| == off + |EncodeNamed(fs[..k], m, types, fuel).value|
    ensures var j := Kept(fs[..k], m, types, fuel);
            DecodeEventFields(buf, off, fs, types, fuel, acc)
            == Ok((acc + Restrict(m, CamelNames(fs[..j])), j == |fs|, |buf|))
    decreases k
  {
    hide At, Conforms, EncodeValue, DecodeValue, CamelCase, Restrict, FieldLength, EncodeNamed, DistinctNames;
    EmptyFields(fs[..k], m, types, fuel);
    var taken := fs[..k];
    var j := Kept(taken, m, types, fuel);
    if j == 0 {
      assert EncodeNamed(taken, m, types, fuel) == Ok([]);
      assert fs[..j] == [] && CamelNames([]) == {};
      RestrictNothing(acc, m);
    } else {
      ConformsPrefix(fs, m, types, fuel, k);
      DistinctRest(fs);
      var key := CamelCase(fs[0].name);
      assert taken[0] == fs[0] && taken[1..] == fs[1..][..k - 1];
      FirstFieldAt(buf, off, taken, m, types, fuel);
      var n := FieldLength(taken, m, types, fuel);
      PrefixPayload(buf, off + n, fs[1..], m, types, fuel, acc[key := m[key]], k - 1);
      KeptStep(acc, m, fs, j);
    }
  }

  /** Decoding against a longer schema continues where the shorter one stopped, unless the payload was used up. */
  lemma {:induction false} AppendedFields(buf: seq<byte>, off: nat, fs: seq<Field>, more: seq<Field>, types: Types,
                                          fuel: nat, acc: map<string, Val>)
    ensures DecodeEventFields(buf, off, fs + more, types, fuel, acc) ==
            match DecodeEventFields(buf, off, fs, types, fuel, acc)
            case Err(e) => Err(e)
            case Ok(r) => if r.1 then DecodeEventFields(buf, r.2, more, types, fuel, r.0) else Ok(r)
    decreases |fs|
  {
    hide DecodeValue, CamelCase;
    if fs == [] {
      assert fs + more == more;
    } else {
      assert (fs + more)[1..] == fs[1..] + more;
      var v := DecodeValue(buf, off, fs[0].ty, types, fuel);
      if off < |buf| && v.Ok? {
        AppendedFields(buf, v.value.1, fs[1..], more, types, fuel, acc[CamelCase(fs[0].name) := v.value.0]);
      }
    }
  }

  /** Appending fields never changes what an older payload decodes to: same fields, now marked incomplete. */
  lemma OlderPayload(buf: seq<byte>, fs: seq<Field>, more: seq<Field>, types: Types, fuel: nat)
    requires var r := DecodeEventFields(buf, 0, fs, types, fuel, map[]); r.Ok? && r.value.2 >= |buf|
    ensures var r := DecodeEventFields(buf, 0, fs, types, fuel, map[]).value;
            DecodeEventFields(buf, 0, fs + more, types, fuel, map[]) == Ok((r.0, r.1 && more == [], r.2))
  {
    AppendedFields(buf, 0, fs, more, types, fuel, map[]);
  }

  // ---- Round trips from bytes to bytes ----

  /** Any conforming value, anywhere in a buffer, with any further fuel. */
  lemma ValueRoundTrip(pre: seq<byte>, ty: Ty, v: Val, types: Types, fuel: nat, more: nat, suffix: seq<byte>)
    requires Conforms(ty, v, types, fuel) && more >= fuel
    ensures EncodeValue(ty, v, types, fuel).Ok?
    ensures var enc := ToU8Array(EncodeValue(ty, v, types, fuel).value);
            DecodeValue(pre + enc + suffix, |pre|, ty, types, more) == Ok((v, |pre| + |enc|))
  {
    hide Conforms, EncodeValue, DecodeValue, At;
    ValueBack([], 0, ty, v, types, fuel);
    var ns := EncodeValue(ty, v, types, fuel).value;
    var buf := pre + ToU8Array(ns) + suffix;
    AllBytesUnchanged(ns);
    AtMiddle(pre, ns, suffix);
    ValueBack(buf, |pre|, ty, v, types, fuel);
    ValueFuel(buf, |pre|, ty, types, fuel, more);
  }

  lemma AtMiddle(pre: seq<byte>, ns: seq<nat>, suffix: seq<byte>)
    requires ToU8Array(ns) == ns
    ensures At(pre + ToU8Array(ns) + suffix, |pre|, ns)
  {
  }

  /**
   * Event round trip: discriminator and all fields encoded. Every field before a trailing run of empty ones comes
   * back, and the event comes back whole and `complete` exactly when its last field takes at least one byte.
   */
  lemma EventRoundTrip(events: seq<EventSchema>, event: EventSchema, m: map<string, Val>, types: Types, fuel: nat)
    requires |event.discriminator| == 8 && FindEvent(events, event.discriminator) == Some(event)
    requires ConformsNamed(event.fields, m, types, fuel) && DistinctNames(event.fields)
    requires m.Keys == CamelNames(event.fields)
    ensures EncodeIdlFields(event.fields, m, types, fuel).Ok?
    ensures var data := event.discriminator + EncodeIdlFields(event.fields, m, types, fuel).value;
            var back := DecodeEvent(events, types, data, fuel);
            var k := Kept(event.fields, m, types, fuel);
            var kept := Restrict(m, CamelNames(event.fields[..k]));
            && back == Ok(Some(DecodedEvent(event.name, kept, k == |event.fields|)))
            && (back == Ok(Some(DecodedEvent(event.name, m, true)))
                <==> LastTakesBytes(event.fields, m, types, fuel))
  {
    hide Conforms, At, CamelCase, DecodeEventFields, EncodeNamed, DecodeNamed, CamelNames, ConformsNamed, Kept,
         LastTakesBytes;
    var fs := event.fields;
    NamedBack([], 0, fs, m, types, fuel, map[]);
    var ns := EncodeNamed(fs, m, types, fuel).value;
    AllBytesUnchanged(ns);
    var body := ToU8Array(ns);
    AtMiddle([], ns, []);
    assert [] + body + [] == body;
    assert fs[..|fs|] == fs;
    PrefixPayload(body, 0, fs, m, types, fuel, map[], |fs|);
    AllKeptIff(fs, m, types, fuel);
    var k := Kept(fs, m, types, fuel);
    assert map[] + Restrict(m, CamelNames(fs[..k])) == Restrict(m, CamelNames(fs[..k]));
    assert Restrict(m, CamelNames(fs)) == m;
    var data := event.discriminator + body;
    assert data[..8] == event.discriminator && data[8..] == body;
  }

  /** Decoding then encoding need not give the bytes back: a nested option loses a tag, a bool its exact byte. */
  lemma DecodeEncodeDiffers()
    ensures DecodeValue([1, 0], 0, OptionT(OptionT(BoolT)), map[], 0) == Ok((VNull, 2))
    ensures EncodeValue(OptionT(OptionT(BoolT)), VNull, map[], 0) == Ok([0])
    ensures DecodeValue([2], 0, BoolT, map[], 0) == Ok((VBool(true), 1))
    ensures EncodeValue(BoolT, VBool(true), map[], 0) == Ok([1])
  {
  }
}
