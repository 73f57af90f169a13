/** The bytes the Borsh encoder writes, type by type, and the names of its fields (packages/pumpfun-events/src). */
module IdlLayout {
  import opened Wrappers
  import opened Bytes
  import opened IdlTypes
  import opened IdlCodec
  import opened IdlEvents
  import Division
  import Utf8

  // ---- Numbers, least significant byte first ----

  function Power(n: nat): (p: nat)
    ensures p >= 1
  {
    if n == 0 then 1 else Power(n - 1) * 256
  }

  lemma {:induction false} PowersAgree(n: nat)
    ensures Pow256(n) == Power(n)
  {
    if n > 0 {
      PowersAgree(n - 1);
    }
  }

  /** Byte `i` is the digit of 256 to the `i`. */
  lemma {:induction false} LittleEndianAt(v: nat, size: nat, i: nat)
    requires i < size
    ensures LittleEndian(v, size)[i] == v / Power(i) % 256
    decreases i
  {
    if i > 0 {
      LittleEndianAt(v / 256, size - 1, i - 1);
      TwiceDivided(v, 256, Power(i - 1));
    }
  }

  lemma TwiceDivided(v: nat, a: nat, b: nat)
    requires a >= 1 && b >= 1
    ensures v / a / b == v / (b * a)
  {
    var q, r := v / a, v % a;
    var p, s := q / b, q % b;
    Division.Recompose(v, a);
    Division.Recompose(q, b);
    assert v == (p * b + s) * a + r;
    assert (p * b + s) * a == p * (b * a) + s * a;
    assert s * a + r < b * a by {
      assert s + 1 <= b;
      Times(s + 1, b, a);
    }
    assert s * a >= 0;
    Division.DivModUnique(v, b * a, p, s * a + r);
  }

  lemma Times(x: nat, y: nat, a: nat)
    requires x <= y
    ensures x * a <= y * a
  {
  }

  /** An integer's bytes are those of its residue modulo 256 to its width. */
  lemma IntLayout(v: int, width: nat, i: nat)
    requires i < width
    ensures Le(v, width)[i] == v % Power(width) / Power(i) % 256
  {
    PowersAgree(width);
    LittleEndianAt(v % Pow256(width), width, i);
  }

  // ---- Values ----

  /** A four-byte count. */
  ghost predicate Counts(prefix: seq<nat>, n: nat) {
    && |prefix| == 4
    && forall i :: 0 <= i < 4 ==> prefix[i] == n / Power(i) % 256
  }

  lemma CountLayout(n: nat)
    requires n < Power(4)
    ensures Counts(Le(n, 4), n)
  {
    Division.DivModUnique(n, Power(4), 0, n);
    forall i: nat | i < 4
      ensures Le(n, 4)[i] == n / Power(i) % 256
    {
      IntLayout(n, 4, i);
    }
  }

  /** The encodings of a list, one behind the other. */
  ghost predicate Concatenates(whole: seq<nat>, parts: seq<seq<nat>>) {
    whole == Flatten(parts)
  }

  lemma {:induction false} ManyLayout(item: Ty, vs: seq<Val>, types: Types, fuel: nat) returns (parts: seq<seq<nat>>)
    requires EncodeMany(item, vs, types, fuel).Ok?
    ensures |parts| == |vs|
    ensures forall i :: 0 <= i < |vs| ==> EncodeValue(item, vs[i], types, fuel) == Ok(parts[i])
    ensures EncodeMany(item, vs, types, fuel).value == Flatten(parts)
    decreases |vs|
  {
    hide EncodeValue;
    if vs == [] {
      parts := [];
    } else {
      var first := EncodeValue(item, vs[0], types, fuel).value;
      var rest := ManyLayout(item, vs[1..], types, fuel);
      parts := [first] + rest;
      assert parts[1..] == rest;
      assert forall i :: 0 < i < |vs| ==> parts[i] == rest[i - 1] && vs[i] == vs[1..][i - 1];
    }
  }

  /** Fields follow each other in the order the schema lists them, each under its camelCased name. */
  lemma {:induction false} NamedLayout(fs: seq<Field>, m: map<string, Val>, types: Types, fuel: nat)
    returns (parts: seq<seq<nat>>)
    requires EncodeNamed(fs, m, types, fuel).Ok?
    ensures |parts| == |fs|
    ensures forall i :: 0 <= i < |fs| ==>
              CamelCase(fs[i].name) in m
              && EncodeValue(fs[i].ty, m[CamelCase(fs[i].name)], types, fuel) == Ok(parts[i])
    ensures EncodeNamed(fs, m, types, fuel).value == Flatten(parts)
    decreases |fs|
  {
    hide EncodeValue, CamelCase;
    if fs == [] {
      parts := [];
    } else {
      var first := EncodeValue(fs[0].ty, m[CamelCase(fs[0].name)], types, fuel).value;
      var rest := NamedLayout(fs[1..], m, types, fuel);
      parts := [first] + rest;
      assert parts[1..] == rest;
      assert forall i :: 0 < i < |fs| ==> parts[i] == rest[i - 1] && fs[i] == fs[1..][i - 1];
    }
  }

  lemma {:induction false} PositionalLayout(tys: seq<Ty>, vs: seq<Val>, types: Types, fuel: nat)
    returns (parts: seq<seq<nat>>)
    requires EncodePositional(tys, vs, types, fuel).Ok?
    ensures |parts| == |tys| <= |vs|
    ensures forall i :: 0 <= i < |tys| ==> EncodeValue(tys[i], vs[i], types, fuel) == Ok(parts[i])
    ensures EncodePositional(tys, vs, types, fuel).value == Flatten(parts)
    decreases |tys|
  {
    hide EncodeValue;
    if tys == [] {
      parts := [];
    } else {
      var first := EncodeValue(tys[0], vs[0], types, fuel).value;
      var rest := PositionalLayout(tys[1..], vs[1..], types, fuel);
      parts := [first] + rest;
      assert parts[1..] == rest;
      assert forall i :: 0 < i < |tys| ==>
          parts[i] == rest[i - 1] && tys[i] == tys[1..][i - 1] && vs[i] == vs[1..][i - 1];
    }
  }

  /**
   * The layout of every kind of value but the composite ones: a bool is one byte, a key its 32, a text or byte string
   * its four-byte length and contents, a list its count and items, an array its items alone, an option a 0, or a 1 and
   * the value.
   */
  lemma ValueLayout(ty: Ty, v: Val, types: Types, fuel: nat)
    requires Conforms(ty, v, types, fuel)
    ensures EncodeValue(ty, v, types, fuel).Ok? ==>
              var bs := EncodeValue(ty, v, types, fuel).value;
              match ty
              case IntT(w, _) => |bs| == w && forall i: nat :: i < w ==> bs[i] == v.n % Power(w) / Power(i) % 256
              case BoolT => bs == if v.b then [1] else [0]
              case PubkeyT => bs == v.key
              case StringT => |bs| >= 4 && Counts(bs[..4], |bs| - 4) && bs[4..] == Utf8.Encode(v.text)
              case BytesT => |bs| >= 4 && Counts(bs[..4], |bs| - 4) && bs[4..] == v.bytes
              case VecT(item) =>
                |bs| >= 4 && Counts(bs[..4], |v.items|) && Ok(bs[4..]) == EncodeMany(item, v.items, types, fuel)
              case OptionT(some) =>
                if v.VNull? then bs == [0]
                else bs != [] && bs[0] == 1 && Ok(bs[1..]) == EncodeValue(some, v, types, fuel)
              case ArrayT(elem, _) => Ok(bs) == EncodeMany(elem, v.items, types, fuel)
              case _ => true
  {
    hide Le, Utf8.Encode, EncodeMany, EncodeDefined, ConformsMany, ConformsDefined, Counts;
    PowersAgree(4);
    match ty {
      case IntT(w, _) =>
        forall i: nat | i < w
          ensures Le(v.n, w)[i] == v.n % Power(w) / Power(i) % 256
        {
          IntLayout(v.n, w, i);
        }
      case StringT => CountLayout(|Utf8.Encode(v.text)|);
      case BytesT => CountLayout(|v.bytes|);
      case VecT(item) => CountLayout(|v.items|);
      case _ =>
    }
  }

  /** A case of an enum is its index in one byte, then its fields; a struct is its fields. */
  lemma DefinedLayout(def: TypeDef, v: Val, types: Types, fuel: nat)
    requires EncodeDefined(def, v, types, fuel).Ok?
    ensures var bs := EncodeDefined(def, v, types, fuel).value;
            match def
            case Struct(fields) => Ok(bs) == EncodeFields(fields, v, types, fuel)
            case Enum(variants) =>
              && (v.VUnit? || v.VCase?) && bs != [] && bs[0] < |variants| && variants[bs[0]].name == v.variant
              && (forall i :: 0 <= i < bs[0] ==> variants[i].name != v.variant)
              && (v.VCase? && !variants[bs[0]].fields.Absent? ==>
                    Ok(bs[1..]) == EncodeFields(variants[bs[0]].fields, v.payload, types, fuel))
              && (v.VUnit? || variants[bs[0]].fields.Absent? ==> |bs| == 1)
  {
    hide EncodeFields;
    if def.Enum? {
      FirstOfName(def.variants, v.variant);
    }
  }

  /**
   * When a case can be written: a variant has its name, and the first of that name has no fields, or the case brings
   * fields that can be written. Without fields to write nothing is asked of the value.
   */
  lemma CaseOkIff(variants: seq<Variant>, v: Val, types: Types, fuel: nat)
    requires v.VUnit? || v.VCase?
    ensures EncodeDefined(Enum(variants), v, types, fuel).Ok?
            <==> exists i :: 0 <= i < |variants| && variants[i].name == v.variant
                             && (forall j :: 0 <= j < i ==> variants[j].name != v.variant)
                             && CaseFits(variants[i].fields, v, types, fuel)
    ensures forall fields, x :: NoFields(fields) ==> EncodeFields(fields, x, types, fuel) == Ok([])
  {
    hide EncodeFields;
    FirstOfName(variants, v.variant);
    NothingToWrite(types, fuel);
    var idx := VariantIndex(variants, v.variant);
    if idx < |variants| && CaseFits(variants[idx].fields, v, types, fuel) {
      assert variants[idx].name == v.variant;
    }
  }

  ghost predicate NoFields(fields: Fields) {
    fields == Absent || fields == Named([]) || fields == Positional([])
  }

  ghost predicate CaseFits(fields: Fields, v: Val, types: Types, fuel: nat) {
    NoFields(fields) || (v.VCase? && EncodeFields(fields, v.payload, types, fuel).Ok?)
  }

  lemma NothingToWrite(types: Types, fuel: nat)
    ensures forall fields, x :: NoFields(fields) ==> EncodeFields(fields, x, types, fuel) == Ok([])
  {
  }

  lemma {:induction false} FirstOfName(variants: seq<Variant>, name: string)
    ensures forall i :: 0 <= i < VariantIndex(variants, name) ==> variants[i].name != name
    decreases |variants|
  {
    if variants != [] && variants[0].name != name {
      FirstOfName(variants[1..], name);
      assert forall i :: 0 < i < |variants| ==> variants[i] == variants[1..][i - 1];
    }
  }

  // ---- Names ----

  predicate Alphanumeric(c: char) {
    'a' <= c <= 'z' || '0' <= c <= '9'
  }

  lemma CamelStep(s: string)
    requires s != ""
    ensures CamelCase(s)
            == if |s| >= 2 && s[0] == '_' && Alphanumeric(s[1])
               then [Capital(s[1])] + CamelCase(s[2..])
               else [s[0]] + CamelCase(s[1..])
  {
  }

  /** A character as it is written after an underscore. */
  function Capital(c: char): char {
    if 'a' <= c <= 'z' then (c as int - 32) as char else c
  }

  /** Wherever an underscore stands before a lower-case letter or digit, it goes and the letter is capitalised. */
  lemma {:induction false} CamelJoin(a: string, c: char, b: string)
    requires Alphanumeric(c)
    ensures CamelCase(a + "_" + [c] + b) == CamelCase(a) + [Capital(c)] + CamelCase(b)
    decreases |a|
  {
    hide CamelCase, Capital, Alphanumeric;
    var whole := a + "_" + [c] + b;
    if a == "" {
      CamelStep(whole);
      assert whole[0] == '_' && whole[1] == c && whole[2..] == b;
      NoName();
      assert CamelCase(a) + [Capital(c)] == [Capital(c)];
    } else {
      var n, head := CamelHead(a, "_" + [c] + b);
      assert whole == a + ("_" + [c] + b);
      CamelJoin(a[n..], c, b);
      assert whole[n..] == a[n..] + "_" + [c] + b;
      assert head + (CamelCase(a[n..]) + [Capital(c)] + CamelCase(b))
          == (head + CamelCase(a[n..])) + [Capital(c)] + CamelCase(b);
    }
  }

  /** What a name starts with is read alike when text starting with an underscore follows. */
  lemma CamelHead(a: string, more: string) returns (n: nat, head: string)
    requires a != "" && more != "" && more[0] == '_'
    ensures 1 <= n <= |a|
    ensures CamelCase(a) == head + CamelCase(a[n..])
    ensures CamelCase(a + more) == head + CamelCase((a + more)[n..])
  {
    hide CamelCase, Capital;
    CamelStep(a);
    CamelStep(a + more);
    assert (a + more)[0] == a[0] && (|a| >= 2 ==> (a + more)[1] == a[1]);
    n := if |a| >= 2 && a[0] == '_' && Alphanumeric(a[1]) then 2 else 1;
    head := if n == 2 then [Capital(a[1])] else [a[0]];
  }

  lemma NoName()
    ensures CamelCase("") == ""
  {
  }

  /** A name without such an underscore stays as it is. */
  lemma {:induction false} CamelPlain(s: string)
    requires forall i :: 0 <= i < |s| - 1 && s[i] == '_' ==> !Alphanumeric(s[i + 1])
    ensures CamelCase(s) == s
    decreases |s|
  {
    if s != "" {
      assert forall i :: 0 <= i < |s[1..]| ==> s[1..][i] == s[i + 1];
      CamelPlain(s[1..]);
      assert s == [s[0]] + s[1..];
    }
  }

  // ---- Which event ----

  /** The first event whose discriminator the data starts with. */
  lemma {:induction false} FindEventIs(events: seq<EventSchema>, disc: seq<byte>)
    ensures match FindEvent(events, disc)
            case None => forall i :: 0 <= i < |events| ==> events[i].discriminator != disc
            case Some(e) =>
              exists k :: 0 <= k < |events| && events[k] == e && e.discriminator == disc
                          && forall i :: 0 <= i < k ==> events[i].discriminator != disc
    decreases |events|
  {
    if events != [] && events[0].discriminator != disc {
      var rest := events[1..];
      FindEventIs(rest, disc);
      assert forall i :: 0 < i < |events| ==> events[i] == rest[i - 1];
      if FindEvent(rest, disc).Some? {
        var k :| 0 <= k < |rest| && rest[k] == FindEvent(rest, disc).value
                 && forall i :: 0 <= i < k ==> rest[i].discriminator != disc;
        assert events[k + 1] == rest[k];
      }
    }
  }

  /** No event comes out exactly when the data is shorter than a discriminator or starts with none of the schema's. */
  lemma NoEventIff(events: seq<EventSchema>, types: Types, data: seq<byte>, fuel: nat)
    ensures DecodeEvent(events, types, data, fuel) == Ok(None)
            <==> |data| < 8 || forall i :: 0 <= i < |events| ==> events[i].discriminator != data[..8]
  {
    if |data| >= 8 {
      FindEventIs(events, data[..8]);
    }
  }
}
