/** The reader of wire transactions (packages/solana-tx/src/transaction-codec.ts), legacy and v0. */
module TxReader {
  import opened Wrappers
  import opened Bytes
  import opened TxTypes
  import CompactU16
  import Base58

  const V1_MARKER: byte := 0x81
  const SIGNATURE_LENGTH := 64

  /** Every malformed input throws the same error; v1 messages go to a reader that is not part of this model. */
  datatype ReadError = Malformed | V1Format

  /** Where lookup-table accounts come from: table contents, or the addresses already resolved. */
  datatype Source = FromTables(tables: map<Key, seq<Key>>) | Preloaded(writable: seq<Key>, readonly: seq<Key>)

  datatype Raw = Raw(program: nat, accounts: seq<byte>, data: seq<byte>)
  datatype LookedUp = LookedUp(writable: seq<Key>, readonly: seq<Key>, nWritable: nat, nReadonly: nat)
  datatype Header = Header(required: nat, readonlySigned: nat, readonlyUnsigned: nat)
  datatype Head = Head(versioned: bool, header: Header, keys: seq<Key>, recentBlockhash: string, off: nat)
  datatype Decompiled = Decompiled(
    instructions: seq<Instruction>, accountKeys: seq<Key>, signers: seq<Key>, recentBlockhash: string)
  datatype DecodedTx = DecodedTx(signatures: seq<seq<byte>>, messageBytes: seq<byte>)

  // ---- Specification: a parser written as functions of (bytes, offset) ----

  function ReadCompact(bytes: seq<byte>, off: nat): (r: Result<CompactU16.Decoded, ReadError>)
    ensures r.Ok? ==> r.value.length >= 1 && off + r.value.length <= |bytes|
  {
    match CompactU16.Read(bytes, off)
    case Ok(d) => CompactU16.ReadRange(bytes, off, CompactU16.MAX_BYTES); Ok(d)
    case Err(_) => Err(Malformed)
  }

  /** compactArray<u8> at `off`: its bytes and the offset after it. */
  function ReadArray(bytes: seq<byte>, off: nat): (r: Result<(seq<byte>, nat), ReadError>)
    ensures r.Ok? ==> off < r.value.1 <= |bytes|
  {
    var n :- ReadCompact(bytes, off);
    var at := off + n.length;
    if at + n.value > |bytes| then Err(Malformed) else Ok((bytes[at..at + n.value], at + n.value))
  }

  function ReadKeys(bytes: seq<byte>, off: nat, n: nat): (ks: seq<Key>)
    requires off + 32 * n <= |bytes|
    ensures |ks| == n
    decreases n
  {
    if n == 0 then [] else [bytes[off..off + 32]] + ReadKeys(bytes, off + 32, n - 1)
  }

  function ReadRaw(bytes: seq<byte>, off: nat, nKeys: nat): (r: Result<(Raw, nat), ReadError>)
    ensures r.Ok? ==> off < r.value.1 <= |bytes| && r.value.0.program < nKeys
  {
    if off >= |bytes| || bytes[off] >= nKeys then Err(Malformed)
    else
      var accounts :- ReadArray(bytes, off + 1);
      var data :- ReadArray(bytes, accounts.1);
      Ok((Raw(bytes[off], accounts.0, data.0), data.1))
  }

  function ReadRaws(bytes: seq<byte>, off: nat, nKeys: nat, n: nat): (r: Result<(seq<Raw>, nat), ReadError>)
    requires off <= |bytes|
    ensures r.Ok? ==> r.value.1 <= |bytes| && forall i :: 0 <= i < |r.value.0| ==> r.value.0[i].program < nKeys
    decreases n
  {
    if n == 0 then Ok(([], off))
    else
      var first :- ReadRaw(bytes, off, nKeys);
      var rest :- ReadRaws(bytes, first.1, nKeys, n - 1);
      Ok(([first.0] + rest.0, rest.1))
  }

  predicate AllBelow(idx: seq<byte>, n: nat) {
    forall i :: 0 <= i < |idx| ==> idx[i] < n
  }

  function Pick(addresses: seq<Key>, idx: seq<byte>): (ks: seq<Key>)
    requires AllBelow(idx, |addresses|)
    ensures |ks| == |idx|
    ensures forall i :: 0 <= i < |idx| ==> ks[i] == addresses[idx[i]]
  {
    seq(|idx|, i requires 0 <= i < |idx| => addresses[idx[i]])
  }

  /** One index list of a lookup: resolved against the table, or only counted when preloaded. */
  function ReadIndexList(bytes: seq<byte>, off: nat, addresses: Option<seq<Key>>)
    : (r: Result<(seq<Key>, nat, nat), ReadError>)
    ensures r.Ok? ==> off < r.value.2 <= |bytes|
  {
    var idx :- ReadArray(bytes, off);
    if addresses.None? then Ok(([], |idx.0|, idx.1))
    else if AllBelow(idx.0, |addresses.value|) then Ok((Pick(addresses.value, idx.0), |idx.0|, idx.1))
    else Err(Malformed)
  }

  function TableOf(src: Source, key: Key): Result<Option<seq<Key>>, ReadError> {
    match src
    case Preloaded(_, _) => Ok(None)
    case FromTables(tables) => if key in tables then Ok(Some(tables[key])) else Err(Malformed)
  }

  function ReadLookup(bytes: seq<byte>, off: nat, src: Source): (r: Result<(LookedUp, nat), ReadError>)
    ensures r.Ok? ==> off < r.value.1 <= |bytes|
  {
    if off + 32 > |bytes| then Err(Malformed)
    else
      var addresses :- TableOf(src, bytes[off..off + 32]);
      var w :- ReadIndexList(bytes, off + 32, addresses);
      var r :- ReadIndexList(bytes, w.2, addresses);
      Ok((LookedUp(w.0, r.0, w.1, r.1), r.2))
  }

  function Join(a: LookedUp, b: LookedUp): LookedUp {
    LookedUp(a.writable + b.writable, a.readonly + b.readonly, a.nWritable + b.nWritable, a.nReadonly + b.nReadonly)
  }

  const NO_LOOKUPS := LookedUp([], [], 0, 0)

  function ReadLookups(bytes: seq<byte>, off: nat, src: Source, n: nat): (r: Result<(LookedUp, nat), ReadError>)
    decreases n
  {
    if n == 0 then Ok((NO_LOOKUPS, off))
    else
      var first :- ReadLookup(bytes, off, src);
      var rest :- ReadLookups(bytes, first.1, src, n - 1);
      Ok((Join(first.0, rest.0), rest.1))
  }

  function ReadLookupSection(bytes: seq<byte>, off: nat, versioned: bool, src: Source)
    : Result<(LookedUp, nat), ReadError>
  {
    if !versioned then Ok((NO_LOOKUPS, off))
    else
      var n :- ReadCompact(bytes, off);
      ReadLookups(bytes, off + n.length, src, n.value)
  }

  /** Preloaded addresses replace the (empty) looked-up lists once their counts agree. */
  function Loaded(src: Source, l: LookedUp): Result<(seq<Key>, seq<Key>), ReadError> {
    match src
    case FromTables(_) => Ok((l.writable, l.readonly))
    case Preloaded(w, r) =>
      if |w| == l.nWritable && |r| == l.nReadonly then Ok((w, r)) else Err(Malformed)
  }

  predicate IsSigner(h: Header, i: nat) {
    i < h.required
  }

  predicate IsWritable(h: Header, nStatic: nat, nWritable: nat, i: nat) {
    if i < h.required then i < h.required - h.readonlySigned
    else if i < nStatic then i < nStatic - h.readonlyUnsigned
    else i < nStatic + nWritable
  }

  function MetaAt(h: Header, nStatic: nat, nWritable: nat, resolved: seq<Key>, i: nat): AccountMeta
    requires i < |resolved|
  {
    AccountMeta(resolved[i], IsSigner(h, i), IsWritable(h, nStatic, nWritable, i))
  }

  function ResolveRaw(h: Header, statics: seq<Key>, nWritable: nat, resolved: seq<Key>, raw: Raw): (ix: Instruction)
    requires raw.program < |statics| && AllBelow(raw.accounts, |resolved|)
  {
    Instruction(statics[raw.program],
                seq(|raw.accounts|, j requires 0 <= j < |raw.accounts| =>
                  MetaAt(h, |statics|, nWritable, resolved, raw.accounts[j])),
                raw.data)
  }

  predicate Resolvable(raws: seq<Raw>, n: nat) {
    forall i :: 0 <= i < |raws| ==> AllBelow(raws[i].accounts, n)
  }

  function ResolveAll(h: Header, statics: seq<Key>, nWritable: nat, resolved: seq<Key>, raws: seq<Raw>)
    : (ixs: seq<Instruction>)
    requires forall i :: 0 <= i < |raws| ==> raws[i].program < |statics|
    requires Resolvable(raws, |resolved|)
    ensures |ixs| == |raws|
    ensures forall i :: 0 <= i < |raws| ==> ixs[i] == ResolveRaw(h, statics, nWritable, resolved, raws[i])
  {
    seq(|raws|, i requires 0 <= i < |raws| => ResolveRaw(h, statics, nWritable, resolved, raws[i]))
  }

  function ResolveRaws(h: Header, statics: seq<Key>, w: seq<Key>, r: seq<Key>, raws: seq<Raw>)
    : (ixs: Result<seq<Instruction>, ReadError>)
    requires forall i :: 0 <= i < |raws| ==> raws[i].program < |statics|
  {
    var resolved := statics + w + r;
    if Resolvable(raws, |resolved|) then Ok(ResolveAll(h, statics, |w|, resolved, raws)) else Err(Malformed)
  }

  function MessageStart(bytes: seq<byte>): (r: Result<(bool, nat), ReadError>)
    ensures r.Ok? ==> r.value.1 + 3 <= |bytes|
  {
    if |bytes| > 0 && bytes[0] == V1_MARKER then Err(V1Format)
    else
      var versioned := |bytes| > 0 && bytes[0] >= 0x80;
      if versioned && bytes[0] != 0x80 then Err(Malformed)
      else
        var off := if versioned then 1 else 0;
        if off + 3 > |bytes| then Err(Malformed) else Ok((versioned, off))
  }

  /** Everything up to and including the blockhash, and the offset after it. */
  function ReadHead(bytes: seq<byte>): (r: Result<Head, ReadError>)
    ensures r.Ok? ==> r.value.off <= |bytes| && r.value.header.required <= |r.value.keys|
  {
    var start :- MessageStart(bytes);
    var off := start.1;
    var h := Header(bytes[off], bytes[off + 1], bytes[off + 2]);
    var nKeys :- ReadCompact(bytes, off + 3);
    var keysAt := off + 3 + nKeys.length;
    var hashAt := keysAt + nKeys.value * 32;
    if h.required > nKeys.value || hashAt > |bytes| then Err(Malformed)
    else if hashAt + 32 > |bytes| then Err(Malformed)
    else
      Ok(Head(start.0, h, ReadKeys(bytes, keysAt, nKeys.value),
              Base58.EncodeSpec(bytes[hashAt..hashAt + 32]), hashAt + 32))
  }

  /** Instructions, lookups, and the resolution of account indexes. */
  function ReadBody(bytes: seq<byte>, head: Head, src: Source): Result<Decompiled, ReadError>
    requires head.off <= |bytes| && head.header.required <= |head.keys|
  {
    var nIx :- ReadCompact(bytes, head.off);
    var raws :- ReadRaws(bytes, head.off + nIx.length, |head.keys|, nIx.value);
    var looked :- ReadLookupSection(bytes, raws.1, head.versioned, src);
    var loaded :- Loaded(src, looked.0);
    if looked.1 != |bytes| then Err(Malformed)
    else
      var ixs :- ResolveRaws(head.header, head.keys, loaded.0, loaded.1, raws.0);
      Ok(Decompiled(ixs, head.keys, head.keys[..head.header.required], head.recentBlockhash))
  }

  function Decompile(bytes: seq<byte>, src: Source): Result<Decompiled, ReadError> {
    var head :- ReadHead(bytes);
    ReadBody(bytes, head, src)
  }

  // ---- The source's cursor loops ----

  method ReadKeysLoop(bytes: seq<byte>, off: nat, n: nat) returns (ks: seq<Key>)
    requires off + 32 * n <= |bytes|
    ensures ks == ReadKeys(bytes, off, n)
  {
    ks := [];
    for i := 0 to n
      invariant ReadKeys(bytes, off, n) == ks + ReadKeys(bytes, off + i * 32, n - i)
    {
      var at := off + i * 32;
      ghost var rest := ReadKeys(bytes, at + 32, n - i - 1);
      assert ks + ([bytes[at..at + 32]] + rest) == ks + [bytes[at..at + 32]] + rest;
      ks := ks + [bytes[at..at + 32]];
    }
  }

  method ReadRawsLoop(bytes: seq<byte>, start: nat, nKeys: nat, n: nat) returns (r: Result<(seq<Raw>, nat), ReadError>)
    requires start <= |bytes|
    ensures r == ReadRaws(bytes, start, nKeys, n)
  {
    var off: nat := start;
    var raw: seq<Raw> := [];
    assert forall rest: seq<Raw> :: [] + rest == rest;
    for i := 0 to n
      invariant off <= |bytes|
      invariant ReadRaws(bytes, start, nKeys, n) ==
                match ReadRaws(bytes, off, nKeys, n - i)
                case Ok(rest) => Ok((raw + rest.0, rest.1))
                case Err(e) => Err(e)
    {
      if off >= |bytes| || bytes[off] >= nKeys {
        return Err(Malformed);
      }
      var program := bytes[off];
      var accounts := ReadArray(bytes, off + 1);
      if accounts.Err? {
        return Err(accounts.error);
      }
      var data := ReadArray(bytes, accounts.value.1);
      if data.Err? {
        return Err(data.error);
      }
      ghost var here := off;
      var one := Raw(program, accounts.value.0, data.value.0);
      assert ReadRaw(bytes, here, nKeys) == Ok((one, data.value.1));
      ghost var rest := ReadRaws(bytes, data.value.1, nKeys, n - i - 1);
      if rest.Ok? {
        assert raw + ([one] + rest.value.0) == raw + [one] + rest.value.0;
      }
      raw := raw + [one];
      off := data.value.1;
    }
    assert raw + [] == raw;
    return Ok((raw, off));
  }

  method ReadLookupStep(bytes: seq<byte>, off: nat, src: Source) returns (r: Result<(LookedUp, nat), ReadError>)
    ensures r == ReadLookup(bytes, off, src)
  {
    hide ReadIndexList;
    if off + 32 > |bytes| {
      return Err(Malformed);
    }
    var addresses := TableOf(src, bytes[off..off + 32]);
    if addresses.Err? {
      return Err(addresses.error);
    }
    var w := ReadIndexList(bytes, off + 32, addresses.value);
    if w.Err? {
      return Err(w.error);
    }
    var ro := ReadIndexList(bytes, w.value.2, addresses.value);
    if ro.Err? {
      return Err(ro.error);
    }
    return Ok((LookedUp(w.value.0, ro.value.0, w.value.1, ro.value.1), ro.value.2));
  }

  method ReadLookupsLoop(bytes: seq<byte>, start: nat, src: Source, n: nat)
    returns (r: Result<(LookedUp, nat), ReadError>)
    ensures r == ReadLookups(bytes, start, src, n)
  {
    hide ReadLookup;
    var off: nat := start;
    var found := NO_LOOKUPS;
    assert forall rest :: Join(NO_LOOKUPS, rest) == rest;
    for t := 0 to n
      invariant ReadLookups(bytes, start, src, n) ==
                match ReadLookups(bytes, off, src, n - t)
                case Ok(rest) => Ok((Join(found, rest.0), rest.1))
                case Err(e) => Err(e)
    {
      var one := ReadLookupStep(bytes, off, src);
      if one.Err? {
        return one;
      }
      ghost var rest := ReadLookups(bytes, one.value.1, src, n - t - 1);
      if rest.Ok? {
        JoinAssociates(found, one.value.0, rest.value.0);
      }
      found := Join(found, one.value.0);
      off := one.value.1;
    }
    assert Join(found, NO_LOOKUPS) == found;
    return Ok((found, off));
  }

  lemma JoinAssociates(a: LookedUp, b: LookedUp, c: LookedUp)
    ensures Join(Join(a, b), c) == Join(a, Join(b, c))
  {
    assert a.writable + b.writable + c.writable == a.writable + (b.writable + c.writable);
    assert a.readonly + b.readonly + c.readonly == a.readonly + (b.readonly + c.readonly);
  }

  method ResolveLoop(h: Header, statics: seq<Key>, w: seq<Key>, r: seq<Key>, raws: seq<Raw>)
    returns (ixs: Result<seq<Instruction>, ReadError>)
    requires forall i :: 0 <= i < |raws| ==> raws[i].program < |statics|
    ensures ixs == ResolveRaws(h, statics, w, r, raws)
  {
    var resolved := statics + w + r;
    var out: seq<Instruction> := [];
    for n := 0 to |raws|
      invariant |out| == n
      invariant forall i :: 0 <= i < n ==>
                  && AllBelow(raws[i].accounts, |resolved|)
                  && out[i] == ResolveRaw(h, statics, |w|, resolved, raws[i])
    {
      var keys: seq<AccountMeta> := [];
      for j := 0 to |raws[n].accounts|
        invariant |keys| == j
        invariant forall m :: 0 <= m < j ==>
                    && raws[n].accounts[m] < |resolved|
                    && keys[m] == MetaAt(h, |statics|, |w|, resolved, raws[n].accounts[m])
      {
        var i := raws[n].accounts[j];
        if i >= |resolved| {
          return Err(Malformed);
        }
        keys := keys + [MetaAt(h, |statics|, |w|, resolved, i)];
      }
      out := out + [Instruction(statics[raws[n].program], keys, raws[n].data)];
      assert out[n] == ResolveRaw(h, statics, |w|, resolved, raws[n]);
    }
    assert out == ResolveAll(h, statics, |w|, resolved, raws);
    return Ok(out);
  }

  method ReadHeadStep(bytes: seq<byte>) returns (r: Result<Head, ReadError>)
    ensures r == ReadHead(bytes)
  {
    hide ReadKeys, ReadCompact, MessageStart, Base58.EncodeSpec;
    var start := MessageStart(bytes);
    if start.Err? {
      return Err(start.error);
    }
    var off := start.value.1;
    var h := Header(bytes[off], bytes[off + 1], bytes[off + 2]);
    off := off + 3;
    var nKeys := ReadCompact(bytes, off);
    if nKeys.Err? {
      return Err(nKeys.error);
    }
    off := off + nKeys.value.length;
    if h.required > nKeys.value.value || off + nKeys.value.value * 32 > |bytes| {
      return Err(Malformed);
    }
    var accountKeys := ReadKeysLoop(bytes, off, nKeys.value.value);
    off := off + nKeys.value.value * 32;
    if off + 32 > |bytes| {
      return Err(Malformed);
    }
    var recentBlockhash := Base58.Encode(bytes[off..off + 32]);
    return Ok(Head(start.value.0, h, accountKeys, recentBlockhash, off + 32));
  }

  method ReadLookupSectionStep(bytes: seq<byte>, off: nat, versioned: bool, src: Source)
    returns (r: Result<(LookedUp, nat), ReadError>)
    ensures r == ReadLookupSection(bytes, off, versioned, src)
  {
    hide ReadLookups, CompactU16.Read;
    if !versioned {
      return Ok((NO_LOOKUPS, off));
    }
    var nLookups := ReadCompact(bytes, off);
    if nLookups.Err? {
      return Err(nLookups.error);
    }
    r := ReadLookupsLoop(bytes, off + nLookups.value.length, src, nLookups.value.value);
  }

  method ReadBodyStep(bytes: seq<byte>, head: Head, src: Source) returns (r: Result<Decompiled, ReadError>)
    requires head.off <= |bytes| && head.header.required <= |head.keys|
    ensures r == ReadBody(bytes, head, src)
  {
    hide ReadRaws, ReadLookupSection, Loaded, ResolveRaws, ReadCompact;
    var off := head.off;
    var nIx := ReadCompact(bytes, off);
    if nIx.Err? {
      return Err(nIx.error);
    }
    var raw := ReadRawsLoop(bytes, off + nIx.value.length, |head.keys|, nIx.value.value);
    if raw.Err? {
      return Err(raw.error);
    }
    var looked := ReadLookupSectionStep(bytes, raw.value.1, head.versioned, src);
    if looked.Err? {
      return Err(looked.error);
    }
    off := looked.value.1;
    var loaded := Loaded(src, looked.value.0);
    if loaded.Err? {
      return Err(loaded.error);
    }
    if off != |bytes| {
      return Err(Malformed);
    }
    var ixs := ResolveLoop(head.header, head.keys, loaded.value.0, loaded.value.1, raw.value.0);
    if ixs.Err? {
      return Err(ixs.error);
    }
    return Ok(Decompiled(ixs.value, head.keys, head.keys[..head.header.required], head.recentBlockhash));
  }

  /** decompileMessage: one moving cursor over header, keys, blockhash, instructions and lookups. */
  method DecompileMessage(bytes: seq<byte>, src: Source) returns (r: Result<Decompiled, ReadError>)
    ensures r == Decompile(bytes, src)
  {
    var head := ReadHeadStep(bytes);
    if head.Err? {
      return Err(head.error);
    }
    r := ReadBodyStep(bytes, head.value, src);
  }

  // ---- Signatures and signers ----

  function Chunks(bytes: seq<byte>, off: nat, n: nat): (s: seq<seq<byte>>)
    requires off + SIGNATURE_LENGTH * n <= |bytes|
    decreases n
  {
    if n == 0 then []
    else [bytes[off..off + SIGNATURE_LENGTH]] + Chunks(bytes, off + SIGNATURE_LENGTH, n - 1)
  }

  function DecodeTx(bytes: seq<byte>): Result<DecodedTx, ReadError> {
    if |bytes| > 0 && bytes[0] == V1_MARKER then Err(V1Format)
    else
      var count :- ReadCompact(bytes, 0);
      var sigEnd := count.length + count.value * SIGNATURE_LENGTH;
      if sigEnd >= |bytes| then Err(Malformed)
      else Ok(DecodedTx(Chunks(bytes, count.length, count.value), bytes[sigEnd..]))
  }

  method DecodeTransaction(bytes: seq<byte>) returns (r: Result<DecodedTx, ReadError>)
    ensures r == DecodeTx(bytes)
  {
    if |bytes| > 0 && bytes[0] == V1_MARKER {
      return Err(V1Format);
    }
    var count := ReadCompact(bytes, 0);
    if count.Err? {
      return Err(count.error);
    }
    var size, n := count.value.length, count.value.value;
    var sigEnd := size + n * SIGNATURE_LENGTH;
    if sigEnd >= |bytes| {
      return Err(Malformed);
    }
    var signatures: seq<seq<byte>> := [];
    for i := 0 to n
      invariant Chunks(bytes, size, n) == signatures + Chunks(bytes, size + i * SIGNATURE_LENGTH, n - i)
    {
      var at := size + i * SIGNATURE_LENGTH;
      ghost var rest := Chunks(bytes, at + SIGNATURE_LENGTH, n - i - 1);
      assert signatures + ([bytes[at..at + SIGNATURE_LENGTH]] + rest)
          == signatures + [bytes[at..at + SIGNATURE_LENGTH]] + rest;
      signatures := signatures + [bytes[at..at + SIGNATURE_LENGTH]];
    }
    assert signatures + [] == signatures;
    return Ok(DecodedTx(signatures, bytes[sigEnd..]));
  }

  function Signers(bytes: seq<byte>): Result<seq<Key>, ReadError> {
    if |bytes| > 0 && bytes[0] == V1_MARKER then Err(V1Format)
    else
      var off := if |bytes| > 0 && bytes[0] >= 0x80 then 1 else 0;
      if off == 1 && bytes[0] != 0x80 then Err(Malformed)
      else if off >= |bytes| then Err(Malformed)
      else
        var n :- ReadCompact(bytes, off + 3);
        var at := off + 3 + n.length;
        if bytes[off] > n.value || at + n.value * 32 > |bytes| then Err(Malformed)
        else Ok(ReadKeys(bytes, at, bytes[off]))
  }

  method MessageSigners(bytes: seq<byte>) returns (r: Result<seq<Key>, ReadError>)
    ensures r == Signers(bytes)
  {
    if |bytes| > 0 && bytes[0] == V1_MARKER {
      return Err(V1Format);
    }
    var off := if |bytes| > 0 && bytes[0] >= 0x80 then 1 else 0;
    if off == 1 && bytes[0] != 0x80 {
      return Err(Malformed);
    }
    if off >= |bytes| {
      return Err(Malformed);
    }
    var required := bytes[off];
    off := off + 3;
    var keys := ReadCompact(bytes, off);
    if keys.Err? {
      return Err(keys.error);
    }
    off := off + keys.value.length;
    if required > keys.value.value || off + keys.value.value * 32 > |bytes| {
      return Err(Malformed);
    }
    var signers := ReadKeysLoop(bytes, off, required);
    return Ok(signers);
  }
}
