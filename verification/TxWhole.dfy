/** Reading any message, legacy or v0, whoever wrote it (packages/solana-tx/src/transaction-codec.ts). */
module TxWhole {
  import opened Wrappers
  import opened Bytes
  import opened Slices
  import opened TxTypes
  import opened TxMessage
  import opened TxReader
  import opened TxRoundTrip
  import CompactU16
  import Base58

  /** One lookup table of a v0 message, with the indexes it loads. */
  datatype Entry = Entry(table: Key, writable: seq<byte>, readonly: seq<byte>)

  datatype Message = Message(versioned: bool, header: Header, keys: seq<Key>, hash: seq<byte>, raws: seq<Raw>,
                             lookups: seq<Entry>)

  // ---- The layout ----

  function RawNumbers(r: Raw): seq<nat> {
    [r.program] + CompactArray(r.accounts) + CompactArray(r.data)
  }

  function RawsNumbers(rs: seq<Raw>): seq<nat> {
    if rs == [] then [] else RawNumbers(rs[0]) + RawsNumbers(rs[1..])
  }

  function EntryNumbers(e: Entry): seq<nat> {
    e.table + CompactArray(e.writable) + CompactArray(e.readonly)
  }

  function EntriesNumbers(es: seq<Entry>): seq<nat> {
    if es == [] then [] else EntryNumbers(es[0]) + EntriesNumbers(es[1..])
  }

  /** The version byte, in v0 only. */
  function Prefix(m: Message): seq<nat> {
    if m.versioned then [0x80] else []
  }

  function HeaderPart(m: Message): seq<nat> {
    [m.header.required, m.header.readonlySigned, m.header.readonlyUnsigned]
  }

  function KeysPart(m: Message): seq<nat> {
    CompactU16.Groups(|m.keys|) + KeyBytes(m.keys)
  }

  function RawsPart(m: Message): seq<nat> {
    CompactU16.Groups(|m.raws|) + RawsNumbers(m.raws)
  }

  /** The lookup section, in v0 only. */
  function LookupsPart(m: Message): seq<nat> {
    if m.versioned then CompactU16.Groups(|m.lookups|) + EntriesNumbers(m.lookups) else []
  }

  function Layout(m: Message): seq<nat> {
    Prefix(m) + HeaderPart(m) + KeysPart(m) + m.hash + RawsPart(m) + LookupsPart(m)
  }

  /** What a message can hold: a legacy one starts with its signer count, so that stays below 128. */
  ghost predicate Encodable(m: Message) {
    && m.header.required < 256 && m.header.readonlySigned < 256 && m.header.readonlyUnsigned < 256
    && (!m.versioned ==> m.header.required < 128 && m.lookups == [])
    && |m.keys| <= CompactU16.MAX_VALUE && |m.hash| == 32 && |m.raws| <= CompactU16.MAX_VALUE
    && (forall i :: 0 <= i < |m.raws| ==> RawEncodable(m.raws[i]))
    && |m.lookups| <= CompactU16.MAX_VALUE
    && (forall i :: 0 <= i < |m.lookups| ==> EntryEncodable(m.lookups[i]))
  }

  ghost predicate RawEncodable(r: Raw) {
    r.program < 256 && |r.accounts| <= CompactU16.MAX_VALUE && |r.data| <= CompactU16.MAX_VALUE
  }

  ghost predicate EntryEncodable(e: Entry) {
    |e.writable| <= CompactU16.MAX_VALUE && |e.readonly| <= CompactU16.MAX_VALUE
  }

  // ---- What a message means ----

  /** Each table is known and long enough, or the given lists have as many accounts as the lookups name. */
  ghost predicate Resolves(es: seq<Entry>, src: Source) {
    match src
    case FromTables(t) => forall i :: 0 <= i < |es| ==> EntryFound(es[i], t)
    case Preloaded(w, r) => |w| == Count(es, true) && |r| == Count(es, false)
  }

  ghost predicate EntryFound(e: Entry, t: map<Key, seq<Key>>) {
    e.table in t && AllBelow(e.writable, |t[e.table]|) && AllBelow(e.readonly, |t[e.table]|)
  }

  function Indexes(e: Entry, writable: bool): seq<byte> {
    if writable then e.writable else e.readonly
  }

  /** How many writable (or readonly) accounts the lookups name. */
  function Count(es: seq<Entry>, writable: bool): nat {
    if es == [] then 0 else |Indexes(es[0], writable)| + Count(es[1..], writable)
  }

  /** The writable (or readonly) accounts the lookups name, table by table. */
  ghost function Found(es: seq<Entry>, t: map<Key, seq<Key>>, writable: bool): (ks: seq<Key>)
    requires forall i :: 0 <= i < |es| ==> EntryFound(es[i], t)
    ensures |ks| == Count(es, writable)
  {
    if es == [] then []
    else
      assert EntryFound(es[0], t);
      Pick(t[es[0].table], Indexes(es[0], writable)) + Found(es[1..], t, writable)
  }

  ghost function Accounts(es: seq<Entry>, src: Source, writable: bool): seq<Key>
    requires Resolves(es, src)
  {
    match src
    case FromTables(t) => Found(es, t, writable)
    case Preloaded(w, r) => if writable then w else r
  }

  /** The list account indexes run over: static keys, then loaded writable ones, then loaded readonly ones. */
  ghost function AllKeys(m: Message, src: Source): seq<Key>
    requires Resolves(m.lookups, src)
  {
    m.keys + Accounts(m.lookups, src, true) + Accounts(m.lookups, src, false)
  }

  /** The message is one the reader takes: header, program, table and account indexes are in range. */
  ghost predicate Accepted(m: Message, src: Source) {
    && m.header.required <= |m.keys|
    && (forall i :: 0 <= i < |m.raws| ==> m.raws[i].program < |m.keys|)
    && Resolves(m.lookups, src)
    && forall i :: 0 <= i < |m.raws| ==> AllBelow(m.raws[i].accounts, |AllKeys(m, src)|)
  }

  /**
   * Slots: signers first, the last `readonlySigned` of them readonly; then the other static keys, the last
   * `readonlyUnsigned` readonly; then the loaded writable and the loaded readonly ones.
   */
  ghost predicate Writable(m: Message, src: Source, i: nat)
    requires Resolves(m.lookups, src)
  {
    || i < m.header.required - m.header.readonlySigned
    || m.header.required <= i < |m.keys| - m.header.readonlyUnsigned
    || |m.keys| <= i < |m.keys| + |Accounts(m.lookups, src, true)|
  }

  ghost predicate Means(m: Message, src: Source, r: Raw, ix: Instruction)
    requires Resolves(m.lookups, src)
  {
    && r.program < |m.keys| && ix.programId == m.keys[r.program]
    && ix.data == r.data && |ix.keys| == |r.accounts|
    && forall j :: 0 <= j < |r.accounts| ==>
         && r.accounts[j] < |AllKeys(m, src)|
         && ix.keys[j] == AccountMeta(AllKeys(m, src)[r.accounts[j]], r.accounts[j] < m.header.required,
                                      Writable(m, src, r.accounts[j]))
  }

  ghost predicate ReadsAs(m: Message, src: Source, d: Decompiled)
    requires Accepted(m, src)
  {
    && d.accountKeys == m.keys && d.signers == m.keys[..m.header.required]
    && d.recentBlockhash == Base58.EncodeSpec(m.hash)
    && |d.instructions| == |m.raws|
    && forall n :: 0 <= n < |m.raws| ==> Means(m, src, m.raws[n], d.instructions[n])
  }

  // ---- Sections read back ----

  lemma RawBack(bytes: seq<byte>, off: nat, r: Raw, nKeys: nat)
    requires RawEncodable(r) && At(bytes, off, RawNumbers(r))
    ensures ReadRaw(bytes, off, nKeys)
            == if r.program < nKeys then Ok((r, off + |RawNumbers(r)|)) else Err(ReadError.Malformed)
  {
    hide CompactArray, ReadArray;
    var program: seq<nat> := [r.program];
    AtSplit3(bytes, off, program, CompactArray(r.accounts), CompactArray(r.data));
    assert bytes[off] == program[0];
    ArrayAt(bytes, off + 1, r.accounts);
    ArrayAt(bytes, off + 1 + |CompactArray(r.accounts)|, r.data);
  }

  lemma RawsStep(bytes: seq<byte>, off: nat, rs: seq<Raw>, nKeys: nat)
    requires rs != [] && off <= |bytes|
    ensures RawsNumbers(rs) == RawNumbers(rs[0]) + RawsNumbers(rs[1..])
    ensures ReadRaws(bytes, off, nKeys, |rs|)
            == match ReadRaw(bytes, off, nKeys)
               case Err(e) => Err(e)
               case Ok(first) =>
                 match ReadRaws(bytes, first.1, nKeys, |rs[1..]|)
                 case Err(e) => Err(e)
                 case Ok(rest) => Ok(([first.0] + rest.0, rest.1))
  {
    hide ReadRaw, RawNumbers;
  }

  lemma NoRaws(bytes: seq<byte>, off: nat, nKeys: nat)
    requires off <= |bytes|
    ensures ReadRaws(bytes, off, nKeys, 0) == Ok(([], off)) && RawsNumbers([]) == []
  {
  }

  lemma {:induction false} RawsBack(bytes: seq<byte>, off: nat, rs: seq<Raw>, nKeys: nat)
    requires off <= |bytes| && At(bytes, off, RawsNumbers(rs))
    requires forall i :: 0 <= i < |rs| ==> RawEncodable(rs[i])
    ensures ReadRaws(bytes, off, nKeys, |rs|)
            == if forall i :: 0 <= i < |rs| ==> rs[i].program < nKeys then Ok((rs, off + |RawsNumbers(rs)|))
               else Err(ReadError.Malformed)
    decreases |rs|
  {
    hide ReadRaw, ReadRaws, RawNumbers, RawsNumbers, At, RawEncodable;
    if rs == [] {
      NoRaws(bytes, off, nKeys);
    } else {
      RawsStep(bytes, off, rs, nKeys);
      var one := RawNumbers(rs[0]);
      AtSplit(bytes, off, one, RawsNumbers(rs[1..]));
      AtWithin(bytes, off, one);
      RawBack(bytes, off, rs[0], nKeys);
      assert forall i :: 0 < i < |rs| ==> rs[i] == rs[1..][i - 1];
      RawsBack(bytes, off + |one|, rs[1..], nKeys);
      assert [rs[0]] + rs[1..] == rs;
    }
  }

  lemma IndexesBack(bytes: seq<byte>, off: nat, idx: seq<byte>, addresses: Option<seq<Key>>)
    requires |idx| <= CompactU16.MAX_VALUE && At(bytes, off, CompactArray(idx))
    ensures ReadIndexList(bytes, off, addresses)
            == if addresses.None? then Ok(([], |idx|, off + |CompactArray(idx)|))
               else if AllBelow(idx, |addresses.value|)
               then Ok((Pick(addresses.value, idx), |idx|, off + |CompactArray(idx)|))
               else Err(ReadError.Malformed)
  {
    hide CompactArray, ReadArray;
    ArrayAt(bytes, off, idx);
  }

  /** One lookup as the reader collects it. */
  ghost function LookedUpBy(e: Entry, src: Source): LookedUp
    requires src.FromTables? ==> EntryFound(e, src.tables)
  {
    match src
    case FromTables(t) =>
      LookedUp(Pick(t[e.table], e.writable), Pick(t[e.table], e.readonly), |e.writable|, |e.readonly|)
    case Preloaded(_, _) => LookedUp([], [], |e.writable|, |e.readonly|)
  }

  lemma EntryBack(bytes: seq<byte>, off: nat, e: Entry, src: Source)
    requires EntryEncodable(e) && At(bytes, off, EntryNumbers(e))
    ensures ReadLookup(bytes, off, src)
            == if src.FromTables? && !EntryFound(e, src.tables) then Err(ReadError.Malformed)
               else Ok((LookedUpBy(e, src), off + |EntryNumbers(e)|))
  {
    hide CompactArray, ReadIndexList, At;
    var w, r := CompactArray(e.writable), CompactArray(e.readonly);
    AtSplit3(bytes, off, e.table, w, r);
    AtSlice(bytes, off, e.table);
    AtWithin(bytes, off, e.table);
    var addresses := if src.FromTables? && e.table in src.tables then Some(src.tables[e.table]) else None;
    IndexesBack(bytes, off + 32, e.writable, addresses);
    IndexesBack(bytes, off + 32 + |w|, e.readonly, addresses);
  }

  ghost predicate TablesKnown(es: seq<Entry>, src: Source) {
    src.FromTables? ==> forall i :: 0 <= i < |es| ==> EntryFound(es[i], src.tables)
  }

  ghost function LookedUpAll(es: seq<Entry>, src: Source): LookedUp
    requires TablesKnown(es, src)
  {
    if src.FromTables? then
      LookedUp(Found(es, src.tables, true), Found(es, src.tables, false), Count(es, true), Count(es, false))
    else LookedUp([], [], Count(es, true), Count(es, false))
  }

  lemma {:induction false} EntriesBack(bytes: seq<byte>, off: nat, es: seq<Entry>, src: Source)
    requires At(bytes, off, EntriesNumbers(es)) && forall i :: 0 <= i < |es| ==> EntryEncodable(es[i])
    ensures ReadLookups(bytes, off, src, |es|)
            == if TablesKnown(es, src) then Ok((LookedUpAll(es, src), off + |EntriesNumbers(es)|))
               else Err(ReadError.Malformed)
    decreases |es|
  {
    hide ReadLookup, EntryNumbers, At, EntryFound, TablesKnown, LookedUpAll;
    if es == [] {
      NoneLooked(src);
    } else {
      var one := EntryNumbers(es[0]);
      AtSplit(bytes, off, one, EntriesNumbers(es[1..]));
      EntryBack(bytes, off, es[0], src);
      EntriesBack(bytes, off + |one|, es[1..], src);
      KnownCons(es, src);
      if TablesKnown(es, src) {
        LookedUpCons(es, src);
      }
    }
  }

  lemma NoneLooked(src: Source)
    ensures TablesKnown([], src) && LookedUpAll([], src) == NO_LOOKUPS
  {
  }

  lemma KnownCons(es: seq<Entry>, src: Source)
    requires es != []
    ensures TablesKnown(es, src)
            <==> (src.FromTables? ==> EntryFound(es[0], src.tables)) && TablesKnown(es[1..], src)
  {
    hide EntryFound;
    assert forall i :: 0 < i < |es| ==> es[i] == es[1..][i - 1];
    assert forall i :: 0 <= i < |es[1..]| ==> es[1..][i] == es[i + 1];
  }

  lemma LookedUpCons(es: seq<Entry>, src: Source)
    requires es != [] && TablesKnown(es, src) && TablesKnown(es[1..], src)
    ensures Join(LookedUpBy(es[0], src), LookedUpAll(es[1..], src)) == LookedUpAll(es, src)
  {
    var none: seq<Key> := [];
    assert none + none == none;
  }

  // ---- The whole message ----

  lemma SixSections(bytes: seq<byte>, a: seq<nat>, b: seq<nat>, c: seq<nat>, d: seq<nat>, e: seq<nat>, f: seq<nat>)
    requires At(bytes, 0, a + b + c + d + e + f)
    ensures var o1 := |a|; var o2 := o1 + |b|; var o3 := o2 + |c|; var o4 := o3 + |d|; var o5 := o4 + |e|;
            && At(bytes, 0, a) && At(bytes, o1, b) && At(bytes, o2, c) && At(bytes, o3, d)
            && At(bytes, o4, e) && At(bytes, o5, f)
  {
    hide At;
    AtSplit(bytes, 0, a + b + c + d + e, f);
    AtSplit(bytes, 0, a + b + c + d, e);
    AtSplit(bytes, 0, a + b + c, d);
    AtSplit(bytes, 0, a + b, c);
    AtSplit(bytes, 0, a, b);
  }

  /** Where the instructions start. */
  function BodyAt(m: Message): nat {
    |Prefix(m)| + 3 + |KeysPart(m)| + 32
  }

  lemma StartBack(bytes: seq<byte>, m: Message)
    requires Encodable(m) && At(bytes, 0, Prefix(m)) && At(bytes, |Prefix(m)|, HeaderPart(m))
    ensures MessageStart(bytes) == Ok((m.versioned, |Prefix(m)|))
    ensures var o := |Prefix(m)|;
            bytes[o] == m.header.required && bytes[o + 1] == m.header.readonlySigned
            && bytes[o + 2] == m.header.readonlyUnsigned
    ensures |bytes| > 0 && bytes[0] == if m.versioned then 0x80 else m.header.required
  {
    var h, o := HeaderPart(m), |Prefix(m)|;
    assert bytes[o + 0] == h[0] && bytes[o + 1] == h[1] && bytes[o + 2] == h[2];
    if m.versioned {
      assert bytes[0 + 0] == Prefix(m)[0];
    }
  }

  lemma HeadRead(bytes: seq<byte>, m: Message)
    requires Encodable(m) && At(bytes, 0, Prefix(m)) && At(bytes, |Prefix(m)|, HeaderPart(m))
    requires At(bytes, |Prefix(m)| + 3, KeysPart(m)) && At(bytes, |Prefix(m)| + 3 + |KeysPart(m)|, m.hash)
    ensures ReadHead(bytes)
            == if m.header.required <= |m.keys|
               then Ok(Head(m.versioned, m.header, m.keys, Base58.EncodeSpec(m.hash), BodyAt(m)))
               else Err(ReadError.Malformed)
  {
    hide Base58.EncodeSpec, KeyBytes, ReadCompact, CompactU16.Groups, ReadKeys, MessageStart, At, Prefix;
    StartBack(bytes, m);
    var o, g := |Prefix(m)| + 3, CompactU16.Groups(|m.keys|);
    AtSplit(bytes, o, g, KeyBytes(m.keys));
    CompactAt(bytes, o, |m.keys|);
    KeysAt(bytes, o + |g|, m.keys);
    AtWithin(bytes, o + |g|, KeyBytes(m.keys));
    AtSlice(bytes, o + |KeysPart(m)|, m.hash);
    AtWithin(bytes, o + |KeysPart(m)|, m.hash);
  }

  lemma SectionBack(bytes: seq<byte>, off: nat, m: Message, src: Source)
    requires Encodable(m) && At(bytes, off, LookupsPart(m))
    ensures ReadLookupSection(bytes, off, m.versioned, src)
            == if TablesKnown(m.lookups, src) then Ok((LookedUpAll(m.lookups, src), off + |LookupsPart(m)|))
               else Err(ReadError.Malformed)
  {
    hide ReadLookups, CompactU16.Groups, ReadCompact, At, EntriesNumbers, TablesKnown, LookedUpAll;
    NoneLooked(src);
    if m.versioned {
      AtSplit(bytes, off, CompactU16.Groups(|m.lookups|), EntriesNumbers(m.lookups));
      CompactAt(bytes, off, |m.lookups|);
      EntriesBack(bytes, off + |CompactU16.Groups(|m.lookups|)|, m.lookups, src);
    }
  }

  /** The lookups resolve exactly when the tables are known and given lists have the right lengths. */
  lemma LoadedBack(es: seq<Entry>, src: Source)
    ensures Resolves(es, src) <==> TablesKnown(es, src) && Loaded(src, LookedUpAll(es, src)).Ok?
    ensures Resolves(es, src) ==>
              Loaded(src, LookedUpAll(es, src)) == Ok((Accounts(es, src, true), Accounts(es, src, false)))
    ensures TablesKnown(es, src) && Loaded(src, LookedUpAll(es, src)).Err? ==>
              Loaded(src, LookedUpAll(es, src)).error == ReadError.Malformed
  {
    hide EntryFound;
  }

  lemma ResolvedMeans(m: Message, src: Source, ixs: seq<Instruction>)
    requires Accepted(m, src)
    requires ResolveRaws(m.header, m.keys, Accounts(m.lookups, src, true), Accounts(m.lookups, src, false), m.raws)
             == Ok(ixs)
    ensures |ixs| == |m.raws| && forall n :: 0 <= n < |m.raws| ==> Means(m, src, m.raws[n], ixs[n])
  {
    hide Accounts, Resolves;
    forall n | 0 <= n < |m.raws|
      ensures Means(m, src, m.raws[n], ixs[n])
    {
      var w, r := Accounts(m.lookups, src, true), Accounts(m.lookups, src, false);
      assert ixs[n] == ResolveRaw(m.header, m.keys, |w|, m.keys + w + r, m.raws[n]);
    }
  }

  ghost predicate BodySections(bytes: seq<byte>, m: Message) {
    && At(bytes, BodyAt(m), CompactU16.Groups(|m.raws|))
    && At(bytes, BodyAt(m) + |CompactU16.Groups(|m.raws|)|, RawsNumbers(m.raws))
    && At(bytes, BodyAt(m) + |RawsPart(m)|, LookupsPart(m))
  }

  lemma BodyRead(bytes: seq<byte>, m: Message, src: Source)
    requires Encodable(m) && m.header.required <= |m.keys| && BodySections(bytes, m)
    ensures var d := ReadBody(bytes, Head(m.versioned, m.header, m.keys, Base58.EncodeSpec(m.hash), BodyAt(m)), src);
            && (d.Ok? <==> Accepted(m, src) && |bytes| == BodyAt(m) + |RawsPart(m)| + |LookupsPart(m)|)
            && (d.Ok? ==> ReadsAs(m, src, d.value))
            && (d.Err? ==> d.error == ReadError.Malformed)
  {
    hide At, ReadRaws, ReadLookupSection, ReadCompact, CompactU16.Groups, RawsNumbers, LookupsPart, Base58.EncodeSpec,
         Loaded, LookedUpAll, TablesKnown, BodyAt, Means, Accounts, Resolves;
    AtWithin(bytes, BodyAt(m), CompactU16.Groups(|m.raws|));
    CompactAt(bytes, BodyAt(m), |m.raws|);
    RawsBack(bytes, BodyAt(m) + |CompactU16.Groups(|m.raws|)|, m.raws, |m.keys|);
    SectionBack(bytes, BodyAt(m) + |RawsPart(m)|, m, src);
    LoadedBack(m.lookups, src);
    if Accepted(m, src) {
      var w, r := Accounts(m.lookups, src, true), Accounts(m.lookups, src, false);
      var ixs := ResolveRaws(m.header, m.keys, w, r, m.raws);
      assert ixs.Ok?;
      ResolvedMeans(m, src, ixs.value);
    }
  }

  /**
   * Any message, legacy or v0, followed by anything: the reader takes it exactly when its indexes are in range and
   * nothing follows, and then returns its keys, signers, blockhash and instructions with the flags its header gives.
   */
  lemma MessageBack(m: Message, src: Source, extra: seq<byte>)
    requires Encodable(m)
    ensures AllBytes(Layout(m))
    ensures var d := Decompile(ToU8Array(Layout(m)) + extra, src);
            && (d.Ok? <==> Accepted(m, src) && extra == [])
            && (d.Ok? ==> ReadsAs(m, src, d.value))
            && (d.Err? ==> d.error == ReadError.Malformed)
  {
    hide At, ReadHead, ReadBody, Layout, Accepted, Prefix, HeaderPart, KeysPart, RawsPart, LookupsPart,
         CompactU16.Groups, ToU8Array, RawsNumbers, BodyAt, ReadsAs;
    LayoutBytes(m);
    AllBytesUnchanged(Layout(m));
    var bytes := ToU8Array(Layout(m)) + extra;
    LaidOut(bytes, m, extra);
    HeadRead(bytes, m);
    if m.header.required <= |m.keys| {
      BodyRead(bytes, m, src);
    }
    TooManySigners(m, src);
  }

  lemma TooManySigners(m: Message, src: Source)
    ensures m.header.required > |m.keys| ==> !Accepted(m, src)
  {
  }

  lemma AtFront(bytes: seq<byte>, part: seq<nat>, extra: seq<byte>)
    requires ToU8Array(part) == part && bytes == ToU8Array(part) + extra
    ensures At(bytes, 0, part) && |bytes| == |part| + |extra|
  {
  }

  /** The sections of a message stand where the layout puts them. */
  lemma LaidOut(bytes: seq<byte>, m: Message, extra: seq<byte>)
    requires Encodable(m) && ToU8Array(Layout(m)) == Layout(m) && bytes == ToU8Array(Layout(m)) + extra
    ensures At(bytes, 0, Prefix(m)) && At(bytes, |Prefix(m)|, HeaderPart(m))
    ensures At(bytes, |Prefix(m)| + 3, KeysPart(m)) && At(bytes, |Prefix(m)| + 3 + |KeysPart(m)|, m.hash)
    ensures BodySections(bytes, m)
    ensures |bytes| == BodyAt(m) + |RawsPart(m)| + |LookupsPart(m)| + |extra|
  {
    hide At, Prefix, KeysPart, LookupsPart, CompactU16.Groups, RawsNumbers, ToU8Array;
    AtFront(bytes, Layout(m), extra);
    SixSections(bytes, Prefix(m), HeaderPart(m), KeysPart(m), m.hash, RawsPart(m), LookupsPart(m));
    AtSplit(bytes, BodyAt(m), CompactU16.Groups(|m.raws|), RawsNumbers(m.raws));
  }

  lemma {:induction false} RawsBytes(rs: seq<Raw>)
    requires forall i :: 0 <= i < |rs| ==> RawEncodable(rs[i])
    ensures AllBytes(RawsNumbers(rs))
  {
    if rs != [] {
      var r := rs[0];
      assert RawEncodable(r);
      var program: seq<nat> := [r.program];
      ArrayBytes(r.accounts);
      ArrayBytes(r.data);
      AllBytesJoin(program, CompactArray(r.accounts));
      AllBytesJoin(program + CompactArray(r.accounts), CompactArray(r.data));
      RawsBytes(rs[1..]);
      AllBytesJoin(RawNumbers(r), RawsNumbers(rs[1..]));
    }
  }

  lemma ArrayBytes(xs: seq<byte>)
    requires |xs| <= CompactU16.MAX_VALUE
    ensures AllBytes(CompactArray(xs))
  {
    BytesAreBytes(CompactU16.Groups(|xs|));
    BytesAreBytes(xs);
    AllBytesJoin(CompactU16.Groups(|xs|), xs);
  }

  lemma {:induction false} EntriesBytes(es: seq<Entry>)
    requires forall i :: 0 <= i < |es| ==> EntryEncodable(es[i])
    ensures AllBytes(EntriesNumbers(es))
  {
    if es != [] {
      var e := es[0];
      assert EntryEncodable(e);
      BytesAreBytes(e.table);
      ArrayBytes(e.writable);
      ArrayBytes(e.readonly);
      AllBytesJoin(e.table, CompactArray(e.writable));
      AllBytesJoin(e.table + CompactArray(e.writable), CompactArray(e.readonly));
      EntriesBytes(es[1..]);
      AllBytesJoin(EntryNumbers(e), EntriesNumbers(es[1..]));
    }
  }

  lemma LayoutBytes(m: Message)
    requires Encodable(m)
    ensures AllBytes(Layout(m))
  {
    hide CompactU16.Groups, RawsNumbers, EntriesNumbers, KeyBytes;
    BytesAreBytes(CompactU16.Groups(|m.keys|));
    BytesAreBytes(KeyBytes(m.keys));
    BytesAreBytes(m.hash);
    BytesAreBytes(CompactU16.Groups(|m.raws|));
    BytesAreBytes(CompactU16.Groups(|m.lookups|));
    RawsBytes(m.raws);
    EntriesBytes(m.lookups);
    PartsBytes(m);
  }

  lemma PartsBytes(m: Message)
    requires Encodable(m)
    requires AllBytes(CompactU16.Groups(|m.keys|)) && AllBytes(KeyBytes(m.keys)) && AllBytes(m.hash)
    requires AllBytes(CompactU16.Groups(|m.raws|)) && AllBytes(RawsNumbers(m.raws))
    requires AllBytes(CompactU16.Groups(|m.lookups|)) && AllBytes(EntriesNumbers(m.lookups))
    ensures AllBytes(Layout(m))
  {
    hide CompactU16.Groups, RawsNumbers, EntriesNumbers, KeyBytes;
    AllBytesJoin(CompactU16.Groups(|m.keys|), KeyBytes(m.keys));
    AllBytesJoin(CompactU16.Groups(|m.raws|), RawsNumbers(m.raws));
    AllBytesJoin(CompactU16.Groups(|m.lookups|), EntriesNumbers(m.lookups));
    SixBytes(Prefix(m), HeaderPart(m), KeysPart(m), m.hash, RawsPart(m), LookupsPart(m));
  }

  lemma SixBytes(a: seq<nat>, b: seq<nat>, c: seq<nat>, d: seq<nat>, e: seq<nat>, f: seq<nat>)
    requires AllBytes(a) && AllBytes(b) && AllBytes(c) && AllBytes(d) && AllBytes(e) && AllBytes(f)
    ensures AllBytes(a + b + c + d + e + f)
  {
    hide AllBytes;
    AllBytesJoin(a, b);
    AllBytesJoin(a + b, c);
    AllBytesJoin(a + b + c, d);
    AllBytesJoin(a + b + c + d, e);
    AllBytesJoin(a + b + c + d + e, f);
  }

  /** messageSigners on any message, whatever follows: the first `required` keys, if there are that many. */
  lemma SignersOfMessage(m: Message, extra: seq<byte>)
    requires Encodable(m)
    ensures Signers(ToU8Array(Layout(m)) + extra)
            == if m.header.required <= |m.keys| then Ok(m.keys[..m.header.required]) else Err(ReadError.Malformed)
  {
    hide At, Layout, HeaderPart, RawsPart, LookupsPart, CompactU16.Groups, ToU8Array, KeyBytes, ReadCompact, ReadKeys,
         RawsNumbers, BodySections, MessageStart, Prefix;
    LayoutBytes(m);
    AllBytesUnchanged(Layout(m));
    var bytes := ToU8Array(Layout(m)) + extra;
    LaidOut(bytes, m, extra);
    StartBack(bytes, m);
    PrefixLength(m);
    var o, g := |Prefix(m)| + 3, CompactU16.Groups(|m.keys|);
    AtSplit(bytes, o, g, KeyBytes(m.keys));
    CompactAt(bytes, o, |m.keys|);
    AtWithin(bytes, o + |g|, KeyBytes(m.keys));
    if m.header.required <= |m.keys| {
      var mine, others := m.keys[..m.header.required], m.keys[m.header.required..];
      assert m.keys == mine + others;
      KeyBytesJoin(mine, others);
      AtSplit(bytes, o + |g|, KeyBytes(mine), KeyBytes(others));
      KeysAt(bytes, o + |g|, mine);
    }
  }

  lemma PrefixLength(m: Message)
    ensures |Prefix(m)| == if m.versioned then 1 else 0
  {
  }

  /** Without lookups the version byte is all that tells the two formats apart. */
  lemma LegacyIsVersioned(m: Message, src: Source)
    requires Encodable(m) && !m.versioned
    ensures Layout(m.(versioned := true)) == [0x80] + Layout(m) + [0]
    ensures Decompile(ToU8Array(Layout(m)), src) == Decompile([0x80] + ToU8Array(Layout(m)) + [0], src)
  {
    hide Decompile, AllKeys, Accounts, Resolves, ToU8Array, Accepted, ReadsAs;
    var v := m.(versioned := true);
    VersionedLayout(m);
    LayoutBytes(m);
    LayoutBytes(v);
    AllBytesUnchanged(Layout(m));
    AllBytesUnchanged(Layout(v));
    assert ToU8Array(Layout(m)) + [] == ToU8Array(Layout(m)) && ToU8Array(Layout(v)) + [] == ToU8Array(Layout(v));
    MessageBack(m, src, []);
    MessageBack(v, src, []);
    SameAccepted(m, src);
    if Accepted(m, src) {
      SameReading(m, src, Decompile(ToU8Array(Layout(m)), src).value, Decompile(ToU8Array(Layout(v)), src).value);
    }
  }

  lemma VersionedLayout(m: Message)
    requires !m.versioned && m.lookups == []
    ensures Layout(m.(versioned := true)) == [0x80] + Layout(m) + [0]
  {
    var v := m.(versioned := true);
    assert CompactU16.Groups(0) == [0] && EntriesNumbers([]) == [];
    assert LookupsPart(v) == [0] && LookupsPart(m) == [] && Prefix(v) == [0x80] && Prefix(m) == [];
    assert HeaderPart(v) == HeaderPart(m) && KeysPart(v) == KeysPart(m) && RawsPart(v) == RawsPart(m);
    hide Prefix, HeaderPart, KeysPart, RawsPart, LookupsPart, CompactU16.Groups;
    BetweenBytes(HeaderPart(m), KeysPart(m), m.hash, RawsPart(m));
  }

  lemma BetweenBytes(a: seq<nat>, b: seq<nat>, c: seq<nat>, d: seq<nat>)
    ensures [0x80] + a + b + c + d + [0] == [0x80] + ([] + a + b + c + d + []) + [0]
  {
    var inner := a + b + c + d;
    assert [] + a + b + c + d + [] == inner;
    assert [0x80] + a + b + c + d == [0x80] + inner;
  }

  lemma SameAccepted(m: Message, src: Source)
    ensures Accepted(m, src) <==> Accepted(m.(versioned := true), src)
  {
  }

  lemma SameReading(m: Message, src: Source, d: Decompiled, e: Decompiled)
    requires Accepted(m, src) && Accepted(m.(versioned := true), src)
    requires ReadsAs(m, src, d) && ReadsAs(m.(versioned := true), src, e)
    ensures d == e
  {
    hide Accounts, Resolves, Base58.EncodeSpec;
    forall n | 0 <= n < |m.raws|
      ensures d.instructions[n] == e.instructions[n]
    {
      assert Means(m, src, m.raws[n], d.instructions[n]);
      assert Means(m.(versioned := true), src, m.raws[n], e.instructions[n]);
      assert d.instructions[n].keys == e.instructions[n].keys;
    }
  }
}
