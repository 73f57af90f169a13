/** The compiler preserves meaning: decompiling its message gives the transaction back. */
module TxMeaning {
  import opened Wrappers
  import opened Bytes
  import opened Slices
  import opened TxTypes
  import opened TxCompile
  import opened TxLayout
  import opened TxMessage
  import opened TxAssemble
  import opened TxReader
  import opened TxRoundTrip
  import CompactU16
  import Base58

  /** Every index and count is within its byte width. */
  ghost predicate Fits(c: Compiled, ixs: seq<Instruction>) {
    && c.numRequired < 256
    && |c.Order()| <= 256
    && Covered(c.altWritable) && Covered(c.altReadonly)
    && (forall i :: 0 <= i < |c.altWritable| ==> c.altWritable[i].alt.value.index < 256)
    && (forall i :: 0 <= i < |c.altReadonly| ==> c.altReadonly[i].alt.value.index < 256)
    && |ixs| <= CompactU16.MAX_VALUE
    && forall i :: 0 <= i < |ixs| ==> InstructionLengths(ixs[i])
  }

  lemma FitsCovered(c: Compiled, ixs: seq<Instruction>)
    requires Fits(c, ixs)
    ensures Covered(c.altWritable) && Covered(c.altReadonly)
  {
  }

  /** The table order of the message: tables as they first cover a writable, then a readonly account. */
  ghost function WireOrder(c: Compiled): seq<Key>
    requires Covered(c.altWritable) && Covered(c.altReadonly)
  {
    TableOrder(c.altWritable + c.altReadonly)
  }

  ghost predicate OrderFacts(c: Compiled) {
    && Covered(c.altWritable) && Covered(c.altReadonly)
    && Distinct(WireOrder(c))
    && KeyedIn(c.altWritable, WireOrder(c)) && KeyedIn(c.altReadonly, WireOrder(c))
  }

  lemma WireOrderFacts(c: Compiled)
    requires Covered(c.altWritable) && Covered(c.altReadonly)
    ensures OrderFacts(c)
    ensures |WireOrder(c)| <= |c.altWritable| + |c.altReadonly|
  {
    var all := c.altWritable + c.altReadonly;
    TableOrderFacts(all);
    forall i | 0 <= i < |c.altWritable|
      ensures c.altWritable[i].alt.value.key in WireOrder(c)
    {
      assert all[i] == c.altWritable[i];
    }
    forall i | 0 <= i < |c.altReadonly|
      ensures c.altReadonly[i].alt.value.key in WireOrder(c)
    {
      assert all[|c.altWritable| + i] == c.altReadonly[i];
    }
  }

  /** Mentions of one instruction are mentions of the transaction. */
  lemma {:induction false} MentionedIn(ixs: seq<Instruction>, n: nat, j: nat)
    requires n < |ixs| && j <= |ixs[n].keys|
    ensures var k := if j == 0 then AccountMeta(ixs[n].programId, false, false) else ixs[n].keys[j - 1];
            k in MentionsOf(ixs)
  {
    if n > 0 {
      MentionedIn(ixs[1..], n - 1, j);
    } else {
      var head := [AccountMeta(ixs[0].programId, false, false)] + ixs[0].keys;
      assert head[j] in head;
    }
  }

  /** Slot facts of one program or account of one instruction. */
  ghost predicate SlotOk(payer: Key, ixs: seq<Instruction>, tables: seq<Table>, k: Key) {
    var c := Compile(payer, ixs, tables);
    var ms := Mentions(payer, ixs);
    && k in c.indexOf && c.indexOf[k] < |c.Order()| && c.Order()[c.indexOf[k]].pubkey == k
    && (TxLayout.SlotSigner(c, c.indexOf[k]) <==> SignerIn(ms, k))
    && (SlotWritable(c, c.indexOf[k]) <==> WritableIn(ms, k))
    && (SignerIn(ms, k) || Invoked(ixs, k) ==> c.indexOf[k] < |c.staticAccounts|)
  }

  lemma InstructionSlots(payer: Key, ixs: seq<Instruction>, tables: seq<Table>, n: nat, j: nat)
    requires n < |ixs| && j <= |ixs[n].keys|
    ensures SlotOk(payer, ixs, tables, if j == 0 then ixs[n].programId else ixs[n].keys[j - 1].pubkey)
  {
    hide Compile, MentionsOf, TxLayout.SlotSigner, SlotWritable, SignerIn, WritableIn;
    MentionedIn(ixs, n, j);
    var meta := if j == 0 then AccountMeta(ixs[n].programId, false, false) else ixs[n].keys[j - 1];
    var ms := Mentions(payer, ixs);
    var i :| 0 <= i < |MentionsOf(ixs)| && MentionsOf(ixs)[i] == meta;
    assert ms[i + 1] == meta;
    MentionKeepsSlot(payer, ixs, tables, i + 1);
  }

  /** An instruction whose slots are known is readable, and its program slot is static. */
  lemma InstructionReadable(payer: Key, ixs: seq<Instruction>, tables: seq<Table>, n: nat)
    requires Fits(Compile(payer, ixs, tables), ixs) && n < |ixs|
    ensures var c := Compile(payer, ixs, tables);
            && Readable(c.indexOf, ixs[n], |c.staticAccounts|)
            && Pushable(c.indexOf, ixs[n])
            && AllBelow(RawOf(c.indexOf, ixs[n]).accounts, |c.Order()|)
  {
    hide Compile, TxLayout.SlotSigner, SlotWritable, SignerIn, WritableIn;
    var c := Compile(payer, ixs, tables);
    var ix := ixs[n];
    InstructionSlots(payer, ixs, tables, n, 0);
    assert Invoked(ixs, ix.programId);
    forall j | 0 <= j < |ix.keys|
      ensures ix.keys[j].pubkey in c.indexOf && c.indexOf[ix.keys[j].pubkey] < |c.Order()|
    {
      InstructionSlots(payer, ixs, tables, n, j + 1);
    }
  }

  /** Within the byte widths the encoder never throws. */
  lemma FitsEncodable(payer: Key, ixs: seq<Instruction>, tables: seq<Table>)
    requires Fits(Compile(payer, ixs, tables), ixs)
    ensures Encodable(Compile(payer, ixs, tables), ixs)
  {
    hide Compile, TableOrder, CoveredBy, Readable;
    var c := Compile(payer, ixs, tables);
    forall i | 0 <= i < |ixs|
      ensures Pushable(c.indexOf, ixs[i])
    {
      InstructionReadable(payer, ixs, tables, i);
    }
    WireOrderFacts(c);
    var ls := Lookups(c.altWritable, c.altReadonly);
    forall i | 0 <= i < |ls|
      ensures LookupLengths(ls[i])
    {
      CoveredByKeeps(c.altWritable, WireOrder(c)[i]);
      CoveredByKeeps(c.altReadonly, WireOrder(c)[i]);
    }
  }

  // ---- The bytes of a message that fits ----

  lemma {:induction false} InstructionsAllBytes(idx: map<Key, nat>, ixs: seq<Instruction>)
    requires forall i :: 0 <= i < |ixs| ==> Narrow(idx, ixs[i])
    ensures AllBytes(InstructionsNumbers(idx, ixs))
  {
    if ixs != [] {
      assert Narrow(idx, ixs[0]);
      var g1, g2: seq<nat> := CompactU16.Groups(|ixs[0].keys|), CompactU16.Groups(|ixs[0].data|);
      assert AllBytes(g1) && AllBytes(g2) && AllBytes(ixs[0].data) && AllBytes(AccountIndexes(idx, ixs[0]));
      InstructionsAllBytes(idx, ixs[1..]);
      AllBytesJoin(InstructionNumbers(idx, ixs[0]), InstructionsNumbers(idx, ixs[1..]));
    }
  }

  ghost predicate NarrowAlts(accs: seq<AccountInfo>) {
    Covered(accs) && forall i :: 0 <= i < |accs| ==> accs[i].alt.value.index < 256
  }

  lemma LookupAllBytes(w: seq<AccountInfo>, r: seq<AccountInfo>, k: Key)
    requires NarrowAlts(w) && NarrowAlts(r)
    ensures AllBytes(LookupNumbers(LookupFor(w, r, k)))
  {
    CoveredByKeeps(w, k);
    CoveredByKeeps(r, k);
    var wi, ri := AltIndexes(CoveredBy(w, k)), AltIndexes(CoveredBy(r, k));
    var g1, g2: seq<nat> := CompactU16.Groups(|wi|), CompactU16.Groups(|ri|);
    assert AllBytes(g1) && AllBytes(g2) && AllBytes(wi) && AllBytes(ri) && AllBytes(k);
    AllBytesJoin(g1, wi);
    AllBytesJoin(g2, ri);
    AllBytesJoin(k, g1 + wi);
    AllBytesJoin(k + CompactArray(wi), g2 + ri);
  }

  lemma {:induction false} LookupsAllBytes(w: seq<AccountInfo>, r: seq<AccountInfo>, ks: seq<Key>)
    requires NarrowAlts(w) && NarrowAlts(r)
    ensures AllBytes(LookupsNumbers(LookupsFor(w, r, ks)))
    decreases |ks|
  {
    hide LookupFor, LookupNumbers;
    if ks != [] {
      LookupAllBytes(w, r, ks[0]);
      LookupsAllBytes(w, r, ks[1..]);
      AllBytesJoin(LookupNumbers(LookupFor(w, r, ks[0])), LookupsNumbers(LookupsFor(w, r, ks[1..])));
    }
  }

  /** No number of a message that fits is truncated. */
  lemma MessageNotTruncated(payer: Key, ixs: seq<Instruction>, tables: seq<Table>, hash: seq<byte>)
    requires Fits(Compile(payer, ixs, tables), ixs)
    ensures var ns := MessageNumbers(Compile(payer, ixs, tables), ixs, hash); ToU8Array(ns) == ns
  {
    hide Compile, InstructionsNumbers, LookupsNumbers, Readable, KeyBytes, TableOrder, LookupFor;
    var c := Compile(payer, ixs, tables);
    forall i | 0 <= i < |ixs|
      ensures Narrow(c.indexOf, ixs[i])
    {
      NarrowInstruction(payer, ixs, tables, i);
    }
    InstructionsAllBytes(c.indexOf, ixs);
    LookupsForAll(c.altWritable, c.altReadonly, WireOrder(c));
    LookupsAllBytes(c.altWritable, c.altReadonly, WireOrder(c));
    CompileWellLaidOut(payer, ixs, tables);
    var ls := Lookups(c.altWritable, c.altReadonly);
    var g1, g2, g3: seq<nat> :=
      CompactU16.Groups(|c.staticAccounts|), CompactU16.Groups(|ixs|), CompactU16.Groups(|ls|);
    var keys: seq<nat> := KeyBytes(Keys(c.staticAccounts));
    assert AllBytes(HeaderNumbers(c)) && AllBytes(g1) && AllBytes(g2) && AllBytes(g3) && AllBytes(keys)
      && AllBytes(hash);
    EightBytes(HeaderNumbers(c), g1, keys, hash, g2, InstructionsNumbers(c.indexOf, ixs), g3, LookupsNumbers(ls));
  }

  lemma NarrowInstruction(payer: Key, ixs: seq<Instruction>, tables: seq<Table>, n: nat)
    requires Fits(Compile(payer, ixs, tables), ixs) && n < |ixs|
    ensures Narrow(Compile(payer, ixs, tables).indexOf, ixs[n])
  {
    hide Compile;
    InstructionReadable(payer, ixs, tables, n);
  }

  lemma EightBytes(a: seq<nat>, b: seq<nat>, c: seq<nat>, d: seq<nat>, e: seq<nat>, f: seq<nat>, g: seq<nat>,
                   h: seq<nat>)
    requires AllBytes(a) && AllBytes(b) && AllBytes(c) && AllBytes(d)
    requires AllBytes(e) && AllBytes(f) && AllBytes(g) && AllBytes(h)
    ensures var ns := a + b + c + d + e + f + g + h; AllBytes(ns) && ToU8Array(ns) == ns
  {
    AllBytesJoin(a, b);
    AllBytesJoin(a + b, c);
    AllBytesJoin(a + b + c, d);
    AllBytesJoin(a + b + c + d, e);
    AllBytesJoin(a + b + c + d + e, f);
    AllBytesJoin(a + b + c + d + e + f, g);
    AllBytesJoin(a + b + c + d + e + f + g, h);
    AllBytesUnchanged(a + b + c + d + e + f + g + h);
  }

  // ---- Reading the message back ----

  /** The eight sections of a message, each at its offset. */
  lemma MessageSections(bytes: seq<byte>, a: seq<nat>, b: seq<nat>, c: seq<nat>, d: seq<nat>,
                        e: seq<nat>, f: seq<nat>, g: seq<nat>, h: seq<nat>)
    requires bytes == a + b + c + d + e + f + g + h
    ensures var o1 := |a|; var o2 := o1 + |b|; var o3 := o2 + |c|; var o4 := o3 + |d|;
            var o5 := o4 + |e|; var o6 := o5 + |f|; var o7 := o6 + |g|;
            && At(bytes, 0, a) && At(bytes, o1, b) && At(bytes, o2, c) && At(bytes, o3, d)
            && At(bytes, o4, e) && At(bytes, o5, f) && At(bytes, o6, g) && At(bytes, o7, h)
            && |bytes| == o7 + |h|
  {
    hide At;
    AtWhole(bytes, a + b + c + d + e + f + g + h);
    AtSplit(bytes, 0, a + b + c + d + e + f + g, h);
    AtSplit(bytes, 0, a + b + c + d + e + f, g);
    AtSplit(bytes, 0, a + b + c + d + e, f);
    AtSplit(bytes, 0, a + b + c + d, e);
    AtSplit(bytes, 0, a + b + c, d);
    AtSplit(bytes, 0, a + b, c);
    AtSplit(bytes, 0, a, b);
  }

  ghost function HeadOf(c: Compiled, blockhash: string, off: nat): Head {
    Head(true, Header(c.numRequired, c.numReadonlySigned, c.numReadonlyUnsigned), Keys(c.staticAccounts), blockhash,
         off)
  }

  ghost function HeadLength(c: Compiled): nat {
    4 + |CompactU16.Groups(|c.staticAccounts|)| + 32 * |c.staticAccounts| + 32
  }

  lemma HeadBack(bytes: seq<byte>, c: Compiled, hash: seq<byte>)
    requires |c.staticAccounts| <= CompactU16.MAX_VALUE && |hash| == 32 && c.numRequired <= |c.staticAccounts|
    requires At(bytes, 0, HeaderNumbers(c))
    requires At(bytes, 4, CompactU16.Groups(|c.staticAccounts|))
    requires var o2 := 4 + |CompactU16.Groups(|c.staticAccounts|)|;
             && At(bytes, o2, KeyBytes(Keys(c.staticAccounts)))
             && At(bytes, o2 + 32 * |c.staticAccounts|, hash)
    ensures ReadHead(bytes) == Ok(HeadOf(c, Base58.EncodeSpec(hash), HeadLength(c)))
  {
    hide Base58.EncodeSpec, KeyBytes, ReadCompact, CompactU16.Groups, ReadKeys;
    var hs := HeaderNumbers(c);
    assert bytes[0] == hs[0] && bytes[1] == hs[1] && bytes[2] == hs[2] && bytes[3] == hs[3];
    CompactAt(bytes, 4, |c.staticAccounts|);
    var o2 := 4 + |CompactU16.Groups(|c.staticAccounts|)|;
    KeysAt(bytes, o2, Keys(c.staticAccounts));
    AtSlice(bytes, o2 + 32 * |c.staticAccounts|, hash);
  }

  /** The lookups as read: the table accounts regrouped by table, or only counted when preloaded. */
  ghost function Looked(c: Compiled, src: Source): LookedUp
    requires Covered(c.altWritable) && Covered(c.altReadonly)
  {
    var w, r := Regroup(c.altWritable, WireOrder(c)), Regroup(c.altReadonly, WireOrder(c));
    if src.FromTables? then LookedUp(Keys(w), Keys(r), |w|, |r|) else LookedUp([], [], |w|, |r|)
  }

  /** Instructions as the reader resolves them against the table accounts it is given or finds. */
  ghost function ReadBack(c: Compiled, ixs: seq<Instruction>, src: Source): Result<seq<Instruction>, ReadError>
    requires Covered(c.altWritable) && Covered(c.altReadonly)
    requires forall i :: 0 <= i < |ixs| ==> Readable(c.indexOf, ixs[i], |c.staticAccounts|)
  {
    ReadablePrograms(c.indexOf, ixs, |c.staticAccounts|);
    var loaded :- Loaded(src, Looked(c, src));
    ResolveRaws(Header(c.numRequired, c.numReadonlySigned, c.numReadonlyUnsigned), Keys(c.staticAccounts),
                loaded.0, loaded.1, RawsOf(c.indexOf, ixs))
  }

  /** The reader's tables, if it is given tables, hold the compiler's table accounts where it says. */
  ghost predicate Holds(c: Compiled, src: Source) {
    src.FromTables? ==> AllStored(src.tables, c.altWritable) && AllStored(src.tables, c.altReadonly)
  }

  lemma LookupsBack(bytes: seq<byte>, off: nat, c: Compiled, src: Source)
    requires OrderFacts(c) && Holds(c, src) && |c.altWritable| + |c.altReadonly| <= 256
    requires NarrowAlts(c.altWritable) && NarrowAlts(c.altReadonly)
    requires At(bytes, off, LookupsNumbers(LookupsFor(c.altWritable, c.altReadonly, WireOrder(c))))
    ensures ReadLookups(bytes, off, src, |WireOrder(c)|) ==
            Ok((Looked(c, src), off + |LookupsNumbers(LookupsFor(c.altWritable, c.altReadonly, WireOrder(c)))|))
  {
    hide At, LookupsNumbers, ReadLookups, TableOrder, LookupsFor, Regroup;
    if src.FromTables? {
      forall i | 0 <= i < |WireOrder(c)|
        ensures WireOrder(c)[i] in src.tables
      {
        WireKeyStored(c, src.tables, i);
      }
      LookupsAt(bytes, off, src.tables, c.altWritable, c.altReadonly, WireOrder(c));
    } else {
      LookupCountsAt(bytes, off, src, c.altWritable, c.altReadonly, WireOrder(c));
    }
  }

  lemma FactsCover(c: Compiled)
    requires OrderFacts(c)
    ensures Covered(c.altWritable) && Covered(c.altReadonly)
  {
  }

  lemma BodyBack(bytes: seq<byte>, c: Compiled, ixs: seq<Instruction>, src: Source, blockhash: string)
    requires |ixs| <= CompactU16.MAX_VALUE && c.numRequired <= |c.staticAccounts|
    requires forall i :: 0 <= i < |ixs| ==> Readable(c.indexOf, ixs[i], |c.staticAccounts|)
    requires OrderFacts(c) && Holds(c, src) && NarrowAlts(c.altWritable) && NarrowAlts(c.altReadonly)
    requires |c.altWritable| + |c.altReadonly| <= 256 && |WireOrder(c)| <= 256
    requires var ls := LookupsFor(c.altWritable, c.altReadonly, WireOrder(c));
             var o4 := HeadLength(c);
             var o5 := o4 + |CompactU16.Groups(|ixs|)|;
             var o6 := o5 + |InstructionsNumbers(c.indexOf, ixs)|;
             var o7 := o6 + |CompactU16.Groups(|ls|)|;
             && At(bytes, o4, CompactU16.Groups(|ixs|))
             && At(bytes, o5, InstructionsNumbers(c.indexOf, ixs))
             && At(bytes, o6, CompactU16.Groups(|ls|))
             && At(bytes, o7, LookupsNumbers(ls))
             && |bytes| == o7 + |LookupsNumbers(ls)|
    ensures var head := HeadOf(c, blockhash, HeadLength(c));
            ReadBody(bytes, head, src) ==
            match ReadBack(c, ixs, src)
            case Ok(out) => Ok(Decompiled(out, head.keys, head.keys[..c.numRequired], blockhash))
            case Err(e) => Err(e)
  {
    hide HeadLength, InstructionsNumbers, LookupsNumbers, CompactU16.Groups, ReadRaws, ReadLookups, TableOrder,
         Readable, Regroup, ResolveRaws, LookupsFor, RawOf, Looked, NarrowAlts, OrderFacts, Holds, At, ReadCompact;
    FactsCover(c);
    var ks := WireOrder(c);
    var ls := LookupsFor(c.altWritable, c.altReadonly, ks);
    var o4 := HeadLength(c);
    var o5 := o4 + |CompactU16.Groups(|ixs|)|;
    var o6 := o5 + |InstructionsNumbers(c.indexOf, ixs)|;
    var o7 := o6 + |CompactU16.Groups(|ls|)|;
    CompactAt(bytes, o4, |ixs|);
    RawsAt(bytes, o5, c.indexOf, ixs, |c.staticAccounts|);
    CompactAt(bytes, o6, |ls|);
    LookupsBack(bytes, o7, c, src);
    ReadablePrograms(c.indexOf, ixs, |c.staticAccounts|);
  }

  lemma ReadablePrograms(idx: map<Key, nat>, ixs: seq<Instruction>, nKeys: nat)
    requires forall i :: 0 <= i < |ixs| ==> Readable(idx, ixs[i], nKeys)
    ensures forall i :: 0 <= i < |ixs| ==> RawsOf(idx, ixs)[i].program < nKeys
  {
  }

  lemma WireKeyStored(c: Compiled, m: map<Key, seq<Key>>, i: nat)
    requires OrderFacts(c) && AllStored(m, c.altWritable) && AllStored(m, c.altReadonly) && i < |WireOrder(c)|
    ensures WireOrder(c)[i] in m
  {
    hide TableOrder;
    var all := c.altWritable + c.altReadonly;
    TableOrderFacts(all);
    assert WireOrder(c)[i] in TableOrder(all);
    var j :| 0 <= j < |all| && all[j].alt.value.key == WireOrder(c)[i];
    assert Stored(m, if j < |c.altWritable| then c.altWritable[j] else c.altReadonly[j - |c.altWritable|]);
  }

  /** A table account was found in a table the reader is given. */
  lemma CompiledStored(payer: Key, ixs: seq<Instruction>, tables: seq<Table>, m: map<Key, seq<Key>>)
    requires Fits(Compile(payer, ixs, tables), ixs) && Agrees(m, tables)
    ensures var c := Compile(payer, ixs, tables); AllStored(m, c.altWritable) && AllStored(m, c.altReadonly)
  {
    hide Compile, InfoOf;
    var c := Compile(payer, ixs, tables);
    CompileWellLaidOut(payer, ixs, tables);
    forall i | |c.staticAccounts| <= i < |c.Order()|
      ensures Stored(m, c.Order()[i])
    {
      TableAccount(payer, ixs, tables, i);
      FindAltStored(tables, c.Order()[i].pubkey, m);
    }
    assert forall i :: 0 <= i < |c.altWritable| ==> c.altWritable[i] == c.Order()[|c.staticAccounts| + i];
    assert forall i :: 0 <= i < |c.altReadonly| ==>
             c.altReadonly[i] == c.Order()[|c.staticAccounts| + |c.altWritable| + i];
  }

  /** A table account is neither a signer nor an invoked program, and carries the first table match of its key. */
  lemma TableAccount(payer: Key, ixs: seq<Instruction>, tables: seq<Table>, i: nat)
    requires var c := Compile(payer, ixs, tables); |c.staticAccounts| <= i < |c.Order()|
    ensures var a := Compile(payer, ixs, tables).Order()[i];
            && a.alt.Some? && a.alt == FindAlt(tables, a.pubkey)
            && !SignerIn(Mentions(payer, ixs), a.pubkey) && !Invoked(ixs, a.pubkey)
            && a.pubkey in FirstSeen(Mentions(payer, ixs))
  {
    hide Compile;
    CompileWellLaidOut(payer, ixs, tables);
    var c := Compile(payer, ixs, tables);
    var a := c.Order()[i];
    assert a == if i < |c.staticAccounts| + |c.altWritable| then c.altWritable[i - |c.staticAccounts|]
                else c.altReadonly[i - |c.staticAccounts| - |c.altWritable|];
    assert a in Infos(payer, ixs, tables);
    var ks := FirstSeen(Mentions(payer, ixs));
    var p :| 0 <= p < |ks| && Infos(payer, ixs, tables)[p] == a;
    assert ks[p] == a.pubkey;
  }

  /** The message parses whatever the table order and wherever table accounts come from; only their list may differ. */
  lemma DecompileBack(payer: Key, ixs: seq<Instruction>, tables: seq<Table>, blockhash: string, src: Source)
    requires Fits(Compile(payer, ixs, tables), ixs) && BlockhashOk(blockhash)
    requires src.FromTables? ==> Agrees(src.tables, tables)
    ensures Compilable(payer, ixs, tables, blockhash)
    ensures var c := Compile(payer, ixs, tables);
            && (forall i :: 0 <= i < |ixs| ==> Readable(c.indexOf, ixs[i], |c.staticAccounts|))
            && c.numRequired <= |c.staticAccounts|
            && Decompile(MessageOf(payer, ixs, tables, blockhash), src) ==
               match ReadBack(c, ixs, src)
               case Ok(out) => Ok(Decompiled(out, Keys(c.staticAccounts), SignerKeys(payer, ixs, tables), blockhash))
               case Err(e) => Err(e)
  {
    hide Compile, ReadHead, ReadBody, ReadBack, Readable, Encodable, Base58.DecodeSpec, Base58.EncodeSpec, KeyBytes,
         InstructionsNumbers, LookupsNumbers, CompactU16.Groups, At, TableOrder, LookupsFor;
    var c := Compile(payer, ixs, tables);
    var hash := Base58.DecodeSpec(blockhash);
    FitsEncodable(payer, ixs, tables);
    MessageNotTruncated(payer, ixs, tables, hash);
    CompileWellLaidOut(payer, ixs, tables);
    if src.FromTables? {
      CompiledStored(payer, ixs, tables, src.tables);
    }
    WireOrderFacts(c);
    forall i | 0 <= i < |ixs|
      ensures Readable(c.indexOf, ixs[i], |c.staticAccounts|)
    {
      InstructionReadable(payer, ixs, tables, i);
    }
    var bytes := MessageOf(payer, ixs, tables, blockhash);
    var ls := Lookups(c.altWritable, c.altReadonly);
    LookupsForAll(c.altWritable, c.altReadonly, WireOrder(c));
    MessageSections(bytes, HeaderNumbers(c), CompactU16.Groups(|c.staticAccounts|), KeyBytes(Keys(c.staticAccounts)),
                    hash, CompactU16.Groups(|ixs|), InstructionsNumbers(c.indexOf, ixs),
                    CompactU16.Groups(|ls|), LookupsNumbers(ls));
    HeadBack(bytes, c, hash);
    Base58.EncodeDecode(blockhash);
    BodyBack(bytes, c, ixs, src, blockhash);
    assert Keys(c.staticAccounts)[..c.numRequired] == Keys(c.staticAccounts[..c.numRequired]);
  }

  // ---- What the resolved instructions mean ----

  /** The transaction with every mention's flags replaced by the OR over all mentions of its key. */
  ghost function Escalated(payer: Key, ixs: seq<Instruction>): (out: seq<Instruction>)
    ensures |out| == |ixs|
    ensures forall n :: 0 <= n < |ixs| ==>
              && out[n].programId == ixs[n].programId && out[n].data == ixs[n].data
              && |out[n].keys| == |ixs[n].keys|
              && forall j :: 0 <= j < |ixs[n].keys| ==>
                   out[n].keys[j] == EscalatedMeta(payer, ixs, ixs[n].keys[j].pubkey)
  {
    seq(|ixs|, n requires 0 <= n < |ixs| =>
      Instruction(ixs[n].programId,
                  seq(|ixs[n].keys|, j requires 0 <= j < |ixs[n].keys| =>
                    EscalatedMeta(payer, ixs, ixs[n].keys[j].pubkey)),
                  ixs[n].data))
  }

  ghost function EscalatedMeta(payer: Key, ixs: seq<Instruction>, k: Key): AccountMeta {
    AccountMeta(k, SignerIn(Mentions(payer, ixs), k), WritableIn(Mentions(payer, ixs), k))
  }

  /** The account list a reader with tables resolves indexes against. */
  ghost function ReaderList(c: Compiled): seq<Key>
    requires Covered(c.altWritable) && Covered(c.altReadonly)
  {
    Keys(c.staticAccounts) + Keys(Regroup(c.altWritable, WireOrder(c))) + Keys(Regroup(c.altReadonly, WireOrder(c)))
  }

  lemma ReaderListLength(c: Compiled)
    requires Covered(c.altWritable) && Covered(c.altReadonly)
    ensures |ReaderList(c)| == |c.Order()|
    ensures |Regroup(c.altWritable, WireOrder(c))| == |c.altWritable|
    ensures |Regroup(c.altReadonly, WireOrder(c))| == |c.altReadonly|
  {
    WireOrderFacts(c);
    RegroupLength(c.altWritable, WireOrder(c));
    RegroupLength(c.altReadonly, WireOrder(c));
  }

  /** One instruction as read: program, data and flags are always right; keys are those of the reader's list. */
  ghost predicate ReadsAs(payer: Key, ixs: seq<Instruction>, c: Compiled, list: seq<Key>, ix: Instruction,
                          out: Instruction)
  {
    && out.programId == ix.programId && out.data == ix.data && |out.keys| == |ix.keys|
    && forall j :: 0 <= j < |ix.keys| ==>
         && ix.keys[j].pubkey in c.indexOf
         && c.indexOf[ix.keys[j].pubkey] < |list|
         && var k := ix.keys[j].pubkey;
            out.keys[j] == EscalatedMeta(payer, ixs, k).(pubkey := list[c.indexOf[k]])
  }

  lemma ReadBackOne(payer: Key, ixs: seq<Instruction>, tables: seq<Table>, list: seq<Key>, n: nat)
    requires Fits(Compile(payer, ixs, tables), ixs) && n < |ixs|
    requires |list| == |Compile(payer, ixs, tables).Order()|
    ensures var c := Compile(payer, ixs, tables);
            && RawOf(c.indexOf, ixs[n]).program < |c.staticAccounts|
            && AllBelow(RawOf(c.indexOf, ixs[n]).accounts, |list|)
            && ReadsAs(payer, ixs, c, list, ixs[n],
                 ResolveRaw(Header(c.numRequired, c.numReadonlySigned, c.numReadonlyUnsigned), Keys(c.staticAccounts),
                            |c.altWritable|, list, RawOf(c.indexOf, ixs[n])))
  {
    hide Compile, SignerIn, WritableIn, Mentions, MetaAt, EscalatedMeta, ToU8Array, Regroup, FindAlt;
    var c := Compile(payer, ixs, tables);
    var ix := ixs[n];
    InstructionReadable(payer, ixs, tables, n);
    InstructionSlots(payer, ixs, tables, n, 0);
    assert Invoked(ixs, ix.programId);
    assert c.staticAccounts[c.indexOf[ix.programId]] == c.Order()[c.indexOf[ix.programId]];
    forall j | 0 <= j < |ix.keys|
      ensures RawOf(c.indexOf, ix).accounts[j] == Slot(c.indexOf, ix.keys[j].pubkey)
      ensures KeyReadsAs(payer, ixs, c, list, ix.keys[j].pubkey)
    {
      KeySlot(payer, ixs, tables, n, j);
      SlotMeta(payer, ixs, tables, list, ix.keys[j].pubkey);
    }
  }

  /** The slot of one key: known, in range, and read with the escalated flags. */
  ghost predicate KeyReadsAs(payer: Key, ixs: seq<Instruction>, c: Compiled, list: seq<Key>, k: Key) {
    && k in c.indexOf && c.indexOf[k] < |list|
    && MetaAt(Header(c.numRequired, c.numReadonlySigned, c.numReadonlyUnsigned), |c.staticAccounts|,
              |c.altWritable|, list, c.indexOf[k])
       == EscalatedMeta(payer, ixs, k).(pubkey := list[c.indexOf[k]])
  }

  lemma KeySlot(payer: Key, ixs: seq<Instruction>, tables: seq<Table>, n: nat, j: nat)
    requires Fits(Compile(payer, ixs, tables), ixs) && n < |ixs| && j < |ixs[n].keys|
    ensures var c := Compile(payer, ixs, tables);
            && SlotOk(payer, ixs, tables, ixs[n].keys[j].pubkey)
            && RawOf(c.indexOf, ixs[n]).accounts[j] == Slot(c.indexOf, ixs[n].keys[j].pubkey)
  {
    hide Compile, SignerIn, WritableIn, Mentions;
    InstructionSlots(payer, ixs, tables, n, j + 1);
  }

  lemma SlotMeta(payer: Key, ixs: seq<Instruction>, tables: seq<Table>, list: seq<Key>, k: Key)
    requires |list| == |Compile(payer, ixs, tables).Order()|
    requires SlotOk(payer, ixs, tables, k)
    ensures KeyReadsAs(payer, ixs, Compile(payer, ixs, tables), list, k)
  {
    hide Compile, SignerIn, WritableIn, Mentions;
  }
}
