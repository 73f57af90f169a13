/** Main results about the transaction compiler and its reader. */
module TxTheorems {
  import opened Wrappers
  import opened Bytes
  import opened Slices
  import opened TxTypes
  import opened TxCompile
  import opened TxLayout
  import opened TxMessage
  import opened TxAssemble
  import opened TxReader
  import opened TxRoundTrip
  import opened TxMeaning
  import CompactU16
  import Base58

  /** Both table-account classes come out grouped by table, in the wire's table order. */
  ghost predicate GroupedByTable(c: Compiled) {
    && Covered(c.altWritable) && Covered(c.altReadonly)
    && Grouped(c.altWritable, WireOrder(c)) && Grouped(c.altReadonly, WireOrder(c))
  }

  /** Programs, data and escalated flags, with the account keys left open. */
  ghost predicate SameUpToKeys(a: seq<Instruction>, b: seq<Instruction>) {
    |a| == |b| && forall n :: 0 <= n < |a| ==> SameShape(a[n], b[n])
  }

  ghost predicate SameShape(a: Instruction, b: Instruction) {
    && a.programId == b.programId && a.data == b.data && |a.keys| == |b.keys|
    && forall j :: 0 <= j < |a.keys| ==>
         a.keys[j].isSigner == b.keys[j].isSigner && a.keys[j].isWritable == b.keys[j].isWritable
  }

  /** The instructions the reader resolves against the table accounts `w` and `r`, element by element. */
  lemma ReadBackAll(payer: Key, ixs: seq<Instruction>, tables: seq<Table>, src: Source, w: seq<Key>, r: seq<Key>)
    requires Fits(Compile(payer, ixs, tables), ixs)
    requires var c := Compile(payer, ixs, tables);
             Loaded(src, Looked(c, src)) == Ok((w, r)) && |w| == |c.altWritable| && |r| == |c.altReadonly|
    ensures var c := Compile(payer, ixs, tables);
            && (forall i :: 0 <= i < |ixs| ==> Readable(c.indexOf, ixs[i], |c.staticAccounts|))
            && ReadBack(c, ixs, src).Ok?
            && |ReadBack(c, ixs, src).value| == |ixs|
            && forall n :: 0 <= n < |ixs| ==>
                 ReadsAs(payer, ixs, c, Keys(c.staticAccounts) + w + r, ixs[n], ReadBack(c, ixs, src).value[n])
  {
    hide Compile, Readable, ReadsAs, RawOf, Regroup, TableOrder, ResolveRaw, Looked, Loaded;
    var c := Compile(payer, ixs, tables);
    var list := Keys(c.staticAccounts) + w + r;
    forall n | 0 <= n < |ixs|
      ensures Readable(c.indexOf, ixs[n], |c.staticAccounts|)
    {
      InstructionReadable(payer, ixs, tables, n);
    }
    forall n | 0 <= n < |ixs|
      ensures RawOf(c.indexOf, ixs[n]).program < |c.staticAccounts|
      ensures AllBelow(RawOf(c.indexOf, ixs[n]).accounts, |list|)
      ensures ReadsAs(payer, ixs, c, list, ixs[n],
                ResolveRaw(Header(c.numRequired, c.numReadonlySigned, c.numReadonlyUnsigned), Keys(c.staticAccounts),
                           |c.altWritable|, list, RawOf(c.indexOf, ixs[n])))
    {
      ReadBackOne(payer, ixs, tables, list, n);
    }
  }

  lemma ReadsAsShape(payer: Key, ixs: seq<Instruction>, c: Compiled, list: seq<Key>, n: nat, out: Instruction)
    requires n < |ixs| && ReadsAs(payer, ixs, c, list, ixs[n], out)
    ensures SameShape(out, Escalated(payer, ixs)[n])
  {
  }

  /** Reading regroups the table accounts; when they already are grouped, that changes nothing. */
  lemma GroupedReaderList(c: Compiled)
    requires GroupedByTable(c)
    ensures Regroup(c.altWritable, WireOrder(c)) == c.altWritable
    ensures Regroup(c.altReadonly, WireOrder(c)) == c.altReadonly
  {
    hide TableOrder, Grouped, Regroup;
    WireOrderFacts(c);
    RegroupIff(c.altWritable, WireOrder(c));
    RegroupIff(c.altReadonly, WireOrder(c));
  }

  lemma DistinctPart(accs: seq<AccountInfo>, from: nat, to: nat)
    requires DistinctKeys(accs) && from <= to <= |accs|
    ensures DistinctKeys(accs[from..to])
  {
    var part := accs[from..to];
    forall i, j | 0 <= i < j < |part|
      ensures part[i].pubkey != part[j].pubkey
    {
      assert part[i] == accs[from + i] && part[j] == accs[from + j];
    }
  }

  /** The converse: the same keys after regrouping means both classes are grouped. */
  lemma SameListGrouped(c: Compiled)
    requires WellLaidOut(c) && Covered(c.altWritable) && Covered(c.altReadonly)
    requires Keys(Regroup(c.altWritable, WireOrder(c))) == Keys(c.altWritable)
    requires Keys(Regroup(c.altReadonly, WireOrder(c))) == Keys(c.altReadonly)
    ensures GroupedByTable(c)
  {
    hide TableOrder, Grouped, Regroup, SlotWritable, TxLayout.SlotSigner;
    WireOrderFacts(c);
    ReaderListLength(c);
    var n, w := |c.staticAccounts|, |c.altWritable|;
    var rw, rr := Regroup(c.altWritable, WireOrder(c)), Regroup(c.altReadonly, WireOrder(c));
    forall i | 0 <= i < w
      ensures rw[i].pubkey == c.altWritable[i].pubkey
    {
      assert Keys(rw)[i] == Keys(c.altWritable)[i];
    }
    forall i | 0 <= i < |c.altReadonly|
      ensures rr[i].pubkey == c.altReadonly[i].pubkey
    {
      assert Keys(rr)[i] == Keys(c.altReadonly)[i];
    }
    assert c.Order()[n..n + w] == c.altWritable && c.Order()[n + w..|c.Order()|] == c.altReadonly;
    DistinctPart(c.Order(), n, n + w);
    DistinctPart(c.Order(), n + w, |c.Order()|);
    RegroupMembers(c.altWritable, WireOrder(c));
    RegroupMembers(c.altReadonly, WireOrder(c));
    SameKeysSameAccounts(rw, c.altWritable);
    SameKeysSameAccounts(rr, c.altReadonly);
    RegroupIff(c.altWritable, WireOrder(c));
    RegroupIff(c.altReadonly, WireOrder(c));
  }

  lemma SameKeysSameAccounts(a: seq<AccountInfo>, b: seq<AccountInfo>)
    requires |a| == |b| && DistinctKeys(b)
    requires forall i :: 0 <= i < |a| ==> a[i] in b && a[i].pubkey == b[i].pubkey
    ensures a == b
  {
    forall i | 0 <= i < |a|
      ensures a[i] == b[i]
    {
      var j :| 0 <= j < |b| && b[j] == a[i];
    }
  }

  /** Every table account is an account (not the payer, not a program) of some instruction. */
  lemma {:induction false} MentionLocated(ixs: seq<Instruction>, i: nat) returns (n: nat, j: nat)
    requires i < |MentionsOf(ixs)|
    ensures n < |ixs| && j <= |ixs[n].keys|
    ensures MentionsOf(ixs)[i] == if j == 0 then AccountMeta(ixs[n].programId, false, false) else ixs[n].keys[j - 1]
    decreases |ixs|
  {
    var head := [AccountMeta(ixs[0].programId, false, false)] + ixs[0].keys;
    if i < |head| {
      n, j := 0, i;
    } else {
      n, j := MentionLocated(ixs[1..], i - |head|);
      n := n + 1;
    }
  }

  lemma TableAccountLocated(payer: Key, ixs: seq<Instruction>, tables: seq<Table>, p: nat) returns (n: nat, j: nat)
    requires var c := Compile(payer, ixs, tables); |c.staticAccounts| <= p < |c.Order()|
    ensures n < |ixs| && j < |ixs[n].keys|
    ensures ixs[n].keys[j].pubkey == Compile(payer, ixs, tables).Order()[p].pubkey
  {
    hide Compile, MentionsOf;
    var k := Compile(payer, ixs, tables).Order()[p].pubkey;
    TableAccount(payer, ixs, tables, p);
    var ms := Mentions(payer, ixs);
    FirstSeenDistinct(ms);
    var i :| 0 <= i < |ms| && ms[i].pubkey == k;
    assert ms[0] == AccountMeta(payer, true, true);
    n, j := MentionLocated(ixs, i - 1);
    j := j - 1;
  }

  /** If the keys come back right, the reader's list is the compiler's. */
  lemma KeysRightListRight(payer: Key, ixs: seq<Instruction>, tables: seq<Table>, w: seq<Key>, r: seq<Key>,
                           out: seq<Instruction>)
    requires var c := Compile(payer, ixs, tables); |w| == |c.altWritable| && |r| == |c.altReadonly|
    requires |out| == |ixs|
    requires var c := Compile(payer, ixs, tables);
             forall n :: 0 <= n < |ixs| ==>
               ReadsAs(payer, ixs, c, Keys(c.staticAccounts) + w + r, ixs[n], out[n])
    requires forall n, j :: 0 <= n < |ixs| && 0 <= j < |ixs[n].keys| && j < |out[n].keys| ==>
               out[n].keys[j].pubkey == ixs[n].keys[j].pubkey
    ensures var c := Compile(payer, ixs, tables); w == Keys(c.altWritable) && r == Keys(c.altReadonly)
  {
    hide Compile, SlotWritable, TxLayout.SlotSigner, SignerIn, WritableIn;
    var c := Compile(payer, ixs, tables);
    var list := Keys(c.staticAccounts) + w + r;
    forall p | |c.staticAccounts| <= p < |c.Order()|
      ensures list[p] == c.Order()[p].pubkey
    {
      SlotRight(payer, ixs, tables, list, out, p);
    }
    SamePartsFrom(c, list, w, r);
  }

  lemma SlotRight(payer: Key, ixs: seq<Instruction>, tables: seq<Table>, list: seq<Key>, out: seq<Instruction>, p: nat)
    requires var c := Compile(payer, ixs, tables); |list| == |c.Order()| && |c.staticAccounts| <= p < |c.Order()|
    requires |out| == |ixs|
    requires forall n :: 0 <= n < |ixs| ==> ReadsAs(payer, ixs, Compile(payer, ixs, tables), list, ixs[n], out[n])
    requires forall n, j :: 0 <= n < |ixs| && 0 <= j < |ixs[n].keys| && j < |out[n].keys| ==>
               out[n].keys[j].pubkey == ixs[n].keys[j].pubkey
    ensures list[p] == Compile(payer, ixs, tables).Order()[p].pubkey
  {
    hide Compile, SlotWritable, TxLayout.SlotSigner, SignerIn, WritableIn;
    var c := Compile(payer, ixs, tables);
    CompileWellLaidOut(payer, ixs, tables);
    var n, j := TableAccountLocated(payer, ixs, tables, p);
    assert ReadsAs(payer, ixs, c, list, ixs[n], out[n]);
    assert out[n].keys[j].pubkey == ixs[n].keys[j].pubkey;
    assert c.indexOf[ixs[n].keys[j].pubkey] == p;
  }

  lemma SamePartsFrom(c: Compiled, list: seq<Key>, w: seq<Key>, r: seq<Key>)
    requires |w| == |c.altWritable| && |r| == |c.altReadonly| && list == Keys(c.staticAccounts) + w + r
    requires forall p :: |c.staticAccounts| <= p < |c.Order()| ==> list[p] == c.Order()[p].pubkey
    ensures w == Keys(c.altWritable) && r == Keys(c.altReadonly)
  {
    var k := |c.staticAccounts|;
    forall i | 0 <= i < |w|
      ensures w[i] == c.altWritable[i].pubkey
    {
      assert list[k + i] == w[i] && c.Order()[k + i] == c.altWritable[i];
    }
    forall i | 0 <= i < |r|
      ensures r[i] == c.altReadonly[i].pubkey
    {
      assert list[k + |w| + i] == r[i] && c.Order()[k + |w| + i] == c.altReadonly[i];
    }
    assert w == Keys(c.altWritable) && r == Keys(c.altReadonly);
  }

  lemma ListRightKeysRight(payer: Key, ixs: seq<Instruction>, tables: seq<Table>, n: nat, out: Instruction)
    requires n < |ixs|
    requires var c := Compile(payer, ixs, tables); ReadsAs(payer, ixs, c, Keys(c.Order()), ixs[n], out)
    ensures out == Escalated(payer, ixs)[n]
  {
    hide Compile, SlotWritable, TxLayout.SlotSigner, SignerIn, WritableIn;
    forall j | 0 <= j < |ixs[n].keys|
      ensures out.keys[j] == EscalatedMeta(payer, ixs, ixs[n].keys[j].pubkey)
    {
      InstructionSlots(payer, ixs, tables, n, j + 1);
    }
    assert out.keys == Escalated(payer, ixs)[n].keys;
  }

  /**
   * Reading a compiled message against any table accounts, found or given: programs, data, blockhash, signers and
   * escalated flags are right, and the keys are if and only if those accounts are the compiler's in its own order.
   */
  lemma DecompileAgainst(payer: Key, ixs: seq<Instruction>, tables: seq<Table>, blockhash: string, src: Source,
                         w: seq<Key>, r: seq<Key>)
    requires Fits(Compile(payer, ixs, tables), ixs) && BlockhashOk(blockhash)
    requires src.FromTables? ==> Agrees(src.tables, tables)
    requires var c := Compile(payer, ixs, tables);
             Loaded(src, Looked(c, src)) == Ok((w, r)) && |w| == |c.altWritable| && |r| == |c.altReadonly|
    ensures Compilable(payer, ixs, tables, blockhash)
    ensures var c := Compile(payer, ixs, tables);
            var d := Decompile(MessageOf(payer, ixs, tables, blockhash), src);
            && d.Ok?
            && d.value.accountKeys == Keys(c.staticAccounts)
            && d.value.signers == SignerKeys(payer, ixs, tables)
            && d.value.recentBlockhash == blockhash
            && SameUpToKeys(d.value.instructions, Escalated(payer, ixs))
            && (d.value.instructions == Escalated(payer, ixs) <==> w == Keys(c.altWritable) && r == Keys(c.altReadonly))
  {
    hide Compile, Decompile, Fits, ReadBack, ReadsAs, Compilable, MessageOf, SameShape, Readable, Looked, Loaded;
    var c := Compile(payer, ixs, tables);
    var list := Keys(c.staticAccounts) + w + r;
    FitsCovered(c, ixs);
    DecompileBack(payer, ixs, tables, blockhash, src);
    ReadBackAll(payer, ixs, tables, src, w, r);
    var out := ReadBack(c, ixs, src).value;
    forall n | 0 <= n < |ixs|
      ensures SameShape(out[n], Escalated(payer, ixs)[n])
    {
      ReadsAsShape(payer, ixs, c, list, n, out[n]);
    }
    if w == Keys(c.altWritable) && r == Keys(c.altReadonly) {
      assert list == Keys(c.Order());
      forall n | 0 <= n < |ixs|
        ensures out[n] == Escalated(payer, ixs)[n]
      {
        ListRightKeysRight(payer, ixs, tables, n, out[n]);
      }
    }
    if out == Escalated(payer, ixs) {
      KeysRightListRight(payer, ixs, tables, w, r, out);
    }
  }

  /**
   * Compile, then decompile. Whatever the tables, the whole message is consumed and programs, data, blockhash,
   * signers and escalated flags come back; the account keys come back too if and only if the accounts that moved
   * into tables were discovered grouped by table.
   */
  lemma CompileDecompile(payer: Key, ixs: seq<Instruction>, tables: seq<Table>, blockhash: string,
                         m: map<Key, seq<Key>>)
    requires Fits(Compile(payer, ixs, tables), ixs) && BlockhashOk(blockhash) && Agrees(m, tables)
    ensures Compilable(payer, ixs, tables, blockhash)
    ensures var c := Compile(payer, ixs, tables);
            var d := Decompile(MessageOf(payer, ixs, tables, blockhash), FromTables(m));
            && d.Ok?
            && d.value.accountKeys == Keys(c.staticAccounts)
            && d.value.signers == SignerKeys(payer, ixs, tables)
            && d.value.recentBlockhash == blockhash
            && SameUpToKeys(d.value.instructions, Escalated(payer, ixs))
            && (d.value.instructions == Escalated(payer, ixs) <==> GroupedByTable(c))
  {
    hide Compile, Decompile, Fits, GroupedByTable, Compilable, MessageOf, SameUpToKeys, Regroup, TableOrder;
    var c := Compile(payer, ixs, tables);
    FitsCovered(c, ixs);
    ReaderListLength(c);
    CompileWellLaidOut(payer, ixs, tables);
    var w, r := Keys(Regroup(c.altWritable, WireOrder(c))), Keys(Regroup(c.altReadonly, WireOrder(c)));
    DecompileAgainst(payer, ixs, tables, blockhash, FromTables(m), w, r);
    if GroupedByTable(c) {
      GroupedReaderList(c);
    }
    if w == Keys(c.altWritable) && r == Keys(c.altReadonly) {
      SameListGrouped(c);
    }
  }

  /**
   * The same with the table accounts given to the reader instead of the tables, as a transaction's metadata lists them:
   * it accepts exactly lists of the right lengths, and given the compiler's own lists it returns the very instructions,
   * whatever order the tables are in.
   */
  lemma PreloadedDecompile(payer: Key, ixs: seq<Instruction>, tables: seq<Table>, blockhash: string,
                           w: seq<Key>, r: seq<Key>)
    requires Fits(Compile(payer, ixs, tables), ixs) && BlockhashOk(blockhash)
    ensures Compilable(payer, ixs, tables, blockhash)
    ensures var c := Compile(payer, ixs, tables);
            var d := Decompile(MessageOf(payer, ixs, tables, blockhash), Preloaded(w, r));
            && (d.Ok? <==> |w| == |c.altWritable| && |r| == |c.altReadonly|)
            && (d.Ok? ==> SameUpToKeys(d.value.instructions, Escalated(payer, ixs)))
            && (d.Ok? && d.value.instructions == Escalated(payer, ixs)
                <==> w == Keys(c.altWritable) && r == Keys(c.altReadonly))
  {
    hide Compile, Decompile, Fits, Compilable, MessageOf, SameUpToKeys, Regroup, TableOrder;
    var c := Compile(payer, ixs, tables);
    FitsCovered(c, ixs);
    ReaderListLength(c);
    DecompileBack(payer, ixs, tables, blockhash, Preloaded(w, r));
    if |w| == |c.altWritable| && |r| == |c.altReadonly| {
      DecompileAgainst(payer, ixs, tables, blockhash, Preloaded(w, r), w, r);
    }
  }

  /** Zero or one table (all tables share one address): the round trip is unconditional. */
  lemma OneTableGrouped(payer: Key, ixs: seq<Instruction>, tables: seq<Table>)
    requires forall t, u :: 0 <= t < |tables| && 0 <= u < |tables| ==> tables[t].key == tables[u].key
    ensures GroupedByTable(Compile(payer, ixs, tables))
  {
    hide Compile, TableOrder, FindAlt, SlotWritable, TxLayout.SlotSigner, Rank, Grouped, FirstSeen, SignerIn;
    var c := Compile(payer, ixs, tables);
    CompileWellLaidOut(payer, ixs, tables);
    forall i | 0 <= i < |c.altWritable|
      ensures |tables| > 0 && c.altWritable[i].alt.value.key == tables[0].key
    {
      assert c.altWritable[i] == c.Order()[|c.staticAccounts| + i];
      TableAccountKey(payer, ixs, tables, |c.staticAccounts| + i);
    }
    forall i | 0 <= i < |c.altReadonly|
      ensures |tables| > 0 && c.altReadonly[i].alt.value.key == tables[0].key
    {
      assert c.altReadonly[i] == c.Order()[|c.staticAccounts| + |c.altWritable| + i];
      TableAccountKey(payer, ixs, tables, |c.staticAccounts| + |c.altWritable| + i);
    }
    UniformGrouped(c.altWritable, WireOrder(c));
    UniformGrouped(c.altReadonly, WireOrder(c));
  }

  lemma TableAccountKey(payer: Key, ixs: seq<Instruction>, tables: seq<Table>, p: nat)
    requires var c := Compile(payer, ixs, tables); |c.staticAccounts| <= p < |c.Order()|
    ensures var a := Compile(payer, ixs, tables).Order()[p];
            a.alt.Some? && exists t :: 0 <= t < |tables| && tables[t].key == a.alt.value.key
  {
    hide Compile;
    TableAccount(payer, ixs, tables, p);
    FindAltKey(tables, Compile(payer, ixs, tables).Order()[p].pubkey);
  }

  lemma UniformGrouped(accs: seq<AccountInfo>, ks: seq<Key>)
    requires Covered(accs)
    requires forall i, j :: 0 <= i < |accs| && 0 <= j < |accs| ==> accs[i].alt.value.key == accs[j].alt.value.key
    ensures Grouped(accs, ks)
  {
  }

  lemma {:induction false} FindAltKey(tables: seq<Table>, k: Key)
    requires FindAlt(tables, k).Some?
    ensures exists t :: 0 <= t < |tables| && tables[t].key == FindAlt(tables, k).value.key
  {
    if IndexFrom(tables[0].addresses, k, 0) < 0 {
      FindAltKey(tables[1..], k);
      var t :| 0 <= t < |tables[1..]| && tables[1..][t].key == FindAlt(tables[1..], k).value.key;
      assert tables[t + 1].key == FindAlt(tables, k).value.key;
    } else {
      assert tables[0].key == FindAlt(tables, k).value.key;
    }
  }

  // ---- The condition is needed ----

  function SampleKey(n: byte): Key {
    seq(32, _ => n)
  }

  /** One instruction that writes accounts 1, 2, 3 of program 9; table 7 holds 1 and 3, table 8 holds 2. */
  function SampleInstructions(): seq<Instruction> {
    [Instruction(SampleKey(9),
                 [AccountMeta(SampleKey(1), false, true), AccountMeta(SampleKey(2), false, true),
                  AccountMeta(SampleKey(3), false, true)], [])]
  }

  function SampleTables(): seq<Table> {
    [Table(SampleKey(7), [SampleKey(1), SampleKey(3)]), Table(SampleKey(8), [SampleKey(2)])]
  }

  lemma {:induction false} FirstSeenOfDistinct(ms: seq<AccountMeta>)
    requires forall i, j :: 0 <= i < j < |ms| ==> ms[i].pubkey != ms[j].pubkey
    ensures |FirstSeen(ms)| == |ms| && forall i :: 0 <= i < |ms| ==> FirstSeen(ms)[i] == ms[i].pubkey
  {
    if ms != [] {
      FirstSeenOfDistinct(ms[..|ms| - 1]);
    }
  }

  lemma SampleKeysDiffer(a: byte, b: byte)
    requires a != b
    ensures SampleKey(a) != SampleKey(b)
  {
    assert SampleKey(a)[0] != SampleKey(b)[0];
  }

  lemma SampleMentions()
    ensures var ms := Mentions(SampleKey(0), SampleInstructions());
            && ms == [AccountMeta(SampleKey(0), true, true), AccountMeta(SampleKey(9), false, false),
                      AccountMeta(SampleKey(1), false, true), AccountMeta(SampleKey(2), false, true),
                      AccountMeta(SampleKey(3), false, true)]
            && FirstSeen(ms) == [SampleKey(0), SampleKey(9), SampleKey(1), SampleKey(2), SampleKey(3)]
  {
    var ixs := SampleInstructions();
    assert MentionsOf(ixs[1..]) == [];
    var ms := Mentions(SampleKey(0), ixs);
    forall a: byte, b: byte | a != b
      ensures SampleKey(a) != SampleKey(b)
    {
      SampleKeysDiffer(a, b);
    }
    FirstSeenOfDistinct(ms);
  }

  /** Each writable account resolves to the table that holds it. */
  lemma SampleInfo(n: byte)
    requires 1 <= n <= 3
    ensures InfoOf(SampleKey(0), SampleInstructions(), SampleTables(), SampleKey(n)) ==
            AccountInfo(SampleKey(n), false, true,
                        Some(AltRef(SampleKey(if n == 2 then 8 else 7), if n == 3 then 1 else 0)))
  {
    hide FindAlt, FirstSeen, MentionsOf;
    SampleMentions();
    var ms := Mentions(SampleKey(0), SampleInstructions());
    forall a: byte, b: byte | a != b
      ensures SampleKey(a) != SampleKey(b)
    {
      SampleKeysDiffer(a, b);
    }
    assert ms[n + 1] == AccountMeta(SampleKey(n), false, true);
    SampleAlt(n);
  }

  lemma SampleAlt(n: byte)
    requires 1 <= n <= 3
    ensures FindAlt(SampleTables(), SampleKey(n)) ==
            Some(AltRef(SampleKey(if n == 2 then 8 else 7), if n == 3 then 1 else 0))
  {
    SampleKeysDiffer(1, 2);
    SampleKeysDiffer(1, 3);
    SampleKeysDiffer(2, 3);
    var tables := SampleTables();
    assert FindAlt(tables[1..], SampleKey(n)) ==
           if IndexFrom(tables[1].addresses, SampleKey(n), 0) >= 0
           then Some(AltRef(SampleKey(8), IndexFrom(tables[1].addresses, SampleKey(n), 0)))
           else FindAlt(tables[1..][1..], SampleKey(n));
  }

  lemma SamplePayerAndProgram(n: byte)
    requires n == 0 || n == 9
    ensures InfoOf(SampleKey(0), SampleInstructions(), SampleTables(), SampleKey(n)).alt.None?
  {
    SampleMentions();
    var ms := Mentions(SampleKey(0), SampleInstructions());
    assert ms[0] == AccountMeta(SampleKey(0), true, true);
    assert SampleInstructions()[0].programId == SampleKey(9);
  }

  lemma {:induction false} NoTableAccounts(accs: seq<AccountInfo>, c: Class)
    requires c.WritableAlt? || c.ReadonlyAlt?
    requires forall i :: 0 <= i < |accs| ==> ClassOf(accs[i]) != c
    ensures OfClass(accs, c) == []
  {
    if accs != [] {
      NoTableAccounts(accs[1..], c);
    }
  }

  /** The three accounts as the compiler resolves them, all of them writable and in a table. */
  function SampleWritable(): (w: seq<AccountInfo>)
    ensures |w| == 3 && Covered(w) && forall i :: 0 <= i < 3 ==> ClassOf(w[i]) == WritableAlt
  {
    [AccountInfo(SampleKey(1), false, true, Some(AltRef(SampleKey(7), 0))),
     AccountInfo(SampleKey(2), false, true, Some(AltRef(SampleKey(8), 0))),
     AccountInfo(SampleKey(3), false, true, Some(AltRef(SampleKey(7), 1)))]
  }

  lemma SampleOrder()
    ensures var c := Compile(SampleKey(0), SampleInstructions(), SampleTables());
            c.altReadonly == [] && c.altWritable == SampleWritable()
  {
    hide InfoOf, OfClass, ClassOf;
    var accs, w := Infos(SampleKey(0), SampleInstructions(), SampleTables()), SampleWritable();
    SampleInfos();
    assert accs[..2] + w == accs;
    ClassJoin(accs[..2], w, WritableAlt);
    ClassJoin(accs[..2], w, ReadonlyAlt);
    NoTableAccounts(accs[..2], WritableAlt);
    NoTableAccounts(accs, ReadonlyAlt);
    AllTableAccounts(w);
    assert [] + w == w;
  }

  lemma SampleInfos()
    ensures var accs := Infos(SampleKey(0), SampleInstructions(), SampleTables());
            |accs| == 5 && accs[2..] == SampleWritable() && forall i :: 0 <= i < 2 ==> accs[i].alt.None?
    ensures forall i :: 0 <= i < 2 ==>
              !ClassOf(Infos(SampleKey(0), SampleInstructions(), SampleTables())[i]).WritableAlt?
    ensures forall i :: 0 <= i < 5 ==>
              !ClassOf(Infos(SampleKey(0), SampleInstructions(), SampleTables())[i]).ReadonlyAlt?
  {
    hide InfoOf, Mentions, FindAlt, FirstSeen;
    SampleMentions();
    SamplePayerAndProgram(0);
    SamplePayerAndProgram(9);
    SampleInfo(1);
    SampleInfo(2);
    SampleInfo(3);
    var accs := Infos(SampleKey(0), SampleInstructions(), SampleTables());
    assert accs[2..] == [accs[2], accs[3], accs[4]];
  }

  lemma {:induction false} ClassJoin(a: seq<AccountInfo>, b: seq<AccountInfo>, c: Class)
    ensures OfClass(a + b, c) == OfClass(a, c) + OfClass(b, c)
  {
    hide ClassOf;
    if a == [] {
      assert a + b == b;
    } else {
      ClassJoin(a[1..], b, c);
      assert (a + b)[1..] == a[1..] + b && (a + b)[0] == a[0];
      var head := if ClassOf(a[0]) == c then [a[0]] else [];
      assert head + (OfClass(a[1..], c) + OfClass(b, c)) == (head + OfClass(a[1..], c)) + OfClass(b, c);
    }
  }

  lemma {:induction false} AllTableAccounts(accs: seq<AccountInfo>)
    requires forall i :: 0 <= i < |accs| ==> ClassOf(accs[i]) == WritableAlt
    ensures OfClass(accs, WritableAlt) == accs
  {
    if accs != [] {
      AllTableAccounts(accs[1..]);
    }
  }

  /**
   * The wire lists table 7's accounts before table 8's, so the reader's list has accounts 3 and 2 the other way round.
   */
  lemma SampleReaderList(c: Compiled)
    requires c.altWritable == SampleWritable() && c.altReadonly == []
    ensures |ReaderList(c)| == |c.staticAccounts| + 3
    ensures ReaderList(c)[|c.staticAccounts|..] == [SampleKey(1), SampleKey(3), SampleKey(2)]
  {
    hide TableOrder, Regroup;
    var w := c.altWritable;
    assert w + c.altReadonly == w && w == [w[0], w[1], w[2]];
    SampleKeysDiffer(7, 8);
    RegroupInterleaved(w[0], w[1], w[2], SampleKey(7), SampleKey(8));
    OrderInterleaved(w[0], w[1], w[2], SampleKey(7), SampleKey(8));
    RegroupNothing([SampleKey(7), SampleKey(8)]);
  }

  /** Three accounts of which only the middle one is of another table. */
  lemma RegroupInterleaved(a: AccountInfo, b: AccountInfo, c: AccountInfo, k: Key, l: Key)
    requires a.alt.Some? && b.alt.Some? && c.alt.Some?
    requires a.alt.value.key == k && b.alt.value.key == l && c.alt.value.key == k && k != l
    ensures Regroup([a, b, c], [k, l]) == [a, c, b]
  {
    hide CoveredBy;
    CoveredOfThree(a, b, c, k);
    CoveredOfThree(a, b, c, l);
    var ks := [k, l];
    assert ks[1..] == [l] && ks[1..][1..] == [];
    assert Regroup([a, b, c], ks[1..]) == [b] + Regroup([a, b, c], []);
    assert Regroup([a, b, c], ks) == [a, c] + Regroup([a, b, c], ks[1..]);
  }

  lemma CoveredOfThree(a: AccountInfo, b: AccountInfo, c: AccountInfo, x: Key)
    requires a.alt.Some? && b.alt.Some? && c.alt.Some?
    ensures CoveredBy([a, b, c], x)
            == (if a.alt.value.key == x then [a] else []) + (if b.alt.value.key == x then [b] else [])
               + (if c.alt.value.key == x then [c] else [])
  {
    assert [a, b] == [a] + [b] && [a, b, c] == [a, b] + [c] && [a] == [] + [a];
    assert CoveredBy([], x) == [];
    hide CoveredBy;
    CoveredByPush([], a, x);
    CoveredByPush([a], b, x);
    CoveredByPush([a, b], c, x);
  }

  lemma NoTables()
    ensures TableOrder([]) == []
  {
  }

  lemma OrderInterleaved(a: AccountInfo, b: AccountInfo, c: AccountInfo, k: Key, l: Key)
    requires a.alt.Some? && b.alt.Some? && c.alt.Some?
    requires a.alt.value.key == k && b.alt.value.key == l && c.alt.value.key == k && k != l
    ensures TableOrder([a, b, c]) == [k, l]
  {
    hide TableOrder;
    assert [a, b] == [a] + [b] && [a, b, c] == [a, b] + [c] && [a] == [] + [a];
    NoTables();
    TableOrderAppend([], a);
    TableOrderAppend([a], b);
    TableOrderAppend([a, b], c);
  }

  /** Account `n` stands in slot n - 1 behind the static accounts, and keeps its flags. */
  lemma SampleSlot(n: byte)
    requires 1 <= n <= 3
    ensures var c := Compile(SampleKey(0), SampleInstructions(), SampleTables());
            SampleKey(n) in c.indexOf && c.indexOf[SampleKey(n)] == |c.staticAccounts| + n - 1
    ensures EscalatedMeta(SampleKey(0), SampleInstructions(), SampleKey(n)) == AccountMeta(SampleKey(n), false, true)
  {
    hide Compile, SlotWritable, TxLayout.SlotSigner, SignerIn, WritableIn, Mentions, FindAlt;
    var c := Compile(SampleKey(0), SampleInstructions(), SampleTables());
    SampleOrder();
    SampleInfo(n);
    CompileWellLaidOut(SampleKey(0), SampleInstructions(), SampleTables());
    assert c.Order()[|c.staticAccounts| + n - 1] == c.altWritable[n - 1];
  }

  /** The keys that come back, given what the reader resolves indexes against. */
  lemma SampleKeysBack(c: Compiled, out: Instruction)
    requires c == Compile(SampleKey(0), SampleInstructions(), SampleTables())
    requires Covered(c.altWritable) && Covered(c.altReadonly)
    requires ReadsAs(SampleKey(0), SampleInstructions(), c, ReaderList(c), SampleInstructions()[0], out)
    ensures out.keys == [AccountMeta(SampleKey(1), false, true), AccountMeta(SampleKey(3), false, true),
                         AccountMeta(SampleKey(2), false, true)]
  {
    hide Compile, ReaderList, EscalatedMeta;
    SampleOrder();
    SampleReaderList(c);
    var n, list := |c.staticAccounts|, ReaderList(c);
    forall i: nat | i < 3
      ensures out.keys[i] == AccountMeta(list[n..][i], false, true)
    {
      SampleSlot(i + 1);
    }
  }

  /** Two interleaved tables: the message parses, but the second and third account keys come back swapped. */
  lemma InterleavedTablesSwapKeys(blockhash: string)
    requires BlockhashOk(blockhash)
    ensures var payer, ixs, tables := SampleKey(0), SampleInstructions(), SampleTables();
            var m := map[SampleKey(7) := tables[0].addresses, SampleKey(8) := tables[1].addresses];
            && Fits(Compile(payer, ixs, tables), ixs) && Agrees(m, tables)
            && Compilable(payer, ixs, tables, blockhash)
            && var d := Decompile(MessageOf(payer, ixs, tables, blockhash), FromTables(m));
               && d.Ok? && |d.value.instructions| == 1
               && d.value.instructions[0].keys
                  == [ixs[0].keys[0], ixs[0].keys[2], ixs[0].keys[1]]
               && ixs[0].keys[1] != ixs[0].keys[2]
  {
    hide Compile, Decompile, Compilable, MessageOf, Fits, ReadBack, Readable, ReadsAs, Regroup, TableOrder;
    var payer, ixs, tables := SampleKey(0), SampleInstructions(), SampleTables();
    var m := map[SampleKey(7) := tables[0].addresses, SampleKey(8) := tables[1].addresses];
    var c := Compile(payer, ixs, tables);
    SampleKeysDiffer(7, 8);
    SampleKeysDiffer(2, 3);
    SampleOrder();
    SampleFits();
    DecompileBack(payer, ixs, tables, blockhash, FromTables(m));
    ReaderListLength(c);
    ReadBackAll(payer, ixs, tables, FromTables(m), Keys(Regroup(c.altWritable, WireOrder(c))),
                Keys(Regroup(c.altReadonly, WireOrder(c))));
    SampleKeysBack(c, ReadBack(c, ixs, FromTables(m)).value[0]);
  }

  lemma SampleFits()
    ensures Fits(Compile(SampleKey(0), SampleInstructions(), SampleTables()), SampleInstructions())
  {
    hide Compile, SlotWritable, TxLayout.SlotSigner;
    var payer, ixs, tables := SampleKey(0), SampleInstructions(), SampleTables();
    var c := Compile(payer, ixs, tables);
    SampleOrder();
    CompileWellLaidOut(payer, ixs, tables);
    SampleCount();
  }

  lemma SampleCount()
    ensures |Compile(SampleKey(0), SampleInstructions(), SampleTables()).Order()| <= 5
  {
    hide Compile;
    var c := Compile(SampleKey(0), SampleInstructions(), SampleTables());
    CompileWellLaidOut(SampleKey(0), SampleInstructions(), SampleTables());
    SampleMentions();
    DistinctWithin(c.Order(), Infos(SampleKey(0), SampleInstructions(), SampleTables()));
  }

  /** A list without repetition is no longer than a list holding all its elements. */
  lemma {:induction false} DistinctWithin(a: seq<AccountInfo>, b: seq<AccountInfo>)
    requires DistinctKeys(a)
    requires forall i :: 0 <= i < |a| ==> a[i] in b
    ensures |a| <= |b|
    decreases |a|
  {
    if a != [] {
      var last := a[|a| - 1];
      var p :| 0 <= p < |b| && b[p] == last;
      var rest := b[..p] + b[p + 1..];
      forall i | 0 <= i < |a| - 1
        ensures a[i] in rest
      {
        var q :| 0 <= q < |b| && b[q] == a[i];
        assert q != p;
        assert rest[if q < p then q else q - 1] == a[i];
      }
      DistinctWithin(a[..|a| - 1], rest);
    }
  }

  // ---- Wire format ----

  lemma {:induction false} ChunksBack(bytes: seq<byte>, off: nat, sigs: seq<seq<byte>>)
    requires forall i :: 0 <= i < |sigs| ==> |sigs[i]| == TxMessage.SIGNATURE_LENGTH
    requires off + |Flatten(sigs)| <= |bytes| && bytes[off..off + |Flatten(sigs)|] == Flatten(sigs)
    ensures off + TxMessage.SIGNATURE_LENGTH * |sigs| == off + |Flatten(sigs)|
    ensures Chunks(bytes, off, |sigs|) == sigs
    decreases |sigs|
  {
    if sigs != [] {
      var whole := bytes[off..off + |Flatten(sigs)|];
      var n := |sigs[0]|;
      assert bytes[off..off + n] == whole[..n];
      assert bytes[off + n..off + |Flatten(sigs)|] == whole[n..];
      ChunksBack(bytes, off + n, sigs[1..]);
    }
  }

  /**
   * Splitting a wire transaction gives back its signatures and message exactly when there is a message and the
   * count prefix does not start with the v1 marker (129, 257, 385, ... signatures).
   */
  lemma WireRoundTrip(sigs: seq<seq<byte>>, message: seq<byte>)
    requires |sigs| <= CompactU16.MAX_VALUE
    requires forall i :: 0 <= i < |sigs| ==> |sigs[i]| == TxMessage.SIGNATURE_LENGTH
    ensures DecodeTx(WireBytes(sigs, message)) == Ok(DecodedTx(sigs, message))
            <==> message != [] && !(|sigs| >= 128 && |sigs| % 128 == 1)
  {
    var bytes := WireBytes(sigs, message);
    var g := CompactU16.Groups(|sigs|);
    assert bytes[0] == g[0];
    assert g[0] == V1_MARKER <==> |sigs| >= 128 && |sigs| % 128 == 1;
    WireCount(sigs, message);
    assert bytes[|g|..|g| + |Flatten(sigs)|] == Flatten(sigs);
    ChunksBack(bytes, |g|, sigs);
    assert bytes[|g| + |Flatten(sigs)|..] == message;
  }

  lemma WireCount(sigs: seq<seq<byte>>, message: seq<byte>)
    requires |sigs| <= CompactU16.MAX_VALUE
    ensures ReadCompact(WireBytes(sigs, message), 0)
            == Ok(CompactU16.Decoded(|sigs|, |CompactU16.Groups(|sigs|)|))
  {
    var g := CompactU16.Groups(|sigs|);
    CompactU16.RoundTrip(|sigs|, [], Flatten(sigs) + message);
    assert [] + g + (Flatten(sigs) + message) == WireBytes(sigs, message);
  }

  /** The reader lists exactly the compiler's signature slots, payer first. */
  lemma SignersBack(payer: Key, ixs: seq<Instruction>, tables: seq<Table>, blockhash: string)
    requires Fits(Compile(payer, ixs, tables), ixs) && BlockhashOk(blockhash)
    ensures Compilable(payer, ixs, tables, blockhash)
    ensures Signers(MessageOf(payer, ixs, tables, blockhash)) == Ok(SignerKeys(payer, ixs, tables))
    ensures SignerKeys(payer, ixs, tables) != [] && SignerKeys(payer, ixs, tables)[0] == payer
    ensures forall k :: k in SignerKeys(payer, ixs, tables) <==> SignerIn(Mentions(payer, ixs), k)
  {
    hide Compile, KeyBytes, InstructionsNumbers, LookupsNumbers, CompactU16.Groups, At, TableOrder, LookupsFor,
         SignerKeys,
         Encodable, Base58.DecodeSpec, SignerIn, ReadCompact;
    var c := Compile(payer, ixs, tables);
    var hash := Base58.DecodeSpec(blockhash);
    FitsEncodable(payer, ixs, tables);
    MessageNotTruncated(payer, ixs, tables, hash);
    CompileWellLaidOut(payer, ixs, tables);
    var ls := Lookups(c.altWritable, c.altReadonly);
    var bytes := MessageOf(payer, ixs, tables, blockhash);
    MessageSections(bytes, HeaderNumbers(c), CompactU16.Groups(|c.staticAccounts|), KeyBytes(Keys(c.staticAccounts)),
                    hash, CompactU16.Groups(|ixs|), InstructionsNumbers(c.indexOf, ixs),
                    CompactU16.Groups(|ls|), LookupsNumbers(ls));
    SignersOfHead(bytes, c);
    SignerKeysAre(payer, ixs, tables);
  }

  lemma SignersOfHead(bytes: seq<byte>, c: Compiled)
    requires |c.staticAccounts| <= CompactU16.MAX_VALUE && c.numRequired <= |c.staticAccounts|
    requires At(bytes, 0, HeaderNumbers(c))
    requires At(bytes, 4, CompactU16.Groups(|c.staticAccounts|))
    requires At(bytes, 4 + |CompactU16.Groups(|c.staticAccounts|)|, KeyBytes(Keys(c.staticAccounts)))
    ensures Signers(bytes) == Ok(Keys(c.staticAccounts[..c.numRequired]))
  {
    hide KeyBytes, ReadCompact, CompactU16.Groups;
    var hs := HeaderNumbers(c);
    assert bytes[0] == hs[0] && bytes[1] == hs[1];
    CompactAt(bytes, 4, |c.staticAccounts|);
    var at := 4 + |CompactU16.Groups(|c.staticAccounts|)|;
    var mine, others := Keys(c.staticAccounts[..c.numRequired]), Keys(c.staticAccounts[c.numRequired..]);
    assert Keys(c.staticAccounts) == mine + others;
    KeyBytesJoin(mine, others);
    AtSplit(bytes, at, KeyBytes(mine), KeyBytes(others));
    KeysAt(bytes, at, mine);
  }

  lemma SignerKeysAre(payer: Key, ixs: seq<Instruction>, tables: seq<Table>)
    ensures var c := Compile(payer, ixs, tables);
            && c.numRequired <= |c.staticAccounts|
            && SignerKeys(payer, ixs, tables) == Keys(c.staticAccounts[..c.numRequired])
            && SignerKeys(payer, ixs, tables) != [] && SignerKeys(payer, ixs, tables)[0] == payer
    ensures forall k :: k in SignerKeys(payer, ixs, tables) <==> SignerIn(Mentions(payer, ixs), k)
  {
    hide Compile, SignerIn;
    var c := Compile(payer, ixs, tables);
    CompileWellLaidOut(payer, ixs, tables);
    var ks := SignerKeys(payer, ixs, tables);
    assert ks[0] == c.staticAccounts[0].pubkey;
    forall k | k in ks
      ensures SignerIn(Mentions(payer, ixs), k)
    {
      var i :| 0 <= i < |ks| && ks[i] == k;
      assert c.Order()[i] == c.staticAccounts[i];
      assert c.Order()[i] in Infos(payer, ixs, tables);
    }
    forall k | SignerIn(Mentions(payer, ixs), k)
      ensures k in ks
    {
      var i := MentionOfSigner(Mentions(payer, ixs), k);
      MentionKeepsSlot(payer, ixs, tables, i);
      var p := c.indexOf[k];
      assert c.Order()[p] == c.staticAccounts[p];
      assert ks[p] == k;
    }
  }

  lemma MentionOfSigner(ms: seq<AccountMeta>, k: Key) returns (i: nat)
    requires SignerIn(ms, k)
    ensures i < |ms| && ms[i].pubkey == k
  {
    i :| 0 <= i < |ms| && ms[i].pubkey == k && ms[i].isSigner;
  }

  /** The signature is that of the last signer given for the key. */
  ghost predicate SignedByLast(signers: seq<Signer>, k: Key, signature: seq<byte>) {
    exists j: nat :: LastFor(signers, k, j) && signers[j].signature == signature
  }

  lemma SignedBy(signers: seq<Signer>, k: Key)
    requires SignerFor(signers, k).Some?
    ensures SignedByLast(signers, k, SignatureFor(signers, k))
  {
    SignerIs(signers, k);
    var any :| 0 <= any < |signers| && signers[any].address == k;
    var last := SomeLast(signers, k, any);
  }

  /**
   * Reading an assembled transaction: it succeeds exactly when the signers are not 129, a count whose prefix starts
   * with the v1 marker. The reader then gets the message and, slot by slot, the signature of the signer whose key the
   * message lists at that slot, whatever order the signers were given in; the last one, if several have that key.
   */
  lemma AssembledSignaturesMatchSlots(payer: Key, ixs: seq<Instruction>, tables: seq<Table>, blockhash: string,
                                      signers: seq<Signer>)
    requires Fits(Compile(payer, ixs, tables), ixs) && BlockhashOk(blockhash)
    requires AllSigned(SignerKeys(payer, ixs, tables), signers)
    ensures Compilable(payer, ixs, tables, blockhash)
    ensures var message := MessageOf(payer, ixs, tables, blockhash);
            var d := DecodeTx(WireBytes(SignaturesFor(signers, SignerKeys(payer, ixs, tables)), message));
            && Signers(message).Ok?
            && (d.Ok? <==> |SignerKeys(payer, ixs, tables)| != 129)
            && (d.Ok? ==>
                  && d.value.messageBytes == message
                  && |d.value.signatures| == |Signers(message).value|
                  && forall i :: 0 <= i < |Signers(message).value| ==>
                       SignedByLast(signers, Signers(message).value[i], d.value.signatures[i]))
  {
    hide Compile, DecodeTx, Signers, SignerKeys, WireBytes, SignerIn, Mentions, Fits, SignedByLast;
    SignersBack(payer, ixs, tables, blockhash);
    var ks := SignerKeys(payer, ixs, tables);
    var sigs := SignaturesFor(signers, ks);
    var message := MessageOf(payer, ixs, tables, blockhash);
    forall i | 0 <= i < |ks|
      ensures |sigs[i]| == TxMessage.SIGNATURE_LENGTH && SignedByLast(signers, ks[i], sigs[i])
    {
      SignedBy(signers, ks[i]);
    }
    MessageNotEmpty(payer, ixs, tables, blockhash);
    FewSigners(payer, ixs, tables);
    WireRoundTrip(sigs, message);
    if |sigs| == 129 {
      MarkedCount(sigs, message);
    }
  }

  /** Reading an unsigned transaction: the message, and a signature of 64 zero bytes for each of its signers. */
  lemma UnsignedIsBlank(payer: Key, ixs: seq<Instruction>, tables: seq<Table>, blockhash: string)
    requires Fits(Compile(payer, ixs, tables), ixs) && BlockhashOk(blockhash)
    ensures Compilable(payer, ixs, tables, blockhash)
    ensures var message, n := MessageOf(payer, ixs, tables, blockhash), |SignerKeys(payer, ixs, tables)|;
            var d := DecodeTx(WireBytes(seq(n, _ => ZeroSignature()), message));
            && Signers(message).Ok?
            && (d.Ok? <==> n != 129)
            && (d.Ok? ==>
                  && d.value.messageBytes == message
                  && |d.value.signatures| == |Signers(message).value|
                  && forall i :: 0 <= i < |d.value.signatures| ==>
                       |d.value.signatures[i]| == 64
                       && forall j :: 0 <= j < 64 ==> d.value.signatures[i][j] == 0)
  {
    hide Compile, DecodeTx, Signers, SignerKeys, WireBytes, SignerIn, Mentions, Fits;
    SignersBack(payer, ixs, tables, blockhash);
    var sigs := seq(|SignerKeys(payer, ixs, tables)|, _ => ZeroSignature());
    var message := MessageOf(payer, ixs, tables, blockhash);
    MessageNotEmpty(payer, ixs, tables, blockhash);
    FewSigners(payer, ixs, tables);
    WireRoundTrip(sigs, message);
    if |sigs| == 129 {
      MarkedCount(sigs, message);
    }
  }

  lemma FewSigners(payer: Key, ixs: seq<Instruction>, tables: seq<Table>)
    requires Fits(Compile(payer, ixs, tables), ixs)
    ensures |SignerKeys(payer, ixs, tables)| < 256
  {
    hide Compile, SignerIn;
    SignerKeysAre(payer, ixs, tables);
  }

  /** A count prefix that starts with the v1 marker sends the reader to the other format. */
  lemma MarkedCount(sigs: seq<seq<byte>>, message: seq<byte>)
    requires 128 <= |sigs| <= CompactU16.MAX_VALUE && |sigs| % 128 == 1
    ensures DecodeTx(WireBytes(sigs, message)) == Err(V1Format)
  {
    assert WireBytes(sigs, message)[0] == CompactU16.Groups(|sigs|)[0];
  }

  lemma MessageNotEmpty(payer: Key, ixs: seq<Instruction>, tables: seq<Table>, blockhash: string)
    requires Compilable(payer, ixs, tables, blockhash)
    ensures MessageOf(payer, ixs, tables, blockhash) != []
  {
  }
}
