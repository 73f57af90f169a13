/** Compiling a transaction and reading it back: what is preserved, and exactly when. */
module TxRoundTrip {
  import opened Wrappers
  import opened Bytes
  import opened Slices
  import opened TxTypes
  import opened TxCompile
  import opened TxLayout
  import opened TxMessage
  import opened TxAssemble
  import opened TxReader
  import CompactU16

  lemma CompactAt(bytes: seq<byte>, off: nat, n: nat)
    requires n <= CompactU16.MAX_VALUE
    requires At(bytes, off, CompactU16.Groups(n))
    ensures ReadCompact(bytes, off) == Ok(CompactU16.Decoded(n, |CompactU16.Groups(n)|))
  {
    var g := CompactU16.Groups(n);
    AtSlice(bytes, off, g);
    CompactU16.RoundTrip(n, bytes[..off], bytes[off + |g|..]);
    assert bytes == bytes[..off] + g + bytes[off + |g|..];
  }

  lemma ArrayAt(bytes: seq<byte>, off: nat, xs: seq<byte>)
    requires |xs| <= CompactU16.MAX_VALUE
    requires At(bytes, off, CompactArray(xs))
    ensures ReadArray(bytes, off) == Ok((xs, off + |CompactArray(xs)|))
  {
    var g := CompactU16.Groups(|xs|);
    AtSplit(bytes, off, g, xs);
    AtSlice(bytes, off + |g|, xs);
    CompactAt(bytes, off, |xs|);
  }

  lemma {:induction false} KeysAt(bytes: seq<byte>, off: nat, ks: seq<Key>)
    requires At(bytes, off, KeyBytes(ks))
    ensures ReadKeys(bytes, off, |ks|) == ks
    decreases |ks|
  {
    if ks != [] {
      AtSplit(bytes, off, ks[0], KeyBytes(ks[1..]));
      AtSlice(bytes, off, ks[0]);
      KeysAt(bytes, off + 32, ks[1..]);
    }
  }

  lemma {:induction false} KeyBytesJoin(a: seq<Key>, b: seq<Key>)
    ensures KeyBytes(a + b) == KeyBytes(a) + KeyBytes(b)
  {
    if a == [] {
      assert a + b == b;
    } else {
      KeyBytesJoin(a[1..], b);
      assert (a + b)[1..] == a[1..] + b && (a + b)[0] == a[0];
      assert a[0] + (KeyBytes(a[1..]) + KeyBytes(b)) == (a[0] + KeyBytes(a[1..])) + KeyBytes(b);
    }
  }

  // ---- Instructions ----

  /** Every index of the instruction fits its one byte. */
  predicate Narrow(idx: map<Key, nat>, ix: Instruction) {
    Slot(idx, ix.programId) < 256 && forall j :: 0 <= j < |ix.keys| ==> Slot(idx, ix.keys[j].pubkey) < 256
  }

  function RawOf(idx: map<Key, nat>, ix: Instruction): Raw {
    Raw(ToU8(Slot(idx, ix.programId)), ToU8Array(AccountIndexes(idx, ix)), ix.data)
  }

  lemma RawAt(bytes: seq<byte>, off: nat, idx: map<Key, nat>, ix: Instruction, nKeys: nat)
    requires Readable(idx, ix, nKeys)
    requires At(bytes, off, InstructionNumbers(idx, ix))
    ensures ReadRaw(bytes, off, nKeys) == Ok((RawOf(idx, ix), off + |InstructionNumbers(idx, ix)|))
  {
    hide CompactArray, ReadArray;
    var program: seq<nat> := [Slot(idx, ix.programId)];
    var accounts := CompactArray(AccountIndexes(idx, ix));
    AtSplit3(bytes, off, program, accounts, CompactArray(ix.data));
    assert bytes[off] == program[0];
    assert ToU8Array(AccountIndexes(idx, ix)) == AccountIndexes(idx, ix);
    ArrayAt(bytes, off + 1, ToU8Array(AccountIndexes(idx, ix)));
    ArrayAt(bytes, off + 1 + |accounts|, ix.data);
  }

  /** The instruction can be written and read back: every index and length in range. */
  predicate Readable(idx: map<Key, nat>, ix: Instruction, nKeys: nat) {
    Narrow(idx, ix) && InstructionLengths(ix) && Slot(idx, ix.programId) < nKeys
  }

  function RawsOf(idx: map<Key, nat>, ixs: seq<Instruction>): (rs: seq<Raw>)
    ensures |rs| == |ixs| && forall i :: 0 <= i < |ixs| ==> rs[i] == RawOf(idx, ixs[i])
  {
    if ixs == [] then [] else [RawOf(idx, ixs[0])] + RawsOf(idx, ixs[1..])
  }

  lemma {:induction false} RawsAt(bytes: seq<byte>, off: nat, idx: map<Key, nat>, ixs: seq<Instruction>, nKeys: nat)
    requires forall i :: 0 <= i < |ixs| ==> Readable(idx, ixs[i], nKeys)
    requires At(bytes, off, InstructionsNumbers(idx, ixs))
    ensures ReadRaws(bytes, off, nKeys, |ixs|) == Ok((RawsOf(idx, ixs), off + |InstructionsNumbers(idx, ixs)|))
    decreases |ixs|
  {
    hide ReadRaw, InstructionNumbers, RawOf, At;
    if ixs != [] {
      var one, rest := InstructionNumbers(idx, ixs[0]), ixs[1..];
      AtSplit(bytes, off, one, InstructionsNumbers(idx, rest));
      RawAt(bytes, off, idx, ixs[0], nKeys);
      RawsAt(bytes, off + |one|, idx, rest, nKeys);
    }
  }

  // ---- Lookups ----

  /** The table contents the reader is given agree with the tables the compiler used. */
  ghost predicate Agrees(m: map<Key, seq<Key>>, tables: seq<Table>) {
    forall t :: 0 <= t < |tables| ==> tables[t].key in m && m[tables[t].key] == tables[t].addresses
  }

  /** The account's key stands at its index in its table, and the index fits one byte. */
  ghost predicate Stored(m: map<Key, seq<Key>>, a: AccountInfo) {
    && a.alt.Some? && a.alt.value.key in m
    && a.alt.value.index < |m[a.alt.value.key]|
    && m[a.alt.value.key][a.alt.value.index] == a.pubkey
    && a.alt.value.index < 256
  }

  ghost predicate AllStored(m: map<Key, seq<Key>>, accs: seq<AccountInfo>) {
    forall i :: 0 <= i < |accs| ==> Stored(m, accs[i])
  }

  lemma {:induction false} CoveredByKeeps(accs: seq<AccountInfo>, k: Key)
    requires Covered(accs)
    ensures |CoveredBy(accs, k)| <= |accs|
    ensures forall i :: 0 <= i < |CoveredBy(accs, k)| ==>
              CoveredBy(accs, k)[i] in accs && CoveredBy(accs, k)[i].alt.value.key == k
  {
    if accs != [] {
      CoveredByKeeps(accs[..|accs| - 1], k);
    }
  }

  lemma IndexListAt(bytes: seq<byte>, off: nat, m: map<Key, seq<Key>>, accs: seq<AccountInfo>, k: Key)
    requires AllStored(m, accs) && k in m && |accs| <= CompactU16.MAX_VALUE
    requires Covered(accs) && At(bytes, off, CompactArray(AltIndexes(CoveredBy(accs, k))))
    ensures ReadIndexList(bytes, off, Some(m[k])) ==
            Ok((Keys(CoveredBy(accs, k)), |CoveredBy(accs, k)|,
                off + |CompactArray(AltIndexes(CoveredBy(accs, k)))|))
  {
    hide CoveredBy, CompactArray, ReadArray;
    CoveredByKeeps(accs, k);
    var mine := CoveredBy(accs, k);
    forall i | 0 <= i < |mine|
      ensures Stored(m, mine[i])
    {
      var j :| 0 <= j < |accs| && accs[j] == mine[i];
    }
    var idx: seq<byte> := seq(|mine|, i requires 0 <= i < |mine| => mine[i].alt.value.index);
    assert idx == AltIndexes(mine);
    ArrayAt(bytes, off, idx);
    assert Pick(m[k], idx) == Keys(mine);
  }

  /** The accounts regrouped table by table, as the wire (and so the reader) lists them. */
  function Regroup(accs: seq<AccountInfo>, ks: seq<Key>): seq<AccountInfo>
    requires Covered(accs)
  {
    if ks == [] then [] else CoveredBy(accs, ks[0]) + Regroup(accs, ks[1..])
  }

  function LookupsFor(w: seq<AccountInfo>, r: seq<AccountInfo>, ks: seq<Key>): (ls: seq<Lookup>)
    requires Covered(w) && Covered(r)
    ensures |ls| == |ks|
  {
    if ks == [] then [] else [LookupFor(w, r, ks[0])] + LookupsFor(w, r, ks[1..])
  }

  lemma {:induction false} LookupsForAll(w: seq<AccountInfo>, r: seq<AccountInfo>, ks: seq<Key>)
    requires Covered(w) && Covered(r)
    ensures LookupsFor(w, r, ks) == seq(|ks|, i requires 0 <= i < |ks| => LookupFor(w, r, ks[i]))
  {
    if ks != [] {
      LookupsForAll(w, r, ks[1..]);
    }
  }

  lemma LookupAt(bytes: seq<byte>, off: nat, m: map<Key, seq<Key>>, w: seq<AccountInfo>, r: seq<AccountInfo>, k: Key)
    requires AllStored(m, w) && AllStored(m, r) && Covered(w) && Covered(r)
    requires |w| <= CompactU16.MAX_VALUE && |r| <= CompactU16.MAX_VALUE
    requires k in m && At(bytes, off, LookupNumbers(LookupFor(w, r, k)))
    ensures ReadLookup(bytes, off, FromTables(m)) ==
            Ok((LookedUp(Keys(CoveredBy(w, k)), Keys(CoveredBy(r, k)), |CoveredBy(w, k)|, |CoveredBy(r, k)|),
                off + |LookupNumbers(LookupFor(w, r, k))|))
  {
    hide CompactArray, AltIndexes, CoveredBy, ReadIndexList, At, AllStored, Keys;
    var writable, readonly := CompactArray(AltIndexes(CoveredBy(w, k))), CompactArray(AltIndexes(CoveredBy(r, k)));
    AtSplit3(bytes, off, k, writable, readonly);
    AtSlice(bytes, off, k);
    IndexListAt(bytes, off + 32, m, w, k);
    IndexListAt(bytes, off + 32 + |writable|, m, r, k);
  }

  lemma {:induction false} LookupsAt(bytes: seq<byte>, off: nat, m: map<Key, seq<Key>>,
                                     w: seq<AccountInfo>, r: seq<AccountInfo>, ks: seq<Key>)
    requires AllStored(m, w) && AllStored(m, r) && Covered(w) && Covered(r)
    requires |w| <= CompactU16.MAX_VALUE && |r| <= CompactU16.MAX_VALUE
    requires forall i :: 0 <= i < |ks| ==> ks[i] in m
    requires At(bytes, off, LookupsNumbers(LookupsFor(w, r, ks)))
    ensures ReadLookups(bytes, off, FromTables(m), |ks|) ==
            Ok((LookedUp(Keys(Regroup(w, ks)), Keys(Regroup(r, ks)), |Regroup(w, ks)|, |Regroup(r, ks)|),
                off + |LookupsNumbers(LookupsFor(w, r, ks))|))
    decreases |ks|
  {
    hide ReadLookup, LookupNumbers, LookupFor, CoveredBy, At;
    if ks != [] {
      var k := ks[0];
      var l := LookupFor(w, r, k);
      AtSplit(bytes, off, LookupNumbers(l), LookupsNumbers(LookupsFor(w, r, ks[1..])));
      LookupAt(bytes, off, m, w, r, k);
      var next := off + |LookupNumbers(l)|;
      LookupsAt(bytes, next, m, w, r, ks[1..]);
      assert Keys(Regroup(w, ks)) == Keys(CoveredBy(w, k)) + Keys(Regroup(w, ks[1..]));
      assert Keys(Regroup(r, ks)) == Keys(CoveredBy(r, k)) + Keys(Regroup(r, ks[1..]));
    }
  }

  // ---- Lookups whose addresses the reader already has: only their counts matter ----

  lemma IndexCountAt(bytes: seq<byte>, off: nat, accs: seq<AccountInfo>, k: Key)
    requires Covered(accs) && |accs| <= CompactU16.MAX_VALUE
    requires forall i :: 0 <= i < |accs| ==> accs[i].alt.value.index < 256
    requires At(bytes, off, CompactArray(AltIndexes(CoveredBy(accs, k))))
    ensures ReadIndexList(bytes, off, None)
            == Ok(([], |CoveredBy(accs, k)|, off + |CompactArray(AltIndexes(CoveredBy(accs, k)))|))
  {
    hide CoveredBy, CompactArray, ReadArray;
    CoveredByKeeps(accs, k);
    var mine := CoveredBy(accs, k);
    var idx: seq<byte> := seq(|mine|, i requires 0 <= i < |mine| => mine[i].alt.value.index);
    assert idx == AltIndexes(mine);
    ArrayAt(bytes, off, idx);
  }

  lemma LookupCountAt(bytes: seq<byte>, off: nat, src: Source, w: seq<AccountInfo>, r: seq<AccountInfo>, k: Key)
    requires src.Preloaded? && Covered(w) && Covered(r)
    requires |w| <= CompactU16.MAX_VALUE && |r| <= CompactU16.MAX_VALUE
    requires forall i :: 0 <= i < |w| ==> w[i].alt.value.index < 256
    requires forall i :: 0 <= i < |r| ==> r[i].alt.value.index < 256
    requires At(bytes, off, LookupNumbers(LookupFor(w, r, k)))
    ensures ReadLookup(bytes, off, src) ==
            Ok((LookedUp([], [], |CoveredBy(w, k)|, |CoveredBy(r, k)|), off + |LookupNumbers(LookupFor(w, r, k))|))
  {
    hide CompactArray, AltIndexes, CoveredBy, ReadIndexList, At;
    var writable, readonly := CompactArray(AltIndexes(CoveredBy(w, k))), CompactArray(AltIndexes(CoveredBy(r, k)));
    AtSplit3(bytes, off, k, writable, readonly);
    AtSlice(bytes, off, k);
    IndexCountAt(bytes, off + 32, w, k);
    IndexCountAt(bytes, off + 32 + |writable|, r, k);
    AtWithin(bytes, off, k);
  }

  lemma {:induction false} LookupCountsAt(bytes: seq<byte>, off: nat, src: Source, w: seq<AccountInfo>,
                                          r: seq<AccountInfo>, ks: seq<Key>)
    requires src.Preloaded? && Covered(w) && Covered(r)
    requires |w| <= CompactU16.MAX_VALUE && |r| <= CompactU16.MAX_VALUE
    requires forall i :: 0 <= i < |w| ==> w[i].alt.value.index < 256
    requires forall i :: 0 <= i < |r| ==> r[i].alt.value.index < 256
    requires At(bytes, off, LookupsNumbers(LookupsFor(w, r, ks)))
    ensures ReadLookups(bytes, off, src, |ks|) ==
            Ok((LookedUp([], [], |Regroup(w, ks)|, |Regroup(r, ks)|), off + |LookupsNumbers(LookupsFor(w, r, ks))|))
    decreases |ks|
  {
    hide ReadLookup, LookupNumbers, LookupFor, CoveredBy, At;
    if ks != [] {
      var l := LookupFor(w, r, ks[0]);
      AtSplit(bytes, off, LookupNumbers(l), LookupsNumbers(LookupsFor(w, r, ks[1..])));
      LookupCountAt(bytes, off, src, w, r, ks[0]);
      LookupCountsAt(bytes, off + |LookupNumbers(l)|, src, w, r, ks[1..]);
      var none: seq<Key> := [];
      assert none + none == none;
    }
  }

  // ---- Grouping: when the wire order is the order indexes were handed out in ----

  /** Position of table `k` in the wire's table order. */
  function Rank(ks: seq<Key>, k: Key): nat {
    if ks == [] || ks[0] == k then 0 else 1 + Rank(ks[1..], k)
  }

  /** Accounts of one class come out grouped by table, in the wire's table order. */
  ghost predicate Grouped(accs: seq<AccountInfo>, ks: seq<Key>) {
    && Covered(accs)
    && forall i, j :: 0 <= i < j < |accs| ==> Rank(ks, accs[i].alt.value.key) <= Rank(ks, accs[j].alt.value.key)
  }

  ghost predicate Distinct(ks: seq<Key>) {
    forall i, j :: 0 <= i < j < |ks| ==> ks[i] != ks[j]
  }

  ghost predicate KeyedIn(accs: seq<AccountInfo>, ks: seq<Key>) {
    Covered(accs) && forall i :: 0 <= i < |accs| ==> accs[i].alt.value.key in ks
  }

  lemma CoveredByPush(accs: seq<AccountInfo>, x: AccountInfo, k: Key)
    requires Covered(accs) && x.alt.Some?
    ensures CoveredBy(accs + [x], k) == CoveredBy(accs, k) + if x.alt.value.key == k then [x] else []
  {
    assert (accs + [x])[..|accs|] == accs;
  }

  lemma {:induction false} CoveredByConcat(a: seq<AccountInfo>, b: seq<AccountInfo>, k: Key)
    requires Covered(a) && Covered(b)
    ensures CoveredBy(a + b, k) == CoveredBy(a, k) + CoveredBy(b, k)
    decreases |b|
  {
    if b == [] {
      assert a + b == a;
    } else {
      var init, last := b[..|b| - 1], b[|b| - 1];
      assert a + b == (a + init) + [last] && b == init + [last];
      CoveredByPush(a + init, last, k);
      CoveredByPush(init, last, k);
      CoveredByConcat(a, init, k);
    }
  }

  lemma {:induction false} CoveredByUniform(accs: seq<AccountInfo>, k: Key)
    requires Covered(accs)
    ensures (forall i :: 0 <= i < |accs| ==> accs[i].alt.value.key == k) ==> CoveredBy(accs, k) == accs
    ensures (forall i :: 0 <= i < |accs| ==> accs[i].alt.value.key != k) ==> CoveredBy(accs, k) == []
  {
    if accs != [] {
      CoveredByUniform(accs[..|accs| - 1], k);
      assert accs == accs[..|accs| - 1] + [accs[|accs| - 1]];
    }
  }

  /** Dropping accounts of a table that is not asked for changes nothing. */
  lemma {:induction false} RegroupDrop(a: seq<AccountInfo>, b: seq<AccountInfo>, k: Key, ks: seq<Key>)
    requires Covered(a) && Covered(b) && k !in ks
    requires forall i :: 0 <= i < |a| ==> a[i].alt.value.key == k
    ensures Regroup(a + b, ks) == Regroup(b, ks)
    decreases |ks|
  {
    hide CoveredBy;
    if ks != [] {
      assert ks[0] in ks && forall j :: j in ks[1..] ==> j in ks;
      SkipTable(a, b, k, ks[0]);
      RegroupDrop(a, b, k, ks[1..]);
    }
  }

  lemma SkipTable(a: seq<AccountInfo>, b: seq<AccountInfo>, k: Key, other: Key)
    requires Covered(a) && Covered(b) && k != other
    requires forall i :: 0 <= i < |a| ==> a[i].alt.value.key == k
    ensures CoveredBy(a + b, other) == CoveredBy(b, other)
  {
    CoveredByConcat(a, b, other);
    CoveredByUniform(a, other);
  }

  lemma {:induction false} RegroupMembers(accs: seq<AccountInfo>, ks: seq<Key>)
    requires Covered(accs)
    ensures KeyedIn(Regroup(accs, ks), ks)
    ensures forall i :: 0 <= i < |Regroup(accs, ks)| ==> Regroup(accs, ks)[i] in accs
    decreases |ks|
  {
    if ks != [] {
      CoveredByKeeps(accs, ks[0]);
      RegroupMembers(accs, ks[1..]);
      assert ks[0] in ks;
    }
  }

  lemma {:induction false} RegroupIsGrouped(accs: seq<AccountInfo>, ks: seq<Key>)
    requires Covered(accs) && Distinct(ks)
    ensures Grouped(Regroup(accs, ks), ks)
    decreases |ks|
  {
    if ks != [] {
      var first, rest := CoveredBy(accs, ks[0]), Regroup(accs, ks[1..]);
      CoveredByKeeps(accs, ks[0]);
      RegroupIsGrouped(accs, ks[1..]);
      RegroupMembers(accs, ks[1..]);
      forall i | 0 <= i < |rest|
        ensures Rank(ks, rest[i].alt.value.key) == 1 + Rank(ks[1..], rest[i].alt.value.key)
      {
        assert rest[i].alt.value.key in ks[1..];
      }
    }
  }

  /** The leading run of accounts of table `k`. */
  function RunLength(accs: seq<AccountInfo>, k: Key): (p: nat)
    requires Covered(accs)
    ensures p <= |accs|
    ensures forall i :: 0 <= i < p ==> accs[i].alt.value.key == k
    ensures p < |accs| ==> accs[p].alt.value.key != k
  {
    if accs == [] || accs[0].alt.value.key != k then 0
    else
      assert forall i :: 0 < i < |accs| ==> accs[i] == accs[1..][i - 1];
      1 + RunLength(accs[1..], k)
  }

  lemma {:induction false} GroupedRegroup(accs: seq<AccountInfo>, ks: seq<Key>)
    requires Grouped(accs, ks) && Distinct(ks) && KeyedIn(accs, ks)
    ensures Regroup(accs, ks) == accs
    decreases |ks|
  {
    hide CoveredBy, Rank, RunLength, Grouped;
    if accs != [] {
      KeyedNeedsTable(accs, ks);
    }
    if ks != [] {
      var p := RunLength(accs, ks[0]);
      var a, b := accs[..p], accs[p..];
      RestOfRun(accs, ks);
      RegroupRun(a, b, ks);
      GroupedRegroup(b, ks[1..]);
      assert accs == a + b;
    }
  }

  lemma KeyedNeedsTable(accs: seq<AccountInfo>, ks: seq<Key>)
    requires KeyedIn(accs, ks) && accs != []
    ensures ks != []
  {
    assert accs[0].alt.value.key in ks;
  }

  lemma RegroupRun(a: seq<AccountInfo>, b: seq<AccountInfo>, ks: seq<Key>)
    requires ks != [] && Distinct(ks) && Covered(a) && Covered(b)
    requires forall i :: 0 <= i < |a| ==> a[i].alt.value.key == ks[0]
    requires forall i :: 0 <= i < |b| ==> b[i].alt.value.key != ks[0]
    ensures Regroup(a + b, ks) == a + Regroup(b, ks[1..])
  {
    hide CoveredBy;
    assert ks[0] !in ks[1..];
    CoveredByConcat(a, b, ks[0]);
    CoveredByUniform(a, ks[0]);
    CoveredByUniform(b, ks[0]);
    RegroupDrop(a, b, ks[0], ks[1..]);
    assert CoveredBy(a + b, ks[0]) == a;
  }

  /** After the leading run of the first table, only later tables remain, still in order. */
  lemma RestOfRun(accs: seq<AccountInfo>, ks: seq<Key>)
    requires ks != [] && Grouped(accs, ks) && Distinct(ks) && KeyedIn(accs, ks)
    ensures var b := accs[RunLength(accs, ks[0])..];
            && Grouped(b, ks[1..]) && KeyedIn(b, ks[1..])
            && forall i :: 0 <= i < |b| ==> b[i].alt.value.key != ks[0]
  {
    var p := RunLength(accs, ks[0]);
    var b := accs[p..];
    forall i | 0 <= i < |b|
      ensures b[i].alt.value.key != ks[0] && b[i].alt.value.key in ks[1..]
      ensures Rank(ks, b[i].alt.value.key) == 1 + Rank(ks[1..], b[i].alt.value.key)
    {
      assert b[i] == accs[p + i];
      assert Rank(ks, accs[p].alt.value.key) >= 1;
      var q :| 0 <= q < |ks| && ks[q] == accs[p + i].alt.value.key;
      if i > 0 {
        assert Rank(ks, accs[p].alt.value.key) <= Rank(ks, accs[p + i].alt.value.key);
      }
      assert ks[1..][q - 1] == ks[q];
    }
  }

  /** The wire lists a class in index order exactly when the class comes out grouped by table. */
  lemma RegroupIff(accs: seq<AccountInfo>, ks: seq<Key>)
    requires Distinct(ks) && KeyedIn(accs, ks)
    ensures Regroup(accs, ks) == accs <==> Grouped(accs, ks)
  {
    if Grouped(accs, ks) {
      GroupedRegroup(accs, ks);
    } else {
      RegroupIsGrouped(accs, ks);
    }
  }

  lemma {:induction false} RegroupAppendLength(accs: seq<AccountInfo>, a: AccountInfo, ks: seq<Key>)
    requires Covered(accs) && a.alt.Some? && Distinct(ks)
    ensures |Regroup(accs + [a], ks)| == |Regroup(accs, ks)| + if a.alt.value.key in ks then 1 else 0
    decreases |ks|
  {
    if ks != [] {
      RegroupAppendLength(accs, a, ks[1..]);
      CoveredByConcat(accs, [a], ks[0]);
      CoveredByUniform([a], ks[0]);
      assert a.alt.value.key in ks <==> a.alt.value.key == ks[0] || a.alt.value.key in ks[1..];
    }
  }

  lemma {:induction false} RegroupNothing(ks: seq<Key>)
    ensures Regroup([], ks) == []
  {
    if ks != [] {
      RegroupNothing(ks[1..]);
    }
  }

  /** Regrouping loses and invents nothing. */
  lemma {:induction false} RegroupLength(accs: seq<AccountInfo>, ks: seq<Key>)
    requires Distinct(ks) && KeyedIn(accs, ks)
    ensures |Regroup(accs, ks)| == |accs|
    decreases |accs|
  {
    if accs == [] {
      RegroupNothing(ks);
    } else {
      var init, last := accs[..|accs| - 1], accs[|accs| - 1];
      RegroupLength(init, ks);
      RegroupAppendLength(init, last, ks);
      assert accs == init + [last];
    }
  }

  lemma {:induction false} TableOrderFacts(accs: seq<AccountInfo>)
    requires Covered(accs)
    ensures Distinct(TableOrder(accs)) && KeyedIn(accs, TableOrder(accs))
    ensures |TableOrder(accs)| <= |accs|
    ensures forall k :: k in TableOrder(accs) ==> exists i :: 0 <= i < |accs| && accs[i].alt.value.key == k
  {
    if accs != [] {
      var init, last := accs[..|accs| - 1], accs[|accs| - 1];
      TableOrderFacts(init);
      forall k | k in TableOrder(accs)
        ensures exists i :: 0 <= i < |accs| && accs[i].alt.value.key == k
      {
        if k in TableOrder(init) {
          var i :| 0 <= i < |init| && init[i].alt.value.key == k;
          assert accs[i].alt.value.key == k;
        } else {
          assert accs[|accs| - 1].alt.value.key == k;
        }
      }
      forall i | 0 <= i < |accs|
        ensures accs[i].alt.value.key in TableOrder(accs)
      {
        if i < |init| {
          assert accs[i] == init[i];
        }
      }
    }
  }

  lemma {:induction false} FindAltStored(tables: seq<Table>, k: Key, m: map<Key, seq<Key>>)
    requires FindAlt(tables, k).Some? && Agrees(m, tables)
    ensures var ref := FindAlt(tables, k).value;
            ref.key in m && ref.index < |m[ref.key]| && m[ref.key][ref.index] == k
  {
    assert tables[0].key in m && m[tables[0].key] == tables[0].addresses;
    if IndexFrom(tables[0].addresses, k, 0) < 0 {
      FindAltStored(tables[1..], k, m);
    }
  }
}
