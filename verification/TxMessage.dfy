/** serializeMessage, wire and the compile entry points of packages/solana-tx/src/transaction-assembler.ts. */
module TxMessage {
  import opened Wrappers
  import opened Bytes
  import opened TxTypes
  import CompactU16

  const VERSION_V0: byte := 0x80
  const SIGNATURE_LENGTH := 64
  const BLOCKHASH_LENGTH := 32

  datatype TxError = InvalidBlockhash | PayerNotInSigners | MissingSigner(address: Key) | LengthOutOfRange | Malformed

  datatype Lookup = Lookup(accountKey: Key, writable: seq<nat>, readonly: seq<nat>)

  // ---- buildAddressTableLookups ----

  ghost predicate Covered(accs: seq<AccountInfo>) {
    forall i :: 0 <= i < |accs| ==> accs[i].alt.Some?
  }

  /** Tables in the order they first cover an account. */
  function TableOrder(accs: seq<AccountInfo>): seq<Key>
    requires Covered(accs)
  {
    if accs == [] then []
    else
      var before := TableOrder(accs[..|accs| - 1]);
      var k := accs[|accs| - 1].alt.value.key;
      if k in before then before else before + [k]
  }

  /** The accounts that table `k` covers, in list order. */
  function CoveredBy(accs: seq<AccountInfo>, k: Key): (r: seq<AccountInfo>)
    requires Covered(accs)
    ensures Covered(r)
  {
    if accs == [] then []
    else
      CoveredBy(accs[..|accs| - 1], k)
      + if accs[|accs| - 1].alt.value.key == k then [accs[|accs| - 1]] else []
  }

  function AltIndexes(accs: seq<AccountInfo>): (ns: seq<nat>)
    requires Covered(accs)
    ensures |ns| == |accs|
    ensures forall i :: 0 <= i < |accs| ==> ns[i] == accs[i].alt.value.index
  {
    seq(|accs|, i requires 0 <= i < |accs| => accs[i].alt.value.index)
  }

  function LookupFor(altW: seq<AccountInfo>, altR: seq<AccountInfo>, k: Key): Lookup
    requires Covered(altW) && Covered(altR)
  {
    Lookup(k, AltIndexes(CoveredBy(altW, k)), AltIndexes(CoveredBy(altR, k)))
  }

  function Lookups(altW: seq<AccountInfo>, altR: seq<AccountInfo>): (ls: seq<Lookup>)
    requires Covered(altW) && Covered(altR)
  {
    var ks := TableOrder(altW + altR);
    seq(|ks|, i requires 0 <= i < |ks| => LookupFor(altW, altR, ks[i]))
  }

  /** The keys of `perAlt`, in insertion order, are the tables that cover the pushed accounts. */
  ghost predicate Ordered(order: seq<Key>, perAlt: map<Key, Lookup>, pushed: seq<AccountInfo>) {
    && Covered(pushed)
    && order == TableOrder(pushed)
    && forall k :: k in perAlt <==> k in order
  }

  /** Each entry holds the indexes of the accounts its table covers. */
  ghost predicate Filled(perAlt: map<Key, Lookup>, w: seq<AccountInfo>, r: seq<AccountInfo>) {
    && Covered(w) && Covered(r)
    && forall k :: k in perAlt ==> perAlt[k] == LookupFor(w, r, k)
  }

  function Opened(perAlt: map<Key, Lookup>, k: Key): (m: map<Key, Lookup>)
    ensures k in m
  {
    if k in perAlt then perAlt else perAlt[k := Lookup(k, [], [])]
  }

  lemma OpenedFilled(order: seq<Key>, perAlt: map<Key, Lookup>, w: seq<AccountInfo>, r: seq<AccountInfo>, k: Key)
    requires Ordered(order, perAlt, w + r) && Filled(perAlt, w, r)
    ensures Filled(Opened(perAlt, k), w, r)
  {
    if k !in perAlt {
      UncoveredTable(w, r, k);
    }
  }

  lemma OrderedPush(order: seq<Key>, perAlt: map<Key, Lookup>, pushed: seq<AccountInfo>, acc: AccountInfo, e: Lookup)
    requires Ordered(order, perAlt, pushed) && acc.alt.Some?
    ensures var k := acc.alt.value.key;
            Ordered(if k in perAlt then order else order + [k], Opened(perAlt, k)[k := e], pushed + [acc])
  {
    TableOrderAppend(pushed, acc);
  }

  lemma FilledPushWritable(m: map<Key, Lookup>, w: seq<AccountInfo>, r: seq<AccountInfo>, acc: AccountInfo)
    requires Filled(m, w, r) && acc.alt.Some? && acc.alt.value.key in m
    ensures var k := acc.alt.value.key;
            Filled(m[k := m[k].(writable := m[k].writable + [acc.alt.value.index])], w + [acc], r)
  {
    CoveredByAppend(w, acc);
  }

  lemma FilledPushReadonly(m: map<Key, Lookup>, w: seq<AccountInfo>, r: seq<AccountInfo>, acc: AccountInfo)
    requires Filled(m, w, r) && acc.alt.Some? && acc.alt.value.key in m
    ensures var k := acc.alt.value.key;
            Filled(m[k := m[k].(readonly := m[k].readonly + [acc.alt.value.index])], w, r + [acc])
  {
    CoveredByAppend(r, acc);
  }

  /** The insertion-ordered `perAlt` map, with the accounts pushed so far. */
  class LookupDirectory {
    var order: seq<Key>
    var perAlt: map<Key, Lookup>
    ghost var pushedW: seq<AccountInfo>
    ghost var pushedR: seq<AccountInfo>

    ghost predicate Valid()
      reads this
    {
      Ordered(order, perAlt, pushedW + pushedR) && Filled(perAlt, pushedW, pushedR)
    }

    constructor ()
      ensures Valid() && pushedW == [] && pushedR == []
    {
      order, perAlt, pushedW, pushedR := [], map[], [], [];
    }

    method PushWritable(acc: AccountInfo)
      requires Valid() && acc.alt.Some? && pushedR == []
      modifies this
      ensures Valid() && pushedW == old(pushedW) + [acc] && pushedR == []
    {
      hide TableOrder, LookupFor, Covered;
      var k := acc.alt.value.key;
      ghost var ks, m, w, r := order, perAlt, pushedW, pushedR;
      OpenedFilled(ks, m, w, r, k);
      FilledPushWritable(Opened(m, k), w, r, acc);
      if k !in perAlt {
        perAlt, order := perAlt[k := Lookup(k, [], [])], order + [k];
      }
      var e := perAlt[k];
      e := e.(writable := e.writable + [acc.alt.value.index]);
      OrderedPush(ks, m, w + r, acc, e);
      assert w + r + [acc] == w + [acc] + r;
      perAlt := perAlt[k := e];
      pushedW := pushedW + [acc];
    }

    method PushReadonly(acc: AccountInfo)
      requires Valid() && acc.alt.Some?
      modifies this
      ensures Valid() && pushedW == old(pushedW) && pushedR == old(pushedR) + [acc]
    {
      hide TableOrder, LookupFor, Covered;
      var k := acc.alt.value.key;
      ghost var ks, m, w, r := order, perAlt, pushedW, pushedR;
      OpenedFilled(ks, m, w, r, k);
      FilledPushReadonly(Opened(m, k), w, r, acc);
      if k !in perAlt {
        perAlt, order := perAlt[k := Lookup(k, [], [])], order + [k];
      }
      var e := perAlt[k];
      e := e.(readonly := e.readonly + [acc.alt.value.index]);
      OrderedPush(ks, m, w + r, acc, e);
      perAlt := perAlt[k := e];
      pushedR := r + [acc];
      assert w + r + [acc] == w + pushedR;
      assert Ordered(order, perAlt, w + pushedR);
      assert Filled(perAlt, w, pushedR);
    }

    function Values(): (ls: seq<Lookup>)
      requires Valid()
      reads this
      ensures |ls| == |order| && forall i :: 0 <= i < |order| ==> ls[i] == perAlt[order[i]]
    {
      seq(|order|, i requires 0 <= i < |order| && Valid() reads this => perAlt[order[i]])
    }
  }

  lemma CoveredByAppend(accs: seq<AccountInfo>, acc: AccountInfo)
    requires Covered(accs) && acc.alt.Some?
    ensures var k := acc.alt.value.key;
            AltIndexes(CoveredBy(accs + [acc], k)) == AltIndexes(CoveredBy(accs, k)) + [acc.alt.value.index]
    ensures forall j: Key :: j != acc.alt.value.key ==> CoveredBy(accs + [acc], j) == CoveredBy(accs, j)
  {
    var all := accs + [acc];
    assert all[..|all| - 1] == accs;
  }

  lemma TableOrderAppend(accs: seq<AccountInfo>, acc: AccountInfo)
    requires Covered(accs) && acc.alt.Some?
    ensures TableOrder(accs + [acc]) ==
            if acc.alt.value.key in TableOrder(accs) then TableOrder(accs)
            else TableOrder(accs) + [acc.alt.value.key]
  {
    var all := accs + [acc];
    assert all[..|all| - 1] == accs;
  }

  lemma {:induction false} UncoveredTable(altW: seq<AccountInfo>, altR: seq<AccountInfo>, k: Key)
    requires Covered(altW) && Covered(altR)
    requires k !in TableOrder(altW + altR)
    ensures CoveredBy(altW, k) == [] && CoveredBy(altR, k) == []
    decreases |altW| + |altR|
  {
    var all := altW + altR;
    if altR != [] {
      assert all[..|all| - 1] == altW + altR[..|altR| - 1];
      UncoveredTable(altW, altR[..|altR| - 1], k);
    } else if altW != [] {
      assert all == altW && altW[..|altW| - 1] + [] == altW[..|altW| - 1];
      UncoveredTable(altW[..|altW| - 1], [], k);
    }
  }

  method BuildAddressTableLookups(altW: seq<AccountInfo>, altR: seq<AccountInfo>) returns (ls: seq<Lookup>)
    requires Covered(altW) && Covered(altR)
    ensures ls == Lookups(altW, altR)
  {
    var dir := new LookupDirectory();
    for i := 0 to |altW|
      invariant dir.Valid() && dir.pushedW == altW[..i] && dir.pushedR == []
    {
      dir.PushWritable(altW[i]);
      assert altW[..i + 1] == altW[..i] + [altW[i]];
    }
    assert altW[..|altW|] == altW;
    for i := 0 to |altR|
      invariant dir.Valid() && dir.pushedW == altW && dir.pushedR == altR[..i]
    {
      dir.PushReadonly(altR[i]);
      assert altR[..i + 1] == altR[..i] + [altR[i]];
    }
    assert altR[..|altR|] == altR;
    return dir.Values();
  }

  // ---- The message as a list of numbers ----

  function CompactArray(xs: seq<nat>): seq<nat> {
    CompactU16.Groups(|xs|) + xs
  }

  function KeyBytes(ks: seq<Key>): (bs: seq<byte>)
    ensures |bs| == 32 * |ks|
  {
    if ks == [] then [] else ks[0] + KeyBytes(ks[1..])
  }

  predicate Indexed(idx: map<Key, nat>, ix: Instruction) {
    ix.programId in idx && forall j :: 0 <= j < |ix.keys| ==> ix.keys[j].pubkey in idx
  }

  /** Index handed out for `k`; the default is never emitted, encoding fails first. */
  function Slot(idx: map<Key, nat>, k: Key): nat {
    if k in idx then idx[k] else 0
  }

  function AccountIndexes(idx: map<Key, nat>, ix: Instruction): (ns: seq<nat>)
    ensures |ns| == |ix.keys|
    ensures forall j :: 0 <= j < |ix.keys| ==> ns[j] == Slot(idx, ix.keys[j].pubkey)
  {
    seq(|ix.keys|, j requires 0 <= j < |ix.keys| => Slot(idx, ix.keys[j].pubkey))
  }

  function InstructionNumbers(idx: map<Key, nat>, ix: Instruction): seq<nat> {
    [Slot(idx, ix.programId)] + CompactArray(AccountIndexes(idx, ix)) + CompactArray(ix.data)
  }

  function InstructionsNumbers(idx: map<Key, nat>, ixs: seq<Instruction>): seq<nat> {
    if ixs == [] then [] else InstructionNumbers(idx, ixs[0]) + InstructionsNumbers(idx, ixs[1..])
  }

  function LookupNumbers(l: Lookup): seq<nat> {
    l.accountKey + CompactArray(l.writable) + CompactArray(l.readonly)
  }

  function LookupsNumbers(ls: seq<Lookup>): seq<nat> {
    if ls == [] then [] else LookupNumbers(ls[0]) + LookupsNumbers(ls[1..])
  }

  function HeaderNumbers(c: Compiled): seq<nat> {
    [VERSION_V0, c.numRequired, c.numReadonlySigned, c.numReadonlyUnsigned]
  }

  function MessageNumbers(c: Compiled, ixs: seq<Instruction>, blockhash: seq<byte>): seq<nat>
    requires Covered(c.altWritable) && Covered(c.altReadonly)
  {
    HeaderNumbers(c)
    + CompactU16.Groups(|c.staticAccounts|) + KeyBytes(Keys(c.staticAccounts))
    + blockhash
    + CompactU16.Groups(|ixs|) + InstructionsNumbers(c.indexOf, ixs)
    + CompactU16.Groups(|Lookups(c.altWritable, c.altReadonly)|)
    + LookupsNumbers(Lookups(c.altWritable, c.altReadonly))
  }

  // ---- When the encoder does not throw ----

  predicate Pushable(idx: map<Key, nat>, ix: Instruction) {
    Indexed(idx, ix) && InstructionLengths(ix)
  }

  predicate InstructionLengths(ix: Instruction) {
    |ix.keys| <= CompactU16.MAX_VALUE && |ix.data| <= CompactU16.MAX_VALUE
  }

  predicate LookupLengths(l: Lookup) {
    |l.writable| <= CompactU16.MAX_VALUE && |l.readonly| <= CompactU16.MAX_VALUE
  }

  predicate Encodable(c: Compiled, ixs: seq<Instruction>)
    requires Covered(c.altWritable) && Covered(c.altReadonly)
  {
    && |c.staticAccounts| <= CompactU16.MAX_VALUE
    && |ixs| <= CompactU16.MAX_VALUE
    && (forall i :: 0 <= i < |ixs| ==> Pushable(c.indexOf, ixs[i]))
    && var ls := Lookups(c.altWritable, c.altReadonly);
       && |ls| <= CompactU16.MAX_VALUE
       && forall i :: 0 <= i < |ls| ==> LookupLengths(ls[i])
  }

  // ---- The source's loops ----

  method PushCompactArray(out: seq<nat>, xs: seq<nat>) returns (r: Result<seq<nat>, TxError>)
    ensures r.Ok? <==> |xs| <= CompactU16.MAX_VALUE
    ensures r.Ok? ==> r.value == out + CompactArray(xs)
    ensures r.Err? ==> r.error == LengthOutOfRange
  {
    var len := CompactU16.Encode(|xs|);
    if len.Err? {
      return Err(LengthOutOfRange);
    }
    var acc := out + len.value;
    for i := 0 to |xs|
      invariant acc == out + len.value + xs[..i]
    {
      acc := acc + [xs[i]];
    }
    return Ok(acc);
  }

  lemma {:induction false} KeyBytesAppend(ks: seq<Key>, k: Key)
    ensures KeyBytes(ks + [k]) == KeyBytes(ks) + k
  {
    if ks == [] {
      assert [] + [k] == [k];
      assert KeyBytes([k][1..]) == [];
    } else {
      KeyBytesAppend(ks[1..], k);
      assert (ks + [k])[1..] == ks[1..] + [k];
    }
  }

  method PushKeys(out: seq<nat>, accs: seq<AccountInfo>) returns (r: seq<nat>)
    ensures r == out + KeyBytes(Keys(accs))
  {
    r := out;
    for i := 0 to |accs|
      invariant r == out + KeyBytes(Keys(accs[..i]))
    {
      KeyBytesAppend(Keys(accs[..i]), accs[i].pubkey);
      assert Keys(accs[..i + 1]) == Keys(accs[..i]) + [accs[i].pubkey];
      r := r + accs[i].pubkey;
    }
    assert accs[..|accs|] == accs;
  }

  method ResolveIndexes(idx: map<Key, nat>, ix: Instruction) returns (r: Result<seq<nat>, TxError>)
    requires ix.programId in idx
    ensures r.Ok? <==> Indexed(idx, ix)
    ensures r.Ok? ==> r.value == AccountIndexes(idx, ix)
  {
    var ns: seq<nat> := [];
    for j := 0 to |ix.keys|
      invariant |ns| == j
      invariant forall m :: 0 <= m < j ==> ix.keys[m].pubkey in idx && ns[m] == Slot(idx, ix.keys[m].pubkey)
    {
      if ix.keys[j].pubkey !in idx {
        return Err(MissingSigner(ix.keys[j].pubkey));
      }
      ns := ns + [idx[ix.keys[j].pubkey]];
    }
    return Ok(ns);
  }

  method PushInstruction(out: seq<nat>, idx: map<Key, nat>, ix: Instruction) returns (r: Result<seq<nat>, TxError>)
    ensures r.Ok? <==> Pushable(idx, ix)
    ensures r.Ok? ==> r.value == out + InstructionNumbers(idx, ix)
  {
    if ix.programId !in idx {
      return Err(MissingSigner(ix.programId));
    }
    var acc := out + [idx[ix.programId]];
    var indexes := ResolveIndexes(idx, ix);
    if indexes.Err? {
      return Err(indexes.error);
    }
    var withAccounts := PushCompactArray(acc, indexes.value);
    if withAccounts.Err? {
      return withAccounts;
    }
    r := PushCompactArray(withAccounts.value, ix.data);
    assert out + [idx[ix.programId]] + CompactArray(indexes.value) + CompactArray(ix.data)
        == out + ([idx[ix.programId]] + CompactArray(indexes.value) + CompactArray(ix.data));
  }

  method PushInstructions(out: seq<nat>, idx: map<Key, nat>, ixs: seq<Instruction>)
    returns (r: Result<seq<nat>, TxError>)
    ensures r.Ok? <==> |ixs| <= CompactU16.MAX_VALUE
                       && forall i :: 0 <= i < |ixs| ==> Pushable(idx, ixs[i])
    ensures r.Ok? ==> r.value == out + CompactU16.Groups(|ixs|) + InstructionsNumbers(idx, ixs)
  {
    hide InstructionNumbers, Pushable;
    var len := CompactU16.Encode(|ixs|);
    if len.Err? {
      return Err(LengthOutOfRange);
    }
    var acc := out + len.value;
    for i := 0 to |ixs|
      invariant forall j :: 0 <= j < i ==> Pushable(idx, ixs[j])
      invariant acc == out + len.value + InstructionsNumbers(idx, ixs[..i])
    {
      var step := PushInstruction(acc, idx, ixs[i]);
      if step.Err? {
        return step;
      }
      assert ixs[..i + 1] == ixs[..i] + [ixs[i]];
      InstructionsNumbersAppend(idx, ixs[..i], ixs[i]);
      acc := step.value;
    }
    assert ixs[..|ixs|] == ixs;
    return Ok(acc);
  }

  lemma {:induction false} InstructionsNumbersAppend(idx: map<Key, nat>, ixs: seq<Instruction>, ix: Instruction)
    ensures InstructionsNumbers(idx, ixs + [ix]) == InstructionsNumbers(idx, ixs) + InstructionNumbers(idx, ix)
  {
    hide InstructionNumbers;
    if ixs == [] {
      assert [] + [ix] == [ix];
      assert InstructionsNumbers(idx, [ix][1..]) == [];
    } else {
      InstructionsNumbersAppend(idx, ixs[1..], ix);
      assert (ixs + [ix])[1..] == ixs[1..] + [ix];
    }
  }

  lemma {:induction false} LookupsNumbersAppend(ls: seq<Lookup>, l: Lookup)
    ensures LookupsNumbers(ls + [l]) == LookupsNumbers(ls) + LookupNumbers(l)
  {
    hide LookupNumbers;
    if ls == [] {
      assert [] + [l] == [l];
      assert LookupsNumbers([l][1..]) == [];
    } else {
      LookupsNumbersAppend(ls[1..], l);
      assert (ls + [l])[1..] == ls[1..] + [l];
    }
  }

  method PushLookup(out: seq<nat>, l: Lookup) returns (r: Result<seq<nat>, TxError>)
    ensures r.Ok? <==> LookupLengths(l)
    ensures r.Ok? ==> r.value == out + LookupNumbers(l)
  {
    var withWritable := PushCompactArray(out + l.accountKey, l.writable);
    if withWritable.Err? {
      return withWritable;
    }
    r := PushCompactArray(withWritable.value, l.readonly);
  }

  method PushLookups(out: seq<nat>, ls: seq<Lookup>) returns (r: Result<seq<nat>, TxError>)
    ensures r.Ok? <==> |ls| <= CompactU16.MAX_VALUE && forall i :: 0 <= i < |ls| ==> LookupLengths(ls[i])
    ensures r.Ok? ==> r.value == out + CompactU16.Groups(|ls|) + LookupsNumbers(ls)
  {
    hide LookupNumbers, LookupLengths;
    var len := CompactU16.Encode(|ls|);
    if len.Err? {
      return Err(LengthOutOfRange);
    }
    var acc := out + len.value;
    for i := 0 to |ls|
      invariant forall j :: 0 <= j < i ==> LookupLengths(ls[j])
      invariant acc == out + len.value + LookupsNumbers(ls[..i])
    {
      var step := PushLookup(acc, ls[i]);
      if step.Err? {
        return step;
      }
      assert ls[..i + 1] == ls[..i] + [ls[i]];
      LookupsNumbersAppend(ls[..i], ls[i]);
      acc := step.value;
    }
    assert ls[..|ls|] == ls;
    return Ok(acc);
  }

  /** Version byte, header, static keys and blockhash. */
  method PushHead(c: Compiled, blockhash: seq<byte>) returns (r: Result<seq<nat>, TxError>)
    ensures r.Ok? <==> |c.staticAccounts| <= CompactU16.MAX_VALUE
    ensures r.Ok? ==> r.value == HeaderNumbers(c)
                                 + CompactU16.Groups(|c.staticAccounts|) + KeyBytes(Keys(c.staticAccounts))
                                 + blockhash
  {
    var out: seq<nat> := [VERSION_V0];
    out := out + [c.numRequired];
    out := out + [c.numReadonlySigned];
    out := out + [c.numReadonlyUnsigned];
    assert out == HeaderNumbers(c);
    var nStatic := CompactU16.Encode(|c.staticAccounts|);
    if nStatic.Err? {
      return Err(LengthOutOfRange);
    }
    out := PushKeys(out + nStatic.value, c.staticAccounts);
    out := out + blockhash;
    return Ok(out);
  }

  /** Serialize: fails exactly on a missing index or an over-long section; numbers are truncated to bytes last. */
  method SerializeMessage(c: Compiled, ixs: seq<Instruction>, blockhash: seq<byte>)
    returns (r: Result<seq<byte>, TxError>)
    requires Covered(c.altWritable) && Covered(c.altReadonly) && |blockhash| == BLOCKHASH_LENGTH
    ensures r.Ok? <==> Encodable(c, ixs)
    ensures r.Ok? ==> r.value == ToU8Array(MessageNumbers(c, ixs, blockhash))
  {
    var head := PushHead(c, blockhash);
    if head.Err? {
      return Err(head.error);
    }
    var withIxs := PushInstructions(head.value, c.indexOf, ixs);
    if withIxs.Err? {
      return Err(withIxs.error);
    }
    var lookups := BuildAddressTableLookups(c.altWritable, c.altReadonly);
    var full := PushLookups(withIxs.value, lookups);
    if full.Err? {
      return Err(full.error);
    }
    return Ok(ToU8Array(full.value));
  }
}
