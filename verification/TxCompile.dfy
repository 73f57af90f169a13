/** Inputs of the v0 transaction compiler and the account table it resolves them to. */
module TxTypes {
  import opened Wrappers
  import opened Bytes

  type Key = k: seq<byte> | |k| == 32 witness seq(32, _ => 0)

  datatype AccountMeta = AccountMeta(pubkey: Key, isSigner: bool, isWritable: bool)
  datatype Instruction = Instruction(programId: Key, keys: seq<AccountMeta>, data: seq<byte>)
  datatype Table = Table(key: Key, addresses: seq<Key>)

  /** Position of an account inside the lookup table that covers it. */
  datatype AltRef = AltRef(key: Key, index: nat)
  datatype AccountInfo = AccountInfo(pubkey: Key, isSigner: bool, isWritable: bool, alt: Option<AltRef>)

  datatype Compiled = Compiled(
    staticAccounts: seq<AccountInfo>,
    altWritable: seq<AccountInfo>,
    altReadonly: seq<AccountInfo>,
    indexOf: map<Key, nat>,
    numRequired: nat,
    numReadonlySigned: nat,
    numReadonlyUnsigned: nat)
  {
    /** The full account list that instruction indexes are handed out against. */
    function Order(): seq<AccountInfo> {
      staticAccounts + altWritable + altReadonly
    }
  }

  function Keys(accs: seq<AccountInfo>): (ks: seq<Key>)
    ensures |ks| == |accs|
    ensures forall i :: 0 <= i < |accs| ==> ks[i] == accs[i].pubkey
  {
    seq(|accs|, i requires 0 <= i < |accs| => accs[i].pubkey)
  }

  ghost predicate DistinctKeys(accs: seq<AccountInfo>) {
    forall i, j :: 0 <= i < j < |accs| ==> accs[i].pubkey != accs[j].pubkey
  }
}

/** compileAccounts of packages/solana-tx/src/transaction-assembler.ts. */
module TxCompile {
  import opened Wrappers
  import opened Bytes
  import opened TxTypes

  // ---- What the mentions of a transaction say about each key ----

  function MentionsOf(ixs: seq<Instruction>): seq<AccountMeta> {
    if ixs == [] then []
    else [AccountMeta(ixs[0].programId, false, false)] + ixs[0].keys + MentionsOf(ixs[1..])
  }

  /** Every mention in order: the payer's seed, then each program id followed by its accounts. */
  function Mentions(payer: Key, ixs: seq<Instruction>): seq<AccountMeta> {
    [AccountMeta(payer, true, true)] + MentionsOf(ixs)
  }

  function FirstSeen(ms: seq<AccountMeta>): seq<Key> {
    if ms == [] then []
    else
      var before := FirstSeen(ms[..|ms| - 1]);
      var k := ms[|ms| - 1].pubkey;
      if k in before then before else before + [k]
  }

  predicate SignerIn(ms: seq<AccountMeta>, k: Key) {
    exists i :: 0 <= i < |ms| && ms[i].pubkey == k && ms[i].isSigner
  }

  predicate WritableIn(ms: seq<AccountMeta>, k: Key) {
    exists i :: 0 <= i < |ms| && ms[i].pubkey == k && ms[i].isWritable
  }

  predicate Invoked(ixs: seq<Instruction>, k: Key) {
    exists i :: 0 <= i < |ixs| && ixs[i].programId == k
  }

  /** First position of `k` in `ks` at or after `i`, -1 if it is not there. */
  function IndexFrom(ks: seq<Key>, k: Key, i: nat): (p: int)
    requires i <= |ks|
    ensures p == -1 || (i <= p < |ks| && ks[p] == k)
    ensures p == -1 ==> k !in ks[i..]
    decreases |ks| - i
  {
    if i == |ks| then -1 else if ks[i] == k then i else IndexFrom(ks, k, i + 1)
  }

  /** First table, in input order, that holds `k`, and the first place it holds it at. */
  function FindAlt(tables: seq<Table>, k: Key): Option<AltRef> {
    if tables == [] then None
    else
      var p := IndexFrom(tables[0].addresses, k, 0);
      if p >= 0 then Some(AltRef(tables[0].key, p)) else FindAlt(tables[1..], k)
  }

  /** The resolved account of one key: flags are the OR over all mentions. */
  function InfoOf(payer: Key, ixs: seq<Instruction>, tables: seq<Table>, k: Key): AccountInfo {
    var ms := Mentions(payer, ixs);
    var signer := SignerIn(ms, k);
    AccountInfo(k, signer, WritableIn(ms, k), if signer || Invoked(ixs, k) then None else FindAlt(tables, k))
  }

  function Infos(payer: Key, ixs: seq<Instruction>, tables: seq<Table>): (accs: seq<AccountInfo>)
    ensures var ks := FirstSeen(Mentions(payer, ixs));
            |accs| == |ks| && forall i :: 0 <= i < |ks| ==> accs[i] == InfoOf(payer, ixs, tables, ks[i])
  {
    var ks := FirstSeen(Mentions(payer, ixs));
    seq(|ks|, i requires 0 <= i < |ks| => InfoOf(payer, ixs, tables, ks[i]))
  }

  // ---- The six account classes ----

  datatype Class = WritableSigner | ReadonlySigner | WritableStatic | ReadonlyStatic | WritableAlt | ReadonlyAlt

  function ClassOf(a: AccountInfo): Class {
    if a.isSigner then (if a.isWritable then WritableSigner else ReadonlySigner)
    else if a.isWritable then (if a.alt.Some? then WritableAlt else WritableStatic)
    else (if a.alt.Some? then ReadonlyAlt else ReadonlyStatic)
  }

  function OfClass(accs: seq<AccountInfo>, c: Class): seq<AccountInfo> {
    if accs == [] then []
    else (if ClassOf(accs[0]) == c then [accs[0]] else []) + OfClass(accs[1..], c)
  }

  function WithKey(accs: seq<AccountInfo>, k: Key, wanted: bool): seq<AccountInfo> {
    if accs == [] then []
    else (if (accs[0].pubkey == k) == wanted then [accs[0]] else []) + WithKey(accs[1..], k, wanted)
  }

  /** The stable sort of the writable signers whose comparator puts the payer first. */
  function PayerFirst(accs: seq<AccountInfo>, payer: Key): seq<AccountInfo> {
    WithKey(accs, payer, true) + WithKey(accs, payer, false)
  }

  function IndexMap(ks: seq<Key>): map<Key, nat> {
    if ks == [] then map[] else IndexMap(ks[..|ks| - 1])[ks[|ks| - 1] := |ks| - 1]
  }

  function Layout(ws: seq<AccountInfo>, rs: seq<AccountInfo>, wu: seq<AccountInfo>,
                  ru: seq<AccountInfo>, wa: seq<AccountInfo>, ra: seq<AccountInfo>): Compiled
  {
    var statics := ws + rs + wu + ru;
    Compiled(statics, wa, ra, IndexMap(Keys(statics + wa + ra)), |ws| + |rs|, |rs|, |ru|)
  }

  function Compile(payer: Key, ixs: seq<Instruction>, tables: seq<Table>): Compiled {
    var accs := Infos(payer, ixs, tables);
    Layout(PayerFirst(OfClass(accs, WritableSigner), payer),
           OfClass(accs, ReadonlySigner),
           OfClass(accs, WritableStatic),
           OfClass(accs, ReadonlyStatic),
           OfClass(accs, WritableAlt),
           OfClass(accs, ReadonlyAlt))
  }

  // ---- The insertion-ordered map that collects mentions in place ----

  class AccountDirectory {
    var order: seq<Key>
    var byKey: map<Key, AccountInfo>
    ghost var mentions: seq<AccountMeta>

    ghost predicate Valid()
      reads this
    {
      && order == FirstSeen(mentions)
      && (forall k :: k in byKey <==> k in order)
      && forall k :: k in byKey ==>
           byKey[k] == AccountInfo(k, SignerIn(mentions, k), WritableIn(mentions, k), None)
    }

    function Values(): (accs: seq<AccountInfo>)
      requires Valid()
      reads this
      ensures |accs| == |order| && forall i :: 0 <= i < |order| ==> accs[i] == byKey[order[i]]
    {
      seq(|order|, i requires 0 <= i < |order| && Valid() reads this => byKey[order[i]])
    }

    constructor ()
      ensures Valid() && mentions == []
    {
      order, byKey, mentions := [], map[], [];
    }

    /** Insert a key, or escalate the flags of the entry it already has. */
    method Upsert(pubkey: Key, isSigner: bool, isWritable: bool)
      requires Valid()
      modifies this
      ensures Valid()
      ensures mentions == old(mentions) + [AccountMeta(pubkey, isSigner, isWritable)]
    {
      hide FirstSeen, SignerIn, WritableIn;
      ghost var m := AccountMeta(pubkey, isSigner, isWritable);
      ghost var before := mentions;
      MentionedMore(before, m);
      if pubkey in byKey {
        var e := byKey[pubkey];
        if isSigner {
          e := e.(isSigner := true);
        }
        if isWritable {
          e := e.(isWritable := true);
        }
        byKey := byKey[pubkey := e];
      } else {
        NotMentioned(before, pubkey);
        byKey := byKey[pubkey := AccountInfo(pubkey, isSigner, isWritable, None)];
        order := order + [pubkey];
      }
      mentions := before + [m];
    }
  }

  lemma {:induction false} OfClassAppend(accs: seq<AccountInfo>, a: AccountInfo, c: Class)
    ensures OfClass(accs + [a], c) == OfClass(accs, c) + (if ClassOf(a) == c then [a] else [])
  {
    hide ClassOf;
    var last := if ClassOf(a) == c then [a] else [];
    if accs == [] {
      assert [] + [a] == [a] && [a][1..] == [];
      assert last + [] == last && [] + last == last;
    } else {
      OfClassAppend(accs[1..], a, c);
      assert (accs + [a])[1..] == accs[1..] + [a] && (accs + [a])[0] == accs[0];
      var head := if ClassOf(accs[0]) == c then [accs[0]] else [];
      assert head + (OfClass(accs[1..], c) + last) == (head + OfClass(accs[1..], c)) + last;
    }
  }

  lemma OfClassPrefix(accs: seq<AccountInfo>, i: nat)
    requires i < |accs|
    ensures forall c :: OfClass(accs[..i + 1], c)
                        == OfClass(accs[..i], c) + (if ClassOf(accs[i]) == c then [accs[i]] else [])
  {
    assert accs[..i + 1] == accs[..i] + [accs[i]];
    forall c {
      OfClassAppend(accs[..i], accs[i], c);
    }
  }

  lemma MentionedMore(ms: seq<AccountMeta>, m: AccountMeta)
    ensures forall k :: SignerIn(ms + [m], k) == (SignerIn(ms, k) || (k == m.pubkey && m.isSigner))
    ensures forall k :: WritableIn(ms + [m], k) == (WritableIn(ms, k) || (k == m.pubkey && m.isWritable))
    ensures FirstSeen(ms + [m]) == if m.pubkey in FirstSeen(ms) then FirstSeen(ms) else FirstSeen(ms) + [m.pubkey]
  {
    assert (ms + [m])[..|ms|] == ms;
    forall k
      ensures SignerIn(ms + [m], k) == (SignerIn(ms, k) || (k == m.pubkey && m.isSigner))
      ensures WritableIn(ms + [m], k) == (WritableIn(ms, k) || (k == m.pubkey && m.isWritable))
    {
      MentionedOne(ms, m, k);
    }
  }

  lemma NotMentioned(ms: seq<AccountMeta>, k: Key)
    requires k !in FirstSeen(ms)
    ensures !SignerIn(ms, k) && !WritableIn(ms, k)
  {
    forall i | 0 <= i < |ms|
      ensures ms[i].pubkey != k
    {
      MentionedIsSeen(ms, i);
    }
  }

  lemma MentionedOne(ms: seq<AccountMeta>, m: AccountMeta, k: Key)
    ensures SignerIn(ms + [m], k) == (SignerIn(ms, k) || (k == m.pubkey && m.isSigner))
    ensures WritableIn(ms + [m], k) == (WritableIn(ms, k) || (k == m.pubkey && m.isWritable))
  {
    var all := ms + [m];
    if SignerIn(ms, k) {
      var i :| 0 <= i < |ms| && ms[i].pubkey == k && ms[i].isSigner;
      assert all[i] == ms[i];
    }
    if WritableIn(ms, k) {
      var i :| 0 <= i < |ms| && ms[i].pubkey == k && ms[i].isWritable;
      assert all[i] == ms[i];
    }
    assert all[|ms|] == m;
  }

  lemma {:induction false} MentionedIsSeen(ms: seq<AccountMeta>, i: nat)
    requires i < |ms|
    ensures ms[i].pubkey in FirstSeen(ms)
  {
    var before := FirstSeen(ms[..|ms| - 1]);
    if i < |ms| - 1 {
      MentionedIsSeen(ms[..|ms| - 1], i);
    } else if ms[i].pubkey !in before {
      assert (before + [ms[i].pubkey])[|before|] == ms[i].pubkey;
    }
  }

  lemma {:induction false} FirstSeenDistinct(ms: seq<AccountMeta>)
    ensures var ks := FirstSeen(ms); forall i, j :: 0 <= i < j < |ks| ==> ks[i] != ks[j]
    ensures forall k :: k in FirstSeen(ms) ==> exists i :: 0 <= i < |ms| && ms[i].pubkey == k
    ensures ms != [] ==> FirstSeen(ms) != [] && FirstSeen(ms)[0] == ms[0].pubkey
  {
    if ms != [] {
      var init := ms[..|ms| - 1];
      FirstSeenDistinct(init);
      forall k | k in FirstSeen(ms)
        ensures exists i :: 0 <= i < |ms| && ms[i].pubkey == k
      {
        if k in FirstSeen(init) {
          var i :| 0 <= i < |init| && init[i].pubkey == k;
          assert ms[i].pubkey == k;
        } else {
          assert ms[|ms| - 1].pubkey == k;
        }
      }
    }
  }

  // ---- The source's passes ----

  method FindIndex(ks: seq<Key>, k: Key) returns (p: int)
    ensures p == IndexFrom(ks, k, 0)
  {
    for i := 0 to |ks|
      invariant IndexFrom(ks, k, 0) == IndexFrom(ks, k, i)
    {
      if ks[i] == k {
        return i;
      }
    }
    return -1;
  }

  method UpsertAll(dir: AccountDirectory, keys: seq<AccountMeta>)
    requires dir.Valid()
    modifies dir
    ensures dir.Valid() && dir.mentions == old(dir.mentions) + keys
  {
    for j := 0 to |keys|
      invariant dir.Valid() && dir.mentions == old(dir.mentions) + keys[..j]
    {
      dir.Upsert(keys[j].pubkey, keys[j].isSigner, keys[j].isWritable);
      assert keys[..j + 1] == keys[..j] + [keys[j]];
    }
  }

  method CollectMentions(payer: Key, ixs: seq<Instruction>) returns (dir: AccountDirectory)
    ensures fresh(dir) && dir.Valid() && dir.mentions == Mentions(payer, ixs)
  {
    dir := new AccountDirectory();
    dir.Upsert(payer, true, true);
    for i := 0 to |ixs|
      invariant dir.Valid() && dir.mentions == Mentions(payer, ixs[..i])
    {
      MentionsOfPrefix(ixs, i);
      dir.Upsert(ixs[i].programId, false, false);
      UpsertAll(dir, ixs[i].keys);
    }
    assert ixs[..|ixs|] == ixs;
  }

  lemma MentionsOfPrefix(ixs: seq<Instruction>, i: nat)
    requires i < |ixs|
    ensures MentionsOf(ixs[..i + 1])
            == MentionsOf(ixs[..i]) + [AccountMeta(ixs[i].programId, false, false)] + ixs[i].keys
  {
    assert ixs[..i + 1] == ixs[..i] + [ixs[i]];
    MentionsOfAppend(ixs[..i], ixs[i]);
  }

  lemma {:induction false} MentionsOfAppend(ixs: seq<Instruction>, ix: Instruction)
    ensures MentionsOf(ixs + [ix]) == MentionsOf(ixs) + [AccountMeta(ix.programId, false, false)] + ix.keys
  {
    if ixs == [] {
      assert [] + [ix] == [ix];
      assert MentionsOf([ix][1..]) == [];
    } else {
      MentionsOfAppend(ixs[1..], ix);
      assert (ixs + [ix])[1..] == ixs[1..] + [ix];
    }
  }

  method LookUpTables(tables: seq<Table>, k: Key) returns (alt: Option<AltRef>)
    ensures alt == FindAlt(tables, k)
  {
    for t := 0 to |tables|
      invariant FindAlt(tables, k) == FindAlt(tables[t..], k)
    {
      var idx := FindIndex(tables[t].addresses, k);
      if idx >= 0 {
        return Some(AltRef(tables[t].key, idx));
      }
    }
    return None;
  }

  lemma InvokedIn(ixs: seq<Instruction>, k: Key)
    ensures k in (set i | 0 <= i < |ixs| :: ixs[i].programId) <==> Invoked(ixs, k)
  {
  }

  /** The values of the map are the accounts before any is looked up in a table. */
  lemma ValuesUnresolved(dir: AccountDirectory, payer: Key, ixs: seq<Instruction>, tables: seq<Table>)
    requires dir.Valid() && dir.mentions == Mentions(payer, ixs)
    ensures |dir.Values()| == |Infos(payer, ixs, tables)|
    ensures forall j :: 0 <= j < |dir.Values()| ==> dir.Values()[j] == Infos(payer, ixs, tables)[j].(alt := None)
  {
    hide FirstSeen, SignerIn, WritableIn, Mentions, FindAlt, Invoked;
  }

  lemma InfoAlt(payer: Key, ixs: seq<Instruction>, tables: seq<Table>, j: nat)
    requires j < |Infos(payer, ixs, tables)|
    ensures var a := Infos(payer, ixs, tables)[j];
            a.alt == if a.isSigner || Invoked(ixs, a.pubkey) then None else FindAlt(tables, a.pubkey)
  {
    hide FirstSeen, SignerIn, WritableIn, Mentions, FindAlt, Invoked;
  }

  /** The values of the map, then the in-place table resolution of every non-signer, non-program key. */
  method ResolveAccounts(dir: AccountDirectory, payer: Key, ixs: seq<Instruction>, tables: seq<Table>)
    returns (accounts: seq<AccountInfo>)
    requires dir.Valid() && dir.mentions == Mentions(payer, ixs)
    ensures accounts == Infos(payer, ixs, tables)
  {
    hide FirstSeen, SignerIn, WritableIn, Mentions, FindAlt, Invoked, Infos, AccountDirectory.Valid;
    var invoked := set i | 0 <= i < |ixs| :: ixs[i].programId;
    accounts := dir.Values();
    ValuesUnresolved(dir, payer, ixs, tables);
    ghost var goal := Infos(payer, ixs, tables);
    for i := 0 to |accounts|
      invariant |accounts| == |goal|
      invariant forall j :: 0 <= j < i ==> accounts[j] == goal[j]
      invariant forall j :: i <= j < |accounts| ==> accounts[j] == goal[j].(alt := None)
    {
      var acc := accounts[i];
      InfoAlt(payer, ixs, tables, i);
      InvokedIn(ixs, acc.pubkey);
      if acc.isSigner || acc.pubkey in invoked {
        continue;
      }
      var alt := LookUpTables(tables, acc.pubkey);
      if alt.Some? {
        accounts := accounts[i := acc.(alt := alt)];
      }
    }
  }

  method AssignIndexes(indexOf: map<Key, nat>, idx: nat, accs: seq<AccountInfo>, ghost done: seq<AccountInfo>)
    returns (index': map<Key, nat>, idx': nat)
    requires indexOf == IndexMap(Keys(done)) && idx == |done|
    ensures index' == IndexMap(Keys(done + accs)) && idx' == |done + accs|
  {
    index', idx' := indexOf, idx;
    assert done + accs[..0] == done;
    for i := 0 to |accs|
      invariant idx' == |done| + i
      invariant index' == IndexMap(Keys(done + accs[..i]))
    {
      assert Keys(done + accs[..i + 1])[..|done| + i] == Keys(done + accs[..i]);
      index' := index'[accs[i].pubkey := idx'];
      idx' := idx' + 1;
    }
    assert accs[..|accs|] == accs;
  }

  /** The partition loop, one push per account. */
  method Partition(accounts: seq<AccountInfo>)
    returns (ws: seq<AccountInfo>, rs: seq<AccountInfo>, wu: seq<AccountInfo>,
             ru: seq<AccountInfo>, wa: seq<AccountInfo>, ra: seq<AccountInfo>)
    ensures ws == OfClass(accounts, WritableSigner) && rs == OfClass(accounts, ReadonlySigner)
    ensures wu == OfClass(accounts, WritableStatic) && ru == OfClass(accounts, ReadonlyStatic)
    ensures wa == OfClass(accounts, WritableAlt) && ra == OfClass(accounts, ReadonlyAlt)
  {
    ws, rs, wu, ru, wa, ra := [], [], [], [], [], [];
    for i := 0 to |accounts|
      invariant ws == OfClass(accounts[..i], WritableSigner) && rs == OfClass(accounts[..i], ReadonlySigner)
      invariant wu == OfClass(accounts[..i], WritableStatic) && ru == OfClass(accounts[..i], ReadonlyStatic)
      invariant wa == OfClass(accounts[..i], WritableAlt) && ra == OfClass(accounts[..i], ReadonlyAlt)
    {
      var acc := accounts[i];
      OfClassPrefix(accounts, i);
      if acc.isSigner && acc.isWritable {
        ws := ws + [acc];
      } else if acc.isSigner && !acc.isWritable {
        rs := rs + [acc];
      } else if !acc.isSigner && acc.isWritable {
        if acc.alt.Some? {
          wa := wa + [acc];
        } else {
          wu := wu + [acc];
        }
      } else {
        if acc.alt.Some? {
          ra := ra + [acc];
        } else {
          ru := ru + [acc];
        }
      }
    }
    assert accounts[..|accounts|] == accounts;
  }

  method CompileAccounts(payer: Key, ixs: seq<Instruction>, tables: seq<Table>) returns (c: Compiled)
    ensures c == Compile(payer, ixs, tables)
  {
    var dir := CollectMentions(payer, ixs);
    var accounts := ResolveAccounts(dir, payer, ixs, tables);
    var ws, rs, wu, ru, wa, ra := Partition(accounts);
    ws := PayerFirst(ws, payer);
    var indexOf := BuildIndex(ws + rs + wu + ru, wa, ra);
    return Compiled(ws + rs + wu + ru, wa, ra, indexOf, |ws| + |rs|, |rs|, |ru|);
  }

  /** Index lookup: static accounts first, then writable table accounts, then readonly ones. */
  method BuildIndex(statics: seq<AccountInfo>, wa: seq<AccountInfo>, ra: seq<AccountInfo>)
    returns (indexOf: map<Key, nat>)
    ensures indexOf == IndexMap(Keys(statics + wa + ra))
  {
    assert [] + statics == statics;
    var idx: nat;
    indexOf, idx := AssignIndexes(map[], 0, statics, []);
    indexOf, idx := AssignIndexes(indexOf, idx, wa, statics);
    indexOf, idx := AssignIndexes(indexOf, idx, ra, statics + wa);
  }
}
