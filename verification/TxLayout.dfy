/** What every compiled account table satisfies: each mention keeps its slot and its flags. */
module TxLayout {
  import opened Wrappers
  import opened Bytes
  import opened TxTypes
  import opened TxCompile

  lemma {:induction false} OfClassMembers(accs: seq<AccountInfo>, c: Class)
    ensures forall a :: a in OfClass(accs, c) <==> a in accs && ClassOf(a) == c
  {
    if accs != [] {
      OfClassMembers(accs[1..], c);
      assert accs == [accs[0]] + accs[1..];
    }
  }

  lemma {:induction false} OfClassDistinct(accs: seq<AccountInfo>, c: Class)
    requires DistinctKeys(accs)
    ensures DistinctKeys(OfClass(accs, c))
  {
    if accs != [] {
      var rest := OfClass(accs[1..], c);
      OfClassDistinct(accs[1..], c);
      OfClassMembers(accs[1..], c);
      forall i | 0 <= i < |rest|
        ensures rest[i].pubkey != accs[0].pubkey
      {
        assert rest[i] in accs[1..];
      }
    }
  }

  lemma {:induction false} WithoutKey(accs: seq<AccountInfo>, k: Key)
    requires forall i :: 0 <= i < |accs| ==> accs[i].pubkey != k
    ensures WithKey(accs, k, true) == [] && WithKey(accs, k, false) == accs
  {
    if accs != [] {
      WithoutKey(accs[1..], k);
    }
  }

  /** The payer is inserted first, so the payer-first sort never moves anything. */
  lemma PayerFirstKeepsOrder(accs: seq<AccountInfo>, payer: Key)
    requires DistinctKeys(accs) && accs != [] && accs[0].pubkey == payer
    ensures PayerFirst(accs, payer) == accs
  {
    WithoutKey(accs[1..], payer);
    assert accs == [accs[0]] + accs[1..];
  }

  lemma {:induction false} IndexMapAt(ks: seq<Key>, i: nat)
    requires i < |ks|
    requires forall a, b :: 0 <= a < b < |ks| ==> ks[a] != ks[b]
    ensures ks[i] in IndexMap(ks) && IndexMap(ks)[ks[i]] == i
  {
    if i < |ks| - 1 {
      IndexMapAt(ks[..|ks| - 1], i);
    }
  }

  ghost predicate AllOfClass(accs: seq<AccountInfo>, c: Class) {
    forall i :: 0 <= i < |accs| ==> ClassOf(accs[i]) == c
  }

  /** Two sub-lists of one distinct-key list whose members never coincide join into a distinct-key list. */
  lemma DistinctJoin(all: seq<AccountInfo>, a: seq<AccountInfo>, b: seq<AccountInfo>)
    requires DistinctKeys(all) && DistinctKeys(a) && DistinctKeys(b)
    requires forall i :: 0 <= i < |a| ==> a[i] in all
    requires forall j :: 0 <= j < |b| ==> b[j] in all
    requires forall i, j :: 0 <= i < |a| && 0 <= j < |b| ==> a[i] != b[j]
    ensures DistinctKeys(a + b)
    ensures forall i :: 0 <= i < |a + b| ==> (a + b)[i] in all
  {
    forall i, j | 0 <= i < |a| && 0 <= j < |b|
      ensures a[i].pubkey != b[j].pubkey
    {
      var p :| 0 <= p < |all| && all[p] == a[i];
      var q :| 0 <= q < |all| && all[q] == b[j];
      assert p != q;
    }
  }

  lemma InfosDistinct(payer: Key, ixs: seq<Instruction>, tables: seq<Table>)
    ensures DistinctKeys(Infos(payer, ixs, tables))
    ensures var accs := Infos(payer, ixs, tables);
            && accs != []
            && accs[0].pubkey == payer && ClassOf(accs[0]) == WritableSigner
  {
    FirstSeenDistinct(Mentions(payer, ixs));
    var ms := Mentions(payer, ixs);
    assert ms[0] == AccountMeta(payer, true, true);
  }

  /** How the reader recovers the flags of slot `i` from the header counts alone. */
  predicate SlotSigner(c: Compiled, i: nat) {
    i < c.numRequired
  }

  predicate SlotWritable(c: Compiled, i: nat) {
    if i < c.numRequired then i < c.numRequired - c.numReadonlySigned
    else if i < |c.staticAccounts| then i < |c.staticAccounts| - c.numReadonlyUnsigned
    else i < |c.staticAccounts| + |c.altWritable|
  }

  ghost predicate WellLaidOut(c: Compiled) {
    && DistinctKeys(c.Order())
    && c.numRequired <= |c.staticAccounts|
    && c.numReadonlySigned <= c.numRequired
    && c.numReadonlyUnsigned <= |c.staticAccounts| - c.numRequired
    && (forall i :: 0 <= i < |c.Order()| ==>
          && c.Order()[i].isSigner == SlotSigner(c, i)
          && c.Order()[i].isWritable == SlotWritable(c, i))
    && (forall i :: 0 <= i < |c.altWritable| ==> c.altWritable[i].alt.Some?)
    && (forall i :: 0 <= i < |c.altReadonly| ==> c.altReadonly[i].alt.Some?)
    && forall i :: 0 <= i < |c.Order()| ==>
         && c.Order()[i].pubkey in c.indexOf
         && c.indexOf[c.Order()[i].pubkey] == i
  }

  /** One class of a distinct-key account list, with everything the layout needs to know about it. */
  ghost predicate IsClass(all: seq<AccountInfo>, part: seq<AccountInfo>, c: Class) {
    && DistinctKeys(part) && AllOfClass(part, c)
    && forall i :: 0 <= i < |part| ==> part[i] in all
  }

  lemma ClassIsClass(all: seq<AccountInfo>, c: Class)
    requires DistinctKeys(all)
    ensures IsClass(all, OfClass(all, c), c)
  {
    OfClassMembers(all, c);
    OfClassDistinct(all, c);
  }

  lemma SixDistinct(all: seq<AccountInfo>, ws: seq<AccountInfo>, rs: seq<AccountInfo>, wu: seq<AccountInfo>,
                    ru: seq<AccountInfo>, wa: seq<AccountInfo>, ra: seq<AccountInfo>)
    requires DistinctKeys(all)
    requires IsClass(all, ws, WritableSigner) && IsClass(all, rs, ReadonlySigner)
    requires IsClass(all, wu, WritableStatic) && IsClass(all, ru, ReadonlyStatic)
    requires IsClass(all, wa, WritableAlt) && IsClass(all, ra, ReadonlyAlt)
    ensures DistinctKeys(ws + rs + wu + ru + wa + ra)
  {
    DistinctJoin(all, ws, rs);
    DistinctJoin(all, ws + rs, wu);
    DistinctJoin(all, ws + rs + wu, ru);
    DistinctJoin(all, ws + rs + wu + ru, wa);
    DistinctJoin(all, ws + rs + wu + ru + wa, ra);
  }

  lemma SixMembers(all: seq<AccountInfo>)
    ensures forall a :: a in OfClass(all, WritableSigner) + OfClass(all, ReadonlySigner)
                          + OfClass(all, WritableStatic) + OfClass(all, ReadonlyStatic)
                          + OfClass(all, WritableAlt) + OfClass(all, ReadonlyAlt)
                        <==> a in all
  {
    OfClassMembers(all, WritableSigner);
    OfClassMembers(all, ReadonlySigner);
    OfClassMembers(all, WritableStatic);
    OfClassMembers(all, ReadonlyStatic);
    OfClassMembers(all, WritableAlt);
    OfClassMembers(all, ReadonlyAlt);
  }

  lemma SixLaidOut(ws: seq<AccountInfo>, rs: seq<AccountInfo>, wu: seq<AccountInfo>,
                   ru: seq<AccountInfo>, wa: seq<AccountInfo>, ra: seq<AccountInfo>)
    requires AllOfClass(ws, WritableSigner) && AllOfClass(rs, ReadonlySigner)
    requires AllOfClass(wu, WritableStatic) && AllOfClass(ru, ReadonlyStatic)
    requires AllOfClass(wa, WritableAlt) && AllOfClass(ra, ReadonlyAlt)
    requires DistinctKeys(ws + rs + wu + ru + wa + ra)
    ensures WellLaidOut(Layout(ws, rs, wu, ru, wa, ra))
  {
    var order := ws + rs + wu + ru + wa + ra;
    forall i | 0 <= i < |order|
      ensures order[i].pubkey in IndexMap(Keys(order)) && IndexMap(Keys(order))[order[i].pubkey] == i
    {
      IndexMapAt(Keys(order), i);
    }
    var c := Layout(ws, rs, wu, ru, wa, ra);
    assert c.Order() == order;
    forall i | 0 <= i < |order|
      ensures order[i].isSigner == SlotSigner(c, i) && order[i].isWritable == SlotWritable(c, i)
    {
      SlotClass(ws, rs, wu, ru, wa, ra, i);
    }
  }

  lemma SlotClass(ws: seq<AccountInfo>, rs: seq<AccountInfo>, wu: seq<AccountInfo>,
                  ru: seq<AccountInfo>, wa: seq<AccountInfo>, ra: seq<AccountInfo>, i: nat)
    requires AllOfClass(ws, WritableSigner) && AllOfClass(rs, ReadonlySigner)
    requires AllOfClass(wu, WritableStatic) && AllOfClass(ru, ReadonlyStatic)
    requires AllOfClass(wa, WritableAlt) && AllOfClass(ra, ReadonlyAlt)
    requires i < |ws + rs + wu + ru + wa + ra|
    ensures var n1 := |ws|; var n2 := n1 + |rs|; var n3 := n2 + |wu|; var n4 := n3 + |ru|; var n5 := n4 + |wa|;
            ClassOf((ws + rs + wu + ru + wa + ra)[i]) ==
            if i < n1 then WritableSigner else if i < n2 then ReadonlySigner else if i < n3 then WritableStatic
            else if i < n4 then ReadonlyStatic else if i < n5 then WritableAlt else ReadonlyAlt
  {
  }

  lemma CompileWellLaidOut(payer: Key, ixs: seq<Instruction>, tables: seq<Table>)
    ensures var c := Compile(payer, ixs, tables);
            && WellLaidOut(c)
            && (forall a :: a in c.Order() <==> a in Infos(payer, ixs, tables))
            && c.numRequired >= 1 && c.staticAccounts[0].pubkey == payer
  {
    var all := Infos(payer, ixs, tables);
    InfosDistinct(payer, ixs, tables);
    var ws := OfClass(all, WritableSigner);
    OfClassDistinct(all, WritableSigner);
    PayerFirstKeepsOrder(ws, payer);
    var rs, wu, ru := OfClass(all, ReadonlySigner), OfClass(all, WritableStatic), OfClass(all, ReadonlyStatic);
    var wa, ra := OfClass(all, WritableAlt), OfClass(all, ReadonlyAlt);
    ClassIsClass(all, WritableSigner);
    ClassIsClass(all, ReadonlySigner);
    ClassIsClass(all, WritableStatic);
    ClassIsClass(all, ReadonlyStatic);
    ClassIsClass(all, WritableAlt);
    ClassIsClass(all, ReadonlyAlt);
    SixDistinct(all, ws, rs, wu, ru, wa, ra);
    SixLaidOut(ws, rs, wu, ru, wa, ra);
    SixMembers(all);
  }

  /**
   * Every mention keeps exactly one slot, and the flags the header gives that slot are the OR
   * of the flags over all mentions of the key. Signers and invoked programs stay in the static list.
   */
  lemma MentionKeepsSlot(payer: Key, ixs: seq<Instruction>, tables: seq<Table>, m: nat)
    requires m < |Mentions(payer, ixs)|
    ensures var c := Compile(payer, ixs, tables);
            var k := Mentions(payer, ixs)[m].pubkey;
            && k in c.indexOf
            && c.indexOf[k] < |c.Order()|
            && c.Order()[c.indexOf[k]].pubkey == k
            && (SlotSigner(c, c.indexOf[k]) <==> SignerIn(Mentions(payer, ixs), k))
            && (SlotWritable(c, c.indexOf[k]) <==> WritableIn(Mentions(payer, ixs), k))
            && (SignerIn(Mentions(payer, ixs), k) || Invoked(ixs, k) ==> c.indexOf[k] < |c.staticAccounts|)
  {
    var c := Compile(payer, ixs, tables);
    var ms := Mentions(payer, ixs);
    var k := ms[m].pubkey;
    CompileWellLaidOut(payer, ixs, tables);
    MentionedIsSeen(ms, m);
    var ks := FirstSeen(ms);
    var p :| 0 <= p < |ks| && ks[p] == k;
    var a := Infos(payer, ixs, tables)[p];
    assert a in c.Order();
    var i :| 0 <= i < |c.Order()| && c.Order()[i] == a;
    if i >= |c.staticAccounts| {
      assert a.alt.Some?;
    }
  }
}
