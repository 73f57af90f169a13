/** When a compiled message reads back whole, from the instructions and the tables alone. */
module TxGrouping {
  import opened Wrappers
  import opened Bytes
  import opened TxTypes
  import opened TxCompile
  import opened TxLayout
  import opened TxMessage
  import opened TxAssemble
  import opened TxReader
  import opened TxRoundTrip
  import opened TxMeaning
  import opened TxTheorems

  /** The key neither signs nor is invoked, and some table holds it. */
  predicate Moves(payer: Key, ixs: seq<Instruction>, tables: seq<Table>, k: Key) {
    !SignerIn(Mentions(payer, ixs), k) && !Invoked(ixs, k) && FindAlt(tables, k).Some?
  }

  /** The tables the writable (or the readonly) keys among `ks` move to, key by key. */
  function MovedTo(payer: Key, ixs: seq<Instruction>, tables: seq<Table>, ks: seq<Key>, writable: bool): seq<Key> {
    if ks == [] then []
    else
      (if Moves(payer, ixs, tables, ks[0]) && WritableIn(Mentions(payer, ixs), ks[0]) == writable
       then [FindAlt(tables, ks[0]).value.key] else [])
      + MovedTo(payer, ixs, tables, ks[1..], writable)
  }

  /** Along `xs` the tables keep the order in which `all` first names them. */
  predicate Rising(xs: seq<Key>, all: seq<Key>) {
    forall i, j :: 0 <= i < j < |xs| ==> Rank(all, xs[i]) <= Rank(all, xs[j])
  }

  /**
   * Keys in the order they are first mentioned: neither the writable nor the readonly ones return to a table after
   * another, and the readonly ones go through the tables in the order the writable ones did.
   */
  predicate TablesInOrder(payer: Key, ixs: seq<Instruction>, tables: seq<Table>) {
    var ks := FirstSeen(Mentions(payer, ixs));
    var w, r := MovedTo(payer, ixs, tables, ks, true), MovedTo(payer, ixs, tables, ks, false);
    Rising(w, w + r) && Rising(r, w + r)
  }

  function AltKeys(accs: seq<AccountInfo>): (ks: seq<Key>)
    requires Covered(accs)
    ensures |ks| == |accs| && forall i :: 0 <= i < |accs| ==> ks[i] == accs[i].alt.value.key
  {
    seq(|accs|, i requires 0 <= i < |accs| => accs[i].alt.value.key)
  }

  lemma {:induction false} RankWithin(ks: seq<Key>, x: Key)
    ensures if x in ks then Rank(ks, x) < |ks| else Rank(ks, x) == |ks|
  {
    if ks != [] {
      RankWithin(ks[1..], x);
      assert x in ks <==> x == ks[0] || x in ks[1..];
    }
  }

  lemma {:induction false} RankAppend(ks: seq<Key>, k: Key, x: Key)
    requires x in ks || x == k
    ensures Rank(ks + [k], x) == if x in ks then Rank(ks, x) else |ks|
  {
    if ks == [] {
      assert ks + [k] == [k];
    } else if ks[0] != x {
      assert (ks + [k])[1..] == ks[1..] + [k];
      RankAppend(ks[1..], k, x);
    }
  }

  /** The wire's table order ranks tables as their first appearances do. */
  lemma {:induction false} SameRanking(accs: seq<AccountInfo>, a: Key, b: Key)
    requires Covered(accs) && a in AltKeys(accs) && b in AltKeys(accs)
    ensures Rank(TableOrder(accs), a) <= Rank(TableOrder(accs), b) <==> Rank(AltKeys(accs), a) <= Rank(AltKeys(accs), b)
    decreases |accs|
  {
    hide Rank;
    var front, last := accs[..|accs| - 1], accs[|accs| - 1];
    var t, l, k := TableOrder(front), AltKeys(front), last.alt.value.key;
    assert AltKeys(accs) == l + [k];
    TablesAre(front);
    forall x | x == a || x == b
      ensures x in t <==> x in l
      ensures Rank(l + [k], x) == if x in l then Rank(l, x) else |l|
      ensures Rank(TableOrder(accs), x) == if x in t then Rank(t, x) else |t|
      ensures (x in t ==> Rank(t, x) < |t|) && (x in l ==> Rank(l, x) < |l|)
    {
      RankAppend(l, k, x);
      RankWithin(t, x);
      RankWithin(l, x);
      if k !in t {
        RankAppend(t, k, x);
      }
    }
    if a in l && b in l {
      SameRanking(front, a, b);
    }
  }

  lemma TablesAre(accs: seq<AccountInfo>)
    requires Covered(accs)
    ensures forall k :: k in TableOrder(accs) <==> k in AltKeys(accs)
  {
    TableOrderFacts(accs);
    forall k | k in TableOrder(accs)
      ensures k in AltKeys(accs)
    {
      var i :| 0 <= i < |accs| && accs[i].alt.value.key == k;
      assert AltKeys(accs)[i] == k;
    }
  }

  lemma GroupedRising(part: seq<AccountInfo>, all: seq<AccountInfo>)
    requires Covered(part) && Covered(all) && forall i :: 0 <= i < |part| ==> part[i] in all
    ensures Grouped(part, TableOrder(all)) <==> Rising(AltKeys(part), AltKeys(all))
  {
    hide Rank, TableOrder;
    forall i, j | 0 <= i < j < |part|
      ensures Rank(TableOrder(all), part[i].alt.value.key) <= Rank(TableOrder(all), part[j].alt.value.key)
              <==> Rank(AltKeys(all), AltKeys(part)[i]) <= Rank(AltKeys(all), AltKeys(part)[j])
    {
      var p :| 0 <= p < |all| && all[p] == part[i];
      var q :| 0 <= q < |all| && all[q] == part[j];
      assert AltKeys(all)[p] == part[i].alt.value.key && AltKeys(all)[q] == part[j].alt.value.key;
      SameRanking(all, part[i].alt.value.key, part[j].alt.value.key);
    }
  }

  /** A table class of the compiler holds the moved keys, in order. */
  lemma {:induction false} ClassMoved(payer: Key, ixs: seq<Instruction>, tables: seq<Table>, ks: seq<Key>,
                                      accs: seq<AccountInfo>, writable: bool)
    requires |accs| == |ks| && forall i :: 0 <= i < |ks| ==> accs[i] == InfoOf(payer, ixs, tables, ks[i])
    ensures var part := OfClass(accs, if writable then WritableAlt else ReadonlyAlt);
            Covered(part) && AltKeys(part) == MovedTo(payer, ixs, tables, ks, writable)
    decreases |ks|
  {
    hide FindAlt, SignerIn, WritableIn, Mentions;
    if ks != [] {
      ClassMoved(payer, ixs, tables, ks[1..], accs[1..], writable);
      assert accs[0] == InfoOf(payer, ixs, tables, ks[0]);
    }
  }

  /** The compiler's classes come out grouped by table exactly when the inputs say so. */
  lemma GroupedIff(payer: Key, ixs: seq<Instruction>, tables: seq<Table>)
    ensures GroupedByTable(Compile(payer, ixs, tables)) <==> TablesInOrder(payer, ixs, tables)
  {
    hide Rising, MovedTo, TableOrder, Grouped, InfoOf, FirstSeen, Mentions;
    var c := Compile(payer, ixs, tables);
    var ks, accs := FirstSeen(Mentions(payer, ixs)), Infos(payer, ixs, tables);
    ClassMoved(payer, ixs, tables, ks, accs, true);
    ClassMoved(payer, ixs, tables, ks, accs, false);
    var all := c.altWritable + c.altReadonly;
    assert AltKeys(all) == AltKeys(c.altWritable) + AltKeys(c.altReadonly);
    GroupedRising(c.altWritable, all);
    GroupedRising(c.altReadonly, all);
  }

  /**
   * Compiling and reading back gives the very instructions, account keys included, exactly when the moved keys visit
   * the tables in order: a caller can tell before compiling.
   */
  lemma KeysBackIff(payer: Key, ixs: seq<Instruction>, tables: seq<Table>, blockhash: string, m: map<Key, seq<Key>>)
    requires Fits(Compile(payer, ixs, tables), ixs) && BlockhashOk(blockhash) && Agrees(m, tables)
    ensures Compilable(payer, ixs, tables, blockhash)
    ensures var d := Decompile(MessageOf(payer, ixs, tables, blockhash), FromTables(m));
            d.Ok? && (d.value.instructions == Escalated(payer, ixs) <==> TablesInOrder(payer, ixs, tables))
  {
    hide Compile, Decompile, Fits, GroupedByTable, TablesInOrder, Compilable, MessageOf, Escalated, SameUpToKeys;
    CompileDecompile(payer, ixs, tables, blockhash, m);
    GroupedIff(payer, ixs, tables);
  }
}
