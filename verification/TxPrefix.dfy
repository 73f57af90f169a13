/** What the reader refuses outright, and that it never stops short (packages/solana-tx/src/transaction-codec.ts). */
module TxPrefix {
  import opened Wrappers
  import opened Bytes
  import opened TxTypes
  import opened TxReader
  import CompactU16

  // ---- Versions ----

  /** Only legacy and v0 messages are read: the first byte is below 128, or 128 itself; 129 has its own error. */
  lemma VersionIs(bytes: seq<byte>, src: Source)
    requires bytes != [] && bytes[0] > 0x80
    ensures Decompile(bytes, src) == Err(if bytes[0] == 0x81 then V1Format else Malformed)
    ensures Signers(bytes) == Err(if bytes[0] == 0x81 then V1Format else Malformed)
  {
  }

  // ---- Wire transactions ----

  lemma {:induction false} ChunksCount(bytes: seq<byte>, off: nat, n: nat)
    requires off + 64 * n <= |bytes|
    ensures |Chunks(bytes, off, n)| == n
    decreases n
  {
    if n > 0 {
      ChunksCount(bytes, off + 64, n - 1);
    }
  }

  lemma {:induction false} ChunkAt(bytes: seq<byte>, off: nat, n: nat, i: nat)
    requires off + 64 * n <= |bytes| && i < n
    ensures |Chunks(bytes, off, n)| == n && Chunks(bytes, off, n)[i] == bytes[off + 64 * i..off + 64 * (i + 1)]
    decreases n
  {
    ChunksCount(bytes, off, n);
    if i > 0 {
      ChunkAt(bytes, off + 64, n - 1, i - 1);
    }
  }

  /**
   * Splitting a wire transaction: it works exactly when the count can be read, is not the v1 marker and leaves at least
   * one byte of message; then signature `i` is the i-th run of 64 bytes behind the count, and the message the rest.
   */
  lemma SplitIs(bytes: seq<byte>)
    ensures DecodeTx(bytes).Ok?
            <==> && bytes != [] && bytes[0] != 0x81 && ReadCompact(bytes, 0).Ok?
                 && ReadCompact(bytes, 0).value.length + 64 * ReadCompact(bytes, 0).value.value < |bytes|
    ensures DecodeTx(bytes).Ok? ==>
              var n, d := ReadCompact(bytes, 0).value, DecodeTx(bytes).value;
              && d.messageBytes == bytes[n.length + 64 * n.value..] && |d.signatures| == n.value
              && forall i :: 0 <= i < n.value ==>
                   d.signatures[i] == bytes[n.length + 64 * i..n.length + 64 * (i + 1)]
  {
    hide ReadCompact, Chunks;
    if DecodeTx(bytes).Ok? {
      var n := ReadCompact(bytes, 0).value;
      ChunksCount(bytes, n.length, n.value);
      forall i | 0 <= i < n.value
        ensures Chunks(bytes, n.length, n.value)[i] == bytes[n.length + 64 * i..n.length + 64 * (i + 1)]
      {
        ChunkAt(bytes, n.length, n.value, i);
      }
    }
  }

  // ---- Reading on in longer bytes ----

  lemma {:induction false} NumberStays(a: seq<byte>, b: seq<byte>, off: nat, budget: nat)
    requires a <= b && budget >= 1
    ensures CompactU16.ReadFrom(a, off, budget).Ok? ==>
              CompactU16.ReadFrom(b, off, budget) == CompactU16.ReadFrom(a, off, budget)
    decreases budget
  {
    if budget > 1 {
      NumberStays(a, b, off + 1, budget - 1);
    }
  }

  lemma CompactStays(a: seq<byte>, b: seq<byte>, off: nat)
    requires a <= b
    ensures ReadCompact(a, off).Ok? ==> ReadCompact(b, off) == ReadCompact(a, off)
  {
    NumberStays(a, b, off, CompactU16.MAX_BYTES);
    hide CompactU16.ReadFrom;
  }

  lemma ArrayStays(a: seq<byte>, b: seq<byte>, off: nat)
    requires a <= b
    ensures ReadArray(a, off).Ok? ==> ReadArray(b, off) == ReadArray(a, off)
  {
    hide ReadCompact;
    CompactStays(a, b, off);
    if ReadArray(a, off).Ok? {
      var n := ReadCompact(a, off).value;
      assert b[off + n.length..off + n.length + n.value] == a[off + n.length..off + n.length + n.value];
    }
  }

  lemma {:induction false} KeysStay(a: seq<byte>, b: seq<byte>, off: nat, n: nat)
    requires a <= b && off + 32 * n <= |a|
    ensures ReadKeys(b, off, n) == ReadKeys(a, off, n)
    decreases n
  {
    if n > 0 {
      assert b[off..off + 32] == a[off..off + 32];
      KeysStay(a, b, off + 32, n - 1);
    }
  }

  lemma RawStays(a: seq<byte>, b: seq<byte>, off: nat, nKeys: nat)
    requires a <= b
    ensures ReadRaw(a, off, nKeys).Ok? ==> ReadRaw(b, off, nKeys) == ReadRaw(a, off, nKeys)
  {
    hide ReadArray;
    ArrayStays(a, b, off + 1);
    if ReadArray(a, off + 1).Ok? {
      ArrayStays(a, b, ReadArray(a, off + 1).value.1);
    }
  }

  lemma {:induction false} RawsStay(a: seq<byte>, b: seq<byte>, off: nat, nKeys: nat, n: nat)
    requires a <= b && off <= |a|
    ensures ReadRaws(a, off, nKeys, n).Ok? ==> ReadRaws(b, off, nKeys, n) == ReadRaws(a, off, nKeys, n)
    decreases n
  {
    hide ReadRaw;
    if n > 0 {
      RawStays(a, b, off, nKeys);
      if ReadRaw(a, off, nKeys).Ok? {
        RawsStay(a, b, ReadRaw(a, off, nKeys).value.1, nKeys, n - 1);
      }
    }
  }

  lemma IndexListStays(a: seq<byte>, b: seq<byte>, off: nat, addresses: Option<seq<Key>>)
    requires a <= b
    ensures ReadIndexList(a, off, addresses).Ok? ==>
              ReadIndexList(b, off, addresses) == ReadIndexList(a, off, addresses)
  {
    hide ReadArray;
    ArrayStays(a, b, off);
  }

  lemma LookupStays(a: seq<byte>, b: seq<byte>, off: nat, src: Source)
    requires a <= b
    ensures ReadLookup(a, off, src).Ok? ==> ReadLookup(b, off, src) == ReadLookup(a, off, src)
  {
    hide ReadIndexList, TableOf;
    if ReadLookup(a, off, src).Ok? {
      assert b[off..off + 32] == a[off..off + 32];
      var addresses := TableOf(src, a[off..off + 32]).value;
      IndexListStays(a, b, off + 32, addresses);
      IndexListStays(a, b, ReadIndexList(a, off + 32, addresses).value.2, addresses);
    }
  }

  lemma {:induction false} LookupsStay(a: seq<byte>, b: seq<byte>, off: nat, src: Source, n: nat)
    requires a <= b
    ensures ReadLookups(a, off, src, n).Ok? ==> ReadLookups(b, off, src, n) == ReadLookups(a, off, src, n)
    decreases n
  {
    hide ReadLookup, Join;
    if n > 0 {
      LookupStays(a, b, off, src);
      if ReadLookup(a, off, src).Ok? {
        LookupsStay(a, b, ReadLookup(a, off, src).value.1, src, n - 1);
      }
    }
  }

  lemma SectionStays(a: seq<byte>, b: seq<byte>, off: nat, versioned: bool, src: Source)
    requires a <= b
    ensures ReadLookupSection(a, off, versioned, src).Ok? ==>
              ReadLookupSection(b, off, versioned, src) == ReadLookupSection(a, off, versioned, src)
  {
    hide ReadCompact, ReadLookups;
    CompactStays(a, b, off);
    if ReadCompact(a, off).Ok? {
      var n := ReadCompact(a, off).value;
      LookupsStay(a, b, off + n.length, src, n.value);
    }
  }

  lemma StartStays(a: seq<byte>, b: seq<byte>)
    requires a <= b
    ensures MessageStart(a).Ok? ==> MessageStart(b) == MessageStart(a)
  {
  }

  lemma HeadStays(a: seq<byte>, b: seq<byte>)
    requires a <= b
    ensures ReadHead(a).Ok? ==> ReadHead(b) == ReadHead(a)
  {
    hide MessageStart, ReadCompact, ReadKeys;
    StartStays(a, b);
    if ReadHead(a).Ok? {
      var off := MessageStart(a).value.1;
      CompactStays(a, b, off + 3);
      var n := ReadCompact(a, off + 3).value;
      var keysAt := off + 3 + n.length;
      KeysStay(a, b, keysAt, n.value);
      var hashAt := keysAt + n.value * 32;
      assert b[hashAt..hashAt + 32] == a[hashAt..hashAt + 32];
    }
  }

  /** What was read to the end of the shorter bytes leaves the rest of the longer ones over. */
  lemma BodyStays(a: seq<byte>, b: seq<byte>, head: Head, src: Source)
    requires a <= b && head.off <= |a| && head.header.required <= |head.keys|
    requires ReadBody(a, head, src).Ok? && ReadBody(b, head, src).Ok?
    ensures a == b
  {
    hide ReadCompact, ReadRaws, ReadLookupSection, Loaded, ResolveRaws;
    CompactStays(a, b, head.off);
    var n := ReadCompact(a, head.off).value;
    RawsStay(a, b, head.off + n.length, |head.keys|, n.value);
    var raws := ReadRaws(a, head.off + n.length, |head.keys|, n.value).value;
    SectionStays(a, b, raws.1, head.versioned, src);
  }

  /**
   * The reader reads to the end and no further: of two messages it accepts, neither is a beginning of the other. So no
   * accepted message can be cut short or extended.
   */
  lemma PrefixFree(a: seq<byte>, b: seq<byte>, src: Source)
    requires a <= b && Decompile(a, src).Ok? && Decompile(b, src).Ok?
    ensures a == b
  {
    hide ReadHead, ReadBody;
    HeadStays(a, b);
    BodyStays(a, b, ReadHead(a).value, src);
  }

  /** The signers are read off the front, whatever follows. */
  lemma SignersStay(a: seq<byte>, b: seq<byte>)
    requires a <= b && Signers(a).Ok?
    ensures Signers(b) == Signers(a)
  {
    hide ReadCompact, ReadKeys;
    var off := if a[0] >= 0x80 then 1 else 0;
    CompactStays(a, b, off + 3);
    var n := ReadCompact(a, off + 3).value;
    KeysStay(a, b, off + 3 + n.length, a[off]);
  }
}
