/** Entry points of the assembler: compile without signing, wire format, assemble with signatures. */
module TxAssemble {
  import opened Wrappers
  import opened Bytes
  import opened TxTypes
  import opened TxMessage
  import TxCompile
  import TxLayout
  import CompactU16
  import Base58

  datatype Unsigned = Unsigned(
    messageBytes: seq<byte>, unsignedTransaction: seq<byte>, signers: seq<Key>, accountKeys: seq<Key>)
  datatype Assembled = Assembled(signedTransaction: seq<byte>, messageBytes: seq<byte>, accountKeys: seq<Key>)

  /** A signer and the reply its `sign(message)` gives for this message. */
  datatype Signer = Signer(address: Key, signature: seq<byte>)

  predicate BlockhashOk(blockhash: string) {
    Base58.Valid(blockhash) && |Base58.DecodeSpec(blockhash)| == BLOCKHASH_LENGTH
  }

  ghost predicate Compilable(payer: Key, ixs: seq<Instruction>, tables: seq<Table>, blockhash: string) {
    var c := TxCompile.Compile(payer, ixs, tables);
    BlockhashOk(blockhash) && Covered(c.altWritable) && Covered(c.altReadonly) && Encodable(c, ixs)
  }

  ghost function MessageOf(payer: Key, ixs: seq<Instruction>, tables: seq<Table>, blockhash: string): seq<byte>
    requires Compilable(payer, ixs, tables, blockhash)
  {
    ToU8Array(MessageNumbers(TxCompile.Compile(payer, ixs, tables), ixs, Base58.DecodeSpec(blockhash)))
  }

  ghost function SlotKeys(payer: Key, ixs: seq<Instruction>, tables: seq<Table>): seq<Key> {
    Keys(TxCompile.Compile(payer, ixs, tables).Order())
  }

  /** The signature slots: the signer prefix of the static accounts, the payer first. */
  ghost function SignerKeys(payer: Key, ixs: seq<Instruction>, tables: seq<Table>): (ks: seq<Key>)
  {
    TxLayout.CompileWellLaidOut(payer, ixs, tables);
    var c := TxCompile.Compile(payer, ixs, tables);
    Keys(c.staticAccounts[..c.numRequired])
  }

  method CompileStep(payer: Key, ixs: seq<Instruction>, tables: seq<Table>, blockhash: string)
    returns (r: Result<(Compiled, seq<byte>), TxError>)
    ensures r.Ok? <==> Compilable(payer, ixs, tables, blockhash)
    ensures r.Ok? ==> r.value == (TxCompile.Compile(payer, ixs, tables), MessageOf(payer, ixs, tables, blockhash))
    ensures !BlockhashOk(blockhash) ==> r == Err(InvalidBlockhash)
  {
    var hash := Base58.Decode(blockhash);
    if hash.Err? {
      return Err(InvalidBlockhash);
    }
    if |hash.value| != BLOCKHASH_LENGTH {
      return Err(InvalidBlockhash);
    }
    var c := TxCompile.CompileAccounts(payer, ixs, tables);
    TxLayout.CompileWellLaidOut(payer, ixs, tables);
    var message := SerializeMessage(c, ixs, hash.value);
    if message.Err? {
      return Err(message.error);
    }
    return Ok((c, message.value));
  }

  // ---- Wire format ----

  function WireBytes(signatures: seq<seq<byte>>, message: seq<byte>): seq<byte> {
    CompactU16.Groups(|signatures|) + Flatten(signatures) + message
  }

  /** wire: signatures fill cells of 64 bytes; the count prefix throws above 65535 of them. */
  method Wire(signatures: seq<seq<byte>>, message: seq<byte>) returns (r: Result<seq<byte>, TxError>)
    requires forall i :: 0 <= i < |signatures| ==> |signatures[i]| == SIGNATURE_LENGTH
    ensures r.Ok? <==> |signatures| <= CompactU16.MAX_VALUE
    ensures r == if r.Ok? then Ok(WireBytes(signatures, message)) else Err(LengthOutOfRange)
  {
    var prefix := CompactU16.Encode(|signatures|);
    if prefix.Err? {
      return Err(LengthOutOfRange);
    }
    var out := prefix.value;
    for i := 0 to |signatures|
      invariant out == prefix.value + Flatten(signatures[..i])
    {
      assert signatures[..i + 1] == signatures[..i] + [signatures[i]];
      FlattenAppend(signatures[..i], [signatures[i]]);
      assert Flatten([signatures[i]]) == signatures[i];
      out := out + signatures[i];
    }
    assert signatures[..|signatures|] == signatures;
    return Ok(out + message);
  }

  function ZeroSignature(): seq<byte> {
    seq(SIGNATURE_LENGTH, _ => 0)
  }

  method CompileUnsigned(payer: Key, ixs: seq<Instruction>, tables: seq<Table>, blockhash: string)
    returns (r: Result<Unsigned, TxError>)
    ensures r.Ok? <==> Compilable(payer, ixs, tables, blockhash)
    ensures r.Ok? ==>
              && r.value.messageBytes == MessageOf(payer, ixs, tables, blockhash)
              && r.value.signers == SignerKeys(payer, ixs, tables)
              && r.value.accountKeys == SlotKeys(payer, ixs, tables)
              && r.value.unsignedTransaction ==
                 WireBytes(seq(|r.value.signers|, _ => ZeroSignature()), r.value.messageBytes)
  {
    var compiled := CompileStep(payer, ixs, tables, blockhash);
    if compiled.Err? {
      return Err(compiled.error);
    }
    TxLayout.CompileWellLaidOut(payer, ixs, tables);
    var c, message := compiled.value.0, compiled.value.1;
    var signers := Keys(c.staticAccounts[..c.numRequired]);
    var blank := seq(|signers|, _ => ZeroSignature());
    var unsigned := Wire(blank, message);
    return Ok(Unsigned(message, unsigned.value, signers, Keys(c.Order())));
  }

  // ---- Assemble ----

  /** `signerByB58.set` keeps the last signer given for an address. */
  function SignerFor(signers: seq<Signer>, k: Key): (s: Option<Signer>)
    ensures s.Some? <==> exists i :: 0 <= i < |signers| && signers[i].address == k
    ensures s.Some? ==> s.value in signers && s.value.address == k
  {
    if signers == [] then None
    else if signers[|signers| - 1].address == k then Some(signers[|signers| - 1])
    else SignerFor(signers[..|signers| - 1], k)
  }

  /** Of several signers given for one address the last one counts. */
  ghost predicate LastFor(signers: seq<Signer>, k: Key, i: nat) {
    i < |signers| && signers[i].address == k && forall j :: i < j < |signers| ==> signers[j].address != k
  }

  lemma {:induction false} SignerIs(signers: seq<Signer>, k: Key)
    ensures SignerFor(signers, k) == None <==> forall i :: 0 <= i < |signers| ==> signers[i].address != k
    ensures forall i: nat :: LastFor(signers, k, i) ==> SignerFor(signers, k) == Some(signers[i])
    decreases |signers|
  {
    if signers != [] {
      var n := |signers| - 1;
      SignerIs(signers[..n], k);
      assert forall i :: 0 <= i < n ==> signers[..n][i] == signers[i];
      forall i: nat | LastFor(signers, k, i)
        ensures SignerFor(signers, k) == Some(signers[i])
      {
        if i < n {
          assert signers[n].address != k;
          assert LastFor(signers[..n], k, i);
        }
      }
    }
  }

  lemma {:induction false} SomeLast(signers: seq<Signer>, k: Key, i: nat) returns (last: nat)
    requires i < |signers| && signers[i].address == k
    ensures LastFor(signers, k, last)
    decreases |signers| - i
  {
    if j: nat :| i < j < |signers| && signers[j].address == k {
      last := SomeLast(signers, k, j);
    } else {
      last := i;
    }
  }

  ghost predicate AllSigned(ks: seq<Key>, signers: seq<Signer>) {
    forall i :: 0 <= i < |ks| ==>
      SignerFor(signers, ks[i]).Some? && |SignerFor(signers, ks[i]).value.signature| == SIGNATURE_LENGTH
  }

  function SignatureFor(signers: seq<Signer>, k: Key): seq<byte> {
    match SignerFor(signers, k)
    case Some(s) => s.signature
    case None => []
  }

  function SignaturesFor(signers: seq<Signer>, ks: seq<Key>): (sigs: seq<seq<byte>>)
    ensures |sigs| == |ks| && forall i :: 0 <= i < |ks| ==> sigs[i] == SignatureFor(signers, ks[i])
  {
    seq(|ks|, i requires 0 <= i < |ks| => SignatureFor(signers, ks[i]))
  }

  /** The check that every signer account has a signer. */
  method FirstUnsigned(accs: seq<AccountInfo>, signers: seq<Signer>) returns (k: Option<Key>)
    ensures k.None? ==> forall i :: 0 <= i < |accs| && accs[i].isSigner ==> SignerFor(signers, accs[i].pubkey).Some?
    ensures k.Some? ==> exists i :: 0 <= i < |accs| && accs[i].isSigner && accs[i].pubkey == k.value
                                    && forall j :: 0 <= j < i && accs[j].isSigner ==>
                                         SignerFor(signers, accs[j].pubkey).Some?
    ensures k.Some? ==> SignerFor(signers, k.value).None?
  {
    for i := 0 to |accs|
      invariant forall j :: 0 <= j < i && accs[j].isSigner ==> SignerFor(signers, accs[j].pubkey).Some?
    {
      if accs[i].isSigner && SignerFor(signers, accs[i].pubkey).None? {
        return Some(accs[i].pubkey);
      }
    }
    return None;
  }

  /** The slot key an assembly is refused for: the first without a signer, or else with a signature of wrong length. */
  ghost predicate Blamed(ks: seq<Key>, signers: seq<Signer>, k: Key) {
    || (exists i :: 0 <= i < |ks| && ks[i] == k && SignerFor(signers, k).None?
                    && forall j :: 0 <= j < i ==> SignerFor(signers, ks[j]).Some?)
    || ((forall j :: 0 <= j < |ks| ==> SignerFor(signers, ks[j]).Some?)
        && exists i :: 0 <= i < |ks| && ks[i] == k && |SignatureFor(signers, k)| != SIGNATURE_LENGTH
                       && forall j :: 0 <= j < i ==> |SignatureFor(signers, ks[j])| == SIGNATURE_LENGTH)
  }

  /** One signature per slot, in slot order. */
  method CollectSignatures(slots: seq<AccountInfo>, signers: seq<Signer>) returns (r: Result<seq<seq<byte>>, TxError>)
    requires forall i :: 0 <= i < |slots| ==> SignerFor(signers, slots[i].pubkey).Some?
    ensures r.Ok? <==> AllSigned(Keys(slots), signers)
    ensures r.Ok? ==> r.value == SignaturesFor(signers, Keys(slots))
    ensures r.Err? ==> r.error.MissingSigner? && Blamed(Keys(slots), signers, r.error.address)
  {
    var signatures: seq<seq<byte>> := [];
    for i := 0 to |slots|
      invariant |signatures| == i
      invariant forall j :: 0 <= j < i ==>
                  && |SignerFor(signers, slots[j].pubkey).value.signature| == SIGNATURE_LENGTH
                  && signatures[j] == SignatureFor(signers, slots[j].pubkey)
    {
      var sig := SignerFor(signers, slots[i].pubkey).value.signature;
      if |sig| != SIGNATURE_LENGTH {
        assert Keys(slots)[i] == slots[i].pubkey;
        return Err(MissingSigner(slots[i].pubkey));
      }
      signatures := signatures + [sig];
    }
    assert signatures == SignaturesFor(signers, Keys(slots));
    return Ok(signatures);
  }

  /** A signer account of the static list has a signature slot. */
  lemma SignerSlot(payer: Key, ixs: seq<Instruction>, tables: seq<Table>, i: nat)
    requires var c := TxCompile.Compile(payer, ixs, tables);
             i < |c.staticAccounts| && c.staticAccounts[i].isSigner
    ensures var c := TxCompile.Compile(payer, ixs, tables);
            var ks := SignerKeys(payer, ixs, tables);
            i < |ks| && ks[i] == c.staticAccounts[i].pubkey
  {
    TxLayout.CompileWellLaidOut(payer, ixs, tables);
    var c := TxCompile.Compile(payer, ixs, tables);
    assert c.Order()[i] == c.staticAccounts[i];
  }

  /** Conversely every slot is a signer account. */
  lemma SlotSigner(payer: Key, ixs: seq<Instruction>, tables: seq<Table>, i: nat)
    requires i < |SignerKeys(payer, ixs, tables)|
    ensures var c := TxCompile.Compile(payer, ixs, tables);
            i < |c.staticAccounts| && c.staticAccounts[i].isSigner
            && c.staticAccounts[i].pubkey == SignerKeys(payer, ixs, tables)[i]
  {
    TxLayout.CompileWellLaidOut(payer, ixs, tables);
    var c := TxCompile.Compile(payer, ixs, tables);
    assert c.Order()[i] == c.staticAccounts[i];
  }

  /** The first signer account without a signer is the first such slot. */
  lemma BlamedSlot(payer: Key, ixs: seq<Instruction>, tables: seq<Table>, signers: seq<Signer>, i: nat)
    requires var c := TxCompile.Compile(payer, ixs, tables);
             && i < |c.staticAccounts| && c.staticAccounts[i].isSigner
             && SignerFor(signers, c.staticAccounts[i].pubkey).None?
             && forall j :: 0 <= j < i && c.staticAccounts[j].isSigner ==>
                  SignerFor(signers, c.staticAccounts[j].pubkey).Some?
    ensures Blamed(SignerKeys(payer, ixs, tables), signers,
                   TxCompile.Compile(payer, ixs, tables).staticAccounts[i].pubkey)
  {
    hide TxCompile.Compile, SignerFor;
    SignerSlot(payer, ixs, tables, i);
    var ks := SignerKeys(payer, ixs, tables);
    forall j | 0 <= j < i
      ensures SignerFor(signers, ks[j]).Some?
    {
      SlotSigner(payer, ixs, tables, j);
    }
  }

  method Assemble(payer: Key, ixs: seq<Instruction>, tables: seq<Table>, blockhash: string, signers: seq<Signer>)
    returns (r: Result<Assembled, TxError>)
    ensures r.Ok? <==> && Compilable(payer, ixs, tables, blockhash)
                       && AllSigned(SignerKeys(payer, ixs, tables), signers)
    ensures r.Ok? ==>
              var ks := SignerKeys(payer, ixs, tables);
              && r.value.messageBytes == MessageOf(payer, ixs, tables, blockhash)
              && r.value.accountKeys == SlotKeys(payer, ixs, tables)
              && r.value.signedTransaction ==
                 WireBytes(SignaturesFor(signers, ks), r.value.messageBytes)
    ensures SignerFor(signers, payer).None? ==> r == Err(PayerNotInSigners)
    ensures SignerFor(signers, payer).Some? && !BlockhashOk(blockhash) ==> r == Err(InvalidBlockhash)
    ensures r.Err? && SignerFor(signers, payer).Some? && Compilable(payer, ixs, tables, blockhash) ==>
              r.error.MissingSigner? && Blamed(SignerKeys(payer, ixs, tables), signers, r.error.address)
  {
    TxLayout.CompileWellLaidOut(payer, ixs, tables);
    ghost var slots := SignerKeys(payer, ixs, tables);
    assert slots[0] == payer;
    if SignerFor(signers, payer).None? {
      return Err(PayerNotInSigners);
    }
    var compiled := CompileStep(payer, ixs, tables, blockhash);
    if compiled.Err? {
      return Err(compiled.error);
    }
    var c, message := compiled.value.0, compiled.value.1;
    var missing := FirstUnsigned(c.staticAccounts, signers);
    if missing.Some? {
      ghost var i :| 0 <= i < |c.staticAccounts| && c.staticAccounts[i].isSigner
        && c.staticAccounts[i].pubkey == missing.value
        && forall j :: 0 <= j < i && c.staticAccounts[j].isSigner ==>
             SignerFor(signers, c.staticAccounts[j].pubkey).Some?;
      BlamedSlot(payer, ixs, tables, signers, i);
      return Err(MissingSigner(missing.value));
    }
    forall i | 0 <= i < |slots|
      ensures SignerFor(signers, slots[i]).Some?
    {
      SlotSigner(payer, ixs, tables, i);
    }
    var signatures := CollectSignatures(c.staticAccounts[..c.numRequired], signers);
    if signatures.Err? {
      return Err(signatures.error);
    }
    var signed := Wire(signatures.value, message);
    return Ok(Assembled(signed.value, message, Keys(c.Order())));
  }
}
