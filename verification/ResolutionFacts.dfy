/** What an account's address follows from, and what the builder answers, said account by account. */
module ResolutionFacts {
  import opened Wrappers
  import opened Bytes
  import opened Resolution
  import IdlTypes
  import IdlCodec

  // ---- One account ----

  /** The bytes a seed stands for. */
  ghost predicate SeedIs(seed: Seed, known: Keys, bytes: seq<byte>) {
    match seed
    case ConstSeed(value) => bytes == value
    case AccountSeed(path) => path in known && bytes == known[path]
    case ArgSeed(_) => false
  }

  ghost predicate SeedsAre(seeds: seq<Seed>, known: Keys, bs: seq<seq<byte>>) {
    |bs| == |seeds| && forall i :: 0 <= i < |seeds| ==> SeedIs(seeds[i], known, bs[i])
  }

  ghost predicate HasArgSeed(seeds: seq<Seed>) {
    exists i :: 0 <= i < |seeds| && seeds[i].ArgSeed?
  }

  /** The program an address is derived for. */
  ghost predicate OwnerIs(c: Context, program: Option<Seed>, known: Keys, owner: Key) {
    match program
    case None => owner == c.programId
    case Some(ConstSeed(value)) => |value| == 32 && owner == value
    case Some(AccountSeed(path)) => path in known && owner == known[path]
    case Some(ArgSeed(_)) => false
  }

  ghost predicate BadProgram(program: Option<Seed>) {
    program.Some? && program.value.ConstSeed? && |program.value.value| != 32
  }

  /** The address of an account follows from the known keys. */
  ghost predicate Follows(c: Context, a: Account, known: Keys, key: Key) {
    if a.address.Some? then key == a.address.value
    else if a.name == "program" then key == c.programId
    else
      && a.pda.Some? && !HasArgSeed(a.pda.value.seeds) && !BadProgram(a.pda.value.program)
      && exists bs, owner ::
           && SeedsAre(a.pda.value.seeds, known, bs) && OwnerIs(c, a.pda.value.program, known, owner)
           && c.find(bs, owner) == Some(key)
  }

  /** Looking for it is an error. */
  ghost predicate Fails(c: Context, a: Account, known: Keys, e: Error) {
    && a.address.None? && a.name != "program" && a.pda.Some?
    && match e
       case ArgSeedsUnsupported => HasArgSeed(a.pda.value.seeds)
       case BadOwner => !HasArgSeed(a.pda.value.seeds) && BadProgram(a.pda.value.program)
       case NoAddressFound =>
         && !HasArgSeed(a.pda.value.seeds) && !BadProgram(a.pda.value.program)
         && exists bs, owner ::
              && SeedsAre(a.pda.value.seeds, known, bs) && OwnerIs(c, a.pda.value.program, known, owner)
              && c.find(bs, owner) == None
       case _ => false
  }

  /** Seeds have one reading, which exists when none is an argument and every account among them is known. */
  lemma {:induction false} SeedBytesAre(seeds: seq<Seed>, known: Keys)
    ensures SeedBytes(seeds, known).Err? <==> HasArgSeed(seeds)
    ensures SeedBytes(seeds, known).Err? ==> SeedBytes(seeds, known).error == ArgSeedsUnsupported
    ensures forall bs :: SeedBytes(seeds, known) == Ok(Some(bs)) <==> SeedsAre(seeds, known, bs)
    decreases |seeds|
  {
    if seeds != [] {
      var rest := seeds[1..];
      SeedBytesAre(rest, known);
      assert HasArgSeed(seeds) <==> seeds[0].ArgSeed? || HasArgSeed(rest) by {
        assert forall i :: 0 < i < |seeds| ==> seeds[i] == rest[i - 1];
      }
      forall bs
        ensures SeedBytes(seeds, known) == Ok(Some(bs)) <==> SeedsAre(seeds, known, bs)
      {
        SeedsCons(seeds, known, bs);
        if bs != [] {
          assert bs == [bs[0]] + bs[1..];
        }
      }
    }
  }

  lemma SeedsCons(seeds: seq<Seed>, known: Keys, bs: seq<seq<byte>>)
    requires seeds != []
    ensures SeedsAre(seeds, known, bs)
            <==> bs != [] && SeedIs(seeds[0], known, bs[0]) && SeedsAre(seeds[1..], known, bs[1..])
  {
    hide SeedIs;
    if bs != [] && SeedIs(seeds[0], known, bs[0]) && SeedsAre(seeds[1..], known, bs[1..]) {
      forall i | 0 <= i < |seeds|
        ensures SeedIs(seeds[i], known, bs[i])
      {
        if i > 0 {
          assert SeedIs(seeds[1..][i - 1], known, bs[1..][i - 1]);
        }
      }
    }
  }

  lemma OwnerAre(c: Context, program: Option<Seed>, known: Keys)
    ensures Owner(c, program, known).Err? <==> BadProgram(program)
    ensures Owner(c, program, known).Err? ==> Owner(c, program, known).error == BadOwner
    ensures forall owner ::
              Owner(c, program, known) == Ok(Some(owner)) <==> OwnerIs(c, program, known, owner)
  {
  }

  /** Deriving an account gives its address exactly when that follows, and an error exactly when looking fails. */
  lemma DeriveIs(c: Context, a: Account, known: Keys)
    ensures forall key :: Derive(c, a, known) == Ok(Some(key)) <==> Follows(c, a, known, key)
    ensures forall e :: Derive(c, a, known) == Err(e) <==> Fails(c, a, known, e)
  {
    if a.address.None? && a.name != "program" && a.pda.Some? {
      hide SeedBytes, Owner, SeedsAre, OwnerIs, HasArgSeed, BadProgram;
      SeedBytesAre(a.pda.value.seeds, known);
      OwnerAre(c, a.pda.value.program, known);
    }
  }

  // ---- The accounts together ----

  /** Every resolved key was known, or follows from the resolved keys for an account of that name. */
  ghost predicate Grounded(c: Context, accounts: seq<Account>, known: Keys, m: Keys) {
    && Extends(known, m)
    && forall n :: n in m && n !in known ==>
         exists a :: a in accounts && a.name == n && Follows(c, a, m, m[n])
  }

  /** The search stops only when nothing more follows. */
  ghost predicate Exhausted(c: Context, accounts: seq<Account>, m: Keys) {
    forall a, key :: a in accounts && a.name !in m ==> !Follows(c, a, m, key)
  }

  /** Whatever is listed and known, names repeated or not: what is resolved has grounds, and nothing more follows. */
  lemma ResolvedFollow(c: Context, accounts: seq<Account>, known: Keys)
    requires Resolve(c, accounts, known).Ok?
    ensures Grounded(c, accounts, known, Resolve(c, accounts, known).value)
    ensures Exhausted(c, accounts, Resolve(c, accounts, known).value)
  {
    hide Derive, Resolve, Follows, Fails;
    ResolveSound(c, accounts, known, known);
    var m := Resolve(c, accounts, known).value;
    IdlePass(c, accounts, m);
    forall a
      ensures Derive(c, a, m) == Ok(None) ==> forall key :: !Follows(c, a, m, key)
      ensures forall key :: Derive(c, a, m) == Ok(Some(key)) ==> Follows(c, a, m, key)
    {
      DeriveIs(c, a, m);
    }
  }

  /** The first instruction of a name is the one built. */
  lemma {:induction false} FirstOfName(schemas: seq<Schema>, name: string)
    ensures forall j :: 0 <= j < SchemaIndex(schemas, name) ==> schemas[j].name != name
    decreases |schemas|
  {
    if schemas != [] && schemas[0].name != name {
      FirstOfName(schemas[1..], name);
      assert forall j :: 0 < j < |schemas| ==> schemas[j] == schemas[1..][j - 1];
    }
  }

  /** No instruction of the name is an error, and the only way to that error. */
  lemma MissingName(c: Context, schemas: seq<Schema>, name: string, known: Keys, args: map<string, IdlTypes.Val>,
                    types: IdlTypes.Types, depth: nat, remaining: seq<AccountMeta>)
    ensures Build(c, schemas, name, known, args, types, depth, remaining) == Err(InstructionMissing)
            <==> forall i :: 0 <= i < |schemas| ==> schemas[i].name != name
  {
    hide Resolve, SchemaIndex, Metas;
    FirstOfName(schemas, name);
    var i := SchemaIndex(schemas, name);
    if i < |schemas| {
      ResolveErrors(c, schemas[i].accounts, known);
      var r := Resolve(c, schemas[i].accounts, known);
      if r.Ok? {
        MetasMissing(schemas[i].accounts, r.value, "");
      }
    }
  }

  /** The accounts before the first one without a key all have one. */
  lemma {:induction false} MetasMissing(accounts: seq<Account>, m: Keys, n: string)
    ensures Metas(accounts, m) == Err(MustBeProvided(n))
            <==> exists i :: 0 <= i < |accounts| && accounts[i].name == n && n !in m
                             && forall j :: 0 <= j < i ==> accounts[j].name in m
    ensures Metas(accounts, m).Err? ==> Metas(accounts, m).error.MustBeProvided?
    decreases |accounts|
  {
    if accounts != [] {
      var rest := accounts[1..];
      MetasMissing(rest, m, n);
      assert forall i :: 0 < i < |accounts| ==> accounts[i] == rest[i - 1];
      if i :| 0 <= i < |rest| && rest[i].name == n && n !in m && forall j :: 0 <= j < i ==> rest[j].name in m {
        assert accounts[i + 1].name == n;
      }
    }
  }

  /** The bytes are those of all arguments, or of all but a trailing partial_fill that the caller left out. */
  ghost predicate EncodesTo(fields: seq<IdlTypes.Field>, args: map<string, IdlTypes.Val>, types: IdlTypes.Types,
                            depth: nat, bytes: seq<byte>)
  {
    var short := fields != [] && fields[|fields| - 1].name == "partial_fill" && "partialFill" !in args;
    IdlCodec.EncodeIdlFields(if short then fields[..|fields| - 1] else fields, args, types, depth) == Ok(bytes)
  }

  /**
   * What every built instruction is: the program's id; for each account in IDL order its flags and a key that was
   * supplied or follows from the resolved keys; then the caller's accounts; and the discriminator before the arguments.
   */
  lemma BuiltIs(c: Context, schemas: seq<Schema>, name: string, known: Keys, args: map<string, IdlTypes.Val>,
                types: IdlTypes.Types, depth: nat, remaining: seq<AccountMeta>)
    returns (i: nat, m: Keys)
    requires Build(c, schemas, name, known, args, types, depth, remaining).Ok?
    ensures i < |schemas| && schemas[i].name == name && forall j :: 0 <= j < i ==> schemas[j].name != name
    ensures Grounded(c, schemas[i].accounts, known, m)
    ensures var r := Build(c, schemas, name, known, args, types, depth, remaining).value;
            && r.programId == c.programId
            && |r.keys| == |schemas[i].accounts| + |remaining| && r.keys[|schemas[i].accounts|..] == remaining
            && (forall k :: 0 <= k < |schemas[i].accounts| ==>
                  && schemas[i].accounts[k].name in m
                  && r.keys[k] == AccountMeta(m[schemas[i].accounts[k].name], schemas[i].accounts[k].signer,
                                              schemas[i].accounts[k].writable))
            && schemas[i].discriminator <= r.data
            && EncodesTo(schemas[i].args, args, types, depth, r.data[|schemas[i].discriminator|..])
  {
    hide Resolve, Grounded, Exhausted, Metas;
    FirstOfName(schemas, name);
    i := SchemaIndex(schemas, name);
    m := Resolve(c, schemas[i].accounts, known).value;
    ResolvedFollow(c, schemas[i].accounts, known);
    MetasAre(schemas[i].accounts, m);
  }

  /**
   * When the builder asks for an account, nothing it could resolve gives that account an address, and the accounts
   * listed before it all have one.
   */
  lemma AsksFor(c: Context, schemas: seq<Schema>, name: string, known: Keys, args: map<string, IdlTypes.Val>,
                types: IdlTypes.Types, depth: nat, remaining: seq<AccountMeta>, n: string)
    returns (i: nat, k: nat, m: Keys)
    requires Build(c, schemas, name, known, args, types, depth, remaining) == Err(MustBeProvided(n))
    ensures i < |schemas| && schemas[i].name == name && forall j :: 0 <= j < i ==> schemas[j].name != name
    ensures Grounded(c, schemas[i].accounts, known, m) && Exhausted(c, schemas[i].accounts, m)
    ensures k < |schemas[i].accounts| && schemas[i].accounts[k].name == n && n !in m
    ensures forall j :: 0 <= j < k ==> schemas[i].accounts[j].name in m
  {
    hide Grounded, Exhausted, Metas, Derive;
    FirstOfName(schemas, name);
    i := SchemaIndex(schemas, name);
    ResolveErrors(c, schemas[i].accounts, known);
    m := Resolve(c, schemas[i].accounts, known).value;
    ResolvedFollow(c, schemas[i].accounts, known);
    MetasMissing(schemas[i].accounts, m, n);
    k :| 0 <= k < |schemas[i].accounts| && schemas[i].accounts[k].name == n && n !in m
         && forall j :: 0 <= j < k ==> schemas[i].accounts[j].name in m;
  }

  lemma {:induction false} ResolveErrors(c: Context, accounts: seq<Account>, m: Keys)
    ensures Resolve(c, accounts, m).Err? ==>
              var e := Resolve(c, accounts, m).error;
              e == ArgSeedsUnsupported || e == BadOwner || e == NoAddressFound
    decreases Missing(accounts, m)
  {
    hide Derive;
    PassErrors(c, accounts, m);
    var after := Pass(c, accounts, m);
    if after.Ok? && after.value != m {
      PassProgress(c, accounts, m);
      ResolveErrors(c, accounts, after.value);
    }
  }

  lemma {:induction false} PassErrors(c: Context, accounts: seq<Account>, m: Keys)
    ensures Pass(c, accounts, m).Err? ==>
              var e := Pass(c, accounts, m).error;
              e == ArgSeedsUnsupported || e == BadOwner || e == NoAddressFound
    decreases |accounts|
  {
    hide Derive;
    if accounts != [] {
      var a := accounts[0];
      if a.name in m {
        PassErrors(c, accounts[1..], m);
      } else {
        DeriveIs(c, a, m);
        var key := Derive(c, a, m);
        if key.Ok? {
          PassErrors(c, accounts[1..], if key.value.Some? then m[a.name := key.value.value] else m);
        }
      }
    }
  }
}
