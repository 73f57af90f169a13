/** Resolving an instruction's accounts from its IDL (packages/pumpfun-protocol/src/instructions/idl-instruction.ts). */
module Resolution {
  import opened Wrappers
  import opened Bytes
  import IdlTypes
  import IdlCodec

  type Key = seq<byte>

  datatype Seed = ConstSeed(value: seq<byte>) | AccountSeed(path: string) | ArgSeed(path: string)

  datatype Pda = Pda(seeds: seq<Seed>, program: Option<Seed>)

  datatype Account = Account(name: string, signer: bool, writable: bool, address: Option<Key>, pda: Option<Pda>)

  datatype Error =
    | InstructionMissing
    | ArgSeedsUnsupported
    | BadOwner
    | NoAddressFound
    | MustBeProvided(account: string)
    | BadArgs

  /** Address search as the hash finds it; it throws when every bump fails. */
  type Find = (seq<seq<byte>>, Key) -> Option<Key>

  datatype Context = Context(programId: Key, find: Find)

  type Keys = map<string, Key>

  // ---- One account, from what is resolved so far ----

  /** The bytes of the seeds; None while some account seed is unresolved. */
  function SeedBytes(seeds: seq<Seed>, resolved: Keys): Result<Option<seq<seq<byte>>>, Error> {
    if seeds == [] then Ok(Some([]))
    else
      match seeds[0]
      case ArgSeed(_) => Err(ArgSeedsUnsupported)
      case ConstSeed(value) =>
        var rest :- SeedBytes(seeds[1..], resolved);
        Ok(if rest.Some? then Some([value] + rest.value) else None)
      case AccountSeed(path) =>
        var rest :- SeedBytes(seeds[1..], resolved);
        Ok(if rest.Some? && path in resolved then Some([resolved[path]] + rest.value) else None)
  }

  function Owner(c: Context, program: Option<Seed>, resolved: Keys): Result<Option<Key>, Error> {
    match program
    case None => Ok(Some(c.programId))
    case Some(ConstSeed(value)) => if |value| == 32 then Ok(Some(value)) else Err(BadOwner)
    case Some(AccountSeed(path)) => Ok(if path in resolved then Some(resolved[path]) else None)
    case Some(ArgSeed(_)) => Ok(None)
  }

  /** The address of an account that is not resolved yet, if it can be told. */
  function Derive(c: Context, a: Account, resolved: Keys): Result<Option<Key>, Error> {
    if a.address.Some? then Ok(a.address)
    else if a.name == "program" then Ok(Some(c.programId))
    else if a.pda.None? then Ok(None)
    else
      var seeds :- SeedBytes(a.pda.value.seeds, resolved);
      var owner :- Owner(c, a.pda.value.program, resolved);
      if owner.None? || seeds.None? then Ok(None)
      else
        match c.find(seeds.value, owner.value)
        case None => Err(NoAddressFound)
        case Some(key) => Ok(Some(key))
  }

  // ---- The loop ----

  /** One pass over the accounts. */
  function Pass(c: Context, accounts: seq<Account>, resolved: Keys): Result<Keys, Error> {
    if accounts == [] then Ok(resolved)
    else
      var a := accounts[0];
      if a.name in resolved then Pass(c, accounts[1..], resolved)
      else
        var key :- Derive(c, a, resolved);
        Pass(c, accounts[1..], if key.Some? then resolved[a.name := key.value] else resolved)
  }

  /** How many accounts are still to be resolved. */
  function Missing(accounts: seq<Account>, resolved: Keys): nat {
    if accounts == [] then 0
    else (if accounts[0].name in resolved then 0 else 1) + Missing(accounts[1..], resolved)
  }

  ghost predicate Extends(small: Keys, big: Keys) {
    forall n :: n in small ==> n in big && big[n] == small[n]
  }

  lemma {:induction false} MissingFalls(accounts: seq<Account>, small: Keys, big: Keys)
    requires Extends(small, big)
    ensures Missing(accounts, big) <= Missing(accounts, small)
    ensures (exists i :: 0 <= i < |accounts| && accounts[i].name in big && accounts[i].name !in small) ==>
              Missing(accounts, big) < Missing(accounts, small)
    decreases |accounts|
  {
    if accounts != [] {
      MissingFalls(accounts[1..], small, big);
      if i :| 0 < i < |accounts| && accounts[i].name in big && accounts[i].name !in small {
        assert accounts[1..][i - 1] == accounts[i];
      }
    }
  }

  /** A pass only adds keys, all of them names of listed accounts. */
  lemma {:induction false} PassExtends(c: Context, accounts: seq<Account>, resolved: Keys)
    ensures var r := Pass(c, accounts, resolved);
            r.Ok? ==>
              && Extends(resolved, r.value)
              && (forall n :: n in r.value && n !in resolved ==>
                    exists i :: 0 <= i < |accounts| && accounts[i].name == n)
    decreases |accounts|
  {
    hide Derive;
    if accounts != [] {
      var a, rest := accounts[0], accounts[1..];
      var next := if a.name !in resolved && Derive(c, a, resolved).Ok? && Derive(c, a, resolved).value.Some?
                  then resolved[a.name := Derive(c, a, resolved).value.value] else resolved;
      PassExtends(c, rest, next);
      var r := Pass(c, accounts, resolved);
      if r.Ok? {
        forall n | n in r.value && n !in resolved
          ensures exists i :: 0 <= i < |accounts| && accounts[i].name == n
        {
          if n in next {
            assert accounts[0].name == n;
          } else {
            var i :| 0 <= i < |rest| && rest[i].name == n;
            assert accounts[i + 1].name == n;
          }
        }
      }
    }
  }

  lemma SameNames(small: Keys, big: Keys)
    requires Extends(small, big)
    ensures (forall n :: n in big ==> n in small) ==> big == small
  {
  }

  lemma PassProgress(c: Context, accounts: seq<Account>, resolved: Keys)
    requires Pass(c, accounts, resolved).Ok? && Pass(c, accounts, resolved).value != resolved
    ensures Missing(accounts, Pass(c, accounts, resolved).value) < Missing(accounts, resolved)
  {
    var after := Pass(c, accounts, resolved).value;
    PassExtends(c, accounts, resolved);
    MissingFalls(accounts, resolved, after);
    SameNames(resolved, after);
    var n :| n in after && n !in resolved;
    var i :| 0 <= i < |accounts| && accounts[i].name == n;
  }

  /** Passes until one adds nothing. */
  function Resolve(c: Context, accounts: seq<Account>, resolved: Keys): Result<Keys, Error>
    decreases Missing(accounts, resolved)
  {
    var after :- Pass(c, accounts, resolved);
    if after == resolved then Ok(resolved)
    else
      PassProgress(c, accounts, resolved);
      Resolve(c, accounts, after)
  }

  /** Every productive pass resolves at least one more account. */
  method ResolveLoop(c: Context, accounts: seq<Account>, known: Keys) returns (r: Result<Keys, Error>)
    ensures r == Resolve(c, accounts, known)
  {
    var resolved := known;
    var progress := true;
    while progress
      invariant progress ==> Resolve(c, accounts, known) == Resolve(c, accounts, resolved)
      invariant !progress ==> Resolve(c, accounts, known) == Ok(resolved)
      decreases progress, Missing(accounts, resolved)
    {
      progress := false;
      ghost var before := resolved;
      var i := 0;
      assert accounts[0..] == accounts;
      while i < |accounts|
        invariant 0 <= i <= |accounts|
        invariant Pass(c, accounts, before) == Pass(c, accounts[i..], resolved)
        invariant Extends(before, resolved) && (progress <==> resolved != before)
      {
        var a := accounts[i];
        assert accounts[i..][1..] == accounts[i + 1..];
        if a.name !in resolved {
          var key := Derive(c, a, resolved);
          if key.Err? {
            return Err(key.error);
          }
          if key.value.Some? {
            assert a.name !in before;
            resolved := resolved[a.name := key.value.value];
            progress := true;
          }
        }
        i := i + 1;
      }
      assert Pass(c, accounts, before) == Ok(resolved);
      if progress {
        PassProgress(c, accounts, before);
      }
    }
    r := Ok(resolved);
  }

  // ---- The least map closed under derivation ----

  /** `m` extends `known` and holds whatever it derives itself. */
  ghost predicate Closed(c: Context, accounts: seq<Account>, known: Keys, m: Keys) {
    && Extends(known, m)
    && forall a :: a in accounts && a.name !in known ==>
         (Derive(c, a, m).Ok? && Derive(c, a, m).value.Some?
          ==> a.name in m && m[a.name] == Derive(c, a, m).value.value)
  }

  ghost predicate Least(c: Context, accounts: seq<Account>, known: Keys, m: Keys) {
    && Closed(c, accounts, known, m)
    && forall other :: Closed(c, accounts, known, other) ==> Extends(m, other)
  }

  /** No two different accounts share a name the caller has not supplied. */
  ghost predicate UniqueNames(accounts: seq<Account>, known: Keys) {
    forall a, b :: a in accounts && b in accounts && a.name == b.name && a.name !in known ==> a == b
  }

  /** Deriving some unknown account from `m` is an error: an arg seed, a bad owner, or no address. */
  ghost predicate Faulty(c: Context, accounts: seq<Account>, known: Keys, m: Keys) {
    exists a :: a in accounts && a.name !in known && Derive(c, a, m).Err?
  }

  lemma {:induction false} SeedsMonotone(seeds: seq<Seed>, small: Keys, big: Keys)
    requires Extends(small, big)
    ensures SeedBytes(seeds, small).Err? ==> SeedBytes(seeds, big) == SeedBytes(seeds, small)
    ensures SeedBytes(seeds, small).Ok? ==> SeedBytes(seeds, big).Ok?
    ensures SeedBytes(seeds, small).Ok? && SeedBytes(seeds, small).value.Some?
            ==> SeedBytes(seeds, big) == SeedBytes(seeds, small)
    decreases |seeds|
  {
    if seeds != [] {
      SeedsMonotone(seeds[1..], small, big);
    }
  }

  /** Knowing more never takes back a derived address or an error. */
  lemma DeriveMonotone(c: Context, a: Account, small: Keys, big: Keys)
    requires Extends(small, big)
    ensures Derive(c, a, small).Err? ==> Derive(c, a, big).Err?
    ensures Derive(c, a, small).Ok? && Derive(c, a, small).value.Some? ==> Derive(c, a, big) == Derive(c, a, small)
  {
    if a.pda.Some? {
      SeedsMonotone(a.pda.value.seeds, small, big);
    }
  }

  /** Everything resolved so far is in every closed map, and what was added was derived. */
  ghost predicate Sound(c: Context, accounts: seq<Account>, known: Keys, m: Keys) {
    && Extends(known, m)
    && (forall other :: Closed(c, accounts, known, other) ==> Extends(m, other))
    && forall n :: n in m && n !in known ==>
         exists a :: a in accounts && a.name == n && Derive(c, a, m) == Ok(Some(m[n]))
  }

  lemma SoundMore(c: Context, accounts: seq<Account>, known: Keys, m: Keys, a: Account)
    requires Sound(c, accounts, known, m) && a in accounts && a.name !in m
    requires Derive(c, a, m).Ok? && Derive(c, a, m).value.Some?
    ensures Sound(c, accounts, known, m[a.name := Derive(c, a, m).value.value])
  {
    hide Derive;
    var more := m[a.name := Derive(c, a, m).value.value];
    assert Extends(m, more);
    forall other | Closed(c, accounts, known, other)
      ensures Extends(more, other)
    {
      DeriveMonotone(c, a, m, other);
    }
    forall n | n in more && n !in known
      ensures exists b :: b in accounts && b.name == n && Derive(c, b, more) == Ok(Some(more[n]))
    {
      if n == a.name {
        DeriveMonotone(c, a, m, more);
        assert Derive(c, a, more) == Ok(Some(more[n]));
      } else {
        var b :| b in accounts && b.name == n && Derive(c, b, m) == Ok(Some(m[n]));
        DeriveMonotone(c, b, m, more);
      }
    }
  }

  lemma {:induction false} PassSound(c: Context, accounts: seq<Account>, known: Keys, rest: seq<Account>, m: Keys)
    requires Sound(c, accounts, known, m) && forall a :: a in rest ==> a in accounts
    ensures var r := Pass(c, rest, m);
            if r.Ok? then Sound(c, accounts, known, r.value) && Extends(m, r.value)
            else forall other :: Closed(c, accounts, known, other) ==> Faulty(c, accounts, known, other)
    decreases |rest|
  {
    hide Derive, Sound;
    if rest != [] {
      var a := rest[0];
      if a.name !in m {
        var key := Derive(c, a, m);
        if key.Err? {
          forall other | Closed(c, accounts, known, other)
            ensures Faulty(c, accounts, known, other)
          {
            SoundWithin(c, accounts, known, m, other);
            DeriveMonotone(c, a, m, other);
          }
        } else if key.value.Some? {
          SoundMore(c, accounts, known, m, a);
          PassSound(c, accounts, known, rest[1..], m[a.name := key.value.value]);
        } else {
          PassSound(c, accounts, known, rest[1..], m);
        }
      } else {
        PassSound(c, accounts, known, rest[1..], m);
      }
    }
  }

  lemma SoundWithin(c: Context, accounts: seq<Account>, known: Keys, m: Keys, other: Keys)
    requires Sound(c, accounts, known, m)
    ensures Extends(known, m)
    ensures Closed(c, accounts, known, other) ==> Extends(m, other)
  {
  }

  /** A pass that adds nothing saw every unresolved account come to nothing. */
  lemma {:induction false} IdlePass(c: Context, accounts: seq<Account>, m: Keys)
    requires Pass(c, accounts, m) == Ok(m)
    ensures forall a :: a in accounts && a.name !in m ==> Derive(c, a, m) == Ok(None)
    decreases |accounts|
  {
    hide Derive;
    if accounts != [] {
      var a := accounts[0];
      if a.name !in m && Derive(c, a, m).value.Some? {
        PassExtends(c, accounts[1..], m[a.name := Derive(c, a, m).value.value]);
      } else {
        IdlePass(c, accounts[1..], m);
      }
    }
  }

  lemma {:induction false} ResolveSound(c: Context, accounts: seq<Account>, known: Keys, m: Keys)
    requires Sound(c, accounts, known, m)
    ensures var r := Resolve(c, accounts, m);
            if r.Ok? then Sound(c, accounts, known, r.value) && Pass(c, accounts, r.value) == Ok(r.value)
            else forall other :: Closed(c, accounts, known, other) ==> Faulty(c, accounts, known, other)
    decreases Missing(accounts, m)
  {
    hide Derive, Sound, Closed, Faulty;
    PassSound(c, accounts, known, accounts, m);
    var after := Pass(c, accounts, m);
    if after.Ok? && after.value != m {
      PassProgress(c, accounts, m);
      ResolveSound(c, accounts, known, after.value);
    }
  }

  /**
   * With unique names the loop computes the least map closed under derivation, or fails when no map closed under
   * derivation is free of errors.
   */
  lemma ResolveIsLeast(c: Context, accounts: seq<Account>, known: Keys)
    requires UniqueNames(accounts, known)
    ensures var r := Resolve(c, accounts, known);
            if r.Ok? then Least(c, accounts, known, r.value) && !Faulty(c, accounts, known, r.value)
            else forall other :: Closed(c, accounts, known, other) ==> Faulty(c, accounts, known, other)
  {
    hide Derive, Resolve;
    ResolveSound(c, accounts, known, known);
    var r := Resolve(c, accounts, known);
    if r.Ok? {
      IdlePass(c, accounts, r.value);
      forall a | a in accounts && a.name !in known
        ensures Derive(c, a, r.value).Ok?
        ensures Derive(c, a, r.value).value.Some?
                ==> a.name in r.value && r.value[a.name] == Derive(c, a, r.value).value.value
      {
        if a.name in r.value {
          var b :| b in accounts && b.name == a.name && Derive(c, b, r.value) == Ok(Some(r.value[a.name]));
          assert a == b;
        }
      }
    }
  }

  /** The order in which accounts are listed does not matter. */
  lemma OrderIrrelevant(c: Context, accounts: seq<Account>, others: seq<Account>, known: Keys)
    requires UniqueNames(accounts, known) && forall a :: a in accounts <==> a in others
    ensures var r, s := Resolve(c, accounts, known), Resolve(c, others, known);
            (r.Ok? <==> s.Ok?) && (r.Ok? ==> r == s)
  {
    hide Derive, Resolve;
    ResolveIsLeast(c, accounts, known);
    ResolveIsLeast(c, others, known);
    var r, s := Resolve(c, accounts, known), Resolve(c, others, known);
    SameClosed(c, accounts, others, known);
    if r.Ok? {
      assert Closed(c, others, known, r.value) && !Faulty(c, others, known, r.value);
    }
    if s.Ok? {
      assert Closed(c, accounts, known, s.value) && !Faulty(c, accounts, known, s.value);
    }
    if r.Ok? && s.Ok? {
      assert Extends(r.value, s.value) && Extends(s.value, r.value);
      SameNames(r.value, s.value);
    }
  }

  lemma SameClosed(c: Context, accounts: seq<Account>, others: seq<Account>, known: Keys)
    requires forall a :: a in accounts <==> a in others
    ensures forall m :: Closed(c, accounts, known, m) <==> Closed(c, others, known, m)
    ensures forall m :: Faulty(c, accounts, known, m) <==> Faulty(c, others, known, m)
  {
    hide Derive;
  }

  // ---- Repeated names ----

  predicate AllFixed(accounts: seq<Account>) {
    forall i :: 0 <= i < |accounts| ==> accounts[i].address.Some?
  }

  /** Each name the address of the first account listed under it, unless it is known already. */
  function Firsts(accounts: seq<Account>, known: Keys): Keys
    requires AllFixed(accounts)
  {
    if accounts == [] then known
    else
      var a := accounts[0];
      Firsts(accounts[1..], if a.name in known then known else known[a.name := a.address.value])
  }

  lemma {:induction false} FirstsAre(c: Context, accounts: seq<Account>, known: Keys)
    requires AllFixed(accounts)
    ensures Pass(c, accounts, known) == Ok(Firsts(accounts, known))
    ensures Extends(known, Firsts(accounts, known))
    ensures forall i :: 0 <= i < |accounts| ==> accounts[i].name in Firsts(accounts, known)
    decreases |accounts|
  {
    if accounts != [] {
      var a := accounts[0];
      FirstsAre(c, accounts[1..], if a.name in known then known else known[a.name := a.address.value]);
      assert forall i :: 0 < i < |accounts| ==> accounts[i] == accounts[1..][i - 1];
    }
  }

  lemma {:induction false} NothingNew(c: Context, accounts: seq<Account>, m: Keys)
    requires forall i :: 0 <= i < |accounts| ==> accounts[i].name in m
    ensures Pass(c, accounts, m) == Ok(m)
    decreases |accounts|
  {
    if accounts != [] {
      NothingNew(c, accounts[1..], m);
    }
  }

  lemma FixedResolve(c: Context, accounts: seq<Account>, known: Keys)
    requires AllFixed(accounts)
    ensures Resolve(c, accounts, known) == Ok(Firsts(accounts, known))
  {
    FirstsAre(c, accounts, known);
    NothingNew(c, accounts, Firsts(accounts, known));
  }

  /** Position of the first account of name `n`. */
  function FirstOf(accounts: seq<Account>, n: string): (i: nat)
    ensures i <= |accounts| && (i < |accounts| ==> accounts[i].name == n)
    ensures forall j :: 0 <= j < i ==> accounts[j].name != n
  {
    if accounts == [] || accounts[0].name == n then 0
    else
      assert forall j :: 0 < j < |accounts| ==> accounts[j] == accounts[1..][j - 1];
      1 + FirstOf(accounts[1..], n)
  }

  function Got(m: Keys, n: string): Option<Key> {
    if n in m then Some(m[n]) else None
  }

  lemma {:induction false} FirstsAt(accounts: seq<Account>, known: Keys, n: string)
    requires AllFixed(accounts)
    ensures Got(Firsts(accounts, known), n)
            == if n in known then Some(known[n])
               else if FirstOf(accounts, n) < |accounts| then accounts[FirstOf(accounts, n)].address
               else None
    decreases |accounts|
  {
    if accounts != [] {
      var a := accounts[0];
      FirstsAt(accounts[1..], if a.name in known then known else known[a.name := a.address.value], n);
    }
  }

  /** The same accounts in some order. */
  ghost predicate Relisted(accounts: seq<Account>, others: seq<Account>) {
    multiset(accounts) == multiset(others)
  }

  ghost predicate Conflict(accounts: seq<Account>, n: string) {
    exists i, j :: 0 <= i < |accounts| && 0 <= j < |accounts|
                   && accounts[i].name == accounts[j].name == n && accounts[i].address != accounts[j].address
  }

  lemma RelistedMembers(accounts: seq<Account>, others: seq<Account>)
    requires Relisted(accounts, others)
    ensures forall a :: a in accounts <==> a in others
    ensures AllFixed(accounts) ==> AllFixed(others)
  {
    forall a
      ensures a in accounts <==> a in others
    {
      assert a in accounts <==> a in multiset(accounts);
      assert a in others <==> a in multiset(others);
    }
    assert forall i :: 0 <= i < |others| ==> others[i] in accounts;
  }

  /** Without a conflict every relisting gives the name the same address. */
  lemma SameWithoutConflict(accounts: seq<Account>, others: seq<Account>, known: Keys, n: string)
    requires AllFixed(accounts) && AllFixed(others) && Relisted(accounts, others)
    requires n in known || !Conflict(accounts, n)
    ensures Got(Firsts(accounts, known), n) == Got(Firsts(others, known), n)
  {
    RelistedMembers(accounts, others);
    FirstsAt(accounts, known, n);
    FirstsAt(others, known, n);
    var i, j := FirstOf(accounts, n), FirstOf(others, n);
    if i < |accounts| {
      assert accounts[i] in others;
    }
    if j < |others| {
      assert others[j] in accounts;
      var k :| 0 <= k < |accounts| && accounts[k] == others[j];
      assert accounts[k].name == n;
    }
  }

  /** The accounts with the `k`-th one moved to the front. */
  function Fronted(accounts: seq<Account>, k: nat): seq<Account>
    requires k < |accounts|
  {
    [accounts[k]] + accounts[..k] + accounts[k + 1..]
  }

  lemma FrontedRelists(accounts: seq<Account>, k: nat)
    requires k < |accounts|
    ensures Relisted(accounts, Fronted(accounts, k))
  {
    assert accounts == accounts[..k] + [accounts[k]] + accounts[k + 1..];
  }

  /** Of two accounts that differ in address, one differs from the first of the name. */
  lemma OtherAddress(accounts: seq<Account>, n: string) returns (k: nat)
    requires Conflict(accounts, n)
    ensures FirstOf(accounts, n) < |accounts|
    ensures k < |accounts| && accounts[k].name == n && accounts[k].address != accounts[FirstOf(accounts, n)].address
  {
    var i, j :| 0 <= i < |accounts| && 0 <= j < |accounts|
                && accounts[i].name == accounts[j].name == n && accounts[i].address != accounts[j].address;
    k := if accounts[i].address != accounts[FirstOf(accounts, n)].address then i else j;
  }

  /** With a conflict, listing another account of the name first gives it another address. */
  lemma ConflictMatters(accounts: seq<Account>, known: Keys, n: string) returns (others: seq<Account>)
    requires AllFixed(accounts) && n !in known && Conflict(accounts, n)
    ensures Relisted(accounts, others) && AllFixed(others)
    ensures Got(Firsts(accounts, known), n) != Got(Firsts(others, known), n)
  {
    hide Firsts, Relisted, Got, Conflict;
    var k := OtherAddress(accounts, n);
    others := Fronted(accounts, k);
    FrontedRelists(accounts, k);
    RelistedMembers(accounts, others);
    FirstsAt(accounts, known, n);
    FirstsAt(others, known, n);
    assert FirstOf(others, n) == 0;
  }

  /**
   * Accounts with fixed addresses, in any number and under any names: some relisting changes what a name resolves to
   * exactly when the name is not known and two accounts of it differ in address.
   */
  lemma RepeatedNames(c: Context, accounts: seq<Account>, known: Keys, n: string)
    requires AllFixed(accounts)
    ensures Resolve(c, accounts, known).Ok?
    ensures forall others :: Relisted(accounts, others) ==> Resolve(c, others, known).Ok?
    ensures (exists others ::
               Relisted(accounts, others)
               && Got(Resolve(c, accounts, known).value, n) != Got(Resolve(c, others, known).value, n))
            <==> n !in known && Conflict(accounts, n)
  {
    hide Resolve, Firsts, Got, Conflict, Relisted, AllFixed;
    FixedResolve(c, accounts, known);
    forall others | Relisted(accounts, others)
      ensures Resolve(c, others, known).Ok?
      ensures n in known || !Conflict(accounts, n) ==>
                Got(Resolve(c, accounts, known).value, n) == Got(Resolve(c, others, known).value, n)
    {
      RelistedMembers(accounts, others);
      FixedResolve(c, others, known);
      if n in known || !Conflict(accounts, n) {
        SameWithoutConflict(accounts, others, known, n);
      }
    }
    if n !in known && Conflict(accounts, n) {
      var others := ConflictMatters(accounts, known, n);
      FixedResolve(c, others, known);
    }
  }

  // ---- The whole instruction ----

  datatype AccountMeta = AccountMeta(key: Key, signer: bool, writable: bool)

  datatype Instruction = Instruction(programId: Key, keys: seq<AccountMeta>, data: seq<byte>)

  datatype Schema = Schema(name: string, discriminator: seq<byte>, accounts: seq<Account>, args: seq<IdlTypes.Field>)

  function Metas(accounts: seq<Account>, resolved: Keys): Result<seq<AccountMeta>, Error> {
    if accounts == [] then Ok([])
    else if accounts[0].name !in resolved then Err(MustBeProvided(accounts[0].name))
    else
      var rest :- Metas(accounts[1..], resolved);
      Ok([AccountMeta(resolved[accounts[0].name], accounts[0].signer, accounts[0].writable)] + rest)
  }

  const PARTIAL_FILL := "partial_fill"
  const PARTIAL_FILL_ARG := "partialFill"

  /** A trailing partial_fill the caller did not ask for is left out. */
  function ArgFields(fields: seq<IdlTypes.Field>, args: map<string, IdlTypes.Val>): seq<IdlTypes.Field> {
    if fields != [] && fields[|fields| - 1].name == PARTIAL_FILL && PARTIAL_FILL_ARG !in args
    then fields[..|fields| - 1]
    else fields
  }

  method BuildIdlInstruction(c: Context, schemas: seq<Schema>, name: string, known: Keys,
                             args: map<string, IdlTypes.Val>,
                             types: IdlTypes.Types, depth: nat, remaining: seq<AccountMeta>)
    returns (r: Result<Instruction, Error>)
    ensures r == Build(c, schemas, name, known, args, types, depth, remaining)
  {
    hide Resolve, Derive;
    var i := SchemaIndex(schemas, name);
    if i == |schemas| {
      return Err(InstructionMissing);
    }
    var ix := schemas[i];
    var resolved :- ResolveLoop(c, ix.accounts, known);
    var keys :- Metas(ix.accounts, resolved);
    var body := IdlCodec.EncodeIdlFields(ArgFields(ix.args, args), args, types, depth);
    if body.Err? {
      return Err(BadArgs);
    }
    return Ok(Instruction(c.programId, keys + remaining, ix.discriminator + body.value));
  }

  function SchemaIndex(schemas: seq<Schema>, name: string): (i: nat)
    ensures i <= |schemas|
    ensures i < |schemas| ==> schemas[i].name == name
  {
    if schemas == [] || schemas[0].name == name then 0 else 1 + SchemaIndex(schemas[1..], name)
  }

  function Build(c: Context, schemas: seq<Schema>, name: string, known: Keys, args: map<string, IdlTypes.Val>,
                 types: IdlTypes.Types, depth: nat, remaining: seq<AccountMeta>): Result<Instruction, Error>
  {
    var i := SchemaIndex(schemas, name);
    if i == |schemas| then Err(InstructionMissing)
    else
      var ix := schemas[i];
      var resolved :- Resolve(c, ix.accounts, known);
      var keys :- Metas(ix.accounts, resolved);
      match IdlCodec.EncodeIdlFields(ArgFields(ix.args, args), args, types, depth)
      case Err(_) => Err(BadArgs)
      case Ok(body) => Ok(Instruction(c.programId, keys + remaining, ix.discriminator + body))
  }

  lemma {:induction false} MetasAre(accounts: seq<Account>, resolved: Keys)
    ensures Metas(accounts, resolved).Ok? <==> forall a :: a in accounts ==> a.name in resolved
    ensures Metas(accounts, resolved).Ok? ==>
              && |Metas(accounts, resolved).value| == |accounts|
              && forall i :: 0 <= i < |accounts| ==>
                   Metas(accounts, resolved).value[i]
                     == AccountMeta(resolved[accounts[i].name], accounts[i].signer, accounts[i].writable)
    decreases |accounts|
  {
    if accounts != [] {
      MetasAre(accounts[1..], resolved);
      assert forall a :: a in accounts <==> a == accounts[0] || a in accounts[1..];
    }
  }

  /** Every account is in every closed map: its address follows from what the caller knows. */
  ghost predicate InClosure(c: Context, accounts: seq<Account>, known: Keys, a: Account) {
    forall m :: Closed(c, accounts, known, m) ==> a.name in m
  }

  /**
   * The builder succeeds exactly when derivation is free of errors, every account follows from what the caller knows,
   * and the arguments encode; and then the keys are the accounts in IDL order, each with its own flags.
   */
  lemma BuildIffDerivable(c: Context, schemas: seq<Schema>, name: string, known: Keys, args: map<string, IdlTypes.Val>,
                          types: IdlTypes.Types, depth: nat, remaining: seq<AccountMeta>)
    requires SchemaIndex(schemas, name) < |schemas| && UniqueNames(schemas[SchemaIndex(schemas, name)].accounts, known)
    ensures var ix := schemas[SchemaIndex(schemas, name)];
            var r := Build(c, schemas, name, known, args, types, depth, remaining);
            r.Ok? <==> && (exists m :: Closed(c, ix.accounts, known, m) && !Faulty(c, ix.accounts, known, m))
                       && (forall a :: a in ix.accounts ==> InClosure(c, ix.accounts, known, a))
                       && IdlCodec.EncodeIdlFields(ArgFields(ix.args, args), args, types, depth).Ok?
    ensures var ix := schemas[SchemaIndex(schemas, name)];
            var r := Build(c, schemas, name, known, args, types, depth, remaining);
            r.Ok? ==>
              && r.value.programId == c.programId
              && |r.value.keys| == |ix.accounts| + |remaining| && r.value.keys[|ix.accounts|..] == remaining
              && forall i :: 0 <= i < |ix.accounts| ==>
                   && r.value.keys[i].signer == ix.accounts[i].signer
                      && r.value.keys[i].writable == ix.accounts[i].writable
                   && forall m :: Closed(c, ix.accounts, known, m) ==>
                        ix.accounts[i].name in m && m[ix.accounts[i].name] == r.value.keys[i].key
  {
    hide Derive, Resolve, Closed, Faulty;
    var ix := schemas[SchemaIndex(schemas, name)];
    ResolveIsLeast(c, ix.accounts, known);
    var r := Resolve(c, ix.accounts, known);
    if r.Ok? {
      MetasAre(ix.accounts, r.value);
      assert Closed(c, ix.accounts, known, r.value);
      forall a | a in ix.accounts
        ensures a.name in r.value <==> InClosure(c, ix.accounts, known, a)
      {
      }
    }
  }

  lemma {:induction false} EncodePrefix(fs: seq<IdlTypes.Field>, m: map<string, IdlTypes.Val>, types: IdlTypes.Types,
                                        depth: nat)
    requires fs != [] && IdlCodec.EncodeNamed(fs, m, types, depth).Ok?
    ensures IdlCodec.EncodeNamed(fs[..|fs| - 1], m, types, depth).Ok?
    ensures IdlCodec.EncodeNamed(fs[..|fs| - 1], m, types, depth).value
            <= IdlCodec.EncodeNamed(fs, m, types, depth).value
    decreases |fs|
  {
    if |fs| > 1 {
      assert fs[..|fs| - 1][1..] == fs[1..][..|fs[1..]| - 1];
      EncodePrefix(fs[1..], m, types, depth);
    }
  }

  lemma {:induction false} EncodeIgnores(fs: seq<IdlTypes.Field>, m: map<string, IdlTypes.Val>, name: string,
                                         v: IdlTypes.Val, types: IdlTypes.Types, depth: nat)
    requires name !in m && IdlCodec.EncodeNamed(fs, m, types, depth).Ok?
    ensures IdlCodec.EncodeNamed(fs, m[name := v], types, depth) == IdlCodec.EncodeNamed(fs, m, types, depth)
    decreases |fs|
  {
    if fs != [] {
      EncodeIgnores(fs[1..], m, name, v, types, depth);
    }
  }

  /** Leaving partial_fill out keeps the older bytes: asking for it only appends. */
  lemma PartialFillAppends(fs: seq<IdlTypes.Field>, args: map<string, IdlTypes.Val>, v: IdlTypes.Val,
                           types: IdlTypes.Types, depth: nat)
    requires fs != [] && fs[|fs| - 1].name == PARTIAL_FILL && PARTIAL_FILL_ARG !in args
    requires IdlCodec.EncodeIdlFields(ArgFields(fs, args), args, types, depth).Ok?
    requires IdlCodec.EncodeIdlFields(ArgFields(fs, args[PARTIAL_FILL_ARG := v]), args[PARTIAL_FILL_ARG := v], types,
                                      depth).Ok?
    ensures IdlCodec.EncodeIdlFields(ArgFields(fs, args), args, types, depth).value
            <= IdlCodec.EncodeIdlFields(ArgFields(fs, args[PARTIAL_FILL_ARG := v]), args[PARTIAL_FILL_ARG := v], types,
                                        depth).value
  {
    var more, front := args[PARTIAL_FILL_ARG := v], fs[..|fs| - 1];
    EncodeIgnores(front, args, PARTIAL_FILL_ARG, v, types, depth);
    EncodePrefix(fs, more, types, depth);
    var short := IdlCodec.EncodeNamed(front, args, types, depth).value;
    var long := IdlCodec.EncodeNamed(fs, more, types, depth).value;
    assert ToU8Array(short) == ToU8Array(long)[..|short|];
  }
}
