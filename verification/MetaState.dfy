/** The ledger a node works on: maps of changed objects over a shared index of committed ones.
    Every operation is proved to do to the merged view what the plain ledger operation does. */
module MetaStates {
  import opened Common
  import opened LedgerTypes
  import opened Transactions
  import opened LedgerLoops
  import opened BillingLoops

  // ---------------------------------------------------------------- merged maps

  /** dirty over base; None marks a deletion. */
  function Merge<K, V>(base: map<K, V>, dirty: map<K, Option<V>>): map<K, V> {
    map k | k in base.Keys + dirty.Keys && (k in dirty ==> dirty[k].Some?) ::
      if k in dirty then dirty[k].value else base[k]
  }

  lemma MergePut<K, V>(base: map<K, V>, dirty: map<K, Option<V>>, k: K, v: V)
    ensures Merge(base, dirty[k := Some(v)]) == Merge(base, dirty)[k := v]
  {}

  lemma PlusPut<K, V>(base: map<K, V>, dirty: map<K, V>, k: K, v: V)
    ensures base + dirty[k := v] == (base + dirty)[k := v]
  {}

  lemma MergeDelete<K, V>(base: map<K, V>, dirty: map<K, Option<V>>, k: K)
    ensures Merge(base, dirty[k := None]) == Merge(base, dirty) - {k}
  {}

  /** Writes the changes into base one by one, in whatever order the map is walked. */
  method MergeInto<K, V>(base: map<K, V>, dirty: map<K, Option<V>>) returns (r: map<K, V>)
    ensures r == Merge(base, dirty)
  {
    r := base;
    var keys := dirty.Keys;
    ghost var done: map<K, Option<V>> := map[];
    while keys != {}
      invariant keys <= dirty.Keys && r == Merge(base, done)
      invariant forall k :: k in done <==> k in dirty && k !in keys
      invariant forall k :: k in done ==> done[k] == dirty[k]
      decreases keys
    {
      var k :| k in keys;
      match dirty[k] {
        case Some(v) =>
          MergePut(base, done, k, v);
          r := r[k := v];
        case None =>
          MergeDelete(base, done, k);
          r := r - {k};
      }
      done := done[k := dirty[k]];
      keys := keys - {k};
    }
    assert done == dirty;
  }

  /** Updates only: no entry is ever deleted from these maps. */
  method UpdateInto<K, V>(base: map<K, V>, dirty: map<K, V>) returns (r: map<K, V>)
    ensures r == base + dirty
  {
    r := base;
    var keys := dirty.Keys;
    while keys != {}
      invariant keys <= dirty.Keys
      invariant r.Keys == base.Keys + (dirty.Keys - keys)
      invariant forall k :: k in r ==> r[k] == if k in dirty && k !in keys then dirty[k] else base[k]
      decreases keys
    {
      var k :| k in keys;
      r := r[k := dirty[k]];
      keys := keys - {k};
    }
  }

  method CopyMap<K, V>(m: map<K, V>) returns (r: map<K, V>)
    ensures r == m
  {
    r := UpdateInto(map[], m);
  }

  // ---------------------------------------------------------------- index

  /** Committed objects. Arenas of a branch share the index of that branch. */
  class MetaIndex {
    var accounts: map<Address, Account>
    var databases: map<Address, Profile>
    var providers: map<Address, Provider>

    function Content(): Ledger
      reads this
    {
      Ledger(accounts, databases, providers)
    }

    constructor ()
      ensures Content() == EmptyLedger
    {
      accounts, databases, providers := map[], map[], map[];
    }

    method DeepCopy() returns (c: MetaIndex)
      ensures fresh(c) && c.Content() == Content()
    {
      c := new MetaIndex();
      c.accounts := CopyMap(accounts);
      c.databases := CopyMap(databases);
      c.providers := CopyMap(providers);
    }
  }

  /** Changed objects; only providers are ever deleted. */
  datatype Dirty = Dirty(
    accounts: map<Address, Account>, databases: map<Address, Profile>, providers: map<Address, Option<Provider>>)

  const CLEAN := Dirty(map[], map[], map[])

  function Over(base: Ledger, d: Dirty): Ledger {
    Ledger(base.accounts + d.accounts, base.databases + d.databases, Merge(base.providers, d.providers))
  }

  /** One statement of the storage transaction that persists the changes. */
  datatype Procedure =
    | UpdateAccount(addr: Address, account: Account)
    | UpdateShardChain(id: Address, profile: Profile)
    | UpdateProvider(miner: Address, provider: Provider)
    | DeleteProvider(gone: Address)

  function Run(tables: Ledger, p: Procedure): Ledger {
    match p
    case UpdateAccount(a, v) => tables.(accounts := tables.accounts[a := v])
    case UpdateShardChain(a, v) => tables.(databases := tables.databases[a := v])
    case UpdateProvider(a, v) => tables.(providers := tables.providers[a := v])
    case DeleteProvider(a) => tables.(providers := tables.providers - {a})
  }

  function RunAll(tables: Ledger, ps: seq<Procedure>): Ledger {
    if ps == [] then tables else Run(RunAll(tables, ps[..|ps| - 1]), ps[|ps| - 1])
  }

  lemma {:induction false} RunAppend(tables: Ledger, ps: seq<Procedure>, p: Procedure)
    ensures RunAll(tables, ps + [p]) == Run(RunAll(tables, ps), p)
  {
    assert (ps + [p])[..|ps + [p]| - 1] == ps;
  }

  lemma MoreAddresses(ps: map<Address, Provider>, miners: seq<Miner>, k: nat)
    requires k < |miners|
    ensures ps - MinerAddresses(miners[..k + 1]) == (ps - MinerAddresses(miners[..k])) - {miners[k].address}
  {
    assert miners[..k + 1] == miners[..k] + [miners[k]];
    assert MinerAddresses(miners[..k + 1]) == MinerAddresses(miners[..k]) + {miners[k].address};
  }

  lemma RunAccount(base: Ledger, d: Dirty, k: Address, v: Account)
    ensures Run(Over(base, d), UpdateAccount(k, v)) == Over(base, d.(accounts := d.accounts[k := v]))
  {
    PlusPut(base.accounts, d.accounts, k, v);
  }

  lemma RunDatabase(base: Ledger, d: Dirty, k: Address, v: Profile)
    ensures Run(Over(base, d), UpdateShardChain(k, v)) == Over(base, d.(databases := d.databases[k := v]))
  {
    PlusPut(base.databases, d.databases, k, v);
  }

  method CompileAccounts(accounts: map<Address, Account>, ghost base: Ledger) returns (added: seq<Procedure>)
    ensures RunAll(base, added) == Over(base, Dirty(accounts, map[], map[]))
  {
    added := [];
    var keys := accounts.Keys;
    ghost var done: map<Address, Account> := map[];
    OverClean(base);
    while keys != {}
      invariant keys <= accounts.Keys && RunAll(base, added) == Over(base, Dirty(done, map[], map[]))
      invariant forall k :: k in done <==> k in accounts && k !in keys
      invariant forall k :: k in done ==> done[k] == accounts[k]
      decreases keys
    {
      var k :| k in keys;
      RunAppend(base, added, UpdateAccount(k, accounts[k]));
      added := added + [UpdateAccount(k, accounts[k])];
      RunAccount(base, Dirty(done, map[], map[]), k, accounts[k]);
      done := done[k := accounts[k]];
      keys := keys - {k};
    }
    assert done == accounts;
  }

  method CompileDatabases(databases: map<Address, Profile>, ghost accounts: map<Address, Account>, ghost base: Ledger,
                          ghost before: seq<Procedure>)
    returns (added: seq<Procedure>)
    requires RunAll(base, before) == Over(base, Dirty(accounts, map[], map[]))
    ensures RunAll(base, before + added) == Over(base, Dirty(accounts, databases, map[]))
  {
    added := [];
    var keys := databases.Keys;
    ghost var done: map<Address, Profile> := map[];
    assert before + [] == before;
    while keys != {}
      invariant keys <= databases.Keys && RunAll(base, before + added) == Over(base, Dirty(accounts, done, map[]))
      invariant forall k :: k in done <==> k in databases && k !in keys
      invariant forall k :: k in done ==> done[k] == databases[k]
      decreases keys
    {
      var k :| k in keys;
      var p := UpdateShardChain(k, databases[k]);
      RunAppend(base, before + added, p);
      assert before + (added + [p]) == (before + added) + [p];
      added := added + [p];
      RunDatabase(base, Dirty(accounts, done, map[]), k, databases[k]);
      done := done[k := databases[k]];
      keys := keys - {k};
    }
    assert done == databases;
  }

  function ProviderChange(k: Address, v: Option<Provider>): Procedure {
    if v.Some? then UpdateProvider(k, v.value) else DeleteProvider(k)
  }

  lemma RunProvider(base: Ledger, d: Dirty, k: Address, v: Option<Provider>)
    ensures Run(Over(base, d), ProviderChange(k, v)) == Over(base, d.(providers := d.providers[k := v]))
  {
    if v.Some? { MergePut(base.providers, d.providers, k, v.value); }
    else { MergeDelete(base.providers, d.providers, k); }
  }

  method CompileProviders(providers: map<Address, Option<Provider>>, ghost accounts: map<Address, Account>,
                          ghost databases: map<Address, Profile>, ghost base: Ledger, ghost before: seq<Procedure>)
    returns (added: seq<Procedure>)
    requires RunAll(base, before) == Over(base, Dirty(accounts, databases, map[]))
    ensures RunAll(base, before + added) == Over(base, Dirty(accounts, databases, providers))
  {
    added := [];
    var keys := providers.Keys;
    ghost var done: map<Address, Option<Provider>> := map[];
    assert before + [] == before;
    while keys != {}
      invariant keys <= providers.Keys && RunAll(base, before + added) == Over(base, Dirty(accounts, databases, done))
      invariant forall k :: k in done <==> k in providers && k !in keys
      invariant forall k :: k in done ==> done[k] == providers[k]
      decreases keys
    {
      var k :| k in keys;
      var p := ProviderChange(k, providers[k]);
      RunProvider(base, Dirty(accounts, databases, done), k, providers[k]);
      RunAppend(base, before + added, p);
      assert before + (added + [p]) == (before + added) + [p];
      added := added + [p];
      done := done[k := providers[k]];
      keys := keys - {k};
    }
    assert done == providers;
  }

  lemma OverClean(base: Ledger)
    ensures Over(base, CLEAN) == base
  {
    assert Merge(base.providers, map[]) == base.providers;
  }

  // ---------------------------------------------------------------- state

  class MetaState {
    var dirty: Dirty
    const readonly: MetaIndex

    /** The ledger this state stands for. */
    ghost function View(): Ledger
      reads this, readonly
    {
      Over(readonly.Content(), dirty)
    }

    constructor (index: MetaIndex)
      ensures readonly == index && dirty == CLEAN && View() == index.Content()
    {
      dirty, readonly := CLEAN, index;
      new;
      assert Merge(index.providers, map[]) == index.providers;
    }

    /** A copy with an index of its own. */
    method MakeCopy() returns (s: MetaState)
      ensures fresh(s) && fresh(s.readonly) && s.dirty == CLEAN && s.View() == readonly.Content()
    {
      var index := readonly.DeepCopy();
      s := new MetaState(index);
    }

    /** The changes become part of the index, for every state that shares it; the view stays. */
    method Commit()
      modifies this`dirty, readonly
      ensures dirty == CLEAN && View() == readonly.Content() == old(View())
    {
      var accounts := UpdateInto(readonly.accounts, dirty.accounts);
      var databases := UpdateInto(readonly.databases, dirty.databases);
      var providers := MergeInto(readonly.providers, dirty.providers);
      readonly.accounts, readonly.databases, readonly.providers := accounts, databases, providers;
      dirty := CLEAN;
    }

    /** The changes are dropped. */
    method Clean()
      modifies this`dirty
      ensures dirty == CLEAN && View() == readonly.Content()
    {
      dirty := CLEAN;
    }

    /** The statements that bring tables holding the committed ledger to the changed one. */
    method CompileChanges(dst: seq<Procedure>) returns (results: seq<Procedure>)
      ensures |dst| <= |results| && results[..|dst|] == dst
      ensures RunAll(readonly.Content(), results[|dst|..]) == View()
    {
      ghost var base := readonly.Content();
      var a := CompileAccounts(dirty.accounts, base);
      var b := CompileDatabases(dirty.databases, dirty.accounts, base, a);
      var c := CompileProviders(dirty.providers, dirty.accounts, dirty.databases, base, a + b);
      results := dst + (a + b + c);
    }

    // -------------------------------------------------------------- objects

    method LoadAccount(k: Address) returns (r: Option<Account>)
      ensures r == if k in View().accounts then Some(View().accounts[k]) else None
    {
      if k in dirty.accounts { return Some(dirty.accounts[k]); }
      if k in readonly.accounts { return Some(readonly.accounts[k]); }
      return None;
    }

    method StoreAccount(k: Address, v: Account)
      modifies this`dirty
      ensures View() == SetAccount(old(View()), k, v)
    {
      PlusPut(readonly.accounts, dirty.accounts, k, v);
      dirty := dirty.(accounts := dirty.accounts[k := v]);
    }

    /** Keeps an existing account; otherwise v is stored. */
    method LoadOrStoreAccount(k: Address, v: Account)
      modifies this`dirty
      ensures View() == if k in old(View()).accounts then old(View()) else SetAccount(old(View()), k, v)
    {
      if k in dirty.accounts || k in readonly.accounts { return; }
      StoreAccount(k, v);
    }

    method LoadProfile(k: Address) returns (r: Option<Profile>)
      ensures r == if k in View().databases then Some(View().databases[k]) else None
    {
      if k in dirty.databases { return Some(dirty.databases[k]); }
      if k in readonly.databases { return Some(readonly.databases[k]); }
      return None;
    }

    method StoreProfile(k: Address, v: Profile)
      modifies this`dirty
      ensures View() == old(View()).(databases := old(View()).databases[k := v])
    {
      PlusPut(readonly.databases, dirty.databases, k, v);
      dirty := dirty.(databases := dirty.databases[k := v]);
    }

    method LoadProvider(k: Address) returns (r: Option<Provider>)
      ensures r == if k in View().providers then Some(View().providers[k]) else None
    {
      if k in dirty.providers { return dirty.providers[k]; }
      if k in readonly.providers { return Some(readonly.providers[k]); }
      return None;
    }

    method StoreProvider(k: Address, v: Provider)
      modifies this`dirty
      ensures View() == old(View()).(providers := old(View()).providers[k := v])
    {
      MergePut(readonly.providers, dirty.providers, k, v);
      dirty := dirty.(providers := dirty.providers[k := Some(v)]);
    }

    method RemoveProvider(k: Address)
      modifies this`dirty
      ensures View() == old(View()).(providers := old(View()).providers - {k})
    {
      MergeDelete(readonly.providers, dirty.providers, k);
      dirty := dirty.(providers := dirty.providers[k := None]);
    }

    // -------------------------------------------------------------- tokens

    /** The account to change, copied into the changed objects first. */
    method Touch(k: Address) returns (r: Option<Account>)
      modifies this`dirty
      ensures View() == old(View())
      ensures r == if k in View().accounts then Some(View().accounts[k]) else None
    {
      r := LoadAccount(k);
      if r.Some? && k !in dirty.accounts {
        ghost var l := View();
        assert l.accounts[k := r.value] == l.accounts;
        StoreAccount(k, r.value);
      }
    }

    method IncreaseToken(k: Address, amount: u64, t: Token) returns (err: Err)
      modifies this`dirty
      ensures Applied(View(), err) == Increase(old(View()), k, amount, t)
    {
      var acc := Touch(k);
      if acc.None? { return AccountNotFound; }
      var sum := SafeAdd(acc.value.balance.Of(t), amount);
      if sum.None? { return BalanceOverflow; }
      StoreAccount(k, WithBalance(acc.value, t, sum.value));
      return NoErr;
    }

    method DecreaseToken(k: Address, amount: u64, t: Token) returns (err: Err)
      modifies this`dirty
      ensures Applied(View(), err) == Decrease(old(View()), k, amount, t)
    {
      var acc := Touch(k);
      if acc.None? { return AccountNotFound; }
      var rest := SafeSub(acc.value.balance.Of(t), amount);
      if rest.None? { return InsufficientBalance; }
      StoreAccount(k, WithBalance(acc.value, t, rest.value));
      return NoErr;
    }

    method Transfer(key: nat, t: Body) returns (err: Err)
      requires t.Transfer?
      modifies this`dirty
      ensures Applied(View(), err) == TransferAccountToken(old(View()), key, t)
    {
      if User(key) != t.sender { return InvalidSender; }
      if t.sender == t.receiver || t.amount == 0 { return NoErr; }
      LoadOrStoreAccount(t.receiver, EmptyAccount);
      var so := LoadAccount(t.sender);
      if so.None? { return AccountNotFound; }
      var ro := LoadAccount(t.receiver);
      if ro.None? { return AccountNotFound; }
      var sb := SafeSub(so.value.balance.Of(t.token), t.amount);
      if sb.None? { return InsufficientBalance; }
      var rb := SafeAdd(ro.value.balance.Of(t.token), t.amount);
      if rb.None? { return BalanceOverflow; }
      StoreAccount(t.sender, WithBalance(so.value, t.token, sb.value));
      StoreAccount(t.receiver, WithBalance(ro.value, t.token, rb.value));
      return NoErr;
    }

    /** A user in arrears is cleared, and the miners are credited. */
    method SettleUser(u: DbUser, miners: seq<Miner>, a: Address) returns (v: DbUser, r: seq<Miner>)
      ensures v == if u.arrears > 0 then u.(arrears := 0, status := Normal) else u
      ensures r == if u.arrears > 0 then SettleAll(miners, a) else miners
    {
      if u.arrears == 0 { return u, miners; }
      r := SettleMiners(miners, a);
      v := u.(arrears := 0, status := Normal);
    }

    method TopUpUser(u: DbUser, amount: u64, minDep: u64) returns (r: Option<DbUser>)
      ensures r == TopUp(u, amount, minDep)
    {
      if u.deposit < minDep {
        var diff := minDep - u.deposit;
        if diff >= amount { return Some(u.(deposit := u.deposit + amount)); }
        return Some(u.(deposit := minDep, advance := Add(u.advance, amount - diff)));
      }
      var sum := SafeAdd(u.advance, amount);
      return if sum.None? then None else Some(u.(advance := sum.value));
    }

    method TransferToChain(cfg: Config, key: nat, t: Body) returns (err: Err)
      requires t.Transfer?
      modifies this`dirty
      ensures Applied(View(), err) == TransferToDatabase(cfg, old(View()), key, t)
    {
      if User(key) != t.sender { return InvalidSender; }
      var chain := LoadProfile(t.receiver);
      if chain.None? { return DatabaseNotFound; }
      var p := chain.value;
      if p.token != t.token { return WrongTokenType; }
      var account := LoadAccount(t.sender);
      if account.None? { return AccountNotFound; }
      var acc := account.value;
      if acc.balance.Of(t.token) < t.amount { return InsufficientBalance; }
      var i := SearchUser(p.users, t.sender);
      if i == |p.users| { return NoErr; }
      err := TopUpChain(cfg, key, t, p, acc, i);
    }

    /** The transfer to a database by its user i. */
    method TopUpChain(cfg: Config, key: nat, t: Body, p: Profile, acc: Account, i: nat) returns (err: Err)
      requires t.Transfer? && User(key) == t.sender && t.receiver in View().databases && t.sender in View().accounts
      requires p == View().databases[t.receiver] && p.token == t.token && i == FindUser(p.users, t.sender) &&
        i < |p.users|
      requires acc == View().accounts[t.sender] && t.amount <= acc.balance.Of(t.token)
      modifies this`dirty
      ensures Applied(View(), err) == TransferToDatabase(cfg, old(View()), key, t)
    {
      if p.users[i].arrears > t.amount { return InsufficientTransfer; }
      PaymentStores(cfg, View(), key, t);
      var q := PayInto(cfg, p, t, i);
      if q.None? { return BalanceOverflow; }
      StorePayment(t, q.value, WithBalance(acc, t.token, acc.balance.Of(t.token) - t.amount));
      return NoErr;
    }

    method StorePayment(t: Body, p: Profile, acc: Account)
      requires t.Transfer?
      modifies this`dirty
      ensures View() == SetAccount(old(View()).(databases := old(View()).databases[t.receiver := p]), t.sender, acc)
    {
      StoreProfile(t.receiver, p);
      StoreAccount(t.sender, acc);
    }

    method PayInto(cfg: Config, p: Profile, t: Body, i: nat) returns (q: Option<Profile>)
      requires t.Transfer? && i < |p.users|
      ensures q == Paid(cfg, p, t, i)
    {
      var u, miners := SettleUser(p.users[i], p.miners, t.sender);
      var minDep := MinDeposit(cfg, p.gasPrice, |p.miners|);
      var topped := TopUpUser(u, t.amount, minDep);
      if topped.None? { return None; }
      return Some(p.(miners := miners, users := p.users[i := Reenable(topped.value, minDep)]));
    }

    // -------------------------------------------------------------- nonces

    method NextNonce(k: Address) returns (r: Option<nat>)
      ensures r == if k in View().accounts then Some(View().accounts[k].nextNonce) else None
    {
      var acc := LoadAccount(k);
      return if acc.Some? then Some(acc.value.nextNonce) else None;
    }

    method BumpNonce(k: Address) returns (err: Err)
      modifies this`dirty
      ensures Applied(View(), err) == IncreaseNonce(old(View()), k)
    {
      var acc := Touch(k);
      if acc.None? { return AccountNotFound; }
      StoreAccount(k, acc.value.(nextNonce := acc.value.nextNonce + 1));
      return NoErr;
    }

    // -------------------------------------------------------------- providers and databases

    method ProvideService(cfg: Config, key: nat, t: Body, height: nat) returns (err: Err)
      requires t.ProvideService?
      modifies this`dirty
      ensures Applied(View(), err) == UpdateProviderList(cfg, old(View()), key, t, height)
    {
      var a := User(key);
      if height >= FIX_PROVIDE_SERVICE {
        var p := LoadProvider(a);
        if p.Some? {
          err := IncreaseToken(a, p.value.deposit, Particle);
          if !err.NoErr? { return; }
          RemoveProvider(a);
        }
      }
      err := DecreaseToken(a, cfg.minProviderDeposit, Particle);
      if !err.NoErr? { return; }
      StoreProvider(a, Provider(t.space, t.memory, t.loadAvg, t.targetUsers, cfg.minProviderDeposit, t.gasPrice,
                                Particle, t.nodeID));
    }

    method CreateChain(cfg: Config, key: nat, nonce: nat, t: Body) returns (err: Err)
      requires t.CreateDatabase?
      modifies this`dirty
      ensures Applied(View(), err) == MatchProvidersWithUser(cfg, old(View()), key, nonce, t)
    {
      var a := User(key);
      if a != t.owner { return InvalidSender; }
      if t.price == 0 { return InvalidGasPrice; }
      if t.nodes == 0 { return InvalidMinerCount; }
      var minAdvance := MinDeposit(cfg, t.price, t.nodes);
      if t.advancePayment < minAdvance { return InsufficientAdvancePayment; }
      var all := MergeInto(readonly.providers, dirty.providers);
      var found := FindMiners(cfg.ties(key, nonce, t, all), all, t, a, View());
      if found.Stop? { return found.err; }
      var sum := SafeAdd(minAdvance, t.advancePayment);
      if sum.None? { return BalanceOverflow; }
      err := DecreaseToken(a, sum.value, t.payToken);
      if !err.NoErr? { return; }
      err := StoreNewChain(Database(a, nonce), NewProfile(t, a, found.miners, minAdvance));
    }

    method StoreNewChain(db: Address, p: Profile) returns (err: Err)
      modifies this`dirty
      ensures Applied(View(), err) == CreateProfile(old(View()), db, p)
    {
      var existing := LoadProfile(db);
      if existing.Some? { return DatabaseExists; }
      StoreAccount(db, EmptyAccount);
      StoreProfile(db, p);
      RemoveProviders(p.miners);
      return NoErr;
    }

    method RemoveProviders(miners: seq<Miner>)
      modifies this`dirty
      ensures View() == old(View()).(providers := old(View()).providers - MinerAddresses(miners))
    {
      ghost var l := View();
      assert l.providers - MinerAddresses(miners[..0]) == l.providers;
      for k := 0 to |miners|
        invariant View() == l.(providers := l.providers - MinerAddresses(miners[..k]))
      {
        MoreAddresses(l.providers, miners, k);
        RemoveProvider(miners[k].address);
      }
      assert miners[..|miners|] == miners;
    }

    // -------------------------------------------------------------- permissions, keys, billing

    method UpdatePermission(key: nat, t: Body) returns (err: Err)
      requires t.UpdatePermission?
      modifies this`dirty
      ensures Applied(View(), err) == ApplyPermission(old(View()), key, t)
    {
      var a := User(key);
      var chain := LoadProfile(t.target);
      if chain.None? { return DatabaseNotFound; }
      var p := chain.value;
      var scan := ScanUsers(p.users, a, t.targetUser);
      if scan.Refused? { return PermissionDeny; }
      if scan.supers <= 1 && t.targetUser == a && !t.permission.Super() { return NoSuperUserLeft; }
      var users := if scan.target < 0 then p.users + [DbUser(t.targetUser, t.permission, 0, 0, 0, Unknown)]
                   else p.users[scan.target := p.users[scan.target].(permission := t.permission)];
      StoreProfile(t.target, p.(users := users));
      return NoErr;
    }

    /** Keys are issued on a loaded copy only. */
    method UpdateKeys(key: nat, t: Body) returns (err: Err)
      requires t.IssueKeys?
      ensures Applied(View(), err) == ApplyKeys(View(), key, t)
    {
      var chain := LoadProfile(t.database);
      if chain.None? { return DatabaseNotFound; }
      var users := chain.value.users;
      var i := SearchUser(users, User(key));
      if i < |users| && !users[i].permission.Super() { return PermissionDeny; }
      return NoErr;
    }

    method UpdateBilling(key: nat, t: Body) returns (err: Err)
      requires t.UpdateBilling?
      modifies this`dirty
      ensures Applied(View(), err) == ApplyBilling(old(View()), key, t)
    {
      var chain := LoadProfile(t.billed);
      if chain.None? { return DatabaseNotFound; }
      var p := chain.value;
      if t.version > 0 && (t.from >= t.to || p.lastUpdated != t.from) { return InvalidRange; }
      if p.gasPrice == 0 { return NoErr; }
      var miners, isMiner := ReceiveIncome(p.miners, User(key));
      if !isMiner { return InvalidSender; }
      var users;
      users, miners := ChargeUsers(t.costs, p.gasPrice, p.users, miners);
      StoreProfile(t.billed, p.(lastUpdated := t.to, users := users, miners := miners));
      return NoErr;
    }

    // -------------------------------------------------------------- transactions

    method ApplyTransaction(cfg: Config, tx: Tx, height: nat) returns (err: Err)
      modifies this`dirty
      ensures Applied(View(), err) == ApplyBody(cfg, old(View()), tx, height)
    {
      match tx.body
      case Transfer(_, _, _, _) =>
        err := TransferToChain(cfg, tx.key, tx.body);
        if err.DatabaseNotFound? { err := Transfer(tx.key, tx.body); }
      case ProvideService(_, _, _, _, _, _) => err := ProvideService(cfg, tx.key, tx.body, height);
      case CreateDatabase(_, _, _, _, _, _, _, _, _) => err := CreateChain(cfg, tx.key, tx.nonce, tx.body);
      case UpdatePermission(_, _, _) => err := UpdatePermission(tx.key, tx.body);
      case IssueKeys(_) => err := UpdateKeys(tx.key, tx.body);
      case UpdateBilling(_, _, _, _, _) => err := UpdateBilling(tx.key, tx.body);
    }

    method Apply(cfg: Config, tx: Tx, height: nat) returns (err: Err)
      modifies this`dirty
      ensures Applied(View(), err) == Transactions.Apply(cfg, old(View()), tx, height)
    {
      var nonce := NextNonce(tx.Sender());
      if nonce.None? { return AccountNotFound; }
      if nonce.value != tx.nonce { return InvalidNonce; }
      err := ApplyTransaction(cfg, tx, height);
      if !err.NoErr? { return; }
      err := BumpNonce(tx.Sender());
    }
  }
}
