/** The Particle supply under provider deposits, database creation and billing. */
module TokenFlows {
  import opened Common
  import opened LedgerTypes
  import opened Transactions
  import opened TokenSupply

  // ---------------------------------------------------------------- providers

  /** Before the fix height the deposit of a provider that registers again is lost. */
  function Burned(l: Ledger, a: Address, height: nat): nat {
    if height < FIX_PROVIDE_SERVICE && a in l.providers then l.providers[a].deposit else 0
  }

  lemma IncreaseSupply(l: Ledger, a: Address, amount: u64)
    requires a in l.accounts && l.accounts[a].balance.particle + amount < LIMIT
    ensures Increase(l, a, amount, Particle).err.NoErr?
    ensures Supply(Increase(l, a, amount, Particle).ledger) == Supply(l) + amount
    ensures Increase(l, a, amount, Particle).ledger.providers == l.providers
  {
    SafeAddExact(l.accounts[a].balance.particle, amount);
    AccountPut(l, a, WithBalance(l.accounts[a], Particle, l.accounts[a].balance.particle + amount));
  }

  lemma DecreaseSupply(l: Ledger, a: Address, amount: u64)
    ensures var r := Decrease(l, a, amount, Particle);
      if r.err.NoErr? then Supply(r.ledger) + amount == Supply(l) else r.ledger == l && !r.err.BalanceOverflow?
  {
    if a in l.accounts && amount <= l.accounts[a].balance.particle {
      AccountPut(l, a, WithBalance(l.accounts[a], Particle, l.accounts[a].balance.particle - amount));
    }
  }

  lemma RefundSupply(l: Ledger, a: Address)
    requires Supply(l) < LIMIT
    ensures var r := RefundProvider(l, a);
      && Supply(r.ledger) == Supply(l) && !r.err.BalanceOverflow?
      && (r.err.NoErr? ==> a !in r.ledger.providers)
  {
    if a in l.providers && a in l.accounts {
      BalancePart(l, a);
      DepositPart(l, a);
      IncreaseSupply(l, a, l.providers[a].deposit);
      ProviderGone(Increase(l, a, l.providers[a].deposit, Particle).ledger, a);
    }
  }

  lemma RegisterSupply(cfg: Config, l: Ledger, a: Address, p: Provider)
    requires p.deposit == cfg.minProviderDeposit
    ensures var d := Decrease(l, a, cfg.minProviderDeposit, Particle);
      d.err.NoErr? ==>
        Supply(d.ledger.(providers := d.ledger.providers[a := p])) +
          (if a in l.providers then l.providers[a].deposit else 0) == Supply(l)
  {
    DecreaseSupply(l, a, cfg.minProviderDeposit);
    var d := Decrease(l, a, cfg.minProviderDeposit, Particle);
    if d.err.NoErr? { ProviderPut(d.ledger, a, p); }
  }

  /** Registering a provider moves the deposit; it burns the old one exactly before the fix height. */
  lemma ProvideSupply(cfg: Config, l: Ledger, key: nat, t: Body, height: nat)
    requires t.ProvideService? && Supply(l) < LIMIT
    ensures var r := UpdateProviderList(cfg, l, key, t, height);
      && !r.err.BalanceOverflow?
      && Supply(r.ledger) + (if r.err.NoErr? then Burned(l, User(key), height) else 0) == Supply(l)
  {
    var a := User(key);
    var p := Provider(t.space, t.memory, t.loadAvg, t.targetUsers, cfg.minProviderDeposit, t.gasPrice, Particle,
      t.nodeID);
    if height >= FIX_PROVIDE_SERVICE {
      RefundSupply(l, a);
      var r := RefundProvider(l, a);
      if r.err.NoErr? {
        DecreaseSupply(r.ledger, a, cfg.minProviderDeposit);
        RegisterSupply(cfg, r.ledger, a, p);
      }
    } else {
      DecreaseSupply(l, a, cfg.minProviderDeposit);
      RegisterSupply(cfg, l, a, p);
    }
  }

  // ---------------------------------------------------------------- matching miners

  /** The miners are providers that fit the request. */
  ghost predicate Fit(l: Ledger, t: Body, a: Address, ms: seq<Miner>)
    requires t.CreateDatabase?
  {
    forall k :: 0 <= k < |ms| ==>
      && ms[k].address in l.providers && ms[k] == MinerOf(ms[k].address, l.providers[ms[k].address])
      && Misfit(l.providers[ms[k].address], t, a).NoErr?
  }

  ghost predicate DistinctMiners(ms: seq<Miner>) {
    forall i, j :: 0 <= i < j < |ms| ==> ms[i].address != ms[j].address
  }

  ghost predicate DistinctTargets(t: Body)
    requires t.CreateDatabase?
  {
    forall i, j :: 0 <= i < j < |t.targets| ==> t.targets[i] != t.targets[j]
  }

  lemma {:induction false} PickedFit(l: Ledger, t: Body, a: Address, n: nat, k: nat, done: Picked)
    requires t.CreateDatabase? && k <= |t.targets| && Fit(l, t, a, done.miners)
    requires forall i :: 0 <= i < |done.miners| ==> done.miners[i].address in t.targets[..k]
    ensures var r := PickTargets(l, t, a, n, k, done).miners;
      && Fit(l, t, a, r) && (forall i :: 0 <= i < |r| ==> r[i].address in t.targets)
    decreases |t.targets| - k
  {
    if k < |t.targets| {
      var m := t.targets[k];
      assert t.targets[..k + 1] == t.targets[..k] + [m];
      if m !in l.providers {
        PickedFit(l, t, a, n, k + 1, Picked(done.miners, NoSuchMiner));
      } else {
        var e := Misfit(l.providers[m], t, a);
        PickedFit(l, t, a, n, k + 1,
          Picked(if e.NoErr? then done.miners + [MinerOf(m, l.providers[m])] else done.miners, e));
      }
    }
  }

  lemma {:induction false} PickedDistinct(l: Ledger, t: Body, a: Address, n: nat, k: nat, done: Picked)
    requires t.CreateDatabase? && k <= |t.targets| && DistinctTargets(t) && DistinctMiners(done.miners)
    requires forall i :: 0 <= i < |done.miners| ==> done.miners[i].address in t.targets[..k]
    ensures DistinctMiners(PickTargets(l, t, a, n, k, done).miners)
    decreases |t.targets| - k
  {
    if k < |t.targets| {
      var m := t.targets[k];
      assert t.targets[..k + 1] == t.targets[..k] + [m] && m !in t.targets[..k];
      if m !in l.providers {
        PickedDistinct(l, t, a, n, k + 1, Picked(done.miners, NoSuchMiner));
      } else {
        var e := Misfit(l.providers[m], t, a);
        PickedDistinct(l, t, a, n, k + 1,
          Picked(if e.NoErr? then done.miners + [MinerOf(m, l.providers[m])] else done.miners, e));
      }
    }
  }

  lemma FilteredFit(rank: Rank, l: Ledger, t: Body, a: Address, n: nat)
    requires t.CreateDatabase? && FilterMiners(rank, l, t, a, n).Some?
    ensures var r := FilterMiners(rank, l, t, a, n).value;
      |r| == n && Fit(l, t, a, r) && DistinctMiners(r) && forall i :: 0 <= i < |r| ==> r[i].address !in t.targets
  {
    var s := Candidates(l, t, a);
    SortedMembers(rank, l.providers, s);
    var order := Sorted(rank, l.providers, s);
    assert forall i :: 0 <= i < n ==> order[i] in s;
  }

  lemma DistinctBoth(t: Body, ms: seq<Miner>, more: seq<Miner>)
    requires t.CreateDatabase? && DistinctMiners(ms) && DistinctMiners(more)
    requires forall i :: 0 <= i < |ms| ==> ms[i].address in t.targets
    requires forall i :: 0 <= i < |more| ==> more[i].address !in t.targets
    ensures DistinctMiners(ms + more)
  {
    var all := ms + more;
    forall i, j | 0 <= i < j < |all| ensures all[i].address != all[j].address {
      if i < |ms| <= j { assert all[i].address in t.targets && all[j].address !in t.targets; }
    }
  }

  lemma FitBoth(l: Ledger, t: Body, a: Address, ms: seq<Miner>, more: seq<Miner>)
    requires t.CreateDatabase? && Fit(l, t, a, ms) && Fit(l, t, a, more)
    ensures Fit(l, t, a, ms + more)
  {}

  lemma {:induction false} MatchedParts(rank: Rank, l: Ledger, t: Body, a: Address)
    requires t.CreateDatabase? && MatchMiners(rank, l, t, a).Miners?
    ensures var picked := PickTargets(l, t, a, t.nodes, 0, Picked([], NoErr)).miners;
      if |picked| >= t.nodes then MatchMiners(rank, l, t, a).miners == picked
      else
        var more := FilterMiners(rank, l, t, a, t.nodes - |picked|);
        more.Some? && MatchMiners(rank, l, t, a).miners == picked + more.value
  {}

  lemma FitFilled(rank: Rank, l: Ledger, t: Body, a: Address, picked: seq<Miner>, n: nat)
    requires t.CreateDatabase? && Fit(l, t, a, picked) && FilterMiners(rank, l, t, a, n).Some?
    ensures var more := FilterMiners(rank, l, t, a, n).value; |more| == n && Fit(l, t, a, picked + more)
  {
    FilteredFit(rank, l, t, a, n);
    FitBoth(l, t, a, picked, FilterMiners(rank, l, t, a, n).value);
  }

  /** Matched miners fit. */
  lemma MatchedFit(rank: Rank, l: Ledger, t: Body, a: Address)
    requires t.CreateDatabase? && MatchMiners(rank, l, t, a).Miners?
    ensures Fit(l, t, a, MatchMiners(rank, l, t, a).miners) && |MatchMiners(rank, l, t, a).miners| >= t.nodes
  {
    var picked := PickTargets(l, t, a, t.nodes, 0, Picked([], NoErr)).miners;
    PickedFit(l, t, a, t.nodes, 0, Picked([], NoErr));
    MatchedParts(rank, l, t, a);
    if |picked| < t.nodes { FitFilled(rank, l, t, a, picked, t.nodes - |picked|); }
  }

  lemma {:induction false} PickedFirst(l: Ledger, t: Body, a: Address)
    requires t.CreateDatabase? && DistinctTargets(t)
    ensures var picked := PickTargets(l, t, a, t.nodes, 0, Picked([], NoErr)).miners;
      DistinctMiners(picked) && forall i :: 0 <= i < |picked| ==> picked[i].address in t.targets
  {
    PickedFit(l, t, a, t.nodes, 0, Picked([], NoErr));
    PickedDistinct(l, t, a, t.nodes, 0, Picked([], NoErr));
  }

  lemma DistinctFilled(rank: Rank, l: Ledger, t: Body, a: Address, picked: seq<Miner>, n: nat)
    requires t.CreateDatabase? && DistinctMiners(picked) && FilterMiners(rank, l, t, a, n).Some?
    requires forall i :: 0 <= i < |picked| ==> picked[i].address in t.targets
    ensures DistinctMiners(picked + FilterMiners(rank, l, t, a, n).value)
  {
    FilteredFit(rank, l, t, a, n);
    DistinctBoth(t, picked, FilterMiners(rank, l, t, a, n).value);
  }

  /** Distinct targets give distinct miners. */
  lemma MatchedDistinct(rank: Rank, l: Ledger, t: Body, a: Address)
    requires t.CreateDatabase? && MatchMiners(rank, l, t, a).Miners? && DistinctTargets(t)
    ensures DistinctMiners(MatchMiners(rank, l, t, a).miners)
  {
    var picked := PickTargets(l, t, a, t.nodes, 0, Picked([], NoErr)).miners;
    PickedFirst(l, t, a);
    MatchedParts(rank, l, t, a);
    if |picked| < t.nodes { DistinctFilled(rank, l, t, a, picked, t.nodes - |picked|); }
  }

  // ---------------------------------------------------------------- creation

  function DepositsOf(ms: seq<Miner>): nat {
    if ms == [] then 0 else DepositsOf(ms[..|ms| - 1]) + ms[|ms| - 1].deposit
  }

  lemma {:induction false} SumTake(m: map<Address, nat>, ms: seq<Miner>)
    requires DistinctMiners(ms) && forall k :: 0 <= k < |ms| ==> ms[k].address in m && m[ms[k].address] == ms[k].deposit
    ensures Sum(m) == Sum(m - MinerAddresses(ms)) + DepositsOf(ms)
  {
    if ms == [] {
      assert m - MinerAddresses(ms) == m;
    } else {
      var k := |ms| - 1;
      SumTake(m, ms[..k]);
      var rest := m - MinerAddresses(ms[..k]);
      assert ms == ms[..k] + [ms[k]];
      assert MinerAddresses(ms) == MinerAddresses(ms[..k]) + {ms[k].address};
      assert ms[k].address !in MinerAddresses(ms[..k]);
      SumRemove(rest, ms[k].address);
      assert rest - {ms[k].address} == m - MinerAddresses(ms);
    }
  }

  lemma {:induction false} FreshMinersHold(ms: seq<Miner>)
    requires forall k :: 0 <= k < |ms| ==> ms[k].pending == 0 && ms[k].received == 0
    ensures MinersHold(ms) == DepositsOf(ms)
  {
    if ms != [] { FreshMinersHold(ms[..|ms| - 1]); }
  }

  lemma OneUserHolds(u: DbUser)
    ensures UsersHold([u]) == UserHolds(u)
  {}

  lemma {:induction false} NewProfileHolds(t: Body, a: Address, ms: seq<Miner>, minAdvance: u64)
    requires t.CreateDatabase? && forall k :: 0 <= k < |ms| ==> ms[k].pending == 0 && ms[k].received == 0
    ensures ProfileHolds(NewProfile(t, a, ms, minAdvance)) == minAdvance + t.advancePayment + DepositsOf(ms)
  {
    FreshMinersHold(ms);
    OneUserHolds(DbUser(a, ADMIN, t.advancePayment, 0, minAdvance, Normal));
  }

  /** What the providers at the given addresses have deposited. */
  ghost function DepositsAt(l: Ledger, s: set<Address>): int {
    Sum(Deposits(l)) - Sum(Deposits(l) - s)
  }

  function BalanceAt(l: Ledger, a: Address): nat {
    if a in l.accounts then l.accounts[a].balance.particle else 0
  }

  /** Creating a profile takes its miners' deposits out of the providers once per address, and
      replaces the account of its address by an empty one. */
  lemma CreateProfileSupply(l: Ledger, db: Address, p: Profile)
    requires db !in l.databases
    ensures Supply(CreateProfile(l, db, p).ledger) + DepositsAt(l, MinerAddresses(p.miners)) + BalanceAt(l, db) ==
            Supply(l) + ProfileHolds(p)
  {
    var x := SetAccount(l, db, EmptyAccount);
    AccountPut(l, db, EmptyAccount);
    var y := x.(databases := x.databases[db := p]);
    ProfilePut(x, db, p);
    var z := CreateProfile(l, db, p).ledger;
    assert Deposits(y) == Deposits(l);
    assert Deposits(z) == Deposits(y) - MinerAddresses(p.miners);
    assert Balances(z) == Balances(y) && Holdings(z) == Holdings(y);
  }

  /** The ledger after the creation has been paid for. */
  lemma CreateIs(cfg: Config, l: Ledger, key: nat, nonce: nat, t: Body)
    requires t.CreateDatabase?
    requires MatchProvidersWithUser(cfg, l, key, nonce, t).err.NoErr? &&
      MatchProvidersWithUser(cfg, l, key, nonce, t).ledger != l
    ensures var a := User(key); var minAdvance := MinDeposit(cfg, t.price, t.nodes);
      var m := MatchMiners(RankOf(cfg, l, key, nonce, t), l, t, a);
      && m.Miners? && t.nodes > 0 && minAdvance + t.advancePayment < LIMIT && Database(a, nonce) !in l.databases
      && var d := Decrease(l, a, minAdvance + t.advancePayment, t.payToken);
         && d.err.NoErr?
         && MatchProvidersWithUser(cfg, l, key, nonce, t) ==
              CreateProfile(d.ledger, Database(a, nonce), NewProfile(t, a, m.miners, minAdvance))
  {
    var minAdvance := MinDeposit(cfg, t.price, t.nodes);
    SafeAddExact(minAdvance, t.advancePayment);
  }

  lemma FitParticle(l: Ledger, t: Body, a: Address, ms: seq<Miner>)
    requires t.CreateDatabase? && ParticleOnly(l) && Fit(l, t, a, ms) && ms != []
    ensures t.payToken.Particle?
  {
    assert ms[0].address in l.providers;
  }

  lemma DecreaseParts(l: Ledger, a: Address, amount: u64, db: Address, s: set<Address>)
    requires Decrease(l, a, amount, Particle).err.NoErr? && db != a
    ensures var d := Decrease(l, a, amount, Particle).ledger;
      d.databases == l.databases && d.providers == l.providers && BalanceAt(d, db) == BalanceAt(l, db) &&
        DepositsAt(d, s) == DepositsAt(l, s)
  {
    assert Deposits(Decrease(l, a, amount, Particle).ledger) == Deposits(l);
  }

  lemma CreatePaidSupply(l: Ledger, a: Address, amount: u64, db: Address, p: Profile)
    requires Decrease(l, a, amount, Particle).err.NoErr? && db != a && db !in l.databases
    ensures Supply(CreateProfile(Decrease(l, a, amount, Particle).ledger, db, p).ledger) + amount +
              DepositsAt(l, MinerAddresses(p.miners)) + BalanceAt(l, db) == Supply(l) + ProfileHolds(p)
  {
    DecreaseSupply(l, a, amount);
    DecreaseParts(l, a, amount, db, MinerAddresses(p.miners));
    CreateProfileSupply(Decrease(l, a, amount, Particle).ledger, db, p);
  }

  lemma {:induction false} CreatedSupply(l: Ledger, t: Body, a: Address, ms: seq<Miner>, minAdvance: u64, db: Address)
    requires t.CreateDatabase? && ParticleOnly(l) && Fit(l, t, a, ms) && ms != [] && db != a && db !in l.databases
    requires minAdvance + t.advancePayment < LIMIT &&
      Decrease(l, a, minAdvance + t.advancePayment, t.payToken).err.NoErr?
    ensures var d := Decrease(l, a, minAdvance + t.advancePayment, t.payToken).ledger;
      Supply(CreateProfile(d, db, NewProfile(t, a, ms, minAdvance)).ledger) + DepositsAt(l, MinerAddresses(ms)) +
        BalanceAt(l, db) ==
      Supply(l) + DepositsOf(ms)
  {
    FitParticle(l, t, a, ms);
    NewProfileHolds(t, a, ms, minAdvance);
    CreatePaidSupply(l, a, minAdvance + t.advancePayment, db, NewProfile(t, a, ms, minAdvance));
  }

  lemma MatchedSupply(rank: Rank, l: Ledger, t: Body, a: Address, minAdvance: u64, db: Address)
    requires t.CreateDatabase? && t.nodes > 0 && ParticleOnly(l) && db != a && db !in l.databases
    requires minAdvance + t.advancePayment < LIMIT &&
      Decrease(l, a, minAdvance + t.advancePayment, t.payToken).err.NoErr?
    requires MatchMiners(rank, l, t, a).Miners?
    ensures var d := Decrease(l, a, minAdvance + t.advancePayment, t.payToken).ledger;
      var ms := MatchMiners(rank, l, t, a).miners;
      Supply(CreateProfile(d, db, NewProfile(t, a, ms, minAdvance)).ledger) + DepositsAt(l, MinerAddresses(ms)) +
        BalanceAt(l, db) ==
      Supply(l) + DepositsOf(ms)
  {
    MatchedFit(rank, l, t, a);
    CreatedSupply(l, t, a, MatchMiners(rank, l, t, a).miners, minAdvance, db);
  }

  /** An accepted creation changes the supply by the miners' deposits it counts more than once, less
      whatever had been sent to the new address before. */
  lemma CreateSupply(cfg: Config, l: Ledger, key: nat, nonce: nat, t: Body)
    requires t.CreateDatabase? && ParticleOnly(l) && MatchProvidersWithUser(cfg, l, key, nonce, t).err.NoErr?
    requires MatchProvidersWithUser(cfg, l, key, nonce, t).ledger != l
    ensures MatchMiners(RankOf(cfg, l, key, nonce, t), l, t, User(key)).Miners?
    ensures var ms := MatchMiners(RankOf(cfg, l, key, nonce, t), l, t, User(key)).miners;
      Supply(MatchProvidersWithUser(cfg, l, key, nonce, t).ledger) + DepositsAt(l, MinerAddresses(ms)) +
        BalanceAt(l, Database(User(key), nonce)) ==
      Supply(l) + DepositsOf(ms)
  {
    var a := User(key);
    CreateIs(cfg, l, key, nonce, t);
    MatchedSupply(RankOf(cfg, l, key, nonce, t), l, t, a, MinDeposit(cfg, t.price, t.nodes), Database(a, nonce));
  }

  lemma {:induction false} PickedErr(l: Ledger, t: Body, a: Address, n: nat, k: nat, done: Picked)
    requires t.CreateDatabase? && k <= |t.targets| && !done.err.BalanceOverflow?
    ensures !PickTargets(l, t, a, n, k, done).err.BalanceOverflow?
    decreases |t.targets| - k
  {
    if k < |t.targets| {
      var m := t.targets[k];
      if m !in l.providers {
        PickedErr(l, t, a, n, k + 1, Picked(done.miners, NoSuchMiner));
      } else {
        var e := Misfit(l.providers[m], t, a);
        PickedErr(l, t, a, n, k + 1,
          Picked(if e.NoErr? then done.miners + [MinerOf(m, l.providers[m])] else done.miners, e));
      }
    }
  }

  /** A creation overflows only if the amount it asks for does not fit. */
  lemma CreateOverflow(cfg: Config, l: Ledger, key: nat, nonce: nat, t: Body)
    requires t.CreateDatabase? && MatchProvidersWithUser(cfg, l, key, nonce, t).err.BalanceOverflow?
    ensures MinDeposit(cfg, t.price, t.nodes) + t.advancePayment >= LIMIT
  {
    PickedErr(l, t, User(key), t.nodes, 0, Picked([], NoErr));
    SafeAddExact(MinDeposit(cfg, t.price, t.nodes), t.advancePayment);
  }

  /** With distinct targets a creation keeps the supply, less whatever had been sent to the new
      address before. */
  lemma CreateConserves(cfg: Config, l: Ledger, key: nat, nonce: nat, t: Body)
    requires t.CreateDatabase? && ParticleOnly(l) && DistinctTargets(t)
    ensures var r := MatchProvidersWithUser(cfg, l, key, nonce, t);
      r.err.NoErr? ==>
        Supply(r.ledger) + (if r.ledger != l then BalanceAt(l, Database(User(key), nonce)) else 0) == Supply(l)
  {
    var r := MatchProvidersWithUser(cfg, l, key, nonce, t);
    if r.err.NoErr? && r.ledger != l {
      CreateSupply(cfg, l, key, nonce, t);
      MatchedFit(RankOf(cfg, l, key, nonce, t), l, t, User(key));
      MatchedDistinct(RankOf(cfg, l, key, nonce, t), l, t, User(key));
      var ms := MatchMiners(RankOf(cfg, l, key, nonce, t), l, t, User(key)).miners;
      assert forall k :: 0 <= k < |ms| ==> ms[k].address in Deposits(l) && Deposits(l)[ms[k].address] == ms[k].deposit;
      SumTake(Deposits(l), ms);
    }
  }

  lemma NamedTwice(rank: Rank, l: Ledger, t: Body, a: Address, m: Address)
    requires t.CreateDatabase? && t.targets == [m, m] && t.nodes == 2
    requires m in l.providers && Misfit(l.providers[m], t, a).NoErr?
    ensures var x := MinerOf(m, l.providers[m]); MatchMiners(rank, l, t, a) == Miners([x, x])
  {
    var x := MinerOf(m, l.providers[m]);
    assert [x] + [x] == [x, x] && [] + [x] == [x];
    assert PickTargets(l, t, a, 2, 1, Picked([x], NoErr)) == Picked([x, x], NoErr);
    assert PickTargets(l, t, a, 2, 0, Picked([], NoErr)) == Picked([x, x], NoErr);
  }

  lemma TwiceDeposits(l: Ledger, x: Miner)
    requires x.address in l.providers && x.deposit == l.providers[x.address].deposit
    ensures DepositsAt(l, MinerAddresses([x, x])) == x.deposit && DepositsOf([x, x]) == 2 * x.deposit
  {
    assert MinerAddresses([x, x]) == {x.address};
    assert [x, x][..1] == [x] && [x][..0] == [];
    assert DepositsOf([x]) == x.deposit;
    SumRemove(Deposits(l), x.address);
  }

  /** A miner named twice is matched twice, and its deposit is counted twice. */
  lemma DuplicateTargetMints(cfg: Config, l: Ledger, key: nat, nonce: nat, t: Body, m: Address)
    requires t.CreateDatabase? && ParticleOnly(l) && MatchProvidersWithUser(cfg, l, key, nonce, t).err.NoErr?
    requires MatchProvidersWithUser(cfg, l, key, nonce, t).ledger != l
    requires t.targets == [m, m] && t.nodes == 2 && m in l.providers && Misfit(l.providers[m], t, User(key)).NoErr?
    requires BalanceAt(l, Database(User(key), nonce)) == 0
    ensures Supply(MatchProvidersWithUser(cfg, l, key, nonce, t).ledger) == Supply(l) + l.providers[m].deposit
  {
    CreateSupply(cfg, l, key, nonce, t);
    NamedTwice(RankOf(cfg, l, key, nonce, t), l, t, User(key), m);
    TwiceDeposits(l, MinerOf(m, l.providers[m]));
  }
}
