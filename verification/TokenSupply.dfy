/** The Particle supply: what every kind of transaction does to the sum of all balances, deposits,
    advance payments and incomes. */
module TokenSupply {
  import opened Common
  import opened LedgerTypes
  import opened Transactions

  // ---------------------------------------------------------------- sums

  ghost function Sum(m: map<Address, nat>): nat
    decreases m.Keys
  {
    if m.Keys == {} then 0
    else
      var a :| a in m.Keys;
      m[a] + Sum(m - {a})
  }

  lemma {:induction false} SumRemove(m: map<Address, nat>, a: Address)
    requires a in m
    ensures Sum(m) == m[a] + Sum(m - {a})
    decreases m.Keys
  {
    var b :| b in m.Keys && Sum(m) == m[b] + Sum(m - {b});
    if b != a {
      SumRemove(m - {b}, a);
      SumRemove(m - {a}, b);
      assert (m - {a}) - {b} == (m - {b}) - {a};
    }
  }

  lemma SumPut(m: map<Address, nat>, a: Address, v: nat)
    ensures Sum(m[a := v]) == v + Sum(m - {a})
    ensures Sum(m) == (if a in m then m[a] else 0) + Sum(m - {a})
  {
    SumRemove(m[a := v], a);
    assert m[a := v] - {a} == m - {a};
    if a in m {
      SumRemove(m, a);
    } else {
      assert m - {a} == m;
    }
  }

  // ---------------------------------------------------------------- the supply

  function UserHolds(u: DbUser): nat { u.deposit + u.advance }

  function MinerHolds(m: Miner): nat { m.deposit + m.pending + m.received }

  function UsersHold(us: seq<DbUser>): nat {
    if us == [] then 0 else UsersHold(us[..|us| - 1]) + UserHolds(us[|us| - 1])
  }

  function MinersHold(ms: seq<Miner>): nat {
    if ms == [] then 0 else MinersHold(ms[..|ms| - 1]) + MinerHolds(ms[|ms| - 1])
  }

  function ProfileHolds(p: Profile): nat { UsersHold(p.users) + MinersHold(p.miners) }

  ghost function Balances(l: Ledger): map<Address, nat> {
    map a | a in l.accounts :: l.accounts[a].balance.particle
  }

  ghost function Deposits(l: Ledger): map<Address, nat> {
    map a | a in l.providers :: l.providers[a].deposit
  }

  ghost function Holdings(l: Ledger): map<Address, nat> {
    map a | a in l.databases :: ProfileHolds(l.databases[a])
  }

  ghost function Supply(l: Ledger): nat {
    Sum(Balances(l)) + Sum(Deposits(l)) + Sum(Holdings(l))
  }

  /** Databases and providers deal in Particle. */
  ghost predicate ParticleOnly(l: Ledger) {
    && (forall a :: a in l.databases ==> l.databases[a].token.Particle?)
    && (forall a :: a in l.providers ==> l.providers[a].token.Particle?)
  }

  lemma BalancePart(l: Ledger, a: Address)
    requires a in l.accounts
    ensures l.accounts[a].balance.particle <= Sum(Balances(l)) <= Supply(l)
  {
    SumRemove(Balances(l), a);
  }

  lemma DepositPart(l: Ledger, a: Address)
    requires a in l.providers
    ensures l.providers[a].deposit <= Sum(Deposits(l))
  {
    SumRemove(Deposits(l), a);
  }

  lemma HoldingPart(l: Ledger, a: Address)
    requires a in l.databases
    ensures ProfileHolds(l.databases[a]) <= Sum(Holdings(l))
  {
    SumRemove(Holdings(l), a);
  }

  // ---------------------------------------------------------------- single changes

  lemma AccountPut(l: Ledger, a: Address, acc: Account)
    ensures Supply(SetAccount(l, a, acc)) + (if a in l.accounts then l.accounts[a].balance.particle else 0) ==
            Supply(l) + acc.balance.particle
  {
    var m := SetAccount(l, a, acc);
    SumPut(Balances(l), a, acc.balance.particle);
    assert Balances(m) == Balances(l)[a := acc.balance.particle];
    assert Deposits(m) == Deposits(l) && Holdings(m) == Holdings(l);
  }

  lemma ProfilePut(l: Ledger, a: Address, p: Profile)
    ensures Supply(l.(databases := l.databases[a := p])) +
      (if a in l.databases then ProfileHolds(l.databases[a]) else 0) ==
            Supply(l) + ProfileHolds(p)
  {
    var m := l.(databases := l.databases[a := p]);
    SumPut(Holdings(l), a, ProfileHolds(p));
    assert Holdings(m) == Holdings(l)[a := ProfileHolds(p)];
    assert Deposits(m) == Deposits(l) && Balances(m) == Balances(l);
  }

  lemma ProviderPut(l: Ledger, a: Address, p: Provider)
    ensures Supply(l.(providers := l.providers[a := p])) + (if a in l.providers then l.providers[a].deposit else 0) ==
            Supply(l) + p.deposit
  {
    var m := l.(providers := l.providers[a := p]);
    SumPut(Deposits(l), a, p.deposit);
    assert Deposits(m) == Deposits(l)[a := p.deposit];
    assert Holdings(m) == Holdings(l) && Balances(m) == Balances(l);
  }

  lemma ProviderGone(l: Ledger, a: Address)
    requires a in l.providers
    ensures Supply(l.(providers := l.providers - {a})) + l.providers[a].deposit == Supply(l)
  {
    var m := l.(providers := l.providers - {a});
    SumRemove(Deposits(l), a);
    assert Deposits(m) == Deposits(l) - {a};
    assert Holdings(m) == Holdings(l) && Balances(m) == Balances(l);
  }

  // ---------------------------------------------------------------- transfers

  lemma EnsureSupply(l: Ledger, a: Address)
    ensures Supply(EnsureAccount(l, a)) == Supply(l)
  {
    if a !in l.accounts { AccountPut(l, a, EmptyAccount); }
  }

  /** A transfer between accounts keeps the supply, accepted or not, and with a supply that fits it
      never overflows. */
  lemma TransferSupply(l: Ledger, key: nat, t: Body)
    requires t.Transfer? && t.token.Particle? && Supply(l) < LIMIT
    ensures Supply(TransferAccountToken(l, key, t).ledger) == Supply(l)
    ensures !TransferAccountToken(l, key, t).err.BalanceOverflow?
  {
    var m := EnsureAccount(l, t.receiver);
    EnsureSupply(l, t.receiver);
    if User(key) == t.sender && t.sender != t.receiver && t.amount != 0 && t.sender in m.accounts {
      var s, r := m.accounts[t.sender], m.accounts[t.receiver];
      if t.amount <= s.balance.particle {
        var x := WithBalance(s, Particle, s.balance.particle - t.amount);
        var n := SetAccount(m, t.sender, x);
        AccountPut(m, t.sender, x);
        BalancePart(n, t.receiver);
        SafeAddExact(r.balance.particle, t.amount);
        AccountPut(n, t.receiver, WithBalance(r, Particle, r.balance.particle + t.amount));
      }
    }
  }

  /** Transfers of the other token do not touch the Particle supply. */
  lemma WaveSupply(l: Ledger, key: nat, t: Body)
    requires t.Transfer? && t.token.Wave?
    ensures Supply(TransferAccountToken(l, key, t).ledger) == Supply(l)
  {
    var m := EnsureAccount(l, t.receiver);
    EnsureSupply(l, t.receiver);
    if User(key) == t.sender && t.sender != t.receiver && t.amount != 0 && t.sender in m.accounts {
      var r := TransferAccountToken(l, key, t);
      if r.err.NoErr? {
        assert Balances(r.ledger) == Balances(m);
        assert Deposits(r.ledger) == Deposits(m) && Holdings(r.ledger) == Holdings(m);
      }
    }
  }

  // ---------------------------------------------------------------- payments into a database

  lemma {:induction false} UsersPut(us: seq<DbUser>, i: nat, u: DbUser)
    requires i < |us|
    ensures UsersHold(us[i := u]) + UserHolds(us[i]) == UsersHold(us) + UserHolds(u)
    ensures UserHolds(us[i]) <= UsersHold(us)
  {
    var k := |us| - 1;
    if i < k {
      UsersPut(us[..k], i, u);
      assert us[i := u][..k] == us[..k][i := u];
    } else {
      assert us[i := u][..k] == us[..k];
    }
  }

  lemma TopUpHolds(u: DbUser, amount: u64, minDep: u64)
    requires u.advance + amount < LIMIT
    ensures TopUp(u, amount, minDep).Some?
    ensures UserHolds(Reenable(TopUp(u, amount, minDep).value, minDep)) == UserHolds(u) + amount
  {
    SafeAddExact(u.advance, amount);
  }

  /** What settling the arrears of user a adds to a miner's pending income. */
  function Settled(arrears: seq<UserArrears>, a: Address, k: nat, i: nat): nat
    requires i <= k <= |arrears|
    decreases |arrears| - k
  {
    if k == |arrears| then 0
    else if arrears[k].user == a then arrears[i].amount + Settled(arrears, a, k + 1, i)
    else Settled(arrears, a, k + 1, i + 1)
  }

  lemma {:induction false} SettleFromAdds(pending: u64, arrears: seq<UserArrears>, a: Address, k: nat, i: nat)
    requires i <= k <= |arrears| && pending + Settled(arrears, a, k, i) < LIMIT
    ensures SettleFrom(pending, arrears, a, k, i) == pending + Settled(arrears, a, k, i)
    decreases |arrears| - k
  {
    if k < |arrears| {
      if arrears[k].user == a {
        SettleFromAdds(Add(pending, arrears[i].amount), arrears, a, k + 1, i);
      } else {
        SettleFromAdds(pending, arrears, a, k + 1, i + 1);
      }
    }
  }

  function SettledAll(ms: seq<Miner>, a: Address): nat {
    if ms == [] then 0 else SettledAll(ms[..|ms| - 1], a) + Settled(ms[|ms| - 1].arrears, a, 0, 0)
  }

  lemma {:induction false} SettleAllHolds(ms: seq<Miner>, rs: seq<Miner>, a: Address)
    requires |rs| == |ms| && (forall k :: 0 <= k < |ms| ==> rs[k] == Settle(ms[k], a))
    requires forall k :: 0 <= k < |ms| ==> ms[k].pending + Settled(ms[k].arrears, a, 0, 0) < LIMIT
    ensures MinersHold(rs) == MinersHold(ms) + SettledAll(ms, a)
  {
    if ms != [] {
      var k := |ms| - 1;
      SettleAllHolds(ms[..k], rs[..k], a);
      SettleFromAdds(ms[k].pending, ms[k].arrears, a, 0, 0);
    }
  }

  /** What a payment by user i of a database adds to the supply: the arrears it settles are credited
      to the miners without being taken from the payment. */
  ghost function Minted(p: Profile, a: Address): nat {
    if Owes(p, a) then SettledAll(p.miners, a) else 0
  }

  /** Settled arrears fit into the miners' pending incomes. */
  ghost predicate SettleFits(p: Profile, a: Address) {
    Owes(p, a) ==> forall k :: 0 <= k < |p.miners| ==>
      p.miners[k].pending + Settled(p.miners[k].arrears, a, 0, 0) < LIMIT
  }

  predicate Owes(p: Profile, a: Address) {
    var i := FindUser(p.users, a);
    i < |p.users| && p.users[i].arrears > 0
  }

  lemma PaidHolds(cfg: Config, p: Profile, t: Body, i: nat)
    requires t.Transfer? && i == FindUser(p.users, t.sender) && i < |p.users| && SettleFits(p, t.sender)
    requires p.users[i].advance + t.amount < LIMIT
    ensures Paid(cfg, p, t, i).Some?
    ensures ProfileHolds(Paid(cfg, p, t, i).value) == ProfileHolds(p) + t.amount + Minted(p, t.sender)
  {
    var u := p.users[i];
    var v := if u.arrears > 0 then u.(arrears := 0, status := Normal) else u;
    var minDep := MinDeposit(cfg, p.gasPrice, |p.miners|);
    TopUpHolds(v, t.amount, minDep);
    UsersPut(p.users, i, Reenable(TopUp(v, t.amount, minDep).value, minDep));
    if u.arrears > 0 { SettleAllHolds(p.miners, SettleAll(p.miners, t.sender), t.sender); }
  }

  lemma TwoParts(l: Ledger, a: Address, d: Address)
    requires a in l.accounts && d in l.databases
    ensures l.accounts[a].balance.particle + ProfileHolds(l.databases[d]) <= Supply(l)
  {
    BalancePart(l, a);
    HoldingPart(l, d);
  }

  lemma NoPayment(cfg: Config, l: Ledger, key: nat, t: Body)
    requires t.Transfer? && !Pays(l, key, t)
    ensures var r := TransferToDatabase(cfg, l, key, t);
      && r.ledger == l && !r.err.BalanceOverflow?
      && (r.err.NoErr? ==> t.receiver in l.databases && Minted(l.databases[t.receiver], t.sender) == 0)
  {}

  lemma PaidSupply(cfg: Config, l: Ledger, t: Body, q: Profile)
    requires t.Transfer? && t.token.Particle? && t.receiver in l.databases && t.sender in l.accounts
    requires t.amount <= l.accounts[t.sender].balance.particle
    requires ProfileHolds(q) == ProfileHolds(l.databases[t.receiver]) + t.amount +
      Minted(l.databases[t.receiver], t.sender)
    ensures var acc := l.accounts[t.sender];
      Supply(SetAccount(l.(databases := l.databases[t.receiver := q]), t.sender,
                        WithBalance(acc, Particle, acc.balance.particle - t.amount))) ==
      Supply(l) + Minted(l.databases[t.receiver], t.sender)
  {
    var acc := l.accounts[t.sender];
    ProfilePut(l, t.receiver, q);
    AccountPut(l.(databases := l.databases[t.receiver := q]), t.sender,
      WithBalance(acc, Particle, acc.balance.particle - t.amount));
  }

  /** A payment that passes its checks never overflows a supply that fits, and mints what it settles. */
  lemma PaysSupply(cfg: Config, l: Ledger, key: nat, t: Body)
    requires t.Transfer? && Supply(l) < LIMIT && ParticleOnly(l) && Pays(l, key, t)
    requires SettleFits(l.databases[t.receiver], t.sender)
    ensures var p := l.databases[t.receiver]; var acc := l.accounts[t.sender];
            var q := Paid(cfg, p, t, FindUser(p.users, t.sender));
      && t.token.Particle? && q.Some?
      && Supply(SetAccount(l.(databases := l.databases[t.receiver := q.value]), t.sender,
                           WithBalance(acc, Particle, acc.balance.particle - t.amount))) ==
         Supply(l) + Minted(p, t.sender)
  {
    var p := l.databases[t.receiver];
    var i := FindUser(p.users, t.sender);
    TwoParts(l, t.sender, t.receiver);
    UsersPut(p.users, i, p.users[i]);
    PaidHolds(cfg, p, t, i);
    PaidSupply(cfg, l, t, Paid(cfg, p, t, i).value);
  }

  /** A payment into a database changes the supply by what it mints, so it keeps it if and only if it
      settles nothing; a supply that fits never overflows. */
  lemma PaymentSupply(cfg: Config, l: Ledger, key: nat, t: Body)
    requires t.Transfer? && Supply(l) < LIMIT && ParticleOnly(l)
    requires t.receiver in l.databases ==> SettleFits(l.databases[t.receiver], t.sender)
    ensures var r := TransferToDatabase(cfg, l, key, t);
      && !r.err.BalanceOverflow?
      && (r.err.NoErr? ==>
           t.receiver in l.databases && Supply(r.ledger) == Supply(l) + Minted(l.databases[t.receiver], t.sender))
      && (!r.err.NoErr? ==> r.ledger == l)
  {
    if !Pays(l, key, t) {
      NoPayment(cfg, l, key, t);
    } else {
      PaymentStores(cfg, l, key, t);
      PaysSupply(cfg, l, key, t);
    }
  }
}
