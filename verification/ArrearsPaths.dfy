/** The arrears that miners record, on every ledger that block paths reach: one entry per user and miner,
    what a payment settles, and what it leaves recorded. */
module ArrearsPaths {
  import opened Common
  import opened LedgerTypes
  import opened Transactions
  import opened LedgerProfiles
  import opened TokenSupply
  import opened TokenFlows
  import opened BillingSupply
  import opened BlockTree
  import opened ChainSpec
  import BillingLoops

  // ---------------------------------------------------------------- what a settlement pays

  lemma {:induction false} SettledNone(arrears: seq<UserArrears>, a: Address, k: nat, i: nat)
    requires i <= k <= |arrears| && forall j :: k <= j < |arrears| ==> arrears[j].user != a
    ensures Settled(arrears, a, k, i) == 0
    decreases |arrears| - k
  {
    if k < |arrears| { SettledNone(arrears, a, k + 1, i + 1); }
  }

  lemma {:induction false} SettledOne(arrears: seq<UserArrears>, a: Address, k: nat, p: nat)
    requires k <= p < |arrears| && Unique(arrears) && arrears[p].user == a
    ensures Settled(arrears, a, k, k) == arrears[p].amount
    decreases p - k
  {
    if k < p { SettledOne(arrears, a, k + 1, p); } else { SettledNone(arrears, a, k + 1, k); }
  }

  lemma {:induction false} OwedOne(arrears: seq<UserArrears>, a: Address, p: nat)
    requires p < |arrears| && Unique(arrears) && arrears[p].user == a
    ensures Owed(arrears, a) == arrears[p].amount
  {
    var k := |arrears| - 1;
    if p < k { OwedOne(arrears[..k], a, p); } else { OwedNone(arrears[..k], a); }
  }

  /** With one entry per user, settling pays what is recorded, although the code walks two indexes. */
  lemma {:induction false} SettledIsOwed(arrears: seq<UserArrears>, a: Address)
    requires Unique(arrears)
    ensures Settled(arrears, a, 0, 0) == Owed(arrears, a)
  {
    if p :| 0 <= p < |arrears| && arrears[p].user == a {
      SettledOne(arrears, a, 0, p);
      OwedOne(arrears, a, p);
    } else {
      SettledNone(arrears, a, 0, 0);
      OwedNone(arrears, a);
    }
  }

  lemma {:induction false} SettledAllIsOwed(ms: seq<Miner>, a: Address)
    requires UniqueAll(ms)
    ensures SettledAll(ms, a) == OwedAll(ms, a)
  {
    if ms != [] {
      SettledAllIsOwed(ms[..|ms| - 1], a);
      SettledIsOwed(ms[|ms| - 1].arrears, a);
    }
  }

  /** A payment by a user in arrears mints all that the miners have recorded of that user. */
  lemma {:induction false} MintedIsOwed(p: Profile, a: Address)
    requires UniqueAll(p.miners)
    ensures Minted(p, a) == if Owes(p, a) then OwedAll(p.miners, a) else 0
  {
    SettledAllIsOwed(p.miners, a);
  }

  // ---------------------------------------------------------------- what it leaves recorded

  /** The same arrears, miner by miner. */
  ghost predicate SameArrears(ms: seq<Miner>, ns: seq<Miner>) {
    |ms| == |ns| && forall k :: 0 <= k < |ms| ==> ms[k].arrears == ns[k].arrears && ms[k].address == ns[k].address
  }

  lemma {:induction false} SameOwed(ms: seq<Miner>, ns: seq<Miner>, a: Address)
    requires SameArrears(ms, ns)
    ensures OwedAll(ms, a) == OwedAll(ns, a)
  {
    if ms != [] { SameOwed(ms[..|ms| - 1], ns[..|ns| - 1], a); }
  }

  /** A payment clears the arrears of the user and leaves every entry of the miners as it was. */
  lemma PaidKeepsEntries(cfg: Config, p: Profile, t: Body, i: nat)
    requires t.Transfer? && i < |p.users| && Paid(cfg, p, t, i).Some?
    ensures var q := Paid(cfg, p, t, i).value;
      && SameArrears(q.miners, p.miners) && OwedAll(q.miners, t.sender) == OwedAll(p.miners, t.sender)
      && |q.users| == |p.users| && q.users[i].arrears == 0 && q.users[i].address == p.users[i].address
  {
    SameOwed(Paid(cfg, p, t, i).value.miners, p.miners, t.sender);
  }

  /** So what the user owes and what the miners have recorded of it part company: after a payment they
      agree only if nothing was recorded. */
  lemma PaidParts(cfg: Config, p: Profile, t: Body, i: nat)
    requires t.Transfer? && i < |p.users| && Paid(cfg, p, t, i).Some?
    ensures var q := Paid(cfg, p, t, i).value;
      q.users[i].arrears == OwedAll(q.miners, t.sender) <==> OwedAll(p.miners, t.sender) == 0
  {
    PaidKeepsEntries(cfg, p, t, i);
  }

  /** The next bill that falls short by some amount makes the next payment mint that amount and, once
      more, all that was settled before. */
  lemma {:induction false} MintsAgain(cfg: Config, p: Profile, t: Body, i: nat, costs: seq<UserCost>, gas: u64)
    requires t.Transfer? && i < |p.users| && p.users[i].address == t.sender && UniqueAll(p.miners)
    requires Paid(cfg, p, t, i).Some?
    requires var q := Paid(cfg, p, t, i).value; var cost := Mul(CostOf(costs, t.sender), gas);
      q.users[i].advance < cost && UnpaidFits(costs, gas, q.users[i], q.miners, 0)
    ensures var q := Paid(cfg, p, t, i).value; var b := BillUser(costs, gas, q.users[i], q.miners);
      SettledAll(b.miners, t.sender) == OwedAll(p.miners, t.sender) + b.user.arrears
  {
    PaidKeepsEntries(cfg, p, t, i);
    var q := Paid(cfg, p, t, i).value;
    var u, cost := q.users[i], Mul(CostOf(costs, t.sender), gas);
    ShortfallTotal(costs, gas, u, cost, q.miners);
    UnpaidRecorded(costs, gas, u, cost, q.miners);
    SettledAllIsOwed(BillUser(costs, gas, u, q.miners).miners, t.sender);
  }

  // ---------------------------------------------------------------- a settlement that mints

  const ALICE := User(1)
  const PAT := User(2)
  const DB := Database(ALICE, 1)
  const OWING := Profile(1, 1, Particle, ALICE, [Miner(PAT, 7, 0, 0, [UserArrears(ALICE, 3)], 1)],
                         [DbUser(ALICE, ADMIN, 0, 3, 1, InArrears)])
  const LEDGER := Ledger(map[ALICE := Account(Balance(5, 0), 2)], map[DB := OWING], map[])

  lemma Owing()
    ensures UniqueAll(OWING.miners) && OwedAll(OWING.miners, ALICE) == 3 && Owes(OWING, ALICE)
  {
    var m := OWING.miners[0];
    OwedOne(m.arrears, ALICE, 0);
    assert OWING.miners[..0] == [] && OwedAll([], ALICE) == 0;
  }

  lemma {:induction false} SumOne(m: map<Address, nat>, a: Address)
    requires m.Keys == {a}
    ensures Sum(m) == m[a]
  {
    SumRemove(m, a);
    assert (m - {a}).Keys == {};
  }

  lemma Small()
    ensures Supply(LEDGER) == 7
  {
    SumOne(Balances(LEDGER), ALICE);
    SumOne(Holdings(LEDGER), DB);
    assert Deposits(LEDGER).Keys == {};
    assert OWING.miners[..0] == [] && MinersHold([]) == 0 && OWING.users[..0] == [] && UsersHold([]) == 0;
  }

  /** Alice, who owes 3, pays 3 into the database, and the supply grows by 3. */
  lemma SettlementMints(cfg: Config)
    ensures var r := TransferToDatabase(cfg, LEDGER, 1, Transfer(ALICE, DB, 3, Particle));
      r.err.NoErr? && Supply(r.ledger) == Supply(LEDGER) + 3
  {
    var t := Transfer(ALICE, DB, 3, Particle);
    Small();
    Owing();
    MintedIsOwed(OWING, ALICE);
    SettledIsOwed(OWING.miners[0].arrears, ALICE);
    OwedOne(OWING.miners[0].arrears, ALICE, 0);
    assert Pays(LEDGER, 1, t);
    PaysSupply(cfg, LEDGER, 1, t);
    PaymentStores(cfg, LEDGER, 1, t);
  }

  // ---------------------------------------------------------------- one entry per user, on every path

  /** Every miner has at most one entry per user. */
  ghost predicate Tidy(l: Ledger) {
    forall d :: d in l.databases ==> UniqueAll(l.databases[d].miners)
  }

  /** No database has a miner twice. */
  ghost predicate Distinct(l: Ledger) {
    forall d :: d in l.databases ==> DistinctMiners(l.databases[d].miners)
  }

  /** The same miners, whose entries stay unique. */
  ghost predicate KeepsMiners(ms: seq<Miner>, ns: seq<Miner>) {
    SameAddresses(ns, ms) && (UniqueAll(ms) ==> UniqueAll(ns))
  }

  lemma {:induction false} AddArrearsUnique(arrears: seq<UserArrears>, a: Address, diff: u64)
    requires Unique(arrears)
    ensures Unique(AddArrears(arrears, a, diff))
  {
    BillingLoops.EntriesZero(arrears, a);
    RaiseUsers(arrears, a, diff);
  }

  lemma {:induction false} SharesKeep(costs: seq<UserCost>, gas: u64, u: DbUser, cost: u64, ms: seq<Miner>)
    requires u.advance < cost
    ensures KeepsMiners(ms, PayShareAll(costs, gas, u, u.advance, cost, ms))
  {
    if ms != [] {
      var k := |ms| - 1;
      PaidInit(costs, gas, u, cost, ms);
      SharesKeep(costs, gas, u, cost, ms[..k]);
      if UniqueAll(ms) {
        assert Unique(ms[k].arrears);
        PayShareIs(costs, gas, u, cost, ms[k]);
        var income := IncomeFrom(costs, gas, u.address, ms[k]);
        AddArrearsUnique(ms[k].arrears, u.address, income - Share(income, u.advance, cost));
      }
    }
  }

  lemma {:induction false} FullKeep(costs: seq<UserCost>, gas: u64, u: DbUser, ms: seq<Miner>)
    ensures KeepsMiners(ms, PayFullAll(costs, gas, u, ms))
  {
    if ms != [] {
      var k := |ms| - 1;
      FullKeep(costs, gas, u, ms[..k]);
      assert PayFullAll(costs, gas, u, ms)[..k] == PayFullAll(costs, gas, u, ms[..k]);
    }
  }

  lemma BillUserKeeps(costs: seq<UserCost>, gas: u64, u: DbUser, ms: seq<Miner>)
    ensures KeepsMiners(ms, BillUser(costs, gas, u, ms).miners)
  {
    var cost := Mul(CostOf(costs, u.address), gas);
    if u.advance >= cost { FullKeep(costs, gas, u, ms); } else { SharesKeep(costs, gas, u, cost, ms); }
  }

  lemma {:induction false} BillUsersKeep(costs: seq<UserCost>, gas: u64, users: seq<DbUser>, ms: seq<Miner>)
    ensures KeepsMiners(ms, BillUsers(costs, gas, users, ms).miners)
  {
    if users != [] {
      var k := |users| - 1;
      BillUsersKeep(costs, gas, users[..k], ms);
      BillUserKeeps(costs, gas, users[k], BillUsers(costs, gas, users[..k], ms).miners);
    }
  }

  /** Databases that stay keep their miners; new ones have miners without entries. */
  ghost predicate KeepsAll(l: Ledger, m: Ledger) {
    && (forall d :: d in m.databases && d in l.databases ==> KeepsMiners(l.databases[d].miners, m.databases[d].miners))
    && (forall d :: d in m.databases && d !in l.databases ==>
          forall k :: 0 <= k < |m.databases[d].miners| ==> m.databases[d].miners[k].arrears == [])
  }

  lemma TransferKeeps(cfg: Config, l: Ledger, key: nat, t: Body)
    requires t.Transfer?
    ensures KeepsAll(l, TransferToDatabase(cfg, l, key, t).ledger)
  {
    if !Pays(l, key, t) {
      NoPayment(cfg, l, key, t);
    } else {
      PaymentStores(cfg, l, key, t);
    }
  }

  lemma {:induction false} PutKeeps(l: Ledger, d: Address, q: Profile)
    requires d in l.databases && KeepsMiners(l.databases[d].miners, q.miners)
    ensures KeepsAll(l, l) && KeepsAll(l, l.(databases := l.databases[d := q]))
  {}

  lemma {:induction false} BillingKeeps(l: Ledger, key: nat, t: Body)
    requires t.UpdateBilling?
    ensures KeepsAll(l, ApplyBilling(l, key, t).ledger)
  {
    if t.billed in l.databases {
      var p := l.databases[t.billed];
      BilledKeeps(p, t.costs, p.users);
      var b := BillUsers(t.costs, p.gasPrice, p.users, Receive(p.miners));
      PutKeeps(l, t.billed, p.(lastUpdated := t.to, users := b.users, miners := b.miners));
    }
  }

  lemma {:induction false} BilledKeeps(p: Profile, costs: seq<UserCost>, users: seq<DbUser>)
    ensures KeepsMiners(p.miners, BillUsers(costs, p.gasPrice, users, Receive(p.miners)).miners)
  {
    BillUsersKeep(costs, p.gasPrice, users, Receive(p.miners));
    assert KeepsMiners(p.miners, Receive(p.miners));
  }

  lemma CreateKeeps(cfg: Config, l: Ledger, key: nat, nonce: nat, t: Body)
    requires t.CreateDatabase?
    ensures var m := MatchProvidersWithUser(cfg, l, key, nonce, t).ledger;
      && KeepsAll(l, m)
      && (DistinctTargets(t) ==>
            forall d :: d in m.databases && d !in l.databases ==> DistinctMiners(m.databases[d].miners))
  {
    var r := MatchProvidersWithUser(cfg, l, key, nonce, t);
    var rank, a := RankOf(cfg, l, key, nonce, t), User(key);
    if r.err.NoErr? && r.ledger != l {
      CreateIs(cfg, l, key, nonce, t);
      MatchedFit(rank, l, t, a);
      if DistinctTargets(t) { MatchedDistinct(rank, l, t, a); }
    } else {
      RefusedKeeps(cfg, l, key, nonce, t);
    }
  }

  lemma RefusedKeeps(cfg: Config, l: Ledger, key: nat, nonce: nat, t: Body)
    requires t.CreateDatabase?
    requires var r := MatchProvidersWithUser(cfg, l, key, nonce, t); !r.err.NoErr? || r.ledger == l
    ensures MatchProvidersWithUser(cfg, l, key, nonce, t).ledger.databases == l.databases
  {}

  lemma BodyKeeps(cfg: Config, l: Ledger, tx: Tx, height: nat)
    ensures var m := ApplyBody(cfg, l, tx, height).ledger;
      && KeepsAll(l, m)
      && ((tx.body.CreateDatabase? ==> DistinctTargets(tx.body)) ==>
            forall d :: d in m.databases && d !in l.databases ==> DistinctMiners(m.databases[d].miners))
  {
    match tx.body
    case Transfer(_, _, _, _) =>
      TransferKeeps(cfg, l, tx.key, tx.body);
      TransferTerms(cfg, l, tx.key, tx.body);
      AccountTransferTerms(l, tx.key, tx.body);
    case ProvideService(_, _, _, _, _, _) => ProviderTerms(cfg, l, tx.key, tx.body, height);
    case CreateDatabase(_, _, _, _, _, _, _, _, _) => CreateKeeps(cfg, l, tx.key, tx.nonce, tx.body);
    case UpdatePermission(_, _, _) => PermissionTerms(l, tx.key, tx.body);
    case IssueKeys(_) =>
    case UpdateBilling(_, _, _, _, _) =>
      BillingKeeps(l, tx.key, tx.body);
      BillingTerms(l, tx.key, tx.body);
  }

  /** Every transaction keeps entries unique, and miners distinct if creations name distinct targets. */
  lemma ApplyTidy(cfg: Config, l: Ledger, tx: Tx, height: nat)
    ensures Tidy(l) ==> Tidy(Apply(cfg, l, tx, height).ledger)
    ensures Distinct(l) && (tx.body.CreateDatabase? ==> DistinctTargets(tx.body)) ==>
      Distinct(Apply(cfg, l, tx, height).ledger)
  {
    BodyKeeps(cfg, l, tx, height);
    TidyKept(l, ApplyBody(cfg, l, tx, height).ledger);
  }

  lemma TidyKept(l: Ledger, m: Ledger)
    requires KeepsAll(l, m)
    ensures Tidy(l) ==> Tidy(m)
    ensures Distinct(l) && (forall d :: d in m.databases && d !in l.databases ==>
      DistinctMiners(m.databases[d].miners)) ==>
      Distinct(m)
  {}

  lemma {:induction false} AllTidy(cfg: Config, l: Ledger, txs: seq<Tx>, h: nat)
    requires Tidy(l) && ApplyAll(cfg, l, txs, h).Some?
    ensures Tidy(ApplyAll(cfg, l, txs, h).value)
  {
    if txs != [] {
      var init := txs[..|txs| - 1];
      AllTidy(cfg, l, init, h);
      ApplyTidy(cfg, ApplyAll(cfg, l, init, h).value, txs[|txs| - 1], h);
    }
  }

  /** On every ledger of a path that starts so, every miner has at most one entry per user. */
  lemma {:induction false} PathTidy(cfg: Config, g: Ledger, n: Node)
    requires Tidy(g) && LedgerAt(cfg, g, n).Some?
    ensures Tidy(LedgerAt(cfg, g, n).value)
  {
    if n.parent.Some? {
      PathTidy(cfg, g, n.parent.value);
      AllTidy(cfg, LedgerAt(cfg, g, n.parent.value).value, n.block.txs, n.Height());
    }
  }
}
