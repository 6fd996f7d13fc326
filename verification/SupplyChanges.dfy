/** What every kind of transaction takes out of and adds to the Particle supply, and the sum along block paths. */
module SupplyChanges {
  import opened Common
  import opened LedgerTypes
  import opened Transactions
  import opened TokenSupply
  import opened TokenFlows
  import opened BillingSupply
  import opened SupplyRuns
  import opened BlockTree
  import opened ChainSpec

  // ---------------------------------------------------------------- repeated targets

  /** The deposits of miners that are counted more than once. */
  ghost function Repeated(l: Ledger, ms: seq<Miner>): int {
    DepositsOf(ms) - DepositsAt(l, MinerAddresses(ms))
  }

  lemma {:induction false} SumCovers(m: map<Address, nat>, ms: seq<Miner>)
    requires forall k :: 0 <= k < |ms| ==> ms[k].address in m && m[ms[k].address] == ms[k].deposit
    ensures Sum(m) <= Sum(m - MinerAddresses(ms)) + DepositsOf(ms)
  {
    if ms == [] {
      assert m - MinerAddresses(ms) == m;
    } else {
      var k := |ms| - 1;
      SumCovers(m, ms[..k]);
      var rest := m - MinerAddresses(ms[..k]);
      assert ms == ms[..k] + [ms[k]];
      assert MinerAddresses(ms) == MinerAddresses(ms[..k]) + {ms[k].address};
      assert rest - {ms[k].address} == m - MinerAddresses(ms);
      if ms[k].address in rest { SumRemove(rest, ms[k].address); } else { assert rest - {ms[k].address} == rest; }
    }
  }

  lemma MatchedDeposits(rank: Rank, l: Ledger, t: Body, a: Address)
    requires t.CreateDatabase? && MatchMiners(rank, l, t, a).Miners?
    ensures forall k :: 0 <= k < |MatchMiners(rank, l, t, a).miners| ==>
      var m := MatchMiners(rank, l, t, a).miners[k];
      m.address in Deposits(l) && Deposits(l)[m.address] == m.deposit
  {
    MatchedFit(rank, l, t, a);
  }

  lemma RepeatedCounts(rank: Rank, l: Ledger, t: Body, a: Address)
    requires t.CreateDatabase? && MatchMiners(rank, l, t, a).Miners?
    ensures var ms := MatchMiners(rank, l, t, a).miners;
      Repeated(l, ms) >= 0 && (DistinctTargets(t) ==> Repeated(l, ms) == 0)
  {
    var ms := MatchMiners(rank, l, t, a).miners;
    MatchedDeposits(rank, l, t, a);
    SumCovers(Deposits(l), ms);
    if DistinctTargets(t) {
      MatchedDistinct(rank, l, t, a);
      SumTake(Deposits(l), ms);
    }
  }

  // ---------------------------------------------------------------- one transaction

  /** What an accepted creation mints. */
  ghost function CreateGain(cfg: Config, l: Ledger, key: nat, nonce: nat, t: Body): int
    requires t.CreateDatabase?
  {
    var m := MatchMiners(RankOf(cfg, l, key, nonce, t), l, t, User(key));
    if m.Miners? && MatchProvidersWithUser(cfg, l, key, nonce, t).ledger != l then Repeated(l, m.miners) else 0
  }

  /** What an accepted transaction mints: settled arrears, deposits of miners named twice, and what a bill pays
      beyond what it charges. */
  ghost function Gain(cfg: Config, l: Ledger, tx: Tx): int {
    match tx.body
    case Transfer(sender, receiver, _, _) =>
      if receiver in l.databases then Minted(l.databases[receiver], sender) else 0
    case CreateDatabase(_, _, _, _, _, _, _, _, _) => CreateGain(cfg, l, tx.key, tx.nonce, tx.body)
    case UpdateBilling(billed, costs, _, _, _) =>
      if billed in l.databases && l.databases[billed].gasPrice > 0 && BillLoss(l.databases[billed], costs) < 0
      then -BillLoss(l.databases[billed], costs) else 0
    case _ => 0
  }

  /** The sums that the transaction makes fit 64 bits. */
  ghost predicate Fits(l: Ledger, tx: Tx) {
    && Supply(l) < LIMIT
    && match tx.body
       case Transfer(sender, receiver, _, _) => receiver in l.databases ==> SettleFits(l.databases[receiver], sender)
       case UpdateBilling(billed, costs, _, _, _) => billed in l.databases ==> BillFits(l.databases[billed], costs)
       case _ => true
  }

  lemma CreateChange(cfg: Config, l: Ledger, tx: Tx)
    requires tx.body.CreateDatabase? && ParticleOnly(l)
    requires MatchProvidersWithUser(cfg, l, tx.key, tx.nonce, tx.body).err.NoErr?
    ensures Supply(MatchProvidersWithUser(cfg, l, tx.key, tx.nonce, tx.body).ledger) + Loss(cfg, l, tx, 0) ==
      Supply(l) + CreateGain(cfg, l, tx.key, tx.nonce, tx.body)
    ensures CreateGain(cfg, l, tx.key, tx.nonce, tx.body) >= 0
  {
    var t := tx.body;
    if MatchProvidersWithUser(cfg, l, tx.key, tx.nonce, t).ledger != l {
      CreateSupply(cfg, l, tx.key, tx.nonce, t);
      RepeatedCounts(RankOf(cfg, l, tx.key, tx.nonce, t), l, t, User(tx.key));
    }
  }

  lemma TransferChange(cfg: Config, l: Ledger, tx: Tx)
    requires tx.body.Transfer? && ParticleOnly(l) && Fits(l, tx) && ApplyBody(cfg, l, tx, 0).err.NoErr?
    ensures Supply(ApplyBody(cfg, l, tx, 0).ledger) == Supply(l) + Gain(cfg, l, tx)
  {
    PaymentSupply(cfg, l, tx.key, tx.body);
    if tx.body.token.Particle? {
      TransferSupply(l, tx.key, tx.body);
    } else {
      WaveSupply(l, tx.key, tx.body);
    }
  }

  /** An accepted transaction of any kind takes its loss out of the supply and adds its gain. */
  lemma BodyChange(cfg: Config, l: Ledger, tx: Tx, height: nat)
    requires ParticleOnly(l) && Fits(l, tx) && ApplyBody(cfg, l, tx, height).err.NoErr?
    ensures Supply(ApplyBody(cfg, l, tx, height).ledger) + Loss(cfg, l, tx, height) == Supply(l) + Gain(cfg, l, tx)
    ensures Gain(cfg, l, tx) >= 0 && Loss(cfg, l, tx, height) >= 0
  {
    match tx.body
    case Transfer(_, _, _, _) => TransferChange(cfg, l, tx);
    case ProvideService(_, _, _, _, _, _) => ProvideSupply(cfg, l, tx.key, tx.body, height);
    case CreateDatabase(_, _, _, _, _, _, _, _, _) => CreateChange(cfg, l, tx);
    case UpdatePermission(_, _, _) => PermissionSupply(l, tx);
    case IssueKeys(_) =>
    case UpdateBilling(_, _, _, _, _) => BillingChange(l, tx.key, tx.body);
  }

  lemma ApplyChange(cfg: Config, l: Ledger, tx: Tx, height: nat)
    requires ParticleOnly(l) && Fits(l, tx) && Apply(cfg, l, tx, height).err.NoErr?
    ensures Supply(Apply(cfg, l, tx, height).ledger) + Loss(cfg, l, tx, height) == Supply(l) + Gain(cfg, l, tx)
    ensures Gain(cfg, l, tx) >= 0 && Loss(cfg, l, tx, height) >= 0
  {
    BodyChange(cfg, l, tx, height);
    NonceSupply(ApplyBody(cfg, l, tx, height).ledger, tx.Sender());
  }

  /** A fair transaction on a supply that fits makes sums that fit, and mints nothing. */
  lemma FairGain(cfg: Config, l: Ledger, tx: Tx)
    requires Fair(l, tx) && Supply(l) < LIMIT
    ensures Fits(l, tx) && Gain(cfg, l, tx) == 0
  {
    match tx.body
    case CreateDatabase(_, _, _, _, _, _, _, _, _) =>
      var rank := RankOf(cfg, l, tx.key, tx.nonce, tx.body);
      if MatchMiners(rank, l, tx.body, User(tx.key)).Miners? { RepeatedCounts(rank, l, tx.body, User(tx.key)); }
    case UpdateBilling(billed, costs, _, _, _) => if billed in l.databases { BalancedFits(l, billed, costs); }
    case _ =>
  }

  // ---------------------------------------------------------------- paths

  ghost predicate FitsAll(cfg: Config, l: Ledger, txs: seq<Tx>, h: nat) {
    txs == [] ||
    (FitsAll(cfg, l, txs[..|txs| - 1], h) &&
     (ApplyAll(cfg, l, txs[..|txs| - 1], h).Some? ==>
       Fits(ApplyAll(cfg, l, txs[..|txs| - 1], h).value, txs[|txs| - 1])))
  }

  /** On the way to n all sums fit. */
  ghost predicate FitsPath(cfg: Config, g: Ledger, n: Node) {
    n.parent.None? ||
    (FitsPath(cfg, g, n.parent.value) &&
     (LedgerAt(cfg, g, n.parent.value).Some? ==>
       FitsAll(cfg, LedgerAt(cfg, g, n.parent.value).value, n.block.txs, n.Height())))
  }

  ghost function GainAll(cfg: Config, l: Ledger, txs: seq<Tx>, h: nat): int
    requires ApplyAll(cfg, l, txs, h).Some?
  {
    if txs == [] then 0
    else
      var init := txs[..|txs| - 1];
      GainAll(cfg, l, init, h) + Gain(cfg, ApplyAll(cfg, l, init, h).value, txs[|txs| - 1])
  }

  ghost function GainPath(cfg: Config, g: Ledger, n: Node): int
    requires LedgerAt(cfg, g, n).Some?
  {
    if n.parent.None? then 0
    else
      GainPath(cfg, g, n.parent.value) +
      GainAll(cfg, LedgerAt(cfg, g, n.parent.value).value, n.block.txs, n.Height())
  }

  lemma {:induction false} ChangeAll(cfg: Config, l: Ledger, txs: seq<Tx>, h: nat)
    requires ParticleOnly(l) && FitsAll(cfg, l, txs, h) && ApplyAll(cfg, l, txs, h).Some?
    ensures ParticleOnly(ApplyAll(cfg, l, txs, h).value)
    ensures Supply(ApplyAll(cfg, l, txs, h).value) + LossAll(cfg, l, txs, h) == Supply(l) + GainAll(cfg, l, txs, h)
    ensures GainAll(cfg, l, txs, h) >= 0 && LossAll(cfg, l, txs, h) >= 0
  {
    if txs != [] {
      var init, last := txs[..|txs| - 1], txs[|txs| - 1];
      ChangeAll(cfg, l, init, h);
      ApplyChange(cfg, ApplyAll(cfg, l, init, h).value, last, h);
      ApplyParticle(cfg, ApplyAll(cfg, l, init, h).value, last, h);
    }
  }

  /** Along every path whose sums fit: the supply and all that was lost on the way are the supply of genesis and
      all that was minted. */
  lemma {:induction false} SupplyEquation(cfg: Config, g: Ledger, n: Node)
    requires ParticleOnly(g) && FitsPath(cfg, g, n) && LedgerAt(cfg, g, n).Some?
    ensures ParticleOnly(LedgerAt(cfg, g, n).value)
    ensures Supply(LedgerAt(cfg, g, n).value) + LossPath(cfg, g, n) == Supply(g) + GainPath(cfg, g, n)
    ensures GainPath(cfg, g, n) >= 0 && LossPath(cfg, g, n) >= 0
  {
    if n.parent.Some? {
      SupplyEquation(cfg, g, n.parent.value);
      ChangeAll(cfg, LedgerAt(cfg, g, n.parent.value).value, n.block.txs, n.Height());
    }
  }

  lemma {:induction false} FairAllGains(cfg: Config, l: Ledger, txs: seq<Tx>, h: nat)
    requires ParticleOnly(l) && Supply(l) < LIMIT && FairAll(cfg, l, txs, h) && ApplyAll(cfg, l, txs, h).Some?
    ensures FitsAll(cfg, l, txs, h) && GainAll(cfg, l, txs, h) == 0
  {
    if txs != [] {
      var init, last := txs[..|txs| - 1], txs[|txs| - 1];
      FairAllGains(cfg, l, init, h);
      SupplyAll(cfg, l, init, h);
      FairGain(cfg, ApplyAll(cfg, l, init, h).value, last);
    }
  }

  /** A fair path is one of these, and mints nothing. */
  lemma {:induction false} FairPathGains(cfg: Config, g: Ledger, n: Node)
    requires ParticleOnly(g) && Supply(g) < LIMIT && FairPath(cfg, g, n) && LedgerAt(cfg, g, n).Some?
    ensures FitsPath(cfg, g, n) && GainPath(cfg, g, n) == 0
  {
    if n.parent.Some? {
      FairPathGains(cfg, g, n.parent.value);
      SupplyBound(cfg, g, n.parent.value);
      FairAllGains(cfg, LedgerAt(cfg, g, n.parent.value).value, n.block.txs, n.Height());
    }
  }

  // ---------------------------------------------------------------- a bill and a creation that mint

  const ALICE := User(1)
  const PAT := User(2)
  const DB := Database(ALICE, 1)

  /** Alice's database, run by Pat. */
  const RUN := Profile(1, 1, Particle, ALICE, [Miner(PAT, 7, 0, 0, [], 1)], [DbUser(ALICE, ADMIN, 0, 0, 1, Normal)])

  /** Pat reports that Alice has cost nothing and that Pat has earned 9. */
  const UNBACKED := UpdateBilling(DB, [UserCost(ALICE, 0, [MinerIncome(PAT, 9)])], 1, 2, 1)

  lemma Unbacked()
    ensures BillFits(RUN, UNBACKED.costs) && BillLoss(RUN, UNBACKED.costs) == -9
  {
    var u, costs := RUN.users[0], UNBACKED.costs;
    assert RUN.miners[..0] == [] && RUN.users[..0] == [];
    assert costs[..0] == [] && costs[0].miners[..0] == [];
    assert IncomeIn(costs[0].miners[..0], PAT, 0) == 0 && IncomeIn(costs[0].miners, PAT, 0) == 9;
    assert IncomeOf(costs[..0], ALICE, PAT) == 0 && IncomeOf(costs, ALICE, PAT) == 9;
    assert IncomeSum(costs, 1, ALICE, []) == 0 && IncomeSum(costs, 1, ALICE, RUN.miners) == 9;
    assert UsersLoss(costs, 1, [], RUN.miners) == 0 && UsersPayout(costs, 1, [], RUN.miners) == 0;
    assert MinersHold([]) == 0;
  }

  /** On any ledger that holds this database, a bill signed by its miner adds 9 to the supply. */
  lemma BillMints(l: Ledger)
    requires DB in l.databases && l.databases[DB] == RUN
    ensures var r := ApplyBilling(l, 2, UNBACKED); r.err.NoErr? && Supply(r.ledger) == Supply(l) + 9
  {
    Unbacked();
    BillingChange(l, 2, UNBACKED);
    assert RUN.miners[0].address == User(2);
  }

  /** Pat offers to run databases, with a deposit of 5. */
  const OFFERED := Ledger(map[ALICE := Account(Balance(4, 0), 1)], map[],
                          map[PAT := Provider(0, 0, 0.0, [], 5, 1, Particle, 7)])

  const TWICE := CreateDatabase(ALICE, [PAT, PAT], 2, 0, 0, 0.0, 1, 2, Particle)

  /** Alice creates a database and names Pat twice. */
  lemma CreationMints(ties: Ties)
    ensures var r := MatchProvidersWithUser(Config(1, 1, 5, ties), OFFERED, 1, 1, TWICE);
      r.err.NoErr? && Supply(r.ledger) == Supply(OFFERED) + 5
  {
    var cfg := Config(1, 1, 5, ties);
    NamedTwice(RankOf(cfg, OFFERED, 1, 1, TWICE), OFFERED, TWICE, ALICE, PAT);
    assert MinDeposit(cfg, 1, 2) == 2;
    assert DB in MatchProvidersWithUser(cfg, OFFERED, 1, 1, TWICE).ledger.databases;
    DuplicateTargetMints(cfg, OFFERED, 1, 1, TWICE, PAT);
  }
}
