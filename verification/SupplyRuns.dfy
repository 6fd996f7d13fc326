/** The Particle supply along whole block paths. */
module SupplyRuns {
  import opened Common
  import opened LedgerTypes
  import opened Transactions
  import opened LedgerProfiles
  import opened TokenSupply
  import opened TokenFlows
  import opened BillingSupply
  import opened BlockTree
  import opened ChainSpec

  /** A transaction that cannot add to the supply: no payment by a user in arrears, no miner named
      twice, no unbalanced bill. */
  ghost predicate Fair(l: Ledger, tx: Tx) {
    match tx.body
    case Transfer(sender, receiver, _, _) => receiver in l.databases ==> !Owes(l.databases[receiver], sender)
    case CreateDatabase(_, _, _, _, _, _, _, _, _) => DistinctTargets(tx.body)
    case UpdateBilling(billed, costs, _, _, _) =>
      billed in l.databases ==>
        Balanced(costs, l.databases[billed].gasPrice, l.databases[billed].users, l.databases[billed].miners)
    case _ => true
  }

  /** A creation that asks for more than 64 bits hold. */
  predicate AsksTooMuch(cfg: Config, tx: Tx) {
    tx.body.CreateDatabase? && MinDeposit(cfg, tx.body.price, tx.body.nodes) + tx.body.advancePayment >= LIMIT
  }

  // ---------------------------------------------------------------- one transaction

  lemma FairTransfer(cfg: Config, l: Ledger, tx: Tx)
    requires tx.body.Transfer? && ParticleOnly(l) && Supply(l) < LIMIT && Fair(l, tx)
    ensures var r := ApplyBody(cfg, l, tx, 0);
      Supply(r.ledger) == Supply(l) && (tx.body.token.Particle? ==> !r.err.BalanceOverflow?)
  {
    PaymentSupply(cfg, l, tx.key, tx.body);
    if tx.body.token.Particle? {
      TransferSupply(l, tx.key, tx.body);
    } else {
      WaveSupply(l, tx.key, tx.body);
    }
  }

  lemma {:induction false} SamePermission(l: Ledger, p: Profile, us: seq<DbUser>, a: Address)
    requires a in l.databases && p == l.databases[a] && UsersHold(us) == UsersHold(p.users)
    ensures Supply(l.(databases := l.databases[a := p.(users := us)])) == Supply(l)
  {
    ProfilePut(l, a, p.(users := us));
  }

  lemma PermissionSupply(l: Ledger, tx: Tx)
    requires tx.body.UpdatePermission?
    ensures Supply(ApplyPermission(l, tx.key, tx.body).ledger) == Supply(l)
  {
    var t := tx.body;
    var r := ApplyPermission(l, tx.key, t);
    if r.err.NoErr? {
      var p := l.databases[t.target];
      var i := FindLastUser(p.users, t.targetUser);
      if i < 0 {
        var us := p.users + [DbUser(t.targetUser, t.permission, 0, 0, 0, Unknown)];
        assert us[..|us| - 1] == p.users;
        SamePermission(l, p, us, t.target);
      } else {
        UsersPut(p.users, i, p.users[i].(permission := t.permission));
        SamePermission(l, p, p.users[i := p.users[i].(permission := t.permission)], t.target);
      }
    }
  }

  /** A creation that is refused after it has been paid for does not add to the supply either. */
  lemma CreateNeverGrows(cfg: Config, l: Ledger, key: nat, nonce: nat, t: Body)
    requires t.CreateDatabase? && ParticleOnly(l) && DistinctTargets(t)
    ensures Supply(MatchProvidersWithUser(cfg, l, key, nonce, t).ledger) <= Supply(l)
  {
    var r := MatchProvidersWithUser(cfg, l, key, nonce, t);
    CreateConserves(cfg, l, key, nonce, t);
    if !r.err.NoErr? && r.ledger != l {
      var a := User(key);
      var minAdvance := MinDeposit(cfg, t.price, t.nodes);
      MatchedFit(RankOf(cfg, l, key, nonce, t), l, t, a);
      FitParticle(l, t, a, MatchMiners(RankOf(cfg, l, key, nonce, t), l, t, a).miners);
      DecreaseSupply(l, a, SafeAdd(minAdvance, t.advancePayment).value);
    }
  }

  /** What an accepted transaction takes out of the supply: a provider's old deposit before the fix
      height, what had been sent to the address of a new database, what a bill charges beyond what it pays. */
  ghost function Loss(cfg: Config, l: Ledger, tx: Tx, height: nat): int {
    match tx.body
    case ProvideService(_, _, _, _, _, _) => Burned(l, User(tx.key), height)
    case CreateDatabase(_, _, _, _, _, _, _, _, _) =>
      if MatchProvidersWithUser(cfg, l, tx.key, tx.nonce, tx.body).ledger != l
      then BalanceAt(l, Database(User(tx.key), tx.nonce)) else 0
    case UpdateBilling(billed, costs, _, _, _) =>
      if billed in l.databases && l.databases[billed].gasPrice > 0 && BillLoss(l.databases[billed], costs) > 0
      then BillLoss(l.databases[billed], costs) else 0
    case _ => 0
  }

  /** An accepted fair transaction takes exactly its loss out of a supply that fits; no fair transaction
      adds to it, and none overflows a balance. */
  lemma FairBody(cfg: Config, l: Ledger, tx: Tx, height: nat)
    requires ParticleOnly(l) && Supply(l) < LIMIT && Fair(l, tx)
    ensures var r := ApplyBody(cfg, l, tx, height);
      && Supply(r.ledger) <= Supply(l)
      && (r.err.NoErr? ==> Supply(r.ledger) + Loss(cfg, l, tx, height) == Supply(l))
      && (r.err.BalanceOverflow? ==> AsksTooMuch(cfg, tx) || (tx.body.Transfer? && tx.body.token.Wave?))
  {
    match tx.body
    case Transfer(_, _, _, _) => FairTransfer(cfg, l, tx);
    case ProvideService(_, _, _, _, _, _) => ProvideSupply(cfg, l, tx.key, tx.body, height);
    case CreateDatabase(_, _, _, _, _, _, _, _, _) =>
      CreateNeverGrows(cfg, l, tx.key, tx.nonce, tx.body);
      CreateConserves(cfg, l, tx.key, tx.nonce, tx.body);
      if MatchProvidersWithUser(cfg, l, tx.key, tx.nonce, tx.body).err.BalanceOverflow? {
        CreateOverflow(cfg, l, tx.key, tx.nonce, tx.body);
      }
    case UpdatePermission(_, _, _) => PermissionSupply(l, tx);
    case IssueKeys(_) =>
    case UpdateBilling(_, _, _, _, _) => BillingNeverGrows(l, tx.key, tx.body);
  }

  lemma NonceSupply(l: Ledger, a: Address)
    ensures Supply(IncreaseNonce(l, a).ledger) == Supply(l)
  {
    if a in l.accounts { AccountPut(l, a, l.accounts[a].(nextNonce := l.accounts[a].nextNonce + 1)); }
  }

  lemma FairApply(cfg: Config, l: Ledger, tx: Tx, height: nat)
    requires ParticleOnly(l) && Supply(l) < LIMIT && Fair(l, tx)
    ensures var r := Apply(cfg, l, tx, height);
      && Supply(r.ledger) <= Supply(l)
      && (r.err.NoErr? ==> Supply(r.ledger) + Loss(cfg, l, tx, height) == Supply(l))
      && (r.err.BalanceOverflow? ==> AsksTooMuch(cfg, tx) || (tx.body.Transfer? && tx.body.token.Wave?))
  {
    FairBody(cfg, l, tx, height);
    NonceSupply(ApplyBody(cfg, l, tx, height).ledger, tx.Sender());
  }

  // ---------------------------------------------------------------- tokens stay Particle

  lemma BodyParticle(cfg: Config, l: Ledger, tx: Tx, height: nat)
    requires ParticleOnly(l)
    ensures ParticleOnly(ApplyBody(cfg, l, tx, height).ledger)
  {
    match tx.body
    case Transfer(_, _, _, _) =>
      TransferTerms(cfg, l, tx.key, tx.body);
      AccountTransferTerms(l, tx.key, tx.body);
    case ProvideService(_, _, _, _, _, _) => ProviderTerms(cfg, l, tx.key, tx.body, height);
    case CreateDatabase(_, _, _, _, _, _, _, _, _) => CreateTerms(cfg, l, tx.key, tx.nonce, tx.body);
    case UpdatePermission(_, _, _) => PermissionTerms(l, tx.key, tx.body);
    case IssueKeys(_) =>
    case UpdateBilling(_, _, _, _, _) => BillingTerms(l, tx.key, tx.body);
  }

  lemma ApplyParticle(cfg: Config, l: Ledger, tx: Tx, height: nat)
    requires ParticleOnly(l)
    ensures ParticleOnly(Apply(cfg, l, tx, height).ledger)
  {
    BodyParticle(cfg, l, tx, height);
  }

  // ---------------------------------------------------------------- paths

  ghost predicate FairAll(cfg: Config, l: Ledger, txs: seq<Tx>, h: nat) {
    txs == [] ||
    (FairAll(cfg, l, txs[..|txs| - 1], h) &&
     (ApplyAll(cfg, l, txs[..|txs| - 1], h).Some? ==>
       Fair(ApplyAll(cfg, l, txs[..|txs| - 1], h).value, txs[|txs| - 1])))
  }

  ghost predicate FairPath(cfg: Config, g: Ledger, n: Node) {
    n.parent.None? ||
    (FairPath(cfg, g, n.parent.value) &&
     (LedgerAt(cfg, g, n.parent.value).Some? ==>
       FairAll(cfg, LedgerAt(cfg, g, n.parent.value).value, n.block.txs, n.Height())))
  }

  ghost function LossAll(cfg: Config, l: Ledger, txs: seq<Tx>, h: nat): int
    requires ApplyAll(cfg, l, txs, h).Some?
  {
    if txs == [] then 0
    else
      var init := txs[..|txs| - 1];
      LossAll(cfg, l, init, h) + Loss(cfg, ApplyAll(cfg, l, init, h).value, txs[|txs| - 1], h)
  }

  ghost function LossPath(cfg: Config, g: Ledger, n: Node): int
    requires LedgerAt(cfg, g, n).Some?
  {
    if n.parent.None? then 0
    else
      LossPath(cfg, g, n.parent.value) +
      LossAll(cfg, LedgerAt(cfg, g, n.parent.value).value, n.block.txs, n.Height())
  }

  lemma {:induction false} SupplyAll(cfg: Config, l: Ledger, txs: seq<Tx>, h: nat)
    requires ParticleOnly(l) && Supply(l) < LIMIT && FairAll(cfg, l, txs, h) && ApplyAll(cfg, l, txs, h).Some?
    ensures ParticleOnly(ApplyAll(cfg, l, txs, h).value) && Supply(ApplyAll(cfg, l, txs, h).value) <= Supply(l)
    ensures Supply(ApplyAll(cfg, l, txs, h).value) + LossAll(cfg, l, txs, h) == Supply(l)
  {
    if txs != [] {
      var init, last := txs[..|txs| - 1], txs[|txs| - 1];
      SupplyAll(cfg, l, init, h);
      var m := ApplyAll(cfg, l, init, h).value;
      FairApply(cfg, m, last, h);
      ApplyParticle(cfg, m, last, h);
    }
  }

  /** Along every path of fair transactions the supply is that of genesis less the losses on the way, and
      never exceeds it. */
  lemma {:induction false} SupplyBound(cfg: Config, g: Ledger, n: Node)
    requires ParticleOnly(g) && Supply(g) < LIMIT && FairPath(cfg, g, n) && LedgerAt(cfg, g, n).Some?
    ensures ParticleOnly(LedgerAt(cfg, g, n).value) && Supply(LedgerAt(cfg, g, n).value) <= Supply(g)
    ensures Supply(LedgerAt(cfg, g, n).value) + LossPath(cfg, g, n) == Supply(g)
  {
    if n.parent.Some? {
      SupplyBound(cfg, g, n.parent.value);
      SupplyAll(cfg, LedgerAt(cfg, g, n.parent.value).value, n.block.txs, n.Height());
    }
  }

  /** So no further fair transaction overflows: transfers, refunds and payments never do, and a
      creation only if the amount it asks for does not fit. */
  lemma {:induction false} NoOverflow(cfg: Config, g: Ledger, n: Node, tx: Tx, h: nat)
    requires ParticleOnly(g) && Supply(g) < LIMIT && FairPath(cfg, g, n) && LedgerAt(cfg, g, n).Some?
    requires Fair(LedgerAt(cfg, g, n).value, tx) && !(tx.body.Transfer? && tx.body.token.Wave?) && !AsksTooMuch(cfg, tx)
    ensures !Apply(cfg, LedgerAt(cfg, g, n).value, tx, h).err.BalanceOverflow?
  {
    SupplyBound(cfg, g, n);
    FairApply(cfg, LedgerAt(cfg, g, n).value, tx, h);
  }
}
