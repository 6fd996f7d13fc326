/** Billing on the ledgers that block paths reach, and bills drawn up by a database's own chain. */
module BillingPaths {
  import opened Common
  import opened LedgerTypes
  import opened Transactions
  import opened TokenSupply
  import opened TokenFlows
  import opened BillingSupply
  import opened ArrearsPaths
  import opened SupplyRuns
  import opened SqlBilling
  import opened BlockTree
  import opened ChainSpec

  /** On every ledger of a path, whichever users a bill has charged before: if the advance payment of the
      next user falls short, the incomes split into what is paid and what is recorded. */
  lemma {:induction false} ShortfallOnPath(cfg: Config, g: Ledger, n: Node, d: Address, costs: seq<UserCost>, k: nat)
    requires Tidy(g) && LedgerAt(cfg, g, n).Some? && d in LedgerAt(cfg, g, n).value.databases
    requires k < |LedgerAt(cfg, g, n).value.databases[d].users|
    requires var p := LedgerAt(cfg, g, n).value.databases[d]; Short(p, costs, k)
    ensures var p := LedgerAt(cfg, g, n).value.databases[d]; var u := p.users[k];
      Split(costs, p.gasPrice, u, Mul(CostOf(costs, u.address), p.gasPrice), Charged(p, costs, k))
  {
    PathTidy(cfg, g, n);
    ShortfallIn(LedgerAt(cfg, g, n).value.databases[d], costs, k);
  }

  /** The miners after the first k users of a profile have been charged. */
  function Charged(p: Profile, costs: seq<UserCost>, k: nat): seq<Miner>
    requires k <= |p.users|
  {
    BillUsers(costs, p.gasPrice, p.users[..k], Receive(p.miners)).miners
  }

  /** User k cannot pay the bill, and the sums fit 64 bits. */
  predicate Short(p: Profile, costs: seq<UserCost>, k: nat)
    requires k < |p.users|
  {
    var u := p.users[k]; var cost := Mul(CostOf(costs, u.address), p.gasPrice);
    u.advance < cost && UnpaidFits(costs, p.gasPrice, u, Charged(p, costs, k), u.arrears)
  }

  lemma {:induction false} ShortfallIn(p: Profile, costs: seq<UserCost>, k: nat)
    requires k < |p.users| && UniqueAll(p.miners) && Short(p, costs, k)
    ensures var u := p.users[k];
      Split(costs, p.gasPrice, u, Mul(CostOf(costs, u.address), p.gasPrice), Charged(p, costs, k))
  {
    var u := p.users[k];
    BilledKeeps(p, costs, p.users[..k]);
    ShortfallTotal(costs, p.gasPrice, u, Mul(CostOf(costs, u.address), p.gasPrice), Charged(p, costs, k));
  }

  lemma {:induction false} AllDistinct(cfg: Config, l: Ledger, txs: seq<Tx>, h: nat)
    requires Distinct(l) && FairAll(cfg, l, txs, h) && ApplyAll(cfg, l, txs, h).Some?
    ensures Distinct(ApplyAll(cfg, l, txs, h).value)
  {
    if txs != [] {
      var init := txs[..|txs| - 1];
      AllDistinct(cfg, l, init, h);
      ApplyTidy(cfg, ApplyAll(cfg, l, init, h).value, txs[|txs| - 1], h);
    }
  }

  /** Along a path of fair transactions no database has a miner twice. */
  lemma {:induction false} PathDistinct(cfg: Config, g: Ledger, n: Node)
    requires Distinct(g) && FairPath(cfg, g, n) && LedgerAt(cfg, g, n).Some?
    ensures Distinct(LedgerAt(cfg, g, n).value)
  {
    if n.parent.Some? {
      PathDistinct(cfg, g, n.parent.value);
      AllDistinct(cfg, LedgerAt(cfg, g, n.parent.value).value, n.block.txs, n.Height());
    }
  }

  /** The users' rows in the range fit 64 bits, also times the price. */
  ghost predicate RowsFit(s: SqlNode, low: nat, h: nat, gas: u64, users: seq<DbUser>) {
    forall i :: 0 <= i < |users| ==>
      RangeRows(Some(s), low, h, users[i].address) < LIMIT && RangeRows(Some(s), low, h, users[i].address) * gas < LIMIT
  }

  /** Along such a path, a bill that reports what a database's own chain collected is again fair. */
  lemma {:induction false} ChainBillFair(cfg: Config, g: Ledger, n: Node, tx: Tx, s: SqlNode, low: nat, h: nat)
    requires Distinct(g) && FairPath(cfg, g, n) && LedgerAt(cfg, g, n).Some? && tx.body.UpdateBilling?
    requires Ascending(s) && Reports(tx.body.costs, AddBlocks(EMPTY, Walked(Skip(Some(s), h), low)))
    requires var l := LedgerAt(cfg, g, n).value;
      tx.body.billed in l.databases ==>
        RowsFit(s, low, h, l.databases[tx.body.billed].gasPrice, l.databases[tx.body.billed].users)
    ensures Fair(LedgerAt(cfg, g, n).value, tx)
  {
    PathDistinct(cfg, g, n);
    var l := LedgerAt(cfg, g, n).value;
    if tx.body.billed in l.databases {
      var p := l.databases[tx.body.billed];
      BillBalanced(s, h, low, tx.body.costs, p.gasPrice, p.users, p.miners);
    }
  }
}
