/** The pool over whole runs: how far ahead of the irreversible ledger its transactions may be, and how long an
    admitted transaction stays. */
module ChainPool {
  import opened Common
  import opened LedgerTypes
  import opened Transactions
  import opened LedgerFacts
  import opened LedgerTies
  import opened BlockTree
  import opened ChainSpec
  import opened ChainLedger
  import opened ChainPaths
  import opened ChainInv
  import opened ChainRestart
  import opened ChainReboot
  import opened ChainSteps

  // ---------------------------------------------------------------- nonces rise

  /** No account goes away, no nonce of a key goes back, and those of the transactions are used up. */
  ghost predicate Uses(l: Ledger, txs: set<Tx>, m: Ledger) {
    && (forall a :: a in l.accounts ==> a in m.accounts)
    && (forall k: nat :: NextNonce(l, k) <= NextNonce(m, k))
    && (forall t :: t in txs ==> t.Sender() == User(t.key) && t.nonce < NextNonce(m, t.key))
  }

  lemma {:induction false} UsesOn(l: Ledger, s: set<Tx>, m: Ledger, t: set<Tx>, w: Ledger)
    requires Uses(l, s, m) && Uses(m, t, w)
    ensures Uses(l, s + t, w)
  {}

  lemma {:induction false} ApplyUses(cfg: Config, l: Ledger, tx: Tx, h: nat)
    requires Apply(cfg, l, tx, h).err.NoErr?
    ensures Uses(l, {tx}, Apply(cfg, l, tx, h).ledger)
  {
    ApplyNonces(cfg, l, tx, h);
  }

  lemma {:induction false} LastOfSet(txs: seq<Tx>)
    requires txs != []
    ensures ToSet(txs) == ToSet(txs[..|txs| - 1]) + {txs[|txs| - 1]}
  {
    assert txs == txs[..|txs| - 1] + [txs[|txs| - 1]];
  }

  lemma {:induction false} LastOfNodes(nodes: seq<Node>)
    requires nodes != []
    ensures TxsOf(nodes) == TxsOf(nodes[..|nodes| - 1]) + ToSet(nodes[|nodes| - 1].block.txs)
  {
    assert nodes == nodes[..|nodes| - 1] + [nodes[|nodes| - 1]];
  }

  lemma {:induction false} ApplyAllUses(cfg: Config, l: Ledger, txs: seq<Tx>, h: nat)
    requires ApplyAll(cfg, l, txs, h).Some?
    ensures Uses(l, ToSet(txs), ApplyAll(cfg, l, txs, h).value)
  {
    if txs != [] {
      var init, last := txs[..|txs| - 1], txs[|txs| - 1];
      ApplyAllUses(cfg, l, init, h);
      var m := ApplyAll(cfg, l, init, h).value;
      ApplyUses(cfg, m, last, h);
      UsesOn(l, ToSet(init), m, {last}, Apply(cfg, m, last, h).ledger);
      LastOfSet(txs);
    }
  }

  lemma {:induction false} ApplyNodesUses(cfg: Config, l: Ledger, nodes: seq<Node>)
    requires ApplyNodes(cfg, l, nodes).Some?
    ensures Uses(l, TxsOf(nodes), ApplyNodes(cfg, l, nodes).value)
  {
    if nodes != [] {
      var init, last := nodes[..|nodes| - 1], nodes[|nodes| - 1];
      ApplyNodesUses(cfg, l, init);
      var m := ApplyNodes(cfg, l, init).value;
      ApplyAllUses(cfg, m, last.block.txs, last.Height());
      UsesOn(l, TxsOf(init), m, ToSet(last.block.txs), ApplyNodes(cfg, l, nodes).value);
      LastOfNodes(nodes);
    }
  }

  // ---------------------------------------------------------------- one step

  /** From c to d: the pool gains at most an admitted transaction, and loses exactly those whose nonce is used up. */
  ghost predicate Pooling(c: Chain, d: Chain) {
    && Uses(c.immutable, {}, d.immutable)
    && (forall t :: t in d.pool && t !in c.pool ==> Admits(c, t) && d.immutable == c.immutable)
    && (forall t :: t in c.pool && t.Sender().User? ==>
          (t in d.pool <==> NextNonce(d.immutable, t.Sender().key) <= t.nonce))
  }

  lemma {:induction false} UsesNone(l: Ledger)
    ensures Uses(l, {}, l)
  {}

  /** While nothing becomes irreversible no pooled transaction is dropped. */
  lemma {:induction false} SamePool(c: Chain, d: Chain)
    requires Pools(c) && d.immutable == c.immutable && c.pool <= d.pool
    requires forall t :: t in d.pool && t !in c.pool ==> Admits(c, t)
    ensures Pooling(c, d)
  {
    UsesNone(c.immutable);
  }

  lemma {:induction false} SwitchedPool(c: Chain, i: nat, br: Branch, irre: Node, l: Ledger)
    requires Pools(c) && i < |c.branches|
    requires Uses(c.immutable, TxsOf(NodesFrom(irre, c.lastIrre.count + 1)), l)
    ensures Pooling(c, SwitchTo(c, i, br, irre, l))
  {
    var confirmed := TxsOf(NodesFrom(irre, c.lastIrre.count + 1));
    forall t | t in c.pool && t.Sender().User?
      ensures t in c.pool - confirmed - Stale(c.pool, confirmed, l) <==> NextNonce(l, t.Sender().key) <= t.nonce
    {
      assert t.Sender() in c.immutable.accounts && t.Sender() in l.accounts;
      assert t in confirmed ==> t.nonce < NextNonce(l, t.Sender().key);
    }
  }

  lemma {:induction false} SwitchPool(cfg: Config, confirms: nat, c: Chain, i: nat, br: Branch)
    requires Pools(c) && i < |c.branches| && Switch(cfg, confirms, c, i, br).Done?
    ensures Pooling(c, Switch(cfg, confirms, c, i, br).chain)
  {
    var irre := Irreversible(br.head, confirms);
    var nodes := NodesFrom(irre, c.lastIrre.count + 1);
    SwitchOutcome(cfg, confirms, c, i, br, irre);
    var l := ApplyNodes(cfg, c.immutable, nodes).value;
    ApplyNodesUses(cfg, c.immutable, nodes);
    SwitchedPool(c, i, br, irre, l);
  }

  lemma {:induction false} ReceivePool(cfg: Config, con: Config, confirms: nat, c: Chain, b: Block)
    requires Pools(c) && c.headIndex < |c.branches| && ApplyBlock(cfg, con, confirms, c, b).Done?
    ensures Pooling(c, ApplyBlock(cfg, con, confirms, c, b).chain)
  {
    var d := ApplyBlock(cfg, con, confirms, c, b).chain;
    var i := FindHead(c.branches, b.parent);
    if i < |c.branches| && Grow(cfg, c.branches[i], b).value.head.count > c.HeadCount() {
      SwitchPool(con, confirms, c, i, Grow(cfg, c.branches[i], b).value);
    } else {
      SamePool(c, d);
    }
  }

  /** In every step the pool gains only admitted transactions and loses exactly those whose nonce is used up. */
  lemma {:induction false} StepPool(cfg: Config, confirms: nat, c: Chain, s: Step)
    requires Consistent(confirms, c) && Enabled(c, s) && (s.Reboot? ==> Stored(c)) && Take(cfg, confirms, c, s).Done?
    ensures Pooling(c, Take(cfg, confirms, c, s).chain)
  {
    match s
    case Submit(tx) => SamePool(c, StoreTx(c, tx).chain);
    case Receive(b, ties, settling) => ReceivePool(Retied(cfg, ties), Retied(cfg, settling), confirms, c, b);
    case Mint(order, height, producer, ties, settling) =>
      SwitchPool(Retied(cfg, settling), confirms, c, c.headIndex,
                 Produce(Retied(cfg, ties), c.branches[c.headIndex], order, height, producer));
    case Reboot(heads, ties) =>
      RestartRebuilds(cfg, ties, confirms, c, heads);
      SamePool(c, Take(cfg, confirms, c, s).chain);
  }

  /** A transaction is admitted exactly if it is new, signed, from a known account and at most 999 nonces ahead of the
      irreversible ledger. It then waits in the pool, in the table and on every branch that has not packed it. */
  lemma {:induction false} SubmitIff(cfg: Config, confirms: nat, c: Chain, tx: Tx)
    requires Consistent(confirms, c)
    ensures var r := Take(cfg, confirms, c, Submit(tx));
      && (r.Done? <==>
            && tx !in c.pool && tx.signed && tx.Sender() in c.immutable.accounts
            && var ahead := tx.nonce - c.immutable.accounts[tx.Sender()].nextNonce; 0 <= ahead <= 999)
      && (r.Done? ==>
            && r.chain.pool == c.pool + {tx} && r.chain.db.pool == c.db.pool + {tx}
            && |r.chain.branches| == |c.branches|
            && forall i :: 0 <= i < |c.branches| ==>
                 (tx in r.chain.branches[i].pack.unpacked <==> tx !in TxsAfter(c.branches[i].head, c.lastIrre.count)))
  {
    if Admits(c, tx) {
      SubmitConsistent(confirms, c, tx);
      var d := StoreTx(c, tx).chain;
      forall i | 0 <= i < |c.branches|
        ensures tx in d.branches[i].pack.unpacked <==> tx !in TxsAfter(c.branches[i].head, c.lastIrre.count)
      {
        assert Accounted(c.lastIrre, c.pool, c.branches[i]);
      }
    }
  }

  // ---------------------------------------------------------------- runs

  /** The nonces of pooled transactions lie within the window above the next nonce of their account. */
  ghost predicate Windowed(c: Chain) {
    forall t :: t in c.pool && t.Sender().User? ==>
      var base := NextNonce(c.immutable, t.Sender().key);
      base <= t.nonce < base + MAX_PENDING_TXS
  }

  lemma {:induction false} PoolingWindowed(c: Chain, d: Chain)
    requires Windowed(c) && Pooling(c, d)
    ensures Windowed(d)
  {
    forall t | t in d.pool && t.Sender().User?
      ensures NextNonce(d.immutable, t.Sender().key) <= t.nonce <
              NextNonce(d.immutable, t.Sender().key) + MAX_PENDING_TXS
    {
      assert NextNonce(c.immutable, t.Sender().key) <= NextNonce(d.immutable, t.Sender().key);
    }
  }

  lemma {:induction false} MovePool(cfg: Config, g: Ledger, confirms: nat, cs: seq<Chain>, ss: seq<Step>, k: nat)
    requires StoredRun(cfg, g, confirms, cs, ss) && k < |ss|
    ensures Pooling(cs[k], cs[k + 1])
  {
    RunConsistent(cfg, g, confirms, cs, ss, k);
    assert Moves(cfg, confirms, cs[k], ss[k], cs[k + 1]);
    if Take(cfg, confirms, cs[k], ss[k]) == Done(cs[k + 1]) {
      StepPool(cfg, confirms, cs[k], ss[k]);
    } else {
      SamePool(cs[k], cs[k]);
    }
  }

  lemma {:induction false} StartWindowed(cfg: Config, g: Ledger, confirms: nat, cs: seq<Chain>, ss: seq<Step>)
    requires IsRun(cfg, g, confirms, cs, ss)
    ensures Windowed(cs[0])
  {
    assert cs[0].pool == {};
  }

  lemma {:induction false} PooledNext(c: Chain, d: Chain, t: Tx)
    requires Pooling(c, d) && Windowed(d) && t.Sender().User?
    requires t in c.pool <==> NextNonce(c.immutable, t.Sender().key) <= t.nonce
    ensures t in d.pool <==> NextNonce(d.immutable, t.Sender().key) <= t.nonce
  {}

  /** In every state of every run the window holds. */
  lemma {:induction false} RunWindowed(cfg: Config, g: Ledger, confirms: nat, cs: seq<Chain>, ss: seq<Step>, k: nat)
    requires StoredRun(cfg, g, confirms, cs, ss) && k <= |ss|
    ensures Windowed(cs[k])
  {
    if k == 0 {
      StartWindowed(cfg, g, confirms, cs, ss);
    } else {
      RunWindowed(cfg, g, confirms, cs, ss, k - 1);
      MovePool(cfg, g, confirms, cs, ss, k - 1);
      PoolingWindowed(cs[k - 1], cs[k]);
    }
  }

  ghost predicate PoolingAt(cs: seq<Chain>, i: nat) {
    i + 1 < |cs| && Pooling(cs[i], cs[i + 1]) && Windowed(cs[i + 1])
  }

  lemma {:induction false} PooledOver(cs: seq<Chain>, j: nat, k: nat, t: Tx)
    requires j <= k < |cs| && t in cs[j].pool && t.Sender().User? && Windowed(cs[j])
    requires forall i: nat {:trigger PoolingAt(cs, i)} :: i < k ==> PoolingAt(cs, i)
    ensures t in cs[k].pool <==> NextNonce(cs[k].immutable, t.Sender().key) <= t.nonce
  {
    if j < k {
      PooledOver(cs, j, k - 1, t);
      assert PoolingAt(cs, k - 1);
      PooledNext(cs[k - 1], cs[k], t);
    }
  }

  lemma {:induction false} RunPooling(cfg: Config, g: Ledger, confirms: nat, cs: seq<Chain>, ss: seq<Step>, i: nat)
    requires StoredRun(cfg, g, confirms, cs, ss) && i < |ss|
    ensures PoolingAt(cs, i)
  {
    MovePool(cfg, g, confirms, cs, ss, i);
    RunWindowed(cfg, g, confirms, cs, ss, i + 1);
  }

  /** An admitted transaction of a key is pooled exactly until its nonce is used up on the irreversible ledger, through
      forks, switches of the head and restarts. */
  lemma {:induction false} PooledIff(cfg: Config, g: Ledger, confirms: nat, cs: seq<Chain>, ss: seq<Step>, j: nat,
                                     k: nat, t: Tx)
    requires StoredRun(cfg, g, confirms, cs, ss) && j <= k <= |ss| && t in cs[j].pool && t.Sender().User?
    ensures t in cs[k].pool <==> NextNonce(cs[k].immutable, t.Sender().key) <= t.nonce
  {
    RunWindowed(cfg, g, confirms, cs, ss, j);
    forall i: nat | i < k ensures PoolingAt(cs, i) { RunPooling(cfg, g, confirms, cs, ss, i); }
    PooledOver(cs, j, k, t);
  }
}
