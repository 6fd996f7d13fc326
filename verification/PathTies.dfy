/** Paths without tied creations have one ledger, however ties fall. */
module PathTies {
  import opened Common
  import opened LedgerTypes
  import opened Transactions
  import opened LedgerTies
  import opened BlockTree
  import opened ChainSpec
  import opened ChainLedger

  /** None of the transactions is tied on the ledger it meets. */
  ghost predicate UntiedTxs(cfg: Config, l: Ledger, txs: seq<Tx>, height: nat) {
    txs == [] ||
    var init := txs[..|txs| - 1];
    && UntiedTxs(cfg, l, init, height)
    && (ApplyAll(cfg, l, init, height).Some? ==> UntiedTx(ApplyAll(cfg, l, init, height).value, txs[|txs| - 1]))
  }

  /** No creation in the block of n is tied. */
  ghost predicate UntiedBlock(cfg: Config, g: Ledger, n: Node) {
    n.parent.Some? && LedgerAt(cfg, g, n.parent.value).Some? ==>
      UntiedTxs(cfg, LedgerAt(cfg, g, n.parent.value).value, n.block.txs, n.Height())
  }

  ghost predicate UntiedPath(cfg: Config, g: Ledger, n: Node) {
    forall a {:trigger UntiedBlock(cfg, g, a)} :: IsAncestor(a, n) ==> UntiedBlock(cfg, g, a)
  }

  lemma {:induction false} TxsSame(cfg: Config, ties: Ties, l: Ledger, txs: seq<Tx>, height: nat)
    requires UntiedTxs(cfg, l, txs, height)
    ensures ApplyAll(Retied(cfg, ties), l, txs, height) == ApplyAll(cfg, l, txs, height)
    ensures UntiedTxs(Retied(cfg, ties), l, txs, height)
  {
    if txs != [] {
      var init := txs[..|txs| - 1];
      TxsSame(cfg, ties, l, init, height);
      if ApplyAll(cfg, l, init, height).Some? {
        ApplySame(cfg, ties, ApplyAll(cfg, l, init, height).value, txs[|txs| - 1], height);
      }
    }
  }

  lemma {:induction false} BlockSame(cfg: Config, ties: Ties, g: Ledger, n: Node)
    requires UntiedBlock(cfg, g, n)
    requires n.parent.Some? ==> LedgerAt(Retied(cfg, ties), g, n.parent.value) == LedgerAt(cfg, g, n.parent.value)
    ensures LedgerAt(Retied(cfg, ties), g, n) == LedgerAt(cfg, g, n) && UntiedBlock(Retied(cfg, ties), g, n)
  {
    if n.parent.Some? && LedgerAt(cfg, g, n.parent.value).Some? {
      TxsSame(cfg, ties, LedgerAt(cfg, g, n.parent.value).value, n.block.txs, n.Height());
    }
  }

  /** The ledger of an untied path does not depend on how ties fall, nor does being untied. */
  lemma {:induction false} PathSame(cfg: Config, ties: Ties, g: Ledger, n: Node)
    requires UntiedPath(cfg, g, n)
    ensures LedgerAt(Retied(cfg, ties), g, n) == LedgerAt(cfg, g, n) && UntiedPath(Retied(cfg, ties), g, n)
  {
    if n.parent.Some? {
      UntiedAncestor(cfg, g, n.parent.value, n);
      PathSame(cfg, ties, g, n.parent.value);
    }
    assert UntiedBlock(cfg, g, n);
    BlockSame(cfg, ties, g, n);
    forall a | IsAncestor(a, n) ensures UntiedBlock(Retied(cfg, ties), g, a) {
      if a != n { assert UntiedPath(Retied(cfg, ties), g, n.parent.value); }
    }
  }

  lemma {:induction false} UntiedAncestor(cfg: Config, g: Ledger, a: Node, n: Node)
    requires UntiedPath(cfg, g, n) && IsAncestor(a, n)
    ensures UntiedPath(cfg, g, a)
  {
    forall b | IsAncestor(b, a) ensures UntiedBlock(cfg, g, b) { AncestorTransitive(b, a, n); }
  }
}
