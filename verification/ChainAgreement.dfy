/** What one node produces another accepts, and both then preview the same ledger up to ghost accounts. */
module ChainAgreement {
  import opened Common
  import opened LedgerTypes
  import opened Transactions
  import opened LedgerFacts
  import opened BlockTree
  import opened ChainSpec
  import opened ChainLedger
  import opened ChainPaths
  import opened ChainInv
  import opened LedgerTies
  import opened PathTies

  // ---------------------------------------------------------------- acceptance

  /** Transactions valid on a ledger are valid on it with ghost accounts added. */
  lemma {:induction false} ApplyAllExt(cfg: Config, v: Ledger, w: Ledger, txs: seq<Tx>, h: nat)
    requires Ext(v, w) && ApplyAll(cfg, w, txs, h).Some?
    ensures ApplyAll(cfg, v, txs, h).Some? && Ext(ApplyAll(cfg, v, txs, h).value, ApplyAll(cfg, w, txs, h).value)
  {
    if txs != [] {
      var init, last := txs[..|txs| - 1], txs[|txs| - 1];
      ApplyAllExt(cfg, v, w, init, h);
      ApplyExt(cfg, ApplyAll(cfg, v, init, h).value, ApplyAll(cfg, w, init, h).value, last, h);
    }
  }

  /** A valid block is new to every path it extends, however long that path's packed set is. */
  lemma {:induction false} ValidIsNew(cfg: Config, g: Ledger, head: Node, c: nat)
    requires WellFormed(head) && head.parent.Some? && LedgerAt(cfg, g, head).Some? && c <= head.parent.value.count
    ensures NoDup(head.block.txs) && ToSet(head.block.txs) !! ToSet(TxsAfter(head.parent.value, c))
  {
    var p := head.parent.value;
    NoReplay(cfg, g, head);
    NoDupConcat(TxsAfter(p, 0), head.block.txs);
    AtIsAncestor(p, c);
    TxsSplit(p, At(p, c), 0);
    NoDupConcat(TxsAfter(At(p, c), 0), TxsAfter(p, c));
  }

  /** A block that is valid on its path, small enough and signed is accepted by every node that has
      a branch ending at its parent, whatever that node's irreversible block, pool and ghost
      accounts are. */
  lemma {:induction false} ValidAccepted(cfg: Config, g: Ledger, irre: Node, pool: set<Tx>, br: Branch, head: Node)
    requires WellFormed(head) && head.parent == Some(br.head) && LedgerAt(cfg, g, head).Some?
    requires |head.block.txs| <= MAX_TXS_PER_BLOCK && forall t :: t in head.block.txs ==> t.Verify()
    requires irre.count <= br.head.count && Accounted(irre, pool, br) && Previews(cfg, g, br)
    ensures Grow(cfg, br, head.block).Some?
  {
    ValidIsNew(cfg, g, head, irre.count);
    ApplyAllExt(cfg, br.pack.preview, LedgerAt(cfg, g, br.head).value, head.block.txs, head.Height());
    PackTxsWorks(cfg, br.pack, head.block.txs, head.Height());
  }

  /** The two ledgers previewed after block n differ from the exact one by ghost accounts only. */
  ghost predicate Agree(cfg: Config, g: Ledger, n: Node, x: Ledger, y: Ledger) {
    LedgerAt(cfg, g, n).Some? && Ext(x, LedgerAt(cfg, g, n).value) && Ext(y, LedgerAt(cfg, g, n).value)
  }

  lemma MadePreviews(cfg: Config, ties: Ties, g: Ledger, confirms: nat, c: Chain, order: seq<Tx>, height: nat,
      producer: nat)
    requires Inv(cfg, g, confirms, c) && IsOrder(order, c.branches[c.headIndex].pack.unpacked)
    requires UntiedPath(cfg, g, Produce(Retied(cfg, ties), c.branches[c.headIndex], order, height, producer).head)
    ensures var made := Produce(Retied(cfg, ties), c.branches[c.headIndex], order, height, producer);
      && Extends(c, c.headIndex, made) && Previews(cfg, g, made)
      && |made.head.block.txs| <= MAX_TXS_PER_BLOCK && forall t :: t in made.head.block.txs ==> t.Verify()
  {
    var con := Retied(cfg, ties);
    var made := Produce(con, c.branches[c.headIndex], order, height, producer);
    ProduceExtends(con, c, c.headIndex, order, height, producer);
    InvSame(cfg, ties, g, confirms, c);
    ProducePreviews(con, g, confirms, c, c.headIndex, order, height, producer);
    PreviewsSame(cfg, ties, g, made);
    AncestorCount(c.lastIrre, c.branches[c.headIndex].head);
    assert forall t :: t in made.head.block.txs ==> t in TxsAfter(made.head, c.lastIrre.count);
  }

  /** A valid block without ties is accepted however ties fall, and its branch then previews the exact
      ledger of its path up to ghost accounts. */
  lemma {:induction false} AcceptedAgrees(cfg: Config, ties: Ties, g: Ledger, irre: Node, pool: set<Tx>, br: Branch,
      head: Node)
    requires WellFormed(head) && head.parent == Some(br.head) && LedgerAt(cfg, g, head).Some? &&
      UntiedPath(cfg, g, head)
    requires |head.block.txs| <= MAX_TXS_PER_BLOCK && forall t :: t in head.block.txs ==> t.Verify()
    requires irre.count <= br.head.count && Accounted(irre, pool, br) && Previews(cfg, g, br)
    ensures var r := Grow(Retied(cfg, ties), br, head.block);
      r.Some? && r.value.head == head && Ext(r.value.pack.preview, LedgerAt(cfg, g, head).value)
  {
    var con := Retied(cfg, ties);
    PathSame(cfg, ties, g, head);
    UntiedAncestor(cfg, g, br.head, head);
    PreviewsSame(cfg, ties, g, br);
    ValidAccepted(con, g, irre, pool, br, head);
    GrowPreviews(con, g, br, head.block);
  }

  /** What a node produces on its head every other node accepts on that head, however ties fall for the
      two, and both then preview the same ledger up to ghost accounts. */
  lemma ProducedAccepted(cfg: Config, making: Ties, taking: Ties, g: Ledger, confirms: nat, c: Chain,
                         order: seq<Tx>, height: nat, producer: nat, irre: Node, pool: set<Tx>, br: Branch)
    requires Inv(cfg, g, confirms, c) && IsOrder(order, c.branches[c.headIndex].pack.unpacked)
    requires UntiedPath(cfg, g, Produce(Retied(cfg, making), c.branches[c.headIndex], order, height, producer).head)
    requires br.head == c.branches[c.headIndex].head
    requires irre.count <= br.head.count && Accounted(irre, pool, br) && Previews(cfg, g, br)
    ensures var made := Produce(Retied(cfg, making), c.branches[c.headIndex], order, height, producer);
            var taken := Grow(Retied(cfg, taking), br, made.head.block);
      && taken.Some? && taken.value.head == made.head
      && Agree(cfg, g, made.head, made.pack.preview, taken.value.pack.preview)
  {
    MadePreviews(cfg, making, g, confirms, c, order, height, producer);
    AcceptedAgrees(cfg, taking, g, irre, pool, br,
                   Produce(Retied(cfg, making), c.branches[c.headIndex], order, height, producer).head);
  }
}
