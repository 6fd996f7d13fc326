/** When a received block is taken, and what it leads to. */
module ChainReceive {
  import opened Common
  import opened LedgerTypes
  import opened Transactions
  import opened LedgerTies
  import opened BlockTree
  import opened ChainSpec
  import opened ChainLedger
  import opened PathTies
  import opened ChainPaths
  import opened ChainInv
  import opened ChainStore
  import opened ChainRestart
  import opened ChainReboot
  import opened ChainSteps

  /** n lies on the path of some branch. */
  ghost predicate OnBranch(c: Chain, n: Node) {
    exists i :: 0 <= i < |c.branches| && IsAncestor(n, c.branches[i].head)
  }

  // ---------------------------------------------------------------- forks

  /** No branch ends at the parent of b. */
  ghost predicate NoHead(c: Chain, b: Block) {
    forall i :: 0 <= i < |c.branches| ==> c.branches[i].head.Hash() != b.parent
  }

  /** The parent of b lies on some branch at or above the irreversible block. */
  ghost predicate HasParent(c: Chain, b: Block) {
    b.parent.Digest? && NodeOf(b.parent.block).count >= c.lastIrre.count && OnBranch(c, NodeOf(b.parent.block))
  }

  /** The blocks after the irreversible one up to n are of allowed size, hold distinct verified transactions, and
      apply to the irreversible ledger. */
  ghost predicate Acceptable(cfg: Config, c: Chain, n: Node) {
    && Sizes(n, c.lastIrre.count) && NoDup(TxsAfter(n, c.lastIrre.count))
    && (forall t :: t in TxsAfter(n, c.lastIrre.count) ==> t.Verify())
    && Replays(cfg, c, n)
  }

  /** br ends in n, shows what applying its blocks gives, and splits their transactions and the pool. */
  ghost predicate Accepted(cfg: Config, c: Chain, n: Node, br: Branch) {
    br.head == n && Replayed(cfg, c, br) && Accounted(c.lastIrre, c.pool, br)
  }

  lemma HeadFound(c: Chain, b: Block)
    ensures NoHead(c, b) <==> FindHead(c.branches, b.parent) == |c.branches|
  {}

  lemma ParentFound(c: Chain, b: Block)
    requires Shape(c)
    ensures FindParent(c.branches, b.parent, c.lastIrre.count) ==
      if HasParent(c, b) then Some(NodeOf(b.parent.block)) else None
  {
    FindParentExact(c.branches, b.parent, c.lastIrre.count);
    match FindParent(c.branches, b.parent, c.lastIrre.count)
    case Some(p) =>
      var i :| 0 <= i < |c.branches| && IsAncestor(p, c.branches[i].head);
      AncestorCount(p, c.branches[i].head);
      WellFormedIsNodeOf(p);
    case None =>
      if HasParent(c, b) { NodeOfWellFormed(b.parent.block); }
  }

  lemma {:induction false} ForkRests(c: Chain, b: Block)
    requires Shape(c) && HasParent(c, b)
    ensures var n := NodeOf(b);
      n == NewNode(b, Some(NodeOf(b.parent.block))) && WellFormed(n) && IsAncestor(c.lastIrre, n)
  {
    var p := NodeOf(b.parent.block);
    var i :| 0 <= i < |c.branches| && IsAncestor(p, c.branches[i].head);
    NodeOfWellFormed(b);
    AncestorsOrdered(c.lastIrre, p, c.branches[i].head);
  }

  /** Pooled transactions are verified, so only those of the blocks count. */
  lemma {:induction false} PackableIff(c: Chain, n: Node)
    requires forall t :: t in c.pool ==> t.Verify()
    ensures PathPackable(c.pool, n, c.lastIrre.count) <==>
      && Sizes(n, c.lastIrre.count) && NoDup(TxsAfter(n, c.lastIrre.count))
      && forall t :: t in TxsAfter(n, c.lastIrre.count) ==> t.Verify()
  {}

  lemma {:induction false} BranchSplits(cfg: Config, c: Chain, n: Node, br: Branch)
    requires WellFormed(n) && IsAncestor(c.lastIrre, n) && forall t :: t in c.pool ==> t.Verify()
    requires NewBranch(cfg, c.lastIrre, n, c.immutable, c.pool) == Some(br)
    ensures br.head == n && Accounted(c.lastIrre, c.pool, br)
  {
    PackPathSets(cfg, Pack(c.immutable, {}, c.pool), n, c.lastIrre);
  }

  lemma {:induction false} BranchReplayed(cfg: Config, c: Chain, br: Branch)
    requires WellFormed(br.head) && IsAncestor(c.lastIrre, br.head) && Accounted(c.lastIrre, c.pool, br)
    requires NewBranch(cfg, c.lastIrre, br.head, c.immutable, c.pool) == Some(br)
    ensures Replayed(cfg, c, br)
  {
    RebuildShows(cfg, c.lastIrre, c.immutable, c.pool, br);
  }

  lemma {:induction false} BranchTaken(cfg: Config, c: Chain, n: Node)
    requires WellFormed(n) && IsAncestor(c.lastIrre, n) && forall t :: t in c.pool ==> t.Verify()
    ensures NewBranch(cfg, c.lastIrre, n, c.immutable, c.pool).Some? <==> Acceptable(cfg, c, n)
  {
    PackPathIff(cfg, Pack(c.immutable, {}, c.pool), n, c.lastIrre);
    PackableIff(c, n);
  }

  lemma {:induction false} BranchIff(cfg: Config, c: Chain, n: Node)
    requires Pools(c) && WellFormed(n) && IsAncestor(c.lastIrre, n)
    ensures var br := NewBranch(cfg, c.lastIrre, n, c.immutable, c.pool);
      && (br.Some? <==> Acceptable(cfg, c, n))
      && (br.Some? ==> Accepted(cfg, c, n, br.value))
  {
    var br := NewBranch(cfg, c.lastIrre, n, c.immutable, c.pool);
    BranchTaken(cfg, c, n);
    if br.Some? {
      BranchSplits(cfg, c, n, br.value);
      BranchReplayed(cfg, c, br.value);
    }
  }

  /** A block whose parent ends no branch is taken exactly if it is not known, its parent is on a branch above the
      irreversible block, and its path can be accepted. It then ends a new branch beside the old ones. */
  lemma {:induction false} ForkIff(cfg: Config, con: Config, confirms: nat, c: Chain, b: Block)
    requires Consistent(confirms, c) && NoHead(c, b)
    ensures var r := ApplyBlock(cfg, con, confirms, c, b);
      && (r.Done? <==> !Known(c.branches, b) && HasParent(c, b) && Acceptable(cfg, c, NodeOf(b)))
      && (r.Done? || r.Refused?)
      && (r.Done? ==> exists br :: Accepted(cfg, c, NodeOf(b), br) && r.chain == Forked(c, br))
  {
    HeadFound(c, b);
    ParentFound(c, b);
    if HasParent(c, b) {
      ForkRests(c, b);
      BranchIff(cfg, c, NodeOf(b));
    }
  }

  /** With rising heights a block is known exactly if it lies on a branch. */
  lemma {:induction false} KnownIff(c: Chain, b: Block)
    requires Stored(c)
    ensures Known(c.branches, b) <==> OnBranch(c, NodeOf(b))
  {
    NodeOfWellFormed(b);
    forall i | 0 <= i < |c.branches|
      ensures KnownOn(c.branches[i].head, b) <==> IsAncestor(NodeOf(b), c.branches[i].head)
    {
      KnownHere(c, b, i);
    }
  }

  lemma {:induction false} KnownHere(c: Chain, b: Block, i: nat)
    requires Stored(c) && i < |c.branches|
    ensures KnownOn(c.branches[i].head, b) <==> IsAncestor(NodeOf(b), c.branches[i].head)
  {
    var n := c.branches[i].head;
    NodeOfWellFormed(b);
    WellFormedIsNodeOf(n);
    TreePath(c.db.blocks, n.block, n);
    if KnownOn(n, b) { KnownIsOn(n, b); }
    if IsAncestor(NodeOf(b), n) { AtHeightExact(n, NodeOf(b)); }
  }

  /** A block that is found at its height is on the branch, rising or not. */
  lemma {:induction false} KnownIsOn(n: Node, b: Block)
    requires WellFormed(n) && KnownOn(n, b)
    ensures IsAncestor(NodeOf(b), n)
  {
    AtHeightAncestor(n, b.height);
    var a := AtHeight(n, b.height).value;
    AncestorCount(a, n);
    WellFormedIsNodeOf(a);
  }

  // ---------------------------------------------------------------- growing

  /** The block is of allowed size, its transactions can be packed on the branch, and they apply to its preview. */
  ghost predicate Fits(cfg: Config, br: Branch, b: Block) {
    |b.txs| <= MAX_TXS_PER_BLOCK && Packable(br.pack, b.txs) && ApplyAll(cfg, br.pack.preview, b.txs, b.height).Some?
  }

  lemma {:induction false} GrowIs(cfg: Config, br: Branch, b: Block)
    ensures Grow(cfg, br, b).Some? <==> Fits(cfg, br, b)
    ensures Grow(cfg, br, b).Some? ==> var d := Grow(cfg, br, b).value;
      && d.head == NewNode(b, Some(br.head))
      && ApplyAll(cfg, br.pack.preview, b.txs, b.height) == Some(d.pack.preview)
      && d.pack.packed == br.pack.packed + ToSet(b.txs) && d.pack.unpacked == br.pack.unpacked - ToSet(b.txs)
  {
    PackTxsIff(cfg, br.pack, b.txs, b.height);
  }

  /** Whether the blocks that br makes irreversible apply to the irreversible ledger. */
  ghost predicate Settles(con: Config, confirms: nat, c: Chain, br: Branch) {
    Replays(con, c, Irreversible(br.head, confirms))
  }

  lemma SwitchSettles(con: Config, confirms: nat, c: Chain, i: nat, br: Branch)
    requires Consistent(confirms, c) && i < |c.branches| && Extends(c, i, br) && br.head.count > c.HeadCount()
    ensures var r := Switch(con, confirms, c, i, br);
      && (r.Done? <==> Settles(con, confirms, c, br)) && (!r.Done? ==> r.Fatal?)
      && (r.Done? ==> r.chain.headIndex < |r.chain.branches| && r.chain.branches[r.chain.headIndex].head == br.head)
  {
    var irre := Irreversible(br.head, confirms);
    SwitchOutcome(con, confirms, c, i, br, irre);
    var l := ApplyNodes(con, c.immutable, NodesFrom(irre, c.lastIrre.count + 1));
    if l.Some? { SwitchShape(confirms, c, i, br, irre, l.value); }
  }

  /** A block whose parent ends a branch: it is refused exactly if it does not fit there. A branch that stays no
      longer than the head is replaced by the grown one; a longer one becomes the head, and the node exits exactly
      if the blocks this makes irreversible do not apply. */
  lemma GrowIff(cfg: Config, con: Config, confirms: nat, c: Chain, b: Block, i: nat)
    requires Consistent(confirms, c) && i == FindHead(c.branches, b.parent) && i < |c.branches|
    ensures var r := ApplyBlock(cfg, con, confirms, c, b); var br := c.branches[i];
      && (r.Refused? <==> !Fits(cfg, br, b))
      && (Fits(cfg, br, b) ==> var d := Grow(cfg, br, b).value;
           if d.head.count <= c.HeadCount() then r == Done(SideGrown(c, i, d))
           else
             && (r.Fatal? <==> !Settles(con, confirms, c, d))
             && (r.Done? ==>
                  r.chain.headIndex < |r.chain.branches| && r.chain.branches[r.chain.headIndex].head == d.head))
  {
    GrowIs(cfg, c.branches[i], b);
    if Fits(cfg, c.branches[i], b) {
      GrowExtends(cfg, c, i, b);
      var d := Grow(cfg, c.branches[i], b).value;
      if d.head.count > c.HeadCount() { SwitchSettles(con, confirms, c, i, d); }
    }
  }
}
