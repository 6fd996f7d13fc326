/** The steps of a block producer node and its runs: transactions and blocks arrive, blocks are produced,
    storage fails, the node restarts. What all runs keep, whatever blocks arrive and however ties fall. */
module ChainSteps {
  import opened Common
  import opened LedgerTypes
  import opened Transactions
  import opened LedgerFacts
  import opened LedgerTies
  import opened BlockTree
  import opened ChainSpec
  import opened ChainLedger
  import opened PathTies
  import opened ChainPaths
  import opened ChainInv
  import opened ChainStore
  import opened ChainRestart
  import opened ChainReboot

  /** Blocks are tried with ties falling one way and become irreversible with ties falling another. */
  datatype Step =
    | Submit(tx: Tx)
    | Receive(block: Block, ties: Ties, settling: Ties)
    | Mint(order: seq<Tx>, height: nat, producer: nat, ties: Ties, settling: Ties)
    | Reboot(heads: seq<Node>, headTies: HeadTies)

  ghost predicate Enabled(c: Chain, s: Step)
    requires c.headIndex < |c.branches|
  {
    match s
    case Mint(order, _, _, _, _) => IsOrder(order, c.branches[c.headIndex].pack.unpacked)
    case Reboot(heads, _) => Enumerates(c.db.blocks, heads)
    case _ => true
  }

  ghost function Take(cfg: Config, confirms: nat, c: Chain, s: Step): Outcome
    requires c.headIndex < |c.branches|
  {
    match s
    case Submit(tx) => if Admits(c, tx) then StoreTx(c, tx) else Refused
    case Receive(b, ties, settling) => ApplyBlock(Retied(cfg, ties), Retied(cfg, settling), confirms, c, b)
    case Mint(order, height, producer, ties, settling) =>
      ProduceBlock(Retied(cfg, ties), Retied(cfg, settling), confirms, c, order, height, producer)
    case Reboot(heads, ties) => Restart(cfg, ties, c.db, heads)
  }

  /** Heights rise along every path. */
  ghost predicate Rises(c: Chain, s: Step)
    requires c.headIndex < |c.branches|
  {
    match s
    case Receive(b, _, _) => b.parent.Digest? ==> b.parent.block.height < b.height
    case Mint(_, height, _, _, _) => c.branches[c.headIndex].head.Height() < height
    case _ => true
  }

  /** From c to d: the irreversible block stays or moves to a descendant, and the head's count stays
      or goes up by one. */
  ghost predicate Advances(c: Chain, d: Chain) {
    && c.headIndex < |c.branches| && d.headIndex < |d.branches|
    && IsAncestor(c.lastIrre, d.lastIrre) && c.HeadCount() <= d.HeadCount() <= c.HeadCount() + 1
  }

  // ---------------------------------------------------------------- submitting

  lemma SubmitConsistent(confirms: nat, c: Chain, tx: Tx)
    requires Consistent(confirms, c) && Admits(c, tx)
    ensures var r := StoreTx(c, tx); r.Done? && Consistent(confirms, r.chain) && Advances(c, r.chain)
  {
    var d := StoreTx(c, tx).chain;
    forall i | 0 <= i < |d.branches|
      ensures d.branches[i].head == c.branches[i].head && Accounted(d.lastIrre, d.pool, d.branches[i])
    {
      assert Accounted(c.lastIrre, c.pool, c.branches[i]);
    }
  }

  lemma SubmitStored(c: Chain, tx: Tx)
    requires Stored(c) && Admits(c, tx)
    ensures StoreTx(c, tx).Done? && Stored(StoreTx(c, tx).chain)
  {
    SameHeads(c.db.blocks, c.lastIrre, c.branches, StoreTx(c, tx).chain.branches);
  }

  // ---------------------------------------------------------------- growing a branch

  function SideGrown(c: Chain, i: nat, br: Branch): Chain
    requires i < |c.branches|
  {
    c.(branches := c.branches[i := br], db := c.db.(blocks := c.db.blocks + [br.head.block]))
  }

  lemma SideConsistent(confirms: nat, c: Chain, i: nat, br: Branch)
    requires Consistent(confirms, c) && i < |c.branches| && Extends(c, i, br) && br.head.count <= c.HeadCount()
    ensures Consistent(confirms, SideGrown(c, i, br)) && Advances(c, SideGrown(c, i, br))
  {
    var d := SideGrown(c, i, br);
    assert i != c.headIndex;
    forall k | 0 <= k < |d.branches|
      ensures WellFormed(d.branches[k].head) && IsAncestor(d.lastIrre, d.branches[k].head)
      ensures Accounted(d.lastIrre, d.pool, d.branches[k])
    {
      assert k != i ==> d.branches[k] == c.branches[k];
    }
  }

  lemma SideStored(c: Chain, i: nat, br: Branch)
    requires Stored(c) && i < |c.branches| && Extends(c, i, br) && c.branches[i].head.Height() < br.head.Height()
    ensures Stored(SideGrown(c, i, br))
  {
    GrowLive(c.db.blocks, c.lastIrre, c.branches, i, br);
  }

  lemma OvertakeConsistent(confirms: nat, c: Chain, i: nat, br: Branch, irre: Node, l: Ledger)
    requires Overtakes(confirms, c, i, br, irre) && Pools(c)
    ensures var d := SwitchTo(c, i, br, irre, l);
      && Consistent(confirms, d) && Advances(c, d)
      && (Stored(c) && c.branches[i].head.Height() < br.head.Height() ==> Stored(d))
  {
    SwitchShape(confirms, c, i, br, irre, l);
    SwitchPools(confirms, c, i, br, irre, l);
    if Stored(c) && c.branches[i].head.Height() < br.head.Height() { SwitchLive(confirms, c, i, br, irre, l); }
  }

  lemma {:induction false} SwitchConsistent(cfg: Config, confirms: nat, c: Chain, i: nat, br: Branch)
    requires Consistent(confirms, c) && i < |c.branches| && Extends(c, i, br) && br.head.count > c.HeadCount()
    requires Switch(cfg, confirms, c, i, br).Done?
    ensures var d := Switch(cfg, confirms, c, i, br).chain;
      && Consistent(confirms, d) && Advances(c, d)
      && (Stored(c) && c.branches[i].head.Height() < br.head.Height() ==> Stored(d))
  {
    var irre := Irreversible(br.head, confirms);
    var l := ApplyNodes(cfg, c.immutable, NodesFrom(irre, c.lastIrre.count + 1)).value;
    SwitchIs(cfg, confirms, c, i, br, irre, l);
    OvertakeConsistent(confirms, c, i, br, irre, l);
  }

  lemma GrowConsistent(cfg: Config, con: Config, confirms: nat, c: Chain, b: Block)
    requires Consistent(confirms, c) && FindHead(c.branches, b.parent) < |c.branches|
    requires ApplyBlock(cfg, con, confirms, c, b).Done?
    ensures var d := ApplyBlock(cfg, con, confirms, c, b).chain;
      && Consistent(confirms, d) && Advances(c, d)
      && (Stored(c) && (b.parent.Digest? ==> b.parent.block.height < b.height) ==> Stored(d))
  {
    var i := FindHead(c.branches, b.parent);
    var br := Grow(cfg, c.branches[i], b).value;
    assert br.head.block == b;
    GrowExtends(cfg, c, i, b);
    if br.head.count > c.HeadCount() {
      SwitchConsistent(con, confirms, c, i, br);
    } else {
      SideConsistent(confirms, c, i, br);
      if Stored(c) && b.parent.block.height < b.height { SideStored(c, i, br); }
    }
  }

  // ---------------------------------------------------------------- forking

  function Forked(c: Chain, br: Branch): Chain {
    c.(branches := c.branches + [br], db := c.db.(blocks := c.db.blocks + [br.head.block]))
  }

  lemma {:induction false} ForkCount(confirms: nat, c: Chain, p: Node, i: nat)
    requires Shape(c) && Longest(confirms, c) && i < |c.branches| && IsAncestor(p, c.branches[i].head)
    requires p != c.branches[i].head
    ensures p.count + 1 <= c.HeadCount()
  {
    AncestorCount(p, c.branches[i].head);
  }

  lemma ForkConsistent(confirms: nat, c: Chain, br: Branch)
    requires Consistent(confirms, c) && WellFormed(br.head) && IsAncestor(c.lastIrre, br.head)
    requires Accounted(c.lastIrre, c.pool, br) && br.head.count <= c.HeadCount()
    ensures Consistent(confirms, Forked(c, br)) && Advances(c, Forked(c, br))
  {
    var d := Forked(c, br);
    forall k | 0 <= k < |d.branches|
      ensures WellFormed(d.branches[k].head) && IsAncestor(d.lastIrre, d.branches[k].head)
      ensures Accounted(d.lastIrre, d.pool, d.branches[k])
    {
      assert k < |c.branches| ==> d.branches[k] == c.branches[k];
    }
  }

  /** The branch a fork adds, from a node on the path of branch i. */
  ghost predicate NewFork(c: Chain, br: Branch, b: Block, i: nat)
    requires c.headIndex < |c.branches|
  {
    && i < |c.branches| && br.head.parent.Some? && br.head.block == b
    && WellFormed(br.head) && IsAncestor(c.lastIrre, br.head)
    && Accounted(c.lastIrre, c.pool, br) && br.head.count <= c.HeadCount()
    && IsAncestor(br.head.parent.value, c.branches[i].head)
  }

  lemma ForkFacts(cfg: Config, con: Config, confirms: nat, c: Chain, b: Block) returns (br: Branch, i: nat)
    requires Consistent(confirms, c) && FindHead(c.branches, b.parent) == |c.branches|
    requires ApplyBlock(cfg, con, confirms, c, b).Done?
    ensures NewFork(c, br, b, i) && ApplyBlock(cfg, con, confirms, c, b) == Done(Forked(c, br)) && !Known(c.branches, b)
    ensures NewBranch(cfg, c.lastIrre, br.head, c.immutable, c.pool) == Some(br)
  {
    var p := FindParent(c.branches, b.parent, c.lastIrre.count).value;
    br := NewBranch(cfg, c.lastIrre, NewNode(b, Some(p)), c.immutable, c.pool).value;
    ForkAccounted(cfg, c, b);
    FindParentExact(c.branches, b.parent, c.lastIrre.count);
    i :| 0 <= i < |c.branches| && IsAncestor(p, c.branches[i].head);
    ForkCount(confirms, c, p, i);
  }

  lemma ForkStored(c: Chain, br: Branch, b: Block, i: nat)
    requires Shape(c) && NewFork(c, br, b, i) && FindHead(c.branches, b.parent) == |c.branches|
    requires !Known(c.branches, b) && Stored(c) && (b.parent.Digest? ==> b.parent.block.height < b.height)
    ensures Stored(Forked(c, br))
  {
    assert forall k :: 0 <= k < |c.branches| ==> c.branches[k].head != br.head.parent.value;
    ForkLive(c.db.blocks, c.lastIrre, c.branches, br, i);
  }

  // ---------------------------------------------------------------- every step

  /** Every step keeps the branches above the irreversible block, a longest head and the accounting of
      the pool; it advances, and keeps the tables in step if heights rise. */
  lemma StepConsistent(cfg: Config, confirms: nat, c: Chain, s: Step)
    requires Consistent(confirms, c) && Enabled(c, s) && (s.Reboot? ==> Stored(c)) && Take(cfg, confirms, c, s).Done?
    ensures var d := Take(cfg, confirms, c, s).chain;
      Consistent(confirms, d) && Advances(c, d) && (Stored(c) && Rises(c, s) ==> Stored(d))
  {
    match s
    case Submit(tx) =>
      SubmitConsistent(confirms, c, tx);
      if Stored(c) { SubmitStored(c, tx); }
    case Receive(b, ties, settling) =>
      if FindHead(c.branches, b.parent) < |c.branches| {
        GrowConsistent(Retied(cfg, ties), Retied(cfg, settling), confirms, c, b);
      } else {
        var br, i := ForkFacts(Retied(cfg, ties), Retied(cfg, settling), confirms, c, b);
        ForkConsistent(confirms, c, br);
        if Stored(c) && Rises(c, s) { ForkStored(c, br, b, i); }
      }
    case Mint(order, height, producer, ties, settling) =>
      ProduceExtends(Retied(cfg, ties), c, c.headIndex, order, height, producer);
      SwitchConsistent(Retied(cfg, settling), confirms, c, c.headIndex,
                       Produce(Retied(cfg, ties), c.branches[c.headIndex], order, height, producer));
    case Reboot(heads, ties) => RestartRebuilds(cfg, ties, confirms, c, heads);
  }

  lemma SwitchLeaves(cfg: Config, confirms: nat, c: Chain, i: nat, br: Branch, t: Tx)
    requires i < |c.branches| && Switch(cfg, confirms, c, i, br).Done?
    requires t in c.pool && t !in Switch(cfg, confirms, c, i, br).chain.pool
    ensures var d := Switch(cfg, confirms, c, i, br).chain;
      t in TxsOf(NodesFrom(d.lastIrre, c.lastIrre.count + 1)) || Expired(d.immutable, t)
  {}

  /** A pending transaction leaves the pool only by becoming irreversible or by having its nonce
      used up. */
  lemma PoolLeaves(cfg: Config, confirms: nat, c: Chain, s: Step, t: Tx)
    requires c.headIndex < |c.branches| && !s.Reboot? && Take(cfg, confirms, c, s).Done?
    requires t in c.pool && t !in Take(cfg, confirms, c, s).chain.pool
    ensures var d := Take(cfg, confirms, c, s).chain;
      t in TxsOf(NodesFrom(d.lastIrre, c.lastIrre.count + 1)) || Expired(d.immutable, t)
  {
    if s.Receive? {
      var i := FindHead(c.branches, s.block.parent);
      if i < |c.branches| {
        var br := Grow(Retied(cfg, s.ties), c.branches[i], s.block).value;
        if br.head.count > c.HeadCount() { SwitchLeaves(Retied(cfg, s.settling), confirms, c, i, br, t); }
      }
    } else if s.Mint? {
      var br := Produce(Retied(cfg, s.ties), c.branches[c.headIndex], s.order, s.height, s.producer);
      SwitchLeaves(Retied(cfg, s.settling), confirms, c, c.headIndex, br, t);
    }
  }

  // ---------------------------------------------------------------- the irreversible ledger

  /** If no creation up to the irreversible block is tied, the irreversible ledger is that of its path. */
  ghost predicate Anchored(cfg: Config, g: Ledger, c: Chain) {
    UntiedPath(cfg, g, c.lastIrre) ==> LedgerAt(cfg, g, c.lastIrre) == Some(c.immutable)
  }

  lemma {:induction false} LedgerAfter(cfg: Config, g: Ledger, c: Chain, irre: Node, l: Ledger)
    requires WellFormed(irre) && IsAncestor(c.lastIrre, irre) && LedgerAt(cfg, g, c.lastIrre) == Some(c.immutable)
    requires ApplyNodes(cfg, c.immutable, NodesFrom(irre, c.lastIrre.count + 1)) == Some(l)
    ensures LedgerAt(cfg, g, irre) == Some(l)
  {
    ApplyNodesPath(cfg, g, irre, c.lastIrre);
  }

  lemma {:induction false} AnchoredSame(cfg: Config, ties: Ties, g: Ledger, c: Chain, irre: Node)
    requires IsAncestor(c.lastIrre, irre) && UntiedPath(cfg, g, irre) && Anchored(cfg, g, c)
    ensures LedgerAt(Retied(cfg, ties), g, c.lastIrre) == Some(c.immutable)
    ensures LedgerAt(Retied(cfg, ties), g, irre) == LedgerAt(cfg, g, irre)
  {
    UntiedAncestor(cfg, g, c.lastIrre, irre);
    PathSame(cfg, ties, g, c.lastIrre);
    PathSame(cfg, ties, g, irre);
  }

  lemma {:induction false} PathAnchored(cfg: Config, ties: Ties, g: Ledger, c: Chain, irre: Node, l: Ledger)
    requires WellFormed(irre) && IsAncestor(c.lastIrre, irre) && UntiedPath(cfg, g, irre) && Anchored(cfg, g, c)
    requires ApplyNodes(Retied(cfg, ties), c.immutable, NodesFrom(irre, c.lastIrre.count + 1)) == Some(l)
    ensures LedgerAt(cfg, g, irre) == Some(l)
  {
    AnchoredSame(cfg, ties, g, c, irre);
    LedgerAfter(Retied(cfg, ties), g, c, irre, l);
  }

  lemma {:induction false} SwitchAnchored(cfg: Config, ties: Ties, g: Ledger, confirms: nat, c: Chain, i: nat,
      br: Branch)
    requires Consistent(confirms, c) && i < |c.branches| && Extends(c, i, br) && br.head.count > c.HeadCount()
    requires Anchored(cfg, g, c) && Switch(Retied(cfg, ties), confirms, c, i, br).Done?
    ensures Anchored(cfg, g, Switch(Retied(cfg, ties), confirms, c, i, br).chain)
  {
    var irre := Irreversible(br.head, confirms);
    var l := ApplyNodes(Retied(cfg, ties), c.immutable, NodesFrom(irre, c.lastIrre.count + 1)).value;
    SwitchIs(Retied(cfg, ties), confirms, c, i, br, irre, l);
    IrreversibleMoves(confirms, c, i, br);
    assert Switch(Retied(cfg, ties), confirms, c, i, br).chain.lastIrre == irre;
    if UntiedPath(cfg, g, irre) { PathAnchored(cfg, ties, g, c, irre, l); }
  }

  lemma StepAnchored(cfg: Config, g: Ledger, confirms: nat, c: Chain, s: Step)
    requires Consistent(confirms, c) && Enabled(c, s) && (s.Reboot? ==> Stored(c)) && Take(cfg, confirms, c, s).Done?
    requires Anchored(cfg, g, c)
    ensures Anchored(cfg, g, Take(cfg, confirms, c, s).chain)
  {
    match s
    case Submit(tx) =>
    case Receive(b, ties, settling) =>
      var i := FindHead(c.branches, b.parent);
      if i < |c.branches| {
        var br := Grow(Retied(cfg, ties), c.branches[i], b).value;
        GrowExtends(Retied(cfg, ties), c, i, b);
        if br.head.count > c.HeadCount() { SwitchAnchored(cfg, settling, g, confirms, c, i, br); }
      }
    case Mint(order, height, producer, ties, settling) =>
      ProduceExtends(Retied(cfg, ties), c, c.headIndex, order, height, producer);
      SwitchAnchored(cfg, settling, g, confirms, c, c.headIndex,
                     Produce(Retied(cfg, ties), c.branches[c.headIndex], order, height, producer));
    case Reboot(heads, ties) => RestartRebuilds(cfg, ties, confirms, c, heads);
  }

  // ---------------------------------------------------------------- runs

  function Genesis(g: Ledger, b: Block): Chain {
    var n := NewNode(b, None);
    Chain(n, g, [Branch(n, Pack(g, {}, {}))], 0, {}, Storage([b], {}, b.Hash(), g))
  }

  /** Steps that are refused, or whose storage transaction fails, leave the node as it was. */
  ghost predicate Moves(cfg: Config, confirms: nat, c: Chain, s: Step, d: Chain) {
    c.headIndex < |c.branches| && Enabled(c, s) && (d == c || Take(cfg, confirms, c, s) == Done(d))
  }

  ghost predicate IsRun(cfg: Config, g: Ledger, confirms: nat, cs: seq<Chain>, ss: seq<Step>) {
    && |cs| == |ss| + 1 && Good(cfg, g)
    && (exists b: Block :: b.parent == NoParent && b.height == 0 && cs[0] == Genesis(g, b))
    && (forall k :: 0 <= k < |ss| ==> Moves(cfg, confirms, cs[k], ss[k], cs[k + 1]))
  }

  /** Heights rise in every step. */
  ghost predicate AllRise(cs: seq<Chain>, ss: seq<Step>)
    requires |cs| == |ss| + 1
  {
    forall k :: 0 <= k < |ss| && cs[k].headIndex < |cs[k].branches| ==> Rises(cs[k], ss[k])
  }

  ghost predicate NoReboot(ss: seq<Step>) {
    forall k :: 0 <= k < |ss| ==> !ss[k].Reboot?
  }

  /** A run whose restarts, if any, find what was stored: heights rise. */
  ghost predicate StoredRun(cfg: Config, g: Ledger, confirms: nat, cs: seq<Chain>, ss: seq<Step>) {
    IsRun(cfg, g, confirms, cs, ss) && (NoReboot(ss) || AllRise(cs, ss))
  }

  lemma GenesisInv(cfg: Config, g: Ledger, confirms: nat, b: Block)
    requires Good(cfg, g) && b.parent == NoParent && b.height == 0
    ensures Inv(cfg, g, confirms, Genesis(g, b)) && AllExact(cfg, g, Genesis(g, b)) && Stored(Genesis(g, b))
  {
    var c := Genesis(g, b);
    var n := c.lastIrre;
    assert NodeOf(b) == n;
    assert c.branches[0].head == n && IsAncestor(n, c.branches[0].head);
    assert Accounted(n, {}, c.branches[0]);
    assert Reached(c.branches, NodeOf(b));
  }

  lemma RunStart(cfg: Config, g: Ledger, confirms: nat, cs: seq<Chain>, ss: seq<Step>)
    requires IsRun(cfg, g, confirms, cs, ss)
    ensures Inv(cfg, g, confirms, cs[0]) && AllExact(cfg, g, cs[0]) && Stored(cs[0])
  {
    var b: Block :| b.parent == NoParent && b.height == 0 && cs[0] == Genesis(g, b);
    GenesisInv(cfg, g, confirms, b);
  }

  lemma MoveConsistent(cfg: Config, g: Ledger, confirms: nat, c: Chain, s: Step, d: Chain)
    requires Consistent(confirms, c) && Moves(cfg, confirms, c, s, d) && (s.Reboot? ==> Stored(c)) &&
      Anchored(cfg, g, c)
    ensures Consistent(confirms, d) && Advances(c, d) && Anchored(cfg, g, d) && (Stored(c) && Rises(c, s) ==> Stored(d))
  {
    if Take(cfg, confirms, c, s) == Done(d) {
      StepConsistent(cfg, confirms, c, s);
      StepAnchored(cfg, g, confirms, c, s);
    }
  }

  /** Every state of every run: consistent, anchored, and with rising heights described by its tables. */
  lemma {:induction false} RunConsistent(cfg: Config, g: Ledger, confirms: nat, cs: seq<Chain>, ss: seq<Step>, k: nat)
    requires StoredRun(cfg, g, confirms, cs, ss) && k <= |ss|
    ensures Consistent(confirms, cs[k]) && Anchored(cfg, g, cs[k]) && (AllRise(cs, ss) ==> Stored(cs[k]))
    ensures k > 0 ==> Advances(cs[k - 1], cs[k])
  {
    if k == 0 {
      RunStart(cfg, g, confirms, cs, ss);
    } else {
      RunConsistent(cfg, g, confirms, cs, ss, k - 1);
      assert Moves(cfg, confirms, cs[k - 1], ss[k - 1], cs[k]);
      MoveConsistent(cfg, g, confirms, cs[k - 1], ss[k - 1], cs[k]);
    }
  }

  /** In every state of every run the irreversible block is the block of the head's path that has the required number
      of confirmations above it, or genesis while there are not so many. */
  lemma RunConfirmed(cfg: Config, g: Ledger, confirms: nat, cs: seq<Chain>, ss: seq<Step>, k: nat)
    requires StoredRun(cfg, g, confirms, cs, ss) && k <= |ss|
    ensures var c := cs[k];
      && c.headIndex < |c.branches| && IsAncestor(c.lastIrre, c.branches[c.headIndex].head)
      && (if c.HeadCount() <= confirms then c.lastIrre.count == 0 else c.lastIrre.count + confirms == c.HeadCount())
  {
    RunConsistent(cfg, g, confirms, cs, ss, k);
  }

  lemma IrreversibleNext(cfg: Config, g: Ledger, confirms: nat, cs: seq<Chain>, ss: seq<Step>, k: nat)
    requires StoredRun(cfg, g, confirms, cs, ss) && 0 < k <= |ss|
    ensures IsAncestor(cs[k - 1].lastIrre, cs[k].lastIrre)
  {
    RunConsistent(cfg, g, confirms, cs, ss, k);
  }

  lemma {:induction false} IrreversibleOrder(
    cfg: Config, g: Ledger, confirms: nat, cs: seq<Chain>, ss: seq<Step>, j: nat, k: nat)
    requires StoredRun(cfg, g, confirms, cs, ss) && j <= k <= |ss|
    ensures IsAncestor(cs[j].lastIrre, cs[k].lastIrre)
  {
    if j < k {
      IrreversibleOrder(cfg, g, confirms, cs, ss, j, k - 1);
      IrreversibleNext(cfg, g, confirms, cs, ss, k);
      AncestorTransitive(cs[j].lastIrre, cs[k - 1].lastIrre, cs[k].lastIrre);
    }
  }

  /** From c to d nothing irreversible is lost: it is on the path of d's irreversible block and of
      all its branches, and unless a creation on that path is tied, d's irreversible ledger is c's with
      the blocks between applied. */
  ghost predicate Later(cfg: Config, g: Ledger, c: Chain, d: Chain) {
    && IsAncestor(c.lastIrre, d.lastIrre)
    && (forall i :: 0 <= i < |d.branches| ==> IsAncestor(c.lastIrre, d.branches[i].head))
    && (UntiedPath(cfg, g, d.lastIrre) ==>
          ApplyNodes(cfg, c.immutable, NodesFrom(d.lastIrre, c.lastIrre.count + 1)) == Some(d.immutable))
  }

  lemma {:induction false} LaterBranches(last: Node, d: Chain)
    requires Shape(d) && IsAncestor(last, d.lastIrre)
    ensures forall i :: 0 <= i < |d.branches| ==> IsAncestor(last, d.branches[i].head)
  {
    forall i | 0 <= i < |d.branches| ensures IsAncestor(last, d.branches[i].head) {
      AncestorTransitive(last, d.lastIrre, d.branches[i].head);
    }
  }

  lemma {:induction false} LedgerBetween(cfg: Config, g: Ledger, c: Chain, d: Chain)
    requires WellFormed(d.lastIrre) && IsAncestor(c.lastIrre, d.lastIrre)
    requires LedgerAt(cfg, g, c.lastIrre) == Some(c.immutable) && LedgerAt(cfg, g, d.lastIrre) == Some(d.immutable)
    ensures ApplyNodes(cfg, c.immutable, NodesFrom(d.lastIrre, c.lastIrre.count + 1)) == Some(d.immutable)
  {
    ApplyNodesPath(cfg, g, d.lastIrre, c.lastIrre);
  }

  lemma {:induction false} BothAnchored(cfg: Config, g: Ledger, c: Chain, d: Chain)
    requires IsAncestor(c.lastIrre, d.lastIrre) && UntiedPath(cfg, g, d.lastIrre)
    requires Anchored(cfg, g, c) && Anchored(cfg, g, d)
    ensures LedgerAt(cfg, g, c.lastIrre) == Some(c.immutable) && LedgerAt(cfg, g, d.lastIrre) == Some(d.immutable)
  {
    UntiedAncestor(cfg, g, c.lastIrre, d.lastIrre);
  }

  lemma {:induction false} LaterLedger(cfg: Config, g: Ledger, c: Chain, d: Chain)
    requires WellFormed(d.lastIrre) && IsAncestor(c.lastIrre, d.lastIrre) && UntiedPath(cfg, g, d.lastIrre)
    requires Anchored(cfg, g, c) && Anchored(cfg, g, d)
    ensures ApplyNodes(cfg, c.immutable, NodesFrom(d.lastIrre, c.lastIrre.count + 1)) == Some(d.immutable)
  {
    BothAnchored(cfg, g, c, d);
    LedgerBetween(cfg, g, c, d);
  }

  lemma AnchoredLater(cfg: Config, g: Ledger, c: Chain, d: Chain)
    requires Shape(d) && Anchored(cfg, g, c) && Anchored(cfg, g, d) && IsAncestor(c.lastIrre, d.lastIrre)
    ensures Later(cfg, g, c, d)
  {
    LaterBranches(c.lastIrre, d);
    if UntiedPath(cfg, g, d.lastIrre) { LaterLedger(cfg, g, c, d); }
  }

  lemma RunAnchored(cfg: Config, g: Ledger, confirms: nat, cs: seq<Chain>, ss: seq<Step>, k: nat)
    requires StoredRun(cfg, g, confirms, cs, ss) && k <= |ss|
    ensures Anchored(cfg, g, cs[k]) && Shape(cs[k])
  {
    RunConsistent(cfg, g, confirms, cs, ss, k);
  }

  /** What was irreversible once stays so in every later state of every run. */
  lemma Irreversibility(cfg: Config, g: Ledger, confirms: nat, cs: seq<Chain>, ss: seq<Step>, j: nat, k: nat)
    requires StoredRun(cfg, g, confirms, cs, ss) && j <= k <= |ss|
    ensures Later(cfg, g, cs[j], cs[k])
  {
    IrreversibleOrder(cfg, g, confirms, cs, ss, j, k);
    RunAnchored(cfg, g, confirms, cs, ss, j);
    RunAnchored(cfg, g, confirms, cs, ss, k);
    AnchoredLater(cfg, g, cs[j], cs[k]);
  }

  // ---------------------------------------------------------------- restarts in runs

  lemma {:induction false} AnchoredLedger(cfg: Config, g: Ledger, c: Chain)
    requires Shape(c) && Anchored(cfg, g, c) && UntiedChain(cfg, g, c)
    ensures LedgerAt(cfg, g, c.lastIrre) == Some(c.immutable)
  {
    UntiedAncestor(cfg, g, c.lastIrre, c.branches[c.headIndex].head);
  }

  /** In every state of a run with rising heights: a restart succeeds exactly if all branches can be replayed
      on the irreversible ledger, which without ties means that their paths are valid. */
  lemma RestartInRun(cfg: Config, g: Ledger, confirms: nat, cs: seq<Chain>, ss: seq<Step>, k: nat,
      ties: HeadTies, heads: seq<Node>)
    requires IsRun(cfg, g, confirms, cs, ss) && AllRise(cs, ss) && k <= |ss| && Enumerates(cs[k].db.blocks, heads)
    ensures var r := Restart(cfg, ties, cs[k].db, heads);
      && (r.Done? <==> AllReplay(cfg, ties, cs[k])) && (r.Done? || r.Refused?)
      && (UntiedChain(cfg, g, cs[k]) ==> (r.Done? <==> AllValid(cfg, g, cs[k])))
      && (r.Done? ==> Rebuilt(confirms, cs[k], r.chain))
  {
    RunReady(cfg, g, confirms, cs, ss, k, heads);
    RestartIff(cfg, ties, confirms, cs[k], heads);
    if UntiedChain(cfg, g, cs[k]) {
      AnchoredLedger(cfg, g, cs[k]);
      ReplayIffValid(cfg, ties, g, cs[k]);
    }
  }

  lemma RunReady(cfg: Config, g: Ledger, confirms: nat, cs: seq<Chain>, ss: seq<Step>, k: nat, heads: seq<Node>)
    requires IsRun(cfg, g, confirms, cs, ss) && AllRise(cs, ss) && k <= |ss| && Enumerates(cs[k].db.blocks, heads)
    ensures Ready(confirms, cs[k], heads) && Anchored(cfg, g, cs[k])
  {
    RunConsistent(cfg, g, confirms, cs, ss, k);
  }
}
