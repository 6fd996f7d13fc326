/** Catching up: a node that receives the blocks of a longer valid path ends with that path's last block as its head,
    in whatever state it was. */
module ChainCatchUp {
  import opened Common
  import opened LedgerTypes
  import opened Transactions
  import opened LedgerFacts
  import opened LedgerTies
  import opened BlockTree
  import opened ChainSpec
  import opened ChainLedger
  import opened PathTies
  import opened ChainPaths
  import opened ChainInv
  import opened ChainStore
  import opened ChainRestart
  import opened ChainReboot
  import opened ChainSteps
  import opened ChainReceive
  import opened ChainAgreement
  import opened ChainProduce

  // ---------------------------------------------------------------- previews of valid paths

  /** If the path of the branch is valid and not tied, the branch previews its ledger, up to ghost accounts. */
  ghost predicate TruthfulAt(cfg: Config, g: Ledger, br: Branch) {
    LedgerAt(cfg, g, br.head).Some? && UntiedPath(cfg, g, br.head) ==> Previews(cfg, g, br)
  }

  ghost predicate Truthful(cfg: Config, g: Ledger, c: Chain) {
    forall i :: 0 <= i < |c.branches| ==> TruthfulAt(cfg, g, c.branches[i])
  }

  lemma {:induction false} GrowValid(con: Config, g: Ledger, br: Branch, b: Block)
    requires Previews(con, g, br) && Grow(con, br, b).Some? && LedgerAt(con, g, Grow(con, br, b).value.head).Some?
    ensures Previews(con, g, Grow(con, br, b).value)
  {
    GrowPreviews(con, g, br, b);
  }

  lemma {:induction false} GrowTruthful(cfg: Config, ties: Ties, g: Ledger, br: Branch, b: Block)
    requires TruthfulAt(cfg, g, br) && Grow(Retied(cfg, ties), br, b).Some?
    ensures TruthfulAt(cfg, g, Grow(Retied(cfg, ties), br, b).value)
  {
    var con := Retied(cfg, ties);
    var d := Grow(con, br, b).value;
    if LedgerAt(cfg, g, d.head).Some? && UntiedPath(cfg, g, d.head) {
      assert IsAncestor(br.head, d.head);
      UntiedAncestor(cfg, g, br.head, d.head);
      LedgerAtAncestor(cfg, g, d.head, br.head);
      PreviewsSame(cfg, ties, g, br);
      PathSame(cfg, ties, g, d.head);
      GrowValid(con, g, br, b);
      PreviewsSame(cfg, ties, g, d);
    }
  }

  lemma {:induction false} ProduceTruthful(cfg: Config, ties: Ties, g: Ledger, c: Chain, order: seq<Tx>, height: nat,
      producer: nat)
    requires Shape(c) && Pools(c) && Good(cfg, g) && Anchored(cfg, g, c)
    requires IsOrder(order, c.branches[c.headIndex].pack.unpacked) && TruthfulAt(cfg, g, c.branches[c.headIndex])
    ensures TruthfulAt(cfg, g, Produce(Retied(cfg, ties), c.branches[c.headIndex], order, height, producer))
  {
    var br := c.branches[c.headIndex];
    var d := Produce(Retied(cfg, ties), br, order, height, producer);
    if LedgerAt(cfg, g, d.head).Some? && UntiedPath(cfg, g, d.head) {
      assert IsAncestor(br.head, d.head);
      UntiedAncestor(cfg, g, br.head, d.head);
      LedgerAtAncestor(cfg, g, d.head, br.head);
      PreviewsSame(cfg, ties, g, br);
      AnchoredTied(cfg, ties, g, c);
      ProduceOn(Retied(cfg, ties), g, c, c.headIndex, order, height, producer);
      PreviewsSame(cfg, ties, g, d);
    }
  }

  lemma {:induction false} AnchoredTied(cfg: Config, ties: Ties, g: Ledger, c: Chain)
    requires Shape(c) && Anchored(cfg, g, c) && UntiedPath(cfg, g, c.branches[c.headIndex].head)
    ensures LedgerAt(Retied(cfg, ties), g, c.lastIrre) == Some(c.immutable)
  {
    UntiedAncestor(cfg, g, c.lastIrre, c.branches[c.headIndex].head);
    PathSame(cfg, ties, g, c.lastIrre);
  }

  /** A branch that shows what applying its blocks to the irreversible ledger gives. */
  lemma {:induction false} ReplayedTruthful(cfg: Config, ties: Ties, g: Ledger, c: Chain, br: Branch)
    requires Anchored(cfg, g, c) && WellFormed(br.head) && IsAncestor(c.lastIrre, br.head)
    requires Replayed(Retied(cfg, ties), c, br)
    ensures TruthfulAt(cfg, g, br)
  {
    if LedgerAt(cfg, g, br.head).Some? && UntiedPath(cfg, g, br.head) {
      UntiedAncestor(cfg, g, c.lastIrre, br.head);
      BranchValid(cfg, ties, g, c, br.head);
    }
  }

  lemma SwitchTruthful(cfg: Config, con: Config, g: Ledger, confirms: nat, c: Chain, i: nat, br: Branch)
    requires Consistent(confirms, c) && i < |c.branches| && Extends(c, i, br) && br.head.count > c.HeadCount()
    requires Truthful(cfg, g, c) && TruthfulAt(cfg, g, br) && Switch(con, confirms, c, i, br).Done?
    ensures Truthful(cfg, g, Switch(con, confirms, c, i, br).chain)
  {
    var irre := Irreversible(br.head, confirms);
    SwitchOutcome(con, confirms, c, i, br, irre);
    var l := ApplyNodes(con, c.immutable, NodesFrom(irre, c.lastIrre.count + 1)).value;
    var d := SwitchTo(c, i, br, irre, l);
    forall k | 0 <= k < |d.branches| ensures TruthfulAt(cfg, g, d.branches[k]) {
      var b := SwitchedFrom(confirms, c, i, br, irre, l, k);
      assert TruthfulAt(cfg, g, b);
    }
  }

  lemma RestartTruthful(cfg: Config, ties: HeadTies, g: Ledger, confirms: nat, c: Chain, heads: seq<Node>, k: nat)
    requires Ready(confirms, c, heads) && Anchored(cfg, g, c) && Restart(cfg, ties, c.db, heads).Done?
    requires k < |Restart(cfg, ties, c.db, heads).chain.branches|
    ensures TruthfulAt(cfg, g, Restart(cfg, ties, c.db, heads).chain.branches[k])
  {
    RestartIs(cfg, ties, c, heads);
    RebuildIs(cfg, ties, c.db, c.lastIrre, heads);
    var br := Rebuild(cfg, ties, c.db, c.lastIrre, heads).value[k];
    var i := LoadedReplayed(cfg, ties, confirms, c, heads, br.head);
    ReplayedTruthful(cfg, ties(br.head), g, c, br);
  }

  lemma ReceiveTruthful(cfg: Config, g: Ledger, confirms: nat, c: Chain, s: Step)
    requires s.Receive? && Consistent(confirms, c) && Anchored(cfg, g, c) && Truthful(cfg, g, c)
    requires Take(cfg, confirms, c, s).Done?
    ensures Truthful(cfg, g, Take(cfg, confirms, c, s).chain)
  {
    var con, b := Retied(cfg, s.ties), s.block;
    var i := FindHead(c.branches, b.parent);
    if i < |c.branches| {
      var br := Grow(con, c.branches[i], b).value;
      GrowTruthful(cfg, s.ties, g, c.branches[i], b);
      GrowExtends(con, c, i, b);
      if br.head.count > c.HeadCount() {
        SwitchTruthful(cfg, Retied(cfg, s.settling), g, confirms, c, i, br);
      }
    } else {
      HeadFound(c, b);
      ForkTruthful(cfg, g, confirms, c, s);
    }
  }

  lemma ForkTruthful(cfg: Config, g: Ledger, confirms: nat, c: Chain, s: Step)
    requires s.Receive? && Consistent(confirms, c) && Anchored(cfg, g, c) && Truthful(cfg, g, c)
    requires Take(cfg, confirms, c, s).Done? && NoHead(c, s.block)
    ensures Truthful(cfg, g, Take(cfg, confirms, c, s).chain)
  {
    var con := Retied(cfg, s.ties);
    ForkIff(con, Retied(cfg, s.settling), confirms, c, s.block);
    var d := Take(cfg, confirms, c, s).chain;
    var br :| Accepted(con, c, NodeOf(s.block), br) && d == Forked(c, br);
    ForkRests(c, s.block);
    ReplayedTruthful(cfg, s.ties, g, c, br);
    forall k | 0 <= k < |d.branches| ensures TruthfulAt(cfg, g, d.branches[k]) {
      assert k < |c.branches| ==> d.branches[k] == c.branches[k];
    }
  }

  /** Every step keeps the previews of valid paths, whatever else the node has taken. */
  lemma StepTruthful(cfg: Config, g: Ledger, confirms: nat, c: Chain, s: Step)
    requires Good(cfg, g) && Consistent(confirms, c) && Anchored(cfg, g, c) && Truthful(cfg, g, c)
    requires Enabled(c, s) && (s.Reboot? ==> Stored(c)) && Take(cfg, confirms, c, s).Done?
    ensures Truthful(cfg, g, Take(cfg, confirms, c, s).chain)
  {
    var d := Take(cfg, confirms, c, s).chain;
    match s
    case Submit(tx) =>
      forall i | 0 <= i < |d.branches| ensures TruthfulAt(cfg, g, d.branches[i]) {
        assert TruthfulAt(cfg, g, c.branches[i]);
      }
    case Receive(b, ties, settling) => ReceiveTruthful(cfg, g, confirms, c, s);
    case Mint(order, height, producer, ties, settling) =>
      ProduceExtends(Retied(cfg, ties), c, c.headIndex, order, height, producer);
      ProduceTruthful(cfg, ties, g, c, order, height, producer);
      SwitchTruthful(cfg, Retied(cfg, settling), g, confirms, c, c.headIndex,
                     Produce(Retied(cfg, ties), c.branches[c.headIndex], order, height, producer));
    case Reboot(heads, ties) =>
      forall k | 0 <= k < |d.branches| ensures TruthfulAt(cfg, g, d.branches[k]) {
        RestartTruthful(cfg, ties, g, confirms, c, heads, k);
      }
  }

  /** What holds in every state of every run. */
  ghost predicate Sane(cfg: Config, g: Ledger, confirms: nat, c: Chain) {
    Good(cfg, g) && Consistent(confirms, c) && Anchored(cfg, g, c) && Truthful(cfg, g, c)
  }

  lemma {:induction false} RunSane(cfg: Config, g: Ledger, confirms: nat, cs: seq<Chain>, ss: seq<Step>, k: nat)
    requires StoredRun(cfg, g, confirms, cs, ss) && k <= |ss|
    ensures Sane(cfg, g, confirms, cs[k])
  {
    RunConsistent(cfg, g, confirms, cs, ss, k);
    if k == 0 {
      RunStart(cfg, g, confirms, cs, ss);
      assert forall i :: 0 <= i < |cs[0].branches| ==> Previews(cfg, g, cs[0].branches[i]);
    } else {
      RunSane(cfg, g, confirms, cs, ss, k - 1);
      RunConsistent(cfg, g, confirms, cs, ss, k - 1);
      assert Moves(cfg, confirms, cs[k - 1], ss[k - 1], cs[k]);
      if Take(cfg, confirms, cs[k - 1], ss[k - 1]) == Done(cs[k]) {
        StepTruthful(cfg, g, confirms, cs[k - 1], ss[k - 1]);
      }
    }
  }

  // ---------------------------------------------------------------- a path worth following

  /** The blocks after count c up to n are of allowed size and hold verified transactions. */
  ghost predicate Clean(n: Node, c: nat) {
    Sizes(n, c) && forall t :: t in TxsAfter(n, c) ==> t.Verify()
  }

  /** A valid path without ties, and clean after count c. */
  ghost predicate Worthy(cfg: Config, g: Ledger, n: Node, c: nat) {
    WellFormed(n) && LedgerAt(cfg, g, n).Some? && UntiedPath(cfg, g, n) && Clean(n, c)
  }

  lemma {:induction false} SizesAncestor(n: Node, a: Node, c: nat)
    requires WellFormed(n) && IsAncestor(a, n) && Sizes(n, c)
    ensures Sizes(a, c)
  {
    if a != n {
      if n.count <= c { AncestorCount(a, n); } else { SizesAncestor(n.parent.value, a, c); }
    }
  }

  lemma {:induction false} WorthyAncestor(cfg: Config, g: Ledger, n: Node, a: Node, c: nat, d: nat)
    requires Worthy(cfg, g, n, c) && IsAncestor(a, n) && c <= d <= a.count
    ensures Worthy(cfg, g, a, d)
  {
    AncestorCount(a, n);
    UntiedAncestor(cfg, g, a, n);
    LedgerAtAncestor(cfg, g, n, a);
    SizesAncestor(n, a, c);
    SizesLater(a, c, d);
    TxsSplit(n, a, c);
    AtIsAncestor(a, d);
    TxsSplit(a, At(a, d), c);
  }

  lemma WorthyLast(cfg: Config, g: Ledger, n: Node, c: nat)
    requires Worthy(cfg, g, n, c) && n.count > c
    ensures |n.block.txs| <= MAX_TXS_PER_BLOCK && forall t :: t in n.block.txs ==> t.Verify()
  {
    assert forall t :: t in n.block.txs ==> t in TxsAfter(n, c);
  }

  /** A worthy path above the irreversible block can be accepted, however ties fall. */
  lemma {:induction false} WorthyAcceptable(cfg: Config, ties: Ties, g: Ledger, c: Chain, n: Node)
    requires Anchored(cfg, g, c) && IsAncestor(c.lastIrre, n) && Worthy(cfg, g, n, c.lastIrre.count)
    ensures Acceptable(Retied(cfg, ties), c, n)
  {
    UntiedAncestor(cfg, g, c.lastIrre, n);
    AncestorCount(c.lastIrre, n);
    NoReplay(cfg, g, n);
    TxsSplit(n, c.lastIrre, 0);
    NoDupConcat(TxsAfter(c.lastIrre, 0), TxsAfter(n, c.lastIrre.count));
    BranchValid(cfg, ties, g, c, n);
  }

  /** A worthy block fits on a branch that ends at its parent. */
  lemma {:induction false} WorthyFits(cfg: Config, ties: Ties, g: Ledger, c: Chain, i: nat, n: Node)
    requires Shape(c) && Pools(c) && i < |c.branches| && TruthfulAt(cfg, g, c.branches[i])
    requires Worthy(cfg, g, n, c.lastIrre.count) && n.parent == Some(c.branches[i].head)
    ensures Fits(Retied(cfg, ties), c.branches[i], n.block)
  {
    var br := c.branches[i];
    assert IsAncestor(br.head, n);
    AncestorCount(c.lastIrre, br.head);
    UntiedAncestor(cfg, g, br.head, n);
    LedgerAtAncestor(cfg, g, n, br.head);
    PreviewsSame(cfg, ties, g, br);
    PathSame(cfg, ties, g, n);
    WorthyLast(cfg, g, n, c.lastIrre.count);
    assert Accounted(c.lastIrre, c.pool, br);
    ValidAccepted(Retied(cfg, ties), g, c.lastIrre, c.pool, br, n);
    GrowIs(Retied(cfg, ties), br, n.block);
  }

  /** What a worthy branch makes irreversible applies to the irreversible ledger. */
  lemma {:induction false} WorthySettles(cfg: Config, ties: Ties, g: Ledger, confirms: nat, c: Chain, i: nat,
      br: Branch)
    requires Consistent(confirms, c) && Anchored(cfg, g, c) && i < |c.branches| && Extends(c, i, br)
    requires br.head.count > c.HeadCount() && Worthy(cfg, g, br.head, c.lastIrre.count)
    ensures Settles(Retied(cfg, ties), confirms, c, br)
  {
    var irre := Irreversible(br.head, confirms);
    IrreversibleMoves(confirms, c, i, br);
    WorthyAncestor(cfg, g, br.head, irre, c.lastIrre.count, c.lastIrre.count);
    WorthyAcceptable(cfg, ties, g, c, irre);
  }

  // ---------------------------------------------------------------- one block

  /** The node after it has been offered a block. */
  ghost function After(cfg: Config, confirms: nat, c: Chain, s: Step): Chain
    requires c.headIndex < |c.branches|
  {
    var r := Take(cfg, confirms, c, s);
    if r.Done? then r.chain else c
  }

  /** d has n on a branch: as its head if n is longer than c, and else beside the head of c. */
  ghost predicate Has(c: Chain, d: Chain, n: Node) {
    && c.headIndex < |c.branches| && d.headIndex < |d.branches| && OnBranch(d, n)
    && if n.count > c.HeadCount() then d.branches[d.headIndex].head == n
       else d.lastIrre == c.lastIrre && d.HeadCount() == c.HeadCount()
  }

  lemma {:induction false} OfferGrow(cfg: Config, g: Ledger, confirms: nat, c: Chain, s: Step, n: Node, i: nat)
    requires Sane(cfg, g, confirms, c) && s.Receive? && s.block == n.block && Worthy(cfg, g, n, c.lastIrre.count)
    requires n.parent.Some? && i == FindHead(c.branches, n.block.parent) && i < |c.branches|
    ensures Take(cfg, confirms, c, s).Done? && Has(c, After(cfg, confirms, c, s), n)
  {
    HashIdentifies(n.parent.value, c.branches[i].head);
    WorthyFits(cfg, s.ties, g, c, i, n);
    GrowIff(Retied(cfg, s.ties), Retied(cfg, s.settling), confirms, c, n.block, i);
    GrowIs(Retied(cfg, s.ties), c.branches[i], n.block);
    GrowExtends(Retied(cfg, s.ties), c, i, n.block);
    var br := Grow(Retied(cfg, s.ties), c.branches[i], n.block).value;
    assert br.head == n;
    if n.count > c.HeadCount() {
      WorthySettles(cfg, s.settling, g, confirms, c, i, br);
      OnHead(After(cfg, confirms, c, s), n);
    } else {
      assert SideGrown(c, i, br).branches[i].head == n;
    }
  }

  lemma OnHead(c: Chain, n: Node)
    requires c.headIndex < |c.branches| && c.branches[c.headIndex].head == n
    ensures OnBranch(c, n)
  {
    assert IsAncestor(n, c.branches[c.headIndex].head);
  }

  lemma {:induction false} ForkReady(confirms: nat, c: Chain, n: Node)
    requires Consistent(confirms, c) && WellFormed(n) && NoHead(c, n.block)
    requires n.parent.Some? && OnBranch(c, n.parent.value) && c.lastIrre.count <= n.parent.value.count
    ensures NodeOf(n.block) == n && HasParent(c, n.block) && IsAncestor(c.lastIrre, n) && n.count <= c.HeadCount()
  {
    var p := n.parent.value;
    WellFormedIsNodeOf(n);
    WellFormedIsNodeOf(p);
    var i :| 0 <= i < |c.branches| && IsAncestor(p, c.branches[i].head);
    ForkCount(confirms, c, p, i);
    ForkRests(c, n.block);
  }

  lemma {:induction false} KnownOnBranch(c: Chain, n: Node)
    requires Shape(c) && NodeOf(n.block) == n && Known(c.branches, n.block)
    ensures OnBranch(c, n)
  {
    var j :| 0 <= j < |c.branches| && KnownOn(c.branches[j].head, n.block);
    KnownIsOn(c.branches[j].head, n.block);
  }

  lemma ForkedOnBranch(c: Chain, br: Branch)
    ensures OnBranch(Forked(c, br), br.head)
  {
    assert Forked(c, br).branches[|c.branches|] == br && IsAncestor(br.head, br.head);
  }

  lemma {:induction false} OfferFork(cfg: Config, g: Ledger, confirms: nat, c: Chain, s: Step, n: Node)
    requires Sane(cfg, g, confirms, c) && s.Receive? && s.block == n.block && Worthy(cfg, g, n, c.lastIrre.count)
    requires n.parent.Some? && OnBranch(c, n.parent.value) && c.lastIrre.count <= n.parent.value.count
    requires NoHead(c, n.block)
    ensures !Take(cfg, confirms, c, s).Fatal? && Has(c, After(cfg, confirms, c, s), n)
  {
    ForkReady(confirms, c, n);
    WorthyAcceptable(cfg, s.ties, g, c, n);
    ForkIff(Retied(cfg, s.ties), Retied(cfg, s.settling), confirms, c, n.block);
    if Known(c.branches, n.block) {
      KnownOnBranch(c, n);
    } else {
      var br :| Accepted(Retied(cfg, s.ties), c, n, br) && After(cfg, confirms, c, s) == Forked(c, br);
      ForkedOnBranch(c, br);
    }
  }

  /** The next block of a worthy path of which the node has the parent. */
  lemma OfferNext(cfg: Config, g: Ledger, confirms: nat, c: Chain, s: Step, n: Node)
    requires Sane(cfg, g, confirms, c) && s.Receive? && s.block == n.block && Worthy(cfg, g, n, c.lastIrre.count)
    requires n.parent.Some? && OnBranch(c, n.parent.value) && c.lastIrre.count <= n.parent.value.count
    ensures !Take(cfg, confirms, c, s).Fatal?
    ensures Sane(cfg, g, confirms, After(cfg, confirms, c, s)) && Has(c, After(cfg, confirms, c, s), n)
  {
    var i := FindHead(c.branches, n.block.parent);
    HeadFound(c, n.block);
    if i < |c.branches| { OfferGrow(cfg, g, confirms, c, s, n, i); } else { OfferFork(cfg, g, confirms, c, s, n); }
    if Take(cfg, confirms, c, s).Done? {
      StepConsistent(cfg, confirms, c, s);
      StepAnchored(cfg, g, confirms, c, s);
      StepTruthful(cfg, g, confirms, c, s);
    }
  }

  // ---------------------------------------------------------------- all blocks

  /** From c the blocks of the nodes are offered one after the other, however ties fall. */
  ghost predicate Offers(cfg: Config, confirms: nat, c: Chain, nodes: seq<Node>, cs: seq<Chain>, ss: seq<Step>) {
    && |ss| == |nodes| && |cs| == |ss| + 1 && cs[0] == c
    && forall k {:trigger OfferedAt(cfg, confirms, nodes, cs, ss, k)} :: 0 <= k < |ss| ==>
         OfferedAt(cfg, confirms, nodes, cs, ss, k)
  }

  ghost predicate OfferedAt(cfg: Config, confirms: nat, nodes: seq<Node>, cs: seq<Chain>, ss: seq<Step>, k: nat) {
    && k < |nodes| && k < |ss| && k + 1 < |cs|
    && ss[k].Receive? && ss[k].block == nodes[k].block && cs[k].headIndex < |cs[k].branches|
    && cs[k + 1] == After(cfg, confirms, cs[k], ss[k])
  }

  lemma {:induction false} NodesAt(n: Node, from: nat, k: nat)
    requires WellFormed(n) && from <= n.count && k < |NodesFrom(n, from)|
    ensures |NodesFrom(n, from)| == n.count + 1 - from && NodesFrom(n, from)[k] == At(n, from + k)
  {
    if n.parent.Some? && from < n.count {
      var init := NodesFrom(n.parent.value, from);
      NodesAt(n.parent.value, from, if k < |init| then k else 0);
    }
  }

  lemma {:induction false} NodesLength(n: Node, from: nat)
    requires WellFormed(n) && from <= n.count
    ensures |NodesFrom(n, from)| == n.count + 1 - from
  {
    NodesAt(n, from, |NodesFrom(n, from)| - 1);
  }

  lemma {:induction false} AtStep(n: Node, k: nat)
    requires WellFormed(n) && 0 < k <= n.count
    ensures IsAncestor(At(n, k), n) && WellFormed(At(n, k))
    ensures At(n, k).count == k && At(n, k).parent == Some(At(n, k - 1))
  {
    AtIsAncestor(n, k);
    AtIsAncestor(n, k - 1);
    AncestorCount(At(n, k), n);
    AncestorCount(At(n, k - 1), n);
    AncestorsOrdered(At(n, k - 1), At(n, k), n);
    AncestorCount(At(n, k - 1), At(n, k).parent.value);
  }

  /** The node of the path before its k-th one. */
  ghost function Previous(c: Chain, nodes: seq<Node>, k: nat): Node
    requires k <= |nodes|
  {
    if k == 0 then c.lastIrre else nodes[k - 1]
  }

  ghost predicate FollowsAt(cfg: Config, g: Ledger, c: Chain, nodes: seq<Node>, k: nat) {
    k < |nodes| && nodes[k].parent == Some(Previous(c, nodes, k)) && Worthy(cfg, g, nodes[k], c.lastIrre.count)
  }

  /** The nodes are a worthy path from the irreversible block of c on. */
  ghost predicate Follow(cfg: Config, g: Ledger, c: Chain, nodes: seq<Node>) {
    forall k {:trigger FollowsAt(cfg, g, c, nodes, k)} :: 0 <= k < |nodes| ==> FollowsAt(cfg, g, c, nodes, k)
  }

  lemma {:induction false} PathFollows(cfg: Config, g: Ledger, c: Chain, n: Node)
    requires Worthy(cfg, g, n, c.lastIrre.count) && IsAncestor(c.lastIrre, n)
    ensures Follow(cfg, g, c, NodesFrom(n, c.lastIrre.count + 1))
  {
    var nodes := NodesFrom(n, c.lastIrre.count + 1);
    forall k | 0 <= k < |nodes| ensures FollowsAt(cfg, g, c, nodes, k) {
      PathAt(c, n, k);
      WorthyAncestor(cfg, g, n, nodes[k], c.lastIrre.count, c.lastIrre.count);
    }
  }

  lemma {:induction false} PathAt(c: Chain, n: Node, k: nat)
    requires WellFormed(n) && IsAncestor(c.lastIrre, n) && k < |NodesFrom(n, c.lastIrre.count + 1)|
    ensures var nodes := NodesFrom(n, c.lastIrre.count + 1);
      && nodes[k].parent == Some(Previous(c, nodes, k)) && IsAncestor(nodes[k], n)
      && nodes[k].count >= c.lastIrre.count
  {
    var base := c.lastIrre.count;
    AncestorCount(c.lastIrre, n);
    NodesAt(n, base + 1, k);
    if k > 0 { NodesAt(n, base + 1, k - 1); } else { AtUnique(n, c.lastIrre); }
    AtStep(n, base + 1 + k);
  }

  lemma {:induction false} PathEnds(c: Chain, n: Node)
    requires WellFormed(n) && IsAncestor(c.lastIrre, n)
    ensures var nodes := NodesFrom(n, c.lastIrre.count + 1); Previous(c, nodes, |nodes|) == n
  {
    AncestorCount(c.lastIrre, n);
    if c.lastIrre.count < n.count {
      var nodes := NodesFrom(n, c.lastIrre.count + 1);
      NodesLength(n, c.lastIrre.count + 1);
      NodesAt(n, c.lastIrre.count + 1, |nodes| - 1);
      AtUnique(n, n);
    }
  }

  /** The node d, seen from c where it started, has m and has lost nothing irreversible. */
  ghost predicate Along(cfg: Config, g: Ledger, confirms: nat, c: Chain, d: Chain, m: Node) {
    Sane(cfg, g, confirms, d) && Has(c, d, m) && c.lastIrre.count <= d.lastIrre.count <= m.count
  }

  lemma Arrived(confirms: nat, c: Chain, d: Chain, e: Chain, m: Node, next: Node)
    requires Consistent(confirms, d) && Consistent(confirms, e) && Has(c, d, m) && Has(d, e, next)
    requires c.lastIrre.count <= d.lastIrre.count <= m.count && next.count == m.count + 1
    ensures Has(c, e, next) && c.lastIrre.count <= e.lastIrre.count <= next.count
  {
    if next.count > d.HeadCount() {
      AncestorCount(e.lastIrre, next);
      HeadIsLonger(confirms, c, d, e, m, next);
    } else {
      assert m.count <= c.HeadCount();
    }
  }

  lemma HeadIsLonger(confirms: nat, c: Chain, d: Chain, e: Chain, m: Node, next: Node)
    requires Consistent(confirms, d) && Consistent(confirms, e) && Has(c, d, m) && Has(d, e, next)
    requires next.count == m.count + 1 && next.count > d.HeadCount() && c.lastIrre.count <= d.lastIrre.count
    ensures next.count > c.HeadCount() && c.lastIrre.count <= e.lastIrre.count
  {}

  lemma {:induction false} Offered(cfg: Config, g: Ledger, confirms: nat, c: Chain, d: Chain, s: Step, m: Node,
      next: Node)
    requires Along(cfg, g, confirms, c, d, m) && next.parent == Some(m) && Worthy(cfg, g, next, c.lastIrre.count)
    requires s.Receive? && s.block == next.block
    ensures !Take(cfg, confirms, d, s).Fatal? && Along(cfg, g, confirms, c, After(cfg, confirms, d, s), next)
  {
    WorthyAncestor(cfg, g, next, next, c.lastIrre.count, d.lastIrre.count);
    OfferNext(cfg, g, confirms, d, s, next);
    Arrived(confirms, c, d, After(cfg, confirms, d, s), m, next);
  }

  lemma {:induction false} Starting(cfg: Config, g: Ledger, confirms: nat, c: Chain)
    requires Sane(cfg, g, confirms, c)
    ensures Along(cfg, g, confirms, c, c, c.lastIrre)
  {
    var head := c.branches[c.headIndex].head;
    assert IsAncestor(c.lastIrre, head);
    AncestorCount(c.lastIrre, head);
  }

  ghost predicate AlongAt(cfg: Config, g: Ledger, confirms: nat, c: Chain, nodes: seq<Node>, cs: seq<Chain>, k: nat) {
    k < |cs| && k <= |nodes| && Along(cfg, g, confirms, c, cs[k], Previous(c, nodes, k))
  }

  lemma {:induction false} OneMore(cfg: Config, g: Ledger, confirms: nat, c: Chain, nodes: seq<Node>, cs: seq<Chain>,
      ss: seq<Step>, k: nat)
    requires Follow(cfg, g, c, nodes) && Offers(cfg, confirms, c, nodes, cs, ss) && k < |nodes|
    requires AlongAt(cfg, g, confirms, c, nodes, cs, k)
    ensures AlongAt(cfg, g, confirms, c, nodes, cs, k + 1)
    ensures cs[k].headIndex < |cs[k].branches| && !Take(cfg, confirms, cs[k], ss[k]).Fatal?
  {
    assert FollowsAt(cfg, g, c, nodes, k) && OfferedAt(cfg, confirms, nodes, cs, ss, k);
    Offered(cfg, g, confirms, c, cs[k], ss[k], Previous(c, nodes, k), nodes[k]);
  }

  lemma {:induction false} Underway(cfg: Config, g: Ledger, confirms: nat, c: Chain, nodes: seq<Node>, cs: seq<Chain>,
      ss: seq<Step>, k: nat)
    requires Follow(cfg, g, c, nodes) && Offers(cfg, confirms, c, nodes, cs, ss) && k <= |nodes|
    requires Along(cfg, g, confirms, c, c, c.lastIrre)
    ensures AlongAt(cfg, g, confirms, c, nodes, cs, k)
    decreases k
  {
    if k > 0 {
      Underway(cfg, g, confirms, c, nodes, cs, ss, k - 1);
      OneMore(cfg, g, confirms, c, nodes, cs, ss, k - 1);
    }
  }

  /** A node in whatever state that is offered, in order, the blocks of a worthy path from its irreversible block on,
      longer than its head, never exits and ends with the last of them as its head. */
  lemma {:induction false} CatchUp(cfg: Config, g: Ledger, confirms: nat, c: Chain, n: Node, cs: seq<Chain>,
      ss: seq<Step>)
    requires Sane(cfg, g, confirms, c) && Worthy(cfg, g, n, c.lastIrre.count) && IsAncestor(c.lastIrre, n)
    requires n.count > c.HeadCount() && Offers(cfg, confirms, c, NodesFrom(n, c.lastIrre.count + 1), cs, ss)
    ensures forall k :: 0 <= k < |ss| ==>
      cs[k].headIndex < |cs[k].branches| && !Take(cfg, confirms, cs[k], ss[k]).Fatal?
    ensures var d := cs[|ss|]; d.headIndex < |d.branches| && d.branches[d.headIndex].head == n
  {
    var nodes := NodesFrom(n, c.lastIrre.count + 1);
    Starting(cfg, g, confirms, c);
    PathFollows(cfg, g, c, n);
    PathEnds(c, n);
    Underway(cfg, g, confirms, c, nodes, cs, ss, |ss|);
    forall k | 0 <= k < |ss|
      ensures cs[k].headIndex < |cs[k].branches| && !Take(cfg, confirms, cs[k], ss[k]).Fatal?
    {
      Underway(cfg, g, confirms, c, nodes, cs, ss, k);
      OneMore(cfg, g, confirms, c, nodes, cs, ss, k);
    }
  }

  /** So in every state of every run, whatever the node had received and produced before. */
  lemma {:induction false} RunCatchUp(cfg: Config, g: Ledger, confirms: nat, run: seq<Chain>, steps: seq<Step>,
      k: nat, n: Node, cs: seq<Chain>, ss: seq<Step>)
    requires StoredRun(cfg, g, confirms, run, steps) && k <= |steps| && run[k].headIndex < |run[k].branches|
    requires Worthy(cfg, g, n, run[k].lastIrre.count) && IsAncestor(run[k].lastIrre, n)
    requires n.count > run[k].HeadCount()
    requires Offers(cfg, confirms, run[k], NodesFrom(n, run[k].lastIrre.count + 1), cs, ss)
    ensures forall j :: 0 <= j < |ss| ==>
      cs[j].headIndex < |cs[j].branches| && !Take(cfg, confirms, cs[j], ss[j]).Fatal?
    ensures var d := cs[|ss|]; d.headIndex < |d.branches| && d.branches[d.headIndex].head == n
  {
    RunSane(cfg, g, confirms, run, steps, k);
    CatchUp(cfg, g, confirms, run[k], n, cs, ss);
  }

  // ---------------------------------------------------------------- producing in a run

  lemma {:induction false} HeadPreviews(cfg: Config, ties: Ties, g: Ledger, confirms: nat, c: Chain)
    requires Sane(cfg, g, confirms, c)
    requires var n := c.branches[c.headIndex].head; LedgerAt(cfg, g, n).Some? && UntiedPath(cfg, g, n)
    ensures var con, br := Retied(cfg, ties), c.branches[c.headIndex];
      && LedgerAt(con, g, c.lastIrre) == Some(c.immutable) && Previews(con, g, br)
      && LedgerAt(con, g, br.head) == LedgerAt(cfg, g, br.head)
  {
    var br := c.branches[c.headIndex];
    assert TruthfulAt(cfg, g, br);
    AnchoredTied(cfg, ties, g, c);
    PreviewsSame(cfg, ties, g, br);
    PathSame(cfg, ties, g, br.head);
  }

  /** In every state of every run whose head has a valid path without ties, a produced block is made from the exact
      ledger of the head, however ties fall: it leaves out nothing that applies when its turn comes. */
  lemma {:induction false} RunMakes(cfg: Config, ties: Ties, g: Ledger, confirms: nat, run: seq<Chain>,
      steps: seq<Step>, k: nat, order: seq<Tx>, height: nat, producer: nat)
    requires StoredRun(cfg, g, confirms, run, steps) && k <= |steps| && run[k].headIndex < |run[k].branches|
    requires var br := run[k].branches[run[k].headIndex];
      LedgerAt(cfg, g, br.head).Some? && UntiedPath(cfg, g, br.head) && IsOrder(order, br.pack.unpacked)
    ensures var con, br := Retied(cfg, ties), run[k].branches[run[k].headIndex];
      Made(con, br.pack.preview, LedgerAt(cfg, g, br.head).value, order,
           Produce(con, br, order, height, producer).head.block.txs, MAX_TXS_PER_BLOCK, height)
  {
    RunSane(cfg, g, confirms, run, steps, k);
    HeadPreviews(cfg, ties, g, confirms, run[k]);
    NodeMakes(Retied(cfg, ties), g, run[k], run[k].headIndex, order, height, producer);
  }
}
