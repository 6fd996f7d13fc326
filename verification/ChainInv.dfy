/** What every step of a node keeps: the shape of its branches, the accounting of pooled and packed
    transactions, and the ledgers its branches claim. */
module ChainInv {
  import opened Common
  import opened LedgerTypes
  import opened Transactions
  import opened LedgerFacts
  import opened BlockTree
  import opened ChainSpec
  import opened ChainLedger
  import opened ChainPaths
  import opened LedgerTies
  import opened PathTies

  // ---------------------------------------------------------------- invariants

  /** Every branch descends from the irreversible block. */
  ghost predicate Shape(c: Chain) {
    && c.headIndex < |c.branches| && WellFormed(c.lastIrre)
    && (forall i :: 0 <= i < |c.branches| ==>
          WellFormed(c.branches[i].head) && IsAncestor(c.lastIrre, c.branches[i].head))
  }

  /** The head branch is a longest one and fixes the irreversible block. */
  ghost predicate Longest(confirms: nat, c: Chain)
    requires c.headIndex < |c.branches|
  {
    && (forall i :: 0 <= i < |c.branches| ==> c.branches[i].head.count <= c.HeadCount())
    && c.lastIrre.count == IrreversibleCount(c.branches[c.headIndex].head, confirms)
  }

  /** The packed set is the set of transactions on the branch's own path after the irreversible
      block, each once; the unpacked set is the rest of the pool. */
  ghost predicate Accounted(irre: Node, pool: set<Tx>, br: Branch) {
    var txs := TxsAfter(br.head, irre.count);
    && br.pack.packed == ToSet(txs) && NoDup(txs) && br.pack.unpacked == pool - ToSet(txs)
    && (forall t :: t in txs ==> t.Verify()) && Sizes(br.head, irre.count)
  }

  ghost predicate Pools(c: Chain) {
    && (forall i :: 0 <= i < |c.branches| ==> Accounted(c.lastIrre, c.pool, c.branches[i]))
    && (forall t :: t in c.pool ==> t.Verify() && !Expired(c.immutable, t))
  }

  /** The preview is the ledger of the branch's own path, up to ghost accounts. */
  ghost predicate Previews(cfg: Config, g: Ledger, br: Branch) {
    LedgerAt(cfg, g, br.head).Some? && Ext(br.pack.preview, LedgerAt(cfg, g, br.head).value)
  }

  ghost predicate Exact(cfg: Config, g: Ledger, br: Branch) {
    LedgerAt(cfg, g, br.head) == Some(br.pack.preview)
  }

  ghost predicate Ledgers(cfg: Config, g: Ledger, c: Chain) {
    && LedgerAt(cfg, g, c.lastIrre) == Some(c.immutable)
    && (forall i :: 0 <= i < |c.branches| ==> Previews(cfg, g, c.branches[i]))
  }

  /** What holds of a node whatever blocks it receives and however ties fall. */
  ghost predicate Consistent(confirms: nat, c: Chain) {
    Shape(c) && Longest(confirms, c) && Pools(c)
  }

  /** No path of a branch holds a tied creation. */
  ghost predicate UntiedChain(cfg: Config, g: Ledger, c: Chain) {
    forall i :: 0 <= i < |c.branches| ==> UntiedPath(cfg, g, c.branches[i].head)
  }

  ghost predicate Inv(cfg: Config, g: Ledger, confirms: nat, c: Chain) {
    Good(cfg, g) && Consistent(confirms, c) && Ledgers(cfg, g, c) && UntiedChain(cfg, g, c)
  }

  ghost predicate AllExact(cfg: Config, g: Ledger, c: Chain) {
    forall i :: 0 <= i < |c.branches| ==> Exact(cfg, g, c.branches[i])
  }

  // ---------------------------------------------------------------- however ties fall

  lemma PreviewsSame(cfg: Config, ties: Ties, g: Ledger, br: Branch)
    requires UntiedPath(cfg, g, br.head)
    ensures UntiedPath(Retied(cfg, ties), g, br.head)
    ensures Previews(Retied(cfg, ties), g, br) <==> Previews(cfg, g, br)
    ensures Exact(Retied(cfg, ties), g, br) <==> Exact(cfg, g, br)
  {
    PathSame(cfg, ties, g, br.head);
  }

  /** The invariant does not depend on how ties fall. */
  lemma InvSame(cfg: Config, ties: Ties, g: Ledger, confirms: nat, c: Chain)
    requires Inv(cfg, g, confirms, c)
    ensures Inv(Retied(cfg, ties), g, confirms, c)
    ensures AllExact(Retied(cfg, ties), g, c) <==> AllExact(cfg, g, c)
  {
    UntiedAncestor(cfg, g, c.lastIrre, c.branches[c.headIndex].head);
    PathSame(cfg, ties, g, c.lastIrre);
    forall i | 0 <= i < |c.branches|
      ensures UntiedPath(Retied(cfg, ties), g, c.branches[i].head) && Previews(Retied(cfg, ties), g, c.branches[i])
      ensures Exact(Retied(cfg, ties), g, c.branches[i]) <==> Exact(cfg, g, c.branches[i])
    {
      PreviewsSame(cfg, ties, g, c.branches[i]);
    }
  }

  // ---------------------------------------------------------------- new branches

  /** br extends branch i by one block and is accounted for like every branch. */
  ghost predicate Extends(c: Chain, i: nat, br: Branch)
    requires i < |c.branches|
  {
    && br.head.parent == Some(c.branches[i].head) && WellFormed(br.head)
    && Accounted(c.lastIrre, c.pool, br)
  }

  lemma {:induction false} AccountedGrow(irre: Node, pool: set<Tx>, br: Branch, head: Node, pack: Pack)
    requires Accounted(irre, pool, br) && WellFormed(head) && head.parent == Some(br.head) &&
      irre.count <= br.head.count
    requires |head.block.txs| <= MAX_TXS_PER_BLOCK && NoDup(head.block.txs) && ToSet(head.block.txs) !! br.pack.packed
    requires pack.packed == br.pack.packed + ToSet(head.block.txs) &&
      pack.unpacked == br.pack.unpacked - ToSet(head.block.txs)
    requires forall t :: t in head.block.txs ==> t.Verify()
    ensures Accounted(irre, pool, Branch(head, pack))
  {
    NoDupConcat(TxsAfter(br.head, irre.count), head.block.txs);
  }

  lemma GrowExtends(cfg: Config, c: Chain, i: nat, b: Block)
    requires Shape(c) && Pools(c) && i < |c.branches| && b.parent == c.branches[i].head.Hash()
    requires Grow(cfg, c.branches[i], b).Some?
    ensures Extends(c, i, Grow(cfg, c.branches[i], b).value)
  {
    var br := c.branches[i];
    var pack := PackBlock(cfg, br.pack, b).value;
    PackTxsSets(cfg, br.pack, b.txs, b.height);
    AncestorCount(c.lastIrre, br.head);
    AccountedGrow(c.lastIrre, c.pool, br, NewNode(b, Some(br.head)), pack);
  }

  /** A block accepted on a branch is valid on the path's exact ledger if and only if all its
      senders have accounts there when their turn comes. */
  lemma {:induction false} GrowPreviews(cfg: Config, g: Ledger, br: Branch, b: Block)
    requires Previews(cfg, g, br) && Grow(cfg, br, b).Some?
    ensures Previews(cfg, g, Grow(cfg, br, b).value) <==> Sourced(cfg, LedgerAt(cfg, g, br.head).value, b.txs, b.height)
    ensures LedgerAt(cfg, g, Grow(cfg, br, b).value.head).Some? <==>
            Sourced(cfg, LedgerAt(cfg, g, br.head).value, b.txs, b.height)
  {
    PackTxsExact(cfg, br.pack, LedgerAt(cfg, g, br.head).value, b.txs, b.height);
  }

  lemma {:induction false} GrowExact(cfg: Config, g: Ledger, br: Branch, b: Block)
    requires Exact(cfg, g, br) && Grow(cfg, br, b).Some?
    ensures Exact(cfg, g, Grow(cfg, br, b).value)
    ensures Sourced(cfg, LedgerAt(cfg, g, br.head).value, b.txs, b.height)
  {
    PackTxsPlain(cfg, br.pack, b.txs, b.height);
  }

  lemma ProduceExtends(cfg: Config, c: Chain, i: nat, order: seq<Tx>, height: nat, producer: nat)
    requires Shape(c) && Pools(c) && i < |c.branches| && IsOrder(order, c.branches[i].pack.unpacked)
    ensures Extends(c, i, Produce(cfg, c.branches[i], order, height, producer))
  {
    var br := c.branches[i];
    var n := if |order| < MAX_TXS_PER_BLOCK then |order| else MAX_TXS_PER_BLOCK;
    var s := Produced(br.pack, []);
    var p := Try(cfg, s, order, 0, n, height);
    TrySets(cfg, s, order, 0, n, height);
    assert p.out[|s.out|..] == p.out;
    AncestorCount(c.lastIrre, br.head);
    AccountedGrow(c.lastIrre, c.pool, br, Produce(cfg, br, order, height, producer).head, p.pack);
  }

  /** A block produced on a branch that previews its ledger is valid on the exact ledger of its path. */
  lemma {:induction false} ProduceOn(cfg: Config, g: Ledger, c: Chain, i: nat, order: seq<Tx>, height: nat,
      producer: nat)
    requires Shape(c) && Pools(c) && i < |c.branches| && IsOrder(order, c.branches[i].pack.unpacked) && Good(cfg, g)
    requires LedgerAt(cfg, g, c.lastIrre) == Some(c.immutable) && Previews(cfg, g, c.branches[i])
    ensures Previews(cfg, g, Produce(cfg, c.branches[i], order, height, producer))
  {
    var br := c.branches[i];
    var w := LedgerAt(cfg, g, br.head).value;
    var n := if |order| < MAX_TXS_PER_BLOCK then |order| else MAX_TXS_PER_BLOCK;
    AccountsGrow(cfg, g, br.head, c.lastIrre);
    LedgerAtGood(cfg, g, br.head);
    assert Accounted(c.lastIrre, c.pool, br);
    assert Tried(cfg, w, Produced(br.pack, []), height);
    TryValid(cfg, w, Produced(br.pack, []), order, 0, n, height);
  }

  /** A produced block is valid on the exact ledger of its path. */
  lemma ProducePreviews(cfg: Config, g: Ledger, confirms: nat, c: Chain, i: nat, order: seq<Tx>, height: nat,
      producer: nat)
    requires Inv(cfg, g, confirms, c) && i < |c.branches| && IsOrder(order, c.branches[i].pack.unpacked)
    ensures Previews(cfg, g, Produce(cfg, c.branches[i], order, height, producer))
  {
    assert Previews(cfg, g, c.branches[i]);
    ProduceOn(cfg, g, c, i, order, height, producer);
  }

  // ---------------------------------------------------------------- survivors

  lemma {:induction false} SurvivorsFrom(branches: seq<Branch>, i: nat, br: Branch, irre: Node, k: nat)
    requires k < |Survivors(branches, i, br, irre)|
    ensures (i < |branches| && Survivors(branches, i, br, irre)[k] == br) ||
            (exists j :: 0 <= j < |branches| && j != i && Survivors(branches, i, br, irre)[k] == branches[j] &&
              Descends(branches[j].head, irre))
  {
    if branches != [] {
      var last := |branches| - 1;
      var rest := Survivors(branches[..last], i, br, irre);
      if k < |rest| {
        SurvivorsFrom(branches[..last], i, br, irre, k);
        if !(i < last && rest[k] == br) {
          var j :| 0 <= j < last && j != i && rest[k] == branches[..last][j] && Descends(branches[j].head, irre);
          assert rest[k] == branches[j];
        }
      }
    }
  }

  lemma {:induction false} SurvivorsAt(branches: seq<Branch>, i: nat, br: Branch, irre: Node)
    requires i < |branches|
    ensures var k := |Survivors(branches[..i], i, br, irre)|;
      k < |Survivors(branches, i, br, irre)| && Survivors(branches, i, br, irre)[k] == br
  {
    var last := |branches| - 1;
    if i < last {
      SurvivorsAt(branches[..last], i, br, irre);
      assert branches[..last][..i] == branches[..i];
    }
  }

  lemma {:induction false} SurvivorsKeep(branches: seq<Branch>, i: nat, br: Branch, irre: Node, j: nat)
    requires j < |branches| && (j == i || Descends(branches[j].head, irre))
    ensures (if j == i then br else branches[j]) in Survivors(branches, i, br, irre)
  {
    if j < |branches| - 1 { SurvivorsKeep(branches[..|branches| - 1], i, br, irre, j); }
  }

  // ---------------------------------------------------------------- switching the head

  /** The irreversible block only moves forward, along the new head's own path. */
  lemma IrreversibleMoves(confirms: nat, c: Chain, i: nat, br: Branch)
    requires Shape(c) && Longest(confirms, c) && i < |c.branches| && Extends(c, i, br) && br.head.count > c.HeadCount()
    ensures var irre := Irreversible(br.head, confirms);
      && IsAncestor(c.lastIrre, irre) && IsAncestor(irre, br.head) && c.lastIrre.count <= irre.count
      && irre.count == IrreversibleCount(br.head, confirms) && WellFormed(irre)
      && br.head.count == c.HeadCount() + 1
  {
    var irre := Irreversible(br.head, confirms);
    AtIsAncestor(br.head, IrreversibleCount(br.head, confirms));
    AncestorCount(irre, br.head);
    AncestorCount(c.lastIrre, c.branches[i].head);
    AncestorsOrdered(c.lastIrre, irre, br.head);
  }

  /** br extends branch i beyond the head, and irre is the block it makes irreversible. */
  ghost predicate Overtakes(confirms: nat, c: Chain, i: nat, br: Branch, irre: Node) {
    && Shape(c) && Longest(confirms, c) && i < |c.branches| && Extends(c, i, br)
    && br.head.count > c.HeadCount() && irre == Irreversible(br.head, confirms)
  }

  /** Each branch after the switch is br or an old branch that descends from the new irreversible
      block, with the cleared sets. */
  lemma SwitchedFrom(confirms: nat, c: Chain, i: nat, br: Branch, irre: Node, l: Ledger, k: nat) returns (b: Branch)
    requires Overtakes(confirms, c, i, br, irre) && k < |SwitchTo(c, i, br, irre, l).branches|
    ensures b == br || b in c.branches
    ensures var confirmed := TxsOf(NodesFrom(irre, c.lastIrre.count + 1));
      && IsAncestor(irre, b.head) && WellFormed(b.head)
      && SwitchTo(c, i, br, irre, l).branches[k] == ClearTxs(b, confirmed, Stale(c.pool, confirmed, l))
  {
    IrreversibleMoves(confirms, c, i, br);
    SurvivorsFrom(c.branches, i, br, irre, k);
    b := Survivors(c.branches, i, br, irre)[k];
    if b != br { DescendsIff(b.head, irre); }
  }

  lemma SwitchShape(confirms: nat, c: Chain, i: nat, br: Branch, irre: Node, l: Ledger)
    requires Overtakes(confirms, c, i, br, irre)
    ensures var d := SwitchTo(c, i, br, irre, l);
      && Shape(d) && Longest(confirms, d) && d.branches[d.headIndex].head == br.head
      && IsAncestor(c.lastIrre, d.lastIrre) && d.HeadCount() == c.HeadCount() + 1
  {
    var d := SwitchTo(c, i, br, irre, l);
    IrreversibleMoves(confirms, c, i, br);
    SurvivorsAt(c.branches, i, br, irre);
    forall k | 0 <= k < |d.branches|
      ensures WellFormed(d.branches[k].head) && IsAncestor(d.lastIrre, d.branches[k].head)
      ensures d.branches[k].head.count <= br.head.count
    {
      var b := SwitchedFrom(confirms, c, i, br, irre, l, k);
    }
  }

  lemma {:induction false} SizesLater(n: Node, c: nat, d: nat)
    requires Sizes(n, c) && c <= d
    ensures Sizes(n, d)
  {
    if n.count > d && n.parent.Some? { SizesLater(n.parent.value, c, d); }
  }

  /** Moving the irreversible block and clearing the sets keeps a branch accounted for. */
  lemma {:induction false} ClearAccounted(last: Node, irre: Node, pool: set<Tx>, br: Branch, expired: set<Tx>)
    requires Accounted(last, pool, br) && WellFormed(br.head) && IsAncestor(irre, br.head) && last.count <= irre.count
    ensures var confirmed := TxsOf(NodesFrom(irre, last.count + 1));
      Accounted(irre, pool - confirmed - expired, ClearTxs(br, confirmed, expired))
  {
    AncestorCount(irre, br.head);
    TxsSplit(br.head, irre, last.count);
    NodesTxs(irre, last.count);
    NoDupConcat(TxsAfter(irre, last.count), TxsAfter(br.head, irre.count));
    SizesLater(br.head, last.count, irre.count);
  }

  lemma SwitchPools(confirms: nat, c: Chain, i: nat, br: Branch, irre: Node, l: Ledger)
    requires Overtakes(confirms, c, i, br, irre) && Pools(c)
    ensures Pools(SwitchTo(c, i, br, irre, l))
  {
    var d := SwitchTo(c, i, br, irre, l);
    IrreversibleMoves(confirms, c, i, br);
    forall k | 0 <= k < |d.branches| ensures Accounted(d.lastIrre, d.pool, d.branches[k]) {
      var b := SwitchedFrom(confirms, c, i, br, irre, l, k);
      assert Accounted(c.lastIrre, c.pool, b);
      ClearAccounted(c.lastIrre, irre, c.pool, b, Stale(c.pool, TxsOf(NodesFrom(irre, c.lastIrre.count + 1)), l));
    }
  }

  lemma {:induction false} IrreversibleLedger(cfg: Config, g: Ledger, head: Node, irre: Node, last: Node)
    requires WellFormed(head) && IsAncestor(irre, head) && IsAncestor(last, irre) && LedgerAt(cfg, g, head).Some?
    ensures LedgerAt(cfg, g, last).Some? && LedgerAt(cfg, g, irre).Some?
    ensures ApplyNodes(cfg, LedgerAt(cfg, g, last).value, NodesFrom(irre, last.count + 1)) == LedgerAt(cfg, g, irre)
  {
    AncestorCount(irre, head);
    LedgerAtAncestor(cfg, g, head, irre);
    LedgerAtAncestor(cfg, g, irre, last);
    ApplyNodesPath(cfg, g, irre, last);
  }

  lemma {:induction false} SwitchIs(cfg: Config, confirms: nat, c: Chain, i: nat, br: Branch, irre: Node, l: Ledger)
    requires i < |c.branches| && irre == Irreversible(br.head, confirms)
    requires ApplyNodes(cfg, c.immutable, NodesFrom(irre, c.lastIrre.count + 1)) == Some(l)
    ensures Switch(cfg, confirms, c, i, br) == Done(SwitchTo(c, i, br, irre, l))
  {
    SwitchOutcome(cfg, confirms, c, i, br, irre);
    assert SwitchOn(c, i, br, irre, Some(l)) == Done(SwitchTo(c, i, br, irre, l));
  }

  /** With a valid new head the irreversible ledger can always follow, so the node does not exit. */
  lemma {:induction false} SwitchDone(cfg: Config, g: Ledger, confirms: nat, c: Chain, i: nat, br: Branch, irre: Node)
    requires Overtakes(confirms, c, i, br, irre)
    requires LedgerAt(cfg, g, c.lastIrre) == Some(c.immutable) && LedgerAt(cfg, g, br.head).Some?
    ensures LedgerAt(cfg, g, irre).Some?
    ensures Switch(cfg, confirms, c, i, br) == Done(SwitchTo(c, i, br, irre, LedgerAt(cfg, g, irre).value))
  {
    IrreversibleMoves(confirms, c, i, br);
    IrreversibleLedger(cfg, g, br.head, irre, c.lastIrre);
    SwitchIs(cfg, confirms, c, i, br, irre, LedgerAt(cfg, g, irre).value);
  }

  lemma {:induction false} SwitchLedgers(cfg: Config, g: Ledger, confirms: nat, c: Chain, i: nat, br: Branch,
      irre: Node, l: Ledger)
    requires Overtakes(confirms, c, i, br, irre) && Ledgers(cfg, g, c) && Previews(cfg, g, br)
    requires LedgerAt(cfg, g, irre) == Some(l)
    ensures Ledgers(cfg, g, SwitchTo(c, i, br, irre, l))
  {
    var d := SwitchTo(c, i, br, irre, l);
    forall k | 0 <= k < |d.branches| ensures Previews(cfg, g, d.branches[k]) {
      var b := SwitchedFrom(confirms, c, i, br, irre, l, k);
      assert Previews(cfg, g, b);
    }
  }

  lemma SwitchExact(cfg: Config, g: Ledger, confirms: nat, c: Chain, i: nat, br: Branch, irre: Node, l: Ledger)
    requires Overtakes(confirms, c, i, br, irre) && AllExact(cfg, g, c) && Exact(cfg, g, br)
    ensures AllExact(cfg, g, SwitchTo(c, i, br, irre, l))
  {
    var d := SwitchTo(c, i, br, irre, l);
    forall k | 0 <= k < |d.branches| ensures Exact(cfg, g, d.branches[k]) {
      var b := SwitchedFrom(confirms, c, i, br, irre, l, k);
      assert Exact(cfg, g, b);
    }
  }

  // ---------------------------------------------------------------- forks

  lemma {:induction false} FindParentExact(branches: seq<Branch>, h: BlockHash, min: nat)
    requires forall i :: 0 <= i < |branches| ==> WellFormed(branches[i].head)
    ensures match FindParent(branches, h, min)
            case Some(p) => p.Hash() == h && p.count >= min &&
              (exists i :: 0 <= i < |branches| && IsAncestor(p, branches[i].head))
            case None => forall i, a :: 0 <= i < |branches| && IsAncestor(a, branches[i].head) && a.count >= min ==>
              a.Hash() != h
  {
    if branches != [] {
      FindFromExact(branches[0].head, h, min);
      FindParentExact(branches[1..], h, min);
      if FindFrom(branches[0].head, h, min).None? {
        match FindParent(branches[1..], h, min)
        case Some(p) =>
          var i :| 0 <= i < |branches[1..]| && IsAncestor(p, branches[1..][i].head);
          assert IsAncestor(p, branches[i + 1].head);
        case None =>
          forall i, a | 0 <= i < |branches| && IsAncestor(a, branches[i].head) && a.count >= min ensures a.Hash() != h {
            if i > 0 { assert branches[i] == branches[1..][i - 1]; }
          }
      }
    }
  }

  /** A fork rests on the irreversible block and its branch is accounted for. */
  lemma ForkAccounted(cfg: Config, c: Chain, b: Block)
    requires Shape(c) && Pools(c) && FindParent(c.branches, b.parent, c.lastIrre.count).Some?
    requires var n := NewNode(b, FindParent(c.branches, b.parent, c.lastIrre.count));
      NewBranch(cfg, c.lastIrre, n, c.immutable, c.pool).Some?
    ensures var head := NewNode(b, FindParent(c.branches, b.parent, c.lastIrre.count));
      var br := NewBranch(cfg, c.lastIrre, head, c.immutable, c.pool).value;
      && br.head == head && WellFormed(head) && IsAncestor(c.lastIrre, head) && Accounted(c.lastIrre, c.pool, br)
  {
    FindParentExact(c.branches, b.parent, c.lastIrre.count);
    var p := FindParent(c.branches, b.parent, c.lastIrre.count).value;
    var i :| 0 <= i < |c.branches| && IsAncestor(p, c.branches[i].head);
    AncestorCount(p, c.branches[i].head);
    AncestorsOrdered(c.lastIrre, p, c.branches[i].head);
    PackPathSets(cfg, Pack(c.immutable, {}, c.pool), NewNode(b, Some(p)), c.lastIrre);
  }

  /** The branch of a fork shows the exact ledger of its path. */
  lemma {:induction false} ForkExact(cfg: Config, g: Ledger, c: Chain, head: Node)
    requires WellFormed(head) && IsAncestor(c.lastIrre, head) && LedgerAt(cfg, g, c.lastIrre) == Some(c.immutable)
    requires NewBranch(cfg, c.lastIrre, head, c.immutable, c.pool).Some?
    ensures Exact(cfg, g, NewBranch(cfg, c.lastIrre, head, c.immutable, c.pool).value)
  {
    PackPathSound(cfg, g, Pack(c.immutable, {}, c.pool), head, c.lastIrre);
  }
}
