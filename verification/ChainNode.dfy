/** The node itself: its fields are updated step by step, its branches are objects that may share
    committed indexes with arenas, and a storage transaction that fails must leave all of it as it
    was. Every operation is proved to take the step of the plain chain state. */
module ChainNodes {
  import opened Common
  import opened LedgerTypes
  import opened Transactions
  import opened MetaStates
  import opened BlockTree
  import opened ChainSpec
  import opened ChainLedger
  import opened BranchStates

  datatype Verdict = Accepted | Rejected | Exit

  /** What the caller sees of a step when the storage transaction succeeds or fails. */
  function Seen(r: Outcome, storageOk: bool): Verdict {
    match r
    case Done(_) => if storageOk then Accepted else Rejected
    case Refused => Rejected
    case Fatal => Exit
  }

  // ---------------------------------------------------------------- irreversible blocks

  lemma {:induction false} ApplyPrefix(cfg: Config, l: Ledger, txs: seq<Tx>, k: nat, h: nat)
    requires k <= |txs| && ApplyAll(cfg, l, txs[..k], h).None?
    ensures ApplyAll(cfg, l, txs, h).None?
    decreases |txs|
  {
    if k < |txs| {
      var init := txs[..|txs| - 1];
      assert init[..k] == txs[..k];
      ApplyPrefix(cfg, l, init, k, h);
    } else {
      assert txs[..k] == txs;
    }
  }

  lemma {:induction false} ApplyNext(cfg: Config, l: Ledger, txs: seq<Tx>, k: nat, h: nat)
    requires k < |txs| && ApplyAll(cfg, l, txs[..k], h).Some?
    ensures var r := Apply(cfg, ApplyAll(cfg, l, txs[..k], h).value, txs[k], h);
      ApplyAll(cfg, l, txs[..k + 1], h) == if r.err.NoErr? then Some(r.ledger) else None
  {
    assert txs[..k + 1][..k] == txs[..k];
  }

  /** Applies a block's transactions; stops at the first that fails. */
  method ApplyTxs(cfg: Config, s: MetaState, txs: seq<Tx>, h: nat) returns (ok: bool)
    modifies s`dirty
    ensures ok <==> ApplyAll(cfg, old(s.View()), txs, h).Some?
    ensures ok ==> ApplyAll(cfg, old(s.View()), txs, h) == Some(s.View())
  {
    ghost var l := s.View();
    for k := 0 to |txs|
      invariant ApplyAll(cfg, l, txs[..k], h) == Some(s.View())
    {
      ApplyNext(cfg, l, txs, k, h);
      var err := s.Apply(cfg, txs[k], h);
      if !err.NoErr? {
        ApplyPrefix(cfg, l, txs, k + 1, h);
        return false;
      }
    }
    assert txs[..|txs|] == txs;
    ok := true;
  }

  lemma {:induction false} NodesNext(cfg: Config, l: Ledger, nodes: seq<Node>, k: nat)
    requires k < |nodes| && ApplyNodes(cfg, l, nodes[..k]).Some?
    ensures ApplyNodes(cfg, l, nodes[..k + 1]) ==
      ApplyAll(cfg, ApplyNodes(cfg, l, nodes[..k]).value, nodes[k].block.txs, nodes[k].Height())
  {
    assert nodes[..k + 1][..k] == nodes[..k];
  }

  lemma {:induction false} NodesPrefix(cfg: Config, l: Ledger, nodes: seq<Node>, k: nat)
    requires k <= |nodes| && ApplyNodes(cfg, l, nodes[..k]).None?
    ensures ApplyNodes(cfg, l, nodes).None?
    decreases |nodes|
  {
    if k < |nodes| {
      var init := nodes[..|nodes| - 1];
      assert init[..k] == nodes[..k];
      NodesPrefix(cfg, l, init, k);
    } else {
      assert nodes[..k] == nodes;
    }
  }

  lemma TxsOfNext(nodes: seq<Node>, k: nat)
    requires k < |nodes|
    ensures TxsOf(nodes[..k + 1]) == TxsOf(nodes[..k]) + ToSet(nodes[k].block.txs)
  {
    assert nodes[..k + 1] == nodes[..k] + [nodes[k]];
    forall t | t in TxsOf(nodes[..k]) ensures t in TxsOf(nodes[..k + 1]) {
      var n :| n in nodes[..k] && t in n.block.txs;
      assert n in nodes[..k + 1];
    }
    assert nodes[k] in nodes[..k + 1];
  }

  /** Applies newly irreversible blocks and takes their transactions out of the pool. */
  method Confirm(cfg: Config, s: MetaState, nodes: seq<Node>, pool: set<Tx>) returns (ok: bool, left: set<Tx>)
    modifies s`dirty
    ensures ok <==> ApplyNodes(cfg, old(s.View()), nodes).Some?
    ensures ok ==> ApplyNodes(cfg, old(s.View()), nodes) == Some(s.View()) && left == pool - TxsOf(nodes)
  {
    ghost var l := s.View();
    left := pool;
    for k := 0 to |nodes|
      invariant ApplyNodes(cfg, l, nodes[..k]) == Some(s.View()) && left == pool - TxsOf(nodes[..k])
    {
      NodesNext(cfg, l, nodes, k);
      TxsOfNext(nodes, k);
      ok := ApplyTxs(cfg, s, nodes[k].block.txs, nodes[k].Height());
      if !ok {
        NodesPrefix(cfg, l, nodes, k + 1);
        return;
      }
      left := left - ToSet(nodes[k].block.txs);
    }
    assert nodes[..|nodes|] == nodes;
    ok := true;
  }

  /** Pending transactions whose nonce has been used up. */
  method FindExpired(s: MetaState, pool: set<Tx>, ghost all: set<Tx>, ghost confirmed: set<Tx>)
    returns (expired: set<Tx>)
    requires pool == all - confirmed
    ensures expired == Stale(all, confirmed, s.View())
  {
    expired := {};
    var left := pool;
    while left != {}
      invariant left <= pool
      invariant forall t :: t in expired <==> t in pool && t !in left && Expired(s.View(), t)
      decreases left
    {
      var t :| t in left;
      var base := s.NextNonce(t.Sender());
      if base.None? || t.nonce < base.value { expired := expired + {t}; }
      left := left - {t};
    }
  }

  // ---------------------------------------------------------------- sequences of branches

  /** The branch objects show the given values. */
  ghost predicate Shown(bs: seq<BranchState>, vs: seq<Branch>)
    reads bs, set b | b in bs :: b.preview, set b | b in bs :: b.preview.readonly
  {
    |bs| == |vs| && forall k :: 0 <= k < |bs| ==> bs[k].Value() == vs[k]
  }

  /** No object is part of two branches. */
  ghost predicate Apart(a: BranchState, b: BranchState) {
    a != b && a.preview != b.preview && a.preview.readonly != b.preview.readonly
  }

  ghost predicate Separate(bs: seq<BranchState>) {
    forall i, j :: 0 <= i < j < |bs| ==> Apart(bs[i], bs[j])
  }

  lemma DistinctFrom(bs: seq<BranchState>, k: nat)
    requires Separate(bs) && k < |bs|
    ensures forall j :: 0 <= j < |bs| && j != k ==> bs[j] != bs[k]
  {
    forall j | 0 <= j < |bs| && j != k ensures bs[j] != bs[k] {
      assert Apart(bs[if j < k then j else k], bs[if j < k then k else j]);
    }
  }

  /** A branch that owns its preview, apart from the irreversible state, with nothing uncommitted. */
  ghost predicate AllSettled(bs: seq<BranchState>, s: MetaState)
    reads bs, set b | b in bs :: b.preview
  {
    forall k :: 0 <= k < |bs| ==> Settled(bs[k], s)
  }

  ghost predicate Settled(b: BranchState, s: MetaState)
    reads b, b.preview
  {
    b.preview != s && b.preview.readonly != s.readonly && b.preview.dirty == CLEAN && WellFormed(b.head)
  }

  lemma {:induction false} SurvivorsNext(vs: seq<Branch>, i: nat, br: Branch, irre: Node, k: nat)
    requires k < |vs|
    ensures Survivors(vs[..k + 1], i, br, irre) ==
      Survivors(vs[..k], i, br, irre) +
      (if k == i then [br] else if Descends(vs[k].head, irre) then [vs[k]] else [])
  {
    assert vs[..k + 1][..k] == vs[..k];
  }

  /** The branches that survive the new irreversible block, with branch i replaced by nb. */
  method Prune(bs: seq<BranchState>, i: nat, nb: BranchState, irre: Node,
               ghost cs: seq<BranchState>, ghost vs: seq<Branch>, ghost br: Branch)
    returns (rs: seq<BranchState>, idx: nat, ghost src: seq<nat>)
    requires |bs| == |vs| && i < |bs| && cs == bs[i := nb] && Shown(cs, vs[i := br])
    requires forall k :: 0 <= k < |cs| ==> WellFormed(cs[k].head)
    ensures Shown(rs, Survivors(vs, i, br, irre))
    ensures idx == |Survivors(vs[..i], i, br, irre)| && idx < |rs| && rs[idx] == nb
    ensures |src| == |rs| && (forall m :: 0 <= m < |rs| ==> src[m] < |cs| && rs[m] == cs[src[m]])
    ensures forall m, n :: 0 <= m < n < |rs| ==> src[m] < src[n]
  {
    rs, idx, src := [], 0, [];
    for k := 0 to |bs|
      invariant Shown(rs, Survivors(vs[..k], i, br, irre))
      invariant i < k ==> idx == |Survivors(vs[..i], i, br, irre)| && idx < |rs| && rs[idx] == nb
      invariant |src| == |rs| && forall m :: 0 <= m < |rs| ==> src[m] < k && rs[m] == cs[src[m]]
      invariant forall m, n :: 0 <= m < n < |rs| ==> src[m] < src[n]
    {
      SurvivorsNext(vs, i, br, irre, k);
      assert cs[k].Value() == vs[i := br][k];
      if k == i {
        idx := |rs|;
        rs, src := rs + [nb], src + [k];
      } else {
        assert WellFormed(cs[k].head);
        var keep := HasAncestor(bs[k].head, irre);
        if keep { rs, src := rs + [bs[k]], src + [k]; }
      }
    }
    assert vs[..|bs|] == vs;
  }

  method PruneSettled(bs: seq<BranchState>, i: nat, nb: BranchState, irre: Node,
                      ghost cs: seq<BranchState>, ghost vs: seq<Branch>, ghost br: Branch, ghost s: MetaState)
    returns (rs: seq<BranchState>, idx: nat)
    requires |bs| == |vs| && i < |bs| && cs == bs[i := nb] && Shown(cs, vs[i := br]) && Separate(cs) &&
      AllSettled(cs, s)
    ensures Shown(rs, Survivors(vs, i, br, irre)) && Separate(rs) && AllSettled(rs, s)
    ensures idx == |Survivors(vs[..i], i, br, irre)| && idx < |rs| && rs[idx] == nb
    ensures forall k :: 0 <= k < |rs| ==> rs[k] in cs
  {
    ghost var src;
    rs, idx, src := Prune(bs, i, nb, irre, cs, vs, br);
    forall j, k | 0 <= j < k < |rs| ensures Apart(rs[j], rs[k]) {
      assert Apart(cs[src[j]], cs[src[k]]);
    }
  }

  /** Takes the confirmed and the expired transactions out of a branch. */
  method ClearBranch(b: BranchState, nodes: seq<Node>, expired: set<Tx>)
    modifies b`packed, b`unpacked
    ensures b.Value() == ClearTxs(old(b.Value()), TxsOf(nodes), expired)
  {
    for k := 0 to |nodes|
      invariant b.packed == old(b.packed) - TxsOf(nodes[..k]) && b.unpacked == old(b.unpacked)
    {
      TxsOfNext(nodes, k);
      b.ClearPacked(nodes[k].block.txs);
    }
    assert nodes[..|nodes|] == nodes;
    b.ClearUnpacked(expired);
  }

  method ClearBranches(bs: seq<BranchState>, nodes: seq<Node>, expired: set<Tx>, ghost vs: seq<Branch>,
      ghost s: MetaState)
    requires Shown(bs, vs) && Separate(bs) && AllSettled(bs, s)
    modifies bs
    ensures Shown(bs, ClearAll(vs, TxsOf(nodes), expired)) && AllSettled(bs, s)
  {
    for k := 0 to |bs|
      invariant forall j :: 0 <= j < |bs| ==> bs[j].head == old(bs[j].head)
      invariant forall j :: 0 <= j < k ==> bs[j].Value() == ClearTxs(vs[j], TxsOf(nodes), expired)
      invariant forall j :: k <= j < |bs| ==> bs[j].Value() == vs[j]
    {
      assert forall j :: 0 <= j < |bs| && j != k ==> bs[j] != bs[k] by { DistinctFrom(bs, k); }
      ClearBranch(bs[k], nodes, expired);
    }
  }

  method PruneAndClear(bs: seq<BranchState>, i: nat, nb: BranchState, irre: Node, nodes: seq<Node>, expired: set<Tx>,
      ghost cs: seq<BranchState>, ghost vs: seq<Branch>, ghost br: Branch, ghost s: MetaState)
    returns (rs: seq<BranchState>, idx: nat)
    requires |bs| == |vs| && i < |bs| && cs == bs[i := nb] && Shown(cs, vs[i := br]) && Separate(cs) &&
      AllSettled(cs, s)
    modifies cs
    ensures Shown(rs, ClearAll(Survivors(vs, i, br, irre), TxsOf(nodes), expired)) && Separate(rs) && AllSettled(rs, s)
    ensures idx == |Survivors(vs[..i], i, br, irre)| && idx < |rs| && rs[idx] == nb
  {
    rs, idx := PruneSettled(bs, i, nb, irre, cs, vs, br, s);
    ClearBranches(rs, nodes, expired, Survivors(vs, i, br, irre), s);
  }

  method AddToAll(bs: seq<BranchState>, tx: Tx, ghost vs: seq<Branch>, ghost s: MetaState)
    requires Shown(bs, vs) && Separate(bs) && AllSettled(bs, s)
    modifies bs
    ensures Shown(bs, AddTxAll(vs, tx)) && AllSettled(bs, s)
  {
    for k := 0 to |bs|
      invariant forall j :: 0 <= j < |bs| ==> bs[j].head == old(bs[j].head)
      invariant forall j :: 0 <= j < k ==> bs[j].Value() == AddTx(vs[j], tx)
      invariant forall j :: k <= j < |bs| ==> bs[j].Value() == vs[j]
    {
      assert forall j :: 0 <= j < |bs| && j != k ==> bs[j] != bs[k] by { DistinctFrom(bs, k); }
      bs[k].AddTx(tx);
    }
  }

  // ---------------------------------------------------------------- searching the branches

  lemma {:induction false} FindHeadIs(vs: seq<Branch>, h: BlockHash, i: nat)
    requires i <= |vs| && (forall j :: 0 <= j < i ==> vs[j].head.Hash() != h) && (i < |vs| ==> vs[i].head.Hash() == h)
    ensures FindHead(vs, h) == i
  {
    if i > 0 { FindHeadIs(vs[1..], h, i - 1); }
  }

  /** The first branch whose head has the given hash. */
  method SearchHead(bs: seq<BranchState>, h: BlockHash, ghost vs: seq<Branch>) returns (i: nat)
    requires Shown(bs, vs)
    ensures i == FindHead(vs, h)
  {
    i := 0;
    while i < |bs| && bs[i].head.Hash() != h
      invariant i <= |bs| && forall j :: 0 <= j < i ==> vs[j].head.Hash() != h
    {
      assert bs[i].Value() == vs[i];
      i := i + 1;
    }
    if i < |bs| { assert bs[i].Value() == vs[i]; }
    FindHeadIs(vs, h, i);
  }

  /** Whether some branch has the block at its height. */
  method SearchKnown(bs: seq<BranchState>, b: Block, ghost vs: seq<Branch>) returns (known: bool)
    requires Shown(bs, vs)
    ensures known == Known(vs, b)
  {
    for i := 0 to |bs|
      invariant forall j :: 0 <= j < i ==> !KnownOn(vs[j].head, b)
    {
      assert bs[i].Value() == vs[i];
      var n := Ancestor(bs[i].head, b.height);
      if n.Some? && n.value.Hash() == b.Hash() {
        assert KnownOn(vs[i].head, b);
        return true;
      }
    }
    return false;
  }

  lemma {:induction false} FindParentAt(vs: seq<Branch>, h: BlockHash, min: nat, i: nat)
    requires i <= |vs| && forall j :: 0 <= j < i ==> FindFrom(vs[j].head, h, min).None?
    ensures FindParent(vs, h, min) == if i == |vs| then None else FindParent(vs[i..], h, min)
  {
    if i > 0 {
      FindParentAt(vs[1..], h, min, i - 1);
      assert i < |vs| ==> vs[1..][i - 1..] == vs[i..];
    } else {
      assert vs[0..] == vs;
    }
  }

  /** The parent of a fork, and that it is well formed. */
  method SearchParent(bs: seq<BranchState>, h: BlockHash, min: nat, ghost vs: seq<Branch>) returns (p: Option<Node>)
    requires Shown(bs, vs) && forall k :: 0 <= k < |bs| ==> WellFormed(bs[k].head)
    ensures p == FindParent(vs, h, min) && (p.Some? ==> WellFormed(p.value) && p.value.Hash() == h)
  {
    for i := 0 to |bs|
      invariant forall j :: 0 <= j < i ==> FindFrom(vs[j].head, h, min).None?
    {
      assert bs[i].Value() == vs[i];
      p := HasAncestorWithMinCount(bs[i].head, h, min);
      if p.Some? {
        FindFromExact(bs[i].head, h, min);
        AncestorCount(p.value, bs[i].head);
        FindParentAt(vs, h, min, i);
        return;
      }
    }
    FindParentAt(vs, h, min, |vs|);
    p := None;
  }

  // ---------------------------------------------------------------- the node

  lemma {:induction false} IrreversibleFormed(n: Node, confirms: nat)
    requires WellFormed(n)
    ensures WellFormed(Irreversible(n, confirms))
  {
    AtIsAncestor(n, IrreversibleCount(n, confirms));
    AncestorCount(Irreversible(n, confirms), n);
  }

  class ChainNode {
    var lastIrre: Node
    const immutable: MetaState
    var branches: seq<BranchState>
    var headIndex: nat
    var headBranch: BranchState
    var txPool: set<Tx>
    var storage: Storage

    constructor (lastIrre: Node, immutable: MetaState, branches: seq<BranchState>, headIndex: nat, txPool: set<Tx>,
        storage: Storage)
      requires headIndex < |branches|
      ensures this.lastIrre == lastIrre && this.immutable == immutable && this.branches == branches
      ensures this.headIndex == headIndex && this.headBranch == branches[headIndex]
      ensures this.txPool == txPool && this.storage == storage
    {
      this.lastIrre, this.immutable, this.branches := lastIrre, immutable, branches;
      this.headIndex, this.headBranch, this.txPool, this.storage := headIndex, branches[headIndex], txPool, storage;
    }

    ghost predicate Valid()
      reads this, immutable, immutable.readonly, branches
      reads set b | b in branches :: b.preview
    {
      && headIndex < |branches| && headBranch == branches[headIndex]
      && immutable.dirty == CLEAN && storage.ledger == immutable.readonly.Content()
      && Separate(branches)
      && (AllSettled(branches, immutable))
    }

    /** The node is in state v. */
    ghost predicate Shows(v: Chain)
      reads this, immutable, immutable.readonly, branches
      reads set b | b in branches :: b.preview
      reads set b | b in branches :: b.preview.readonly
    {
      && v.lastIrre == lastIrre && v.immutable == immutable.View() && v.headIndex == headIndex
      && v.pool == txPool && v.db == storage && Shown(branches, v.branches)
    }

    /** A pooled transaction reaches every branch, or nothing changes. */
    method StoreTx(tx: Tx, storageOk: bool, ghost v: Chain) returns (res: Verdict)
      requires Valid() && Shows(v)
      modifies this, branches
      ensures Valid() && res == Seen(ChainSpec.StoreTx(v, tx), storageOk)
      ensures Shows(if res.Accepted? then ChainSpec.StoreTx(v, tx).chain else v)
    {
      if tx in txPool || !storageOk { return Rejected; }
      txPool := txPool + {tx};
      storage := storage.(pool := storage.pool + {tx});
      AddToAll(branches, tx, v.branches, immutable);
      return Accepted;
    }

    /** A submitted transaction is pooled if it verifies and its nonce is in the window. */
    method Submit(tx: Tx, storageOk: bool, ghost v: Chain) returns (res: Verdict)
      requires Valid() && Shows(v)
      modifies this, branches
      ensures Valid() && res == (if Admits(v, tx) && storageOk then Accepted else Rejected)
      ensures Shows(if res.Accepted? then ChainSpec.StoreTx(v, tx).chain else v)
    {
      if tx in txPool || !tx.Verify() { return Rejected; }
      var base := immutable.NextNonce(tx.Sender());
      if base.None? || tx.nonce < base.value || tx.nonce >= base.value + MAX_PENDING_TXS { return Rejected; }
      res := StoreTx(tx, storageOk, v);
    }

    /** nb may take the place of branch i: it shares that branch's index and nothing else. */
    ghost predicate Arena(i: nat, nb: BranchState)
      reads this, nb
    {
      && i < |branches| && nb.preview.readonly == branches[i].preview.readonly && nb.preview != immutable
      && WellFormed(nb.head)
      && (forall k :: 0 <= k < |branches| ==> nb != branches[k] && nb.preview != branches[k].preview)
    }

    /** The changes of the irreversible ledger and of nb become part of their indexes; no other
        branch notices. */
    method CommitBoth(i: nat, nb: BranchState, ghost cs: seq<BranchState>, ghost vs: seq<Branch>, ghost br: Branch)
      requires Separate(branches) && Arena(i, nb) && cs == branches[i := nb]
      requires AllSettled(branches, immutable)
      requires Shown(branches, vs) && nb.Value() == br
      modifies immutable`dirty, immutable.readonly, nb.preview`dirty, nb.preview.readonly
      ensures immutable.dirty == CLEAN && immutable.readonly.Content() == immutable.View() == old(immutable.View())
      ensures Separate(cs) && Shown(cs, vs[i := br])
      ensures AllSettled(cs, immutable)
    {
      immutable.Commit();
      nb.preview.Commit();
      forall k | 0 <= k < |cs| ensures cs[k].Value() == vs[i := br][k] && Settled(cs[k], immutable) {
        if k < i { assert Apart(branches[k], branches[i]); }
        if i < k { assert Apart(branches[i], branches[k]); }
      }
      forall j, k | 0 <= j < k < |cs| ensures Apart(cs[j], cs[k]) {
        assert Apart(branches[j], branches[k]);
      }
    }

    /** The surviving branches replace the old ones and lose settled transactions. */
    method Replace(i: nat, nb: BranchState, irre: Node, nodes: seq<Node>, expired: set<Tx>, pool: set<Tx>,
        tables: Storage, ghost cs: seq<BranchState>, ghost vs: seq<Branch>, ghost br: Branch)
      requires i < |branches| == |vs| && cs == branches[i := nb] && Separate(cs) && Shown(cs, vs[i := br])
      requires AllSettled(cs, immutable) && immutable.dirty == CLEAN && tables.ledger == immutable.readonly.Content()
      modifies this, cs
      ensures Valid() && lastIrre == irre && txPool == pool && storage == tables
      ensures headIndex == |Survivors(vs[..i], i, br, irre)|
      ensures Shown(branches, ClearAll(Survivors(vs, i, br, irre), TxsOf(nodes), expired))
    {
      var rs, idx := PruneAndClear(branches, i, nb, irre, nodes, expired, cs, vs, br, immutable);
      lastIrre, txPool, storage := irre, pool, tables;
      branches, headIndex, headBranch := rs, idx, nb;
    }

    /** Everything that becomes visible once the storage transaction has been written. */
    method Install(i: nat, nb: BranchState, irre: Node, nodes: seq<Node>, expired: set<Tx>, pool: set<Tx>,
        tables: Storage, ghost v: Chain, ghost br: Branch)
      requires Separate(branches) && Arena(i, nb) && AllSettled(branches, immutable)
      requires Shown(branches, v.branches) && nb.Value() == br && tables.ledger == immutable.View()
      modifies this, immutable, immutable.readonly, branches, nb, nb.preview, nb.preview.readonly
      ensures Valid() && immutable.View() == old(immutable.View())
      ensures lastIrre == irre && txPool == pool && storage == tables
      ensures headIndex == |Survivors(v.branches[..i], i, br, irre)|
      ensures Shown(branches, ClearAll(Survivors(v.branches, i, br, irre), TxsOf(nodes), expired))
    {
      ghost var cs := branches[i := nb];
      CommitBoth(i, nb, cs, v.branches, br);
      Replace(i, nb, irre, nodes, expired, pool, tables, cs, v.branches, br);
    }

    /** The irreversible ledger follows the new irreversible blocks, not yet committed; the branches
        do not notice. */
    method Follow(cfg: Config, irre: Node, nb: BranchState, ghost v: Chain, ghost br: Branch)
      returns (ok: bool, nodes: seq<Node>, left: set<Tx>)
      requires Valid() && Shows(v) && nb.preview != immutable && nb.Value() == br && WellFormed(irre)
      modifies immutable`dirty
      ensures nodes == NodesFrom(irre, v.lastIrre.count + 1)
      ensures ok <==> ApplyNodes(cfg, v.immutable, nodes).Some?
      ensures ok ==> ApplyNodes(cfg, v.immutable, nodes) == Some(immutable.View()) && left == v.pool - TxsOf(nodes)
      ensures AllSettled(branches, immutable) && Shown(branches, v.branches) && nb.Value() == br
    {
      nodes := FetchNodeList(irre, lastIrre.count + 1);
      ok, left := Confirm(cfg, immutable, nodes, txPool);
    }

    /** The statements that persist a switch, run on the tables. */
    method Persist(block: Block, irre: Node, nodes: seq<Node>, expired: set<Tx>) returns (tables: Storage)
      requires storage.ledger == immutable.readonly.Content()
      ensures tables == Storage(storage.blocks + [block], storage.pool - TxsOf(nodes) - expired, irre.Hash(),
        immutable.View())
    {
      var sps := immutable.CompileChanges([]);
      assert sps[0..] == sps;
      tables := Storage(storage.blocks + [block], storage.pool - TxsOf(nodes) - expired, irre.Hash(),
        RunAll(storage.ledger, sps));
    }

    /** The storage transaction failed: the changes of the irreversible ledger are dropped. */
    method Abort(ghost v: Chain)
      requires headIndex < |branches| && headBranch == branches[headIndex] && Separate(branches)
      requires AllSettled(branches, immutable) && storage.ledger == immutable.readonly.Content() == v.immutable
      requires v.lastIrre == lastIrre && v.headIndex == headIndex && v.pool == txPool && v.db == storage
      requires Shown(branches, v.branches)
      modifies immutable`dirty
      ensures Valid() && Shows(v)
    {
      immutable.Clean();
    }

    method Finish(i: nat, nb: BranchState, irre: Node, nodes: seq<Node>, left: set<Tx>, ghost v: Chain,
        ghost br: Branch)
      requires Separate(branches) && Arena(i, nb) && AllSettled(branches, immutable) && Shown(branches, v.branches)
      requires storage.ledger == immutable.readonly.Content() && storage == v.db && nb.Value() == br
      requires nodes == NodesFrom(irre, v.lastIrre.count + 1) && left == v.pool - TxsOf(nodes)
      modifies this, immutable, immutable.readonly, branches, nb, nb.preview, nb.preview.readonly
      ensures Valid() && Shows(SwitchTo(v, i, br, irre, old(immutable.View())))
    {
      var expired := FindExpired(immutable, left, v.pool, TxsOf(nodes));
      var tables := Persist(nb.head.block, irre, nodes, expired);
      ghost var d := SwitchTo(v, i, br, irre, immutable.View());
      assert d.pool == left - expired && d.db == tables;
      Install(i, nb, irre, nodes, expired, left - expired, tables, v, br);
    }

    /** Irreversible blocks are applied and everything is written; nothing is kept of it if the
        storage transaction fails. */
    method Switch(cfg: Config, confirms: nat, i: nat, nb: BranchState, storageOk: bool, ghost v: Chain,
        ghost br: Branch)
      returns (res: Verdict, ghost r: Outcome)
      requires Valid() && Shows(v) && Arena(i, nb) && nb.Value() == br
      modifies this, immutable, immutable.readonly, branches, nb, nb.preview, nb.preview.readonly
      ensures r == ChainSpec.Switch(cfg, confirms, v, i, br) && res == Seen(r, storageOk)
      ensures res.Rejected? ==> Valid() && Shows(v)
      ensures res.Accepted? ==> Valid() && Shows(r.chain)
    {
      OverClean(immutable.readonly.Content());
      IrreversibleFormed(nb.head, confirms);
      var irre := LastIrreversible(nb.head, confirms);
      SwitchOutcome(cfg, confirms, v, i, br, irre);
      r := ChainSpec.Switch(cfg, confirms, v, i, br);
      var ok, nodes, left := Follow(cfg, irre, nb, v, br);
      if !ok {
        res := Exit;
      } else if !storageOk {
        Abort(v);
        res := Rejected;
      } else {
        Finish(i, nb, irre, nodes, left, v, br);
        res := Accepted;
      }
    }

    /** A side branch grows: its new version takes the place of the old one. */
    method InstallSide(i: nat, nb: BranchState, ghost v: Chain, ghost br: Branch)
      requires Valid() && Shows(v) && Arena(i, nb) && nb.Value() == br && i != headIndex
      modifies this, nb.preview, nb.preview.readonly
      ensures Valid()
      ensures Shows(v.(branches := v.branches[i := br], db := v.db.(blocks := v.db.blocks + [br.head.block])))
    {
      ghost var cs := branches[i := nb];
      nb.preview.Commit();
      forall k | 0 <= k < |cs| ensures cs[k].Value() == v.branches[i := br][k] && Settled(cs[k], immutable) {
        if k < i { assert Apart(branches[k], branches[i]); }
        if i < k { assert Apart(branches[i], branches[k]); }
      }
      forall j, k | 0 <= j < k < |cs| ensures Apart(cs[j], cs[k]) {
        assert Apart(branches[j], branches[k]);
      }
      branches := branches[i := nb];
      storage := storage.(blocks := storage.blocks + [nb.head.block]);
    }

    /** A block on top of branch i. */
    method GrowBranch(cfg: Config, con: Config, confirms: nat, i: nat, b: Block, storageOk: bool, ghost v: Chain)
      returns (res: Verdict, ghost r: Outcome)
      requires Valid() && Shows(v) && i < |branches| && i == FindHead(v.branches, b.parent)
      modifies this, immutable, immutable.readonly, branches
      modifies set x | x in branches :: x.preview.readonly
      ensures r == ChainSpec.ApplyBlock(cfg, con, confirms, v, b) && res == Seen(r, storageOk)
      ensures res.Rejected? ==> Valid() && Shows(v)
      ensures res.Accepted? ==> Valid() && Shows(r.chain)
    {
      r := ChainSpec.ApplyBlock(cfg, con, confirms, v, b);
      assert Settled(branches[i], immutable) && branches[i].Value() == v.branches[i];
      var n := NewNode(b, Some(branches[i].head));
      var grown := branches[i].ApplyBlock(cfg, n);
      if grown.None? {
        res := Rejected;
      } else {
        var nb := grown.value;
        ghost var br := nb.Value();
        assert Grow(cfg, v.branches[i], b) == Some(br);
        assert Arena(i, nb);
        assert headBranch.Value() == v.branches[headIndex];
        if nb.head.count > headBranch.head.count {
          res, r := Switch(con, confirms, i, nb, storageOk, v, br);
        } else if !storageOk {
          res := Rejected;
        } else {
          InstallSide(i, nb, v, br);
          res := Accepted;
        }
      }
    }

    /** A new branch from the irreversible state. */
    method ForkBranch(cfg: Config, b: Block, p: Node, storageOk: bool, ghost v: Chain) returns (res: Verdict)
      requires Valid() && Shows(v) && WellFormed(p) && p.Hash() == b.parent
      modifies this
      ensures var spec := NewBranch(cfg, v.lastIrre, NewNode(b, Some(p)), v.immutable, v.pool);
        && res == (if spec.Some? && storageOk then Accepted else Rejected)
        && Valid()
        && Shows(if res.Accepted?
                 then v.(branches := v.branches + [spec.value], db := v.db.(blocks := v.db.blocks + [b])) else v)
    {
      OverClean(immutable.readonly.Content());
      var head := NewNode(b, Some(p));
      var built := BuildBranch(cfg, lastIrre, head, immutable, txPool);
      if built.None? || !storageOk { return Rejected; }
      AddBranch(built.value, b, v, built.value.Value());
      return Accepted;
    }

    method AddBranch(nb: BranchState, b: Block, ghost v: Chain, ghost br: Branch)
      requires Valid() && Shows(v) && Settled(nb, immutable) && nb.Value() == br
      requires forall k :: 0 <= k < |branches| ==> Apart(branches[k], nb)
      modifies this
      ensures Valid() && Shows(v.(branches := v.branches + [br], db := v.db.(blocks := v.db.blocks + [b])))
    {
      branches := branches + [nb];
      storage := storage.(blocks := storage.blocks + [b]);
    }

    /** A block that extends no head: known already, a fork, or without a parent here. */
    method ForkOrRefuse(cfg: Config, ghost con: Config, confirms: nat, b: Block, storageOk: bool, ghost v: Chain)
      returns (res: Verdict, ghost r: Outcome)
      requires Valid() && Shows(v) && FindHead(v.branches, b.parent) == |v.branches|
      modifies this
      ensures r == ChainSpec.ApplyBlock(cfg, con, confirms, v, b) && res == Seen(r, storageOk)
      ensures Valid() && Shows(if res.Accepted? then r.chain else v)
    {
      r := ChainSpec.ApplyBlock(cfg, con, confirms, v, b);
      var known := SearchKnown(branches, b, v.branches);
      if known { return Rejected, r; }
      assert forall k :: 0 <= k < |branches| ==> WellFormed(branches[k].head) by {
        assert forall k :: 0 <= k < |branches| ==> Settled(branches[k], immutable);
      }
      var p := SearchParent(branches, b.parent, lastIrre.count, v.branches);
      if p.None? { return Rejected, r; }
      res := ForkBranch(cfg, b, p.value, storageOk, v);
    }

    /** A received block grows a branch, is known already, forks, or has no parent here. */
    method ApplyBlock(cfg: Config, con: Config, confirms: nat, b: Block, storageOk: bool, ghost v: Chain)
      returns (res: Verdict, ghost r: Outcome)
      requires Valid() && Shows(v)
      modifies this, immutable, immutable.readonly, branches
      modifies set x | x in branches :: x.preview.readonly
      ensures r == ChainSpec.ApplyBlock(cfg, con, confirms, v, b) && res == Seen(r, storageOk)
      ensures res.Rejected? ==> Valid() && Shows(v)
      ensures res.Accepted? ==> Valid() && Shows(r.chain)
    {
      var i := SearchHead(branches, b.parent, v.branches);
      if i < |branches| {
        res, r := GrowBranch(cfg, con, confirms, i, b, storageOk, v);
      } else {
        res, r := ForkOrRefuse(cfg, con, confirms, b, storageOk, v);
      }
    }

    /** A block of pooled transactions on the head branch. */
    method ProduceAndStore(
      cfg: Config, con: Config, confirms: nat, height: nat, producer: nat, storageOk: bool, ghost v: Chain)
      returns (res: Verdict, ghost r: Outcome, ghost order: seq<Tx>)
      requires Valid() && Shows(v)
      modifies this, immutable, immutable.readonly, branches
      modifies set x | x in branches :: x.preview.readonly
      ensures IsOrder(order, v.branches[v.headIndex].pack.unpacked)
      ensures r == ProduceBlock(cfg, con, confirms, v, order, height, producer) && res == Seen(r, storageOk)
      ensures res.Rejected? ==> Valid() && Shows(v)
      ensures res.Accepted? ==> Valid() && Shows(r.chain)
    {
      var i := headIndex;
      assert Settled(branches[i], immutable) && branches[i].Value() == v.branches[i];
      var nb;
      nb, order := headBranch.ProduceBlock(cfg, height, producer);
      assert Arena(i, nb);
      res, r := Switch(con, confirms, i, nb, storageOk, v, nb.Value());
    }
  }
}
