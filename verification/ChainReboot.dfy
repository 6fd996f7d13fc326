/** Restarting a node from its tables. */
module ChainReboot {
  import opened Common
  import opened LedgerTypes
  import opened Transactions
  import opened LedgerFacts
  import opened BlockTree
  import opened ChainSpec
  import opened ChainLedger
  import opened ChainPaths
  import opened ChainInv
  import opened ChainStore
  import opened ChainRestart
  import opened LedgerTies
  import opened PathTies

  /** How ties fall while the branch of a head is rebuilt. */
  type HeadTies = Node -> Ties

  ghost function RebuiltBranch(cfg: Config, ties: HeadTies, db: Storage, irre: Node, head: Node): Option<Branch> {
    NewBranch(Retied(cfg, ties(head)), irre, head, db.ledger, db.pool)
  }

  /** A branch for every loaded head that descends from the irreversible block. */
  ghost function Rebuild(cfg: Config, ties: HeadTies, db: Storage, irre: Node, heads: seq<Node>): Option<seq<Branch>> {
    if heads == [] then Some([])
    else
      var last := heads[|heads| - 1];
      match Rebuild(cfg, ties, db, irre, heads[..|heads| - 1])
      case None => None
      case Some(bs) =>
        if !Descends(last, irre) then Some(bs)
        else
          match RebuiltBranch(cfg, ties, db, irre, last)
          case None => None
          case Some(br) => Some(bs + [br])
  }

  /** The first of the longest branches. */
  function PickHead(bs: seq<Branch>): (r: nat)
    requires bs != []
    ensures r < |bs| && forall i :: 0 <= i < |bs| ==> bs[i].head.count <= bs[r].head.count
  {
    if |bs| == 1 then 0
    else
      var k := PickHead(bs[..|bs| - 1]);
      assert forall i :: 0 <= i < |bs| - 1 ==> bs[i] == bs[..|bs| - 1][i];
      if bs[|bs| - 1].head.count > bs[k].head.count then |bs| - 1 else k
  }

  /** The node that starts from the tables, its heads loaded in the given order. */
  ghost function Restart(cfg: Config, ties: HeadTies, db: Storage, heads: seq<Node>): Outcome {
    if db.irre.NoParent? then Refused
    else
      var irre := NodeOf(db.irre.block);
      match Rebuild(cfg, ties, db, irre, heads)
      case None => Refused
      case Some(bs) =>
        if bs == [] then Refused else Done(Chain(irre, db.ledger, bs, PickHead(bs), db.pool, db))
  }

  /** Each rebuilt branch belongs to a loaded head, every such head has one, and no head has two. */
  ghost predicate RebuiltFrom(cfg: Config, ties: HeadTies, db: Storage, irre: Node, heads: seq<Node>, bs: seq<Branch>) {
    && (forall k :: 0 <= k < |bs| ==>
          bs[k].head in heads && Descends(bs[k].head, irre) &&
          RebuiltBranch(cfg, ties, db, irre, bs[k].head) == Some(bs[k]))
    && (forall n :: n in heads && Descends(n, irre) ==> exists k :: 0 <= k < |bs| && bs[k].head == n)
    && (forall i, j :: 0 <= i < j < |bs| ==> bs[i].head != bs[j].head)
  }

  lemma RebuiltStep(cfg: Config, ties: HeadTies, db: Storage, irre: Node, heads: seq<Node>, bs: seq<Branch>, last: Node)
    requires RebuiltFrom(cfg, ties, db, irre, heads, bs) && last !in heads
    ensures !Descends(last, irre) ==> RebuiltFrom(cfg, ties, db, irre, heads + [last], bs)
    ensures Descends(last, irre) && RebuiltBranch(cfg, ties, db, irre, last).Some? ==>
      RebuiltFrom(cfg, ties, db, irre, heads + [last], bs + [RebuiltBranch(cfg, ties, db, irre, last).value])
  {
    if Descends(last, irre) && RebuiltBranch(cfg, ties, db, irre, last).Some? {
      var br := RebuiltBranch(cfg, ties, db, irre, last).value;
      var cs := bs + [br];
      assert br.head == last && cs[|bs|] == br;
      forall n | n in heads + [last] && Descends(n, irre) ensures exists k :: 0 <= k < |cs| && cs[k].head == n {
        if n in heads {
          var k :| 0 <= k < |bs| && bs[k].head == n;
          assert cs[k].head == n;
        }
      }
    }
  }

  lemma {:induction false} RebuildIs(cfg: Config, ties: HeadTies, db: Storage, irre: Node, heads: seq<Node>)
    requires (forall i, j :: 0 <= i < j < |heads| ==> heads[i] != heads[j]) && Rebuild(cfg, ties, db, irre, heads).Some?
    ensures RebuiltFrom(cfg, ties, db, irre, heads, Rebuild(cfg, ties, db, irre, heads).value)
  {
    if heads != [] {
      var init, last := heads[..|heads| - 1], heads[|heads| - 1];
      RebuildIs(cfg, ties, db, irre, init);
      RebuiltStep(cfg, ties, db, irre, init, Rebuild(cfg, ties, db, irre, init).value, last);
      assert heads == init + [last];
    }
  }

  lemma {:induction false} RebuildWorks(cfg: Config, ties: HeadTies, db: Storage, irre: Node, heads: seq<Node>)
    requires forall n :: n in heads && Descends(n, irre) ==> RebuiltBranch(cfg, ties, db, irre, n).Some?
    ensures Rebuild(cfg, ties, db, irre, heads).Some?
  {
    if heads != [] { RebuildWorks(cfg, ties, db, irre, heads[..|heads| - 1]); }
  }

  // ---------------------------------------------------------------- leaves and live heads

  lemma {:induction false} ChildOnPath(a: Node, n: Node) returns (c: Node)
    requires IsAncestor(a, n) && a != n
    ensures IsAncestor(c, n) && c.parent == Some(a)
  {
    if n.parent.value == a { c := n; } else { c := ChildOnPath(a, n.parent.value); }
  }

  lemma {:induction false} LeavesUnrelated(rows: seq<Block>, a: Block, b: Block)
    requires Tree(rows) && IsLeaf(rows, a) && IsLeaf(rows, b) && IsAncestor(NodeOf(a), NodeOf(b))
    ensures a == b
  {
    NodeOfWellFormed(a);
    NodeOfWellFormed(b);
    if NodeOf(a) != NodeOf(b) {
      var c := ChildOnPath(NodeOf(a), NodeOf(b));
      AncestorCount(c, NodeOf(b));
      TreePath(rows, b, c);
      assert false;
    }
  }

  lemma LiveIsLeaf(rows: seq<Block>, irre: Node, bs: seq<Branch>, i: nat)
    requires Live(rows, irre, bs) && i < |bs|
    ensures IsLeaf(rows, bs[i].head.block)
  {
    var n := bs[i].head;
    forall c | c in rows ensures c.parent != n.Hash() {
      if c.parent == n.Hash() {
        NodeOfWellFormed(c);
        WellFormedIsNodeOf(n);
        assert NodeOf(c).parent == Some(n);
        GrowNew(rows, irre, bs, i, NodeOf(c));
      }
    }
  }

  lemma {:induction false} LeafIsLive(rows: seq<Block>, irre: Node, bs: seq<Branch>, b: Block)
    requires Live(rows, irre, bs) && IsLeaf(rows, b) && IsAncestor(irre, NodeOf(b))
    ensures exists i :: 0 <= i < |bs| && bs[i].head == NodeOf(b)
  {
    assert Reached(bs, NodeOf(b));
    var i :| 0 <= i < |bs| && IsAncestor(NodeOf(b), bs[i].head);
    LiveIsLeaf(rows, irre, bs, i);
    WellFormedIsNodeOf(bs[i].head);
    LeavesUnrelated(rows, b, bs[i].head.block);
  }

  // ---------------------------------------------------------------- the restarted node

  /** What a restart can see of a branch. */
  function Views(bs: seq<Branch>): set<(Node, set<Tx>, set<Tx>)> {
    set b | b in bs :: (b.head, b.pack.packed, b.pack.unpacked)
  }

  /** A rebuilt branch is a copy: same head, same sets. */
  ghost predicate Copy(a: Branch, b: Branch) {
    b.head == a.head && b.pack.packed == a.pack.packed && b.pack.unpacked == a.pack.unpacked
  }

  /** If the branch of a live head can be rebuilt, it has the same sets. */
  lemma RebuildSets(cfg: Config, c: Chain, i: nat)
    requires Shape(c) && Pools(c) && i < |c.branches|
    requires NewBranch(cfg, c.lastIrre, c.branches[i].head, c.immutable, c.pool).Some?
    ensures Copy(c.branches[i], NewBranch(cfg, c.lastIrre, c.branches[i].head, c.immutable, c.pool).value)
  {
    assert Accounted(c.lastIrre, c.pool, c.branches[i]);
    PackPathSets(cfg, Pack(c.immutable, {}, c.pool), c.branches[i].head, c.lastIrre);
  }

  /** The blocks of n above the irreversible one can be applied to the irreversible ledger. */
  ghost predicate Replays(cfg: Config, c: Chain, n: Node) {
    ApplyNodes(cfg, c.immutable, NodesFrom(n, c.lastIrre.count + 1)).Some?
  }

  /** The preview is what applying the blocks to the irreversible ledger gives. */
  ghost predicate Replayed(cfg: Config, c: Chain, b: Branch) {
    ApplyNodes(cfg, c.immutable, NodesFrom(b.head, c.lastIrre.count + 1)) == Some(b.pack.preview)
  }

  lemma {:induction false} PackedIff(cfg: Config, irre: Node, n: Node, base: Pack)
    requires WellFormed(n) && IsAncestor(irre, n) && Sizes(n, irre.count) && base.packed == {}
    requires NoDup(TxsAfter(n, irre.count)) && forall t :: t in TxsAfter(n, irre.count) ==> t.Verify()
    ensures ApplyNodes(cfg, base.preview, NodesFrom(n, irre.count + 1)) ==
      var p := PackPath(cfg, base, n, irre.count); if p.None? then None else Some(p.value.preview)
  {
    if PackPath(cfg, base, n, irre.count).Some? {
      PackPathReplays(cfg, base, n, irre);
    } else if ApplyNodes(cfg, base.preview, NodesFrom(n, irre.count + 1)).Some? {
      PackPathWorks(cfg, base, n, irre);
      assert false;
    }
  }

  /** What the branch of a live head shows when it is rebuilt, if it can be. */
  lemma {:induction false} RebuildShows(cfg: Config, irre: Node, l: Ledger, pool: set<Tx>, br: Branch)
    requires WellFormed(br.head) && IsAncestor(irre, br.head) && Accounted(irre, pool, br)
    ensures ApplyNodes(cfg, l, NodesFrom(br.head, irre.count + 1)) ==
      var b := NewBranch(cfg, irre, br.head, l, pool); if b.None? then None else Some(b.value.pack.preview)
  {
    PackedIff(cfg, irre, br.head, Pack(l, {}, pool));
  }

  /** It can exactly if its blocks can be applied to the irreversible ledger, and shows what this gives. */
  lemma {:induction false} RebuildBranch(cfg: Config, c: Chain, i: nat)
    requires Shape(c) && Pools(c) && i < |c.branches|
    ensures var n := c.branches[i].head; var b := NewBranch(cfg, c.lastIrre, n, c.immutable, c.pool);
      && (b.Some? <==> Replays(cfg, c, n))
      && (b.Some? ==> Copy(c.branches[i], b.value) && Replayed(cfg, c, b.value))
  {
    RebuildShows(cfg, c.lastIrre, c.immutable, c.pool, c.branches[i]);
    if NewBranch(cfg, c.lastIrre, c.branches[i].head, c.immutable, c.pool).Some? { RebuildSets(cfg, c, i); }
  }

  ghost predicate Ready(confirms: nat, c: Chain, heads: seq<Node>) {
    Consistent(confirms, c) && Stored(c) && Enumerates(c.db.blocks, heads)
  }

  /** The loaded heads that are kept are the live heads. */
  lemma LoadedIsLive(confirms: nat, c: Chain, heads: seq<Node>, n: Node) returns (i: nat)
    requires Ready(confirms, c, heads) && n in heads && Descends(n, c.lastIrre)
    ensures i < |c.branches| && c.branches[i].head == n
  {
    NodeOfWellFormed(n.block);
    DescendsIff(n, c.lastIrre);
    LeafIsLive(c.db.blocks, c.lastIrre, c.branches, n.block);
    i :| 0 <= i < |c.branches| && c.branches[i].head == n;
  }

  lemma LiveIsLoaded(confirms: nat, c: Chain, heads: seq<Node>, i: nat)
    requires Ready(confirms, c, heads) && i < |c.branches|
    ensures c.branches[i].head in heads && Descends(c.branches[i].head, c.lastIrre)
  {
    LiveIsLeaf(c.db.blocks, c.lastIrre, c.branches, i);
    WellFormedIsNodeOf(c.branches[i].head);
    DescendsIff(c.branches[i].head, c.lastIrre);
  }

  /** bs holds a copy of each live branch, and nothing else. */
  ghost predicate Copies(live: seq<Branch>, bs: seq<Branch>) {
    && (forall k {:trigger Copied(live, bs[k])} :: 0 <= k < |bs| ==> Copied(live, bs[k]))
    && (forall i {:trigger Kept(live[i], bs)} :: 0 <= i < |live| ==> Kept(live[i], bs))
    && (forall i, j :: 0 <= i < j < |bs| ==> bs[i].head != bs[j].head)
  }

  ghost predicate Copied(live: seq<Branch>, b: Branch) {
    exists i :: 0 <= i < |live| && Copy(live[i], b)
  }

  ghost predicate Kept(a: Branch, bs: seq<Branch>) {
    exists k :: 0 <= k < |bs| && Copy(a, bs[k])
  }

  lemma RebuiltCopies(cfg: Config, ties: HeadTies, confirms: nat, c: Chain, heads: seq<Node>, bs: seq<Branch>, k: nat)
    requires Ready(confirms, c, heads) && RebuiltFrom(cfg, ties, c.db, c.lastIrre, heads, bs) && k < |bs|
    ensures Copied(c.branches, bs[k])
  {
    var i := LoadedIsLive(confirms, c, heads, bs[k].head);
    RebuildSets(Retied(cfg, ties(bs[k].head)), c, i);
    assert Copy(c.branches[i], bs[k]);
  }

  lemma RebuiltKeeps(cfg: Config, ties: HeadTies, confirms: nat, c: Chain, heads: seq<Node>, bs: seq<Branch>, i: nat)
    requires Ready(confirms, c, heads) && RebuiltFrom(cfg, ties, c.db, c.lastIrre, heads, bs) && i < |c.branches|
    ensures Kept(c.branches[i], bs)
  {
    LiveIsLoaded(confirms, c, heads, i);
    var k :| 0 <= k < |bs| && bs[k].head == c.branches[i].head;
    RebuildSets(Retied(cfg, ties(bs[k].head)), c, i);
    assert Copy(c.branches[i], bs[k]);
  }

  lemma RebuildCopies(cfg: Config, ties: HeadTies, confirms: nat, c: Chain, heads: seq<Node>, bs: seq<Branch>)
    requires Ready(confirms, c, heads) && RebuiltFrom(cfg, ties, c.db, c.lastIrre, heads, bs)
    ensures Copies(c.branches, bs)
  {
    forall k | 0 <= k < |bs| ensures Copied(c.branches, bs[k]) { RebuiltCopies(cfg, ties, confirms, c, heads, bs, k); }
    forall i | 0 <= i < |c.branches| ensures Kept(c.branches[i], bs) {
      RebuiltKeeps(cfg, ties, confirms, c, heads, bs, i);
    }
  }

  lemma CopiesViews(live: seq<Branch>, bs: seq<Branch>)
    requires Copies(live, bs)
    ensures Views(bs) == Views(live)
  {
    forall v | v in Views(bs) ensures v in Views(live) {
      var b :| b in bs && v == (b.head, b.pack.packed, b.pack.unpacked);
      var k :| 0 <= k < |bs| && bs[k] == b;
      assert Copied(live, bs[k]);
      var i :| 0 <= i < |live| && Copy(live[i], bs[k]);
      assert live[i] in live;
    }
    forall v | v in Views(live) ensures v in Views(bs) {
      var b :| b in live && v == (b.head, b.pack.packed, b.pack.unpacked);
      var i :| 0 <= i < |live| && live[i] == b;
      assert Kept(live[i], bs);
      var k :| 0 <= k < |bs| && Copy(live[i], bs[k]);
      assert bs[k] in bs;
    }
  }

  lemma CopiesLive(rows: seq<Block>, irre: Node, live: seq<Branch>, bs: seq<Branch>)
    requires Copies(live, bs) && Live(rows, irre, live)
    ensures Live(rows, irre, bs)
  {
    forall k | 0 <= k < |bs|
      ensures WellFormed(bs[k].head) && IsAncestor(irre, bs[k].head) && bs[k].head.block in rows
    {
      assert Copied(live, bs[k]);
      var i :| 0 <= i < |live| && Copy(live[i], bs[k]);
    }
    forall b | b in rows && IsAncestor(irre, NodeOf(b)) ensures Reached(bs, NodeOf(b)) {
      assert Reached(live, NodeOf(b));
      var i :| 0 <= i < |live| && IsAncestor(NodeOf(b), live[i].head);
      assert Kept(live[i], bs);
      var k :| 0 <= k < |bs| && Copy(live[i], bs[k]);
      assert IsAncestor(NodeOf(b), bs[k].head);
    }
    forall k, m | 0 <= k < m < |bs| ensures Unrelated(bs[k].head, bs[m].head) {
      assert Copied(live, bs[k]);
      var i :| 0 <= i < |live| && Copy(live[i], bs[k]);
      assert Copied(live, bs[m]);
      var j :| 0 <= j < |live| && Copy(live[j], bs[m]);
      assert i != j;
      assert Unrelated(live[if i < j then i else j].head, live[if i < j then j else i].head);
    }
  }

  lemma {:induction false} CopiesConsistent(confirms: nat, c: Chain, bs: seq<Branch>)
    requires Consistent(confirms, c) && Copies(c.branches, bs)
    ensures bs != []
    ensures var d := Chain(c.lastIrre, c.immutable, bs, PickHead(bs), c.pool, c.db);
      Consistent(confirms, d) && d.HeadCount() == c.HeadCount()
  {
    assert Kept(c.branches[c.headIndex], bs);
    var h :| 0 <= h < |bs| && Copy(c.branches[c.headIndex], bs[h]);
    forall k | 0 <= k < |bs|
      ensures WellFormed(bs[k].head) && IsAncestor(c.lastIrre, bs[k].head) && bs[k].head.count <= c.HeadCount()
      ensures Accounted(c.lastIrre, c.pool, bs[k])
    {
      assert Copied(c.branches, bs[k]);
      var i :| 0 <= i < |c.branches| && Copy(c.branches[i], bs[k]);
      assert Accounted(c.lastIrre, c.pool, c.branches[i]);
    }
    assert bs[h].head.count == c.HeadCount();
  }

  /** d is c with its branches rebuilt: the same irreversible block, ledger, pool and tables, the same
      branches with the same packed and unpacked sets, and a head of the same length. */
  ghost predicate Rebuilt(confirms: nat, c: Chain, d: Chain) {
    && c.headIndex < |c.branches| && d.headIndex < |d.branches|
    && d.lastIrre == c.lastIrre && d.immutable == c.immutable && d.pool == c.pool && d.db == c.db
    && Views(d.branches) == Views(c.branches)
    && Consistent(confirms, d) && Stored(d) && d.HeadCount() == c.HeadCount()
  }

  lemma {:induction false} CopiesRebuilt(confirms: nat, c: Chain, bs: seq<Branch>)
    requires Consistent(confirms, c) && Stored(c) && Copies(c.branches, bs)
    ensures bs != [] && Rebuilt(confirms, c, Chain(c.lastIrre, c.immutable, bs, PickHead(bs), c.pool, c.db))
  {
    CopiesViews(c.branches, bs);
    CopiesLive(c.db.blocks, c.lastIrre, c.branches, bs);
    CopiesConsistent(confirms, c, bs);
  }

  lemma {:induction false} RestartIs(cfg: Config, ties: HeadTies, c: Chain, heads: seq<Node>)
    requires Stored(c) && WellFormed(c.lastIrre)
    ensures Restart(cfg, ties, c.db, heads) ==
      match Rebuild(cfg, ties, c.db, c.lastIrre, heads)
      case None => Refused
      case Some(bs) =>
        if bs == [] then Refused else Done(Chain(c.lastIrre, c.immutable, bs, PickHead(bs), c.pool, c.db))
  {
    WellFormedIsNodeOf(c.lastIrre);
  }

  /** A restart that succeeds rebuilds the running node, whatever blocks it had received and however
      ties fall. */
  lemma RestartRebuilds(cfg: Config, ties: HeadTies, confirms: nat, c: Chain, heads: seq<Node>)
    requires Ready(confirms, c, heads) && Restart(cfg, ties, c.db, heads).Done?
    ensures Rebuilt(confirms, c, Restart(cfg, ties, c.db, heads).chain)
  {
    RestartIs(cfg, ties, c, heads);
    var bs := Rebuild(cfg, ties, c.db, c.lastIrre, heads).value;
    RebuildIs(cfg, ties, c.db, c.lastIrre, heads);
    RebuildCopies(cfg, ties, confirms, c, heads, bs);
    CopiesRebuilt(confirms, c, bs);
  }

  /** All branches can be replayed, each with the ties met while it is rebuilt. */
  ghost predicate AllReplay(cfg: Config, ties: HeadTies, c: Chain) {
    forall i :: 0 <= i < |c.branches| ==> Replays(Retied(cfg, ties(c.branches[i].head)), c, c.branches[i].head)
  }

  lemma LoadedIff(cfg: Config, ties: HeadTies, confirms: nat, c: Chain, heads: seq<Node>, n: Node)
    requires Ready(confirms, c, heads) && n in heads && Descends(n, c.lastIrre)
    ensures RebuiltBranch(cfg, ties, c.db, c.lastIrre, n).Some? <==> Replays(Retied(cfg, ties(n)), c, n)
  {
    var i := LoadedIsLive(confirms, c, heads, n);
    RebuildBranch(Retied(cfg, ties(n)), c, i);
  }

  lemma RestartWorks(cfg: Config, ties: HeadTies, confirms: nat, c: Chain, heads: seq<Node>)
    requires Ready(confirms, c, heads) && AllReplay(cfg, ties, c)
    ensures Restart(cfg, ties, c.db, heads).Done?
  {
    forall n | n in heads && Descends(n, c.lastIrre) ensures RebuiltBranch(cfg, ties, c.db, c.lastIrre, n).Some? {
      var i := LoadedIsLive(confirms, c, heads, n);
      LoadedIff(cfg, ties, confirms, c, heads, n);
    }
    RebuildWorks(cfg, ties, c.db, c.lastIrre, heads);
    RebuildIs(cfg, ties, c.db, c.lastIrre, heads);
    LiveIsLoaded(confirms, c, heads, c.headIndex);
    RestartIs(cfg, ties, c, heads);
  }

  lemma RestartNeeds(cfg: Config, ties: HeadTies, confirms: nat, c: Chain, heads: seq<Node>, i: nat)
    requires Ready(confirms, c, heads) && Restart(cfg, ties, c.db, heads).Done? && i < |c.branches|
    ensures Replays(Retied(cfg, ties(c.branches[i].head)), c, c.branches[i].head)
  {
    RestartIs(cfg, ties, c, heads);
    RebuildIs(cfg, ties, c.db, c.lastIrre, heads);
    LiveIsLoaded(confirms, c, heads, i);
    LoadedIff(cfg, ties, confirms, c, heads, c.branches[i].head);
  }

  /** A restart succeeds exactly if all branches can be replayed, and otherwise the node does not start. One
      branch that cannot be is enough to keep it from starting. */
  lemma RestartIff(cfg: Config, ties: HeadTies, confirms: nat, c: Chain, heads: seq<Node>)
    requires Ready(confirms, c, heads)
    ensures var r := Restart(cfg, ties, c.db, heads);
      && (r.Done? <==> AllReplay(cfg, ties, c)) && (r.Done? || r.Refused?)
      && (r.Done? ==> Rebuilt(confirms, c, r.chain))
  {
    if AllReplay(cfg, ties, c) { RestartWorks(cfg, ties, confirms, c, heads); }
    if Restart(cfg, ties, c.db, heads).Done? {
      forall i | 0 <= i < |c.branches|
        ensures Replays(Retied(cfg, ties(c.branches[i].head)), c, c.branches[i].head)
      {
        RestartNeeds(cfg, ties, confirms, c, heads, i);
      }
      RestartRebuilds(cfg, ties, confirms, c, heads);
    }
  }

  // ---------------------------------------------------------------- without ties

  /** The paths of all branches are valid. */
  ghost predicate AllValid(cfg: Config, g: Ledger, c: Chain) {
    forall i :: 0 <= i < |c.branches| ==> LedgerAt(cfg, g, c.branches[i].head).Some?
  }

  lemma {:induction false} PathsSame(cfg: Config, ties: Ties, g: Ledger, a: Node, n: Node)
    requires IsAncestor(a, n) && UntiedPath(cfg, g, n)
    ensures LedgerAt(Retied(cfg, ties), g, a) == LedgerAt(cfg, g, a)
    ensures LedgerAt(Retied(cfg, ties), g, n) == LedgerAt(cfg, g, n)
  {
    UntiedAncestor(cfg, g, a, n);
    PathSame(cfg, ties, g, a);
    PathSame(cfg, ties, g, n);
  }

  lemma {:induction false} AppliedOnPath(cfg: Config, g: Ledger, n: Node, a: Node, l: Ledger)
    requires WellFormed(n) && IsAncestor(a, n) && LedgerAt(cfg, g, a) == Some(l)
    ensures ApplyNodes(cfg, l, NodesFrom(n, a.count + 1)) == LedgerAt(cfg, g, n)
  {
    ApplyNodesPath(cfg, g, n, a);
  }

  lemma {:induction false} AppliedSame(cfg: Config, other: Config, g: Ledger, n: Node, a: Node, l: Ledger)
    requires WellFormed(n) && IsAncestor(a, n) && LedgerAt(cfg, g, a) == Some(l)
    requires LedgerAt(other, g, a) == LedgerAt(cfg, g, a) && LedgerAt(other, g, n) == LedgerAt(cfg, g, n)
    ensures ApplyNodes(other, l, NodesFrom(n, a.count + 1)) == LedgerAt(cfg, g, n)
  {
    AppliedOnPath(other, g, n, a, l);
  }

  /** Without ties, applying the blocks gives the ledger of the path, however ties fall. */
  lemma {:induction false} ReplaysPath(cfg: Config, ties: Ties, g: Ledger, n: Node, a: Node, l: Ledger)
    requires WellFormed(n) && IsAncestor(a, n) && UntiedPath(cfg, g, n) && LedgerAt(cfg, g, a) == Some(l)
    ensures ApplyNodes(Retied(cfg, ties), l, NodesFrom(n, a.count + 1)) == LedgerAt(cfg, g, n)
  {
    var other := Retied(cfg, ties);
    assert LedgerAt(other, g, a) == LedgerAt(cfg, g, a) && LedgerAt(other, g, n) == LedgerAt(cfg, g, n) by {
      PathsSame(cfg, ties, g, a, n);
    }
    AppliedSame(cfg, other, g, n, a, l);
  }

  /** The branch of n, rebuilt with ties, shows the exact ledger of its path if it can be rebuilt, and it can
      be exactly if the path is valid. */
  lemma {:induction false} BranchValid(cfg: Config, ties: Ties, g: Ledger, c: Chain, n: Node)
    requires WellFormed(n) && IsAncestor(c.lastIrre, n) && UntiedPath(cfg, g, n)
    requires LedgerAt(cfg, g, c.lastIrre) == Some(c.immutable)
    ensures Replays(Retied(cfg, ties), c, n) <==> LedgerAt(cfg, g, n).Some?
    ensures forall b: Branch :: b.head == n && Replayed(Retied(cfg, ties), c, b) ==> Exact(cfg, g, b)
  {
    ReplaysPath(cfg, ties, g, n, c.lastIrre, c.immutable);
  }

  lemma {:induction false} ReplayIffValid(cfg: Config, ties: HeadTies, g: Ledger, c: Chain)
    requires Shape(c) && LedgerAt(cfg, g, c.lastIrre) == Some(c.immutable) && UntiedChain(cfg, g, c)
    ensures AllReplay(cfg, ties, c) <==> AllValid(cfg, g, c)
  {
    forall i | 0 <= i < |c.branches|
      ensures var n := c.branches[i].head; Replays(Retied(cfg, ties(n)), c, n) <==> LedgerAt(cfg, g, n).Some?
    {
      BranchValid(cfg, ties(c.branches[i].head), g, c, c.branches[i].head);
    }
  }

  lemma LoadedReplayed(cfg: Config, ties: HeadTies, confirms: nat, c: Chain, heads: seq<Node>, n: Node) returns (i: nat)
    requires Ready(confirms, c, heads) && n in heads && Descends(n, c.lastIrre)
    requires RebuiltBranch(cfg, ties, c.db, c.lastIrre, n).Some?
    ensures i < |c.branches| && c.branches[i].head == n
    ensures Replayed(Retied(cfg, ties(n)), c, RebuiltBranch(cfg, ties, c.db, c.lastIrre, n).value)
  {
    i := LoadedIsLive(confirms, c, heads, n);
    RebuildBranch(Retied(cfg, ties(n)), c, i);
  }

  lemma {:induction false} LoadedExact(cfg: Config, ties: HeadTies, g: Ledger, confirms: nat, c: Chain,
      heads: seq<Node>, n: Node)
    requires Ready(confirms, c, heads) && n in heads && Descends(n, c.lastIrre)
    requires LedgerAt(cfg, g, c.lastIrre) == Some(c.immutable) && UntiedChain(cfg, g, c)
    requires RebuiltBranch(cfg, ties, c.db, c.lastIrre, n).Some?
    ensures UntiedPath(cfg, g, n) && Exact(cfg, g, RebuiltBranch(cfg, ties, c.db, c.lastIrre, n).value)
  {
    var i := LoadedReplayed(cfg, ties, confirms, c, heads, n);
    BranchValid(cfg, ties(n), g, c, n);
  }

  lemma {:induction false} RestartExact(cfg: Config, ties: HeadTies, g: Ledger, confirms: nat, c: Chain,
      heads: seq<Node>, k: nat)
    requires Ready(confirms, c, heads) && Restart(cfg, ties, c.db, heads).Done?
    requires LedgerAt(cfg, g, c.lastIrre) == Some(c.immutable) && UntiedChain(cfg, g, c)
    requires k < |Restart(cfg, ties, c.db, heads).chain.branches|
    ensures var b := Restart(cfg, ties, c.db, heads).chain.branches[k]; UntiedPath(cfg, g, b.head) && Exact(cfg, g, b)
  {
    RestartIs(cfg, ties, c, heads);
    RebuildIs(cfg, ties, c.db, c.lastIrre, heads);
    LoadedExact(cfg, ties, g, confirms, c, heads, Rebuild(cfg, ties, c.db, c.lastIrre, heads).value[k].head);
  }

  /** Without ties a restart succeeds exactly if the paths of all branches are valid; it then rebuilds the node
      with exact previews. */
  lemma {:induction false} RestartRefines(cfg: Config, ties: HeadTies, g: Ledger, confirms: nat, c: Chain,
      heads: seq<Node>)
    requires Ready(confirms, c, heads)
    requires LedgerAt(cfg, g, c.lastIrre) == Some(c.immutable) && UntiedChain(cfg, g, c)
    ensures var r := Restart(cfg, ties, c.db, heads);
      && (r.Done? <==> AllValid(cfg, g, c)) && (r.Done? || r.Refused?)
      && (r.Done? ==> Rebuilt(confirms, c, r.chain) && UntiedChain(cfg, g, r.chain) && AllExact(cfg, g, r.chain))
  {
    RestartIff(cfg, ties, confirms, c, heads);
    ReplayIffValid(cfg, ties, g, c);
    if Restart(cfg, ties, c.db, heads).Done? {
      var d := Restart(cfg, ties, c.db, heads).chain;
      forall k | 0 <= k < |d.branches| ensures UntiedPath(cfg, g, d.branches[k].head) && Exact(cfg, g, d.branches[k]) {
        RestartExact(cfg, ties, g, confirms, c, heads, k);
      }
    }
  }

  /** So a node whose ledgers are those of its paths always restarts, and keeps them. */
  lemma RestartKeeps(cfg: Config, ties: HeadTies, g: Ledger, confirms: nat, c: Chain, heads: seq<Node>)
    requires Ready(confirms, c, heads) && Inv(cfg, g, confirms, c)
    ensures var r := Restart(cfg, ties, c.db, heads);
      && r.Done? && Rebuilt(confirms, c, r.chain) && Inv(cfg, g, confirms, r.chain) && AllExact(cfg, g, r.chain)
  {
    assert forall i :: 0 <= i < |c.branches| ==> Previews(cfg, g, c.branches[i]);
    RestartRefines(cfg, ties, g, confirms, c, heads);
    var d := Restart(cfg, ties, c.db, heads).chain;
    assert forall k :: 0 <= k < |d.branches| ==> Exact(cfg, g, d.branches[k]);
  }
}
