/** The stored tables always describe the running node, so that a restart rebuilds it. */
module ChainRestart {
  import opened Common
  import opened LedgerTypes
  import opened Transactions
  import opened LedgerFacts
  import opened BlockTree
  import opened ChainSpec
  import opened ChainLedger
  import opened ChainPaths
  import opened ChainInv
  import opened ChainStore

  // ---------------------------------------------------------------- the table of blocks

  /** A block stored after its parent, at a greater height. */
  ghost predicate Child(rows: seq<Block>, b: Block) {
    b.parent.Digest? && b.parent.block in rows && b.parent.block.height < b.height && b !in rows
  }

  ghost predicate Tree(rows: seq<Block>) {
    && rows != []
    && if |rows| == 1 then rows[0].parent == NoParent && rows[0].height == 0
       else Tree(rows[..|rows| - 1]) && Child(rows[..|rows| - 1], rows[|rows| - 1])
  }

  lemma {:induction false} ReadableSame(rows: seq<Block>, more: seq<Block>, n: nat)
    requires n <= |rows| <= |more| && rows == more[..|rows|] && ReadableTo(rows, n)
    ensures ReadableTo(more, n)
  {
    if n > 0 {
      ReadableSame(rows, more, n - 1);
      assert rows[..n - 1] == more[..n - 1];
    }
  }

  lemma {:induction false} TreeReadable(rows: seq<Block>)
    requires Tree(rows)
    ensures Readable(rows) && Distinct(rows) && rows[0].parent == NoParent
  {
    if |rows| > 1 {
      var init := rows[..|rows| - 1];
      TreeReadable(init);
      ReadableSame(init, rows, |init|);
    } else {
      assert ReadableTo(rows, 0);
    }
  }

  /** Every stored block has its whole path stored, at rising heights. */
  lemma {:induction false} TreePath(rows: seq<Block>, b: Block, a: Node)
    requires Tree(rows) && b in rows
    ensures Rising(NodeOf(b))
    ensures IsAncestor(a, NodeOf(b)) ==> a.block in rows
    decreases |rows|
  {
    var last := rows[|rows| - 1];
    if |rows| > 1 {
      var init := rows[..|rows| - 1];
      if b == last {
        TreePath(init, b.parent.block, a);
        NodeOfWellFormed(b);
        NodeOfWellFormed(b.parent.block);
        if IsAncestor(a, NodeOf(b.parent.block)) { assert a.block in init; }
      } else {
        assert b in init;
        TreePath(init, b, a);
        if IsAncestor(a, NodeOf(b)) { assert a.block in init; }
      }
    }
  }

  lemma {:induction false} TreeGrow(rows: seq<Block>, b: Block)
    requires Tree(rows) && Child(rows, b)
    ensures Tree(rows + [b])
  {
    assert (rows + [b])[..|rows + [b]| - 1] == rows;
  }

  // ---------------------------------------------------------------- live heads

  ghost predicate Unrelated(a: Node, b: Node) {
    !IsAncestor(a, b) && !IsAncestor(b, a)
  }

  ghost predicate Antichain(bs: seq<Branch>) {
    forall i, j :: 0 <= i < j < |bs| ==> Unrelated(bs[i].head, bs[j].head)
  }

  ghost predicate Reached(bs: seq<Branch>, n: Node) {
    exists i :: 0 <= i < |bs| && IsAncestor(n, bs[i].head)
  }

  /** Every stored block above the irreversible one lies on a live branch. */
  ghost predicate Covered(rows: seq<Block>, irre: Node, bs: seq<Branch>) {
    forall b :: b in rows && IsAncestor(irre, NodeOf(b)) ==> Reached(bs, NodeOf(b))
  }

  ghost predicate Heads(rows: seq<Block>, irre: Node, bs: seq<Branch>) {
    forall i :: 0 <= i < |bs| ==>
      WellFormed(bs[i].head) && IsAncestor(irre, bs[i].head) && bs[i].head.block in rows
  }

  /** The live heads are exactly the stored leaves above the irreversible block. */
  ghost predicate Live(rows: seq<Block>, irre: Node, bs: seq<Branch>) {
    Tree(rows) && WellFormed(irre) && Heads(rows, irre, bs) && Covered(rows, irre, bs) && Antichain(bs)
  }

  ghost predicate Stored(c: Chain) {
    && Live(c.db.blocks, c.lastIrre, c.branches)
    && c.db.pool == c.pool && c.db.irre == c.lastIrre.Hash() && c.db.ledger == c.immutable
  }

  lemma SameHeads(rows: seq<Block>, irre: Node, bs: seq<Branch>, cs: seq<Branch>)
    requires Live(rows, irre, bs) && |bs| == |cs| && forall i :: 0 <= i < |bs| ==> cs[i].head == bs[i].head
    ensures Live(rows, irre, cs)
  {
    forall b | b in rows && IsAncestor(irre, NodeOf(b)) ensures Reached(cs, NodeOf(b)) {
      assert Reached(bs, NodeOf(b));
      var i :| 0 <= i < |bs| && IsAncestor(NodeOf(b), bs[i].head);
      assert IsAncestor(NodeOf(b), cs[i].head);
    }
  }

  lemma RelatedHeads(bs: seq<Branch>, i: nat, j: nat)
    requires Antichain(bs) && i < |bs| && j < |bs| && IsAncestor(bs[i].head, bs[j].head)
    ensures i == j
  {}

  /** A block that extends a live head is new. */
  lemma {:induction false} GrowNew(rows: seq<Block>, irre: Node, bs: seq<Branch>, i: nat, head: Node)
    requires Live(rows, irre, bs) && i < |bs| && WellFormed(head) && head.parent == Some(bs[i].head)
    ensures head.block !in rows
  {
    if head.block in rows {
      WellFormedIsNodeOf(head);
      assert Reached(bs, head);
      var j :| 0 <= j < |bs| && IsAncestor(head, bs[j].head);
      AncestorCount(head, bs[j].head);
      AncestorTransitive(bs[i].head, head, bs[j].head);
      RelatedHeads(bs, i, j);
      assert false;
    }
  }

  lemma {:induction false} GrowUnrelated(a: Node, n: Node, head: Node)
    requires Unrelated(a, n) && WellFormed(a) && head.parent == Some(n)
    ensures Unrelated(a, head)
  {
    if IsAncestor(head, a) { AncestorTransitive(n, head, a); }
  }

  lemma GrowAntichain(bs: seq<Branch>, i: nat, br: Branch)
    requires Antichain(bs) && i < |bs| && br.head.parent == Some(bs[i].head)
    requires forall j :: 0 <= j < |bs| ==> WellFormed(bs[j].head)
    ensures Antichain(bs[i := br])
  {
    var cs := bs[i := br];
    forall j, k | 0 <= j < k < |cs| ensures Unrelated(cs[j].head, cs[k].head) {
      assert Unrelated(bs[j].head, bs[k].head);
      if j == i { GrowUnrelated(bs[k].head, bs[i].head, br.head); }
      if k == i { GrowUnrelated(bs[j].head, bs[i].head, br.head); }
    }
  }

  lemma GrowCovered(rows: seq<Block>, irre: Node, bs: seq<Branch>, i: nat, br: Branch)
    requires Covered(rows, irre, bs) && i < |bs| && WellFormed(br.head) && br.head.parent == Some(bs[i].head)
    ensures Covered(rows + [br.head.block], irre, bs[i := br])
  {
    var cs := bs[i := br];
    WellFormedIsNodeOf(br.head);
    forall b | b in rows + [br.head.block] && IsAncestor(irre, NodeOf(b)) ensures Reached(cs, NodeOf(b)) {
      if b in rows {
        var j :| 0 <= j < |bs| && IsAncestor(NodeOf(b), bs[j].head);
        if j == i { assert IsAncestor(NodeOf(b), br.head); }
        assert IsAncestor(NodeOf(b), cs[j].head);
      } else {
        assert IsAncestor(NodeOf(b), cs[i].head);
      }
    }
  }

  lemma GrowLive(rows: seq<Block>, irre: Node, bs: seq<Branch>, i: nat, br: Branch)
    requires Live(rows, irre, bs) && i < |bs| && WellFormed(br.head) && br.head.parent == Some(bs[i].head)
    requires bs[i].head.Height() < br.head.Height()
    ensures Live(rows + [br.head.block], irre, bs[i := br])
  {
    GrowNew(rows, irre, bs, i, br.head);
    TreeGrow(rows, br.head.block);
    GrowCovered(rows, irre, bs, i, br);
    GrowAntichain(bs, i, br);
  }

  // ---------------------------------------------------------------- pruning

  lemma {:induction false} PruneAntichain(bs: seq<Branch>, i: nat, br: Branch, irre: Node)
    requires Antichain(if i < |bs| then bs[i := br] else bs)
    ensures Antichain(Survivors(bs, i, br, irre))
  {
    if bs != [] {
      var k := |bs| - 1;
      var cs := if i < |bs| then bs[i := br] else bs;
      var init := bs[..k];
      assert (if i < k then init[i := br] else init) == cs[..k];
      PruneAntichain(init, i, br, irre);
      var rest := Survivors(init, i, br, irre);
      forall m | 0 <= m < |rest| ensures Unrelated(rest[m].head, cs[k].head) {
        SurvivorsFrom(init, i, br, irre, m);
        if i < k && rest[m] == br {
          assert cs[i] == br;
          assert Unrelated(cs[i].head, cs[k].head);
        } else {
          var j :| 0 <= j < |init| && j != i && rest[m] == init[j] && Descends(init[j].head, irre);
          assert Unrelated(cs[j].head, cs[k].head);
        }
      }
    }
  }

  lemma {:induction false} PruneCovered(rows: seq<Block>, last: Node, irre: Node, bs: seq<Branch>, i: nat, br: Branch)
    requires i < |bs| && WellFormed(irre) && IsAncestor(last, irre) && Covered(rows, last, bs[i := br])
    requires forall j :: 0 <= j < |bs| ==> WellFormed(bs[j].head)
    ensures Covered(rows, irre, Survivors(bs, i, br, irre))
  {
    var cs := bs[i := br];
    var ss := Survivors(bs, i, br, irre);
    forall b | b in rows && IsAncestor(irre, NodeOf(b)) ensures Reached(ss, NodeOf(b)) {
      AncestorTransitive(last, irre, NodeOf(b));
      assert Reached(cs, NodeOf(b));
      var j :| 0 <= j < |cs| && IsAncestor(NodeOf(b), cs[j].head);
      AncestorTransitive(irre, NodeOf(b), cs[j].head);
      if j != i { DescendsIff(bs[j].head, irre); }
      SurvivorsKeep(bs, i, br, irre, j);
      var m :| 0 <= m < |ss| && ss[m] == cs[j];
      assert IsAncestor(NodeOf(b), ss[m].head);
    }
  }

  lemma SwitchLive(confirms: nat, c: Chain, i: nat, br: Branch, irre: Node, l: Ledger)
    requires Overtakes(confirms, c, i, br, irre) && Stored(c)
    requires c.branches[i].head.Height() < br.head.Height()
    ensures Stored(SwitchTo(c, i, br, irre, l))
  {
    var d := SwitchTo(c, i, br, irre, l);
    var rows := c.db.blocks + [br.head.block];
    var ss := Survivors(c.branches, i, br, irre);
    IrreversibleMoves(confirms, c, i, br);
    GrowLive(c.db.blocks, c.lastIrre, c.branches, i, br);
    PruneAntichain(c.branches, i, br, irre);
    PruneCovered(rows, c.lastIrre, irre, c.branches, i, br);
    forall k | 0 <= k < |ss| ensures WellFormed(ss[k].head) && IsAncestor(irre, ss[k].head) &&
      ss[k].head.block in rows {
      var b := SwitchedFrom(confirms, c, i, br, irre, l, k);
      assert ss[k].head == d.branches[k].head;
      if b != br { assert b.head.block in c.db.blocks; }
    }
    SameHeads(rows, irre, ss, d.branches);
  }

  // ---------------------------------------------------------------- forks

  /** A block whose node is on a live path is recognised, as heights rise. */
  lemma {:induction false} KnownAncestor(bs: seq<Branch>, j: nat, n: Node)
    requires j < |bs| && Rising(bs[j].head) && IsAncestor(n, bs[j].head)
    ensures Known(bs, n.block)
  {
    AtHeightExact(bs[j].head, n);
    assert KnownOn(bs[j].head, n.block);
  }

  lemma {:induction false} ForkNew(rows: seq<Block>, irre: Node, bs: seq<Branch>, head: Node)
    requires Live(rows, irre, bs) && WellFormed(head) && IsAncestor(irre, head) && !Known(bs, head.block)
    ensures head.block !in rows
    ensures forall j :: 0 <= j < |bs| ==> !IsAncestor(head, bs[j].head)
  {
    forall j | 0 <= j < |bs| ensures !IsAncestor(head, bs[j].head) {
      TreePath(rows, bs[j].head.block, head);
      WellFormedIsNodeOf(bs[j].head);
      if IsAncestor(head, bs[j].head) { KnownAncestor(bs, j, head); }
    }
    WellFormedIsNodeOf(head);
    assert !Reached(bs, head);
  }

  lemma {:induction false} ForkLive(rows: seq<Block>, irre: Node, bs: seq<Branch>, br: Branch, j: nat)
    requires Live(rows, irre, bs) && WellFormed(br.head) && IsAncestor(irre, br.head) && !Known(bs, br.head.block)
    requires br.head.parent.Some? && br.head.parent.value.Height() < br.head.Height()
    requires j < |bs| && IsAncestor(br.head.parent.value, bs[j].head)
    requires forall k :: 0 <= k < |bs| ==> bs[k].head != br.head.parent.value
    ensures Live(rows + [br.head.block], irre, bs + [br])
  {
    var p := br.head.parent.value;
    ForkNew(rows, irre, bs, br.head);
    TreePath(rows, bs[j].head.block, p);
    WellFormedIsNodeOf(bs[j].head);
    TreeGrow(rows, br.head.block);
    var cs := bs + [br];
    forall k | 0 <= k < |bs| ensures Unrelated(bs[k].head, br.head) {
      if IsAncestor(bs[k].head, br.head) {
        AncestorTransitive(bs[k].head, p, bs[j].head);
        AncestorCount(bs[k].head, p);
        AncestorCount(p, bs[j].head);
        RelatedHeads(bs, k, j);
      }
    }
    WellFormedIsNodeOf(br.head);
    forall b | b in rows + [br.head.block] && IsAncestor(irre, NodeOf(b)) ensures Reached(cs, NodeOf(b)) {
      if b in rows {
        var k :| 0 <= k < |bs| && IsAncestor(NodeOf(b), bs[k].head);
        assert IsAncestor(NodeOf(b), cs[k].head);
      } else {
        assert IsAncestor(NodeOf(b), cs[|bs|].head);
      }
    }
  }
}
