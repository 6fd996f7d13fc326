/** The stored tables, what they always say about a running node, and restarting from them. */
module ChainStore {
  import opened Common
  import opened LedgerTypes
  import opened Transactions
  import opened LedgerFacts
  import opened BlockTree
  import opened ChainSpec
  import opened ChainLedger
  import opened ChainPaths
  import opened ChainInv

  // ---------------------------------------------------------------- nodes and blocks

  /** The node of a block: the digests lead back to genesis. */
  function NodeOf(b: Block): Node
    decreases b
  {
    match b.parent
    case NoParent => NewNode(b, None)
    case Digest(p) => NewNode(b, Some(NodeOf(p)))
  }

  lemma {:induction false} NodeOfWellFormed(b: Block)
    ensures WellFormed(NodeOf(b)) && NodeOf(b).block == b
    decreases b
  {
    if b.parent.Digest? { NodeOfWellFormed(b.parent.block); }
  }

  lemma {:induction false} WellFormedIsNodeOf(n: Node)
    requires WellFormed(n)
    ensures n == NodeOf(n.block)
  {
    NodeOfWellFormed(n.block);
    HashIdentifies(n, NodeOf(n.block));
  }

  // ---------------------------------------------------------------- loading blocks

  /** The block at k is genesis exactly at the first row, and follows its parent elsewhere. */
  ghost predicate RowOk(rows: seq<Block>, k: nat)
    requires k < |rows|
  {
    && (rows[k].height == 0 <==> k == 0)
    && (k > 0 ==> rows[k].parent.Digest? && rows[k].parent.block in rows[..k])
  }

  ghost predicate ReadableTo(rows: seq<Block>, n: nat)
    requires n <= |rows|
  {
    n == 0 || (ReadableTo(rows, n - 1) && RowOk(rows, n - 1))
  }

  ghost predicate Readable(rows: seq<Block>) {
    ReadableTo(rows, |rows|)
  }

  lemma {:induction false} ReadableIff(rows: seq<Block>, n: nat)
    requires n <= |rows|
    ensures ReadableTo(rows, n) <==> forall k :: 0 <= k < n ==> RowOk(rows, k)
  {
    if n > 0 { ReadableIff(rows, n - 1); }
  }

  lemma ReadableFails(rows: seq<Block>, k: nat)
    requires k < |rows| && !RowOk(rows, k)
    ensures !Readable(rows)
  {
    ReadableIff(rows, |rows|);
  }

  predicate IsLeaf(rows: seq<Block>, b: Block) {
    b in rows && forall c :: c in rows ==> c.parent != b.Hash()
  }

  ghost predicate Keyed(rows: seq<Block>, index: map<BlockHash, Node>) {
    && (forall h :: h in index <==> h.Digest? && h.block in rows)
    && (forall k :: 0 < k < |rows| ==> rows[k].parent in index)
  }

  /** The heads are the nodes without children. */
  ghost predicate Headed(rows: seq<Block>, heads: map<BlockHash, Node>) {
    && (forall h :: h in heads <==> h.Digest? && IsLeaf(rows, h.block))
    && (forall h :: h in heads ==> heads[h] == NodeOf(h.block))
  }

  /** What loading some rows has built. */
  ghost predicate Indexed(rows: seq<Block>, index: map<BlockHash, Node>, heads: map<BlockHash, Node>) {
    && Keyed(rows, index)
    && (rows != [] && rows[0].parent == NoParent ==>
          Headed(rows, heads) && forall h :: h in index ==> index[h] == NodeOf(h.block))
  }

  lemma IndexGenesis(b: Block)
    ensures Indexed([b], map[b.Hash() := NewNode(b, None)], map[b.Hash() := NewNode(b, None)])
  {}

  lemma NoChildYet(rows: seq<Block>, index: map<BlockHash, Node>, b: Block)
    requires rows != [] && rows[0].parent == NoParent && Keyed(rows, index) && b !in rows
    ensures forall c :: c in rows ==> c.parent != b.Hash()
  {
    forall c | c in rows ensures c.parent != b.Hash() {
      var k :| 0 <= k < |rows| && rows[k] == c;
    }
  }

  lemma LeafAfter(rows: seq<Block>, b: Block, x: Block)
    requires b !in rows && forall c :: c in rows ==> c.parent != b.Hash()
    ensures IsLeaf(rows + [b], x) <==> x == b || (IsLeaf(rows, x) && b.parent != x.Hash())
  {
    var more := rows + [b];
    assert forall c :: c in more <==> c in rows || c == b;
    assert b.parent != b.Hash();
  }

  lemma {:induction false} HeadsNext(rows: seq<Block>, index: map<BlockHash, Node>, heads: map<BlockHash, Node>,
      b: Block)
    requires rows != [] && rows[0].parent == NoParent && Keyed(rows, index) && Headed(rows, heads)
    requires b.parent in index && b !in rows
    ensures Headed(rows + [b], (heads - {b.parent})[b.Hash() := NodeOf(b)])
  {
    var next := (heads - {b.parent})[b.Hash() := NodeOf(b)];
    NoChildYet(rows, index, b);
    forall h: BlockHash ensures h in next <==> h.Digest? && IsLeaf(rows + [b], h.block) {
      if h.Digest? { LeafAfter(rows, b, h.block); }
    }
  }

  lemma IndexNext(rows: seq<Block>, index: map<BlockHash, Node>, heads: map<BlockHash, Node>, b: Block)
    requires rows != [] && Indexed(rows, index, heads) && b.parent in index && b !in rows
    ensures var node := NewNode(b, Some(index[b.parent]));
      Indexed(rows + [b], index[b.Hash() := node], (heads - {b.parent})[b.Hash() := node])
  {
    var more := rows + [b];
    assert forall c :: c in more <==> c in rows || c == b;
    assert more[0] == rows[0];
    if more[0].parent == NoParent { HeadsNext(rows, index, heads, b); }
  }

  /** Every leaf once, in any order. */
  ghost predicate Enumerates(rows: seq<Block>, heads: seq<Node>) {
    && (forall i, j :: 0 <= i < j < |heads| ==> heads[i] != heads[j])
    && (forall n :: n in heads ==> n == NodeOf(n.block) && IsLeaf(rows, n.block))
    && (forall b :: IsLeaf(rows, b) ==> NodeOf(b) in heads)
  }

  lemma HeadsEnumerate(rows: seq<Block>, heads: map<BlockHash, Node>, list: seq<Node>)
    requires Headed(rows, heads)
    requires forall n: Node :: n in list <==> n.Hash() in heads && n == heads[n.Hash()]
    requires forall i, j :: 0 <= i < j < |list| ==> list[i] != list[j]
    ensures Enumerates(rows, list)
  {
    forall b | IsLeaf(rows, b) ensures NodeOf(b) in list {
      NodeOfWellFormed(b);
      assert NodeOf(b).Hash() in heads;
    }
  }

  /** The values of the map, in whatever order the map is walked. */
  method ListHeads(heads: map<BlockHash, Node>) returns (list: seq<Node>)
    requires forall h :: h in heads ==> heads[h].Hash() == h
    ensures forall n: Node :: n in list <==> n.Hash() in heads && n == heads[n.Hash()]
    ensures forall i, j :: 0 <= i < j < |list| ==> list[i] != list[j]
  {
    list := [];
    var left := heads;
    while left != map[]
      invariant forall h :: h in left ==> h in heads && left[h] == heads[h]
      invariant forall n: Node :: n in list <==> n.Hash() in heads && n.Hash() !in left && n == heads[n.Hash()]
      invariant forall i, j :: 0 <= i < j < |list| ==> list[i] != list[j]
      decreases |left|
    {
      var h :| h in left;
      list := list + [left[h]];
      left := left - {h};
    }
  }

  ghost predicate LoadedTo(rows: seq<Block>, k: nat, index: map<BlockHash, Node>, heads: map<BlockHash, Node>) {
    && k <= |rows| && Indexed(rows[..k], index, heads) && (k == 0 ==> index == map[] && heads == map[])
    && (forall h :: h in heads ==> heads[h].Hash() == h)
  }

  lemma RowOkIff(rows: seq<Block>, k: nat, index: map<BlockHash, Node>)
    requires k < |rows| && Keyed(rows[..k], index)
    ensures RowOk(rows, k) <==> if rows[k].height == 0 then index == map[] else rows[k].parent in index
    ensures index == map[] <==> k == 0
  {
    if k > 0 { assert rows[..k][0].Hash() in index; }
  }

  method LoadRow(rows: seq<Block>, k: nat, index: map<BlockHash, Node>, heads: map<BlockHash, Node>)
    returns (ok: bool, index': map<BlockHash, Node>, heads': map<BlockHash, Node>)
    requires k < |rows| && rows[k] !in rows[..k] && LoadedTo(rows, k, index, heads)
    ensures ok <==> RowOk(rows, k)
    ensures ok ==> LoadedTo(rows, k + 1, index', heads')
  {
    RowOkIff(rows, k, index);
    var b := rows[k];
    assert rows[..k + 1] == rows[..k] + [b];
    if b.height == 0 {
      if index != map[] { return false, index, heads; }
      IndexGenesis(b);
      return true, index[b.Hash() := NewNode(b, None)], heads[b.Hash() := NewNode(b, None)];
    }
    if b.parent !in index { return false, index, heads; }
    IndexNext(rows[..k], index, heads, b);
    var node := NewNode(b, Some(index[b.parent]));
    return true, index[b.Hash() := node], (heads - {b.parent})[b.Hash() := node];
  }

  ghost predicate Distinct(rows: seq<Block>) {
    forall i, j :: 0 <= i < j < |rows| ==> rows[i] != rows[j]
  }

  lemma LoadedNone(rows: seq<Block>)
    ensures LoadedTo(rows, 0, map[], map[])
  {}

  lemma DistinctAt(rows: seq<Block>, k: nat)
    requires Distinct(rows) && k < |rows|
    ensures rows[k] !in rows[..k]
  {}

  method LoadRows(rows: seq<Block>) returns (ok: bool, index: map<BlockHash, Node>, heads: map<BlockHash, Node>)
    requires Distinct(rows)
    ensures ok <==> Readable(rows)
    ensures ok ==> LoadedTo(rows, |rows|, index, heads)
  {
    index, heads := map[], map[];
    LoadedNone(rows);
    var k := 0;
    while k < |rows|
      invariant LoadedTo(rows, k, index, heads)
      invariant ReadableTo(rows, k)
    {
      DistinctAt(rows, k);
      ok, index, heads := LoadRow(rows, k, index, heads);
      if !ok {
        ReadableFails(rows, k);
        return;
      }
      k := k + 1;
    }
    ok := true;
  }

  /** Loading succeeds exactly on readable rows that hold the irreversible block; it finds that
      block's node and every leaf once, in some order. */
  method LoadBlocks(rows: seq<Block>, irre: BlockHash) returns (r: Option<(Node, seq<Node>)>)
    requires Distinct(rows)
    ensures r.Some? <==> Readable(rows) && irre.Digest? && irre.block in rows
    ensures r.Some? && rows[0].parent == NoParent ==> r.value.0 == NodeOf(irre.block) && Enumerates(rows, r.value.1)
  {
    var ok, index, heads := LoadRows(rows);
    if !ok { return None; }
    assert rows[..|rows|] == rows;
    if irre !in index { return None; }
    var list := ListHeads(heads);
    if rows[0].parent == NoParent { HeadsEnumerate(rows, heads, list); }
    return Some((index[irre], list));
  }
}
