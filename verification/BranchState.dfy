/** A branch as the node keeps it: an arena for trying a block shares the committed index of its
    branch and writes only to objects of its own, so that the branch is untouched until the block
    has been stored. */
module BranchStates {
  import opened Common
  import opened LedgerTypes
  import opened Transactions
  import opened MetaStates
  import opened BlockTree
  import opened ChainSpec
  import opened ChainLedger

  // ---------------------------------------------------------------- order of pooled transactions

  lemma TxBeforeTransitive(x: Tx, y: Tx, z: Tx)
    requires TxBefore(x, y) && TxBefore(y, z)
    ensures TxBefore(x, z)
  {
    if Before(x.Sender(), y.Sender()) && Before(y.Sender(), z.Sender()) {
      BeforeTransitive(x.Sender(), y.Sender(), z.Sender());
    }
  }

  method FirstTx(s: set<Tx>) returns (m: Tx)
    requires s != {}
    ensures m in s && forall x :: x in s ==> TxBefore(m, x)
  {
    m :| m in s;
    var left := s - {m};
    while left != {}
      invariant m in s && left <= s
      invariant forall x :: x in s && x !in left ==> TxBefore(m, x)
      decreases left
    {
      var x :| x in left;
      BeforeTotal(x.Sender(), m.Sender());
      if !TxBefore(m, x) {
        forall y | y in s && y !in left - {x} ensures TxBefore(x, y) {
          if y != x { TxBeforeTransitive(x, m, y); }
        }
        m := x;
      }
      left := left - {x};
    }
  }

  /** By account, then nonce. */
  method SortTxs(s: set<Tx>) returns (txs: seq<Tx>)
    ensures IsOrder(txs, s)
  {
    txs := [];
    var left := s;
    while left != {}
      invariant left <= s && |txs| + |left| == |s|
      invariant forall t :: t in txs <==> t in s && t !in left
      invariant forall i, t :: 0 <= i < |txs| && t in left ==> TxBefore(txs[i], t)
      invariant forall i, j :: 0 <= i < j < |txs| ==> txs[i] != txs[j] && TxBefore(txs[i], txs[j])
      decreases left
    {
      var m := FirstTx(left);
      txs := txs + [m];
      left := left - {m};
    }
  }

  // ---------------------------------------------------------------- packing, block by block

  lemma {:induction false} PackPrefix(cfg: Config, p: Pack, txs: seq<Tx>, k: nat, h: nat)
    requires k <= |txs| && PackTxs(cfg, p, txs[..k], h).None?
    ensures PackTxs(cfg, p, txs, h).None?
    decreases |txs|
  {
    if k < |txs| {
      var init := txs[..|txs| - 1];
      assert init[..k] == txs[..k];
      PackPrefix(cfg, p, init, k, h);
    } else {
      assert txs[..k] == txs;
    }
  }

  lemma {:induction false} PackNext(cfg: Config, p: Pack, txs: seq<Tx>, k: nat, h: nat)
    requires k < |txs| && PackTxs(cfg, p, txs[..k], h).Some?
    ensures PackTxs(cfg, p, txs[..k + 1], h) == PackTx(cfg, PackTxs(cfg, p, txs[..k], h).value, txs[k], h)
  {
    assert txs[..k + 1][..k] == txs[..k];
  }

  ghost function PackNodes(cfg: Config, base: Pack, nodes: seq<Node>): Option<Pack> {
    if nodes == [] then Some(base)
    else
      match PackNodes(cfg, base, nodes[..|nodes| - 1])
      case None => None
      case Some(p) => PackBlock(cfg, p, nodes[|nodes| - 1].block)
  }

  lemma {:induction false} PackNodesPath(cfg: Config, base: Pack, n: Node, c: nat)
    requires WellFormed(n)
    ensures PackNodes(cfg, base, NodesFrom(n, c + 1)) == PackPath(cfg, base, n, c)
  {
    if n.count > c {
      PackNodesPath(cfg, base, n.parent.value, c);
      assert NodesFrom(n, c + 1) == NodesFrom(n.parent.value, c + 1) + [n];
    }
  }

  lemma {:induction false} PackNodesNext(cfg: Config, base: Pack, nodes: seq<Node>, k: nat)
    requires k < |nodes| && PackNodes(cfg, base, nodes[..k]).Some?
    ensures PackNodes(cfg, base, nodes[..k + 1]) ==
      PackBlock(cfg, PackNodes(cfg, base, nodes[..k]).value, nodes[k].block)
  {
    assert nodes[..k + 1][..k] == nodes[..k];
  }

  lemma {:induction false} PackNodesPrefix(cfg: Config, base: Pack, nodes: seq<Node>, k: nat)
    requires k <= |nodes| && PackNodes(cfg, base, nodes[..k]).None?
    ensures PackNodes(cfg, base, nodes).None?
    decreases |nodes|
  {
    if k < |nodes| {
      var init := nodes[..|nodes| - 1];
      assert init[..k] == nodes[..k];
      PackNodesPrefix(cfg, base, init, k);
    } else {
      assert nodes[..k] == nodes;
    }
  }

  // ---------------------------------------------------------------- branches

  class BranchState {
    var head: Node
    const preview: MetaState
    var packed: set<Tx>
    var unpacked: set<Tx>

    ghost function Pack(): Pack
      reads this, preview, preview.readonly
    {
      ChainSpec.Pack.Pack(preview.View(), packed, unpacked)
    }

    ghost function Value(): Branch
      reads this, preview, preview.readonly
    {
      Branch(head, Pack())
    }

    constructor (head: Node, preview: MetaState, packed: set<Tx>, unpacked: set<Tx>)
      ensures this.head == head && this.preview == preview && this.packed == packed && this.unpacked == unpacked
    {
      this.head, this.preview, this.packed, this.unpacked := head, preview, packed, unpacked;
    }

    /** A copy that shares the committed index only. */
    method MakeArena() returns (c: BranchState)
      ensures fresh(c) && fresh(c.preview) && c.preview.readonly == preview.readonly && c.preview.dirty == CLEAN
      ensures c.head == head && c.packed == packed && c.unpacked == unpacked
      ensures preview.dirty == CLEAN ==> c.Value() == Value()
    {
      var s := new MetaState(preview.readonly);
      c := new BranchState(head, s, packed, unpacked);
    }

    method AddTx(tx: Tx)
      modifies this`unpacked
      ensures Value() == ChainSpec.AddTx(old(Value()), tx)
    {
      if tx !in packed && tx !in unpacked { unpacked := unpacked + {tx}; }
    }

    /** One transaction of a block. */
    method PackOne(cfg: Config, tx: Tx, height: nat) returns (ok: bool)
      modifies this`packed, this`unpacked, preview`dirty
      ensures ok <==> PackTx(cfg, old(Pack()), tx, height).Some?
      ensures ok ==> Some(Pack()) == PackTx(cfg, old(Pack()), tx, height)
    {
      if tx in unpacked {
        unpacked := unpacked - {tx};
      } else if !tx.Verify() {
        return false;
      } else {
        assert unpacked - {tx} == unpacked;
      }
      if tx in packed { return false; }
      packed := packed + {tx};
      var err := preview.Apply(cfg, tx, height);
      ok := err.NoErr?;
    }

    /** All transactions of a block. */
    method PackMany(cfg: Config, b: Block) returns (ok: bool)
      modifies this`packed, this`unpacked, preview`dirty
      ensures ok <==> PackBlock(cfg, old(Pack()), b).Some?
      ensures ok ==> Some(Pack()) == PackBlock(cfg, old(Pack()), b)
    {
      if |b.txs| > MAX_TXS_PER_BLOCK { return false; }
      ghost var p := Pack();
      for k := 0 to |b.txs|
        invariant PackTxs(cfg, p, b.txs[..k], b.height) == Some(Pack())
      {
        PackNext(cfg, p, b.txs, k, b.height);
        ok := PackOne(cfg, b.txs[k], b.height);
        if !ok {
          PackPrefix(cfg, p, b.txs, k + 1, b.height);
          return;
        }
      }
      assert b.txs[..|b.txs|] == b.txs;
      ok := true;
    }

    method PackAll(cfg: Config, nodes: seq<Node>) returns (ok: bool)
      modifies this`packed, this`unpacked, preview`dirty
      ensures ok <==> PackNodes(cfg, old(Pack()), nodes).Some?
      ensures ok ==> Some(Pack()) == PackNodes(cfg, old(Pack()), nodes)
    {
      ghost var p := Pack();
      for k := 0 to |nodes|
        invariant PackNodes(cfg, p, nodes[..k]) == Some(Pack())
      {
        PackNodesNext(cfg, p, nodes, k);
        ok := PackMany(cfg, nodes[k].block);
        if !ok {
          PackNodesPrefix(cfg, p, nodes, k + 1);
          return;
        }
      }
      assert nodes[..|nodes|] == nodes;
      ok := true;
    }

    /** The branch with block n on top, as a new object; this branch does not change. */
    method ApplyBlock(cfg: Config, n: Node) returns (r: Option<BranchState>)
      requires preview.dirty == CLEAN
      ensures r.Some? <==> n.block.parent == head.Hash() && PackBlock(cfg, Pack(), n.block).Some?
      ensures r.Some? ==>
        var br := r.value;
        && fresh(br) && fresh(br.preview) && br.preview.readonly == preview.readonly
        && br.head == n && Some(br.Pack()) == PackBlock(cfg, Pack(), n.block)
    {
      if n.block.parent != head.Hash() { return None; }
      var c := MakeArena();
      var ok := c.PackMany(cfg, n.block);
      if !ok { return None; }
      c.head := n;
      return Some(c);
    }

    /** One pooled transaction while producing. */
    method TryOne(cfg: Config, tx: Tx, height: nat) returns (ok: bool)
      modifies this`packed, this`unpacked, preview`dirty
      ensures var r := Transactions.Apply(cfg, old(preview.View()), tx, height);
        && ok == r.err.NoErr? && preview.View() == r.ledger
        && packed == (if ok then old(packed) + {tx} else old(packed))
        && unpacked == (if ok then old(unpacked) - {tx} else old(unpacked))
    {
      var err := preview.Apply(cfg, tx, height);
      ok := err.NoErr?;
      if ok { packed, unpacked := packed + {tx}, unpacked - {tx}; }
    }

    /** The branch with a block of pooled transactions on top, tried by account and nonce. */
    method ProduceBlock(cfg: Config, height: nat, producer: nat) returns (br: BranchState, ghost order: seq<Tx>)
      requires preview.dirty == CLEAN
      ensures fresh(br) && fresh(br.preview) && br.preview.readonly == preview.readonly
      ensures IsOrder(order, unpacked) && br.Value() == Produce(cfg, Value(), order, height, producer)
    {
      var c := MakeArena();
      var txs := SortTxs(unpacked);
      var n := if |txs| < MAX_TXS_PER_BLOCK then |txs| else MAX_TXS_PER_BLOCK;
      ghost var start := Produced(c.Pack(), []);
      var out: seq<Tx> := [];
      var k := 0;
      while k < |txs| && |out| != n
        invariant k <= |txs| && fresh(c) && fresh(c.preview) && c.preview.readonly == preview.readonly && c.head == head
        invariant Try(cfg, Produced(c.Pack(), out), txs, k, n, height) == Try(cfg, start, txs, 0, n, height)
      {
        var ok := c.TryOne(cfg, txs[k], height);
        if ok { out := out + [txs[k]]; }
        k := k + 1;
      }
      c.head := NewNode(Block(head.Hash(), height, producer, out), Some(head));
      return c, txs;
    }

    method ClearPacked(txs: seq<Tx>)
      modifies this`packed
      ensures packed == old(packed) - ToSet(txs)
    {
      for k := 0 to |txs|
        invariant packed == old(packed) - ToSet(txs[..k])
      {
        assert txs[..k + 1] == txs[..k] + [txs[k]];
        packed := packed - {txs[k]};
      }
      assert txs[..|txs|] == txs;
    }

    method ClearUnpacked(txs: set<Tx>)
      modifies this`unpacked
      ensures unpacked == old(unpacked) - txs
    {
      var left := txs;
      while left != {}
        invariant left <= txs && unpacked == old(unpacked) - (txs - left)
        decreases left
      {
        var t :| t in left;
        unpacked := unpacked - {t};
        left := left - {t};
      }
    }
  }

  lemma {:induction false} NewBranchNodes(cfg: Config, base: Node, head: Node, l: Ledger, pool: set<Tx>)
    requires WellFormed(head)
    ensures var q := PackNodes(cfg, ChainSpec.Pack.Pack(l, {}, pool), NodesFrom(head, base.count + 1));
      NewBranch(cfg, base, head, l, pool) == if q.None? then None else Some(Branch(head, q.value))
  {
    PackNodesPath(cfg, ChainSpec.Pack.Pack(l, {}, pool), head, base.count);
  }

  method CopyState(head: Node, state: MetaState, pool: set<Tx>) returns (inst: BranchState)
    ensures fresh(inst) && fresh(inst.preview) && fresh(inst.preview.readonly) && inst.head == head
    ensures inst.Pack() == ChainSpec.Pack.Pack(state.readonly.Content(), {}, pool)
  {
    var copy := state.MakeCopy();
    inst := new BranchState(head, copy, {}, pool);
  }

  /** A branch rebuilt from the irreversible state, with an index of its own. */
  method BuildBranch(cfg: Config, base: Node, head: Node, state: MetaState, pool: set<Tx>)
    returns (r: Option<BranchState>)
    requires WellFormed(head)
    ensures r.Some? <==> NewBranch(cfg, base, head, state.readonly.Content(), pool).Some?
    ensures r.Some? ==>
      var br := r.value;
      && fresh(br) && fresh(br.preview) && fresh(br.preview.readonly) && br.preview.dirty == CLEAN
      && Some(br.Value()) == NewBranch(cfg, base, head, state.readonly.Content(), pool)
  {
    var list := FetchNodeList(head, base.count + 1);
    var inst := CopyState(head, state, pool);
    NewBranchNodes(cfg, base, head, state.readonly.Content(), pool);
    var ok := inst.PackAll(cfg, list);
    if !ok { return None; }
    inst.preview.Commit();
    return Some(inst);
  }
}
