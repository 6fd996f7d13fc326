/** Ledgers along block paths: folding blocks, splitting paths, and what a preview with ghost
    accounts says about the exact ledger of its path. */
module ChainLedger {
  import opened Common
  import opened LedgerTypes
  import opened Transactions
  import opened LedgerFacts
  import opened BlockTree
  import opened ChainSpec

  // ---------------------------------------------------------------- paths

  function ToSet(txs: seq<Tx>): set<Tx> {
    set t | t in txs
  }

  ghost predicate NoDup(txs: seq<Tx>) {
    forall i, j :: 0 <= i < j < |txs| ==> txs[i] != txs[j]
  }

  lemma {:induction false} TxsSplit(n: Node, a: Node, c: nat)
    requires WellFormed(n) && IsAncestor(a, n) && c <= a.count
    ensures TxsAfter(n, c) == TxsAfter(a, c) + TxsAfter(n, a.count)
  {
    AncestorCount(a, n);
    if a != n {
      AncestorCount(a, n.parent.value);
      TxsSplit(n.parent.value, a, c);
    } else {
      assert TxsAfter(n, n.count) == [];
    }
  }

  lemma {:induction false} NodesTxs(n: Node, c: nat)
    requires WellFormed(n)
    ensures TxsOf(NodesFrom(n, c + 1)) == ToSet(TxsAfter(n, c))
  {
    if n.count > c {
      var p := n.parent.value;
      NodesTxs(p, c);
      assert NodesFrom(n, c + 1) == NodesFrom(p, c + 1) + [n];
      forall t ensures t in TxsOf(NodesFrom(n, c + 1)) <==> t in TxsOf(NodesFrom(p, c + 1)) || t in n.block.txs {
        if t in n.block.txs { assert n in NodesFrom(n, c + 1); }
        if t in TxsOf(NodesFrom(p, c + 1)) {
          var m :| m in NodesFrom(p, c + 1) && t in m.block.txs;
          assert m in NodesFrom(n, c + 1);
        }
      }
      assert TxsAfter(n, c) == TxsAfter(p, c) + n.block.txs;
      assert ToSet(TxsAfter(n, c)) == ToSet(TxsAfter(p, c)) + ToSet(n.block.txs);
    }
  }

  /** Re-applying the blocks after an ancestor gives the ledger of the node. */
  lemma {:induction false} ApplyNodesPath(cfg: Config, g: Ledger, n: Node, a: Node)
    requires WellFormed(n) && IsAncestor(a, n) && LedgerAt(cfg, g, a).Some?
    ensures ApplyNodes(cfg, LedgerAt(cfg, g, a).value, NodesFrom(n, a.count + 1)) == LedgerAt(cfg, g, n)
  {
    AncestorCount(a, n);
    if a != n {
      AncestorCount(a, n.parent.value);
      ApplyNodesPath(cfg, g, n.parent.value, a);
      assert NodesFrom(n, a.count + 1) == NodesFrom(n.parent.value, a.count + 1) + [n];
    } else {
      assert NodesFrom(n, a.count + 1) == [];
    }
  }

  lemma {:induction false} LedgerAtAncestor(cfg: Config, g: Ledger, n: Node, a: Node)
    requires IsAncestor(a, n) && LedgerAt(cfg, g, n).Some?
    ensures LedgerAt(cfg, g, a).Some?
  {
    if a != n { LedgerAtAncestor(cfg, g, n.parent.value, a); }
  }

  lemma {:induction false} ApplyAllGood(cfg: Config, l: Ledger, txs: seq<Tx>, h: nat)
    requires Good(cfg, l) && ApplyAll(cfg, l, txs, h).Some?
    ensures Good(cfg, ApplyAll(cfg, l, txs, h).value)
    ensures forall a :: a in l.accounts ==> a in ApplyAll(cfg, l, txs, h).value.accounts
  {
    if txs != [] {
      var init := txs[..|txs| - 1];
      ApplyAllGood(cfg, l, init, h);
      var m := ApplyAll(cfg, l, init, h).value;
      ApplyGood(cfg, m, txs[|txs| - 1], h);
      ApplyNonces(cfg, m, txs[|txs| - 1], h);
    }
  }

  lemma {:induction false} LedgerAtGood(cfg: Config, g: Ledger, n: Node)
    requires Good(cfg, g) && LedgerAt(cfg, g, n).Some?
    ensures Good(cfg, LedgerAt(cfg, g, n).value)
  {
    if n.parent.Some? {
      LedgerAtGood(cfg, g, n.parent.value);
      ApplyAllGood(cfg, LedgerAt(cfg, g, n.parent.value).value, n.block.txs, n.Height());
    }
  }

  lemma {:induction false} AccountsGrow(cfg: Config, g: Ledger, n: Node, a: Node)
    requires Good(cfg, g) && LedgerAt(cfg, g, n).Some? && IsAncestor(a, n)
    ensures LedgerAt(cfg, g, a).Some?
    ensures forall x :: x in LedgerAt(cfg, g, a).value.accounts ==> x in LedgerAt(cfg, g, n).value.accounts
  {
    if a != n {
      AccountsGrow(cfg, g, n.parent.value, a);
      LedgerAtGood(cfg, g, n.parent.value);
      ApplyAllGood(cfg, LedgerAt(cfg, g, n.parent.value).value, n.block.txs, n.Height());
    }
  }

  lemma GoodExt(cfg: Config, v: Ledger, w: Ledger)
    requires Ext(v, w) && Good(cfg, w)
    ensures Good(cfg, v)
  {}

  // ---------------------------------------------------------------- previews

  /** When its turn comes, every transaction has a sender with an account in the exact ledger. */
  ghost predicate Sourced(cfg: Config, w: Ledger, txs: seq<Tx>, h: nat) {
    forall k :: 0 <= k < |txs| && ApplyAll(cfg, w, txs[..k], h).Some? ==>
      txs[k].Sender() in ApplyAll(cfg, w, txs[..k], h).value.accounts
  }

  lemma SourcedPrefix(cfg: Config, w: Ledger, txs: seq<Tx>, h: nat)
    requires Sourced(cfg, w, txs, h) && txs != []
    ensures Sourced(cfg, w, txs[..|txs| - 1], h)
  {
    var init := txs[..|txs| - 1];
    forall k | 0 <= k < |init| && ApplyAll(cfg, w, init[..k], h).Some?
      ensures init[k].Sender() in ApplyAll(cfg, w, init[..k], h).value.accounts
    {
      assert init[..k] == txs[..k];
    }
  }

  /** A block accepted on a preview is valid on the exact ledger exactly when it is sourced; the
      resulting preview again differs from the exact ledger by ghost accounts only. */
  lemma {:induction false} PackTxsExact(cfg: Config, p: Pack, w: Ledger, txs: seq<Tx>, h: nat)
    requires Ext(p.preview, w) && PackTxs(cfg, p, txs, h).Some?
    ensures ApplyAll(cfg, w, txs, h).Some? <==> Sourced(cfg, w, txs, h)
    ensures ApplyAll(cfg, w, txs, h).Some? ==>
      Ext(PackTxs(cfg, p, txs, h).value.preview, ApplyAll(cfg, w, txs, h).value)
  {
    if txs != [] {
      var k := |txs| - 1;
      var init := txs[..k];
      PackTxsExact(cfg, p, w, init, h);
      if Sourced(cfg, w, txs, h) { SourcedPrefix(cfg, w, txs, h); }
      if ApplyAll(cfg, w, init, h).Some? {
        LastExact(cfg, PackTxs(cfg, p, init, h).value, ApplyAll(cfg, w, init, h).value, txs[k], h);
        if ApplyAll(cfg, w, txs, h).Some? { ExtendSourced(cfg, w, txs, h); }
      }
    }
  }

  lemma LastExact(cfg: Config, p: Pack, w: Ledger, tx: Tx, h: nat)
    requires Ext(p.preview, w) && PackTx(cfg, p, tx, h).Some?
    ensures Apply(cfg, w, tx, h).err.NoErr? <==> tx.Sender() in w.accounts
    ensures tx.Sender() in w.accounts ==>
      Ext(PackTx(cfg, p, tx, h).value.preview, Apply(cfg, w, tx, h).ledger)
  {
    if tx.Sender() in w.accounts { ApplyExt(cfg, p.preview, w, tx, h); }
  }

  lemma {:induction false} ExtendSourced(cfg: Config, w: Ledger, txs: seq<Tx>, h: nat)
    requires txs != [] && Sourced(cfg, w, txs[..|txs| - 1], h) && ApplyAll(cfg, w, txs, h).Some?
    ensures Sourced(cfg, w, txs, h)
  {
    var init := txs[..|txs| - 1];
    forall k | 0 <= k < |txs| && ApplyAll(cfg, w, txs[..k], h).Some?
      ensures txs[k].Sender() in ApplyAll(cfg, w, txs[..k], h).value.accounts
    {
      if k < |init| { assert init[..k] == txs[..k] && init[k] == txs[k]; }
    }
  }

  /** On an exact preview every accepted block is sourced and the preview stays exact. */
  lemma {:induction false} PackTxsPlain(cfg: Config, p: Pack, txs: seq<Tx>, h: nat)
    requires PackTxs(cfg, p, txs, h).Some?
    ensures ApplyAll(cfg, p.preview, txs, h) == Some(PackTxs(cfg, p, txs, h).value.preview)
    ensures Sourced(cfg, p.preview, txs, h)
  {
    if txs != [] {
      PackTxsPlain(cfg, p, txs[..|txs| - 1], h);
      ExtendSourced(cfg, p.preview, txs, h);
    }
  }

  lemma PackTxSets(cfg: Config, p: Pack, t: Tx, h: nat)
    requires PackTx(cfg, p, t, h).Some?
    ensures var q := PackTx(cfg, p, t, h).value; q.packed == p.packed + {t} && q.unpacked == p.unpacked - {t}
    ensures t !in p.packed && (t in p.unpacked || t.Verify())
  {}

  /** The transactions moved out of the unpacked into the packed ones. */
  ghost predicate Moved(packed: set<Tx>, unpacked: set<Tx>, txs: seq<Tx>, packedNow: set<Tx>, unpackedNow: set<Tx>) {
    && packedNow == packed + ToSet(txs) && unpackedNow == unpacked - ToSet(txs)
    && NoDup(txs) && ToSet(txs) !! packed
    && forall t :: t in txs ==> t in unpacked || t.Verify()
  }

  lemma MovedOne(packed: set<Tx>, unpacked: set<Tx>, txs: seq<Tx>, t: Tx, packedNow: set<Tx>, unpackedNow: set<Tx>)
    requires Moved(packed, unpacked, txs, packedNow, unpackedNow)
    requires t !in packedNow && (t in unpackedNow || t.Verify())
    ensures Moved(packed, unpacked, txs + [t], packedNow + {t}, unpackedNow - {t})
  {
    assert ToSet(txs + [t]) == ToSet(txs) + {t};
  }

  lemma {:induction false} PackTxsMoved(cfg: Config, p: Pack, txs: seq<Tx>, h: nat)
    requires PackTxs(cfg, p, txs, h).Some?
    ensures var q := PackTxs(cfg, p, txs, h).value; Moved(p.packed, p.unpacked, txs, q.packed, q.unpacked)
  {
    if txs != [] {
      var k := |txs| - 1;
      PackTxsMoved(cfg, p, txs[..k], h);
      var q := PackTxs(cfg, p, txs[..k], h).value;
      PackTxSets(cfg, q, txs[k], h);
      MovedOne(p.packed, p.unpacked, txs[..k], txs[k], q.packed, q.unpacked);
      assert txs == txs[..k] + [txs[k]];
    }
  }

  /** What packing does to the two sets. */
  lemma {:induction false} PackTxsSets(cfg: Config, p: Pack, txs: seq<Tx>, h: nat)
    requires PackTxs(cfg, p, txs, h).Some?
    ensures var q := PackTxs(cfg, p, txs, h).value;
      q.packed == p.packed + ToSet(txs) && q.unpacked == p.unpacked - ToSet(txs)
    ensures NoDup(txs) && ToSet(txs) !! p.packed
    ensures forall t :: t in txs ==> t in p.unpacked || t.Verify()
  {
    PackTxsMoved(cfg, p, txs, h);
  }

  /** The transactions are distinct, none is packed yet, and each is known or verified. */
  ghost predicate Packable(p: Pack, txs: seq<Tx>) {
    NoDup(txs) && ToSet(txs) !! p.packed && forall t :: t in txs ==> t in p.unpacked || t.Verify()
  }

  lemma PackTxWorks(cfg: Config, p: Pack, t: Tx, h: nat)
    requires (t in p.unpacked || t.Verify()) && t !in p.packed && Apply(cfg, p.preview, t, h).err.NoErr?
    ensures PackTx(cfg, p, t, h).Some?
  {}

  lemma PackableInit(p: Pack, txs: seq<Tx>, q: Pack)
    requires txs != [] && Packable(p, txs)
    requires var init := txs[..|txs| - 1]; q.packed == p.packed + ToSet(init) && q.unpacked == p.unpacked - ToSet(init)
    ensures Packable(p, txs[..|txs| - 1])
    ensures var t := txs[|txs| - 1]; (t in q.unpacked || t.Verify()) && t !in q.packed
  {
    var k := |txs| - 1;
    var init := txs[..k];
    assert forall t :: t in init ==> t in txs;
    assert txs[k] in ToSet(txs) && txs[k] !in init;
  }

  /** Packing succeeds on a ledger that accepts the transactions, if they can be packed. */
  lemma {:induction false} PackTxsWorks(cfg: Config, p: Pack, txs: seq<Tx>, h: nat)
    requires ApplyAll(cfg, p.preview, txs, h).Some? && Packable(p, txs)
    ensures PackTxs(cfg, p, txs, h).Some?
  {
    if txs != [] {
      var k := |txs| - 1;
      var init := txs[..k];
      PackableInit(p, txs, Pack(p.preview, p.packed + ToSet(init), p.unpacked - ToSet(init)));
      PackTxsWorks(cfg, p, init, h);
      var q := PackTxs(cfg, p, init, h).value;
      PackTxsSets(cfg, p, init, h);
      PackTxsPlain(cfg, p, init, h);
      PackableInit(p, txs, q);
      PackTxWorks(cfg, q, txs[k], h);
    }
  }

  /** A block can be packed exactly if its transactions can be and apply to the preview one after the other. */
  lemma {:induction false} PackTxsIff(cfg: Config, p: Pack, txs: seq<Tx>, h: nat)
    ensures PackTxs(cfg, p, txs, h).Some? <==> Packable(p, txs) && ApplyAll(cfg, p.preview, txs, h).Some?
    ensures PackTxs(cfg, p, txs, h).Some? ==> var q := PackTxs(cfg, p, txs, h).value;
      && ApplyAll(cfg, p.preview, txs, h) == Some(q.preview)
      && q.packed == p.packed + ToSet(txs) && q.unpacked == p.unpacked - ToSet(txs)
  {
    if PackTxs(cfg, p, txs, h).Some? {
      PackTxsSets(cfg, p, txs, h);
      PackTxsPlain(cfg, p, txs, h);
    } else if Packable(p, txs) && ApplyAll(cfg, p.preview, txs, h).Some? {
      PackTxsWorks(cfg, p, txs, h);
      assert false;
    }
  }
}
