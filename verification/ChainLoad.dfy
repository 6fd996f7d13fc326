/** Starting the node from its tables. */
module ChainLoads {
  import opened Common
  import opened LedgerTypes
  import opened Transactions
  import opened MetaStates
  import opened BlockTree
  import opened ChainSpec
  import opened ChainLedger
  import opened BranchStates
  import opened ChainStore
  import opened LedgerTies
  import opened ChainReboot
  import opened ChainNodes

  method LoadImmutable(l: Ledger) returns (s: MetaState)
    ensures fresh(s) && fresh(s.readonly) && s.dirty == CLEAN && s.readonly.Content() == l && s.View() == l
  {
    var index := new MetaIndex();
    index.accounts, index.databases, index.providers := l.accounts, l.databases, l.providers;
    s := new MetaState(index);
  }

  lemma {:induction false} RebuildNext(cfg: Config, ties: HeadTies, db: Storage, irre: Node, heads: seq<Node>, k: nat)
    requires k < |heads| && Rebuild(cfg, ties, db, irre, heads[..k]).Some?
    ensures var bs := Rebuild(cfg, ties, db, irre, heads[..k]).value;
            var n := RebuiltBranch(cfg, ties, db, irre, heads[k]);
      Rebuild(cfg, ties, db, irre, heads[..k + 1]) ==
        if !Descends(heads[k], irre) then Some(bs) else if n.None? then None else Some(bs + [n.value])
  {
    assert heads[..k + 1][..k] == heads[..k];
  }

  lemma {:induction false} RebuildPrefix(cfg: Config, ties: HeadTies, db: Storage, irre: Node, heads: seq<Node>, k: nat)
    requires k <= |heads| && Rebuild(cfg, ties, db, irre, heads[..k]).None?
    ensures Rebuild(cfg, ties, db, irre, heads).None?
    decreases |heads|
  {
    if k < |heads| {
      var init := heads[..|heads| - 1];
      assert init[..k] == heads[..k];
      RebuildPrefix(cfg, ties, db, irre, init, k);
    } else {
      assert heads[..k] == heads;
    }
  }

  lemma OneMore(bs: seq<BranchState>, vs: seq<Branch>, b: BranchState, v: Branch, s: MetaState)
    requires Shown(bs, vs) && Separate(bs) && AllSettled(bs, s) && b.Value() == v && Settled(b, s)
    requires forall k :: 0 <= k < |bs| ==> Apart(bs[k], b)
    ensures Shown(bs + [b], vs + [v]) && Separate(bs + [b]) && AllSettled(bs + [b], s)
  {}

  /** One more head: a branch for it if it is above the irreversible block. */
  method RebuildOne(
    cfg: Config, ties: HeadTies, db: Storage, irre: Node, head: Node, s: MetaState, bs: seq<BranchState>,
      ghost vs: seq<Branch>)
    returns (ok: bool, rs: seq<BranchState>)
    requires s.readonly.Content() == db.ledger && WellFormed(head)
    requires Shown(bs, vs) && Separate(bs) && AllSettled(bs, s)
    ensures var n := RebuiltBranch(cfg, ties, db, irre, head);
      && (ok <==> !Descends(head, irre) || n.Some?)
      && (ok ==> Shown(rs, if Descends(head, irre) then vs + [n.value] else vs) && Separate(rs) && AllSettled(rs, s))
  {
    var above := HasAncestor(head, irre);
    if !above { return true, bs; }
    var br := BuildBranch(Retied(cfg, ties(head)), irre, head, s, db.pool);
    if br.None? { return false, bs; }
    OneMore(bs, vs, br.value, br.value.Value(), s);
    return true, bs + [br.value];
  }

  /** A branch for every head above the irreversible block. */
  method RebuildBranches(cfg: Config, ties: HeadTies, db: Storage, irre: Node, heads: seq<Node>, s: MetaState)
    returns (ok: bool, bs: seq<BranchState>)
    requires s.readonly.Content() == db.ledger && forall n :: n in heads ==> WellFormed(n)
    ensures ok <==> Rebuild(cfg, ties, db, irre, heads).Some?
    ensures ok ==> Shown(bs, Rebuild(cfg, ties, db, irre, heads).value) && Separate(bs) && AllSettled(bs, s)
  {
    bs := [];
    for k := 0 to |heads|
      invariant Rebuild(cfg, ties, db, irre, heads[..k]).Some? &&
        Shown(bs, Rebuild(cfg, ties, db, irre, heads[..k]).value)
      invariant Separate(bs) && AllSettled(bs, s)
    {
      RebuildNext(cfg, ties, db, irre, heads, k);
      ok, bs := RebuildOne(cfg, ties, db, irre, heads[k], s, bs, Rebuild(cfg, ties, db, irre, heads[..k]).value);
      if !ok {
        RebuildPrefix(cfg, ties, db, irre, heads, k + 1);
        return;
      }
    }
    assert heads[..|heads|] == heads;
    ok := true;
  }

  /** The first of the longest branches. */
  method SelectHead(bs: seq<BranchState>, ghost vs: seq<Branch>) returns (h: nat)
    requires bs != [] && Shown(bs, vs)
    ensures h == PickHead(vs)
  {
    h := 0;
    assert bs[0].Value() == vs[0];
    for k := 1 to |bs|
      invariant h < k && h == PickHead(vs[..k])
    {
      assert vs[..k + 1][..k] == vs[..k];
      assert bs[k].Value() == vs[k] && bs[h].Value() == vs[h];
      if bs[k].head.count > bs[h].head.count { h := k; }
    }
    assert vs[..|bs|] == vs;
  }

  /** The node starts exactly when the plain restart succeeds, in its state. */
  method Load(cfg: Config, ties: HeadTies, db: Storage) returns (r: Option<ChainNode>, ghost heads: seq<Node>)
    requires Distinct(db.blocks) && (db.blocks != [] ==> db.blocks[0].parent == NoParent)
    ensures !(Readable(db.blocks) && db.irre.Digest? && db.irre.block in db.blocks) ==> r.None?
    ensures Readable(db.blocks) && db.irre.Digest? && db.irre.block in db.blocks ==>
      && Enumerates(db.blocks, heads) && (r.Some? <==> Restart(cfg, ties, db, heads).Done?)
      && (r.Some? ==> fresh(r.value) && r.value.Valid() && r.value.Shows(Restart(cfg, ties, db, heads).chain))
  {
    heads := [];
    var loaded := LoadBlocks(db.blocks, db.irre);
    if loaded.None? { return None, heads; }
    var irre, list := loaded.value.0, loaded.value.1;
    heads := list;
    r := Start(cfg, ties, db, irre, list);
  }

  method Start(cfg: Config, ties: HeadTies, db: Storage, irre: Node, list: seq<Node>) returns (r: Option<ChainNode>)
    requires db.irre.Digest? && irre == NodeOf(db.irre.block) && Enumerates(db.blocks, list)
    ensures r.Some? <==> Restart(cfg, ties, db, list).Done?
    ensures r.Some? ==> fresh(r.value) && r.value.Valid() && r.value.Shows(Restart(cfg, ties, db, list).chain)
  {
    forall n | n in list ensures WellFormed(n) { NodeOfWellFormed(n.block); }
    var s := LoadImmutable(db.ledger);
    var ok, bs := RebuildBranches(cfg, ties, db, irre, list, s);
    if !ok || bs == [] { return None; }
    var h := SelectHead(bs, Rebuild(cfg, ties, db, irre, list).value);
    var c := new ChainNode(irre, s, bs, h, db.pool, db);
    return Some(c);
  }
}
