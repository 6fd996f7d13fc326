/** Ghost accounts: a transfer that fails while a block is produced leaves its receiver's empty
    account in the producer's preview. The producer then accepts a block whose sender exists nowhere
    else, and exits when that block becomes irreversible. */
module ChainGhosts {
  import opened Common
  import opened LedgerTypes
  import opened Transactions
  import opened LedgerFacts
  import opened BlockTree
  import opened ChainSpec
  import opened ChainLedger
  import opened ChainPaths
  import opened ChainInv
  import opened ChainStore
  import opened ChainRestart
  import opened ChainReboot
  import opened LedgerTies
  import opened PathTies
  import opened ChainSteps

  lemma SwitchFails(cfg: Config, confirms: nat, c: Chain, i: nat, br: Branch, irre: Node)
    requires i < |c.branches| && irre == Irreversible(br.head, confirms)
    requires ApplyNodes(cfg, c.immutable, NodesFrom(irre, c.lastIrre.count + 1)).None?
    ensures Switch(cfg, confirms, c, i, br).Fatal?
  {}

  lemma {:induction false} PathLedger(cfg: Config, g: Ledger, irre: Node, last: Node, l: Ledger)
    requires WellFormed(irre) && IsAncestor(last, irre) && LedgerAt(cfg, g, last) == Some(l)
    ensures ApplyNodes(cfg, l, NodesFrom(irre, last.count + 1)) == LedgerAt(cfg, g, irre)
  {
    ApplyNodesPath(cfg, g, irre, last);
  }

  /** The node exits exactly when the path to the new irreversible block is not valid. */
  lemma {:induction false} FatalIff(cfg: Config, g: Ledger, confirms: nat, c: Chain, i: nat, br: Branch, irre: Node)
    requires Overtakes(confirms, c, i, br, irre) && LedgerAt(cfg, g, c.lastIrre) == Some(c.immutable)
    ensures Switch(cfg, confirms, c, i, br).Fatal? <==> LedgerAt(cfg, g, irre).None?
  {
    IrreversibleMoves(confirms, c, i, br);
    PathLedger(cfg, g, irre, c.lastIrre, c.immutable);
    match LedgerAt(cfg, g, irre)
    case Some(l) => SwitchIs(cfg, confirms, c, i, br, irre, l);
    case None => SwitchFails(cfg, confirms, c, i, br, irre);
  }

  // ---------------------------------------------------------------- a run that ends so

  const ALICE := User(1)
  const BOB := User(2)
  const START := Ledger(map[ALICE := Account(Balance(0, 0), 1)], map[], map[])
  const HAUNTED := Ledger(map[ALICE := Account(Balance(0, 0), 1), BOB := EmptyAccount], map[], map[])

  /** More than Alice has. */
  const OVERDRAWN := Tx(1, 1, true, Transfer(ALICE, BOB, 5, Particle))

  /** Nothing, from an account that does not exist. */
  const FROM_NOBODY := Tx(2, 0, true, Transfer(BOB, ALICE, 0, Particle))

  const BLOCK0 := Block(NoParent, 0, 0, [])
  const BLOCK1 := Block(Digest(BLOCK0), 1, 0, [])
  const BLOCK2 := Block(Digest(BLOCK1), 2, 0, [FROM_NOBODY])
  const BLOCK3 := Block(Digest(BLOCK2), 3, 0, [])

  const NODE0 := NewNode(BLOCK0, None)
  const NODE1 := NewNode(BLOCK1, Some(NODE0))
  const NODE2 := NewNode(BLOCK2, Some(NODE1))
  const NODE3 := NewNode(BLOCK3, Some(NODE2))

  lemma OverdrawnHaunts(cfg: Config)
    ensures Apply(cfg, START, OVERDRAWN, 1) == Applied(HAUNTED, InsufficientBalance)
  {
    assert START.accounts[BOB := EmptyAccount] == HAUNTED.accounts;
  }

  lemma NobodyAccepted(cfg: Config)
    ensures Apply(cfg, HAUNTED, FROM_NOBODY, 2).err.NoErr?
    ensures Apply(cfg, START, FROM_NOBODY, 2).err.AccountNotFound?
  {}

  /** A node with one branch. */
  ghost predicate Single(c: Chain, head: Node, preview: Ledger, irre: Node) {
    && |c.branches| == 1 && c.headIndex == 0 && c.lastIrre == irre && c.immutable == START
    && c.branches[0].head == head && c.branches[0].pack.preview == preview
  }

  lemma {:induction false} SingleSwitch(cfg: Config, c: Chain, head: Node, preview: Ledger, last: Node, br: Branch,
      irre: Node)
    requires Single(c, head, preview, last) && irre == Irreversible(br.head, 1)
    requires ApplyNodes(cfg, START, NodesFrom(irre, last.count + 1)) == Some(START)
    ensures var r := Switch(cfg, 1, c, 0, br);
      r.Done? && Single(r.chain, br.head, br.pack.preview, irre) && r.chain.branches[0].pack.packed <= br.pack.packed
  {
    SwitchIs(cfg, 1, c, 0, br, irre, START);
    assert Survivors(c.branches, 0, br, irre) == [br];
  }

  lemma Submitted(cfg: Config) returns (d: Chain)
    ensures Take(cfg, 1, Genesis(START, BLOCK0), Submit(OVERDRAWN)) == Done(d)
    ensures Single(d, NODE0, START, NODE0) && d.branches[0].pack.unpacked == {OVERDRAWN} &&
      d.branches[0].pack.packed == {}
  {
    var c := Genesis(START, BLOCK0);
    assert Admits(c, OVERDRAWN);
    d := StoreTx(c, OVERDRAWN).chain;
  }

  lemma Minted(cfg: Config, c: Chain) returns (d: Chain)
    requires Single(c, NODE0, START, NODE0) && c.branches[0].pack.unpacked == {OVERDRAWN} &&
      c.branches[0].pack.packed == {}
    ensures Enabled(c, Mint([OVERDRAWN], 1, 0, cfg.ties, cfg.ties)) &&
      Take(cfg, 1, c, Mint([OVERDRAWN], 1, 0, cfg.ties, cfg.ties)) == Done(d)
    ensures Single(d, NODE1, HAUNTED, NODE0) && d.branches[0].pack.packed == {}
  {
    OverdrawnHaunts(cfg);
    var br := Produce(cfg, c.branches[0], [OVERDRAWN], 1, 0);
    var s := Produced(c.branches[0].pack, []);
    var t := Produced(Pack(HAUNTED, {}, {OVERDRAWN}), []);
    assert Try(cfg, s, [OVERDRAWN], 0, 1, 1) == Try(cfg, t, [OVERDRAWN], 1, 1, 1) == t;
    assert br == Branch(NODE1, t.pack);
    assert NodesFrom(NODE0, 1) == [];
    SingleSwitch(cfg, c, NODE0, START, NODE0, br, NODE0);
    d := Switch(cfg, 1, c, 0, br).chain;
  }

  lemma {:induction false} EmptyBlockKeeps(cfg: Config)
    ensures NodesFrom(NODE1, 1) == [NODE1] && ApplyNodes(cfg, START, [NODE1]) == Some(START)
  {
    assert [NODE1][..0] == [];
    assert ApplyNodes(cfg, START, []) == Some(START);
  }

  lemma Received(cfg: Config, c: Chain) returns (d: Chain)
    requires Single(c, NODE1, HAUNTED, NODE0) && c.branches[0].pack.packed == {}
    ensures Take(cfg, 1, c, Receive(BLOCK2, cfg.ties, cfg.ties)) == Done(d) && d.branches != []
    ensures Single(d, NODE2, d.branches[0].pack.preview, NODE1)
  {
    NobodyAccepted(cfg);
    var p := c.branches[0].pack;
    var q := PackTx(cfg, p, FROM_NOBODY, 2).value;
    assert [FROM_NOBODY][..0] == [];
    assert PackTxs(cfg, p, [], 2) == Some(p);
    var br := Branch(NODE2, q);
    assert Grow(cfg, c.branches[0], BLOCK2) == Some(br);
    EmptyBlockKeeps(cfg);
    assert At(NODE1, 1) == NODE1 && Irreversible(NODE2, 1) == At(NODE2, 1) == NODE1;
    SingleSwitch(cfg, c, NODE1, HAUNTED, NODE0, br, NODE1);
    d := Switch(cfg, 1, c, 0, br).chain;
  }

  lemma {:induction false} NobodyInvalid(cfg: Config)
    ensures NodesFrom(NODE2, 2) == [NODE2] && ApplyNodes(cfg, START, [NODE2]).None?
  {
    NobodyAccepted(cfg);
    assert [NODE2][..0] == [] && [FROM_NOBODY][..0] == [];
    assert ApplyNodes(cfg, START, []) == Some(START);
    assert ApplyAll(cfg, START, [], 2) == Some(START);
  }

  lemma Exits(cfg: Config, c: Chain)
    requires c.branches != [] && Single(c, NODE2, c.branches[0].pack.preview, NODE1)
    ensures Take(cfg, 1, c, Receive(BLOCK3, cfg.ties, cfg.ties)).Fatal?
  {
    var br := Branch(NODE3, c.branches[0].pack);
    assert PackTxs(cfg, br.pack, [], 3) == Some(br.pack);
    assert Grow(cfg, c.branches[0], BLOCK3) == Some(br);
    NobodyInvalid(cfg);
    assert At(NODE2, 2) == NODE2 && Irreversible(NODE3, 1) == At(NODE3, 2) == NODE2;
    SwitchFails(cfg, 1, c, 0, br, NODE2);
  }

  /** A run with one required confirmation and rising heights to a node that holds the block from nobody. */
  lemma HauntedRun(cfg: Config) returns (cs: seq<Chain>, ss: seq<Step>)
    ensures IsRun(cfg, START, 1, cs, ss) && AllRise(cs, ss) && |ss| == 3
    ensures cs[3].branches != [] && Single(cs[3], NODE2, cs[3].branches[0].pack.preview, NODE1)
  {
    var c0 := Genesis(START, BLOCK0);
    var c1 := Submitted(cfg);
    var c2 := Minted(cfg, c1);
    var c3 := Received(cfg, c2);
    cs := [c0, c1, c2, c3];
    ss := [Submit(OVERDRAWN), Mint([OVERDRAWN], 1, 0, cfg.ties, cfg.ties), Receive(BLOCK2, cfg.ties, cfg.ties)];
    forall k | 0 <= k < |ss| ensures Moves(cfg, 1, cs[k], ss[k], cs[k + 1]) && Rises(cs[k], ss[k]) {
      if k == 0 {} else if k == 1 {} else {}
    }
  }

  /** The next block is fatal to it. */
  lemma GhostRun(cfg: Config) returns (cs: seq<Chain>, ss: seq<Step>, last: Step)
    ensures IsRun(cfg, START, 1, cs, ss) && AllRise(cs, ss)
    ensures var c := cs[|ss|]; c.headIndex < |c.branches| && Enabled(c, last) && Take(cfg, 1, c, last).Fatal?
  {
    cs, ss := HauntedRun(cfg);
    Exits(cfg, cs[3]);
    last := Receive(BLOCK3, cfg.ties, cfg.ties);
  }

  lemma Unreplayable(cfg: Config, ties: HeadTies, c: Chain)
    requires c.branches != [] && Single(c, NODE2, c.branches[0].pack.preview, NODE1)
    ensures !AllReplay(cfg, ties, c)
  {
    NobodyInvalid(Retied(cfg, ties(NODE2)));
    assert !Replays(Retied(cfg, ties(c.branches[0].head)), c, c.branches[0].head);
  }

  /** And before that it cannot be started again. */
  lemma NeverStarts(cfg: Config) returns (cs: seq<Chain>, ss: seq<Step>)
    ensures IsRun(cfg, START, 1, cs, ss) && AllRise(cs, ss)
    ensures forall ties: HeadTies, heads: seq<Node> ::
      Enumerates(cs[|ss|].db.blocks, heads) ==> Restart(cfg, ties, cs[|ss|].db, heads).Refused?
  {
    cs, ss := HauntedRun(cfg);
    forall ties: HeadTies, heads: seq<Node> | Enumerates(cs[3].db.blocks, heads)
      ensures Restart(cfg, ties, cs[3].db, heads).Refused?
    {
      RestartInRun(cfg, START, 1, cs, ss, 3, ties, heads);
      Unreplayable(cfg, ties, cs[3]);
    }
  }
}
