/** A tie that ends a node: two providers share a node id, the preview of a creation takes one of them
    and the irreversible ledger the other, and a bill signed by the first is then refused. */
module ChainTied {
  import opened Common
  import opened LedgerTypes
  import opened Transactions
  import opened LedgerFacts
  import opened LedgerTies
  import opened BlockTree
  import opened ChainSpec
  import opened ChainLedger
  import opened PathTies
  import opened ChainInv
  import opened ChainStore
  import opened ChainSteps
  import opened ChainRuns

  // ---------------------------------------------------------------- two ledgers

  const ALICE := User(1)
  const PAT := User(2)
  const QUINN := User(3)
  const DB := Database(ALICE, 1)
  const OFFER := Provider(0, 0, 0.0, [], 1, 1, Particle, 7)

  /** Pat and Quinn have registered the same node id. */
  const START := Ledger(map[ALICE := Account(Balance(2, 0), 1), PAT := Account(Balance(0, 0), 1)], map[],
                        map[PAT := OFFER, QUINN := OFFER])

  const CREATE := Tx(1, 1, true, CreateDatabase(ALICE, [], 1, 0, 0, 0.0, 1, 1, Particle))

  /** An empty bill of the first period, signed by Pat. */
  const BILL := Tx(2, 1, true, UpdateBilling(DB, [], 0, 1, 1))

  function Params(ties: Ties): Config {
    Config(1, 1, 1, ties)
  }

  /** Ties fall in favour of m. */
  function For(m: Address): Ties {
    Always(Favour(m))
  }

  lemma Matched(m: Address)
    requires m == PAT || m == QUINN
    ensures MatchMiners(Favour(m), START, CREATE.body, ALICE) == Miners([MinerOf(m, OFFER)])
  {
    var s := Candidates(START, CREATE.body, ALICE);
    assert s == {PAT, QUINN};
    Favoured(START.providers, s, m);
    SortedMembers(Favour(m), START.providers, s);
    assert Sorted(Favour(m), START.providers, s)[..1] == [m];
    assert MinersOf(START, [m]) == [MinerOf(m, OFFER)];
  }

  /** The ledger after the creation with miner m. */
  function Made(m: Address): Ledger {
    Ledger(START.accounts[ALICE := Account(Balance(0, 0), 2)][DB := EmptyAccount],
           map[DB := NewProfile(CREATE.body, ALICE, [MinerOf(m, OFFER)], 1)], START.providers - {m})
  }

  /** One creation, two outcomes. */
  lemma Creates(ties: Ties, m: Address)
    requires m == PAT || m == QUINN
    ensures Apply(Retied(Params(ties), For(m)), START, CREATE, 1) == Applied(Made(m), NoErr)
    ensures Made(PAT) != Made(QUINN)
  {
    Matched(m);
    var cfg := Retied(Params(ties), For(m));
    assert RankOf(cfg, START, 1, 1, CREATE.body) == Favour(m);
    assert MinDeposit(cfg, 1, 1) == 1;
    MadeFrom(m);
    assert PAT in Made(QUINN).providers && PAT !in Made(PAT).providers;
  }

  lemma MadeFrom(m: Address)
    requires m == PAT || m == QUINN
    ensures var d := Decrease(START, ALICE, 2, Particle);
      && d.err.NoErr?
      && var r := CreateProfile(d.ledger, DB, NewProfile(CREATE.body, ALICE, [MinerOf(m, OFFER)], 1));
         r.err.NoErr? && IncreaseNonce(r.ledger, ALICE) == Applied(Made(m), NoErr)
  {
    var d := Decrease(START, ALICE, 2, Particle).ledger;
    assert d.accounts[ALICE] == Account(Balance(0, 0), 1);
    assert MinerAddresses([MinerOf(m, OFFER)]) == {m};
    var r := CreateProfile(d, DB, NewProfile(CREATE.body, ALICE, [MinerOf(m, OFFER)], 1)).ledger;
    assert IncreaseNonce(r, ALICE).ledger.accounts == Made(m).accounts;
  }

  /** Pat's bill is accepted on one of them only. */
  lemma Bills(cfg: Config)
    ensures Apply(cfg, Made(PAT), BILL, 2).err.NoErr?
    ensures Apply(cfg, Made(QUINN), BILL, 2).err.InvalidSender?
  {
    var p, q := Made(PAT).databases[DB], Made(QUINN).databases[DB];
    assert p.miners[0].address == PAT && q.miners == [MinerOf(QUINN, OFFER)];
  }

  // ---------------------------------------------------------------- the run

  const BLOCK0 := Block(NoParent, 0, 0, [])
  const BLOCK1 := Block(Digest(BLOCK0), 1, 0, [CREATE])
  const BLOCK2 := Block(Digest(BLOCK1), 2, 0, [BILL])
  const BLOCK3 := Block(Digest(BLOCK2), 3, 0, [])

  const NODE0 := NewNode(BLOCK0, None)
  const NODE1 := NewNode(BLOCK1, Some(NODE0))
  const NODE2 := NewNode(BLOCK2, Some(NODE1))
  const NODE3 := NewNode(BLOCK3, Some(NODE2))

  /** A node with one branch. */
  ghost predicate Single(c: Chain, br: Branch, irre: Node, l: Ledger) {
    c.branches == [br] && c.headIndex == 0 && c.lastIrre == irre && c.immutable == l
  }

  /** A block is taken with ties falling for Pat and becomes irreversible with ties falling for Quinn. */
  function Split(b: Block): Step {
    Receive(b, For(PAT), For(QUINN))
  }

  lemma {:induction false} SingleSwitch(cfg: Config, c: Chain, before: Branch, last: Node, l: Ledger, br: Branch,
      irre: Node, m: Ledger)
    requires Single(c, before, last, l) && irre == Irreversible(br.head, 1)
    requires ApplyNodes(cfg, l, NodesFrom(irre, last.count + 1)) == Some(m)
    ensures var r := Switch(cfg, 1, c, 0, br);
      && r.Done? && r.chain.branches != [] && Single(r.chain, r.chain.branches[0], irre, m)
      && r.chain.branches[0].head == br.head && r.chain.branches[0].pack.preview == br.pack.preview
      && r.chain.branches[0].pack.packed <= br.pack.packed
  {
    SwitchIs(cfg, 1, c, 0, br, irre, m);
    SingleTo(c, before, last, l, br, irre, m);
  }

  lemma {:induction false} SingleTo(c: Chain, before: Branch, last: Node, l: Ledger, br: Branch, irre: Node, m: Ledger)
    requires Single(c, before, last, l)
    ensures var d := SwitchTo(c, 0, br, irre, m);
      && d.branches != [] && Single(d, d.branches[0], irre, m)
      && d.branches[0].head == br.head && d.branches[0].pack.preview == br.pack.preview
      && d.branches[0].pack.packed <= br.pack.packed
  {
    assert c.branches[..0] == [];
    assert Survivors([], 0, br, irre) == [];
    assert Survivors(c.branches, 0, br, irre) == [br];
    var d := SwitchTo(c, 0, br, irre, m);
    assert |d.branches| == 1;
    assert d.branches == [d.branches[0]];
  }

  lemma {:induction false} PackOne(cfg: Config, p: Pack, tx: Tx, h: nat)
    requires tx.Verify() && tx !in p.packed && Apply(cfg, p.preview, tx, h).err.NoErr?
    ensures PackTxs(cfg, p, [tx], h) ==
      Some(Pack(Apply(cfg, p.preview, tx, h).ledger, p.packed + {tx}, p.unpacked - {tx}))
  {
    assert [tx][..0] == [];
    assert PackTxs(cfg, p, [], h) == Some(p);
  }

  lemma {:induction false} ApplyOne(cfg: Config, l: Ledger, n: Node)
    requires |n.block.txs| == 1
    ensures var r := Apply(cfg, l, n.block.txs[0], n.Height());
      ApplyNodes(cfg, l, [n]) == if r.err.NoErr? then Some(r.ledger) else None
  {
    assert [n][..0] == [] && n.block.txs[..0] == [];
    assert ApplyNodes(cfg, l, []) == Some(l) && ApplyAll(cfg, l, [], n.Height()) == Some(l);
  }

  /** A block on the only branch is tried and, if it fits, the node switches to it. */
  lemma {:induction false} TakeGrows(cfg: Config, c: Chain, before: Branch, irre: Node, l: Ledger, b: Block, br: Branch)
    requires Single(c, before, irre, l) && b.parent == before.head.Hash() && br.head.count == before.head.count + 1
    requires Grow(Retied(cfg, For(PAT)), before, b) == Some(br)
    ensures Take(cfg, 1, c, Split(b)) == Switch(Retied(cfg, For(QUINN)), 1, c, 0, br)
  {
    assert FindHead(c.branches, b.parent) == 0;
  }

  lemma First(ties: Ties) returns (d: Chain)
    ensures Take(Params(ties), 1, Genesis(START, BLOCK0), Split(BLOCK1)) == Done(d) && d.branches != []
    ensures Single(d, d.branches[0], NODE0, START) && d.branches[0].head == NODE1
    ensures d.branches[0].pack.preview == Made(PAT) && d.branches[0].pack.packed <= {CREATE}
  {
    var cfg := Params(ties);
    var c := Genesis(START, BLOCK0);
    var br := FirstGrows(ties);
    assert NodesFrom(NODE0, 1) == [];
    SingleSwitch(Retied(cfg, For(QUINN)), c, c.branches[0], NODE0, START, br, NODE0, START);
    TakeGrows(cfg, c, c.branches[0], NODE0, START, BLOCK1, br);
    d := Switch(Retied(cfg, For(QUINN)), 1, c, 0, br).chain;
  }

  lemma FirstGrows(ties: Ties) returns (br: Branch)
    ensures Grow(Retied(Params(ties), For(PAT)), Genesis(START, BLOCK0).branches[0], BLOCK1) == Some(br)
    ensures br.head == NODE1 && br.pack.preview == Made(PAT) && br.pack.packed == {CREATE}
  {
    var cfg, before := Retied(Params(ties), For(PAT)), Genesis(START, BLOCK0).branches[0];
    Creates(ties, PAT);
    PackOne(cfg, before.pack, CREATE, 1);
    br := Grow(cfg, before, BLOCK1).value;
  }

  /** The bill is taken on top of the creation that gave the miner Pat. */
  lemma SecondGrows(ties: Ties, before: Branch) returns (br: Branch)
    requires before.head == NODE1 && before.pack.preview == Made(PAT) && before.pack.packed <= {CREATE}
    ensures Grow(Retied(Params(ties), For(PAT)), before, BLOCK2) == Some(br) && br.head == NODE2
  {
    var cfg := Retied(Params(ties), For(PAT));
    Bills(cfg);
    assert BILL != CREATE;
    PackOne(cfg, before.pack, BILL, 2);
    br := Grow(cfg, before, BLOCK2).value;
  }

  /** The creation becomes irreversible with the miner Quinn. */
  lemma SecondSettles(ties: Ties)
    ensures ApplyNodes(Retied(Params(ties), For(QUINN)), START, NodesFrom(NODE1, 1)) == Some(Made(QUINN))
    ensures Irreversible(NODE2, 1) == NODE1
  {
    CreationBelow();
    var cfg := Retied(Params(ties), For(QUINN));
    assert ApplyNodes(cfg, START, [NODE1]) == Some(Made(QUINN)) by {
      Creates(ties, QUINN);
      ApplyOne(cfg, START, NODE1);
    }
  }

  lemma CreationBelow()
    ensures NodesFrom(NODE1, 1) == [NODE1] && Irreversible(NODE2, 1) == NODE1
  {
    assert At(NODE1, 1) == NODE1 && Irreversible(NODE2, 1) == At(NODE2, 1);
  }

  lemma Second(ties: Ties, c: Chain) returns (d: Chain)
    requires c.branches != [] && Single(c, c.branches[0], NODE0, START) && c.branches[0].head == NODE1
    requires c.branches[0].pack.preview == Made(PAT) && c.branches[0].pack.packed <= {CREATE}
    ensures Take(Params(ties), 1, c, Split(BLOCK2)) == Done(d) && d.branches != []
    ensures Single(d, d.branches[0], NODE1, Made(QUINN)) && d.branches[0].head == NODE2
  {
    var cfg := Params(ties);
    var br := SecondGrows(ties, c.branches[0]);
    SecondSettles(ties);
    SingleSwitch(Retied(cfg, For(QUINN)), c, c.branches[0], NODE0, START, br, NODE1, Made(QUINN));
    TakeGrows(cfg, c, c.branches[0], NODE0, START, BLOCK2, br);
    d := Switch(Retied(cfg, For(QUINN)), 1, c, 0, br).chain;
  }

  lemma Third(ties: Ties, c: Chain)
    requires c.branches != [] && Single(c, c.branches[0], NODE1, Made(QUINN)) && c.branches[0].head == NODE2
    ensures Take(Params(ties), 1, c, Split(BLOCK3)).Fatal?
  {
    var cfg := Params(ties);
    var br := Branch(NODE3, c.branches[0].pack);
    assert PackTxs(Retied(cfg, For(PAT)), br.pack, [], 3) == Some(br.pack);
    assert Grow(Retied(cfg, For(PAT)), c.branches[0], BLOCK3) == Some(br);
    TakeGrows(cfg, c, c.branches[0], NODE1, Made(QUINN), BLOCK3, br);
    Bills(Retied(cfg, For(QUINN)));
    ApplyOne(Retied(cfg, For(QUINN)), Made(QUINN), NODE2);
    assert NodesFrom(NODE2, 2) == [NODE2];
    assert At(NODE2, 2) == NODE2 && Irreversible(NODE3, 1) == At(NODE3, 2) == NODE2;
  }

  /** A node that only receives blocks, at rising heights, and exits. */
  lemma TiedRun(ties: Ties) returns (cs: seq<Chain>, ss: seq<Step>, last: Step)
    ensures IsRun(Params(ties), START, 1, cs, ss) && AllRise(cs, ss) && NoMint(ss)
    ensures var c := cs[|ss|];
      c.headIndex < |c.branches| && Enabled(c, last) && last.Receive? && Take(Params(ties), 1, c, last).Fatal?
  {
    var c0 := Genesis(START, BLOCK0);
    var c1 := First(ties);
    var c2 := Second(ties, c1);
    Third(ties, c2);
    cs, ss, last := [c0, c1, c2], [Split(BLOCK1), Split(BLOCK2)], Split(BLOCK3);
    forall k | 0 <= k < |ss| ensures Moves(Params(ties), 1, cs[k], ss[k], cs[k + 1]) && Rises(cs[k], ss[k]) {
      if k == 0 {} else {}
    }
  }
}
