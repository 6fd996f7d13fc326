/** The ledgers of a block producer node over its runs: previews and the irreversible ledger are those of
    their paths and the node never exits, as long as the blocks it takes are sourced and not tied. */
module ChainRuns {
  import opened Common
  import opened LedgerTypes
  import opened Transactions
  import opened LedgerFacts
  import opened LedgerTies
  import opened BlockTree
  import opened ChainSpec
  import opened ChainLedger
  import opened PathTies
  import opened ChainPaths
  import opened ChainInv
  import opened ChainStore
  import opened ChainRestart
  import opened ChainReboot
  import opened ChainSteps

  /** Branch i accepts b, which is not sourced in the exact ledger of the branch. */
  ghost predicate Unsourced(cfg: Config, g: Ledger, br: Branch, b: Block) {
    && br.head.Hash() == b.parent && Grow(cfg, br, b).Some? && LedgerAt(cfg, g, br.head).Some?
    && !Sourced(cfg, LedgerAt(cfg, g, br.head).value, b.txs, b.height)
  }

  /** No creation in a block that s takes, or exits on, is tied. */
  ghost predicate UntiedStep(cfg: Config, g: Ledger, confirms: nat, c: Chain, s: Step)
    requires c.headIndex < |c.branches|
  {
    match s
    case Receive(b, _, _) => Take(cfg, confirms, c, s).Refused? || UntiedPath(cfg, g, NodeOf(b))
    case Mint(order, height, producer, ties, _) =>
      UntiedPath(cfg, g, Produce(Retied(cfg, ties), c.branches[c.headIndex], order, height, producer).head)
    case _ => true
  }

  ghost predicate SourcedStep(cfg: Config, g: Ledger, c: Chain, s: Step) {
    s.Receive? ==> forall i :: 0 <= i < |c.branches| ==> !Unsourced(Retied(cfg, s.ties), g, c.branches[i], s.block)
  }

  // ---------------------------------------------------------------- new branches

  lemma SubmitLedgers(cfg: Config, g: Ledger, confirms: nat, c: Chain, tx: Tx)
    requires Inv(cfg, g, confirms, c) && Admits(c, tx)
    ensures var r := StoreTx(c, tx);
      && r.Done? && Inv(cfg, g, confirms, r.chain)
      && (AllExact(cfg, g, c) ==> AllExact(cfg, g, r.chain))
  {
    SubmitConsistent(confirms, c, tx);
    var d := StoreTx(c, tx).chain;
    forall i | 0 <= i < |d.branches|
      ensures UntiedPath(cfg, g, d.branches[i].head) && Previews(cfg, g, d.branches[i])
      ensures Exact(cfg, g, c.branches[i]) ==> Exact(cfg, g, d.branches[i])
    {
      assert d.branches[i].head == c.branches[i].head && d.branches[i].pack.preview == c.branches[i].pack.preview;
      assert Previews(cfg, g, c.branches[i]);
    }
  }

  lemma SideLedgers(cfg: Config, g: Ledger, confirms: nat, c: Chain, i: nat, br: Branch)
    requires Inv(cfg, g, confirms, c) && i < |c.branches| && Extends(c, i, br) && br.head.count <= c.HeadCount()
    requires Previews(cfg, g, br) && UntiedPath(cfg, g, br.head)
    ensures var d := SideGrown(c, i, br);
      Inv(cfg, g, confirms, d) && (AllExact(cfg, g, c) && Exact(cfg, g, br) ==> AllExact(cfg, g, d))
  {
    SideConsistent(confirms, c, i, br);
    var d := SideGrown(c, i, br);
    forall k | 0 <= k < |d.branches| ensures UntiedPath(cfg, g, d.branches[k].head) && Previews(cfg, g, d.branches[k]) {
      assert k != i ==> d.branches[k] == c.branches[k];
    }
  }

  lemma SwitchUntied(cfg: Config, g: Ledger, confirms: nat, c: Chain, i: nat, br: Branch, irre: Node, l: Ledger)
    requires Overtakes(confirms, c, i, br, irre) && UntiedChain(cfg, g, c) && UntiedPath(cfg, g, br.head)
    ensures UntiedChain(cfg, g, SwitchTo(c, i, br, irre, l))
  {
    var d := SwitchTo(c, i, br, irre, l);
    forall k | 0 <= k < |d.branches| ensures UntiedPath(cfg, g, d.branches[k].head) {
      var b := SwitchedFrom(confirms, c, i, br, irre, l, k);
      assert UntiedPath(cfg, g, b.head);
    }
  }

  lemma OvertakeLedgers(cfg: Config, g: Ledger, confirms: nat, c: Chain, i: nat, br: Branch)
    requires Inv(cfg, g, confirms, c) && i < |c.branches| && Extends(c, i, br) && br.head.count > c.HeadCount()
    requires Previews(cfg, g, br) && UntiedPath(cfg, g, br.head)
    ensures var r := Switch(cfg, confirms, c, i, br);
      && r.Done? && Inv(cfg, g, confirms, r.chain)
      && (AllExact(cfg, g, c) && Exact(cfg, g, br) ==> AllExact(cfg, g, r.chain))
  {
    var irre := Irreversible(br.head, confirms);
    SwitchDone(cfg, g, confirms, c, i, br, irre);
    var l := LedgerAt(cfg, g, irre).value;
    OvertakeConsistent(confirms, c, i, br, irre, l);
    SwitchLedgers(cfg, g, confirms, c, i, br, irre, l);
    SwitchUntied(cfg, g, confirms, c, i, br, irre, l);
    if AllExact(cfg, g, c) && Exact(cfg, g, br) { SwitchExact(cfg, g, confirms, c, i, br, irre, l); }
  }

  /** The same however ties fall while the blocks become irreversible. */
  lemma OvertakeAnyhow(cfg: Config, ties: Ties, g: Ledger, confirms: nat, c: Chain, i: nat, br: Branch)
    requires Inv(cfg, g, confirms, c) && i < |c.branches| && Extends(c, i, br) && br.head.count > c.HeadCount()
    requires Previews(cfg, g, br) && UntiedPath(cfg, g, br.head)
    ensures var r := Switch(Retied(cfg, ties), confirms, c, i, br);
      && r.Done? && Inv(cfg, g, confirms, r.chain)
      && (AllExact(cfg, g, c) && Exact(cfg, g, br) ==> AllExact(cfg, g, r.chain))
  {
    InvSame(cfg, ties, g, confirms, c);
    PreviewsSame(cfg, ties, g, br);
    OvertakeLedgers(Retied(cfg, ties), g, confirms, c, i, br);
    BackAgain(cfg, ties, g, confirms, Switch(Retied(cfg, ties), confirms, c, i, br).chain);
  }

  lemma BackAgain(cfg: Config, ties: Ties, g: Ledger, confirms: nat, c: Chain)
    requires Inv(Retied(cfg, ties), g, confirms, c)
    ensures Inv(cfg, g, confirms, c) && (AllExact(Retied(cfg, ties), g, c) <==> AllExact(cfg, g, c))
  {
    assert Retied(Retied(cfg, ties), cfg.ties) == cfg;
    InvSame(Retied(cfg, ties), cfg.ties, g, confirms, c);
  }

  // ---------------------------------------------------------------- receiving

  /** What a step from c by s may do. */
  ghost predicate Safe(cfg: Config, g: Ledger, confirms: nat, c: Chain, s: Step, r: Outcome) {
    match r
    case Fatal => false
    case Refused => true
    case Done(d) => Inv(cfg, g, confirms, d) && (AllExact(cfg, g, c) && !s.Mint? ==> AllExact(cfg, g, d))
  }

  /** A sourced block without ties that a branch accepts gives a branch with the ledger of its path. */
  lemma {:induction false} GrownPreviews(cfg: Config, ties: Ties, g: Ledger, confirms: nat, c: Chain, i: nat, b: Block)
    requires Inv(cfg, g, confirms, c) && i < |c.branches| && c.branches[i].head.Hash() == b.parent
    requires UntiedPath(cfg, g, NodeOf(b)) && !Unsourced(Retied(cfg, ties), g, c.branches[i], b)
    requires Grow(Retied(cfg, ties), c.branches[i], b).Some?
    ensures var br := Grow(Retied(cfg, ties), c.branches[i], b).value;
      && Extends(c, i, br) && UntiedPath(cfg, g, br.head) && Previews(cfg, g, br)
      && (AllExact(cfg, g, c) ==> Exact(cfg, g, br))
  {
    var con := Retied(cfg, ties);
    var br := Grow(con, c.branches[i], b).value;
    GrowExtends(con, c, i, b);
    WellFormedIsNodeOf(br.head);
    InvSame(cfg, ties, g, confirms, c);
    assert Previews(con, g, c.branches[i]);
    GrowPreviews(con, g, c.branches[i], b);
    if AllExact(cfg, g, c) {
      assert Exact(con, g, c.branches[i]);
      GrowExact(con, g, c.branches[i], b);
    }
    PreviewsSame(cfg, ties, g, br);
  }

  lemma ReceiveGrow(cfg: Config, g: Ledger, confirms: nat, c: Chain, s: Step)
    requires s.Receive? && Inv(cfg, g, confirms, c) && UntiedStep(cfg, g, confirms, c, s) && SourcedStep(cfg, g, c, s)
    requires FindHead(c.branches, s.block.parent) < |c.branches|
    ensures Safe(cfg, g, confirms, c, s, Take(cfg, confirms, c, s))
  {
    var i := FindHead(c.branches, s.block.parent);
    if Grow(Retied(cfg, s.ties), c.branches[i], s.block).Some? {
      var br := Grow(Retied(cfg, s.ties), c.branches[i], s.block).value;
      GrownPreviews(cfg, s.ties, g, confirms, c, i, s.block);
      if br.head.count > c.HeadCount() {
        OvertakeAnyhow(cfg, s.settling, g, confirms, c, i, br);
      } else {
        SideLedgers(cfg, g, confirms, c, i, br);
      }
    }
  }

  lemma ForkLedgers(cfg: Config, g: Ledger, confirms: nat, c: Chain, br: Branch, b: Block, i: nat)
    requires Inv(cfg, g, confirms, c) && NewFork(c, br, b, i) && Exact(cfg, g, br) && UntiedPath(cfg, g, br.head)
    ensures Inv(cfg, g, confirms, Forked(c, br)) && (AllExact(cfg, g, c) ==> AllExact(cfg, g, Forked(c, br)))
  {
    ForkConsistent(confirms, c, br);
    var d := Forked(c, br);
    forall k | 0 <= k < |d.branches| ensures UntiedPath(cfg, g, d.branches[k].head) && Previews(cfg, g, d.branches[k]) {
      assert k < |c.branches| ==> d.branches[k] == c.branches[k];
    }
  }

  lemma ReceiveFork(cfg: Config, g: Ledger, confirms: nat, c: Chain, s: Step)
    requires s.Receive? && Inv(cfg, g, confirms, c) && UntiedStep(cfg, g, confirms, c, s)
    requires FindHead(c.branches, s.block.parent) == |c.branches|
    ensures Safe(cfg, g, confirms, c, s, Take(cfg, confirms, c, s))
  {
    var con := Retied(cfg, s.ties);
    if Take(cfg, confirms, c, s).Done? {
      var br, i := ForkFacts(con, Retied(cfg, s.settling), confirms, c, s.block);
      InvSame(cfg, s.ties, g, confirms, c);
      ForkExact(con, g, c, br.head);
      WellFormedIsNodeOf(br.head);
      PreviewsSame(cfg, s.ties, g, br);
      ForkLedgers(cfg, g, confirms, c, br, s.block, i);
    }
  }

  // ---------------------------------------------------------------- producing

  lemma MintLedgers(cfg: Config, g: Ledger, confirms: nat, c: Chain, s: Step)
    requires s.Mint? && Inv(cfg, g, confirms, c) && Enabled(c, s) && UntiedStep(cfg, g, confirms, c, s)
    ensures Take(cfg, confirms, c, s).Done? && Inv(cfg, g, confirms, Take(cfg, confirms, c, s).chain)
  {
    var i := c.headIndex;
    var br := Produce(Retied(cfg, s.ties), c.branches[i], s.order, s.height, s.producer);
    ProduceExtends(Retied(cfg, s.ties), c, i, s.order, s.height, s.producer);
    InvSame(cfg, s.ties, g, confirms, c);
    ProducePreviews(Retied(cfg, s.ties), g, confirms, c, i, s.order, s.height, s.producer);
    PreviewsSame(cfg, s.ties, g, br);
    OvertakeAnyhow(cfg, s.settling, g, confirms, c, i, br);
  }

  // ---------------------------------------------------------------- every step

  /** Every step keeps the ledgers and never ends in the fatal exit; a node that does not produce
      keeps exact previews. */
  lemma StepKeeps(cfg: Config, g: Ledger, confirms: nat, c: Chain, s: Step)
    requires Inv(cfg, g, confirms, c) && Enabled(c, s) && (s.Reboot? ==> Stored(c))
    requires UntiedStep(cfg, g, confirms, c, s) && SourcedStep(cfg, g, c, s)
    ensures Safe(cfg, g, confirms, c, s, Take(cfg, confirms, c, s))
  {
    match s
    case Submit(tx) => if Admits(c, tx) { SubmitLedgers(cfg, g, confirms, c, tx); }
    case Receive(b, _, _) =>
      if FindHead(c.branches, b.parent) < |c.branches| {
        ReceiveGrow(cfg, g, confirms, c, s);
      } else {
        ReceiveFork(cfg, g, confirms, c, s);
      }
    case Mint(_, _, _, _, _) => MintLedgers(cfg, g, confirms, c, s);
    case Reboot(heads, ties) => RestartKeeps(cfg, ties, g, confirms, c, heads);
  }

  /** With exact previews every block that a branch accepts is sourced. */
  lemma ExactIsSourced(cfg: Config, g: Ledger, confirms: nat, c: Chain, s: Step)
    requires Inv(cfg, g, confirms, c) && AllExact(cfg, g, c)
    ensures SourcedStep(cfg, g, c, s)
  {
    if s.Receive? {
      var con := Retied(cfg, s.ties);
      InvSame(cfg, s.ties, g, confirms, c);
      forall i | 0 <= i < |c.branches| ensures !Unsourced(con, g, c.branches[i], s.block) {
        if Grow(con, c.branches[i], s.block).Some? {
          assert Exact(con, g, c.branches[i]);
          GrowExact(con, g, c.branches[i], s.block);
        }
      }
    }
  }

  // ---------------------------------------------------------------- runs

  ghost predicate NoMint(ss: seq<Step>) {
    forall k :: 0 <= k < |ss| ==> !ss[k].Mint?
  }

  /** No step of the run before k takes a block with a tied creation. */
  ghost predicate UntiedRun(cfg: Config, g: Ledger, confirms: nat, cs: seq<Chain>, ss: seq<Step>, k: nat)
    requires |cs| == |ss| + 1 && k <= |ss|
  {
    forall i :: 0 <= i < k && cs[i].headIndex < |cs[i].branches| ==> UntiedStep(cfg, g, confirms, cs[i], ss[i])
  }

  ghost predicate SourcedRun(cfg: Config, g: Ledger, cs: seq<Chain>, ss: seq<Step>, k: nat)
    requires |cs| == |ss| + 1 && k <= |ss|
  {
    forall i :: 0 <= i < k ==> SourcedStep(cfg, g, cs[i], ss[i])
  }

  /** A run whose blocks up to step k are sourced and not tied. */
  ghost predicate CleanRun(cfg: Config, g: Ledger, confirms: nat, cs: seq<Chain>, ss: seq<Step>, k: nat) {
    StoredRun(cfg, g, confirms, cs, ss) && k <= |ss| && UntiedRun(cfg, g, confirms, cs, ss, k) &&
      SourcedRun(cfg, g, cs, ss, k)
  }

  lemma RunStep(cfg: Config, g: Ledger, confirms: nat, cs: seq<Chain>, ss: seq<Step>, k: nat)
    requires StoredRun(cfg, g, confirms, cs, ss) && k < |ss| && Inv(cfg, g, confirms, cs[k])
    requires UntiedStep(cfg, g, confirms, cs[k], ss[k]) && SourcedStep(cfg, g, cs[k], ss[k])
    ensures Inv(cfg, g, confirms, cs[k + 1]) && !Take(cfg, confirms, cs[k], ss[k]).Fatal?
    ensures AllExact(cfg, g, cs[k]) && !ss[k].Mint? ==> AllExact(cfg, g, cs[k + 1])
  {
    assert Moves(cfg, confirms, cs[k], ss[k], cs[k + 1]);
    RunConsistent(cfg, g, confirms, cs, ss, k);
    StepKeeps(cfg, g, confirms, cs[k], ss[k]);
  }

  /** Every state of a clean run has the ledgers of its paths: the irreversible one exactly, the previews
      up to ghost accounts. */
  lemma {:induction false} RunSafe(cfg: Config, g: Ledger, confirms: nat, cs: seq<Chain>, ss: seq<Step>, k: nat)
    requires CleanRun(cfg, g, confirms, cs, ss, k)
    ensures Inv(cfg, g, confirms, cs[k])
  {
    if k == 0 {
      RunStart(cfg, g, confirms, cs, ss);
    } else {
      RunSafe(cfg, g, confirms, cs, ss, k - 1);
      RunStep(cfg, g, confirms, cs, ss, k - 1);
    }
  }

  /** No step of a clean run ends in the fatal exit. */
  lemma NeverFatal(cfg: Config, g: Ledger, confirms: nat, cs: seq<Chain>, ss: seq<Step>, k: nat)
    requires k < |ss| && CleanRun(cfg, g, confirms, cs, ss, k + 1)
    ensures cs[k].headIndex < |cs[k].branches| && !Take(cfg, confirms, cs[k], ss[k]).Fatal?
  {
    RunSafe(cfg, g, confirms, cs, ss, k);
    RunStep(cfg, g, confirms, cs, ss, k);
  }

  /** A node that produces no blocks keeps exact previews whatever it receives, as long as no creation is
      tied: every step is sourced, so RunSafe and NeverFatal apply to its runs. */
  lemma {:induction false} ValidatorSafe(cfg: Config, g: Ledger, confirms: nat, cs: seq<Chain>, ss: seq<Step>, k: nat)
    requires StoredRun(cfg, g, confirms, cs, ss) && NoMint(ss) && k <= |ss| && UntiedRun(cfg, g, confirms, cs, ss, k)
    ensures CleanRun(cfg, g, confirms, cs, ss, k) && AllExact(cfg, g, cs[k])
  {
    if k == 0 {
      RunStart(cfg, g, confirms, cs, ss);
    } else {
      ValidatorSafe(cfg, g, confirms, cs, ss, k - 1);
      RunSafe(cfg, g, confirms, cs, ss, k - 1);
      ExactIsSourced(cfg, g, confirms, cs[k - 1], ss[k - 1]);
      RunStep(cfg, g, confirms, cs, ss, k - 1);
    }
  }
}
