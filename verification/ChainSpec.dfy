/** The node's chain state as plain values: the ledger of a block path, branches with their
    transaction sets, fork choice, the stored tables, and each step of the node. */
module ChainSpec {
  import opened Common
  import opened LedgerTypes
  import opened Transactions
  import opened BlockTree

  // ---------------------------------------------------------------- ledger of a path

  /** All transactions in order, each of which must be accepted. */
  ghost function ApplyAll(cfg: Config, l: Ledger, txs: seq<Tx>, height: nat): Option<Ledger> {
    if txs == [] then Some(l)
    else
      match ApplyAll(cfg, l, txs[..|txs| - 1], height)
      case None => None
      case Some(m) =>
        var r := Apply(cfg, m, txs[|txs| - 1], height);
        if r.err.NoErr? then Some(r.ledger) else None
  }

  /** The ledger after the path from genesis to n; None if some block on it is invalid. */
  ghost function LedgerAt(cfg: Config, g: Ledger, n: Node): Option<Ledger> {
    match n.parent
    case None => Some(g)
    case Some(p) =>
      match LedgerAt(cfg, g, p)
      case None => None
      case Some(l) => ApplyAll(cfg, l, n.block.txs, n.Height())
  }

  /** Blocks applied on top of l, oldest first. */
  ghost function ApplyNodes(cfg: Config, l: Ledger, nodes: seq<Node>): Option<Ledger> {
    if nodes == [] then Some(l)
    else
      match ApplyNodes(cfg, l, nodes[..|nodes| - 1])
      case None => None
      case Some(m) => ApplyAll(cfg, m, nodes[|nodes| - 1].block.txs, nodes[|nodes| - 1].Height())
  }

  /** The transactions on the path to n after count c. */
  function TxsAfter(n: Node, c: nat): seq<Tx> {
    if n.count <= c || n.parent.None? then [] else TxsAfter(n.parent.value, c) + n.block.txs
  }

  function TxsOf(nodes: seq<Node>): set<Tx> {
    set n, t | n in nodes && t in n.block.txs :: t
  }

  // ---------------------------------------------------------------- branches

  /** A branch without its head: the previewed ledger and the two transaction sets. */
  datatype Pack = Pack(preview: Ledger, packed: set<Tx>, unpacked: set<Tx>)

  datatype Branch = Branch(head: Node, pack: Pack)

  /** One transaction of a block: known ones need no signature check, repeated ones are refused. */
  ghost function PackTx(cfg: Config, p: Pack, tx: Tx, height: nat): Option<Pack> {
    if (tx !in p.unpacked && !tx.Verify()) || tx in p.packed then None
    else
      var r := Apply(cfg, p.preview, tx, height);
      if r.err.NoErr? then Some(Pack(r.ledger, p.packed + {tx}, p.unpacked - {tx})) else None
  }

  ghost function PackTxs(cfg: Config, p: Pack, txs: seq<Tx>, height: nat): Option<Pack> {
    if txs == [] then Some(p)
    else
      match PackTxs(cfg, p, txs[..|txs| - 1], height)
      case None => None
      case Some(q) => PackTx(cfg, q, txs[|txs| - 1], height)
  }

  ghost function PackBlock(cfg: Config, p: Pack, b: Block): Option<Pack> {
    if |b.txs| > MAX_TXS_PER_BLOCK then None else PackTxs(cfg, p, b.txs, b.height)
  }

  /** The blocks after count c on the path to n, packed in order. */
  ghost function PackPath(cfg: Config, base: Pack, n: Node, c: nat): Option<Pack> {
    if n.count <= c || n.parent.None? then Some(base)
    else
      match PackPath(cfg, base, n.parent.value, c)
      case None => None
      case Some(p) => PackBlock(cfg, p, n.block)
  }

  /** A block on top of a branch. */
  ghost function Grow(cfg: Config, br: Branch, b: Block): Option<Branch> {
    match PackBlock(cfg, br.pack, b)
    case None => None
    case Some(p) => Some(Branch(NewNode(b, Some(br.head)), p))
  }

  /** A branch built from the irreversible state. */
  ghost function NewBranch(cfg: Config, base: Node, head: Node, state: Ledger, pool: set<Tx>): Option<Branch> {
    match PackPath(cfg, Pack(state, {}, pool), head, base.count)
    case None => None
    case Some(p) => Some(Branch(head, p))
  }

  function AddTx(br: Branch, tx: Tx): Branch {
    if tx in br.pack.packed || tx in br.pack.unpacked then br
    else br.(pack := br.pack.(unpacked := br.pack.unpacked + {tx}))
  }

  // ---------------------------------------------------------------- production

  datatype Produced = Produced(pack: Pack, out: seq<Tx>)

  /** The transactions of txs from position k on are tried in turn until n are packed; rejected
      ones are skipped, and what they leave in the preview stays. */
  ghost function Try(cfg: Config, s: Produced, txs: seq<Tx>, k: nat, n: nat, height: nat): Produced
    requires k <= |txs|
    decreases |txs| - k
  {
    if k == |txs| || |s.out| == n then s
    else
      var r := Apply(cfg, s.pack.preview, txs[k], height);
      var next :=
        if r.err.NoErr? then
          Produced(Pack(r.ledger, s.pack.packed + {txs[k]}, s.pack.unpacked - {txs[k]}), s.out + [txs[k]])
        else s.(pack := s.pack.(preview := r.ledger));
      Try(cfg, next, txs, k + 1, n, height)
  }

  /** The order in which pooled transactions are tried: account, then nonce. */
  predicate TxBefore(x: Tx, y: Tx) {
    Before(x.Sender(), y.Sender()) || (x.Sender() == y.Sender() && x.nonce <= y.nonce)
  }

  ghost predicate IsOrder(txs: seq<Tx>, s: set<Tx>) {
    && |txs| == |s| && (forall t :: t in txs <==> t in s)
    && (forall i, j :: 0 <= i < j < |txs| ==> txs[i] != txs[j] && TxBefore(txs[i], txs[j]))
  }

  ghost function Produce(cfg: Config, br: Branch, order: seq<Tx>, height: nat, producer: nat): Branch {
    var n := if |order| < MAX_TXS_PER_BLOCK then |order| else MAX_TXS_PER_BLOCK;
    var p := Try(cfg, Produced(br.pack, []), order, 0, n, height);
    Branch(NewNode(Block(br.head.Hash(), height, producer, p.out), Some(br.head)), p.pack)
  }

  // ---------------------------------------------------------------- the node

  /** The tables: blocks in insertion order, pooled transactions, the irreversible hash, and the
      accounts, databases and providers of the irreversible ledger. */
  datatype Storage = Storage(blocks: seq<Block>, pool: set<Tx>, irre: BlockHash, ledger: Ledger)

  datatype Chain = Chain(
    lastIrre: Node, immutable: Ledger, branches: seq<Branch>, headIndex: nat, pool: set<Tx>, db: Storage)
  {
    function HeadCount(): nat
      requires headIndex < |branches|
    {
      branches[headIndex].head.count
    }
  }

  /** Done: state changed and stored. Refused: nothing changed. Fatal: the process exits because an
      irreversible block does not apply to the irreversible ledger. */
  datatype Outcome = Done(chain: Chain) | Refused | Fatal

  function AddTxAll(branches: seq<Branch>, tx: Tx): (r: seq<Branch>)
    ensures |r| == |branches| && forall i :: 0 <= i < |r| ==> r[i] == AddTx(branches[i], tx)
  {
    if branches == [] then [] else AddTxAll(branches[..|branches| - 1], tx) + [AddTx(branches[|branches| - 1], tx)]
  }

  function StoreTx(c: Chain, tx: Tx): Outcome {
    if tx in c.pool then Refused
    else Done(c.(pool := c.pool + {tx}, branches := AddTxAll(c.branches, tx),
                 db := c.db.(pool := c.db.pool + {tx})))
  }

  /** A pending transaction must verify and fall into the nonce window of its account. */
  predicate Admits(c: Chain, tx: Tx) {
    && tx !in c.pool && tx.Verify() && tx.Sender() in c.immutable.accounts
    && var base := c.immutable.accounts[tx.Sender()].nextNonce;
       base <= tx.nonce < base + MAX_PENDING_TXS
  }

  predicate Expired(l: Ledger, tx: Tx) {
    tx.Sender() !in l.accounts || tx.nonce < l.accounts[tx.Sender()].nextNonce
  }

  function ClearTxs(br: Branch, confirmed: set<Tx>, expired: set<Tx>): Branch {
    br.(pack := br.pack.(packed := br.pack.packed - confirmed, unpacked := br.pack.unpacked - expired))
  }

  /** Branches that survive the new irreversible block, the one at i replaced. */
  function Survivors(branches: seq<Branch>, i: nat, br: Branch, irre: Node): seq<Branch> {
    if branches == [] then []
    else
      var k := |branches| - 1;
      var rest := Survivors(branches[..k], i, br, irre);
      if k == i then rest + [br]
      else if Descends(branches[k].head, irre) then rest + [branches[k]]
      else rest
  }

  function ClearAll(branches: seq<Branch>, confirmed: set<Tx>, expired: set<Tx>): (r: seq<Branch>)
    ensures |r| == |branches| && forall i :: 0 <= i < |r| ==> r[i] == ClearTxs(branches[i], confirmed, expired)
  {
    if branches == [] then []
    else
      var last := |branches| - 1;
      ClearAll(branches[..last], confirmed, expired) + [ClearTxs(branches[last], confirmed, expired)]
  }

  /** Transactions that l makes invalid among those still pending. */
  function Stale(pool: set<Tx>, confirmed: set<Tx>, l: Ledger): set<Tx> {
    set t | t in pool - confirmed && Expired(l, t)
  }

  /** Branch i is replaced by br, which becomes the head branch; irre becomes irreversible with
      ledger l. */
  function SwitchTo(c: Chain, i: nat, br: Branch, irre: Node, l: Ledger): Chain
    requires i < |c.branches|
  {
    var confirmed := TxsOf(NodesFrom(irre, c.lastIrre.count + 1));
    var expired := Stale(c.pool, confirmed, l);
    Chain(irre, l, ClearAll(Survivors(c.branches, i, br, irre), confirmed, expired),
          |Survivors(c.branches[..i], i, br, irre)|, c.pool - confirmed - expired,
          Storage(c.db.blocks + [br.head.block], c.db.pool - confirmed - expired, irre.Hash(), l))
  }

  /** The node exits if the ledger of the new irreversible block could not be made. */
  ghost function SwitchOn(c: Chain, i: nat, br: Branch, irre: Node, l: Option<Ledger>): Outcome
    requires i < |c.branches|
  {
    if l.None? then Fatal else Done(SwitchTo(c, i, br, irre, l.value))
  }

  ghost function Switch(cfg: Config, confirms: nat, c: Chain, i: nat, br: Branch): Outcome
    requires i < |c.branches|
  {
    var irre := Irreversible(br.head, confirms);
    SwitchOn(c, i, br, irre, ApplyNodes(cfg, c.immutable, NodesFrom(irre, c.lastIrre.count + 1)))
  }

  lemma SwitchOutcome(cfg: Config, confirms: nat, c: Chain, i: nat, br: Branch, irre: Node)
    requires i < |c.branches| && irre == Irreversible(br.head, confirms)
    ensures Switch(cfg, confirms, c, i, br) ==
      SwitchOn(c, i, br, irre, ApplyNodes(cfg, c.immutable, NodesFrom(irre, c.lastIrre.count + 1)))
  {}

  /** The first branch whose head is the parent of b. */
  function FindHead(branches: seq<Branch>, h: BlockHash): (i: nat)
    ensures i <= |branches|
    ensures i < |branches| ==> branches[i].head.Hash() == h
    ensures forall j :: 0 <= j < i ==> branches[j].head.Hash() != h
  {
    if branches == [] then 0
    else if branches[0].head.Hash() == h then 0
    else 1 + FindHead(branches[1..], h)
  }

  /** The block is found at its height on some branch. */
  predicate Known(branches: seq<Branch>, b: Block) {
    exists i :: 0 <= i < |branches| && KnownOn(branches[i].head, b)
  }

  predicate KnownOn(n: Node, b: Block) {
    var a := AtHeight(n, b.height);
    a.Some? && a.value.Hash() == b.Hash()
  }

  /** The parent of a fork: on the first branch that has it above the irreversible block. */
  function FindParent(branches: seq<Branch>, h: BlockHash, min: nat): Option<Node> {
    if branches == [] then None
    else
      var p := FindFrom(branches[0].head, h, min);
      if p.Some? then p else FindParent(branches[1..], h, min)
  }

  /** A received block; ties fall as cfg says while it is tried and as con says while blocks become
      irreversible. */
  ghost function ApplyBlock(cfg: Config, con: Config, confirms: nat, c: Chain, b: Block): Outcome
    requires c.headIndex < |c.branches|
  {
    var i := FindHead(c.branches, b.parent);
    if i < |c.branches| then
      match Grow(cfg, c.branches[i], b)
      case None => Refused
      case Some(br) =>
        if br.head.count <= c.HeadCount() then
          Done(c.(branches := c.branches[i := br], db := c.db.(blocks := c.db.blocks + [b])))
        else Switch(con, confirms, c, i, br)
    else if Known(c.branches, b) then Refused
    else
      match FindParent(c.branches, b.parent, c.lastIrre.count)
      case None => Refused
      case Some(p) =>
        match NewBranch(cfg, c.lastIrre, NewNode(b, Some(p)), c.immutable, c.pool)
        case None => Refused
        case Some(br) =>
          Done(c.(branches := c.branches + [br], db := c.db.(blocks := c.db.blocks + [b])))
  }

  ghost function ProduceBlock(
    cfg: Config, con: Config, confirms: nat, c: Chain, order: seq<Tx>, height: nat, producer: nat): Outcome
    requires c.headIndex < |c.branches|
  {
    Switch(con, confirms, c, c.headIndex, Produce(cfg, c.branches[c.headIndex], order, height, producer))
  }
}
