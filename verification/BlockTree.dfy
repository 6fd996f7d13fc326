/** Blocks of the main chain, the nodes that index them, and the walks along parents. */
module BlockTree {
  import opened Common
  import opened LedgerTypes

  /** The digest of a block determines the block: hashes do not collide. */
  datatype BlockHash = NoParent | Digest(block: Block)

  /** height is the period the block's timestamp falls into. */
  datatype Block = Block(parent: BlockHash, height: nat, producer: nat, txs: seq<Tx>) {
    function Hash(): BlockHash { Digest(this) }
  }

  datatype Node = Node(parent: Option<Node>, count: nat, block: Block) {
    function Hash(): BlockHash { block.Hash() }

    function Height(): nat { block.height }
  }

  function NewNode(b: Block, parent: Option<Node>): Node {
    Node(parent, if parent.Some? then parent.value.count + 1 else 0, b)
  }

  ghost predicate WellFormed(n: Node) {
    match n.parent
    case None => n.count == 0 && n.block.parent == NoParent
    case Some(p) => WellFormed(p) && n.count == p.count + 1 && n.block.parent == p.Hash()
  }

  /** Well-formed nodes are identified by their hash. */
  lemma {:induction false} HashIdentifies(m: Node, n: Node)
    requires WellFormed(m) && WellFormed(n) && m.Hash() == n.Hash()
    ensures m == n
    decreases m
  {
    if m.parent.Some? { HashIdentifies(m.parent.value, n.parent.value); }
  }

  ghost predicate IsAncestor(a: Node, n: Node) {
    a == n || (n.parent.Some? && IsAncestor(a, n.parent.value))
  }

  lemma {:induction false} AncestorCount(a: Node, n: Node)
    requires WellFormed(n) && IsAncestor(a, n)
    ensures WellFormed(a) && a.count <= n.count && (a.count == n.count ==> a == n)
  {
    if a != n { AncestorCount(a, n.parent.value); }
  }

  lemma {:induction false} AncestorTransitive(a: Node, b: Node, c: Node)
    requires IsAncestor(a, b) && IsAncestor(b, c)
    ensures IsAncestor(a, c)
  {
    if b != c { AncestorTransitive(a, b, c.parent.value); }
  }

  /** The ancestors of a node are linearly ordered. */
  lemma {:induction false} AncestorsOrdered(a: Node, b: Node, n: Node)
    requires WellFormed(n) && IsAncestor(a, n) && IsAncestor(b, n) && a.count <= b.count
    ensures IsAncestor(a, b)
  {
    AncestorCount(a, n);
    AncestorCount(b, n);
    if b != n && a != n {
      AncestorsOrdered(a, b, n.parent.value);
    } else if b != n {
      assert false;
    }
  }

  /** The ancestor with the given count. */
  function At(n: Node, c: nat): (r: Node)
    requires c <= n.count
    ensures n.parent.None? ==> r == n
  {
    if n.count == c || n.parent.None? || n.parent.value.count < c then n else At(n.parent.value, c)
  }

  lemma {:induction false} AtIsAncestor(n: Node, c: nat)
    requires WellFormed(n) && c <= n.count
    ensures IsAncestor(At(n, c), n) && At(n, c).count == c
  {
    if n.count != c { AtIsAncestor(n.parent.value, c); }
  }

  lemma {:induction false} AtUnique(n: Node, a: Node)
    requires WellFormed(n) && IsAncestor(a, n)
    ensures a.count <= n.count && At(n, a.count) == a
  {
    AncestorCount(a, n);
    if a != n {
      AncestorCount(a, n.parent.value);
      AtUnique(n.parent.value, a);
    }
  }

  // ---------------------------------------------------------------- walks

  /** The nodes with counts from..n.count, oldest first. */
  function NodesFrom(n: Node, from: nat): seq<Node> {
    if n.count < from then []
    else if n.parent.None? then [n]
    else NodesFrom(n.parent.value, from) + [n]
  }

  /** Walks back along the parents, filling the list from its end. */
  method FetchNodeList(n: Node, from: nat) returns (bl: seq<Node>)
    requires WellFormed(n)
    ensures bl == NodesFrom(n, from)
  {
    if n.count < from { return []; }
    bl := [];
    var iter := Some(n);
    while iter.Some? && iter.value.count >= from
      invariant iter.Some? ==> WellFormed(iter.value)
      invariant NodesFrom(n, from) == (if iter.Some? then NodesFrom(iter.value, from) else []) + bl
      decreases iter
    {
      bl := [iter.value] + bl;
      iter := iter.value.parent;
    }
  }

  method AncestorByCount(n: Node, c: nat) returns (r: Option<Node>)
    requires WellFormed(n)
    ensures r == if c > n.count then None else Some(At(n, c))
  {
    if c > n.count { return None; }
    r := Some(n);
    while r.Some? && r.value.count != c
      invariant r.Some? && WellFormed(r.value) && c <= r.value.count && At(r.value, c) == At(n, c)
      decreases r
    {
      r := r.value.parent;
    }
  }

  function IrreversibleCount(n: Node, confirms: nat): nat {
    if n.count > confirms then n.count - confirms else 0
  }

  function Irreversible(n: Node, confirms: nat): Node {
    At(n, IrreversibleCount(n, confirms))
  }

  method LastIrreversible(n: Node, confirms: nat) returns (irr: Node)
    requires WellFormed(n)
    ensures irr == Irreversible(n, confirms)
  {
    var count := 0;
    if n.count > confirms { count := n.count - confirms; }
    irr := n;
    while irr.count > count
      invariant WellFormed(irr) && count <= irr.count && At(irr, count) == At(n, count)
      decreases irr
    {
      irr := irr.parent.value;
    }
  }

  /** By hash, as the code compares. */
  predicate Descends(n: Node, anc: Node) {
    anc.count <= n.count && At(n, anc.count).Hash() == anc.Hash()
  }

  method HasAncestor(n: Node, anc: Node) returns (ok: bool)
    requires WellFormed(n)
    ensures ok == Descends(n, anc)
  {
    var m := AncestorByCount(n, anc.count);
    ok := m.Some? && m.value.Hash() == anc.Hash();
  }

  /** The comparison by hash is ancestry. */
  lemma {:induction false} DescendsIff(n: Node, anc: Node)
    requires WellFormed(n) && WellFormed(anc)
    ensures Descends(n, anc) <==> IsAncestor(anc, n)
  {
    if Descends(n, anc) {
      AtIsAncestor(n, anc.count);
      AncestorCount(At(n, anc.count), n);
      HashIdentifies(At(n, anc.count), anc);
    } else if IsAncestor(anc, n) {
      AtUnique(n, anc);
    }
  }

  /** The nearest ancestor with the given hash and at least the given count. */
  function FindFrom(n: Node, h: BlockHash, min: nat): Option<Node> {
    if n.count < min then None
    else if n.Hash() == h then Some(n)
    else if n.parent.None? then None
    else FindFrom(n.parent.value, h, min)
  }

  method HasAncestorWithMinCount(n: Node, h: BlockHash, min: nat) returns (m: Option<Node>)
    requires WellFormed(n)
    ensures m == FindFrom(n, h, min)
  {
    m := Some(n);
    while m.Some? && m.value.count >= min
      invariant m.Some? ==> WellFormed(m.value)
      invariant FindFrom(n, h, min) == if m.Some? then FindFrom(m.value, h, min) else None
      decreases m
    {
      if m.value.Hash() == h { return; }
      m := m.value.parent;
    }
    m := None;
  }

  lemma {:induction false} FindFromExact(n: Node, h: BlockHash, min: nat)
    requires WellFormed(n)
    ensures match FindFrom(n, h, min)
            case Some(m) => IsAncestor(m, n) && m.Hash() == h && m.count >= min
            case None => forall a :: IsAncestor(a, n) && a.count >= min ==> a.Hash() != h
  {
    if n.parent.Some? && n.count >= min && n.Hash() != h { FindFromExact(n.parent.value, h, min); }
    if FindFrom(n, h, min).None? {
      forall a | IsAncestor(a, n) && a.count >= min ensures a.Hash() != h {
        AncestorCount(a, n);
      }
    }
  }

  /** The ancestor at a height, if the walk stops on it. */
  function AtHeight(n: Node, h: nat): Option<Node> {
    if n.Height() > h then (if n.parent.None? then None else AtHeight(n.parent.value, h))
    else if n.Height() == h then Some(n) else None
  }

  method Ancestor(n: Node, h: nat) returns (r: Option<Node>)
    ensures r == AtHeight(n, h)
  {
    if h > n.Height() { return None; }
    r := Some(n);
    while r.Some? && r.value.Height() > h
      invariant AtHeight(n, h) == if r.Some? then AtHeight(r.value, h) else None
      decreases r
    {
      r := r.value.parent;
    }
    if r.Some? && r.value.Height() != h { r := None; }
  }

  /** Heights strictly increase along parents. */
  ghost predicate Rising(n: Node) {
    n.parent.Some? ==> n.parent.value.Height() < n.Height() && Rising(n.parent.value)
  }

  /** With rising heights the walk finds exactly the ancestor of that height. */
  lemma {:induction false} AtHeightExact(n: Node, a: Node)
    requires Rising(n) && IsAncestor(a, n)
    ensures AtHeight(n, a.Height()) == Some(a) && a.Height() <= n.Height()
  {
    if a != n { AtHeightExact(n.parent.value, a); }
  }

  lemma {:induction false} AtHeightAncestor(n: Node, h: nat)
    ensures AtHeight(n, h).Some? ==> IsAncestor(AtHeight(n, h).value, n) && AtHeight(n, h).value.Height() == h
  {
    if n.Height() > h && n.parent.Some? { AtHeightAncestor(n.parent.value, h); }
  }
}
