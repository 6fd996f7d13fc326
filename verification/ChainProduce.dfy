/** What a producer packs: exactly the pooled transactions that apply when their turn comes, up to a full block. */
module ChainProduce {
  import opened Common
  import opened LedgerTypes
  import opened Transactions
  import opened LedgerFacts
  import opened BlockTree
  import opened ChainSpec
  import opened ChainLedger
  import opened ChainPaths
  import opened ChainInv

  /** The ledger that is left when the transactions are tried in turn, accepted or not. */
  ghost function Left(cfg: Config, l: Ledger, txs: seq<Tx>, h: nat): Ledger {
    if txs == [] then l else Apply(cfg, Left(cfg, l, txs[..|txs| - 1], h), txs[|txs| - 1], h).ledger
  }

  /** Those of the transactions that are in the block, in their order. */
  function Chosen(txs: seq<Tx>, block: seq<Tx>): seq<Tx> {
    if txs == [] then []
    else Chosen(txs[..|txs| - 1], block) + if txs[|txs| - 1] in block then [txs[|txs| - 1]] else []
  }

  lemma {:induction false} ChosenNext(txs: seq<Tx>, block: seq<Tx>, k: nat)
    requires k < |txs|
    ensures Chosen(txs[..k + 1], block) == Chosen(txs[..k], block) + if txs[k] in block then [txs[k]] else []
  {
    assert txs[..k + 1][..k] == txs[..k];
  }

  lemma {:induction false} ChosenFrom(txs: seq<Tx>, block: seq<Tx>)
    ensures |Chosen(txs, block)| <= |txs| && forall t :: t in Chosen(txs, block) <==> t in txs && t in block
  {
    if txs != [] {
      var k := |txs| - 1;
      ChosenFrom(txs[..k], block);
      assert txs == txs[..k] + [txs[k]];
    }
  }

  lemma {:induction false} ChosenSame(txs: seq<Tx>, a: seq<Tx>, b: seq<Tx>)
    requires forall t :: t in txs ==> (t in a <==> t in b)
    ensures Chosen(txs, a) == Chosen(txs, b)
  {
    if txs != [] { ChosenSame(txs[..|txs| - 1], a, b); }
  }

  /** None of the transactions from k on is in a block made of earlier ones. */
  lemma {:induction false} ChosenDone(txs: seq<Tx>, block: seq<Tx>, k: nat, i: nat)
    requires NoDup(txs) && k <= i <= |txs| && block == Chosen(txs[..k], block)
    ensures Chosen(txs[..i], block) == block && (i < |txs| ==> txs[i] !in block)
    decreases i
  {
    ChosenFrom(txs[..k], block);
    if i < |txs| { assert txs[i] !in txs[..k]; }
    if i > k {
      ChosenDone(txs, block, k, i - 1);
      ChosenNext(txs, block, i - 1);
    }
  }

  /** Transaction i is in the block exactly if the block was not full when its turn came and it applied to what the
      ones before it had left. */
  ghost predicate Decided(cfg: Config, l: Ledger, txs: seq<Tx>, block: seq<Tx>, n: nat, h: nat, i: nat) {
    i < |txs| ==>
      (txs[i] in block <==>
        |Chosen(txs[..i], block)| < n && Apply(cfg, Left(cfg, l, txs[..i], h), txs[i], h).err.NoErr?)
  }

  ghost predicate Trying(cfg: Config, l: Ledger, s: Produced, txs: seq<Tx>, k: nat, n: nat, h: nat) {
    && k <= |txs| && |s.out| <= n && s.out == Chosen(txs[..k], s.out)
    && (|s.out| < n ==> s.pack.preview == Left(cfg, l, txs[..k], h))
  }

  /** What is tried at position k. */
  ghost function Tries(cfg: Config, s: Produced, t: Tx, h: nat): Produced {
    var r := Apply(cfg, s.pack.preview, t, h);
    if r.err.NoErr? then Produced(Pack(r.ledger, s.pack.packed + {t}, s.pack.unpacked - {t}), s.out + [t])
    else s.(pack := s.pack.(preview := r.ledger))
  }

  lemma {:induction false} TryingNext(cfg: Config, l: Ledger, s: Produced, txs: seq<Tx>, k: nat, n: nat, h: nat)
    requires NoDup(txs) && k < |txs| && Trying(cfg, l, s, txs, k, n, h) && |s.out| < n
    ensures Trying(cfg, l, Tries(cfg, s, txs[k], h), txs, k + 1, n, h) && txs[k] !in s.out
  {
    var next := Tries(cfg, s, txs[k], h);
    ChosenFrom(txs[..k], s.out);
    assert txs[k] !in txs[..k];
    ChosenNext(txs, next.out, k);
    ChosenSame(txs[..k], s.out, next.out);
    assert txs[..k + 1][..k] == txs[..k];
  }

  lemma {:induction false} TryDecides(cfg: Config, l: Ledger, s: Produced, txs: seq<Tx>, k: nat, n: nat, h: nat)
    requires NoDup(txs) && Trying(cfg, l, s, txs, k, n, h)
    ensures var r := Try(cfg, s, txs, k, n, h).out;
      && r == Chosen(txs, r) && |r| <= n && Chosen(txs[..k], r) == s.out
      && forall i :: k <= i < |txs| ==> Decided(cfg, l, txs, r, n, h, i)
    decreases |txs| - k
  {
    if k == |txs| || |s.out| == n {
      forall i | k <= i <= |txs| ensures Chosen(txs[..i], s.out) == s.out && (i < |txs| ==> txs[i] !in s.out) {
        ChosenDone(txs, s.out, k, i);
      }
      assert txs[..|txs|] == txs;
    } else {
      var next := Tries(cfg, s, txs[k], h);
      var r := Try(cfg, s, txs, k, n, h).out;
      TryingNext(cfg, l, s, txs, k, n, h);
      TryDecides(cfg, l, next, txs, k + 1, n, h);
      assert Try(cfg, s, txs, k, n, h) == Try(cfg, next, txs, k + 1, n, h);
      ChosenNext(txs, r, k);
      TriedHere(cfg, l, s, txs, k, n, h, r);
    }
  }

  lemma SameEnd(a: seq<Tx>, b: seq<Tx>, t: Tx, x: bool, y: bool)
    requires t !in a && t !in b && a + (if x then [t] else []) == b + if y then [t] else []
    ensures a == b && x == y
  {
    assert t in a + (if x then [t] else []) <==> x;
    assert t in b + (if y then [t] else []) <==> y;
    assert a == (a + (if x then [t] else []))[..|a|] && b == (b + if y then [t] else [])[..|b|];
  }

  lemma {:induction false} TriedHere(cfg: Config, l: Ledger, s: Produced, txs: seq<Tx>, k: nat, n: nat, h: nat,
      r: seq<Tx>)
    requires NoDup(txs) && k < |txs| && Trying(cfg, l, s, txs, k, n, h) && |s.out| < n && txs[k] !in s.out
    requires Chosen(txs[..k + 1], r) == Tries(cfg, s, txs[k], h).out
    requires Chosen(txs[..k + 1], r) == Chosen(txs[..k], r) + if txs[k] in r then [txs[k]] else []
    ensures Chosen(txs[..k], r) == s.out && Decided(cfg, l, txs, r, n, h, k)
  {
    var t := txs[k];
    ChosenFrom(txs[..k], r);
    assert t !in txs[..k];
    SameEnd(Chosen(txs[..k], r), s.out, t, t in r, Apply(cfg, s.pack.preview, t, h).err.NoErr?);
  }

  /** A produced block holds, in the order in which they are tried, exactly the transactions that apply to what the
      ones before them have left, until it is full. */
  lemma {:induction false} ProducedIff(cfg: Config, br: Branch, order: seq<Tx>, height: nat, producer: nat)
    requires NoDup(order)
    ensures var block := Produce(cfg, br, order, height, producer).head.block.txs;
      && block == Chosen(order, block) && |block| <= MAX_TXS_PER_BLOCK
      && forall i :: 0 <= i < |order| ==> Decided(cfg, br.pack.preview, order, block, MAX_TXS_PER_BLOCK, height, i)
    ensures var n := Produce(cfg, br, order, height, producer).head;
      n.parent == Some(br.head) && n.block.parent == br.head.Hash() && n.Height() == height &&
        n.block.producer == producer
  {
    var n := if |order| < MAX_TXS_PER_BLOCK then |order| else MAX_TXS_PER_BLOCK;
    var block := Produce(cfg, br, order, height, producer).head.block.txs;
    assert order[..0] == [];
    TryDecides(cfg, br.pack.preview, Produced(br.pack, []), order, 0, n, height);
    forall i | 0 <= i < |order| ensures Decided(cfg, br.pack.preview, order, block, MAX_TXS_PER_BLOCK, height, i) {
      assert Decided(cfg, br.pack.preview, order, block, n, height, i);
      ChosenFrom(order[..i], block);
    }
  }

  // ---------------------------------------------------------------- on the exact ledger

  /** The exact ledger when the turn of transaction i comes. */
  ghost function Exactly(cfg: Config, w: Ledger, order: seq<Tx>, block: seq<Tx>, h: nat, i: nat): Option<Ledger>
    requires i <= |order|
  {
    ApplyAll(cfg, w, Chosen(order[..i], block), h)
  }

  /** The block is the one made from a preview l that is the exact ledger w up to empty accounts. */
  ghost predicate Made(cfg: Config, l: Ledger, w: Ledger, order: seq<Tx>, block: seq<Tx>, n: nat, h: nat) {
    && Good(cfg, w) && Ext(l, w) && (forall t :: t in order ==> t.Sender() in w.accounts)
    && forall i :: 0 <= i < |order| ==> Decided(cfg, l, order, block, n, h, i)
  }

  /** Until the block is full, what is left is the exact ledger after the packed ones, up to empty accounts. */
  lemma {:induction false} LeftExact(cfg: Config, l: Ledger, w: Ledger, order: seq<Tx>, block: seq<Tx>, n: nat, h: nat,
      i: nat)
    requires Made(cfg, l, w, order, block, n, h) && i <= |order| && |Chosen(order[..i], block)| < n
    ensures Exactly(cfg, w, order, block, h, i).Some?
    ensures Ext(Left(cfg, l, order[..i], h), Exactly(cfg, w, order, block, h, i).value)
    decreases i
  {
    if i > 0 {
      ChosenNext(order, block, i - 1);
      LeftExact(cfg, l, w, order, block, n, h, i - 1);
      LeftStep(cfg, l, w, order, block, n, h, i - 1);
    } else {
      assert order[..0] == [];
    }
  }

  /** One transaction, tried on a preview v and valid or not on the exact ledger after those already out. */
  lemma {:induction false} OnceExact(cfg: Config, v: Ledger, w: Ledger, out: seq<Tx>, t: Tx, h: nat)
    requires Good(cfg, w) && t.Sender() in w.accounts && ApplyAll(cfg, w, out, h).Some?
    requires Ext(v, ApplyAll(cfg, w, out, h).value)
    ensures var ok := Apply(cfg, v, t, h).err.NoErr?; var next := out + if ok then [t] else [];
      && (ok <==> Apply(cfg, ApplyAll(cfg, w, out, h).value, t, h).err.NoErr?)
      && ApplyAll(cfg, w, next, h).Some? && Ext(Apply(cfg, v, t, h).ledger, ApplyAll(cfg, w, next, h).value)
  {
    TryOnce(cfg, w, Produced(Pack(v, {}, {}), out), t, h);
    if Apply(cfg, v, t, h).err.NoErr? { ApplyAllAppend(cfg, w, out, t, h); } else { assert out + [] == out; }
  }

  lemma {:induction false} LeftNext(cfg: Config, l: Ledger, order: seq<Tx>, h: nat, i: nat)
    requires i < |order|
    ensures Left(cfg, l, order[..i + 1], h) == Apply(cfg, Left(cfg, l, order[..i], h), order[i], h).ledger
  {
    assert order[..i + 1][..i] == order[..i];
  }

  lemma {:induction false} LeftStep(cfg: Config, l: Ledger, w: Ledger, order: seq<Tx>, block: seq<Tx>, n: nat, h: nat,
      i: nat)
    requires Made(cfg, l, w, order, block, n, h) && i < |order| && |Chosen(order[..i], block)| < n
    requires Exactly(cfg, w, order, block, h, i).Some?
    requires Ext(Left(cfg, l, order[..i], h), Exactly(cfg, w, order, block, h, i).value)
    ensures order[i] in block <==> Apply(cfg, Exactly(cfg, w, order, block, h, i).value, order[i], h).err.NoErr?
    ensures Exactly(cfg, w, order, block, h, i + 1).Some?
    ensures Ext(Left(cfg, l, order[..i + 1], h), Exactly(cfg, w, order, block, h, i + 1).value)
  {
    assert Decided(cfg, l, order, block, n, h, i);
    OnceExact(cfg, Left(cfg, l, order[..i], h), w, Chosen(order[..i], block), order[i], h);
    LeftNext(cfg, l, order, h, i);
    ChosenNext(order, block, i);
  }

  /** So transaction i is packed exactly if the block is not full and it is valid on the exact ledger after the packed
      ones before it. */
  lemma {:induction false} DecidedExactly(cfg: Config, l: Ledger, w: Ledger, order: seq<Tx>, block: seq<Tx>, n: nat,
      h: nat, i: nat)
    requires Made(cfg, l, w, order, block, n, h) && i < |order|
    ensures order[i] in block <==>
      && |Chosen(order[..i], block)| < n && Exactly(cfg, w, order, block, h, i).Some?
      && Apply(cfg, Exactly(cfg, w, order, block, h, i).value, order[i], h).err.NoErr?
  {
    assert Decided(cfg, l, order, block, n, h, i);
    if |Chosen(order[..i], block)| < n {
      LeftExact(cfg, l, w, order, block, n, h, i);
      LeftStep(cfg, l, w, order, block, n, h, i);
    }
  }

  /** The transactions from i on up to k are packed, and bring the exact ledger from m to where they lead. */
  ghost predicate Stretch(
    cfg: Config, w: Ledger, order: seq<Tx>, block: seq<Tx>, h: nat, i: nat, k: nat, m: Ledger)
    requires i <= k <= |order|
  {
    && (forall j :: i <= j < k ==> order[j] in block)
    && |Chosen(order[..k], block)| == |Chosen(order[..i], block)| + k - i
    && Exactly(cfg, w, order, block, h, k) == ApplyAll(cfg, m, order[i..k], h)
  }

  lemma {:induction false} StretchNone(cfg: Config, w: Ledger, order: seq<Tx>, block: seq<Tx>, h: nat, i: nat,
      m: Ledger)
    requires i <= |order| && Exactly(cfg, w, order, block, h, i) == Some(m)
    ensures Stretch(cfg, w, order, block, h, i, i, m)
  {
    assert order[i..i] == [];
  }

  lemma {:induction false} AppliesNext(cfg: Config, m: Ledger, order: seq<Tx>, h: nat, i: nat, k: nat)
    requires i <= k < |order| && ApplyAll(cfg, m, order[i..k + 1], h).Some?
    ensures ApplyAll(cfg, m, order[i..k], h).Some?
    ensures var r := Apply(cfg, ApplyAll(cfg, m, order[i..k], h).value, order[k], h);
      r.err.NoErr? && ApplyAll(cfg, m, order[i..k + 1], h) == Some(r.ledger)
  {
    var txs := order[i..k + 1];
    assert txs[..|txs| - 1] == order[i..k] && txs[|txs| - 1] == order[k];
  }

  lemma {:induction false} ExactlyNext(cfg: Config, w: Ledger, order: seq<Tx>, block: seq<Tx>, h: nat, k: nat,
      m: Ledger)
    requires k < |order| && Exactly(cfg, w, order, block, h, k) == Some(m) && order[k] in block
    ensures |Chosen(order[..k + 1], block)| == |Chosen(order[..k], block)| + 1
    ensures var r := Apply(cfg, m, order[k], h);
      r.err.NoErr? ==> Exactly(cfg, w, order, block, h, k + 1) == Some(r.ledger)
  {
    ChosenNext(order, block, k);
    ApplyAllAppend(cfg, w, Chosen(order[..k], block), order[k], h);
  }

  lemma {:induction false} StretchNext(cfg: Config, w: Ledger, order: seq<Tx>, block: seq<Tx>, h: nat, i: nat, k: nat,
      m: Ledger)
    requires i <= k < |order| && Stretch(cfg, w, order, block, h, i, k, m) && order[k] in block
    requires ApplyAll(cfg, m, order[i..k + 1], h).Some?
    ensures Stretch(cfg, w, order, block, h, i, k + 1, m)
  {
    AppliesNext(cfg, m, order, h, i, k);
    ExactlyNext(cfg, w, order, block, h, k, ApplyAll(cfg, m, order[i..k], h).value);
  }

  lemma {:induction false} StretchTaken(cfg: Config, l: Ledger, w: Ledger, order: seq<Tx>, block: seq<Tx>, n: nat,
      h: nat, i: nat, k: nat, m: Ledger)
    requires Made(cfg, l, w, order, block, n, h) && i <= k < |order| && |Chosen(order[..i], block)| + k - i < n
    requires Stretch(cfg, w, order, block, h, i, k, m) && ApplyAll(cfg, m, order[i..k + 1], h).Some?
    ensures order[k] in block
  {
    AppliesNext(cfg, m, order, h, i, k);
    DecidedExactly(cfg, l, w, order, block, n, h, k);
  }

  lemma {:induction false} StretchStep(cfg: Config, l: Ledger, w: Ledger, order: seq<Tx>, block: seq<Tx>, n: nat,
      h: nat, i: nat, k: nat, m: Ledger)
    requires Made(cfg, l, w, order, block, n, h) && i <= k < |order| && |Chosen(order[..i], block)| + k - i < n
    requires Stretch(cfg, w, order, block, h, i, k, m) && ApplyAll(cfg, m, order[i..k + 1], h).Some?
    ensures Stretch(cfg, w, order, block, h, i, k + 1, m)
  {
    StretchTaken(cfg, l, w, order, block, n, h, i, k, m);
    StretchNext(cfg, w, order, block, h, i, k, m);
  }

  lemma {:induction false} AppliesPart(cfg: Config, m: Ledger, order: seq<Tx>, h: nat, i: nat, k: nat, e: nat)
    requires i <= k <= e <= |order| && ApplyAll(cfg, m, order[i..e], h).Some?
    ensures ApplyAll(cfg, m, order[i..k], h).Some?
    decreases e - k
  {
    if k < e {
      AppliesPart(cfg, m, order, h, i, k + 1, e);
      AppliesNext(cfg, m, order, h, i, k);
    }
  }

  /** A stretch of the order that applies as a whole when its turn comes, such as the consecutive nonces of an account,
      is packed whole if it fits. */
  lemma {:induction false} StretchPacked(cfg: Config, l: Ledger, w: Ledger, order: seq<Tx>, block: seq<Tx>, n: nat,
      h: nat, i: nat, e: nat, m: Ledger)
    requires Made(cfg, l, w, order, block, n, h) && i <= e <= |order| && |Chosen(order[..i], block)| + e - i <= n
    requires Exactly(cfg, w, order, block, h, i) == Some(m) && ApplyAll(cfg, m, order[i..e], h).Some?
    ensures Stretch(cfg, w, order, block, h, i, e, m)
  {
    StretchNone(cfg, w, order, block, h, i, m);
    for k := i to e
      invariant Stretch(cfg, w, order, block, h, i, k, m)
    {
      AppliesPart(cfg, m, order, h, i, k + 1, e);
      StretchStep(cfg, l, w, order, block, n, h, i, k, m);
    }
  }

  // ---------------------------------------------------------------- on a node

  /** All pooled transactions of account a, one for each nonce. */
  ghost predicate PooledOf(s: set<Tx>, a: Address, txs: seq<Tx>) {
    && (forall t :: t in txs <==> t in s && t.Sender() == a)
    && (forall i, j :: 0 <= i < j < |txs| ==> txs[i].nonce < txs[j].nonce)
  }

  /** What is tried between two neighbours of an account is one of them. */
  lemma {:induction false} Between(s: set<Tx>, a: Address, txs: seq<Tx>, k: nat, t: Tx)
    requires PooledOf(s, a, txs) && k + 1 < |txs| && t in s
    requires t == txs[k] || TxBefore(txs[k], t)
    requires t == txs[k + 1] || TxBefore(t, txs[k + 1])
    ensures t == txs[k] || t == txs[k + 1]
  {
    assert txs[k] in txs && txs[k + 1] in txs;
    BeforeTotal(a, t.Sender());
    assert t.Sender() == a && t in txs;
    var m :| 0 <= m < |txs| && txs[m] == t;
    assert k <= m <= k + 1;
  }

  lemma {:induction false} TriedLater(order: seq<Tx>, s: set<Tx>, a: Address, txs: seq<Tx>, k: nat, p: nat, q: nat)
    requires IsOrder(order, s) && PooledOf(s, a, txs) && k + 1 < |txs| && p < |order| && order[p] == txs[k]
    requires q < |order| && order[q] == txs[k + 1]
    ensures p < q
  {
    var x, y := order[p], order[q];
    assert txs[k] in txs && txs[k + 1] in txs;
    BeforeTotal(a, a);
    assert q < p ==> TxBefore(y, x);
  }

  lemma {:induction false} NextTried(order: seq<Tx>, s: set<Tx>, a: Address, txs: seq<Tx>, k: nat, p: nat)
    requires IsOrder(order, s) && PooledOf(s, a, txs) && k + 1 < |txs| && p < |order| && order[p] == txs[k]
    ensures p + 1 < |order| && order[p + 1] == txs[k + 1]
  {
    assert txs[k + 1] in txs && txs[k + 1] in order;
    var q: nat :| q < |order| && order[q] == txs[k + 1];
    TriedLater(order, s, a, txs, k, p, q);
    var t := order[p + 1];
    assert t in order && TxBefore(order[p], t);
    assert p + 1 < q ==> TxBefore(t, order[q]);
    Between(s, a, txs, k, t);
  }

  /** The transactions of an account are tried one after the other by their nonces. */
  lemma {:induction false} TriedInTurn(order: seq<Tx>, s: set<Tx>, a: Address, txs: seq<Tx>) returns (i: nat)
    requires IsOrder(order, s) && PooledOf(s, a, txs) && txs != []
    ensures i + |txs| <= |order| && order[i..i + |txs|] == txs
  {
    assert txs[0] in txs && txs[0] in order;
    var p: nat :| p < |order| && order[p] == txs[0];
    TriedFrom(order, s, a, txs, p, |txs| - 1);
    i := p;
  }

  lemma {:induction false} TriedFrom(order: seq<Tx>, s: set<Tx>, a: Address, txs: seq<Tx>, p: nat, k: nat)
    requires IsOrder(order, s) && PooledOf(s, a, txs) && k < |txs| && p < |order| && order[p] == txs[0]
    ensures p + k < |order| && forall j :: 0 <= j <= k ==> order[p + j] == txs[j]
  {
    if k > 0 {
      TriedFrom(order, s, a, txs, p, k - 1);
      NextTried(order, s, a, txs, k - 1, p + k - 1);
    }
  }

  /** So all pooled transactions of an account are packed if they apply in the order of their nonces when the account's
      turn comes, and fit. */
  lemma {:induction false} AccountPacked(cfg: Config, l: Ledger, w: Ledger, order: seq<Tx>, block: seq<Tx>, n: nat,
      h: nat, s: set<Tx>, a: Address, txs: seq<Tx>) returns (i: nat)
    requires Made(cfg, l, w, order, block, n, h) && IsOrder(order, s) && PooledOf(s, a, txs) && txs != []
    ensures i + |txs| <= |order| && order[i..i + |txs|] == txs
    ensures var m := Exactly(cfg, w, order, block, h, i);
      m.Some? && ApplyAll(cfg, m.value, txs, h).Some? && |Chosen(order[..i], block)| + |txs| <= n ==>
        forall t :: t in txs ==> t in block
  {
    i := TriedInTurn(order, s, a, txs);
    var m := Exactly(cfg, w, order, block, h, i);
    if m.Some? && ApplyAll(cfg, m.value, txs, h).Some? && |Chosen(order[..i], block)| + |txs| <= n {
      StretchPacked(cfg, l, w, order, block, n, h, i, i + |txs|, m.value);
      forall t | t in txs ensures t in block {
        var k :| 0 <= k < |txs| && txs[k] == t;
        assert order[i..i + |txs|][k] == order[i + k];
      }
    }
  }

  lemma {:induction false} OrderDistinct(order: seq<Tx>, s: set<Tx>)
    requires IsOrder(order, s)
    ensures NoDup(order)
  {}

  /** On a branch that previews its ledger, a produced block is made from the exact ledger of the branch. */
  lemma {:induction false} NodeMakes(cfg: Config, g: Ledger, c: Chain, i: nat, order: seq<Tx>, height: nat,
      producer: nat)
    requires Shape(c) && Pools(c) && i < |c.branches| && IsOrder(order, c.branches[i].pack.unpacked) && Good(cfg, g)
    requires LedgerAt(cfg, g, c.lastIrre) == Some(c.immutable) && Previews(cfg, g, c.branches[i])
    ensures var br := c.branches[i];
      Made(cfg, br.pack.preview, LedgerAt(cfg, g, br.head).value, order,
           Produce(cfg, br, order, height, producer).head.block.txs, MAX_TXS_PER_BLOCK, height)
  {
    var br := c.branches[i];
    OrderDistinct(order, br.pack.unpacked);
    ProducedIff(cfg, br, order, height, producer);
    AccountsGrow(cfg, g, br.head, c.lastIrre);
    LedgerAtGood(cfg, g, br.head);
    assert Accounted(c.lastIrre, c.pool, br);
  }
}
