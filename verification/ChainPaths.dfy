/** Facts about whole block paths: nonces, packing a path, and producing a block. */
module ChainPaths {
  import opened Common
  import opened LedgerTypes
  import opened Transactions
  import opened LedgerFacts
  import opened BlockTree
  import opened ChainSpec
  import opened ChainLedger

  // ---------------------------------------------------------------- nonces

  /** The nonce expected of a key; an account that does not exist yet will start at 0. */
  function NextNonce(l: Ledger, key: nat): nat {
    if User(key) in l.accounts then l.accounts[User(key)].nextNonce else 0
  }

  function CountOf(txs: seq<Tx>, key: nat): nat {
    if txs == [] then 0
    else CountOf(txs[..|txs| - 1], key) + if txs[|txs| - 1].key == key then 1 else 0
  }

  lemma {:induction false} CountConcat(s: seq<Tx>, t: seq<Tx>, key: nat)
    ensures CountOf(s + t, key) == CountOf(s, key) + CountOf(t, key)
  {
    if t == [] {
      assert s + t == s;
    } else {
      assert (s + t)[..|s + t| - 1] == s + t[..|t| - 1];
      CountConcat(s, t[..|t| - 1], key);
    }
  }

  /** Each key's transactions carry consecutive nonces, starting at the one it had before. */
  ghost predicate Consecutive(l: Ledger, txs: seq<Tx>) {
    forall i :: 0 <= i < |txs| ==> txs[i].nonce == NextNonce(l, txs[i].key) + CountOf(txs[..i], txs[i].key)
  }

  ghost predicate Counted(l: Ledger, txs: seq<Tx>, m: Ledger) {
    && (forall k: nat :: NextNonce(m, k) == NextNonce(l, k) + CountOf(txs, k))
    && Consecutive(l, txs)
  }

  lemma StepNonces(cfg: Config, l: Ledger, tx: Tx, h: nat)
    requires Apply(cfg, l, tx, h).err.NoErr?
    ensures tx.nonce == NextNonce(l, tx.key)
    ensures forall k: nat :: NextNonce(Apply(cfg, l, tx, h).ledger, k) == NextNonce(l, k) + if k == tx.key then 1 else 0
  {
    ApplyNonces(cfg, l, tx, h);
  }

  lemma {:induction false} CountedConcat(l: Ledger, s: seq<Tx>, m: Ledger, t: seq<Tx>, w: Ledger)
    requires Counted(l, s, m) && Counted(m, t, w)
    ensures Counted(l, s + t, w)
  {
    forall k: nat ensures NextNonce(w, k) == NextNonce(l, k) + CountOf(s + t, k) {
      CountConcat(s, t, k);
    }
    forall i | 0 <= i < |s + t|
      ensures (s + t)[i].nonce == NextNonce(l, (s + t)[i].key) + CountOf((s + t)[..i], (s + t)[i].key)
    {
      if i < |s| {
        assert (s + t)[..i] == s[..i];
      } else {
        assert (s + t)[..i] == s + t[..i - |s|];
        CountConcat(s, t[..i - |s|], t[i - |s|].key);
      }
    }
  }

  lemma CountedOne(l: Ledger, tx: Tx, m: Ledger)
    requires tx.nonce == NextNonce(l, tx.key)
    requires forall k: nat :: NextNonce(m, k) == NextNonce(l, k) + if k == tx.key then 1 else 0
    ensures Counted(l, [tx], m)
  {
    forall k: nat ensures CountOf([tx], k) == if k == tx.key then 1 else 0 {
      assert CountOf([tx][..0], k) == 0;
    }
  }

  lemma {:induction false} ApplyAllNonces(cfg: Config, l: Ledger, txs: seq<Tx>, h: nat)
    requires ApplyAll(cfg, l, txs, h).Some?
    ensures Counted(l, txs, ApplyAll(cfg, l, txs, h).value)
  {
    if txs != [] {
      var init, last := txs[..|txs| - 1], txs[|txs| - 1];
      ApplyAllNonces(cfg, l, init, h);
      var m := ApplyAll(cfg, l, init, h).value;
      StepNonces(cfg, m, last, h);
      CountedOne(m, last, Apply(cfg, m, last, h).ledger);
      CountedConcat(l, init, m, [last], Apply(cfg, m, last, h).ledger);
      assert txs == init + [last];
    }
  }

  /** Along every valid path, each key's transactions carry consecutive nonces from its nonce at
      genesis on, and the nonce of its account is how many there were. */
  lemma {:induction false} NonceDiscipline(cfg: Config, g: Ledger, n: Node)
    requires WellFormed(n) && LedgerAt(cfg, g, n).Some?
    ensures Counted(g, TxsAfter(n, 0), LedgerAt(cfg, g, n).value)
  {
    if n.parent.Some? {
      var p := n.parent.value;
      NonceDiscipline(cfg, g, p);
      var m := LedgerAt(cfg, g, p).value;
      ApplyAllNonces(cfg, m, n.block.txs, n.Height());
      CountedConcat(g, TxsAfter(p, 0), m, n.block.txs, LedgerAt(cfg, g, n).value);
    }
  }

  lemma {:induction false} CountGrows(txs: seq<Tx>, i: nat, j: nat, key: nat)
    requires i < j <= |txs| && txs[i].key == key
    ensures CountOf(txs[..i], key) < CountOf(txs[..j], key)
  {
    assert txs[..j] == txs[..i + 1] + txs[i + 1..j];
    CountConcat(txs[..i + 1], txs[i + 1..j], key);
    assert txs[..i + 1][..i] == txs[..i];
  }

  /** No transaction is applied twice on a path, however far apart its two places would be. */
  lemma {:induction false} NoReplay(cfg: Config, g: Ledger, n: Node)
    requires WellFormed(n) && LedgerAt(cfg, g, n).Some?
    ensures NoDup(TxsAfter(n, 0))
  {
    NonceDiscipline(cfg, g, n);
    var txs := TxsAfter(n, 0);
    forall i, j | 0 <= i < j < |txs| ensures txs[i] != txs[j] {
      CountGrows(txs, i, j, txs[i].key);
    }
  }

  // ---------------------------------------------------------------- packing a path

  ghost predicate Sizes(n: Node, c: nat) {
    n.count <= c || n.parent.None? || (|n.block.txs| <= MAX_TXS_PER_BLOCK && Sizes(n.parent.value, c))
  }

  lemma NoDupConcat(s: seq<Tx>, t: seq<Tx>)
    ensures NoDup(s + t) <==> NoDup(s) && NoDup(t) && ToSet(s) !! ToSet(t)
    ensures ToSet(s + t) == ToSet(s) + ToSet(t)
  {
    if NoDup(s + t) {
      forall i, j | 0 <= i < j < |s| ensures s[i] != s[j] { assert (s + t)[i] != (s + t)[j]; }
      forall i, j | 0 <= i < j < |t| ensures t[i] != t[j] { assert (s + t)[|s| + i] != (s + t)[|s| + j]; }
      forall i, j | 0 <= i < |s| && 0 <= j < |t| ensures s[i] != t[j] { assert (s + t)[i] != (s + t)[|s| + j]; }
    }
    if NoDup(s) && NoDup(t) && ToSet(s) !! ToSet(t) {
      forall i, j | 0 <= i < j < |s + t| ensures (s + t)[i] != (s + t)[j] {
        if i < |s| <= j { assert s[i] in ToSet(s) && t[j - |s|] in ToSet(t); }
      }
    }
  }

  /** A packed path has its transactions packed, each once and known or verified. */
  lemma {:induction false} PackPathSets(cfg: Config, base: Pack, n: Node, a: Node)
    requires WellFormed(n) && IsAncestor(a, n) && base.packed == {} && PackPath(cfg, base, n, a.count).Some?
    ensures var p := PackPath(cfg, base, n, a.count).value; var txs := TxsAfter(n, a.count);
      && p.packed == ToSet(txs) && p.unpacked == base.unpacked - ToSet(txs) && NoDup(txs)
      && (forall t :: t in txs ==> t in base.unpacked || t.Verify())
      && Sizes(n, a.count)
  {
    AncestorCount(a, n);
    if a != n {
      var m := n.parent.value;
      AncestorCount(a, m);
      PackPathSets(cfg, base, m, a);
      PackTxsSets(cfg, PackPath(cfg, base, m, a.count).value, n.block.txs, n.Height());
      NoDupConcat(TxsAfter(m, a.count), n.block.txs);
    }
  }

  lemma {:induction false} ApplyNodesStep(cfg: Config, l: Ledger, n: Node, from: nat)
    requires n.parent.Some? && n.count >= from
    ensures ApplyNodes(cfg, l, NodesFrom(n, from)) ==
      var m := ApplyNodes(cfg, l, NodesFrom(n.parent.value, from));
      if m.None? then None else ApplyAll(cfg, m.value, n.block.txs, n.Height())
  {
    var init := NodesFrom(n.parent.value, from);
    assert (init + [n])[..|init|] == init;
  }

  /** A branch built from a ledger shows what applying its blocks to that ledger gives. */
  lemma {:induction false} PackPathReplays(cfg: Config, base: Pack, n: Node, a: Node)
    requires WellFormed(n) && IsAncestor(a, n) && PackPath(cfg, base, n, a.count).Some?
    ensures ApplyNodes(cfg, base.preview, NodesFrom(n, a.count + 1)) ==
      Some(PackPath(cfg, base, n, a.count).value.preview)
  {
    AncestorCount(a, n);
    if a != n {
      var m := n.parent.value;
      AncestorCount(a, m);
      PackPathReplays(cfg, base, m, a);
      PackTxsPlain(cfg, PackPath(cfg, base, m, a.count).value, n.block.txs, n.Height());
      ApplyNodesStep(cfg, base.preview, n, a.count + 1);
    }
  }

  /** A branch built from the ledger at an ancestor ends in the ledger of its own path. */
  lemma {:induction false} PackPathSound(cfg: Config, g: Ledger, base: Pack, n: Node, a: Node)
    requires WellFormed(n) && IsAncestor(a, n) && LedgerAt(cfg, g, a) == Some(base.preview)
    requires PackPath(cfg, base, n, a.count).Some?
    ensures LedgerAt(cfg, g, n) == Some(PackPath(cfg, base, n, a.count).value.preview)
  {
    PackPathReplays(cfg, base, n, a);
    ApplyNodesPath(cfg, g, n, a);
  }

  /** The blocks after count c up to n are of allowed size and hold distinct transactions, known or verified. */
  ghost predicate PathPackable(pool: set<Tx>, n: Node, c: nat) {
    Sizes(n, c) && NoDup(TxsAfter(n, c)) && forall t :: t in TxsAfter(n, c) ==> t in pool || t.Verify()
  }

  lemma {:induction false} PathInit(pool: set<Tx>, n: Node, c: nat, p: Pack)
    requires PathPackable(pool, n, c) && n.count > c && n.parent.Some?
    requires var txs := TxsAfter(n.parent.value, c); p.packed == ToSet(txs) && p.unpacked == pool - ToSet(txs)
    ensures PathPackable(pool, n.parent.value, c) && Packable(p, n.block.txs)
  {
    NoDupConcat(TxsAfter(n.parent.value, c), n.block.txs);
    assert forall t :: t in n.block.txs ==> t in ToSet(n.block.txs);
  }

  /** Such blocks can be packed if they can be applied. */
  lemma {:induction false} PackPathWorks(cfg: Config, base: Pack, n: Node, a: Node)
    requires WellFormed(n) && IsAncestor(a, n) && base.packed == {} && PathPackable(base.unpacked, n, a.count)
    requires ApplyNodes(cfg, base.preview, NodesFrom(n, a.count + 1)).Some?
    ensures PackPath(cfg, base, n, a.count).Some?
  {
    AncestorCount(a, n);
    if a != n {
      var m := n.parent.value;
      var txs := TxsAfter(m, a.count);
      AncestorCount(a, m);
      PathInit(base.unpacked, n, a.count, Pack(base.preview, ToSet(txs), base.unpacked - ToSet(txs)));
      ApplyNodesStep(cfg, base.preview, n, a.count + 1);
      PackPathWorks(cfg, base, m, a);
      PackPathReplays(cfg, base, m, a);
      PackPathSets(cfg, base, m, a);
      var p := PackPath(cfg, base, m, a.count).value;
      PathInit(base.unpacked, n, a.count, p);
      PackTxsWorks(cfg, p, n.block.txs, n.Height());
    }
  }

  /** A branch can be built exactly if its blocks can be packed and apply to the ledger it is built on. */
  lemma {:induction false} PackPathIff(cfg: Config, base: Pack, n: Node, a: Node)
    requires WellFormed(n) && IsAncestor(a, n) && base.packed == {}
    ensures PackPath(cfg, base, n, a.count).Some? <==>
      PathPackable(base.unpacked, n, a.count) && ApplyNodes(cfg, base.preview, NodesFrom(n, a.count + 1)).Some?
  {
    if PackPath(cfg, base, n, a.count).Some? {
      PackPathSets(cfg, base, n, a);
      PackPathReplays(cfg, base, n, a);
    } else if PathPackable(base.unpacked, n, a.count) &&
              ApplyNodes(cfg, base.preview, NodesFrom(n, a.count + 1)).Some? {
      PackPathWorks(cfg, base, n, a);
      assert false;
    }
  }

  // ---------------------------------------------------------------- production

  /** What has been tried so far: the packed transactions are valid, in order, on the exact ledger. */
  ghost predicate Tried(cfg: Config, w: Ledger, s: Produced, h: nat) {
    && ApplyAll(cfg, w, s.out, h).Some?
    && Ext(s.pack.preview, ApplyAll(cfg, w, s.out, h).value)
  }

  lemma {:induction false} TryOnce(cfg: Config, w: Ledger, s: Produced, tx: Tx, h: nat)
    requires Good(cfg, w) && Tried(cfg, w, s, h) && tx.Sender() in w.accounts
    ensures var m := ApplyAll(cfg, w, s.out, h).value; var r := Apply(cfg, s.pack.preview, tx, h);
      && (Apply(cfg, m, tx, h).err.NoErr? <==> r.err.NoErr?)
      && Ext(r.ledger, if r.err.NoErr? then Apply(cfg, m, tx, h).ledger else m)
  {
    var v, m := s.pack.preview, ApplyAll(cfg, w, s.out, h).value;
    ApplyAllGood(cfg, w, s.out, h);
    ApplyExt(cfg, v, m, tx, h);
    if !Apply(cfg, v, tx, h).err.NoErr? {
      GoodExt(cfg, v, m);
      RejectedLeavesGhosts(cfg, v, tx, h);
      ExtTransitive(Apply(cfg, v, tx, h).ledger, v, m);
    }
  }

  lemma {:induction false} ApplyAllAppend(cfg: Config, w: Ledger, txs: seq<Tx>, tx: Tx, h: nat)
    requires ApplyAll(cfg, w, txs, h).Some?
    ensures var r := Apply(cfg, ApplyAll(cfg, w, txs, h).value, tx, h);
      ApplyAll(cfg, w, txs + [tx], h) == if r.err.NoErr? then Some(r.ledger) else None
  {
    assert (txs + [tx])[..|txs + [tx]| - 1] == txs;
  }

  /** Whatever is produced is valid on the exact ledger although the preview keeps what rejected
      transactions left. */
  lemma {:induction false} TryValid(cfg: Config, w: Ledger, s: Produced, txs: seq<Tx>, k: nat, n: nat, h: nat)
    requires k <= |txs| && Good(cfg, w) && Tried(cfg, w, s, h)
    requires forall t :: t in txs ==> t.Sender() in w.accounts
    ensures Tried(cfg, w, Try(cfg, s, txs, k, n, h), h)
    decreases |txs| - k
  {
    if k < |txs| && |s.out| != n {
      TryOnce(cfg, w, s, txs[k], h);
      ApplyAllAppend(cfg, w, s.out, txs[k], h);
      var r := Apply(cfg, s.pack.preview, txs[k], h);
      var next :=
        if r.err.NoErr? then
          Produced(Pack(r.ledger, s.pack.packed + {txs[k]}, s.pack.unpacked - {txs[k]}), s.out + [txs[k]])
        else s.(pack := s.pack.(preview := r.ledger));
      TryValid(cfg, w, next, txs, k + 1, n, h);
    }
  }

  /** The packed transactions are distinct members of the pool and change sides. */
  lemma {:induction false} TrySets(cfg: Config, s: Produced, txs: seq<Tx>, k: nat, n: nat, h: nat)
    requires k <= |txs| && NoDup(txs) && NoDup(s.out) && |s.out| <= n
    requires forall t :: t in s.out ==> t in txs[..k]
    ensures var r := Try(cfg, s, txs, k, n, h);
      && s.out <= r.out && NoDup(r.out) && |r.out| <= n && (forall t :: t in r.out ==> t in txs)
      && r.pack.packed == s.pack.packed + ToSet(r.out[|s.out|..])
      && r.pack.unpacked == s.pack.unpacked - ToSet(r.out[|s.out|..])
    decreases |txs| - k
  {
    var r := Try(cfg, s, txs, k, n, h);
    if k < |txs| && |s.out| != n {
      assert txs[..k + 1] == txs[..k] + [txs[k]];
      var a := Apply(cfg, s.pack.preview, txs[k], h);
      if a.err.NoErr? {
        assert txs[k] !in s.out;
        TrySets(cfg, Produced(Pack(a.ledger, s.pack.packed + {txs[k]}, s.pack.unpacked - {txs[k]}), s.out + [txs[k]]),
          txs, k + 1, n, h);
        assert r.out[|s.out|..] == [txs[k]] + r.out[|s.out| + 1..];
      } else {
        TrySets(cfg, s.(pack := s.pack.(preview := a.ledger)), txs, k + 1, n, h);
      }
    } else {
      assert r.out[|s.out|..] == [];
    }
  }
}
