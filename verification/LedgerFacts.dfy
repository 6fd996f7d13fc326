/** What transactions keep: nonces, accounts, provider deposits and database ids; and how little a
    ledger with extra empty accounts differs from one without them. */
module LedgerFacts {
  import opened LedgerTypes
  import opened Transactions

  // ---------------------------------------------------------------- nonces and accounts

  /** From l to m no key account is lost or changes its nonce, and new ones start at 0. */
  ghost predicate SameNonces(l: Ledger, m: Ledger) {
    && (forall a :: a in l.accounts ==> a in m.accounts)
    && (forall k :: User(k) in l.accounts ==>
          User(k) in m.accounts && m.accounts[User(k)].nextNonce == l.accounts[User(k)].nextNonce)
    && (forall k :: User(k) in m.accounts && User(k) !in l.accounts ==> m.accounts[User(k)].nextNonce == 0)
  }

  lemma TransferNonces(cfg: Config, l: Ledger, key: nat, t: Body)
    requires t.Transfer?
    ensures SameNonces(l, TransferToDatabase(cfg, l, key, t).ledger)
    ensures SameNonces(l, TransferAccountToken(l, key, t).ledger)
  {}

  lemma ProviderNonces(cfg: Config, l: Ledger, key: nat, t: Body, height: nat)
    requires t.ProvideService?
    ensures SameNonces(l, UpdateProviderList(cfg, l, key, t, height).ledger)
  {}

  lemma CreateNonces(cfg: Config, l: Ledger, key: nat, nonce: nat, t: Body)
    requires t.CreateDatabase?
    ensures SameNonces(l, MatchProvidersWithUser(cfg, l, key, nonce, t).ledger)
  {}

  /** Whatever a transaction does apart from its own nonce, it touches no nonce of a key account. */
  lemma BodyNonces(cfg: Config, l: Ledger, tx: Tx, height: nat)
    ensures SameNonces(l, ApplyBody(cfg, l, tx, height).ledger)
  {
    if tx.body.Transfer? {
      TransferNonces(cfg, l, tx.key, tx.body);
    } else if tx.body.ProvideService? {
      ProviderNonces(cfg, l, tx.key, tx.body, height);
    } else if tx.body.CreateDatabase? {
      CreateNonces(cfg, l, tx.key, tx.nonce, tx.body);
    }
  }

  /** A transfer whose sender is not its signer fails. */
  lemma BodySigned(cfg: Config, l: Ledger, tx: Tx, height: nat)
    requires ApplyBody(cfg, l, tx, height).err.NoErr?
    ensures tx.Sender() == User(tx.key)
  {}

  /** An accepted transaction carries the next nonce of its signer, which moves on by one; nobody
      else's nonce changes. */
  lemma ApplyNonces(cfg: Config, l: Ledger, tx: Tx, height: nat)
    requires Apply(cfg, l, tx, height).err.NoErr?
    ensures var m := Apply(cfg, l, tx, height).ledger; var a := User(tx.key);
      && tx.Sender() == a && a in l.accounts && l.accounts[a].nextNonce == tx.nonce
      && (forall b :: b in l.accounts ==> b in m.accounts)
      && a in m.accounts && m.accounts[a].nextNonce == tx.nonce + 1
      && (forall k :: k != tx.key && User(k) in l.accounts ==>
            User(k) in m.accounts && m.accounts[User(k)].nextNonce == l.accounts[User(k)].nextNonce)
      && (forall k :: k != tx.key && User(k) in m.accounts && User(k) !in l.accounts ==>
            m.accounts[User(k)].nextNonce == 0)
  {
    BodyNonces(cfg, l, tx, height);
    BodySigned(cfg, l, tx, height);
  }

  // ---------------------------------------------------------------- good ledgers

  /** Providers have deposited the configured amount and database ids come from used nonces. */
  ghost predicate Good(cfg: Config, l: Ledger) {
    && (forall a :: a in l.providers ==> l.providers[a].deposit == cfg.minProviderDeposit)
    && (forall k: nat, n: nat :: Database(User(k), n) in l.databases ==>
          User(k) in l.accounts && n < l.accounts[User(k)].nextNonce)
  }

  ghost predicate SameIds(l: Ledger, m: Ledger) {
    forall a :: a in m.databases ==> a in l.databases
  }

  lemma GoodKept(cfg: Config, l: Ledger, m: Ledger)
    requires Good(cfg, l) && SameNonces(l, m) && SameIds(l, m)
    requires forall a :: a in m.providers ==> m.providers[a].deposit == cfg.minProviderDeposit
    ensures Good(cfg, m)
  {}

  lemma BodyProviders(cfg: Config, l: Ledger, tx: Tx, height: nat)
    requires Good(cfg, l)
    ensures var m := ApplyBody(cfg, l, tx, height).ledger;
      forall a :: a in m.providers ==> m.providers[a].deposit == cfg.minProviderDeposit
  {}

  lemma BodyIds(cfg: Config, l: Ledger, tx: Tx, height: nat)
    ensures var r := ApplyBody(cfg, l, tx, height);
      forall a :: a in r.ledger.databases ==>
        a in l.databases || (tx.body.CreateDatabase? && r.err.NoErr? && a == Database(User(tx.key), tx.nonce))
  {}

  lemma ApplyGood(cfg: Config, l: Ledger, tx: Tx, height: nat)
    requires Good(cfg, l)
    ensures Good(cfg, Apply(cfg, l, tx, height).ledger)
  {
    if tx.Sender() in l.accounts && l.accounts[tx.Sender()].nextNonce == tx.nonce {
      var r := ApplyBody(cfg, l, tx, height);
      BodyNonces(cfg, l, tx, height);
      BodyProviders(cfg, l, tx, height);
      BodyIds(cfg, l, tx, height);
      if r.err.NoErr? {
        BodySigned(cfg, l, tx, height);
      } else {
        GoodKept(cfg, l, r.ledger);
      }
    }
  }

  // ---------------------------------------------------------------- ghost accounts

  /** v is w with some extra empty accounts, the ones failed transfers leave behind. */
  ghost predicate Ext(v: Ledger, w: Ledger) {
    && v.databases == w.databases && v.providers == w.providers
    && (forall a :: a in w.accounts ==> a in v.accounts && v.accounts[a] == w.accounts[a])
    && (forall a :: a in v.accounts && a !in w.accounts ==> v.accounts[a] == EmptyAccount)
  }

  /** The same verdict on both ledgers, with results that again differ by empty accounts only. */
  ghost predicate Alike(r: Applied, q: Applied) {
    r.err == q.err && Ext(r.ledger, q.ledger)
  }

  lemma SetExt(v: Ledger, w: Ledger, a: Address, acc: Account)
    requires Ext(v, w)
    ensures Ext(SetAccount(v, a, acc), SetAccount(w, a, acc))
  {}

  lemma TransferExt(cfg: Config, v: Ledger, w: Ledger, key: nat, t: Body)
    requires t.Transfer? && Ext(v, w) && User(key) in w.accounts
    ensures Alike(TransferToDatabase(cfg, v, key, t), TransferToDatabase(cfg, w, key, t))
  {}

  lemma AccountTransferExt(v: Ledger, w: Ledger, key: nat, t: Body)
    requires t.Transfer? && Ext(v, w) && User(key) in w.accounts
    ensures Alike(TransferAccountToken(v, key, t), TransferAccountToken(w, key, t))
  {
    var x, y := EnsureAccount(v, t.receiver), EnsureAccount(w, t.receiver);
    EnsureExt(v, w, t.receiver);
    if User(key) == t.sender && t.sender != t.receiver {
      var s, r := y.accounts[t.sender], y.accounts[t.receiver];
      assert x.accounts[t.sender] == s && x.accounts[t.receiver] == r;
      if t.amount <= s.balance.Of(t.token) {
        var paid := WithBalance(s, t.token, s.balance.Of(t.token) - t.amount);
        SetExt(x, y, t.sender, paid);
        var got := WithBalance(r, t.token, Add(r.balance.Of(t.token), t.amount));
        SetExt(SetAccount(x, t.sender, paid), SetAccount(y, t.sender, paid), t.receiver, got);
      }
    }
  }

  lemma EnsureExt(v: Ledger, w: Ledger, a: Address)
    requires Ext(v, w)
    ensures Ext(EnsureAccount(v, a), EnsureAccount(w, a))
  {}

  lemma ProviderExt(cfg: Config, v: Ledger, w: Ledger, key: nat, t: Body, height: nat)
    requires t.ProvideService? && Ext(v, w) && User(key) in w.accounts
    ensures Alike(UpdateProviderList(cfg, v, key, t, height), UpdateProviderList(cfg, w, key, t, height))
  {}

  lemma {:induction false} PickExt(v: Ledger, w: Ledger, t: Body, a: Address, n: nat, k: nat, done: Picked)
    requires t.CreateDatabase? && k <= |t.targets| && v.providers == w.providers
    ensures PickTargets(v, t, a, n, k, done) == PickTargets(w, t, a, n, k, done)
    decreases |t.targets| - k
  {
    if k < |t.targets| {
      var m := t.targets[k];
      if m !in v.providers {
        PickExt(v, w, t, a, n, k + 1, Picked(done.miners, NoSuchMiner));
      } else {
        var e := Misfit(v.providers[m], t, a);
        var next := Picked(if e.NoErr? then done.miners + [MinerOf(m, v.providers[m])] else done.miners, e);
        PickExt(v, w, t, a, n, k + 1, next);
      }
    }
  }

  lemma {:induction false} MinersExt(v: Ledger, w: Ledger, s: seq<Address>)
    requires v.providers == w.providers && forall i :: 0 <= i < |s| ==> s[i] in v.providers
    ensures MinersOf(v, s) == MinersOf(w, s)
  {
    if s != [] { MinersExt(v, w, s[1..]); }
  }

  lemma MatchExt(rank: Rank, v: Ledger, w: Ledger, t: Body, a: Address)
    requires t.CreateDatabase? && v.providers == w.providers
    ensures MatchMiners(rank, v, t, a) == MatchMiners(rank, w, t, a)
  {
    PickExt(v, w, t, a, t.nodes, 0, Picked([], NoErr));
    assert Candidates(v, t, a) == Candidates(w, t, a);
    var s := Candidates(v, t, a);
    SortedMembers(rank, v.providers, s);
    forall n: nat | n <= |s| { MinersExt(v, w, Sorted(rank, v.providers, s)[..n]); }
  }

  lemma CreateExt(cfg: Config, v: Ledger, w: Ledger, key: nat, nonce: nat, t: Body)
    requires t.CreateDatabase? && Ext(v, w) && User(key) in w.accounts
    ensures Alike(MatchProvidersWithUser(cfg, v, key, nonce, t), MatchProvidersWithUser(cfg, w, key, nonce, t))
  {
    MatchExt(RankOf(cfg, v, key, nonce, t), v, w, t, User(key));
  }

  lemma BodyExt(cfg: Config, v: Ledger, w: Ledger, tx: Tx, height: nat)
    requires Ext(v, w) && User(tx.key) in w.accounts
    ensures Alike(ApplyBody(cfg, v, tx, height), ApplyBody(cfg, w, tx, height))
  {
    match tx.body
    case Transfer(_, _, _, _) =>
      TransferExt(cfg, v, w, tx.key, tx.body);
      AccountTransferExt(v, w, tx.key, tx.body);
    case ProvideService(_, _, _, _, _, _) => ProviderExt(cfg, v, w, tx.key, tx.body, height);
    case CreateDatabase(_, _, _, _, _, _, _, _, _) => CreateExt(cfg, v, w, tx.key, tx.nonce, tx.body);
    case UpdatePermission(_, _, _) =>
    case IssueKeys(_) =>
    case UpdateBilling(_, _, _, _, _) =>
  }

  /** Extra empty accounts do not change what happens to a transaction of a known sender. */
  lemma ApplyExt(cfg: Config, v: Ledger, w: Ledger, tx: Tx, height: nat)
    requires Ext(v, w) && tx.Sender() in w.accounts
    ensures Alike(Apply(cfg, v, tx, height), Apply(cfg, w, tx, height))
  {
    if w.accounts[tx.Sender()].nextNonce == tx.nonce {
      if tx.Sender() == User(tx.key) {
        BodyExt(cfg, v, w, tx, height);
        BodyNonces(cfg, w, tx, height);
        var r, q := ApplyBody(cfg, v, tx, height).ledger, ApplyBody(cfg, w, tx, height).ledger;
        SetExt(r, q, tx.Sender(), q.accounts[tx.Sender()].(nextNonce := q.accounts[tx.Sender()].nextNonce + 1));
      }
    }
  }

  /** A rejected transaction leaves at most one empty account behind. */
  lemma RejectedLeavesGhosts(cfg: Config, l: Ledger, tx: Tx, height: nat)
    requires Good(cfg, l) && !Apply(cfg, l, tx, height).err.NoErr?
    ensures Ext(Apply(cfg, l, tx, height).ledger, l)
  {
    if tx.Sender() in l.accounts && l.accounts[tx.Sender()].nextNonce == tx.nonce {
      BodyNonces(cfg, l, tx, height);
      match tx.body
      case Transfer(_, _, _, _) =>
      case ProvideService(_, _, _, _, _, _) => ProviderRejected(cfg, l, tx.key, tx.body, height);
      case CreateDatabase(_, _, _, _, _, _, _, _, _) =>
      case UpdatePermission(_, _, _) =>
      case IssueKeys(_) =>
      case UpdateBilling(_, _, _, _, _) =>
    }
  }

  /** The refunded deposit always pays for the new one. */
  lemma ProviderRejected(cfg: Config, l: Ledger, key: nat, t: Body, height: nat)
    requires Good(cfg, l) && t.ProvideService? && !UpdateProviderList(cfg, l, key, t, height).err.NoErr?
    ensures UpdateProviderList(cfg, l, key, t, height).ledger == l
  {}

  lemma ExtTransitive(u: Ledger, v: Ledger, w: Ledger)
    requires Ext(u, v) && Ext(v, w)
    ensures Ext(u, w)
  {}
}
