/** What each transaction does to the ledger, account by account and field by field, and exactly when it is refused. */
module LedgerEffects {
  import opened Common
  import opened LedgerTypes
  import opened Transactions
  import opened TokenFlows

  /** What account a holds of a token; nothing if there is no such account. */
  function Held(l: Ledger, a: Address, k: Token): nat {
    if a in l.accounts then l.accounts[a].balance.Of(k) else 0
  }

  /** Every account of l is still there and has its nonce. */
  ghost predicate SameNonces(l: Ledger, r: Ledger) {
    forall a :: a in l.accounts ==> a in r.accounts && r.accounts[a].nextNonce == l.accounts[a].nextNonce
  }

  /** Balances change only for token k of account a, from which x is taken. */
  ghost predicate Takes(l: Ledger, r: Ledger, a: Address, k: Token, x: nat) {
    && r.accounts.Keys == l.accounts.Keys && SameNonces(l, r) && x <= Held(l, a, k)
    && forall b, j :: Held(r, b, j) == Held(l, b, j) - if b == a && j == k then x else 0
  }

  // ---------------------------------------------------------------- transfers

  predicate Moving(t: Body)
    requires t.Transfer?
  {
    t.sender != t.receiver && t.amount > 0
  }

  /** The sender has the amount and the receiver's balance stays within 64 bits. */
  predicate Movable(l: Ledger, t: Body)
    requires t.Transfer?
  {
    && t.sender in l.accounts && t.amount <= Held(l, t.sender, t.token)
    && Held(l, t.receiver, t.token) + t.amount < LIMIT
  }

  /** Balances change only for token k: x leaves account a and reaches account b. */
  ghost predicate Moves(l: Ledger, r: Ledger, a: Address, b: Address, k: Token, x: nat) {
    forall c, j :: Held(r, c, j) ==
      Held(l, c, j) + (if j == k && c == b then x else 0) - (if j == k && c == a then x else 0)
  }

  lemma TransferMoves(l: Ledger, key: nat, t: Body)
    requires t.Transfer?
    ensures var r := TransferAccountToken(l, key, t);
      && (r.err.InvalidSender? <==> t.sender != User(key))
      && (r.err.NoErr? <==> t.sender == User(key) && (Moving(t) ==> Movable(l, t)))
      && Moves(l, r.ledger, t.sender, t.receiver, t.token, if r.err.NoErr? then t.amount else 0)
  {
    SafeAddExact(Held(l, t.receiver, t.token), t.amount);
  }

  lemma TransferKeeps(l: Ledger, key: nat, t: Body)
    requires t.Transfer?
    ensures var r := TransferAccountToken(l, key, t).ledger;
      r.databases == l.databases && r.providers == l.providers && SameNonces(l, r)
  {}

  /** A transfer to an account that is no database is accepted exactly if its sender signed it and it moves nothing,
      or the sender has the amount and the receiver's balance stays within 64 bits. The amount leaves the sender and
      reaches the receiver, and nothing else changes. */
  lemma TransferIff(cfg: Config, l: Ledger, tx: Tx, height: nat)
    requires tx.body.Transfer? && tx.body.receiver !in l.databases
    ensures var t := tx.body; var r := ApplyBody(cfg, l, tx, height);
      && (r.err.InvalidSender? <==> t.sender != User(tx.key))
      && (r.err.NoErr? <==> t.sender == User(tx.key) && (Moving(t) ==> Movable(l, t)))
      && Moves(l, r.ledger, t.sender, t.receiver, t.token, if r.err.NoErr? then t.amount else 0)
      && r.ledger.databases == l.databases && r.ledger.providers == l.providers && SameNonces(l, r.ledger)
  {
    TransferMoves(l, tx.key, tx.body);
    TransferKeeps(l, tx.key, tx.body);
  }

  // ---------------------------------------------------------------- payments

  function Least(x: nat, y: nat): nat { if x < y then x else y }

  function Most(x: nat, y: nat): nat { if x < y then y else x }

  /** The deposit of a user: the price of the queries of one billing period at every miner, in 64 bits. */
  lemma MinDepositIs(cfg: Config, gasPrice: u64, miners: nat)
    ensures MinDeposit(cfg, gasPrice, miners) == (gasPrice * cfg.qps * cfg.billingBlocks * miners) % LIMIT
  {
    var x, y := gasPrice * cfg.qps, gasPrice * cfg.qps * cfg.billingBlocks;
    ModMul(x, cfg.billingBlocks);
    ModMul(y, miners % LIMIT);
    ModMul(miners, y);
    assert y * miners == miners * y && y * (miners % LIMIT) == (miners % LIMIT) * y;
  }

  lemma ModMul(x: nat, y: nat)
    ensures ((x % LIMIT) * y) % LIMIT == (x * y) % LIMIT
  {
    var q := x / LIMIT;
    assert x == q * LIMIT + x % LIMIT;
    assert x * y == (q * y) * LIMIT + (x % LIMIT) * y by { Spread(q, x % LIMIT, y); }
    ModSkip((x % LIMIT) * y, q * y);
  }

  lemma Spread(q: nat, r: nat, y: nat)
    ensures (q * LIMIT + r) * y == (q * y) * LIMIT + r * y
  {}

  lemma ModSkip(r: nat, q: nat)
    ensures (q * LIMIT + r) % LIMIT == r % LIMIT
  {}

  /** Payment of an amount turns u into v: the deposit is filled up to its minimum first and the rest is advance
      payment, arrears are cleared, and queries are enabled if there were arrears or the advance payment now exceeds
      the minimum. */
  predicate ToppedUp(u: DbUser, v: DbUser, amount: nat, min: nat) {
    && v.address == u.address && v.permission == u.permission && v.arrears == 0
    && v.deposit == Most(u.deposit, Least(u.deposit + amount, min))
    && v.advance == (u.advance + amount - (v.deposit - u.deposit)) % LIMIT
    && v.status == if u.arrears > 0 || (u.status !in {Normal, Reminder} && v.advance > min) then Normal else u.status
  }

  lemma FillsUp(u: DbUser, amount: u64, min: u64)
    requires u.deposit < min
    ensures TopUp(u, amount, min).Some?
    ensures var v := TopUp(u, amount, min).value;
      && v == u.(deposit := Least(u.deposit + amount, min), advance := v.advance)
      && v.advance == (u.advance + amount - (v.deposit - u.deposit)) % LIMIT
  {}

  lemma AddsUp(u: DbUser, amount: u64, min: u64)
    requires min <= u.deposit
    ensures TopUp(u, amount, min) ==
      if u.advance + amount < LIMIT then Some(u.(advance := u.advance + amount)) else None
  {
    SafeAddExact(u.advance, amount);
  }

  lemma TopsUp(u: DbUser, amount: u64, min: u64)
    ensures var v := if u.arrears > 0 then u.(arrears := 0, status := Normal) else u;
      var w := TopUp(v, amount, min);
      && (w.None? <==> min <= u.deposit && u.advance + amount >= LIMIT)
      && (w.Some? ==> ToppedUp(u, Reenable(w.value, min), amount, min))
  {
    var v := if u.arrears > 0 then u.(arrears := 0, status := Normal) else u;
    if u.deposit < min { FillsUp(v, amount, min); } else { AddsUp(v, amount, min); }
  }

  /** The checks of a payment by sender s into database p, whose first entry of s is number i. */
  predicate Payable(p: Profile, l: Ledger, t: Body, i: nat)
    requires t.Transfer? && i <= |p.users|
  {
    && p.token == t.token && t.sender in l.accounts && t.amount <= Held(l, t.sender, t.token)
    && (i < |p.users| ==> p.users[i].arrears <= t.amount)
  }

  /** The database after a payment into the entry of user i. */
  ghost predicate PaidInto(p: Profile, q: Profile, i: nat, amount: nat, min: nat)
    requires i < |p.users|
  {
    && |q.users| == |p.users| && ToppedUp(p.users[i], q.users[i], amount, min)
    && q == p.(miners := q.miners, users := p.users[i := q.users[i]])
    && q.miners == if p.users[i].arrears > 0 then SettleAll(p.miners, p.users[i].address) else p.miners
  }

  /** A transfer to a database is accepted exactly if its sender signed it, it is in the token of the database, the
      sender has the amount and it covers the sender's arrears, and an advance payment that gets all of it does not
      overflow. Then the sender's first entry gets it; from a sender without an entry nothing is taken. */
  lemma PaymentIff(cfg: Config, l: Ledger, tx: Tx, height: nat)
    requires tx.body.Transfer? && tx.body.receiver in l.databases
    ensures var t := tx.body; var r := ApplyBody(cfg, l, tx, height); var p := l.databases[t.receiver];
      var i := FindUser(p.users, t.sender);
      var min := (p.gasPrice * cfg.qps * cfg.billingBlocks * |p.miners|) % LIMIT;
      var over := i < |p.users| && min <= p.users[i].deposit && p.users[i].advance + t.amount >= LIMIT;
      && (r.err.NoErr? <==> t.sender == User(tx.key) && Payable(p, l, t, i) && !over)
      && (!r.err.NoErr? || i == |p.users| ==> r.ledger == l)
      && (r.err.NoErr? && i < |p.users| ==>
            && Takes(l, r.ledger, t.sender, t.token, t.amount) && r.ledger.providers == l.providers
            && t.receiver in r.ledger.databases
            && r.ledger.databases == l.databases[t.receiver := r.ledger.databases[t.receiver]]
            && PaidInto(p, r.ledger.databases[t.receiver], i, t.amount, min))
  {
    var t, p := tx.body, l.databases[tx.body.receiver];
    var i := FindUser(p.users, t.sender);
    MinDepositIs(cfg, p.gasPrice, |p.miners|);
    if Pays(l, tx.key, t) {
      PaymentStores(cfg, l, tx.key, t);
      TopsUp(p.users[i], t.amount, MinDeposit(cfg, p.gasPrice, |p.miners|));
    }
  }

  // ---------------------------------------------------------------- providers

  /** What a provider gets back when it registers anew: its old deposit, from the fix height on. */
  function Refunded(l: Ledger, a: Address, height: nat): nat {
    if height >= FIX_PROVIDE_SERVICE && a in l.providers then l.providers[a].deposit else 0
  }

  /** Registering is accepted exactly if the sender can pay the deposit after getting back the old one, which has to
      fit. Only the sender's entry changes, and it has each field as it was sent. */
  lemma ProvideIff(cfg: Config, l: Ledger, key: nat, t: Body, height: nat)
    requires t.ProvideService?
    ensures var r := UpdateProviderList(cfg, l, key, t, height); var a := User(key);
      var has := Held(l, a, Particle) + Refunded(l, a, height);
      && (r.err.NoErr? <==> a in l.accounts && cfg.minProviderDeposit <= has < LIMIT)
      && (r.err.NoErr? ==>
            && (forall b, k :: Held(r.ledger, b, k) ==
                  if b == a && k.Particle? then has - cfg.minProviderDeposit else Held(l, b, k))
            && r.ledger.databases == l.databases && r.ledger.providers.Keys == l.providers.Keys + {a}
            && (forall b :: b in l.providers && b != a ==> r.ledger.providers[b] == l.providers[b])
            && var p := r.ledger.providers[a];
               && p.space == t.space && p.memory == t.memory && p.loadAvg == t.loadAvg && p.nodeID == t.nodeID
               && p.targetUsers == t.targetUsers && p.gasPrice == t.gasPrice && p.token.Particle?
               && p.deposit == cfg.minProviderDeposit)
  {
    var a := User(key);
    if a in l.providers { SafeAddExact(Held(l, a, Particle), l.providers[a].deposit); }
  }

  // ---------------------------------------------------------------- database creation

  /** The provider serves the user, asks for no higher price, has no higher load if one is asked for, has the memory
      and space, and takes the token. */
  predicate Suits(p: Provider, t: Body, a: Address)
    requires t.CreateDatabase?
  {
    && (p.targetUsers == [] || a in p.targetUsers) && p.gasPrice <= t.price
    && (t.reqLoadAvg <= 0.0 || p.loadAvg <= t.reqLoadAvg)
    && t.reqMemory <= p.memory && t.reqSpace <= p.space && p.token == t.payToken
  }

  lemma SuitsIff(p: Provider, t: Body, a: Address)
    requires t.CreateDatabase?
    ensures Misfit(p, t, a).NoErr? <==> Suits(p, t, a)
    ensures Misfit(p, t, a).MinerUserNotMatch? <==> p.targetUsers != [] && a !in p.targetUsers
  {}

  /** The targets named in a request that suit it, in their order. */
  function SuitingTargets(l: Ledger, t: Body, a: Address, k: nat): seq<Address>
    requires t.CreateDatabase? && k <= |t.targets|
    decreases |t.targets| - k
  {
    if k == |t.targets| then []
    else
      var m, rest := t.targets[k], SuitingTargets(l, t, a, k + 1);
      if m in l.providers && Suits(l.providers[m], t, a) then [m] + rest else rest
  }

  function AddressesOf(ms: seq<Miner>): (r: seq<Address>)
    ensures |r| == |ms| && forall i :: 0 <= i < |r| ==> r[i] == ms[i].address
  {
    if ms == [] then [] else AddressesOf(ms[..|ms| - 1]) + [ms[|ms| - 1].address]
  }

  lemma {:induction false} AddressesAppend(ms: seq<Miner>, m: Miner)
    ensures AddressesOf(ms + [m]) == AddressesOf(ms) + [m.address]
  {
    assert (ms + [m])[..|ms|] == ms;
  }

  /** The first n, or all if there are fewer. */
  function First(s: seq<Address>, n: nat): seq<Address> {
    if |s| <= n then s else s[..n]
  }

  lemma {:induction false} PickSkips(l: Ledger, t: Body, a: Address, n: nat, k: nat, done: Picked)
    requires t.CreateDatabase? && k < |t.targets| && |done.miners| < n
    requires var m := t.targets[k]; !(m in l.providers && Suits(l.providers[m], t, a))
    ensures exists e :: PickTargets(l, t, a, n, k, done) == PickTargets(l, t, a, n, k + 1, Picked(done.miners, e))
    ensures SuitingTargets(l, t, a, k) == SuitingTargets(l, t, a, k + 1)
  {
    var m := t.targets[k];
    if m in l.providers { SuitsIff(l.providers[m], t, a); }
    var e := if m in l.providers then Misfit(l.providers[m], t, a) else NoSuchMiner;
    assert PickTargets(l, t, a, n, k, done) == PickTargets(l, t, a, n, k + 1, Picked(done.miners, e));
  }

  lemma {:induction false} PickTakes(l: Ledger, t: Body, a: Address, n: nat, k: nat, done: Picked)
    requires t.CreateDatabase? && k < |t.targets| && |done.miners| < n
    requires var m := t.targets[k]; m in l.providers && Suits(l.providers[m], t, a)
    ensures var m := t.targets[k]; var next := Picked(done.miners + [MinerOf(m, l.providers[m])], NoErr);
      PickTargets(l, t, a, n, k, done) ==
        if |next.miners| == n then next else PickTargets(l, t, a, n, k + 1, next)
    ensures SuitingTargets(l, t, a, k) == [t.targets[k]] + SuitingTargets(l, t, a, k + 1)
  {
    SuitsIff(l.providers[t.targets[k]], t, a);
  }

  lemma {:induction false} TakeOne(r: seq<Address>, d: seq<Address>, m: Address, rest: seq<Address>, n: nat)
    requires |d| < n && r == if |d| + 1 == n then d + [m] else First(d + [m] + rest, n)
    ensures r == First(d + ([m] + rest), n)
  {
    assert d + ([m] + rest) == d + [m] + rest;
    if |d| + 1 == n { assert (d + [m] + rest)[..n] == d + [m]; }
  }

  /** The picked targets are the first n that suit. */
  lemma {:induction false} PicksFirst(l: Ledger, t: Body, a: Address, n: nat, k: nat, done: Picked, d: seq<Address>)
    requires t.CreateDatabase? && k <= |t.targets| && |d| < n && d == AddressesOf(done.miners)
    ensures AddressesOf(PickTargets(l, t, a, n, k, done).miners) == First(d + SuitingTargets(l, t, a, k), n)
    decreases |t.targets| - k
  {
    if k == |t.targets| {
      assert d + [] == d;
    } else if t.targets[k] in l.providers && Suits(l.providers[t.targets[k]], t, a) {
      PicksTaken(l, t, a, n, k, done, d);
    } else {
      PickSkips(l, t, a, n, k, done);
      var e :| PickTargets(l, t, a, n, k, done) == PickTargets(l, t, a, n, k + 1, Picked(done.miners, e));
      PicksFirst(l, t, a, n, k + 1, Picked(done.miners, e), d);
    }
  }

  lemma {:induction false} PicksTaken(l: Ledger, t: Body, a: Address, n: nat, k: nat, done: Picked, d: seq<Address>)
    requires t.CreateDatabase? && k < |t.targets| && |d| < n && d == AddressesOf(done.miners)
    requires var m := t.targets[k]; m in l.providers && Suits(l.providers[m], t, a)
    ensures AddressesOf(PickTargets(l, t, a, n, k, done).miners) == First(d + SuitingTargets(l, t, a, k), n)
    decreases |t.targets| - k, 0
  {
    var m := t.targets[k];
    var next := Picked(done.miners + [MinerOf(m, l.providers[m])], NoErr);
    PickTakes(l, t, a, n, k, done);
    AddressesAppend(done.miners, MinerOf(m, l.providers[m]));
    if |next.miners| < n { PicksFirst(l, t, a, n, k + 1, next, d + [m]); }
    TakeOne(AddressesOf(PickTargets(l, t, a, n, k, done).miners), d, m, SuitingTargets(l, t, a, k + 1), n);
  }

  /** Providers that suit and are no targets. */
  ghost predicate Free(l: Ledger, t: Body, a: Address, m: Address)
    requires t.CreateDatabase?
  {
    m in l.providers && m !in t.targets && Suits(l.providers[m], t, a)
  }

  /** The chosen ones are free, in the order of their node ids, and no free one left out has a smaller id. */
  ghost predicate FirstFree(l: Ledger, t: Body, a: Address, ms: seq<Address>)
    requires t.CreateDatabase?
  {
    && (forall i :: 0 <= i < |ms| ==> Free(l, t, a, ms[i]))
    && (forall i, j :: 0 <= i < j < |ms| ==>
          ms[i] != ms[j] && l.providers[ms[i]].nodeID <= l.providers[ms[j]].nodeID)
    && (forall i, x :: 0 <= i < |ms| && Free(l, t, a, x) && x !in ms ==>
          l.providers[ms[i]].nodeID <= l.providers[x].nodeID)
  }

  lemma {:induction false} FreeIs(l: Ledger, t: Body, a: Address)
    requires t.CreateDatabase?
    ensures forall m :: m in Candidates(l, t, a) <==> Free(l, t, a, m)
  {
    forall m ensures m in Candidates(l, t, a) <==> Free(l, t, a, m) {
      if m in l.providers { SuitsIff(l.providers[m], t, a); }
    }
  }

  /** Candidates in the order of their node ids: the first n come before the others. */
  lemma {:induction false} SortedFirstOnes(rank: Rank, ps: map<Address, Provider>, s: set<Address>, n: nat)
    requires s <= ps.Keys && n <= |s|
    ensures var order := Sorted(rank, ps, s);
      && |order| == |s|
      && (forall i :: 0 <= i < n ==> order[i] in s)
      && (forall i, j :: 0 <= i < j < n ==> order[i] != order[j] && ps[order[i]].nodeID <= ps[order[j]].nodeID)
      && (forall i, x :: 0 <= i < n && x in s && x !in order[..n] ==> ps[order[i]].nodeID <= ps[x].nodeID)
  {
    var order := Sorted(rank, ps, s);
    SortedMembers(rank, ps, s);
    assert forall i :: 0 <= i < |order| ==> order[i] in order;
    assert forall i :: 0 <= i < n ==> order[..n][i] == order[i] && order[i] in order[..n];
    forall i, j | 0 <= i < j < n ensures order[i] != order[j] && ps[order[i]].nodeID <= ps[order[j]].nodeID {
      SortedIds(rank, ps, s, i, j);
    }
    forall i, x | 0 <= i < n && x in s && x !in order[..n] ensures ps[order[i]].nodeID <= ps[x].nodeID {
      var j :| 0 <= j < |order| && order[j] == x;
      SortedIds(rank, ps, s, i, j);
    }
  }

  lemma {:induction false} FilteredAre(rank: Rank, l: Ledger, t: Body, a: Address, n: nat)
    requires t.CreateDatabase?
    ensures FilterMiners(rank, l, t, a, n).Some? <==> n <= |Candidates(l, t, a)|
    ensures var r := FilterMiners(rank, l, t, a, n); var order := Sorted(rank, l.providers, Candidates(l, t, a));
      r.Some? ==> |r.value| == n <= |order| && AddressesOf(r.value) == order[..n]
  {
    SortedMembers(rank, l.providers, Candidates(l, t, a));
  }

  lemma {:induction false} FiltersFirst(rank: Rank, l: Ledger, t: Body, a: Address, n: nat)
    requires t.CreateDatabase?
    ensures FilterMiners(rank, l, t, a, n).Some? <==> n <= |Candidates(l, t, a)|
    ensures var r := FilterMiners(rank, l, t, a, n);
      r.Some? ==> |r.value| == n && FirstFree(l, t, a, AddressesOf(r.value))
  {
    FilteredAre(rank, l, t, a, n);
    FreeIs(l, t, a);
    if FilterMiners(rank, l, t, a, n).Some? {
      SortedFirstOnes(rank, l.providers, Candidates(l, t, a), n);
    }
  }

  /** The miners chosen for a request: the first suiting targets, filled up with free providers of least node ids if
      fewer targets than miners are named. */
  ghost predicate Chosen(l: Ledger, t: Body, a: Address, ms: seq<Address>)
    requires t.CreateDatabase?
  {
    var named := SuitingTargets(l, t, a, 0);
    && |ms| == t.nodes
    && if |named| >= t.nodes then ms == named[..t.nodes]
       else |t.targets| < t.nodes && named <= ms && FirstFree(l, t, a, ms[|named|..])
  }

  lemma {:induction false} Joined(ms: seq<Miner>, more: seq<Miner>)
    ensures AddressesOf(ms + more) == AddressesOf(ms) + AddressesOf(more)
    ensures AddressesOf(ms + more)[|ms|..] == AddressesOf(more)
  {
    var all := AddressesOf(ms + more);
    assert forall i :: 0 <= i < |all| ==> all[i] == (AddressesOf(ms) + AddressesOf(more))[i];
  }

  lemma {:induction false} PickedNamed(l: Ledger, t: Body, a: Address)
    requires t.CreateDatabase? && t.nodes > 0
    ensures var named := SuitingTargets(l, t, a, 0);
      var picked := PickTargets(l, t, a, t.nodes, 0, Picked([], NoErr)).miners;
      AddressesOf(picked) == First(named, t.nodes) && |picked| == Least(|named|, t.nodes)
  {
    PicksFirst(l, t, a, t.nodes, 0, Picked([], NoErr), []);
    assert [] + SuitingTargets(l, t, a, 0) == SuitingTargets(l, t, a, 0);
  }

  lemma {:induction false} Fills(l: Ledger, t: Body, a: Address, picked: seq<Miner>, more: seq<Miner>)
    requires t.CreateDatabase? && |t.targets| < t.nodes == |picked| + |more|
    requires AddressesOf(picked) == SuitingTargets(l, t, a, 0) && FirstFree(l, t, a, AddressesOf(more))
    ensures Chosen(l, t, a, AddressesOf(picked + more))
  {
    Joined(picked, more);
    if more == [] { assert AddressesOf(picked + more)[..t.nodes] == AddressesOf(picked + more); }
  }

  lemma {:induction false} NamedOnly(l: Ledger, t: Body, a: Address, picked: seq<Miner>)
    requires t.CreateDatabase? && |picked| >= t.nodes && |picked| == Least(|SuitingTargets(l, t, a, 0)|, t.nodes)
    requires AddressesOf(picked) == First(SuitingTargets(l, t, a, 0), t.nodes)
    ensures Chosen(l, t, a, AddressesOf(picked))
  {}

  lemma {:induction false} FewNamed(rank: Rank, l: Ledger, t: Body, a: Address)
    requires t.CreateDatabase? && MatchMiners(rank, l, t, a).Miners?
    requires |PickTargets(l, t, a, t.nodes, 0, Picked([], NoErr)).miners| < t.nodes
    ensures |t.targets| < t.nodes
  {}

  lemma {:induction false} Filled(rank: Rank, l: Ledger, t: Body, a: Address, picked: seq<Miner>)
    requires t.CreateDatabase? && |t.targets| < t.nodes && |picked| < t.nodes
    requires AddressesOf(picked) == SuitingTargets(l, t, a, 0)
    requires FilterMiners(rank, l, t, a, t.nodes - |picked|).Some?
    ensures Chosen(l, t, a, AddressesOf(picked + FilterMiners(rank, l, t, a, t.nodes - |picked|).value))
  {
    FiltersFirst(rank, l, t, a, t.nodes - |picked|);
    Fills(l, t, a, picked, FilterMiners(rank, l, t, a, t.nodes - |picked|).value);
  }

  /** The miners that are found are the chosen ones. */
  lemma {:induction false} MatchChosen(rank: Rank, l: Ledger, t: Body, a: Address)
    requires t.CreateDatabase? && t.nodes > 0 && MatchMiners(rank, l, t, a).Miners?
    ensures Chosen(l, t, a, AddressesOf(MatchMiners(rank, l, t, a).miners))
  {
    var picked := PickTargets(l, t, a, t.nodes, 0, Picked([], NoErr)).miners;
    PickedNamed(l, t, a);
    MatchedParts(rank, l, t, a);
    if |picked| < t.nodes {
      FewNamed(rank, l, t, a);
      Filled(rank, l, t, a, picked);
    } else {
      NamedOnly(l, t, a, picked);
    }
  }

  /** Miners are found exactly if enough named ones suit, or fewer are named than wanted and free ones make up for
      the rest. */
  lemma {:induction false} MatchIff(rank: Rank, l: Ledger, t: Body, a: Address)
    requires t.CreateDatabase? && t.nodes > 0
    ensures var named := |SuitingTargets(l, t, a, 0)|;
      MatchMiners(rank, l, t, a).Miners? <==>
        named >= t.nodes || (|t.targets| < t.nodes <= named + |set x | x in l.providers && Free(l, t, a, x)|)
  {
    PickedNamed(l, t, a);
    FreeIs(l, t, a);
    assert (set x | x in l.providers && Free(l, t, a, x)) == Candidates(l, t, a);
    var picked := PickTargets(l, t, a, t.nodes, 0, Picked([], NoErr)).miners;
    FilteredAre(rank, l, t, a, t.nodes - |picked|);
  }

  /** The miner entry of a provider that was chosen. */
  ghost predicate Engaged(l: Ledger, m: Miner) {
    && m.address in l.providers && m.nodeID == l.providers[m.address].nodeID
    && m.deposit == l.providers[m.address].deposit && m.pending == 0 && m.received == 0 && m.arrears == []
  }

  /** A new database: the owner is its only user, an enabled one with every permission and the advance payment sent,
      and the chosen providers are its miners. */
  ghost predicate Opened(l: Ledger, t: Body, a: Address, min: nat, p: Profile)
    requires t.CreateDatabase?
  {
    && p.gasPrice == t.price && p.lastUpdated == 0 && p.token.Particle? && p.owner == a
    && |p.users| == 1 && p.users[0].address == a && p.users[0].permission.role == 7 && p.users[0].arrears == 0
    && p.users[0].advance == t.advancePayment && p.users[0].deposit == min && p.users[0].status.Normal?
    && Chosen(l, t, a, AddressesOf(p.miners)) && forall k :: 0 <= k < |p.miners| ==> Engaged(l, p.miners[k])
  }

  lemma {:induction false} MinerSet(ms: seq<Miner>)
    ensures forall x :: x in MinerAddresses(ms) <==> x in AddressesOf(ms)
  {
    forall x ensures x in MinerAddresses(ms) <==> x in AddressesOf(ms) {
      if x in AddressesOf(ms) {
        var i :| 0 <= i < |AddressesOf(ms)| && AddressesOf(ms)[i] == x;
        assert ms[i] in ms;
      }
      if x in MinerAddresses(ms) {
        var m :| m in ms && m.address == x;
        var i :| 0 <= i < |ms| && ms[i] == m;
        assert AddressesOf(ms)[i] == x;
      }
    }
  }

  /** An accepted creation that does something opens the database at the address of its sender and nonce, takes the
      deposit and the advance payment from the sender, and takes its miners from the providers. */
  lemma {:induction false} CreateOpens(cfg: Config, l: Ledger, key: nat, nonce: nat, t: Body)
    requires t.CreateDatabase?
    requires MatchProvidersWithUser(cfg, l, key, nonce, t).err.NoErr? &&
      MatchProvidersWithUser(cfg, l, key, nonce, t).ledger != l
    ensures var r := MatchProvidersWithUser(cfg, l, key, nonce, t).ledger; var a := User(key);
      var db := Database(a, nonce); var min := (t.price * cfg.qps * cfg.billingBlocks * t.nodes) % LIMIT;
      && t.owner == a && t.price > 0 && min <= t.advancePayment && min + t.advancePayment <= Held(l, a, t.payToken)
      && db !in l.databases && db in r.databases && r.databases == l.databases[db := r.databases[db]]
      && Opened(l, t, a, min, r.databases[db])
      && (forall x :: x in r.providers <==> x in l.providers && x !in AddressesOf(r.databases[db].miners))
      && (forall x :: x in r.providers ==> r.providers[x] == l.providers[x])
      && (forall b, k :: Held(r, b, k) == if b == db then 0 else
            Held(l, b, k) - if b == a && k == t.payToken then min + t.advancePayment else 0)
  {
    var a := User(key);
    var rank := RankOf(cfg, l, key, nonce, t);
    var ms := MatchMiners(rank, l, t, a).miners;
    MinDepositIs(cfg, t.price, t.nodes);
    CreateIs(cfg, l, key, nonce, t);
    MatchedFit(rank, l, t, a);
    MatchChosen(rank, l, t, a);
    MinerSet(ms);
  }

  /** What a creation requires before miners are looked for, and in which order it is refused. */
  lemma CreateRefused(cfg: Config, l: Ledger, key: nat, nonce: nat, t: Body)
    requires t.CreateDatabase?
    ensures var r := MatchProvidersWithUser(cfg, l, key, nonce, t); var a := User(key);
      var min := (t.price * cfg.qps * cfg.billingBlocks * t.nodes) % LIMIT;
      var ok := t.owner == a && t.price > 0 && t.nodes > 0;
      var found := MatchMiners(RankOf(cfg, l, key, nonce, t), l, t, a).Miners?;
      && (!r.err.NoErr? ==> r.ledger.databases == l.databases && r.ledger.providers == l.providers)
      && (ok && min <= t.advancePayment && found ==>
            (r.err.NoErr? <==>
               && a in l.accounts && min + t.advancePayment <= Held(l, a, t.payToken)
               && Database(a, nonce) !in l.databases))
      && (r.err.NoErr? ==> ok && min <= t.advancePayment)
  {
    MinDepositIs(cfg, t.price, t.nodes);
    SafeAddExact(MinDeposit(cfg, t.price, t.nodes), t.advancePayment);
  }

  // ---------------------------------------------------------------- billing

  /** The cost a bill reports of a user is that of the user's last entry, zero if there is none. */
  lemma {:induction false} CostLast(costs: seq<UserCost>, a: Address, i: nat)
    requires i < |costs| && costs[i].user == a && forall j :: i < j < |costs| ==> costs[j].user != a
    ensures CostOf(costs, a) == costs[i].cost
  {
    if i < |costs| - 1 { CostLast(costs[..|costs| - 1], a, i); }
  }

  /** User u after a bill with a cost: the cost is taken from the advance payment, and a user who cannot pay it has
      none left and cannot query. */
  predicate Charged(u: DbUser, v: DbUser, cost: nat) {
    && v.address == u.address && v.permission == u.permission && v.deposit == u.deposit
    && v.advance == Most(u.advance, cost) - cost
    && (cost <= u.advance ==> v.arrears == u.arrears && v.status == u.status)
    && (u.advance < cost ==> v.status == InArrears && v.status !in {Normal, Reminder})
  }

  lemma {:induction false} UsersCharged(costs: seq<UserCost>, gas: u64, users: seq<DbUser>, ms: seq<Miner>, i: nat)
    requires i < |users|
    ensures Charged(users[i], BillUsers(costs, gas, users, ms).users[i],
                    (CostOf(costs, users[i].address) * gas) % LIMIT)
  {
    if i < |users| - 1 { UsersCharged(costs, gas, users[..|users| - 1], ms, i); }
  }

  /** A bill is accepted exactly for a known database, a range that starts where the last bill ended if it has a
      version, and a sender who is one of its miners or a database that charges nothing. It changes only the database,
      charges every user, and moves the end of the last bill. */
  lemma {:induction false} BillIff(l: Ledger, key: nat, t: Body)
    requires t.UpdateBilling?
    ensures var r := ApplyBilling(l, key, t);
      && (r.err.NoErr? <==> t.billed in l.databases && var p := l.databases[t.billed];
            && (t.version > 0 ==> t.from < t.to && p.lastUpdated == t.from)
            && (p.gasPrice == 0 || User(key) in AddressesOf(p.miners)))
      && (!r.err.NoErr? || l.databases[t.billed].gasPrice == 0 ==> r.ledger == l)
      && (r.err.NoErr? && l.databases[t.billed].gasPrice > 0 ==>
            && t.billed in r.ledger.databases
            && var p, q := l.databases[t.billed], r.ledger.databases[t.billed];
               && r.ledger == l.(databases := l.databases[t.billed := q])
               && q == p.(lastUpdated := t.to, users := q.users, miners := q.miners)
               && |q.users| == |p.users|
               && forall i :: 0 <= i < |p.users| ==>
                    Charged(p.users[i], q.users[i], (CostOf(t.costs, p.users[i].address) * p.gasPrice) % LIMIT))
  {
    if t.billed in l.databases {
      var p := l.databases[t.billed];
      forall i | 0 <= i < |p.users|
        ensures Charged(p.users[i], BillUsers(t.costs, p.gasPrice, p.users, Receive(p.miners)).users[i],
                        (CostOf(t.costs, p.users[i].address) * p.gasPrice) % LIMIT)
      {
        UsersCharged(t.costs, p.gasPrice, p.users, Receive(p.miners), i);
      }
      assert forall i :: 0 <= i < |p.miners| ==> AddressesOf(p.miners)[i] == p.miners[i].address;
    }
  }

  // ---------------------------------------------------------------- keys

  predicate FirstOf(users: seq<DbUser>, a: Address, i: int) {
    0 <= i < |users| && users[i].address == a && forall j :: 0 <= j < i ==> users[j].address != a
  }

  /** Issuing keys changes nothing and is refused exactly if the database is unknown or the sender's first entry has no
      super permission. */
  lemma KeysIff(l: Ledger, key: nat, t: Body)
    requires t.IssueKeys?
    ensures var r := ApplyKeys(l, key, t);
      && r.ledger == l
      && (r.err.NoErr? <==> t.database in l.databases && var users := l.databases[t.database].users;
            forall i :: FirstOf(users, User(key), i) ==> users[i].permission.role % 8 >= 4)
  {
    if t.database in l.databases {
      var users := l.databases[t.database].users;
      forall u: DbUser ensures u.permission.Super() <==> u.permission.role % 8 >= 4 {
        var r := u.permission.role;
        assert r == 8 * (r / 8) + r % 8 && r / 4 == 2 * (r / 8) + r % 8 / 4;
      }
    }
  }
}
