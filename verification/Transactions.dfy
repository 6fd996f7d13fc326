/** The ledger as one plain value: what every transaction does to it, error paths included. The
    overlay of dirty and readonly maps that the node works on is proved to behave like this. */
module Transactions {
  import opened Common
  import opened LedgerTypes

  // ---------------------------------------------------------------- balances

  function SafeAdd(x: u64, y: u64): Option<u64> {
    if Add(x, y) < x then None else Some(Add(x, y))
  }

  function SafeSub(x: u64, y: u64): Option<u64> {
    if x < y then None else Some(x - y)
  }

  /** The wrap-around test detects exactly the sums that do not fit. */
  lemma SafeAddExact(x: u64, y: u64)
    ensures SafeAdd(x, y) == if x + y < LIMIT then Some(x + y) else None
  {}

  function SetAccount(l: Ledger, a: Address, acc: Account): Ledger {
    l.(accounts := l.accounts[a := acc])
  }

  function WithBalance(acc: Account, t: Token, v: u64): Account {
    acc.(balance := acc.balance.With(t, v))
  }

  function Increase(l: Ledger, a: Address, amount: u64, t: Token): Applied {
    if a !in l.accounts then Applied(l, AccountNotFound)
    else match SafeAdd(l.accounts[a].balance.Of(t), amount)
         case None => Applied(l, BalanceOverflow)
         case Some(v) => Applied(SetAccount(l, a, WithBalance(l.accounts[a], t, v)), NoErr)
  }

  function Decrease(l: Ledger, a: Address, amount: u64, t: Token): Applied {
    if a !in l.accounts then Applied(l, AccountNotFound)
    else match SafeSub(l.accounts[a].balance.Of(t), amount)
         case None => Applied(l, InsufficientBalance)
         case Some(v) => Applied(SetAccount(l, a, WithBalance(l.accounts[a], t, v)), NoErr)
  }

  // ---------------------------------------------------------------- transfers

  /** An empty account for a receiver that has none; it stays even if the transfer then fails. */
  function EnsureAccount(l: Ledger, a: Address): Ledger {
    if a in l.accounts then l else SetAccount(l, a, EmptyAccount)
  }

  function TransferAccountToken(l: Ledger, key: nat, t: Body): Applied
    requires t.Transfer?
  {
    if User(key) != t.sender then Applied(l, InvalidSender)
    else if t.sender == t.receiver || t.amount == 0 then Applied(l, NoErr)
    else
      var m := EnsureAccount(l, t.receiver);
      if t.sender !in m.accounts then Applied(m, AccountNotFound)
      else
        var s, r := m.accounts[t.sender], m.accounts[t.receiver];
        match SafeSub(s.balance.Of(t.token), t.amount)
        case None => Applied(m, InsufficientBalance)
        case Some(sb) =>
          match SafeAdd(r.balance.Of(t.token), t.amount)
          case None => Applied(m, BalanceOverflow)
          case Some(rb) =>
            Applied(SetAccount(SetAccount(m, t.sender, WithBalance(s, t.token, sb)),
                               t.receiver, WithBalance(r, t.token, rb)), NoErr)
  }

  function MinDeposit(cfg: Config, gasPrice: u64, miners: nat): u64 {
    Mul(Mul(Mul(gasPrice, cfg.qps), cfg.billingBlocks), miners % LIMIT)
  }

  /** Position of the first user with address a, |users| if there is none. */
  function FindUser(users: seq<DbUser>, a: Address): (i: nat)
    ensures i <= |users|
    ensures i < |users| ==> users[i].address == a
    ensures forall j :: 0 <= j < i ==> users[j].address != a
  {
    if users == [] then 0
    else if users[0].address == a then 0
    else 1 + FindUser(users[1..], a)
  }

  /** Settling the arrears of user a at a miner: k entries are done, i of them of other users. */
  function SettleFrom(pending: u64, arrears: seq<UserArrears>, a: Address, k: nat, i: nat): u64
    requires i <= k <= |arrears|
    decreases |arrears| - k
  {
    if k == |arrears| then pending
    else if arrears[k].user == a then SettleFrom(Add(pending, arrears[i].amount), arrears, a, k + 1, i)
    else SettleFrom(pending, arrears, a, k + 1, i + 1)
  }

  function Settle(m: Miner, a: Address): Miner {
    m.(pending := SettleFrom(m.pending, m.arrears, a, 0, 0))
  }

  function SettleAll(miners: seq<Miner>, a: Address): (r: seq<Miner>)
    ensures |r| == |miners| && forall i :: 0 <= i < |r| ==> r[i] == Settle(miners[i], a)
  {
    if miners == [] then [] else [Settle(miners[0], a)] + SettleAll(miners[1..], a)
  }

  /** The deposit is filled up to its minimum first, the rest is advance payment. */
  function TopUp(u: DbUser, amount: u64, minDep: u64): Option<DbUser> {
    if u.deposit < minDep then
      var diff := minDep - u.deposit;
      if diff >= amount then Some(u.(deposit := u.deposit + amount))
      else Some(u.(deposit := minDep, advance := Add(u.advance, amount - diff)))
    else
      match SafeAdd(u.advance, amount)
      case None => None
      case Some(v) => Some(u.(advance := v))
  }

  function Reenable(u: DbUser, minDep: u64): DbUser {
    if !u.status.EnableQuery() && u.advance > minDep then u.(status := Normal) else u
  }

  function TransferToDatabase(cfg: Config, l: Ledger, key: nat, t: Body): Applied
    requires t.Transfer?
  {
    if User(key) != t.sender then Applied(l, InvalidSender)
    else if t.receiver !in l.databases then Applied(l, DatabaseNotFound)
    else
      var p := l.databases[t.receiver];
      if p.token != t.token then Applied(l, WrongTokenType)
      else if t.sender !in l.accounts then Applied(l, AccountNotFound)
      else if l.accounts[t.sender].balance.Of(t.token) < t.amount then Applied(l, InsufficientBalance)
      else
        var i := FindUser(p.users, t.sender);
        if i == |p.users| then Applied(l, NoErr)
        else
          var u := p.users[i];
          if u.arrears > t.amount then Applied(l, InsufficientTransfer)
          else
            var settled := u.arrears > 0;
            var miners := if settled then SettleAll(p.miners, t.sender) else p.miners;
            var v := if settled then u.(arrears := 0, status := Normal) else u;
            var minDep := MinDeposit(cfg, p.gasPrice, |p.miners|);
            match TopUp(v, t.amount, minDep)
            case None => Applied(l, BalanceOverflow)
            case Some(w) =>
              var acc := l.accounts[t.sender];
              var paid := WithBalance(acc, t.token, acc.balance.Of(t.token) - t.amount);
              var q := p.(miners := miners, users := p.users[i := Reenable(w, minDep)]);
              Applied(l.(databases := l.databases[t.receiver := q], accounts := l.accounts[t.sender := paid]), NoErr)
  }

  /** The checks a payment into a database passes before it changes anything. */
  predicate Pays(l: Ledger, key: nat, t: Body)
    requires t.Transfer?
  {
    && User(key) == t.sender && t.receiver in l.databases && t.sender in l.accounts
    && var p := l.databases[t.receiver]; var i := FindUser(p.users, t.sender);
       && p.token == t.token && t.amount <= l.accounts[t.sender].balance.Of(t.token)
       && i < |p.users| && p.users[i].arrears <= t.amount
  }

  /** The profile after a payment. */
  function Paid(cfg: Config, p: Profile, t: Body, i: nat): Option<Profile>
    requires t.Transfer? && i < |p.users|
  {
    var u := p.users[i];
    var v := if u.arrears > 0 then u.(arrears := 0, status := Normal) else u;
    var minDep := MinDeposit(cfg, p.gasPrice, |p.miners|);
    match TopUp(v, t.amount, minDep)
    case None => None
    case Some(w) =>
      Some(p.(miners := if u.arrears > 0 then SettleAll(p.miners, t.sender) else p.miners,
              users := p.users[i := Reenable(w, minDep)]))
  }

  /** A payment stores the new profile and takes the amount from the sender. */
  lemma PaymentStores(cfg: Config, l: Ledger, key: nat, t: Body)
    requires t.Transfer? && Pays(l, key, t)
    ensures var p := l.databases[t.receiver]; var acc := l.accounts[t.sender];
      TransferToDatabase(cfg, l, key, t) ==
        match Paid(cfg, p, t, FindUser(p.users, t.sender))
        case None => Applied(l, BalanceOverflow)
        case Some(q) =>
          Applied(SetAccount(l.(databases := l.databases[t.receiver := q]), t.sender,
                             WithBalance(acc, t.token, acc.balance.Of(t.token) - t.amount)), NoErr)
  {}

  // ---------------------------------------------------------------- providers

  function RefundProvider(l: Ledger, a: Address): Applied {
    if a in l.providers then
      var r := Increase(l, a, l.providers[a].deposit, Particle);
      if r.err.NoErr? then Applied(r.ledger.(providers := r.ledger.providers - {a}), NoErr) else r
    else Applied(l, NoErr)
  }

  function UpdateProviderList(cfg: Config, l: Ledger, key: nat, t: Body, height: nat): Applied
    requires t.ProvideService?
  {
    var a := User(key);
    var r := if height >= FIX_PROVIDE_SERVICE then RefundProvider(l, a) else Applied(l, NoErr);
    if !r.err.NoErr? then r
    else
      var d := Decrease(r.ledger, a, cfg.minProviderDeposit, Particle);
      if !d.err.NoErr? then d
      else
        var p := Provider(t.space, t.memory, t.loadAvg, t.targetUsers, cfg.minProviderDeposit, t.gasPrice,
                          Particle, t.nodeID);
        Applied(d.ledger.(providers := d.ledger.providers[a := p]), NoErr)
  }

  // ---------------------------------------------------------------- database creation

  /** Why a provider does not fit a request of user a, NoErr if it fits. */
  function Misfit(p: Provider, t: Body, a: Address): Err
    requires t.CreateDatabase?
  {
    if p.targetUsers != [] && a !in p.targetUsers then MinerUserNotMatch
    else if p.gasPrice > t.price then MinerMismatch
    else if t.reqLoadAvg > 0.0 && p.loadAvg > t.reqLoadAvg then MinerMismatch
    else if p.memory < t.reqMemory then MinerMismatch
    else if p.space < t.reqSpace then MinerMismatch
    else if p.token != t.payToken then MinerMismatch
    else NoErr
  }

  function MinerOf(a: Address, p: Provider): Miner {
    Miner(a, p.nodeID, 0, 0, [], p.deposit)
  }

  datatype Picked = Picked(miners: seq<Miner>, err: Err)

  /** The target miners from position k on, after the ones already picked; it stops at n miners and
      keeps the error of the last target looked at. */
  function PickTargets(l: Ledger, t: Body, a: Address, n: nat, k: nat, done: Picked): Picked
    requires t.CreateDatabase? && k <= |t.targets|
    decreases |t.targets| - k
  {
    if k == |t.targets| then done
    else
      var m := t.targets[k];
      if m !in l.providers then PickTargets(l, t, a, n, k + 1, Picked(done.miners, NoSuchMiner))
      else
        var e := Misfit(l.providers[m], t, a);
        var next := Picked(if e.NoErr? then done.miners + [MinerOf(m, l.providers[m])] else done.miners, e);
        if |next.miners| == n then next else PickTargets(l, t, a, n, k + 1, next)
  }

  /** Order of candidates: node id; equal ids come in any order, here by rank and then address. */
  predicate Earlier(rank: Rank, ps: map<Address, Provider>, a: Address, b: Address)
    requires a in ps && b in ps
  {
    ps[a].nodeID < ps[b].nodeID || (ps[a].nodeID == ps[b].nodeID && Outranks(rank, a, b))
  }

  predicate Outranks(rank: Rank, a: Address, b: Address) {
    rank(a) < rank(b) || (rank(a) == rank(b) && Before(a, b))
  }

  function Candidates(l: Ledger, t: Body, a: Address): set<Address>
    requires t.CreateDatabase?
  {
    set m | m in l.providers && m !in t.targets && Misfit(l.providers[m], t, a).NoErr?
  }

  predicate IsFirst(rank: Rank, ps: map<Address, Provider>, s: set<Address>, m: Address)
    requires s <= ps.Keys
  {
    m in s && forall x :: x in s && x != m ==> Earlier(rank, ps, m, x)
  }

  /** s in the order of Earlier. */
  ghost function Sorted(rank: Rank, ps: map<Address, Provider>, s: set<Address>): seq<Address>
    requires s <= ps.Keys
    decreases s
  {
    if s == {} then []
    else
      FirstExists(rank, ps, s);
      var m :| IsFirst(rank, ps, s, m);
      [m] + Sorted(rank, ps, s - {m})
  }

  lemma {:induction false} FirstExists(rank: Rank, ps: map<Address, Provider>, s: set<Address>)
    requires s != {} && s <= ps.Keys
    ensures exists m :: IsFirst(rank, ps, s, m)
    decreases s
  {
    var a :| a in s;
    var rest := s - {a};
    if rest == {} {
      assert s == {a};
      assert IsFirst(rank, ps, s, a);
    } else {
      FirstExists(rank, ps, rest);
      var m :| IsFirst(rank, ps, rest, m);
      BeforeTotal(a, m);
      if Earlier(rank, ps, m, a) {
        assert IsFirst(rank, ps, s, m);
      } else {
        forall x | x in s && x != a ensures Earlier(rank, ps, a, x) {
          if x != m { EarlierTransitive(rank, ps, a, m, x); }
        }
        assert IsFirst(rank, ps, s, a);
      }
    }
  }

  lemma EarlierTransitive(rank: Rank, ps: map<Address, Provider>, a: Address, b: Address, c: Address)
    requires a in ps && b in ps && c in ps && Earlier(rank, ps, a, b) && Earlier(rank, ps, b, c)
    ensures Earlier(rank, ps, a, c)
  {
    if ps[a].nodeID == ps[b].nodeID == ps[c].nodeID && rank(a) == rank(b) == rank(c) { BeforeTransitive(a, b, c); }
  }

  ghost function MinersOf(l: Ledger, s: seq<Address>): (r: seq<Miner>)
    requires forall i :: 0 <= i < |s| ==> s[i] in l.providers
    ensures |r| == |s| && forall i :: 0 <= i < |r| ==> r[i] == MinerOf(s[i], l.providers[s[i]])
  {
    if s == [] then [] else [MinerOf(s[0], l.providers[s[0]])] + MinersOf(l, s[1..])
  }

  lemma {:induction false} SortedMembers(rank: Rank, ps: map<Address, Provider>, s: set<Address>)
    requires s <= ps.Keys
    ensures |Sorted(rank, ps, s)| == |s|
    ensures forall m :: m in Sorted(rank, ps, s) <==> m in s
    ensures forall i, j :: 0 <= i < j < |s| ==> Sorted(rank, ps, s)[i] != Sorted(rank, ps, s)[j]
    decreases s
  {
    if s != {} {
      var m := Sorted(rank, ps, s)[0];
      assert IsFirst(rank, ps, s, m) && Sorted(rank, ps, s)[1..] == Sorted(rank, ps, s - {m});
      SortedMembers(rank, ps, s - {m});
    }
  }

  lemma {:induction false} SortedIds(rank: Rank, ps: map<Address, Provider>, s: set<Address>, i: nat, j: nat)
    requires s <= ps.Keys && i < j < |Sorted(rank, ps, s)|
    ensures Sorted(rank, ps, s)[i] in ps && Sorted(rank, ps, s)[j] in ps
    ensures ps[Sorted(rank, ps, s)[i]].nodeID <= ps[Sorted(rank, ps, s)[j]].nodeID
    decreases s
  {
    var m := Sorted(rank, ps, s)[0];
    assert IsFirst(rank, ps, s, m) && Sorted(rank, ps, s)[1..] == Sorted(rank, ps, s - {m});
    if i > 0 {
      SortedIds(rank, ps, s - {m}, i - 1, j - 1);
    } else {
      SortedMembers(rank, ps, s - {m});
      assert Sorted(rank, ps, s)[j] in Sorted(rank, ps, s - {m});
    }
  }

  lemma {:induction false} SortedFirst(rank: Rank, ps: map<Address, Provider>, s: set<Address>, m: Address)
    requires s <= ps.Keys && IsFirst(rank, ps, s, m)
    ensures Sorted(rank, ps, s) == [m] + Sorted(rank, ps, s - {m})
  {
    var n := Sorted(rank, ps, s)[0];
    assert IsFirst(rank, ps, s, n) && Sorted(rank, ps, s) == [n] + Sorted(rank, ps, s - {n});
    if n != m { BeforeTotal(m, n); }
  }

  /** n further miners for a request, or None if too few providers fit. */
  ghost function FilterMiners(rank: Rank, l: Ledger, t: Body, a: Address, n: nat): Option<seq<Miner>>
    requires t.CreateDatabase?
  {
    var s := Candidates(l, t, a);
    if |s| < n then None
    else
      SortedMembers(rank, l.providers, s);
      Some(MinersOf(l, Sorted(rank, l.providers, s)[..n]))
  }

  /** The miners of a new database; Applied's ledger is not used on the way, only its error. With
      enough targets but too few fitting ones the result is the error of the last target, which
      may be NoErr: the transaction then counts as done without any effect. */
  datatype Match = Miners(miners: seq<Miner>) | Stop(err: Err)

  ghost function MatchMiners(rank: Rank, l: Ledger, t: Body, a: Address): Match
    requires t.CreateDatabase?
  {
    var picked := PickTargets(l, t, a, t.nodes, 0, Picked([], NoErr));
    if |picked.miners| >= t.nodes then Miners(picked.miners)
    else if |t.targets| >= t.nodes then Stop(picked.err)
    else
      match FilterMiners(rank, l, t, a, t.nodes - |picked.miners|)
      case None => Stop(NoEnoughMiner)
      case Some(more) => Miners(picked.miners + more)
  }

  function MinerAddresses(miners: seq<Miner>): set<Address> {
    set m | m in miners :: m.address
  }

  function NewProfile(t: Body, a: Address, miners: seq<Miner>, minAdvance: u64): Profile
    requires t.CreateDatabase?
  {
    Profile(t.price, 0, Particle, a, miners, [DbUser(a, ADMIN, t.advancePayment, 0, minAdvance, Normal)])
  }

  /** How ties fall for this request. */
  function RankOf(cfg: Config, l: Ledger, key: nat, nonce: nat, t: Body): Rank {
    cfg.ties(key, nonce, t, l.providers)
  }

  ghost function MatchProvidersWithUser(cfg: Config, l: Ledger, key: nat, nonce: nat, t: Body): Applied
    requires t.CreateDatabase?
  {
    var a := User(key);
    var minAdvance := MinDeposit(cfg, t.price, t.nodes);
    if a != t.owner then Applied(l, InvalidSender)
    else if t.price == 0 then Applied(l, InvalidGasPrice)
    else if t.nodes == 0 then Applied(l, InvalidMinerCount)
    else if t.advancePayment < minAdvance then Applied(l, InsufficientAdvancePayment)
    else
      match MatchMiners(RankOf(cfg, l, key, nonce, t), l, t, a)
      case Stop(e) => Applied(l, e)
      case Miners(miners) =>
        match SafeAdd(minAdvance, t.advancePayment)
        case None => Applied(l, BalanceOverflow)
        case Some(all) =>
          var d := Decrease(l, a, all, t.payToken);
          if !d.err.NoErr? then d
          else CreateProfile(d.ledger, Database(a, nonce), NewProfile(t, a, miners, minAdvance))
  }

  function CreateProfile(l: Ledger, db: Address, p: Profile): Applied {
    if db in l.databases then Applied(l, DatabaseExists)
    else Applied(Ledger(l.accounts[db := EmptyAccount], l.databases[db := p],
                        l.providers - MinerAddresses(p.miners)), NoErr)
  }

  // ---------------------------------------------------------------- permissions and keys

  function CountSuper(users: seq<DbUser>): nat {
    if users == [] then 0 else (if users[0].permission.Super() then 1 else 0) + CountSuper(users[1..])
  }

  /** Position of the last user with address a, -1 if there is none. */
  function FindLastUser(users: seq<DbUser>, a: Address): (i: int)
    ensures -1 <= i < |users|
  {
    if users == [] then -1
    else if users[|users| - 1].address == a then |users| - 1
    else FindLastUser(users[..|users| - 1], a)
  }

  predicate Denied(users: seq<DbUser>, a: Address) {
    exists i :: 0 <= i < |users| && users[i].address == a && !users[i].permission.Super()
  }

  function ApplyPermission(l: Ledger, key: nat, t: Body): Applied
    requires t.UpdatePermission?
  {
    var a := User(key);
    if t.target !in l.databases then Applied(l, DatabaseNotFound)
    else
      var p := l.databases[t.target];
      if Denied(p.users, a) then Applied(l, PermissionDeny)
      else if CountSuper(p.users) <= 1 && t.targetUser == a && !t.permission.Super() then Applied(l, NoSuperUserLeft)
      else
        var i := FindLastUser(p.users, t.targetUser);
        var users := if i < 0 then p.users + [DbUser(t.targetUser, t.permission, 0, 0, 0, Unknown)]
                     else p.users[i := p.users[i].(permission := t.permission)];
        Applied(l.(databases := l.databases[t.target := p.(users := users)]), NoErr)
  }

  /** Keys are issued on a copy of the profile that is never stored. */
  function ApplyKeys(l: Ledger, key: nat, t: Body): Applied
    requires t.IssueKeys?
  {
    var a := User(key);
    if t.database !in l.databases then Applied(l, DatabaseNotFound)
    else
      var users := l.databases[t.database].users;
      var i := FindUser(users, a);
      if i < |users| && !users[i].permission.Super() then Applied(l, PermissionDeny) else Applied(l, NoErr)
  }

  // ---------------------------------------------------------------- billing

  /** Cost reported for user a: the last entry wins. */
  function CostOf(costs: seq<UserCost>, a: Address): u64 {
    if costs == [] then 0
    else if costs[|costs| - 1].user == a then costs[|costs| - 1].cost
    else CostOf(costs[..|costs| - 1], a)
  }

  function IncomeIn(incomes: seq<MinerIncome>, m: Address, start: u64): u64 {
    if incomes == [] then start
    else
      var s := IncomeIn(incomes[..|incomes| - 1], m, start);
      var last := incomes[|incomes| - 1];
      if last.miner == m then Add(s, last.income) else s
  }

  /** Income reported for miner m from user a: all entries add up. */
  function IncomeOf(costs: seq<UserCost>, a: Address, m: Address): u64 {
    if costs == [] then 0
    else
      var s := IncomeOf(costs[..|costs| - 1], a, m);
      var last := costs[|costs| - 1];
      if last.user == a then IncomeIn(last.miners, m, s) else s
  }

  function AddArrears(arrears: seq<UserArrears>, a: Address, diff: u64): seq<UserArrears> {
    if forall i :: 0 <= i < |arrears| ==> arrears[i].user != a then arrears + [UserArrears(a, diff)]
    else RaiseArrears(arrears, a, diff)
  }

  function RaiseArrears(arrears: seq<UserArrears>, a: Address, diff: u64): (r: seq<UserArrears>)
    ensures |r| == |arrears|
  {
    if arrears == [] then []
    else RaiseArrears(arrears[..|arrears| - 1], a, diff) +
         [if arrears[|arrears| - 1].user == a then UserArrears(a, Add(arrears[|arrears| - 1].amount, diff))
          else arrears[|arrears| - 1]]
  }

  /** How many arrears entries of user a a miner gets raised or added. */
  function ArrearsEntries(arrears: seq<UserArrears>, a: Address): nat {
    if arrears == [] then 0
    else (if arrears[|arrears| - 1].user == a then 1 else 0) + ArrearsEntries(arrears[..|arrears| - 1], a)
  }

  function PayFull(costs: seq<UserCost>, gas: u64, u: DbUser, m: Miner): Miner {
    m.(pending := Add(m.pending, Mul(IncomeOf(costs, u.address, m.address), gas)))
  }

  /** The paid share of an income when the advance payment covers only part of the cost. */
  function Share(income: u64, advance: u64, cost: u64): (s: u64)
    requires advance < cost
    ensures s <= income && s * cost <= income * advance < (s + 1) * cost
  {
    Fraction(income, advance, cost)
  }

  /** a * b / c, rounded down. */
  function Fraction(a: nat, b: nat, c: nat): (r: nat)
    requires b < c
    ensures r * c <= a * b < (r + 1) * c && r <= a
  {
    var r := Floor(a * b, c);
    FloorFits(a, b, c, r);
    r
  }

  function Floor(p: nat, c: nat): (r: nat)
    requires c > 0
    ensures p == r * c + p % c
  {
    p / c
  }

  lemma FloorFits(a: nat, b: nat, c: nat, r: nat)
    requires b < c && a * b == r * c + (a * b) % c
    ensures r * c <= a * b < (r + 1) * c && r <= a
  {
    assert (r + 1) * c == r * c + c;
    assert a * b <= a * c by { MulMono(a, b, c); }
    if r > a {
      MulMono(c, a + 1, r);
      assert false;
    }
  }

  lemma MulMono(k: nat, x: nat, y: nat)
    requires x <= y
    ensures k * x <= k * y
  {
    assert k * y == k * x + k * (y - x);
  }

  datatype Billed = Billed(user: DbUser, miners: seq<Miner>)

  /** One miner served by a user who cannot pay in full; the unpaid part becomes arrears on both
      sides. */
  function PayShare(costs: seq<UserCost>, gas: u64, u: DbUser, advance: u64, cost: u64, m: Miner): Miner
    requires advance < cost
  {
    var income := Mul(IncomeOf(costs, u.address, m.address), gas);
    var paid := Share(income, advance, cost);
    m.(pending := Add(m.pending, paid), arrears := AddArrears(m.arrears, u.address, income - paid))
  }

  function ShareArrears(costs: seq<UserCost>, gas: u64, u: DbUser, advance: u64, cost: u64, m: Miner): u64
    requires advance < cost
  {
    var income := Mul(IncomeOf(costs, u.address, m.address), gas);
    var diff := income - Share(income, advance, cost);
    var n := ArrearsEntries(m.arrears, u.address);
    if n == 0 then diff else TimesWrap(diff, n)
  }

  /** diff added n times. */
  function TimesWrap(diff: u64, n: nat): u64 {
    if n == 0 then 0 else Add(TimesWrap(diff, n - 1), diff)
  }

  function PayFullAll(costs: seq<UserCost>, gas: u64, u: DbUser, miners: seq<Miner>): (r: seq<Miner>)
    ensures |r| == |miners| && forall i :: 0 <= i < |r| ==> r[i] == PayFull(costs, gas, u, miners[i])
  {
    if miners == [] then []
    else PayFullAll(costs, gas, u, miners[..|miners| - 1]) + [PayFull(costs, gas, u, miners[|miners| - 1])]
  }

  function PayShareAll(costs: seq<UserCost>, gas: u64, u: DbUser, advance: u64, cost: u64,
      miners: seq<Miner>): (r: seq<Miner>)
    requires advance < cost
    ensures |r| == |miners| && forall i :: 0 <= i < |r| ==> r[i] == PayShare(costs, gas, u, advance, cost, miners[i])
  {
    if miners == [] then []
    else PayShareAll(costs, gas, u, advance, cost, miners[..|miners| - 1]) +
         [PayShare(costs, gas, u, advance, cost, miners[|miners| - 1])]
  }

  function ArrearsAll(costs: seq<UserCost>, gas: u64, u: DbUser, advance: u64, cost: u64, miners: seq<Miner>,
      start: u64): u64
    requires advance < cost
  {
    if miners == [] then start
    else Add(ArrearsAll(costs, gas, u, advance, cost, miners[..|miners| - 1], start),
             ShareArrears(costs, gas, u, advance, cost, miners[|miners| - 1]))
  }

  function BillUser(costs: seq<UserCost>, gas: u64, u: DbUser, miners: seq<Miner>): Billed {
    var cost := Mul(CostOf(costs, u.address), gas);
    if u.advance >= cost then
      Billed(u.(advance := u.advance - cost), PayFullAll(costs, gas, u, miners))
    else
      Billed(u.(advance := 0, status := InArrears,
                arrears := ArrearsAll(costs, gas, u, u.advance, cost, miners, u.arrears)),
             PayShareAll(costs, gas, u, u.advance, cost, miners))
  }

  datatype BilledAll = BilledAll(users: seq<DbUser>, miners: seq<Miner>)

  function BillUsers(costs: seq<UserCost>, gas: u64, users: seq<DbUser>, miners: seq<Miner>): (r: BilledAll)
    ensures |r.users| == |users|
  {
    if users == [] then BilledAll([], miners)
    else
      var before := BillUsers(costs, gas, users[..|users| - 1], miners);
      var b := BillUser(costs, gas, users[|users| - 1], before.miners);
      BilledAll(before.users + [b.user], b.miners)
  }

  /** Pending income becomes received when the next bill arrives. */
  function Receive(miners: seq<Miner>): (r: seq<Miner>)
    ensures |r| == |miners|
    ensures forall i :: 0 <= i < |r| ==>
      r[i] == miners[i].(received := Add(miners[i].received, miners[i].pending), pending := 0)
  {
    if miners == [] then []
    else [miners[0].(received := Add(miners[0].received, miners[0].pending), pending := 0)] + Receive(miners[1..])
  }

  function ApplyBilling(l: Ledger, key: nat, t: Body): Applied
    requires t.UpdateBilling?
  {
    if t.billed !in l.databases then Applied(l, DatabaseNotFound)
    else
      var p := l.databases[t.billed];
      if t.version > 0 && (t.from >= t.to || p.lastUpdated != t.from) then Applied(l, InvalidRange)
      else if p.gasPrice == 0 then Applied(l, NoErr)
      else if forall i :: 0 <= i < |p.miners| ==> p.miners[i].address != User(key) then Applied(l, InvalidSender)
      else
        var b := BillUsers(t.costs, p.gasPrice, p.users, Receive(p.miners));
        Applied(l.(databases := l.databases[t.billed :=
                     p.(lastUpdated := t.to, users := b.users, miners := b.miners)]), NoErr)
  }

  // ---------------------------------------------------------------- transactions

  ghost function ApplyBody(cfg: Config, l: Ledger, tx: Tx, height: nat): Applied {
    match tx.body
    case Transfer(_, _, _, _) =>
      var r := TransferToDatabase(cfg, l, tx.key, tx.body);
      if r.err.DatabaseNotFound? then TransferAccountToken(l, tx.key, tx.body) else r
    case ProvideService(_, _, _, _, _, _) => UpdateProviderList(cfg, l, tx.key, tx.body, height)
    case CreateDatabase(_, _, _, _, _, _, _, _, _) =>
      MatchProvidersWithUser(cfg, l, tx.key, tx.nonce, tx.body)
    case UpdatePermission(_, _, _) => ApplyPermission(l, tx.key, tx.body)
    case IssueKeys(_) => ApplyKeys(l, tx.key, tx.body)
    case UpdateBilling(_, _, _, _, _) => ApplyBilling(l, tx.key, tx.body)
  }

  function IncreaseNonce(l: Ledger, a: Address): Applied {
    if a !in l.accounts then Applied(l, AccountNotFound)
    else Applied(SetAccount(l, a, l.accounts[a].(nextNonce := l.accounts[a].nextNonce + 1)), NoErr)
  }

  /** A transaction on the ledger: nonce check, effect, nonce. */
  ghost function Apply(cfg: Config, l: Ledger, tx: Tx, height: nat): Applied {
    if tx.Sender() !in l.accounts then Applied(l, AccountNotFound)
    else if l.accounts[tx.Sender()].nextNonce != tx.nonce then Applied(l, InvalidNonce)
    else
      var r := ApplyBody(cfg, l, tx, height);
      if r.err.NoErr? then IncreaseNonce(r.ledger, tx.Sender()) else r
  }
}
