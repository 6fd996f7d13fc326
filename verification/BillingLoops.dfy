/** The loops of the billing code, each proved to compute its ledger function. */
module BillingLoops {
  import opened LedgerTypes
  import opened Transactions

  // ---------------------------------------------------------------- reported costs

  /** A missing entry of a map of amounts reads as zero. */
  function Get(m: map<Address, u64>, a: Address): u64 {
    if a in m then m[a] else 0
  }

  function Income(m: map<Address, map<Address, u64>>, a: Address, b: Address): u64 {
    if a in m then Get(m[a], b) else 0
  }

  method AddIncomes(start: map<Address, u64>, incomes: seq<MinerIncome>) returns (r: map<Address, u64>)
    ensures forall m :: Get(r, m) == IncomeIn(incomes, m, Get(start, m))
  {
    r := start;
    for k := 0 to |incomes|
      invariant forall m :: Get(r, m) == IncomeIn(incomes[..k], m, Get(start, m))
    {
      assert incomes[..k + 1][..k] == incomes[..k];
      r := r[incomes[k].miner := Add(Get(r, incomes[k].miner), incomes[k].income)];
    }
    assert incomes[..|incomes|] == incomes;
  }

  /** The reported costs by user, and the reported incomes by user and miner. */
  method CollectCosts(costs: seq<UserCost>) returns (costMap: map<Address, u64>,
      userMap: map<Address, map<Address, u64>>)
    ensures forall a :: Get(costMap, a) == CostOf(costs, a)
    ensures forall a, m :: Income(userMap, a, m) == IncomeOf(costs, a, m)
  {
    costMap, userMap := map[], map[];
    for k := 0 to |costs|
      invariant forall a :: Get(costMap, a) == CostOf(costs[..k], a)
      invariant forall a, m :: Income(userMap, a, m) == IncomeOf(costs[..k], a, m)
    {
      assert costs[..k + 1][..k] == costs[..k];
      var c := costs[k];
      costMap := costMap[c.user := c.cost];
      var inner := if c.user in userMap then userMap[c.user] else map[];
      ghost var before := userMap;
      assert forall m :: Get(inner, m) == Income(before, c.user, m);
      inner := AddIncomes(inner, c.miners);
      userMap := userMap[c.user := inner];
    }
    assert costs[..|costs|] == costs;
  }

  // ---------------------------------------------------------------- arrears of one miner

  lemma AddAssoc(x: u64, y: u64, z: u64)
    ensures Add(Add(x, y), z) == Add(x, Add(y, z))
  {}

  lemma {:induction false} RaiseSnoc(arrears: seq<UserArrears>, k: nat, a: Address, diff: u64)
    requires k < |arrears|
    ensures RaiseArrears(arrears[..k + 1], a, diff) == RaiseArrears(arrears[..k], a, diff) +
      [if arrears[k].user == a then UserArrears(a, Add(arrears[k].amount, diff)) else arrears[k]]
    ensures ArrearsEntries(arrears[..k + 1], a) ==
      ArrearsEntries(arrears[..k], a) + if arrears[k].user == a then 1 else 0
  {
    assert arrears[..k + 1][..k] == arrears[..k];
  }

  lemma {:induction false} EntriesZero(arrears: seq<UserArrears>, a: Address)
    ensures ArrearsEntries(arrears, a) == 0 <==> forall i :: 0 <= i < |arrears| ==> arrears[i].user != a
  {
    if arrears != [] { EntriesZero(arrears[..|arrears| - 1], a); }
  }

  /** What n raises by diff add to the user's arrears. */
  function Raised(start: u64, diff: u64, n: nat): u64 {
    Add(start, TimesWrap(diff, n))
  }

  lemma RaisedStep(start: u64, diff: u64, n: nat)
    ensures Raised(start, diff, 0) == start
    ensures Raised(start, diff, n + 1) == Add(Raised(start, diff, n), diff)
  {
    AddAssoc(start, TimesWrap(diff, n), diff);
  }

  /** Raises the entries of user a; total counts every raise on the user's side. */
  method RaiseExisting(arrears: seq<UserArrears>, a: Address, diff: u64, start: u64)
    returns (r: seq<UserArrears>, total: u64, exist: bool)
    ensures r == RaiseArrears(arrears, a, diff)
    ensures total == Raised(start, diff, ArrearsEntries(arrears, a)) && (exist <==> ArrearsEntries(arrears, a) != 0)
  {
    r, total, exist := arrears, start, false;
    RaisedStep(start, diff, 0);
    for k := 0 to |arrears|
      invariant |r| == |arrears|
      invariant forall j :: k <= j < |r| ==> r[j] == arrears[j]
      invariant r[..k] == RaiseArrears(arrears[..k], a, diff)
      invariant exist <==> ArrearsEntries(arrears[..k], a) != 0
      invariant total == Raised(start, diff, ArrearsEntries(arrears[..k], a))
    {
      RaiseSnoc(arrears, k, a, diff);
      RaisedStep(start, diff, ArrearsEntries(arrears[..k], a));
      if r[k].user == a {
        exist := true;
        r := r[k := UserArrears(a, Add(r[k].amount, diff))];
        total := Add(total, diff);
      }
      assert r[..k + 1] == r[..k] + [r[k]];
    }
    assert arrears[..|arrears|] == arrears && r[..|r|] == r;
  }

  /** Raises the entries of user a, or adds one. */
  method RaiseEntries(arrears: seq<UserArrears>, a: Address, diff: u64, start: u64) returns (r: seq<UserArrears>,
      total: u64)
    ensures r == AddArrears(arrears, a, diff)
    ensures total ==
      Add(start, if ArrearsEntries(arrears, a) == 0 then diff else TimesWrap(diff, ArrearsEntries(arrears, a)))
  {
    var exist;
    r, total, exist := RaiseExisting(arrears, a, diff, start);
    EntriesZero(arrears, a);
    if !exist {
      RaiseNone(arrears, a, diff);
      r, total := r + [UserArrears(a, diff)], Add(total, diff);
    }
  }

  lemma {:induction false} RaiseNone(arrears: seq<UserArrears>, a: Address, diff: u64)
    requires forall i :: 0 <= i < |arrears| ==> arrears[i].user != a
    ensures RaiseArrears(arrears, a, diff) == arrears
  {
    if arrears != [] { RaiseNone(arrears[..|arrears| - 1], a, diff); }
  }

  // ---------------------------------------------------------------- one user

  method PayAll(userMap: map<Address, map<Address, u64>>, gas: u64, u: DbUser, miners: seq<Miner>,
      ghost costs: seq<UserCost>)
    returns (r: seq<Miner>)
    requires forall a, m :: Income(userMap, a, m) == IncomeOf(costs, a, m)
    ensures r == PayFullAll(costs, gas, u, miners)
  {
    r := miners;
    for k := 0 to |miners|
      invariant |r| == |miners|
      invariant forall j :: 0 <= j < |r| ==> r[j] == if j < k then PayFull(costs, gas, u, miners[j]) else miners[j]
    {
      r := r[k := r[k].(pending := Add(r[k].pending, Mul(Income(userMap, u.address, r[k].address), gas)))];
    }
  }

  lemma {:induction false} ArrearsSnoc(costs: seq<UserCost>, gas: u64, u: DbUser, advance: u64, cost: u64,
      miners: seq<Miner>, k: nat, start: u64)
    requires advance < cost && k < |miners|
    ensures ArrearsAll(costs, gas, u, advance, cost, miners[..k + 1], start) ==
      Add(ArrearsAll(costs, gas, u, advance, cost, miners[..k], start),
        ShareArrears(costs, gas, u, advance, cost, miners[k]))
  {
    assert miners[..k + 1][..k] == miners[..k];
  }

  method PayMinerShare(userMap: map<Address, map<Address, u64>>, gas: u64, u: DbUser, cost: u64, m: Miner, start: u64,
                       ghost costs: seq<UserCost>)
    returns (r: Miner, arrears: u64)
    requires forall a, b :: Income(userMap, a, b) == IncomeOf(costs, a, b)
    requires u.advance < cost
    ensures r == PayShare(costs, gas, u, u.advance, cost, m)
    ensures arrears == Add(start, ShareArrears(costs, gas, u, u.advance, cost, m))
  {
    var income := Mul(Income(userMap, u.address, m.address), gas);
    var paid := Share(income, u.advance, cost);
    var entries;
    entries, arrears := RaiseEntries(m.arrears, u.address, income - paid, start);
    r := m.(pending := Add(m.pending, paid), arrears := entries);
  }

  method PayShares(userMap: map<Address, map<Address, u64>>, gas: u64, u: DbUser, cost: u64, miners: seq<Miner>,
      ghost costs: seq<UserCost>)
    returns (r: seq<Miner>, arrears: u64)
    requires forall a, m :: Income(userMap, a, m) == IncomeOf(costs, a, m)
    requires u.advance < cost
    ensures r == PayShareAll(costs, gas, u, u.advance, cost, miners)
    ensures arrears == ArrearsAll(costs, gas, u, u.advance, cost, miners, u.arrears)
  {
    r, arrears := miners, u.arrears;
    for k := 0 to |miners|
      invariant |r| == |miners|
      invariant forall j :: 0 <= j < |r| ==>
        r[j] == if j < k then PayShare(costs, gas, u, u.advance, cost, miners[j]) else miners[j]
      invariant arrears == ArrearsAll(costs, gas, u, u.advance, cost, miners[..k], u.arrears)
    {
      ArrearsSnoc(costs, gas, u, u.advance, cost, miners, k, u.arrears);
      var m;
      m, arrears := PayMinerShare(userMap, gas, u, cost, r[k], arrears, costs);
      r := r[k := m];
    }
    assert miners[..|miners|] == miners;
  }

  method ChargeUser(costMap: map<Address, u64>, userMap: map<Address, map<Address, u64>>, gas: u64, u: DbUser,
      miners: seq<Miner>,
                    ghost costs: seq<UserCost>)
    returns (v: DbUser, r: seq<Miner>)
    requires forall a :: Get(costMap, a) == CostOf(costs, a)
    requires forall a, m :: Income(userMap, a, m) == IncomeOf(costs, a, m)
    ensures Billed(v, r) == BillUser(costs, gas, u, miners)
  {
    var cost := Mul(Get(costMap, u.address), gas);
    if u.advance >= cost {
      v := u.(advance := u.advance - cost);
      r := PayAll(userMap, gas, u, miners, costs);
    } else {
      var arrears;
      r, arrears := PayShares(userMap, gas, u, cost, miners, costs);
      v := u.(advance := 0, status := InArrears, arrears := arrears);
    }
  }

  // ---------------------------------------------------------------- all users

  lemma {:induction false} BillSnoc(costs: seq<UserCost>, gas: u64, users: seq<DbUser>, k: nat, miners: seq<Miner>)
    requires k < |users|
    ensures var before := BillUsers(costs, gas, users[..k], miners);
      var b := BillUser(costs, gas, users[k], before.miners);
      BillUsers(costs, gas, users[..k + 1], miners) == BilledAll(before.users + [b.user], b.miners)
  {
    assert users[..k + 1][..k] == users[..k];
  }

  method ChargeUsers(costs: seq<UserCost>, gas: u64, users: seq<DbUser>, miners: seq<Miner>)
    returns (us: seq<DbUser>, ms: seq<Miner>)
    ensures BilledAll(us, ms) == BillUsers(costs, gas, users, miners)
  {
    var costMap, userMap := CollectCosts(costs);
    us, ms := [], miners;
    for k := 0 to |users|
      invariant BilledAll(us, ms) == BillUsers(costs, gas, users[..k], miners)
    {
      BillSnoc(costs, gas, users, k, miners);
      var v;
      v, ms := ChargeUser(costMap, userMap, gas, users[k], ms, costs);
      us := us + [v];
    }
    assert users[..|users|] == users;
  }

  /** Pending income becomes received; tells whether the sender is one of the miners. */
  method ReceiveIncome(miners: seq<Miner>, sender: Address) returns (r: seq<Miner>, isMiner: bool)
    ensures r == Receive(miners)
    ensures isMiner <==> exists i :: 0 <= i < |miners| && miners[i].address == sender
  {
    r, isMiner := miners, false;
    for k := 0 to |miners|
      invariant |r| == |miners|
      invariant forall j :: 0 <= j < k ==>
        r[j] == miners[j].(received := Add(miners[j].received, miners[j].pending), pending := 0)
      invariant forall j :: k <= j < |r| ==> r[j] == miners[j]
      invariant isMiner <==> exists i :: 0 <= i < k && miners[i].address == sender
    {
      isMiner := isMiner || r[k].address == sender;
      r := r[k := r[k].(received := Add(r[k].received, r[k].pending), pending := 0)];
    }
  }
}
