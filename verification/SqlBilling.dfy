/** The bill a database chain draws up: a walk back along its head chain that adds up rows per user
    and per miner, and what the bill says about the blocks in its range. */
module SqlBilling {
  import opened Common
  import opened LedgerTypes
  import opened Transactions
  import opened BillingLoops
  import opened TokenSupply
  import opened TokenFlows
  import opened BillingSupply

  /** A request answered by a miner: rows read or rows affected. */
  datatype Query = Query(user: Address, miner: Address, rows: u64)

  /** A failed request, charged by its number of queries and earned by the block's producer. */
  datatype Failed = Failed(user: Address, queries: u64)

  datatype SqlBlock = SqlBlock(producer: Address, queries: seq<Query>, failed: seq<Failed>)

  datatype SqlNode = SqlNode(parent: Option<SqlNode>, height: nat, block: SqlBlock)

  datatype Bill = Bill(users: map<Address, u64>, miners: map<Address, map<Address, u64>>)

  // ---------------------------------------------------------------- one entry

  function Plus(m: map<Address, u64>, a: Address, x: u64): map<Address, u64> {
    m[a := Add(Get(m, a), x)]
  }

  function Inner(m: map<Address, map<Address, u64>>, a: Address): map<Address, u64> {
    if a in m then m[a] else map[]
  }

  function AddQuery(b: Bill, q: Query): Bill {
    Bill(Plus(b.users, q.user, q.rows), b.miners[q.user := Plus(Inner(b.miners, q.user), q.miner, q.rows)])
  }

  /** A failed request starts the user's incomes afresh unless the producer already has one. */
  function AddFailed(b: Bill, producer: Address, f: Failed): Bill {
    var inner := if producer in Inner(b.miners, f.user) then Inner(b.miners, f.user) else map[];
    Bill(Plus(b.users, f.user, f.queries), b.miners[f.user := Plus(inner, producer, f.queries)])
  }

  function AddQueries(b: Bill, qs: seq<Query>): Bill {
    if qs == [] then b else AddQuery(AddQueries(b, qs[..|qs| - 1]), qs[|qs| - 1])
  }

  function AddAllFailed(b: Bill, producer: Address, fs: seq<Failed>): Bill {
    if fs == [] then b else AddFailed(AddAllFailed(b, producer, fs[..|fs| - 1]), producer, fs[|fs| - 1])
  }

  function AddBlock(b: Bill, k: SqlBlock): Bill {
    AddAllFailed(AddQueries(b, k.queries), k.producer, k.failed)
  }

  // ---------------------------------------------------------------- the walk

  /** The newest node not above h. */
  function Skip(n: Option<SqlNode>, h: nat): Option<SqlNode> {
    if n.None? || n.value.height <= h then n else Skip(n.value.parent, h)
  }

  /** All nodes from n back to the first one at or below low, newest first. */
  function Walked(n: Option<SqlNode>, low: nat): seq<SqlNode> {
    if n.None? || n.value.height <= low then [] else [n.value] + Walked(n.value.parent, low)
  }

  function AddBlocks(b: Bill, ns: seq<SqlNode>): Bill
    decreases |ns|
  {
    if ns == [] then b else AddBlocks(AddBlock(b, ns[0].block), ns[1..])
  }

  const EMPTY := Bill(map[], map[])

  method CollectQueries(b: Bill, qs: seq<Query>) returns (r: Bill)
    ensures r == AddQueries(b, qs)
  {
    r := b;
    for i := 0 to |qs|
      invariant r == AddQueries(b, qs[..i])
    {
      assert qs[..i + 1][..i] == qs[..i];
      var q := qs[i];
      var inner := if q.user in r.miners then r.miners[q.user] else map[];
      r := Bill(Plus(r.users, q.user, q.rows), r.miners[q.user := Plus(inner, q.miner, q.rows)]);
    }
    assert qs[..|qs|] == qs;
  }

  method CollectFailed(b: Bill, producer: Address, fs: seq<Failed>) returns (r: Bill)
    ensures r == AddAllFailed(b, producer, fs)
  {
    r := b;
    for i := 0 to |fs|
      invariant r == AddAllFailed(b, producer, fs[..i])
    {
      assert fs[..i + 1][..i] == fs[..i];
      var f := fs[i];
      var inner := if f.user in r.miners && producer in r.miners[f.user] then r.miners[f.user] else map[];
      r := Bill(Plus(r.users, f.user, f.queries), r.miners[f.user := Plus(inner, producer, f.queries)]);
    }
    assert fs[..|fs|] == fs;
  }

  /** The bill for the blocks above low up to h on the chain of n. */
  method Billing(n: SqlNode, h: nat, low: nat) returns (b: Bill)
    ensures b == AddBlocks(EMPTY, Walked(Skip(Some(n), h), low))
  {
    var iter := Some(n);
    while iter.Some? && iter.value.height > h
      invariant Skip(iter, h) == Skip(Some(n), h)
      decreases iter
    {
      iter := iter.value.parent;
    }
    ghost var start := iter;
    assert start == Skip(Some(n), h);
    b := EMPTY;
    while iter.Some? && iter.value.height > low
      invariant AddBlocks(b, Walked(iter, low)) == AddBlocks(EMPTY, Walked(start, low))
      decreases iter
    {
      assert Walked(iter, low)[1..] == Walked(iter.value.parent, low);
      var k := iter.value.block;
      b := CollectQueries(b, k.queries);
      b := CollectFailed(b, k.producer, k.failed);
      iter := iter.value.parent;
    }
  }

  // ---------------------------------------------------------------- what is billed

  function QueryRows(qs: seq<Query>, u: Address): nat {
    if qs == [] then 0
    else QueryRows(qs[..|qs| - 1], u) + if qs[|qs| - 1].user == u then qs[|qs| - 1].rows else 0
  }

  function FailedRows(fs: seq<Failed>, u: Address): nat {
    if fs == [] then 0
    else FailedRows(fs[..|fs| - 1], u) + if fs[|fs| - 1].user == u then fs[|fs| - 1].queries else 0
  }

  function BlockRows(k: SqlBlock, u: Address): nat {
    QueryRows(k.queries, u) + FailedRows(k.failed, u)
  }

  /** What user u is to be charged for the blocks of the chain of n with heights in (low, h]. */
  function RangeRows(n: Option<SqlNode>, low: nat, h: nat, u: Address): nat {
    if n.None? then 0
    else RangeRows(n.value.parent, low, h, u) + if low < n.value.height <= h then BlockRows(n.value.block, u) else 0
  }

  ghost predicate Ascending(n: SqlNode) {
    n.parent.Some? ==> n.parent.value.height < n.height && Ascending(n.parent.value)
  }

  function NodesRows(ns: seq<SqlNode>, u: Address): nat {
    if ns == [] then 0 else BlockRows(ns[0].block, u) + NodesRows(ns[1..], u)
  }

  lemma {:induction false} BelowRange(n: Option<SqlNode>, low: nat, h: nat, u: Address)
    requires n.Some? ==> Ascending(n.value) && n.value.height <= low
    ensures RangeRows(n, low, h, u) == 0
    decreases n
  {
    if n.Some? { BelowRange(n.value.parent, low, h, u); }
  }

  lemma {:induction false} WalkedRows(n: Option<SqlNode>, low: nat, h: nat, u: Address)
    requires n.Some? ==> Ascending(n.value) && n.value.height <= h
    ensures NodesRows(Walked(n, low), u) == RangeRows(n, low, h, u)
    decreases n
  {
    if n.Some? && n.value.height > low {
      assert Walked(n, low)[1..] == Walked(n.value.parent, low);
      WalkedRows(n.value.parent, low, h, u);
    } else if n.Some? {
      BelowRange(n, low, h, u);
    }
  }

  lemma {:induction false} SkipRows(n: Option<SqlNode>, low: nat, h: nat, u: Address)
    requires n.Some? ==> Ascending(n.value)
    ensures RangeRows(Skip(n, h), low, h, u) == RangeRows(n, low, h, u)
    ensures Skip(n, h).Some? ==> Ascending(Skip(n, h).value) && Skip(n, h).value.height <= h
    decreases n
  {
    if n.Some? && n.value.height > h { SkipRows(n.value.parent, low, h, u); }
  }

  // ---------------------------------------------------------------- user costs

  lemma ModAdd(x: nat, y: nat)
    ensures (x % LIMIT + y) % LIMIT == (x + y) % LIMIT
  {}

  lemma PlusGet(m: map<Address, u64>, a: Address, x: u64, u: Address)
    ensures Get(Plus(m, a, x), u) == if a == u then Add(Get(m, u), x) else Get(m, u)
  {}

  /** Each entry adds its rows to the cost of its user. */
  lemma {:induction false} QueriesCost(b: Bill, qs: seq<Query>, u: Address)
    ensures Get(AddQueries(b, qs).users, u) == (Get(b.users, u) + QueryRows(qs, u)) % LIMIT
  {
    if qs != [] {
      var init, q := qs[..|qs| - 1], qs[|qs| - 1];
      QueriesCost(b, init, u);
      PlusGet(AddQueries(b, init).users, q.user, q.rows, u);
      ModAdd(Get(b.users, u) + QueryRows(init, u), q.rows);
    }
  }

  lemma {:induction false} FailedCost(b: Bill, p: Address, fs: seq<Failed>, u: Address)
    ensures Get(AddAllFailed(b, p, fs).users, u) == (Get(b.users, u) + FailedRows(fs, u)) % LIMIT
  {
    if fs != [] {
      var init, f := fs[..|fs| - 1], fs[|fs| - 1];
      FailedCost(b, p, init, u);
      PlusGet(AddAllFailed(b, p, init).users, f.user, f.queries, u);
      ModAdd(Get(b.users, u) + FailedRows(init, u), f.queries);
    }
  }

  lemma BlockCost(b: Bill, k: SqlBlock, u: Address)
    ensures Get(AddBlock(b, k).users, u) == (Get(b.users, u) + BlockRows(k, u)) % LIMIT
  {
    QueriesCost(b, k.queries, u);
    FailedCost(AddQueries(b, k.queries), k.producer, k.failed, u);
    ModAdd(Get(b.users, u) + QueryRows(k.queries, u), FailedRows(k.failed, u));
  }

  lemma {:induction false} BlocksCost(b: Bill, ns: seq<SqlNode>, u: Address)
    ensures Get(AddBlocks(b, ns).users, u) == (Get(b.users, u) + NodesRows(ns, u)) % LIMIT
    decreases |ns|
  {
    if ns != [] {
      var k := ns[0].block;
      BlockCost(b, k, u);
      BlocksCost(AddBlock(b, k), ns[1..], u);
      ModAdd(Get(b.users, u) + BlockRows(k, u), NodesRows(ns[1..], u));
    }
  }

  /** A user is billed the rows of exactly the blocks on the head chain in the range, modulo 64
      bits. */
  lemma {:induction false} BilledRange(n: SqlNode, h: nat, low: nat, u: Address)
    requires Ascending(n)
    ensures Get(AddBlocks(EMPTY, Walked(Skip(Some(n), h), low)).users, u) == RangeRows(Some(n), low, h, u) % LIMIT
  {
    SkipRows(Some(n), low, h, u);
    WalkedRows(Skip(Some(n), h), low, h, u);
    BlocksCost(EMPTY, Walked(Skip(Some(n), h), low), u);
  }

  /** Adjacent ranges charge no block twice and leave none out. */
  lemma {:induction false} RangesAdd(n: Option<SqlNode>, low: nat, mid: nat, h: nat, u: Address)
    requires low <= mid <= h
    ensures RangeRows(n, low, h, u) == RangeRows(n, low, mid, u) + RangeRows(n, mid, h, u)
    decreases n
  {
    if n.Some? { RangesAdd(n.value.parent, low, mid, h, u); }
  }

  // ---------------------------------------------------------------- miner incomes

  ghost function Total(m: map<Address, u64>): nat {
    Sum(map a | a in m :: m[a])
  }

  lemma PlusTotal(m: map<Address, u64>, a: Address, x: u64)
    requires Get(m, a) + x < LIMIT
    ensures Total(Plus(m, a, x)) == Total(m) + x
  {
    var n: map<Address, nat> := map b | b in m :: m[b];
    SumPut(n, a, Get(m, a) + x);
    assert (map b | b in Plus(m, a, x) :: Plus(m, a, x)[b]) == n[a := Get(m, a) + x];
  }

  lemma GetTotal(m: map<Address, u64>, a: Address)
    ensures Get(m, a) <= Total(m)
  {
    if a in m { SumRemove(map b | b in m :: m[b], a); }
  }

  lemma EmptyTotal()
    ensures Total(map[]) == 0
  {
    var none: map<Address, u64> := map[];
    var sums: map<Address, nat> := map a | a in none :: none[a];
    assert sums.Keys == {};
  }

  /** The miners together earn no more from user u than u is charged. */
  ghost predicate Backed(b: Bill, u: Address) {
    Total(Inner(b.miners, u)) <= Get(b.users, u)
  }

  /** What user u is charged and no miner earns. */
  ghost function Unearned(b: Bill, u: Address): int {
    Get(b.users, u) - Total(Inner(b.miners, u))
  }

  /** The incomes a failed request of user u drops: all recorded so far, if the producer has none
      among them. */
  ghost function Dropped(b: Bill, producer: Address, f: Failed, u: Address): nat {
    if f.user == u && producer !in Inner(b.miners, u) then Total(Inner(b.miners, u)) else 0
  }

  ghost function DroppedAll(b: Bill, producer: Address, fs: seq<Failed>, u: Address): nat {
    if fs == [] then 0
    else
      var init := fs[..|fs| - 1];
      DroppedAll(b, producer, init, u) + Dropped(AddAllFailed(b, producer, init), producer, fs[|fs| - 1], u)
  }

  ghost function DroppedBlocks(b: Bill, ns: seq<SqlNode>, u: Address): nat
    decreases |ns|
  {
    if ns == [] then 0
    else
      var k := ns[0].block;
      DroppedAll(AddQueries(b, k.queries), k.producer, k.failed, u) + DroppedBlocks(AddBlock(b, k), ns[1..], u)
  }

  lemma QueryEarned(b: Bill, q: Query, u: Address)
    requires Backed(b, u) && (q.user == u ==> Get(b.users, u) + q.rows < LIMIT)
    ensures Unearned(AddQuery(b, q), u) == Unearned(b, u)
  {
    if q.user == u {
      GetTotal(Inner(b.miners, u), q.miner);
      PlusTotal(Inner(b.miners, u), q.miner, q.rows);
    }
  }

  lemma FailedEarned(b: Bill, p: Address, f: Failed, u: Address)
    requires Backed(b, u) && (f.user == u ==> Get(b.users, u) + f.queries < LIMIT)
    ensures Unearned(AddFailed(b, p, f), u) == Unearned(b, u) + Dropped(b, p, f, u)
  {
    if f.user == u {
      var inner := if p in Inner(b.miners, u) then Inner(b.miners, u) else map[];
      EmptyTotal();
      GetTotal(inner, p);
      PlusTotal(inner, p, f.queries);
    }
  }

  lemma {:induction false} QueriesEarned(b: Bill, qs: seq<Query>, u: Address)
    requires Backed(b, u) && Get(b.users, u) + QueryRows(qs, u) < LIMIT
    ensures Unearned(AddQueries(b, qs), u) == Unearned(b, u)
  {
    if qs != [] {
      var init := qs[..|qs| - 1];
      QueriesEarned(b, init, u);
      QueriesCost(b, init, u);
      QueryEarned(AddQueries(b, init), qs[|qs| - 1], u);
    }
  }

  lemma {:induction false} AllFailedEarned(b: Bill, p: Address, fs: seq<Failed>, u: Address)
    requires Backed(b, u) && Get(b.users, u) + FailedRows(fs, u) < LIMIT
    ensures Unearned(AddAllFailed(b, p, fs), u) == Unearned(b, u) + DroppedAll(b, p, fs, u)
  {
    if fs != [] {
      var init := fs[..|fs| - 1];
      AllFailedEarned(b, p, init, u);
      FailedCost(b, p, init, u);
      FailedEarned(AddAllFailed(b, p, init), p, fs[|fs| - 1], u);
    }
  }

  lemma {:induction false} BlocksEarned(b: Bill, ns: seq<SqlNode>, u: Address)
    requires Backed(b, u) && Get(b.users, u) + NodesRows(ns, u) < LIMIT
    ensures Unearned(AddBlocks(b, ns), u) == Unearned(b, u) + DroppedBlocks(b, ns, u)
    decreases |ns|
  {
    if ns != [] {
      var k := ns[0].block;
      QueriesEarned(b, k.queries, u);
      QueriesCost(b, k.queries, u);
      AllFailedEarned(AddQueries(b, k.queries), k.producer, k.failed, u);
      BlockCost(b, k, u);
      BlocksEarned(AddBlock(b, k), ns[1..], u);
    }
  }

  /** The bill of a range that fits 64 bits is backed: user u is charged what the miners earn and what
      failed requests dropped. */
  lemma {:induction false} BilledIncome(n: SqlNode, h: nat, low: nat, u: Address)
    requires Ascending(n) && RangeRows(Some(n), low, h, u) < LIMIT
    ensures var ns := Walked(Skip(Some(n), h), low); var b := AddBlocks(EMPTY, ns);
      && Backed(b, u) && Get(b.users, u) == RangeRows(Some(n), low, h, u)
      && Get(b.users, u) == Total(Inner(b.miners, u)) + DroppedBlocks(EMPTY, ns, u)
  {
    BilledRange(n, h, low, u);
    SkipRows(Some(n), low, h, u);
    WalkedRows(Skip(Some(n), h), low, h, u);
    EmptyTotal();
    BlocksEarned(EMPTY, Walked(Skip(Some(n), h), low), u);
  }

  /** Failed request j is one of user u, whose incomes recorded when it comes up are not of the block's
      producer, and drops them. */
  ghost predicate DropsIn(b: Bill, producer: Address, fs: seq<Failed>, j: nat, u: Address) {
    j < |fs| && Dropped(AddAllFailed(b, producer, fs[..j]), producer, fs[j], u) > 0
  }

  lemma {:induction false} DropsInit(b: Bill, p: Address, fs: seq<Failed>, j: nat, u: Address)
    requires j < |fs| - 1
    ensures DropsIn(b, p, fs[..|fs| - 1], j, u) <==> DropsIn(b, p, fs, j, u)
  {
    assert fs[..|fs| - 1][..j] == fs[..j];
  }

  lemma {:induction false} DroppedAllIff(b: Bill, p: Address, fs: seq<Failed>, u: Address)
    ensures DroppedAll(b, p, fs, u) == 0 <==> forall j: nat :: !DropsIn(b, p, fs, j, u)
  {
    if fs != [] {
      var k := |fs| - 1;
      DroppedAllIff(b, p, fs[..k], u);
      forall j: nat | j < k ensures DropsIn(b, p, fs[..k], j, u) <==> DropsIn(b, p, fs, j, u) {
        DropsInit(b, p, fs, j, u);
      }
      assert DroppedAll(b, p, fs, u) == 0 <==> DroppedAll(b, p, fs[..k], u) == 0 && !DropsIn(b, p, fs, k, u);
    }
  }

  /** Failed request j of block i of the walk drops incomes of user u. */
  ghost predicate Drops(b: Bill, ns: seq<SqlNode>, i: nat, j: nat, u: Address) {
    i < |ns| && var k := ns[i].block;
    DropsIn(AddQueries(AddBlocks(b, ns[..i]), k.queries), k.producer, k.failed, j, u)
  }

  lemma {:induction false} DropsRest(b: Bill, ns: seq<SqlNode>, i: nat, j: nat, u: Address)
    requires ns != []
    ensures Drops(b, ns, i + 1, j, u) <==> Drops(AddBlock(b, ns[0].block), ns[1..], i, j, u)
  {
    if i + 1 < |ns| { assert ns[..i + 1][1..] == ns[1..][..i]; }
  }

  lemma {:induction false} DroppedHere(b: Bill, ns: seq<SqlNode>, u: Address)
    requires ns != []
    ensures var k := ns[0].block;
      DroppedAll(AddQueries(b, k.queries), k.producer, k.failed, u) == 0 <==> forall j: nat :: !Drops(b, ns, 0, j, u)
  {
    var k := ns[0].block;
    DroppedAllIff(AddQueries(b, k.queries), k.producer, k.failed, u);
    assert ns[..0] == [] && AddBlocks(b, []) == b;
    forall j: nat ensures Drops(b, ns, 0, j, u) <==> DropsIn(AddQueries(b, k.queries), k.producer, k.failed, j, u) {}
  }

  lemma {:induction false} DroppedBlocksIff(b: Bill, ns: seq<SqlNode>, u: Address)
    ensures DroppedBlocks(b, ns, u) == 0 <==> forall i: nat, j: nat :: !Drops(b, ns, i, j, u)
    decreases |ns|
  {
    if ns != [] {
      var c := AddBlock(b, ns[0].block);
      DroppedHere(b, ns, u);
      DroppedBlocksIff(c, ns[1..], u);
      forall i: nat, j: nat ensures Drops(b, ns, i + 1, j, u) <==> Drops(c, ns[1..], i, j, u) {
        DropsRest(b, ns, i, j, u);
      }
      if forall i: nat, j: nat :: !Drops(b, ns, i, j, u) {
        assert forall i: nat, j: nat :: !Drops(c, ns[1..], i, j, u);
      } else {
        var i: nat, j: nat :| Drops(b, ns, i, j, u);
        if i > 0 { assert Drops(c, ns[1..], i - 1, j, u); }
      }
    }
  }

  /** The bill of a range that fits 64 bits is even, the user charged what the miners earn, exactly if no
      failed request of the user in it drops incomes. */
  lemma {:induction false} BillEvenIff(n: SqlNode, h: nat, low: nat, u: Address)
    requires Ascending(n) && RangeRows(Some(n), low, h, u) < LIMIT
    ensures var ns := Walked(Skip(Some(n), h), low); var b := AddBlocks(EMPTY, ns);
      Get(b.users, u) == Total(Inner(b.miners, u)) <==> forall i: nat, j: nat :: !Drops(EMPTY, ns, i, j, u)
  {
    BilledIncome(n, h, low, u);
    DroppedBlocksIff(EMPTY, Walked(Skip(Some(n), h), low), u);
  }

  /** Miner 1 answers a query of one row; a failed request in a block of miner 2 then drops that
      income, and the user pays for two rows of which one is earned. */
  lemma {:induction false} IncomeDropped(u: Address, one: Address, two: Address) returns (n: SqlNode)
    requires one != two
    ensures Ascending(n) && n.height == 1
    ensures var b := AddBlocks(EMPTY, Walked(Skip(Some(n), 1), 0));
      Get(b.users, u) == 2 && Total(Inner(b.miners, u)) == 1
  {
    var q, f := Query(u, one, 1), Failed(u, 1);
    n := SqlNode(None, 1, SqlBlock(two, [q], [f]));
    assert Walked(Skip(Some(n), 1), 0) == [n];
    var b := AddQuery(EMPTY, q);
    assert AddQueries(EMPTY, []) == EMPTY;
    assert AddQueries(EMPTY, [q]) == b;
    assert AddAllFailed(b, two, []) == b;
    assert AddAllFailed(b, two, [f]) == AddFailed(b, two, f);
    EmptyTotal();
    PlusTotal(map[], two, 1);
  }

  // ---------------------------------------------------------------- the transaction

  /** The incomes of one user as a list, in whatever order the map is walked. */
  method ListIncomes(inner: map<Address, u64>) returns (r: seq<MinerIncome>)
    ensures forall m :: IncomeIn(r, m, 0) == Get(inner, m)
  {
    r := [];
    var left := inner.Keys;
    while left != {}
      invariant left <= inner.Keys
      invariant forall m :: IncomeIn(r, m, 0) == if m in left then 0 else Get(inner, m)
      decreases left
    {
      var m :| m in left;
      ghost var before := r;
      r := r + [MinerIncome(m, inner[m])];
      assert r[..|r| - 1] == before;
      left := left - {m};
    }
  }

  lemma {:induction false} NotListed(costs: seq<UserCost>, a: Address, m: Address)
    requires forall i :: 0 <= i < |costs| ==> costs[i].user != a
    ensures CostOf(costs, a) == 0 && IncomeOf(costs, a, m) == 0
  {
    if costs != [] { NotListed(costs[..|costs| - 1], a, m); }
  }

  /** The transaction says what the bill says. */
  ghost predicate Reports(costs: seq<UserCost>, b: Bill) {
    && (forall a :: CostOf(costs, a) == Get(b.users, a))
    && (forall a, m :: IncomeOf(costs, a, m) == if a in b.users then Income(b.miners, a, m) else 0)
  }

  method ListCosts(b: Bill) returns (costs: seq<UserCost>)
    ensures Reports(costs, b)
  {
    costs := [];
    var left := b.users.Keys;
    while left != {}
      invariant left <= b.users.Keys
      invariant forall i :: 0 <= i < |costs| ==> costs[i].user in b.users && costs[i].user !in left
      invariant forall a :: CostOf(costs, a) == if a in left then 0 else Get(b.users, a)
      invariant forall a, m :: IncomeOf(costs, a, m) == if a in b.users && a !in left then Income(b.miners, a, m) else 0
      decreases left
    {
      var a :| a in left;
      var incomes := ListIncomes(Inner(b.miners, a));
      ghost var before := costs;
      costs := costs + [UserCost(a, b.users[a], incomes)];
      assert costs[..|costs| - 1] == before;
      left := left - {a};
    }
  }

  /** Distinct miners earn at most the total. */
  lemma {:induction false} IncomeRest(costs: seq<UserCost>, gas: u64, u: Address, ms: seq<Miner>,
      inner: map<Address, u64>)
    requires DistinctMiners(ms) && Total(inner) * gas < LIMIT
    requires forall k :: 0 <= k < |ms| ==> IncomeOf(costs, u, ms[k].address) == Get(inner, ms[k].address)
    ensures IncomeSum(costs, gas, u, ms) <= Total(inner) * gas
  {
    if ms != [] {
      var k := |ms| - 1;
      var a := ms[k].address;
      var rest := inner - {a};
      RestPays(inner, a, gas);
      forall j | 0 <= j < k ensures IncomeOf(costs, u, ms[..k][j].address) == Get(rest, ms[..k][j].address) {
        assert ms[j].address != a;
      }
      IncomeRest(costs, gas, u, ms[..k], rest);
    }
  }

  lemma RestPays(m: map<Address, u64>, a: Address, gas: u64)
    requires Total(m) * gas < LIMIT
    ensures Total(m - {a}) * gas < LIMIT && Mul(Get(m, a), gas) + Total(m - {a}) * gas == Total(m) * gas
  {
    RestTotal(m, a);
    Distribute(Get(m, a), Total(m - {a}), gas);
    MulExact(Get(m, a), gas, Total(m));
    MulMono(gas, Total(m - {a}), Total(m));
  }

  lemma MulExact(x: u64, gas: u64, total: nat)
    requires x <= total && total * gas < LIMIT
    ensures Mul(x, gas) == x * gas
  {
    MulMono(gas, x, total);
  }

  lemma RestTotal(m: map<Address, u64>, a: Address)
    ensures Total(m) == Get(m, a) + Total(m - {a})
  {
    var n: map<Address, nat> := map b | b in m :: m[b];
    assert (map b | b in m - {a} :: (m - {a})[b]) == n - {a};
    if a in m {
      SumRemove(n, a);
    } else {
      assert n - {a} == n;
    }
  }

  lemma {:induction false} UserBalanced(b: Bill, costs: seq<UserCost>, gas: u64, u: Address, ms: seq<Miner>)
    requires Reports(costs, b) && DistinctMiners(ms) && Backed(b, u) && Get(b.users, u) * gas < LIMIT
    ensures IncomeSum(costs, gas, u, ms) <= Mul(CostOf(costs, u), gas)
  {
    var inner := if u in b.users then Inner(b.miners, u) else map[];
    EmptyTotal();
    MulMono(gas, Total(inner), Get(b.users, u));
    ReportedIncomes(b, costs, u, ms, inner);
    IncomeRest(costs, gas, u, ms, inner);
  }

  lemma {:induction false} ReportedIncomes(b: Bill, costs: seq<UserCost>, u: Address, ms: seq<Miner>,
      inner: map<Address, u64>)
    requires Reports(costs, b) && inner == if u in b.users then Inner(b.miners, u) else map[]
    ensures forall k :: 0 <= k < |ms| ==> IncomeOf(costs, u, ms[k].address) == Get(inner, ms[k].address)
  {}

  /** A bill drawn up from the head chain is balanced, so it never adds to the supply of the main
      chain. */
  lemma {:induction false} BillBalanced(n: SqlNode, h: nat, low: nat, costs: seq<UserCost>, gas: u64,
      users: seq<DbUser>, ms: seq<Miner>)
    requires Ascending(n) && Reports(costs, AddBlocks(EMPTY, Walked(Skip(Some(n), h), low))) && DistinctMiners(ms)
    requires forall i :: 0 <= i < |users| ==>
      var rows := RangeRows(Some(n), low, h, users[i].address); rows < LIMIT && rows * gas < LIMIT
    ensures Balanced(costs, gas, users, ms)
  {
    forall i | 0 <= i < |users|
      ensures IncomeSum(costs, gas, users[i].address, ms) <= Mul(CostOf(costs, users[i].address), gas)
    {
      ChainBalanced(n, h, low, costs, gas, users[i].address, ms);
    }
  }

  lemma {:induction false} ChainBalanced(n: SqlNode, h: nat, low: nat, costs: seq<UserCost>, gas: u64, u: Address,
      ms: seq<Miner>)
    requires Ascending(n) && Reports(costs, AddBlocks(EMPTY, Walked(Skip(Some(n), h), low))) && DistinctMiners(ms)
    requires RangeRows(Some(n), low, h, u) < LIMIT && RangeRows(Some(n), low, h, u) * gas < LIMIT
    ensures IncomeSum(costs, gas, u, ms) <= Mul(CostOf(costs, u), gas)
  {
    BilledIncome(n, h, low, u);
    UserBalanced(AddBlocks(EMPTY, Walked(Skip(Some(n), h), low)), costs, gas, u, ms);
  }
}
