/** The loops of the transaction code over users, miners, arrears and providers, each proved to
    compute its ledger function. */
module LedgerLoops {
  import opened Common
  import opened LedgerTypes
  import opened Transactions

  // ---------------------------------------------------------------- arrears and top-up

  method SettleMiner(m: Miner, a: Address) returns (r: Miner)
    ensures r == Settle(m, a)
  {
    var pending := m.pending;
    var i := 0;
    for k := 0 to |m.arrears|
      invariant i <= k
      invariant SettleFrom(pending, m.arrears, a, k, i) == SettleFrom(m.pending, m.arrears, a, 0, 0)
    {
      if m.arrears[k].user == a {
        pending := Add(pending, m.arrears[i].amount);
      } else {
        i := i + 1;
      }
    }
    r := m.(pending := pending);
  }

  method SettleMiners(miners: seq<Miner>, a: Address) returns (r: seq<Miner>)
    ensures r == SettleAll(miners, a)
  {
    r := miners;
    for k := 0 to |miners|
      invariant |r| == |miners|
      invariant forall j :: 0 <= j < |r| ==> r[j] == if j < k then Settle(miners[j], a) else miners[j]
    {
      var m := SettleMiner(r[k], a);
      r := r[k := m];
    }
  }

  method SearchUser(users: seq<DbUser>, a: Address) returns (i: nat)
    ensures i == FindUser(users, a)
  {
    i := 0;
    while i < |users| && users[i].address != a
      invariant i <= |users| && forall j :: 0 <= j < i ==> users[j].address != a
    {
      i := i + 1;
    }
  }

  // ---------------------------------------------------------------- permissions

  lemma {:induction false} LastUserSnoc(users: seq<DbUser>, k: nat, a: Address)
    requires k < |users|
    ensures FindLastUser(users[..k + 1], a) == if users[k].address == a then k else FindLastUser(users[..k], a)
  {
    assert users[..k + 1][..k] == users[..k];
  }

  lemma {:induction false} CountSnoc(users: seq<DbUser>, u: DbUser)
    ensures CountSuper(users + [u]) == CountSuper(users) + if u.permission.Super() then 1 else 0
  {
    if users == [] {
      assert users + [u] == [u];
    } else {
      CountSnoc(users[1..], u);
      assert (users + [u])[1..] == users[1..] + [u];
    }
  }

  datatype Scan = Refused | Scanned(supers: nat, target: int)

  /** One pass over the users: refused if the sender is a user without super permission, otherwise
      the number of super users and the position of the last entry of the target. */
  method ScanUsers(users: seq<DbUser>, sender: Address, target: Address) returns (r: Scan)
    ensures r.Refused? <==> Denied(users, sender)
    ensures r.Scanned? ==> r.supers == CountSuper(users) && r.target == FindLastUser(users, target)
  {
    var supers, index := 0, -1;
    for k := 0 to |users|
      invariant supers == CountSuper(users[..k]) && index == FindLastUser(users[..k], target)
      invariant forall j :: 0 <= j < k ==> !(users[j].address == sender && !users[j].permission.Super())
    {
      var u := users[k];
      if u.address == sender && !u.permission.Super() { return Refused; }
      CountSnoc(users[..k], u);
      LastUserSnoc(users, k, target);
      assert users[..k + 1] == users[..k] + [u];
      if u.permission.Super() { supers := supers + 1; }
      if u.address == target { index := k; }
    }
    assert users[..|users|] == users;
    r := Scanned(supers, index);
  }

  // ---------------------------------------------------------------- providers

  /** The targets in order until enough miners are found. */
  method TakeTargets(providers: map<Address, Provider>, t: Body, a: Address, ghost l: Ledger)
    returns (miners: seq<Miner>, err: Err)
    requires t.CreateDatabase? && l.providers == providers
    ensures Picked(miners, err) == PickTargets(l, t, a, t.nodes, 0, Picked([], NoErr))
  {
    miners, err := [], NoErr;
    var k := 0;
    while k < |t.targets|
      invariant k <= |t.targets|
      invariant PickTargets(l, t, a, t.nodes, k, Picked(miners, err)) ==
        PickTargets(l, t, a, t.nodes, 0, Picked([], NoErr))
    {
      var m := t.targets[k];
      if m !in providers {
        err := NoSuchMiner;
      } else {
        err := Misfit(providers[m], t, a);
        if err.NoErr? { miners := miners + [MinerOf(m, providers[m])]; }
        if |miners| == t.nodes { return; }
      }
      k := k + 1;
    }
  }

  method First(rank: Rank, ps: map<Address, Provider>, s: set<Address>) returns (m: Address)
    requires s != {} && s <= ps.Keys
    ensures IsFirst(rank, ps, s, m)
  {
    m :| m in s;
    var left := s - {m};
    while left != {}
      invariant m in s && m !in left && left <= s
      invariant forall x :: x in s && x !in left && x != m ==> Earlier(rank, ps, m, x)
      decreases left
    {
      var x :| x in left;
      BeforeTotal(x, m);
      if Earlier(rank, ps, x, m) {
        forall y | y in s && y !in left - {x} && y != x ensures Earlier(rank, ps, x, y) {
          if y != m { EarlierTransitive(rank, ps, x, m, y); }
        }
        m := x;
      }
      left := left - {x};
    }
  }

  /** The candidates, each once, by ascending node ids; equal ids come as rank leaves them. */
  method SortCandidates(rank: Rank, ps: map<Address, Provider>, s: set<Address>) returns (r: seq<Address>)
    requires s <= ps.Keys
    ensures r == Sorted(rank, ps, s) && |r| == |s| && forall a :: a in r <==> a in s
    ensures forall i, j :: 0 <= i < j < |r| ==> r[i] != r[j] && ps[r[i]].nodeID <= ps[r[j]].nodeID
  {
    r := Arrange(rank, ps, s);
    SortedListing(rank, ps, s, r);
  }

  method Arrange(rank: Rank, ps: map<Address, Provider>, s: set<Address>) returns (r: seq<Address>)
    requires s <= ps.Keys
    ensures r == Sorted(rank, ps, s)
  {
    r := [];
    var left := s;
    while left != {}
      invariant left <= s && Sorted(rank, ps, s) == r + Sorted(rank, ps, left)
      decreases left
    {
      var m := First(rank, ps, left);
      SortedFirst(rank, ps, left, m);
      r := r + [m];
      left := left - {m};
    }
  }

  lemma {:induction false} SortedListing(rank: Rank, ps: map<Address, Provider>, s: set<Address>, r: seq<Address>)
    requires s <= ps.Keys && r == Sorted(rank, ps, s)
    ensures |r| == |s| && forall a :: a in r <==> a in s
    ensures forall i, j :: 0 <= i < j < |r| ==>
      r[i] != r[j] && r[i] in ps && r[j] in ps && ps[r[i]].nodeID <= ps[r[j]].nodeID
  {
    SortedMembers(rank, ps, s);
    forall i, j | 0 <= i < j < |r|
      ensures r[i] != r[j] && r[i] in ps && r[j] in ps && ps[r[i]].nodeID <= ps[r[j]].nodeID
    {
      SortedIds(rank, ps, s, i, j);
    }
  }

  /** The fitting providers apart from the targets. */
  method Filter(all: map<Address, Provider>, t: Body, a: Address, ghost l: Ledger) returns (s: set<Address>)
    requires t.CreateDatabase? && l.providers == all
    ensures s == Candidates(l, t, a)
  {
    s := {};
    var keys := all.Keys;
    for k := 0 to |t.targets|
      invariant forall x :: x in keys <==> x in all && x !in t.targets[..k]
    {
      assert t.targets[..k + 1] == t.targets[..k] + [t.targets[k]];
      keys := keys - {t.targets[k]};
    }
    assert t.targets[..|t.targets|] == t.targets;
    ghost var rest := keys;
    while keys != {}
      invariant keys <= rest
      invariant forall x :: x in s <==> x in rest && x !in keys && Misfit(all[x], t, a).NoErr?
      decreases keys
    {
      var x :| x in keys;
      if Misfit(all[x], t, a).NoErr? { s := s + {x}; }
      keys := keys - {x};
    }
  }

  /** The first n fitting providers. */
  method FilterNMiners(rank: Rank, all: map<Address, Provider>, t: Body, a: Address, n: nat, ghost l: Ledger)
    returns (r: Option<seq<Miner>>)
    requires t.CreateDatabase? && l.providers == all
    ensures r == FilterMiners(rank, l, t, a, n)
  {
    var s := Filter(all, t, a, l);
    if |s| < n { return None; }
    var order := SortCandidates(rank, all, s);
    SortedMembers(rank, all, s);
    var miners := [];
    for k := 0 to n
      invariant |miners| == k
      invariant forall j :: 0 <= j < k ==> order[j] in all && miners[j] == MinerOf(order[j], all[order[j]])
    {
      assert order[k] in s;
      miners := miners + [MinerOf(order[k], all[order[k]])];
    }
    assert miners == MinersOf(l, order[..n]);
    r := Some(miners);
  }

  /** Enough miners for a request, or why there are none. */
  method FindMiners(rank: Rank, all: map<Address, Provider>, t: Body, a: Address, ghost l: Ledger) returns (r: Match)
    requires t.CreateDatabase? && l.providers == all
    ensures r == MatchMiners(rank, l, t, a)
  {
    var miners, err := TakeTargets(all, t, a, l);
    if |miners| < t.nodes {
      if |t.targets| >= t.nodes { return Stop(err); }
      var more := FilterNMiners(rank, all, t, a, t.nodes - |miners|, l);
      if more.None? { return Stop(NoEnoughMiner); }
      miners := miners + more.value;
    }
    r := Miners(miners);
  }
}
