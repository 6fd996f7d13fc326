/** Quorum sizes, the tracker that counts the replies to a prepare, and the durability they buy. */
module KayakQuorum {
  import opened KayakLog
  import opened KayakLeader
  import opened KayakCluster
  import KayakSafety

  function CeilDiv(a: nat, b: nat): (c: nat)
    requires b > 0
    ensures b * c >= a && (c > 0 ==> b * (c - 1) < a)
  {
    (a + b - 1) / b
  }

  /** Followers that must confirm, for the threshold num/den over n servers. */
  function MinFollowers(num: nat, den: nat, n: nat): nat
    requires den > 0
  {
    var c := CeilDiv(num * n, den);
    if c < 1 then 0 else c - 1
  }

  /** k followers and the leader are at least the fraction num/den of n servers. */
  predicate Reaches(num: nat, den: nat, n: nat, k: nat) {
    den * (k + 1) >= num * n
  }

  /** The least number of followers that reaches the threshold together with the leader, and there are that many; for
      the threshold 0 it is none. */
  lemma MinFollowersFits(num: nat, den: nat, n: nat)
    requires num <= den && den > 0 && n > 0
    ensures MinFollowers(num, den, n) <= n - 1
    ensures Reaches(num, den, n, MinFollowers(num, den, n))
    ensures forall k: nat :: Reaches(num, den, n, k) ==> MinFollowers(num, den, n) <= k
    ensures num == 0 ==> MinFollowers(num, den, n) == 0
  {
    var c := CeilDiv(num * n, den);
    if c > n { Product(num, den, n, c); }
    forall k: nat | Reaches(num, den, n, k) ensures MinFollowers(num, den, n) <= k {
      if c > k + 1 { Monotone(k + 1, c - 1, den); }
    }
  }

  lemma Product(num: nat, den: nat, n: nat, c: nat)
    requires num <= den && c > n
    ensures den * (c - 1) >= num * n
  {
    assert den * (c - 1) >= den * n by { Monotone(n, c - 1, den); }
    assert den * n >= num * n;
  }

  lemma Monotone(a: nat, b: nat, k: nat)
    requires a <= b
    ensures k * b >= k * a
  {
    assert k * b == k * a + k * (b - a);
  }

  /** Replies by node; true is a call without error. */
  class RpcTracker {
    const nodes: seq<NodeId>
    const minCount: nat
    var errors: map<NodeId, bool>
    var complete: nat
    var sent: bool
    var done: bool
    ghost var called: set<nat>

    ghost predicate Distinct() {
      forall i, j :: 0 <= i < j < |nodes| ==> nodes[i] != nodes[j]
    }

    ghost predicate Valid()
      reads this
    {
      && Distinct() && minCount <= |nodes|
      && (forall i :: i in called ==> i < |nodes| && nodes[i] in errors)
      && (forall n :: n in errors ==> exists i :: i in called && i < |nodes| && nodes[i] == n)
      && complete == |called| == |errors|
      && (done ==> complete >= minCount)
    }

    constructor (followers: seq<NodeId>, min: int)
      requires forall i, j :: 0 <= i < j < |followers| ==> followers[i] != followers[j]
      ensures Valid() && nodes == followers && !sent && errors == map[] && called == {}
      ensures minCount == if min < 0 then 0 else if min > |followers| then |followers| else min
    {
      nodes := followers;
      minCount := if min < 0 then 0 else if min > |followers| then |followers| else min;
      errors, complete, sent, done, called := map[], 0, false, false, {};
    }

    method Send()
      requires Valid()
      modifies this`sent, this`done
      ensures Valid() && sent
      ensures done == (old(done) || (!old(sent) && minCount == 0))
    {
      if sent { return; }
      sent := true;
      if minCount == 0 { done := true; }
    }

    /** The call to node number i returns; each node is called once. */
    method CallSingle(i: nat, ok: bool)
      requires Valid() && i < |nodes| && i !in called
      modifies this`errors, this`complete, this`done, this`called
      ensures Valid() && called == old(called) + {i} && errors == old(errors)[nodes[i] := ok]
      ensures done == (old(done) || complete >= minCount)
    {
      assert nodes[i] !in errors;
      errors := errors[nodes[i] := ok];
      complete := complete + 1;
      called := called + {i};
      if complete >= minCount { done := true; }
    }

    /** Read when the tracker is done or the caller's time is up. */
    method Get() returns (errs: map<NodeId, bool>, meets: bool, finished: bool)
      requires Valid()
      ensures errs == errors && (meets <==> |errs| >= minCount) && (finished <==> |errs| == |nodes|)
    {
      errs := errors;
      meets := done;
      if !meets && |errs| >= minCount { meets := true; }
      finished := |errs| == |nodes|;
    }
  }

  /** True when no node failed. */
  method ErrorSummary(errs: map<NodeId, bool>) returns (ok: bool)
    ensures ok <==> forall n :: n in errs ==> errs[n]
  {
    var failNodes: set<NodeId> := {};
    var todo := errs.Keys;
    while todo != {}
      invariant todo <= errs.Keys
      invariant failNodes == set n | n in errs && n !in todo && !errs[n]
      decreases todo
    {
      var n :| n in todo;
      if !errs[n] { failNodes := failNodes + {n}; }
      todo := todo - {n};
    }
    ok := |failNodes| == 0;
    assert forall n :: n in errs && !errs[n] ==> n in failNodes;
  }

  /** The leader's verdict on a prepare: it may be queued for commit exactly when the tracker of
      the request has enough replies and none of them failed. */
  method PrepareVerdict(t: RpcTracker) returns (commit: bool)
    requires t.Valid()
    ensures forall l: Leader, i :: i in l.phases && l.phases[i] == Preparing(t.errors) ==>
      (commit <==> CanQueue(l, i, t.minCount))
  {
    var errs, meets, _ := t.Get();
    if !meets { return false; }
    commit := ErrorSummary(errs);
  }

  /** Quorum durability with the configured threshold: at least num/den of all servers, the leader
      among them, hold the prepare log of every commit the leader has logged. */
  lemma ThresholdDurability(nodes: set<NodeId>, num: nat, den: nat, steps: seq<Step>, run: seq<Cluster>, k: nat, i: nat)
    requires num <= den && den > 0
    requires IsRun(nodes, MinFollowers(num, den, |nodes| + 1), steps, run) && k < |run|
    requires IsCommit(run[k].leader.wal, i)
    ensures var p := run[k].leader.wal[i].prepare;
      && IsPrepare(run[k].leader.wal, p) && Holders(run[k], p) <= nodes
      && den * (|Holders(run[k], p)| + 1) >= num * (|nodes| + 1)
  {
    var n := |nodes| + 1;
    var min := MinFollowers(num, den, n);
    KayakSafety.QuorumDurability(nodes, min, steps, run, k, i);
    MinFollowersFits(num, den, n);
    Monotone(min + 1, |Holders(run[k], run[k].leader.wal[i].prepare)| + 1, den);
  }
}
