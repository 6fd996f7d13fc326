/** The leader's map of pending prepares over whole runs, and requests whose caller gave up. */
module KayakPending {
  import opened Common
  import opened KayakLog
  import opened KayakFollower
  import opened KayakLeader
  import opened KayakCluster
  import opened KayakProgress

  /** Requests that still prepare are pending; what is pending is a prepare in the WAL, and if it is decided there, by
      the commit in progress. */
  ghost predicate Tracked(l: Leader) {
    && (forall p :: p in l.phases && l.phases[p].Preparing? ==> p in l.pending)
    && (forall p :: p in l.pending ==> IsPrepare(l.wal, p))
    && (forall p :: p in l.pending && Resolved(l.wal, p) ==>
          l.committing.Some? && Resolves(l.wal, l.committing.value, p))
  }

  lemma {:induction false} ResolvedAfter(w: Wal, i: nat, log: Log)
    requires i !in w
    ensures forall p :: Resolved(w[i := log], p) <==> Resolved(w, p) || (!log.Prepare? && log.prepare == p)
  {
    var v := w[i := log];
    forall p ensures Resolved(v, p) <==> Resolved(w, p) || (!log.Prepare? && log.prepare == p) {
      if Resolved(w, p) {
        var j :| Resolves(w, j, p);
        assert Resolves(v, j, p);
      }
      if !log.Prepare? && log.prepare == p { assert Resolves(v, i, p); }
      if Resolved(v, p) {
        var j :| Resolves(v, j, p);
        assert j != i ==> Resolves(w, j, p);
      }
    }
  }

  lemma {:induction false} PrepareTracked(l: Leader, i: nat)
    requires IndexOk(l) && DecisionsOk(l) && Tracked(l) && i in l.unwritten && l.unwritten[i].Prepare?
    ensures Tracked(WriteLog(l, i))
  {
    var m := WriteLog(l, i);
    ResolvedAfter(l.wal, i, l.unwritten[i]);
    assert !Resolved(l.wal, i);
    forall p | p in m.pending && Resolved(m.wal, p)
      ensures m.committing.Some? && Resolves(m.wal, m.committing.value, p)
    {
      assert p in l.pending && Resolves(l.wal, l.committing.value, p);
    }
  }

  lemma {:induction false} DecisionTracked(l: Leader, i: nat)
    requires LeaderInv(l) && Tracked(l) && i in l.unwritten && !l.unwritten[i].Prepare?
    ensures Tracked(WriteLog(l, i))
  {
    var log := l.unwritten[i];
    ResolvedAfter(l.wal, i, log);
    assert Resolves(l.unwritten, i, log.prepare);
    assert log.prepare !in l.phases;
    if log.Commit? {
      assert IsCommit(l.unwritten, i);
      assert Resolves(WriteLog(l, i).wal, i, log.prepare);
    }
  }

  lemma {:induction false} ExecuteTracked(l: Leader)
    requires LeaderInv(l) && Tracked(l) && CanExecute(l)
    ensures Tracked(ExecuteCommit(l))
  {
    var p := l.wal[l.committing.value].prepare;
    assert Resolves(l.wal, l.committing.value, p);
  }

  lemma {:induction false} RestartTracked(l: Leader)
    requires LeaderInv(l) && Replay(l.wal, l.nextIndex).Recovered?
    ensures Tracked(RestartLeader(l))
    ensures forall p :: p in RestartLeader(l).pending <==> IsPrepare(l.wal, p) && !Resolved(l.wal, p)
  {
    LeaderWalGood(l);
    RecoversIffClosed(l.wal, l.nextIndex);
    ReplayRebuilds(l.wal, l.nextIndex);
    assert RestartLeader(l).pending == Unresolved(l.wal, l.nextIndex);
  }

  lemma {:induction false} StepTracked(c: Cluster, s: Step, minPrepared: nat)
    requires LeaderInv(c.leader) && Tracked(c.leader) && Enabled(c, s, minPrepared)
    ensures Tracked(Next(c, s, minPrepared).leader)
  {
    match s
    case LWrite(i) =>
      if c.leader.unwritten[i].Prepare? { PrepareTracked(c.leader, i); } else { DecisionTracked(c.leader, i); }
    case LExecute => ExecuteTracked(c.leader);
    case LRestart => RestartTracked(c.leader);
    case _ =>
  }

  /** In every state of every run the leader tracks its requests: a decided one is pending at most while its commit is
      in progress. */
  lemma {:induction false} RunTracked(nodes: set<NodeId>, minPrepared: nat, steps: seq<Step>, run: seq<Cluster>, k: nat)
    requires IsRun(nodes, minPrepared, steps, run) && k < |run|
    ensures Tracked(run[k].leader)
  {
    if k > 0 {
      RunTracked(nodes, minPrepared, steps, run, k - 1);
      RunInv(nodes, minPrepared, steps, run, k - 1);
      StepTracked(run[k - 1], steps[k - 1], minPrepared);
    }
  }

  // ---------------------------------------------------------------- abandoned requests

  /** Prepare i is neither undecided nor pending nor decided at the leader. */
  ghost predicate Gone(l: Leader, i: nat) {
    && IsPrepare(l.wal, i) && i !in l.phases && i !in l.pending
    && forall j :: !Resolves(l.wal, j, i) && !Resolves(l.unwritten, j, i)
  }

  lemma {:induction false} AbandonGone(l: Leader, i: nat)
    requires LeaderInv(l) && i in l.phases
    ensures Gone(Abandon(l, i), i)
  {}

  lemma {:induction false} WriteGone(l: Leader, i: nat, x: nat)
    requires LeaderInv(l) && Gone(l, i) && x in l.unwritten
    ensures Gone(WriteLog(l, x), i)
  {
    var m := WriteLog(l, x);
    assert x !in l.wal;
    forall j ensures !Resolves(m.wal, j, i) && !Resolves(m.unwritten, j, i) {
      assert !Resolves(l.wal, j, i) && !Resolves(l.unwritten, j, i) && !Resolves(l.unwritten, x, i);
    }
  }

  lemma {:induction false} GoneNext(c: Cluster, s: Step, minPrepared: nat, i: nat)
    requires LeaderInv(c.leader) && Gone(c.leader, i) && Enabled(c, s, minPrepared) && !s.LRestart?
    ensures Gone(Next(c, s, minPrepared).leader, i)
  {
    var l, m := c.leader, Next(c, s, minPrepared).leader;
    match s
    case LWrite(x) => WriteGone(l, i, x);
    case LRollback(x) => AllocGone(l, m, i, Rollback(l.nextIndex, x));
    case LBegin(x) => AllocGone(l, m, i, Commit(l.nextIndex, x, l.lastCommit));
    case LAllocPrepare(data) => AllocGone(l, m, i, Prepare(l.nextIndex, data));
    case _ =>
  }

  lemma {:induction false} AllocGone(l: Leader, m: Leader, i: nat, log: Log)
    requires Gone(l, i) && m.wal == l.wal && m.pending <= l.pending && m.phases.Keys <= l.phases.Keys
    requires m.unwritten == l.unwritten[l.nextIndex := log] && (!log.Prepare? ==> log.prepare != i)
    ensures Gone(m, i)
  {
    forall j ensures !Resolves(m.wal, j, i) && !Resolves(m.unwritten, j, i) {
      assert !Resolves(l.wal, j, i) && !Resolves(l.unwritten, j, i);
    }
  }

  ghost predicate NoRestart(steps: seq<Step>) {
    forall k :: 0 <= k < |steps| ==> !steps[k].LRestart?
  }

  /** A request whose caller gave up is never decided and never pending again, until the leader restarts. */
  lemma {:induction false} GoneStays(c: Cluster, minPrepared: nat, ss: seq<Step>, d: Cluster, i: nat)
    requires Inv(c, minPrepared) && Gone(c.leader, i) && Goes(c, ss, minPrepared, d) && NoRestart(ss)
    ensures Gone(d.leader, i)
    decreases |ss|
  {
    if ss != [] {
      GoneNext(c, ss[0], minPrepared, i);
      StepKeeps(c, ss[0], minPrepared);
      assert NoRestart(ss[1..]);
      GoneStays(Next(c, ss[0], minPrepared), minPrepared, ss[1..], d, i);
    }
  }

  /** A prepare that has not been queued can be rolled back: the rollback is logged and nothing of it stays pending. */
  lemma {:induction false} Cancels(c: Cluster, minPrepared: nat, i: nat) returns (ss: seq<Step>, d: Cluster)
    requires LeaderInv(c.leader) && i in c.leader.phases && c.leader.phases[i].Preparing?
    ensures Goes(c, ss, minPrepared, d) && d == c.(leader := d.leader)
    ensures var x := c.leader.nextIndex;
      && d.leader.wal == c.leader.wal[x := Rollback(x, i)] && x !in c.leader.wal
      && i !in d.leader.phases && i !in d.leader.pending
  {
    var x := c.leader.nextIndex;
    var d1 := Leads(c, LRollback(i), minPrepared);
    d := Leads(d1, LWrite(x), minPrepared);
    GoesOn(c, [LRollback(i)], d1, [LWrite(x)], d, minPrepared);
    ss := [LRollback(i)] + [LWrite(x)];
  }
}
