/** A Kayak leader as a transition system. Requests run concurrently: an index is taken under
    its own lock and the log is written to the WAL later; one commit is in progress at a time. */
module KayakLeader {
  import opened Common
  import opened KayakLog
  import opened KayakFollower

  type NodeId = nat

  datatype Phase =
    | Preparing(replies: map<NodeId, bool>)   // prepare sent; true is a successful reply
    | Queued                                  // waiting in the commit channel

  /** wal, executed and lost survive a crash. */
  datatype Leader = Leader(
    wal: Wal,
    nextIndex: nat,
    lastCommit: nat,
    pending: set<nat>,
    unwritten: Wal,               // logs with an index, not yet in the WAL
    phases: map<nat, Phase>,      // undecided requests by prepare index
    committing: Option<nat>,      // commit log being written and applied
    executed: seq<nat>,
    lost: set<nat>)

  function Start(): Leader {
    Leader(map[], 0, 0, {}, map[], map[], None, [], {})
  }

  // ---------------------------------------------------------------- steps

  function AllocPrepare(l: Leader, data: string): Leader {
    l.(unwritten := l.unwritten[l.nextIndex := Prepare(l.nextIndex, data)], nextIndex := l.nextIndex + 1)
  }

  /** The log with index i reaches the WAL. */
  function WriteLog(l: Leader, i: nat): Leader
    requires i in l.unwritten
  {
    var log := l.unwritten[i];
    var m := l.(wal := l.wal[i := log], unwritten := l.unwritten - {i});
    match log
    case Prepare(_, _) => m.(phases := l.phases[i := Preparing(map[])], pending := l.pending + {i})
    case Rollback(_, p) => m.(pending := l.pending - {p})
    case Commit(_, _, _) => m
  }

  predicate CanReply(l: Leader, i: nat, n: NodeId) {
    i in l.phases && l.phases[i].Preparing? && n !in l.phases[i].replies
  }

  function Reply(l: Leader, i: nat, n: NodeId, ok: bool): Leader
    requires CanReply(l, i, n)
  {
    l.(phases := l.phases[i := Preparing(l.phases[i].replies[n := ok])])
  }

  /** Enough replies, none of them a failure. */
  predicate CanQueue(l: Leader, i: nat, minPrepared: nat) {
    && i in l.phases && l.phases[i].Preparing?
    && (forall n :: n in l.phases[i].replies ==> l.phases[i].replies[n])
    && |l.phases[i].replies| >= minPrepared
  }

  function Queue(l: Leader, i: nat): Leader {
    l.(phases := l.phases[i := Queued])
  }

  /** A failed or timed out prepare is rolled back. */
  function AllocRollback(l: Leader, i: nat): Leader
    requires i in l.phases && l.phases[i].Preparing?
  {
    l.(phases := l.phases - {i},
       unwritten := l.unwritten[l.nextIndex := Rollback(l.nextIndex, i)], nextIndex := l.nextIndex + 1)
  }

  /** The caller gave up before its commit entered the channel: no decision is ever logged. */
  function Abandon(l: Leader, i: nat): Leader
    requires i in l.phases
  {
    l.(phases := l.phases - {i}, pending := l.pending - {i})
  }

  /** The commit of prepare i is in the channel or in progress. */
  predicate Committing(l: Leader, i: nat) {
    || (i in l.phases && l.phases[i].Queued?)
    || (l.committing.Some? && (Resolves(l.wal, l.committing.value, i) || Resolves(l.unwritten, l.committing.value, i)))
  }

  /** The caller stops waiting for it: the request is no longer pending and will be committed all the same. */
  function Forget(l: Leader, i: nat): Leader
    requires Committing(l, i)
  {
    l.(pending := l.pending - {i})
  }

  predicate CanBegin(l: Leader, i: nat) {
    i in l.phases && l.phases[i].Queued? && l.committing.None?
  }

  function BeginCommit(l: Leader, i: nat): Leader
    requires CanBegin(l, i)
  {
    var c := l.nextIndex;
    l.(phases := l.phases - {i}, unwritten := l.unwritten[c := Commit(c, i, l.lastCommit)],
       nextIndex := c + 1, committing := Some(c))
  }

  predicate CanExecute(l: Leader) {
    l.committing.Some? && IsCommit(l.wal, l.committing.value)
  }

  function ExecuteCommit(l: Leader): Leader
    requires CanExecute(l)
  {
    var c := l.committing.value;
    l.(executed := l.executed + [c], lastCommit := c, committing := None,
       pending := l.pending - {l.wal[c].prepare})
  }

  function RestartLeader(l: Leader): Leader
    requires Replay(l.wal, l.nextIndex).Recovered?
  {
    var r := Replay(l.wal, l.nextIndex);
    Leader(l.wal, r.nextIndex, r.lastCommit, r.pending, map[], map[], None, l.executed,
           l.lost + InWal(l))
  }

  /** The commit in progress, once its log is in the WAL. */
  function InWal(l: Leader): set<nat> {
    if l.committing.Some? && l.committing.value in l.wal then {l.committing.value} else {}
  }

  // ---------------------------------------------------------------- invariant

  ghost predicate IndexOk(l: Leader) {
    && (forall i :: i in l.wal ==> l.wal[i].index == i && i < l.nextIndex)
    && (forall i :: i in l.unwritten ==> l.unwritten[i].index == i && i < l.nextIndex && i !in l.wal)
  }

  /** Decisions, written or not, refer to an earlier prepare that is in the WAL. */
  ghost predicate DecisionsOk(l: Leader) {
    && (forall i, p :: Resolves(l.wal, i, p) ==> p < i && IsPrepare(l.wal, p))
    && (forall i, p :: Resolves(l.unwritten, i, p) ==> p < i && IsPrepare(l.wal, p))
  }

  /** Each prepare has at most one decision, and an undecided request has none. */
  ghost predicate OneDecision(l: Leader) {
    && DecidedOnce(l.wal) && DecidedOnce(l.unwritten)
    && (forall i, j, p :: Resolves(l.wal, i, p) ==> !Resolves(l.unwritten, j, p))
    && (forall p :: p in l.phases ==> IsPrepare(l.wal, p))
    && (forall i, p :: p in l.phases ==> !Resolves(l.wal, i, p) && !Resolves(l.unwritten, i, p))
  }

  ghost predicate LeaderChain(l: Leader) {
    && Chained(l.wal)
    && (forall i: nat :: IsCommit(l.unwritten, i) ==> l.committing == Some(i))
    && (match l.committing
        case None => l.lastCommit == LastCommit(l.wal, l.nextIndex)
        case Some(c) =>
          if c in l.unwritten then
            && l.unwritten[c].Commit? && l.unwritten[c].previous == l.lastCommit
            && l.lastCommit == LastCommit(l.wal, l.nextIndex)
            && (forall i: nat :: IsCommit(l.wal, i) ==> i < c)
          else
            IsCommit(l.wal, c) && c == LastCommit(l.wal, l.nextIndex))
  }

  ghost predicate LeaderExecuted(l: Leader) {
    && l.executed == CommitsExcept(l.wal, l.nextIndex, l.lost + InWal(l))
    && (forall i :: i in l.lost ==> IsCommit(l.wal, i))
    && l.lost !! InWal(l)
  }

  ghost predicate LeaderInv(l: Leader) {
    IndexOk(l) && DecisionsOk(l) && OneDecision(l) && LeaderChain(l) && LeaderExecuted(l)
  }

  lemma LeaderWalGood(l: Leader)
    requires LeaderInv(l)
    ensures WalInv(l.wal) && Bounded(l.wal, l.nextIndex)
  {}

  // ---------------------------------------------------------------- every step keeps the invariant

  /** Raising nextIndex over a gap changes neither the last commit nor the executed commits. */
  lemma OneMore(l: Leader)
    requires IndexOk(l)
    ensures LastCommit(l.wal, l.nextIndex + 1) == LastCommit(l.wal, l.nextIndex)
    ensures forall s :: CommitsExcept(l.wal, l.nextIndex + 1, s) == CommitsExcept(l.wal, l.nextIndex, s)
  {}

  /** A new log with the next index, for an undecided request or a new one. */
  ghost predicate Allocates(l: Leader, m: Leader, log: Log) {
    && log.index == l.nextIndex
    && (!log.Prepare? ==> log.prepare in l.phases)
    && m.wal == l.wal && m.nextIndex == l.nextIndex + 1 && m.unwritten == l.unwritten[l.nextIndex := log]
    && m.phases == (if log.Prepare? then l.phases else l.phases - {log.prepare})
    && m.executed == l.executed && m.lost == l.lost && m.lastCommit == l.lastCommit
  }

  lemma AllocDecisions(l: Leader, m: Leader, log: Log)
    requires IndexOk(l) && DecisionsOk(l) && OneDecision(l) && Allocates(l, m, log)
    ensures IndexOk(m) && DecisionsOk(m) && OneDecision(m)
  {
    var c := l.nextIndex;
    assert forall i, p :: Resolves(m.unwritten, i, p) <==>
        (if i == c then !log.Prepare? && p == log.prepare else Resolves(l.unwritten, i, p));
  }

  lemma AllocExecuted(l: Leader, m: Leader, log: Log)
    requires IndexOk(l) && LeaderExecuted(l) && Allocates(l, m, log) && InWal(m) == InWal(l)
    ensures LeaderExecuted(m)
  {
    OneMore(l);
  }

  lemma AllocOtherChain(l: Leader, m: Leader, log: Log)
    requires IndexOk(l) && LeaderChain(l) && Allocates(l, m, log) && !log.Commit? && m.committing == l.committing
    ensures LeaderChain(m)
  {
    OneMore(l);
    assert forall i: nat :: IsCommit(m.unwritten, i) <==> IsCommit(l.unwritten, i);
  }

  lemma AllocPrepareKeeps(l: Leader, data: string)
    requires LeaderInv(l)
    ensures LeaderInv(AllocPrepare(l, data))
  {
    var m, log := AllocPrepare(l, data), Prepare(l.nextIndex, data);
    AllocDecisions(l, m, log);
    AllocOtherChain(l, m, log);
    AllocExecuted(l, m, log);
  }

  lemma AllocRollbackKeeps(l: Leader, i: nat)
    requires LeaderInv(l) && i in l.phases && l.phases[i].Preparing?
    ensures LeaderInv(AllocRollback(l, i))
  {
    var m, log := AllocRollback(l, i), Rollback(l.nextIndex, i);
    AllocDecisions(l, m, log);
    AllocOtherChain(l, m, log);
    AllocExecuted(l, m, log);
  }

  lemma BeginCommitKeeps(l: Leader, i: nat)
    requires LeaderInv(l) && CanBegin(l, i)
    ensures LeaderInv(BeginCommit(l, i))
  {
    var m, log := BeginCommit(l, i), Commit(l.nextIndex, i, l.lastCommit);
    AllocDecisions(l, m, log);
    BeginCommitChain(l, i);
    AllocExecuted(l, m, log);
  }

  lemma BeginCommitChain(l: Leader, i: nat)
    requires IndexOk(l) && LeaderChain(l) && CanBegin(l, i)
    ensures LeaderChain(BeginCommit(l, i))
  {
    OneMore(l);
    var m := BeginCommit(l, i);
    forall j: nat | IsCommit(m.unwritten, j) ensures j == l.nextIndex {
      assert j != l.nextIndex ==> IsCommit(l.unwritten, j);
    }
  }

  // Writing an unwritten log.

  lemma WriteDecisions(l: Leader, i: nat)
    requires IndexOk(l) && DecisionsOk(l) && OneDecision(l) && i in l.unwritten
    ensures IndexOk(WriteLog(l, i)) && DecisionsOk(WriteLog(l, i)) && OneDecision(WriteLog(l, i))
  {
    var m, log := WriteLog(l, i), l.unwritten[i];
    assert forall j, p :: Resolves(m.wal, j, p) <==>
        (if j == i then !log.Prepare? && p == log.prepare else Resolves(l.wal, j, p));
    assert forall j, p :: Resolves(m.unwritten, j, p) <==> j != i && Resolves(l.unwritten, j, p);
    assert !log.Prepare? ==> Resolves(l.unwritten, i, log.prepare);
  }

  lemma WriteOtherChain(l: Leader, i: nat)
    requires IndexOk(l) && LeaderChain(l) && i in l.unwritten && !l.unwritten[i].Commit?
    ensures LeaderChain(WriteLog(l, i))
    ensures forall j: nat :: IsCommit(WriteLog(l, i).wal, j) <==> IsCommit(l.wal, j)
  {
    var m := WriteLog(l, i);
    assert forall j: nat :: IsCommit(m.wal, j) <==> IsCommit(l.wal, j);
    assert forall j: nat :: IsCommit(m.unwritten, j) <==> IsCommit(l.unwritten, j);
    forall n: nat ensures LastCommit(m.wal, n) == LastCommit(l.wal, n) {
      LastCommitSame(l.wal, m.wal, n);
    }
    forall j: nat | IsCommit(m.wal, j) ensures m.wal[j].previous == LastCommit(m.wal, j) {
      assert l.wal[j].previous == LastCommit(l.wal, j);
    }
  }

  lemma WriteCommitLogChain(l: Leader, i: nat)
    requires IndexOk(l) && LeaderChain(l) && i in l.unwritten && l.unwritten[i].Commit?
    ensures LeaderChain(WriteLog(l, i))
  {
    assert IsCommit(l.unwritten, i);
    var m := WriteLog(l, i);
    assert forall j: nat :: IsCommit(m.wal, j) <==> IsCommit(l.wal, j) || j == i;
    forall j: nat ensures !IsCommit(m.unwritten, j) {
      assert IsCommit(m.unwritten, j) ==> IsCommit(l.unwritten, j);
    }
    LastIs(m.wal, m.nextIndex, i);
    forall j: nat | IsCommit(m.wal, j) ensures m.wal[j].previous == LastCommit(m.wal, j) {
      LastCommitSame(l.wal, m.wal, j);
      if j != i {
        assert l.wal[j].previous == LastCommit(l.wal, j);
      } else {
        LastBeyond(l.wal, i, l.nextIndex);
      }
    }
  }

  lemma WriteExecuted(l: Leader, i: nat)
    requires IndexOk(l) && LeaderChain(l) && LeaderExecuted(l) && i in l.unwritten
    ensures LeaderExecuted(WriteLog(l, i))
  {
    var m := WriteLog(l, i);
    if l.unwritten[i].Commit? { assert IsCommit(l.unwritten, i); }
    ExceptSame(l.wal, m.wal, l.nextIndex, l.lost + InWal(l), m.lost + InWal(m));
  }

  lemma WriteLogKeeps(l: Leader, i: nat)
    requires LeaderInv(l) && i in l.unwritten
    ensures LeaderInv(WriteLog(l, i))
    ensures Grows(l.wal, WriteLog(l, i).wal)
  {
    WriteDecisions(l, i);
    if l.unwritten[i].Commit? {
      assert IsCommit(l.unwritten, i);
      WriteCommitLogChain(l, i);
    } else {
      WriteOtherChain(l, i);
    }
    WriteExecuted(l, i);
  }

  // Replies and decisions.

  lemma PhaseKeeps(l: Leader, m: Leader)
    requires LeaderInv(l) && m == l.(phases := m.phases, pending := m.pending) && m.phases.Keys <= l.phases.Keys
    ensures LeaderInv(m)
  {}

  lemma ExecuteCommitKeeps(l: Leader)
    requires LeaderInv(l) && CanExecute(l)
    ensures LeaderInv(ExecuteCommit(l))
  {
    ExecuteCommitAppends(l);
    assert forall i: nat :: !IsCommit(l.unwritten, i);
  }

  lemma ExecuteCommitAppends(l: Leader)
    requires IndexOk(l) && LeaderExecuted(l) && CanExecute(l)
    requires l.committing.value == LastCommit(l.wal, l.nextIndex)
    ensures LeaderExecuted(ExecuteCommit(l))
  {
    UnskipLast(l.wal, l.nextIndex, l.committing.value, l.lost);
    var m := ExecuteCommit(l);
    assert m.lost + InWal(m) == l.lost;
  }

  /** The leader comes back exactly when log 0 is in its WAL or nothing was committed; in every
      such restart the scan rebuilds the undecided prepares, the last commit and a free index. */
  lemma RestartLeaderWorks(l: Leader)
    requires LeaderInv(l)
    ensures Replay(l.wal, l.nextIndex).Recovered? <==> (0 in l.wal || CommitsBelow(l.wal, l.nextIndex) == [])
    ensures Replay(l.wal, l.nextIndex).Recovered? ==>
      && Replay(l.wal, l.nextIndex) == Rebuilt(l.wal, l.nextIndex)
      && LeaderInv(RestartLeader(l))
  {
    RecoversIffClosed(l.wal, l.nextIndex);
    if Replay(l.wal, l.nextIndex).Recovered? {
      ReplayRebuilds(l.wal, l.nextIndex);
      var m := RestartLeader(l);
      LastBeyond(l.wal, m.nextIndex, l.nextIndex);
      ExceptBeyond(l.wal, m.nextIndex, l.nextIndex, m.lost);
      assert m.lost + InWal(m) == m.lost;
    }
  }
}
