/** A leader and its followers over a network that loses, repeats and reorders logs, with crashes
    of any node at any point. The theorems speak about every state of every run. */
module KayakCluster {
  import opened Common
  import opened KayakLog
  import opened KayakFollower
  import opened KayakLeader

  /** acks holds the successful prepare replies the followers have sent. */
  datatype Cluster = Cluster(leader: Leader, followers: map<NodeId, Follower>, acks: set<(NodeId, nat)>)

  datatype Step =
    | LAllocPrepare(data: string)
    | LWrite(i: nat)
    | LReply(i: nat, node: NodeId, ok: bool)
    | LQueue(i: nat)
    | LRollback(i: nat)
    | LAbandon(i: nat)
    | LForget(i: nat)
    | LBegin(i: nat)
    | LExecute
    | LRestart
    | FWritePrepare(node: NodeId, l: Log)
    | FMark(node: NodeId, i: nat)
    | FCheck(node: NodeId, l: Log)
    | FWriteRollback(node: NodeId, l: Log)
    | FWriteCommit(node: NodeId, l: Log)
    | FExecute(node: NodeId)
    | FFinish(node: NodeId, i: nat)
    | FRestart(node: NodeId)

  function Init(nodes: set<NodeId>): Cluster {
    Cluster(Start(), map n | n in nodes :: Fresh(), {})
  }

  /** The leader has sent l, or serves it to a follower that asks for it. */
  predicate Available(c: Cluster, l: Log) {
    l.index in c.leader.wal && c.leader.wal[l.index] == l
  }

  predicate LeaderEnabled(c: Cluster, s: Step, minPrepared: nat) {
    var l := c.leader;
    match s
    case LAllocPrepare(_) => true
    case LWrite(i) => i in l.unwritten
    case LReply(i, n, ok) => n in c.followers && CanReply(l, i, n) && (ok ==> (n, i) in c.acks)
    case LQueue(i) => CanQueue(l, i, minPrepared)
    case LRollback(i) => i in l.phases && l.phases[i].Preparing?
    case LAbandon(i) => i in l.phases
    case LForget(i) => Committing(l, i)
    case LBegin(i) => CanBegin(l, i)
    case LExecute => CanExecute(l)
    case LRestart => Replay(l.wal, l.nextIndex).Recovered?
    case _ => false
  }

  predicate FollowerEnabled(c: Cluster, s: Step) {
    && !LeaderStep(s) && s.node in c.followers
    && var f := c.followers[s.node];
       match s
       case FWritePrepare(_, l) => Available(c, l) && l.Prepare?
       case FMark(_, i) => i in f.marking
       case FCheck(_, l) => Available(c, l) && CanCheck(f, l)
       case FWriteRollback(_, l) => l in f.checked && l.Rollback?
       case FWriteCommit(_, l) => CanCommit(f, l)
       case FExecute(_) => f.applying.Some? && IsCommit(f.wal, f.applying.value)
       case FFinish(_, p) => p in f.finishing
       case FRestart(_) => Replay(f.wal, f.nextIndex).Recovered?
       case _ => false
  }

  predicate LeaderStep(s: Step) {
    s.LAllocPrepare? || s.LWrite? || s.LReply? || s.LQueue? || s.LRollback? || s.LAbandon? || s.LForget?
    || s.LBegin? || s.LExecute? || s.LRestart?
  }

  predicate Enabled(c: Cluster, s: Step, minPrepared: nat) {
    if LeaderStep(s) then LeaderEnabled(c, s, minPrepared) else FollowerEnabled(c, s)
  }

  function LeaderNext(c: Cluster, s: Step, minPrepared: nat): Leader
    requires LeaderEnabled(c, s, minPrepared)
  {
    var l := c.leader;
    match s
    case LAllocPrepare(data) => AllocPrepare(l, data)
    case LWrite(i) => WriteLog(l, i)
    case LReply(i, n, ok) => Reply(l, i, n, ok)
    case LQueue(i) => Queue(l, i)
    case LRollback(i) => AllocRollback(l, i)
    case LAbandon(i) => Abandon(l, i)
    case LForget(i) => Forget(l, i)
    case LBegin(i) => BeginCommit(l, i)
    case LExecute => ExecuteCommit(l)
    case LRestart => RestartLeader(l)
  }

  function FollowerNext(c: Cluster, s: Step): Follower
    requires FollowerEnabled(c, s)
  {
    var f := c.followers[s.node];
    match s
    case FWritePrepare(_, l) => WritePrepare(f, l)
    case FMark(_, i) => MarkPending(f, i)
    case FCheck(_, l) => Check(f, l)
    case FWriteRollback(_, l) => WriteRollback(f, l)
    case FWriteCommit(_, l) => WriteCommit(f, l)
    case FExecute(_) => Execute(f)
    case FFinish(_, p) => Finish(f, p)
    case FRestart(_) => Restart(f)
  }

  function Next(c: Cluster, s: Step, minPrepared: nat): Cluster
    requires Enabled(c, s, minPrepared)
  {
    if LeaderStep(s) then c.(leader := LeaderNext(c, s, minPrepared))
    else c.(followers := c.followers[s.node := FollowerNext(c, s)],
            acks := if s.FMark? then c.acks + {(s.node, s.i)} else c.acks)
  }

  // ---------------------------------------------------------------- invariant

  ghost predicate Nodes(c: Cluster) {
    LeaderInv(c.leader) && forall n :: n in c.followers ==> FollowerInv(c.followers[n], c.leader.wal)
  }

  ghost function Holders(c: Cluster, p: nat): set<NodeId> {
    set n | n in c.followers && p in c.followers[n].wal
  }

  /** Node n has confirmed prepare i to the leader. */
  predicate Replied(l: Leader, i: nat, n: NodeId) {
    i in l.phases && l.phases[i].Preparing? && n in l.phases[i].replies && l.phases[i].replies[n]
  }

  ghost predicate Acked(c: Cluster) {
    && (forall n, i :: (n, i) in c.acks ==> n in c.followers && i in c.followers[n].wal)
    && (forall i: nat, n: NodeId :: Replied(c.leader, i, n) ==> (n, i) in c.acks)
  }

  /** Queued requests and commit logs have their quorum. */
  ghost predicate Quorum(c: Cluster, minPrepared: nat) {
    && (forall i :: i in c.leader.phases && c.leader.phases[i].Queued? ==> |Holders(c, i)| >= minPrepared)
    && (forall i: nat :: IsCommit(c.leader.wal, i) ==> |Holders(c, c.leader.wal[i].prepare)| >= minPrepared)
    && (forall i: nat :: IsCommit(c.leader.unwritten, i) ==>
          |Holders(c, c.leader.unwritten[i].prepare)| >= minPrepared)
  }

  ghost predicate Inv(c: Cluster, minPrepared: nat) {
    Nodes(c) && Acked(c) && Quorum(c, minPrepared)
  }

  // ---------------------------------------------------------------- inductive step

  lemma LeaderNextKeeps(c: Cluster, s: Step, minPrepared: nat)
    requires LeaderInv(c.leader) && LeaderEnabled(c, s, minPrepared)
    ensures LeaderInv(LeaderNext(c, s, minPrepared))
    ensures Grows(c.leader.wal, LeaderNext(c, s, minPrepared).wal)
  {
    var l := c.leader;
    match s
    case LAllocPrepare(data) => AllocPrepareKeeps(l, data);
    case LWrite(i) => WriteLogKeeps(l, i);
    case LReply(i, n, ok) => PhaseKeeps(l, Reply(l, i, n, ok));
    case LQueue(i) => PhaseKeeps(l, Queue(l, i));
    case LRollback(i) => AllocRollbackKeeps(l, i);
    case LAbandon(i) => PhaseKeeps(l, Abandon(l, i));
    case LForget(i) => PhaseKeeps(l, Forget(l, i));
    case LBegin(i) => BeginCommitKeeps(l, i);
    case LExecute => ExecuteCommitKeeps(l);
    case LRestart => RestartLeaderWorks(l);
  }

  lemma FollowerNextKeeps(c: Cluster, s: Step)
    requires LeaderInv(c.leader) && FollowerEnabled(c, s)
    requires FollowerInv(c.followers[s.node], c.leader.wal)
    ensures FollowerInv(FollowerNext(c, s), c.leader.wal)
    ensures SubWal(c.followers[s.node].wal, FollowerNext(c, s).wal)
    ensures s.FMark? ==> s.i in c.followers[s.node].wal
  {
    var f, big := c.followers[s.node], c.leader.wal;
    LeaderWalGood(c.leader);
    match s
    case FWritePrepare(_, l) => WritePrepareKeeps(f, l, big);
    case FMark(_, i) => MarkPendingKeeps(f, i, big); assert IsPrepare(f.wal, i);
    case FCheck(_, l) => CheckKeeps(f, l, big);
    case FWriteRollback(_, l) => WriteRollbackKeeps(f, l, big);
    case FWriteCommit(_, l) => WriteCommitKeeps(f, l, big);
    case FExecute(_) => ExecuteKeeps(f, big);
    case FFinish(_, p) => FinishKeeps(f, p, big);
    case FRestart(_) => RestartWorks(f, big);
  }

  lemma NodesKept(c: Cluster, s: Step, minPrepared: nat)
    requires Nodes(c) && Enabled(c, s, minPrepared)
    ensures Nodes(Next(c, s, minPrepared))
  {
    var d := Next(c, s, minPrepared);
    if LeaderStep(s) {
      LeaderNextKeeps(c, s, minPrepared);
      forall n | n in c.followers ensures FollowerInv(c.followers[n], d.leader.wal) {
        LeaderGrowsKeeps(c.followers[n], c.leader.wal, d.leader.wal);
      }
    } else {
      FollowerNextKeeps(c, s);
    }
  }

  lemma HoldersGrow(c: Cluster, d: Cluster, p: nat)
    requires c.followers.Keys == d.followers.Keys
    requires forall n :: n in c.followers ==> SubWal(c.followers[n].wal, d.followers[n].wal)
    ensures |Holders(c, p)| <= |Holders(d, p)|
  {
    Subset(Holders(c, p), Holders(d, p));
  }

  lemma {:induction false} Subset<T>(a: set<T>, b: set<T>)
    requires a <= b
    ensures |a| <= |b|
  {
    if a != {} {
      var x :| x in a;
      Subset(a - {x}, b - {x});
    }
  }

  lemma FollowersGrow(c: Cluster, d: Cluster, minPrepared: nat)
    requires Acked(c) && Quorum(c, minPrepared) && d.leader == c.leader
    requires c.followers.Keys == d.followers.Keys
    requires forall n :: n in c.followers ==> SubWal(c.followers[n].wal, d.followers[n].wal)
    requires c.acks <= d.acks
    requires forall n, i :: (n, i) in d.acks - c.acks ==> n in d.followers && i in d.followers[n].wal
    ensures Acked(d) && Quorum(d, minPrepared)
  {
    forall p: nat ensures |Holders(c, p)| <= |Holders(d, p)| { HoldersGrow(c, d, p); }
  }

  lemma FollowerStepQuorum(c: Cluster, s: Step, minPrepared: nat)
    requires Acked(c) && Quorum(c, minPrepared) && FollowerEnabled(c, s)
    requires SubWal(c.followers[s.node].wal, FollowerNext(c, s).wal)
    requires s.FMark? ==> s.i in c.followers[s.node].wal
    ensures Acked(Next(c, s, minPrepared)) && Quorum(Next(c, s, minPrepared), minPrepared)
  {
    FollowersGrow(c, Next(c, s, minPrepared), minPrepared);
  }

  lemma LeaderStepAcked(c: Cluster, s: Step, minPrepared: nat)
    requires Acked(c) && LeaderEnabled(c, s, minPrepared)
    ensures Acked(c.(leader := LeaderNext(c, s, minPrepared)))
  {
    var d := c.(leader := LeaderNext(c, s, minPrepared));
    forall i: nat, n: NodeId | Replied(d.leader, i, n) ensures (n, i) in c.acks {
      assert Replied(c.leader, i, n) || (s == LReply(i, n, true));
    }
  }

  /** The replies that let a request be queued are its quorum. */
  lemma QueueHasQuorum(c: Cluster, i: nat, minPrepared: nat)
    requires Acked(c) && CanQueue(c.leader, i, minPrepared)
    ensures |Holders(c, i)| >= minPrepared
  {
    var replies := c.leader.phases[i].replies;
    forall n | n in replies.Keys ensures n in Holders(c, i) {
      assert Replied(c.leader, i, n);
    }
    Subset(replies.Keys, Holders(c, i));
  }

  /** Where the commits and queued requests after a leader step come from. */
  lemma LeaderStepSources(c: Cluster, s: Step, minPrepared: nat)
    requires LeaderEnabled(c, s, minPrepared)
    ensures var l, m := c.leader, LeaderNext(c, s, minPrepared);
      && (forall i: nat :: IsCommit(m.wal, i) ==>
            (IsCommit(l.wal, i) && m.wal[i] == l.wal[i]) || (IsCommit(l.unwritten, i) && m.wal[i] == l.unwritten[i]))
      && (forall i: nat :: IsCommit(m.unwritten, i) ==>
            || (IsCommit(l.unwritten, i) && m.unwritten[i] == l.unwritten[i])
            || (m.unwritten[i].prepare in l.phases && l.phases[m.unwritten[i].prepare].Queued?))
      && (forall i :: i in m.phases && m.phases[i].Queued? ==>
            (i in l.phases && l.phases[i].Queued?) || s == LQueue(i))
  {}

  lemma LeaderStepQuorum(c: Cluster, s: Step, minPrepared: nat)
    requires Acked(c) && Quorum(c, minPrepared) && LeaderEnabled(c, s, minPrepared)
    ensures Quorum(c.(leader := LeaderNext(c, s, minPrepared)), minPrepared)
  {
    var d := c.(leader := LeaderNext(c, s, minPrepared));
    assert forall p: nat :: Holders(d, p) == Holders(c, p);
    LeaderStepSources(c, s, minPrepared);
    if s.LQueue? { QueueHasQuorum(c, s.i, minPrepared); }
  }

  lemma StepKeeps(c: Cluster, s: Step, minPrepared: nat)
    requires Inv(c, minPrepared) && Enabled(c, s, minPrepared)
    ensures Inv(Next(c, s, minPrepared), minPrepared)
  {
    NodesKept(c, s, minPrepared);
    if LeaderStep(s) {
      LeaderStepAcked(c, s, minPrepared);
      LeaderStepQuorum(c, s, minPrepared);
    } else {
      FollowerNextKeeps(c, s);
      FollowerStepQuorum(c, s, minPrepared);
    }
  }

  lemma InitInv(nodes: set<NodeId>, minPrepared: nat)
    ensures Inv(Init(nodes), minPrepared)
  {}

  // ---------------------------------------------------------------- runs

  /** run[0] is the initial cluster and run[k + 1] follows run[k] by steps[k]. */
  ghost predicate IsRun(nodes: set<NodeId>, minPrepared: nat, steps: seq<Step>, run: seq<Cluster>) {
    && |run| == |steps| + 1 && run[0] == Init(nodes)
    && forall k :: 0 <= k < |steps| ==>
         Enabled(run[k], steps[k], minPrepared) && run[k + 1] == Next(run[k], steps[k], minPrepared)
  }

  lemma {:induction false} RunInv(nodes: set<NodeId>, minPrepared: nat, steps: seq<Step>, run: seq<Cluster>, k: nat)
    requires IsRun(nodes, minPrepared, steps, run) && k < |run|
    ensures Inv(run[k], minPrepared) && run[k].followers.Keys == nodes
  {
    if k == 0 {
      InitInv(nodes, minPrepared);
    } else {
      RunInv(nodes, minPrepared, steps, run, k - 1);
      StepKeeps(run[k - 1], steps[k - 1], minPrepared);
    }
  }
}
