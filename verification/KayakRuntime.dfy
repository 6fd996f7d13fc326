/** The Kayak runtime and its WAL as objects updated in place. Every method is proved against the
    steps of the transition systems, so what the protocol modules show about steps holds of it. */
module KayakRuntime {
  import opened Common
  import opened KayakLog
  import opened KayakFollower
  import opened KayakLeader

  datatype Error = Ok | WalClosed | AlreadyExists | InvalidLog | Waiting

  datatype ReadResult = Entry(log: Log) | EndOfFile | Closed

  /** The LevelDB WAL: an ordered store with one log per index and a single forward iteration that
      ends for good at its last entry or at the first write. */
  class LevelDBWal {
    var logs: Wal
    var closed: bool
    var read: bool
    var cursor: nat

    constructor (stored: Wal)
      ensures logs == stored && !closed && !read && cursor == 0
    {
      logs, closed, read, cursor := stored, false, false, 0;
    }

    method Write(l: Log) returns (err: Error)
      modifies this
      ensures closed == old(closed) && cursor == old(cursor)
      ensures err == (if closed then WalClosed else if l.index in old(logs) then AlreadyExists else Ok)
      ensures logs == if err.Ok? then old(logs)[l.index := l] else old(logs)
    {
      if closed { return WalClosed; }
      read := true;
      if l.index in logs { return AlreadyExists; }
      logs := logs[l.index := l];
      err := Ok;
    }

    method Get(i: nat) returns (r: Option<Log>)
      ensures r == if !closed && i in logs then Some(logs[i]) else None
    {
      r := if !closed && i in logs then Some(logs[i]) else None;
    }

    /** Returns the entries in ascending order of their index, each once. */
    method Read() returns (r: ReadResult)
      modifies this
      ensures logs == old(logs) && closed == old(closed)
      ensures closed || old(read) ==> r == (if closed then Closed else EndOfFile) && cursor == old(cursor)
      ensures !closed && !old(read) ==>
        match r
        case Entry(l) =>
          && old(cursor) < cursor && cursor - 1 in logs && l == logs[cursor - 1] && !read
          && (forall i :: i in logs && old(cursor) <= i ==> cursor - 1 <= i)
        case EndOfFile => read && forall i :: i in logs ==> i < old(cursor)
        case Closed => false
    {
      if closed { return Closed; }
      if read { return EndOfFile; }
      var rest := set i | i in logs && cursor <= i;
      if rest == {} {
        read := true;
        assert forall i :: i in logs && cursor <= i ==> i in rest;
        return EndOfFile;
      }
      var least := Least(rest);
      forall i | i in logs && cursor <= i ensures least <= i {
        assert i in rest;
      }
      cursor := least + 1;
      r := Entry(logs[least]);
    }
  }

  ghost function Ahead(w: Wal, n: nat): set<nat> {
    set i | i in w && n <= i
  }

  class Runtime {
    var nextIndex: nat
    var lastCommit: nat
    var pendingPrepares: set<nat>
    const wal: LevelDBWal
    var executed: seq<nat>       // commits handed to the storage handler
    ghost var lost: set<nat>

    constructor (w: LevelDBWal)
      ensures wal == w && nextIndex == 0 && lastCommit == 0 && pendingPrepares == {} && executed == [] && lost == {}
    {
      wal, nextIndex, lastCommit, pendingPrepares, executed := w, 0, 0, {}, [];
      lost := {};
    }

    /** The runtime between calls, seen as a follower without anything in flight. */
    ghost function AsFollower(): Follower
      reads this, wal
    {
      Follower(wal.logs, nextIndex, lastCommit, pendingPrepares, {}, {}, None, {}, executed, lost)
    }

    method UpdateNextIndex(l: Log)
      modifies this`nextIndex
      ensures nextIndex == Bump(old(nextIndex), l.index)
    {
      if nextIndex < l.index + 1 { nextIndex := l.index + 1; }
    }

    /** A prepare log delivered to a follower; accepted says whether the handler's check passes. */
    method FollowerPrepare(l: Log, accepted: bool) returns (err: Error)
      requires l.Prepare? && !wal.closed
      modifies this, wal
      ensures err.Ok? <==> accepted && l.index !in old(wal.logs)
      ensures err.Ok? ==> AsFollower() == MarkPending(WritePrepare(old(AsFollower()), l), l.index)
      ensures !err.Ok? ==> AsFollower() == old(AsFollower())
      ensures !wal.closed
    {
      if !accepted { return InvalidLog; }
      err := wal.Write(l);
      if !err.Ok? { return; }
      pendingPrepares := pendingPrepares + {l.index};
      UpdateNextIndex(l);
    }

    /** The prepare log a decision refers to; Waiting stands for a log that has to be fetched. */
    method GetPrepareLog(l: Log) returns (err: Error, prepare: nat)
      requires !l.Prepare?
      ensures !wal.closed && l.prepare in wal.logs && (l.Commit? ==> l.previous in wal.logs)
        ==> err == Ok && prepare == wal.logs[l.prepare].index
      ensures wal.closed || l.prepare !in wal.logs || (l.Commit? && l.previous !in wal.logs) ==> err == Waiting
    {
      var p := wal.Get(l.prepare);
      if p.None? { return Waiting, 0; }
      if l.Commit? {
        var c := wal.Get(l.previous);
        if c.None? { return Waiting, 0; }
      }
      err, prepare := Ok, p.value.index;
    }

    /** A rollback log delivered to a follower. */
    method FollowerRollback(l: Log) returns (err: Error)
      requires l.Rollback? && !wal.closed && WellIndexed(wal.logs)
      modifies this, wal
      ensures err.Ok? <==> CanCheck(old(AsFollower()), l) && l.index !in old(wal.logs)
      ensures err.Ok? ==>
        AsFollower() == Finish(WriteRollback(Check(old(AsFollower()), l), l), l.prepare)
      ensures !err.Ok? ==> AsFollower() == old(AsFollower())
    {
      var e, p := GetPrepareLog(l);
      if !e.Ok? { return e; }
      if p !in pendingPrepares { return InvalidLog; }
      err := wal.Write(l);
      if !err.Ok? { return; }
      pendingPrepares := pendingPrepares - {p};
      UpdateNextIndex(l);
    }

    /** A commit log delivered to a follower whose commit queue is empty: checks, commit cycle and
        the final update of the pending map in one go. Waiting is a commit put back in the queue. */
    method FollowerCommit(l: Log) returns (err: Error)
      requires l.Commit? && !wal.closed && WellIndexed(wal.logs)
      modifies this, wal
      ensures err.Ok? <==> CanCheck(old(AsFollower()), l) && l.previous == old(lastCommit) && l.index !in old(wal.logs)
      ensures err.Ok? ==>
        AsFollower() == Finish(Execute(WriteCommit(Check(old(AsFollower()), l), l)), l.prepare)
      ensures !err.Ok? ==> AsFollower() == old(AsFollower())
    {
      var e, p := GetPrepareLog(l);
      if !e.Ok? { return e; }
      if p !in pendingPrepares { return InvalidLog; }
      if l.previous < lastCommit { return InvalidLog; }
      if l.previous != lastCommit { return Waiting; }
      err := wal.Write(l);
      if !err.Ok? { return; }
      executed := executed + [l.index];
      lastCommit := l.index;
      pendingPrepares := pendingPrepares - {p};
      UpdateNextIndex(l);
    }

    /** The runtime between calls, seen as a leader with the given undecided requests. */
    ghost function AsLeader(phases: map<nat, Phase>): Leader
      reads this, wal
    {
      Leader(wal.logs, nextIndex, lastCommit, pendingPrepares, map[], phases, None, executed, lost)
    }

    /** A new log of the leader gets the next index and is written; a failing write is fatal. */
    method NewLog(l: Log) returns (err: Error)
      requires l.index == nextIndex && !wal.closed
      modifies this`nextIndex, wal
      ensures nextIndex == old(nextIndex) + 1 && !wal.closed
      ensures err.Ok? <==> l.index !in old(wal.logs)
      ensures wal.logs == if err.Ok? then old(wal.logs)[l.index := l] else old(wal.logs)
    {
      nextIndex := nextIndex + 1;
      err := wal.Write(l);
    }

    method LeaderPrepare(data: string, ghost phases: map<nat, Phase>) returns (err: Error, i: nat)
      requires !wal.closed
      modifies this, wal
      ensures i == old(nextIndex) && (err.Ok? <==> i !in old(wal.logs))
      ensures err.Ok? ==>
        AsLeader(phases[i := Preparing(map[])]) == WriteLog(AllocPrepare(old(AsLeader(phases)), data), i)
    {
      i := nextIndex;
      err := NewLog(Prepare(i, data));
      if !err.Ok? { return; }
      pendingPrepares := pendingPrepares + {i};
      assert map[i := Prepare(i, data)] - {i} == map[];
    }

    /** The commit cycle for the queued prepare p, and the end of its request. */
    method LeaderCommit(p: nat, ghost phases: map<nat, Phase>) returns (err: Error)
      requires !wal.closed && p in phases && phases[p].Queued?
      modifies this, wal
      ensures err.Ok? <==> old(nextIndex) !in old(wal.logs)
      ensures err.Ok? ==>
        AsLeader(phases - {p})
        == ExecuteCommit(WriteLog(BeginCommit(old(AsLeader(phases)), p), old(nextIndex)))
    {
      var c := nextIndex;
      var l := Commit(c, p, lastCommit);
      err := NewLog(l);
      if !err.Ok? { return; }
      executed := executed + [c];
      lastCommit := c;
      pendingPrepares := pendingPrepares - {p};
      assert map[c := l] - {c} == map[];
    }

    /** The rollback of prepare p, and the end of its request. */
    method LeaderRollback(p: nat, ghost phases: map<nat, Phase>) returns (err: Error)
      requires !wal.closed && p in phases && phases[p].Preparing?
      modifies this, wal
      ensures err.Ok? <==> old(nextIndex) !in old(wal.logs)
      ensures err.Ok? ==>
        AsLeader(phases - {p}) == WriteLog(AllocRollback(old(AsLeader(phases)), p), old(nextIndex))
    {
      var l := Rollback(nextIndex, p);
      err := NewLog(l);
      if !err.Ok? { return; }
      pendingPrepares := pendingPrepares - {p};
      assert map[l.index := l] - {l.index} == map[];
    }

    /** Recovery: reads the WAL from its start and rebuilds the fields exactly as the scan does;
        Waiting stands for the endless wait for a log that is missing. */
    method ReadLogs() returns (err: Error)
      requires nextIndex == 0 && lastCommit == 0 && pendingPrepares == {}
      requires !wal.closed && !wal.read && wal.cursor == 0 && (forall i :: i in wal.logs ==> wal.logs[i].index == i)
      modifies this, wal
      ensures wal.logs == old(wal.logs) && executed == old(executed)
      ensures forall n: nat :: Bounded(wal.logs, n) ==>
        && (err.Ok? ==> Replay(wal.logs, n) == Recovered(pendingPrepares, lastCommit, nextIndex)
                        || Replay(wal.logs, n) == Mismatch)
        && (err == Waiting ==> Replay(wal.logs, n) == Blocked)
        && (err == InvalidLog ==> Replay(wal.logs, n) == Repeated)
      ensures err.Ok? || err == Waiting || err == InvalidLog
    {
      ghost var logs := wal.logs;
      while true
        invariant wal.logs == logs && executed == old(executed) && !wal.closed && !wal.read
        invariant Replay(logs, wal.cursor) == Recovered(pendingPrepares, lastCommit, nextIndex)
        decreases Ahead(logs, wal.cursor)
      {
        ghost var before := wal.cursor;
        var r := wal.Read();
        if r == EndOfFile {
          forall n: nat | Bounded(logs, n) ensures Replay(logs, n) == Replay(logs, before) {
            ReplaySame(logs, before, n);
          }
          return Ok;
        }
        var l := r.log;
        ReplayGap(logs, before, l.index);
        var pl := 0;
        if !l.Prepare? {
          var e;
          e, pl := GetPrepareLog(l);
          if !e.Ok? {
            assert Replay(logs, l.index + 1) == Blocked;
            ReplayFails(logs, l.index + 1);
            return e;
          }
          if l.Commit? && l.previous != lastCommit {
            assert Replay(logs, l.index + 1) == Mismatch;
            ReplayFails(logs, l.index + 1);
            return Ok;   // the error built here wraps nil, so the caller sees success
          }
          if pl !in pendingPrepares {
            assert Replay(logs, l.index + 1) == Repeated;
            ReplayFails(logs, l.index + 1);
            return InvalidLog;
          }
        }
        match l {
          case Prepare(i, _) => pendingPrepares := pendingPrepares + {i};
          case Commit(i, _, _) => lastCommit := i; pendingPrepares := pendingPrepares - {pl};
          case Rollback(_, _) => pendingPrepares := pendingPrepares - {pl};
        }
        UpdateNextIndex(l);
        assert l.index in Ahead(logs, before) && l.index !in Ahead(logs, wal.cursor);
      }
    }
  }

  lemma {:induction false} ReplayGap(w: Wal, m: nat, n: nat)
    requires m <= n && forall i: nat :: m <= i < n ==> i !in w
    ensures Replay(w, n) == Replay(w, m)
  {
    if m < n { ReplayGap(w, m, n - 1); }
  }

  /** All bounds of a WAL give the same scan. */
  lemma {:induction false} ReplaySame(w: Wal, m: nat, n: nat)
    requires Bounded(w, m) && Bounded(w, n)
    ensures Replay(w, m) == Replay(w, n)
  {
    if m <= n { ReplayGap(w, m, n); } else { ReplayGap(w, n, m); }
  }

  lemma {:induction false} ReplayFails(w: Wal, m: nat)
    requires !Replay(w, m).Recovered? && m > 0 && m - 1 in w
    ensures forall n: nat :: Bounded(w, n) ==> Replay(w, n) == Replay(w, m)
  {
    forall n: nat | Bounded(w, n) ensures Replay(w, n) == Replay(w, m) {
      ReplayStops(w, m, n);
    }
  }
}
