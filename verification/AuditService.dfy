/**
 The service and its repository as they run: an object whose methods change the table, the lock
 table and the open transactions. Each repository call is one step of the append protocol;
 `AppendAuditEvent` is the service's own sequence of calls.
 */
module AuditService {
  import opened Prelude
  import opened CanonicalJson
  import opened AuditLog
  import opened AuditAppend
  import opened AuditLocking
  import opened AuditRollback

  /** The row a locked writer inserts records its command at the end of its escrow's log. */
  lemma NextEntryExtends(H: Hash, rows: seq<Entry>, cmd: Command, now: int)
    requires TableOk(H, rows)
    ensures var x := NextEntry(H, cmd, Latest(rows, cmd.escrowId), now);
      && x.escrowId == cmd.escrowId
      && x.eventType == cmd.eventType
      && x.payloadJson == Dumps(cmd.payload)
      && x.createdAt == now
      && Fits(H, rows, x)
      && Of(rows + [x], cmd.escrowId) == Of(rows, cmd.escrowId) + [x]
  {
    LockedRowFits(H, rows, cmd, now);
    OfAppend(rows, NextEntry(H, cmd, Latest(rows, cmd.escrowId), now), cmd.escrowId);
  }

  /** Taking the lock and reading change nobody's pending row. */
  lemma SamePending(s: State, s': State, t: nat, tx: Tx, x: Entry)
    requires t !in s.txs && s'.txs == s.txs[t := tx]
    ensures HashPending(s', t, x) <==> HashPending(s, t, x)
  {
    if HashPending(s, t, x) {
      var u :| u in s.txs && u != t && s.txs[u].phase.Pending? && s.txs[u].phase.entry.entryHash == x.entryHash;
      assert u in s'.txs;
    }
  }

  lemma LockThenRead(H: Hash, cfg: Config, s: State, t: nat, cmd: Command)
    requires cfg.locking && t !in s.txs && LockKey(cmd.escrowId) !in s.locks
    ensures var locked := Step(H, cfg, Step(H, cfg, s, Begin(t, cmd)), AcquireLock(t));
      && locked.rows == s.rows
      && locked.txs == s.txs[t := Tx(cmd, Locked)]
      && Step(H, cfg, locked, ReadLatest(t, 0)) == locked.(txs := s.txs[t := Tx(cmd, HasRead(Latest(s.rows, cmd.escrowId)))])
  {
  }

  lemma InsertPends(H: Hash, cfg: Config, s: State, t: nat, now: int)
    requires t in s.txs && s.txs[t].phase.HasRead?
    ensures var x := NextEntry(H, s.txs[t].cmd, s.txs[t].phase.latest, now);
      var outcome := TryInsert(cfg, s, t, x);
      var inserted := Step(H, cfg, s, InsertRow(t, now));
      && inserted.rows == s.rows
      && t in inserted.txs
      && (outcome.Stored? ==> inserted.txs[t].phase == Pending(x))
      && (!outcome.Stored? && !outcome.Blocked? ==> forall k :: k in inserted.locks ==> inserted.locks[k] != t)
  {
  }

  lemma CommitStores(H: Hash, cfg: Config, s: State, t: nat)
    requires t in s.txs && s.txs[t].phase.Pending?
    ensures var ended := Step(H, cfg, s, Commit(t));
      ended.rows == s.rows + [s.txs[t].phase.entry] && forall k :: k in ended.locks ==> ended.locks[k] != t
  {
  }

  class AuditDatabase {
    const H: Hash
    const cfg: Config
    var rows: seq<Entry>
    var locks: map<int, nat>
    var txs: map<nat, Tx>

    ghost function Abs(): State
      reads this
    {
      State(rows, locks, txs)
    }

    ghost predicate Valid()
      reads this
    {
      Inv(H, Abs()) && LocksOwned(Abs()) && (cfg.locking ==> LockInv(Abs()))
    }

    constructor (H: Hash, cfg: Config)
      ensures this.H == H && this.cfg == cfg
      ensures Valid() && Abs() == Empty
    {
      this.H := H;
      this.cfg := cfg;
      rows, locks, txs := [], map[], map[];
      new;
      EmptyInv(H);
    }

    ghost predicate Did(before: State, a: Action)
      reads this
    {
      Abs() == Step(H, cfg, before, a)
    }

    /** Keeps the invariants across a step that has just been taken. */
    lemma StepValid(before: State, a: Action)
      requires Inv(H, before) && LocksOwned(before) && (cfg.locking ==> LockInv(before)) && Did(before, a)
      ensures Valid()
    {
      StepKeepsInv(H, cfg, before, a);
      StepMoves(H, cfg, before, a);
      MoveKeepsOwned(before, a, Abs());
      if cfg.locking {
        StepKeepsLocks(H, cfg, before, a);
      }
    }

    method BeginTransaction(t: nat, cmd: Command)
      requires Valid()
      modifies this
      ensures Valid() && Did(old(Abs()), Begin(t, cmd))
    {
      ghost var before := Abs();
      if t !in txs {
        txs := txs[t := Tx(cmd, Started)];
      }
      StepValid(before, Begin(t, cmd));
    }

    method AcquireAdvisoryLock(t: nat)
      requires Valid()
      modifies this
      ensures Valid() && Did(old(Abs()), AcquireLock(t))
    {
      ghost var before := Abs();
      if t in txs && txs[t].phase.Started? {
        var key := LockKey(txs[t].cmd.escrowId);
        if !cfg.locking {
          txs := txs[t := txs[t].(phase := Locked)];
        } else if key !in locks {
          locks := locks[key := t];
          txs := txs[t := txs[t].(phase := Locked)];
        }
      }
      StepValid(before, AcquireLock(t));
    }

    method GetLatest(t: nat, snapshot: nat) returns (latest: Option<Entry>)
      requires Valid() && t in txs && txs[t].phase.Locked?
      modifies this
      ensures Valid() && Did(old(Abs()), ReadLatest(t, snapshot))
      ensures latest == Latest(Visible(cfg, rows, snapshot), old(txs[t].cmd.escrowId))
    {
      ghost var before := Abs();
      latest := Latest(Visible(cfg, rows, snapshot), txs[t].cmd.escrowId);
      txs := txs[t := txs[t].(phase := HasRead(latest))];
      StepValid(before, ReadLatest(t, snapshot));
    }

    method Release(t: nat)
      modifies this`locks
      ensures locks == map k | k in old(locks) && old(locks)[k] != t :: old(locks)[k]
    {
      locks := map k | k in locks && locks[k] != t :: locks[k];
    }

    method Append(t: nat, now: int) returns (outcome: Outcome)
      requires Valid() && t in txs && txs[t].phase.HasRead?
      modifies this
      ensures Valid() && Did(old(Abs()), InsertRow(t, now))
      ensures outcome == TryInsert(cfg, old(Abs()), t, NextEntry(H, old(txs[t].cmd), old(txs[t].phase.latest), now))
    {
      ghost var before := Abs();
      InsertSteps(H, cfg, before, t, now);
      outcome := Insert(t, NextEntry(H, txs[t].cmd, txs[t].phase.latest, now));
      StepValid(before, InsertRow(t, now));
    }

    /** Inserts a row, or gives up the transaction when a constraint refuses it. */
    method Insert(t: nat, entry: Entry) returns (outcome: Outcome)
      requires t in txs && txs[t].phase.HasRead?
      modifies this
      ensures outcome == TryInsert(cfg, old(Abs()), t, entry)
      ensures Abs() ==
        if outcome.Stored? then SetPhase(old(Abs()), t, Pending(entry))
        else if outcome.Blocked? then old(Abs()) else Finish(old(Abs()), t, Aborted)
    {
      outcome := TryInsert(cfg, State(rows, locks, txs), t, entry);
      if outcome.Stored? {
        txs := txs[t := txs[t].(phase := Pending(entry))];
      } else if !outcome.Blocked? {
        txs := txs[t := txs[t].(phase := Aborted)];
        Release(t);
      }
    }

    method CommitTransaction(t: nat)
      requires Valid() && t in txs && txs[t].phase.Pending?
      modifies this
      ensures Valid() && Did(old(Abs()), Commit(t))
    {
      ghost var before := Abs();
      rows := rows + [txs[t].phase.entry];
      txs := txs[t := txs[t].(phase := Committed)];
      Release(t);
      StepValid(before, Commit(t));
    }

    /** An exception before the commit undoes the transaction: the table stays as it is and its lock is free. */
    method RollbackTransaction(t: nat)
      requires Valid() && t in txs && !txs[t].phase.Committed?
      modifies this
      ensures Valid() && Did(old(Abs()), Rollback(t))
      ensures rows == old(rows)
      ensures forall k :: k in locks ==> locks[k] != t
    {
      ghost var before := Abs();
      RollbackStep(H, cfg, before, t);
      txs := txs[t := txs[t].(phase := Aborted)];
      Release(t);
      StepValid(before, Rollback(t));
    }

    /** The first half of an append: lock, then read the row to link to. */
    method LockAndRead(t: nat, cmd: Command) returns (latest: Option<Entry>)
      requires Valid() && cfg.locking
      requires t !in txs && LockKey(cmd.escrowId) !in locks
      modifies this
      ensures Valid()
      ensures rows == old(rows)
      ensures txs == old(txs)[t := Tx(cmd, HasRead(latest))]
      ensures latest == Latest(rows, cmd.escrowId)
    {
      LockThenRead(H, cfg, Abs(), t, cmd);
      BeginTransaction(t, cmd);
      AcquireAdvisoryLock(t);
      latest := GetLatest(t, 0);
    }

    /** The second half: insert the row and commit. */
    method InsertAndCommit(t: nat, now: int) returns (outcome: Outcome)
      requires Valid() && t in txs && txs[t].phase.HasRead?
      modifies this
      ensures Valid()
      ensures var x := NextEntry(H, old(txs[t].cmd), old(txs[t].phase.latest), now);
        && outcome == TryInsert(cfg, old(Abs()), t, x)
        && rows == old(rows) + (if outcome.Stored? then [x] else [])
      ensures !outcome.Blocked? ==> forall k :: k in locks ==> locks[k] != t
    {
      InsertPends(H, cfg, Abs(), t, now);
      outcome := Append(t, now);
      if outcome.Stored? {
        CommitStores(H, cfg, Abs(), t);
        CommitTransaction(t);
      }
    }

    /** What an append meets, read off the state it starts from. */
    ghost function Fate(s: State, t: nat, cmd: Command, now: int): Result<Entry, Outcome> {
      var x := NextEntry(H, cmd, Latest(s.rows, cmd.escrowId), now);
      if LockTaken(s, cmd.escrowId) then Err(Blocked)
      else if HashPending(s, t, x) then Err(Blocked)
      else if DuplicateHash(s.rows, x) then Err(RefusedHash)
      else Ok(x)
    }

    /**
     Lock, read the latest row, hash, insert, commit, at any moment of any run. It adds exactly one row,
     which extends the escrow's log, unless it has to wait, for a transaction past the lock on an escrow
     with the same first 8 bytes or for another transaction's row with the same hash, or the same history
     is already stored; then the table stays as it is. Only a trigger that does not share the service's
     first-row value can refuse it otherwise.
     */
    method AppendAuditEvent(t: nat, cmd: Command, now: int) returns (r: Result<Entry, Outcome>)
      requires Valid() && cfg.locking && t !in txs
      modifies this
      ensures Valid()
      ensures r == Err(RefusedByTrigger) || r == Fate(old(Abs()), t, cmd, now)
      ensures r == Err(RefusedByTrigger) ==> !CommonMarker(cfg)
      ensures r.Ok? ==> Extends(old(rows), rows, cmd, now, r.value)
      ensures r.Err? ==> rows == old(rows)
      ensures r != Err(Blocked) ==> forall k :: k in locks ==> locks[k] != t
    {
      LockTakenIff(Abs(), cmd.escrowId);
      if LockKey(cmd.escrowId) in locks {
        BeginTransaction(t, cmd);
        AcquireAdvisoryLock(t);
        return Err(Blocked);
      }
      ghost var before := Abs();
      var latest := LockAndRead(t, cmd);
      var entry := NextEntry(H, cmd, latest, now);
      LockedInsert(H, cfg, Abs(), t, now);
      SamePending(before, Abs(), t, Tx(cmd, HasRead(latest)), entry);
      NextEntryExtends(H, rows, cmd, now);
      var outcome := InsertAndCommit(t, now);
      r := if outcome.Stored? then Ok(entry) else Err(outcome);
    }

    /** The table gained `x` alone, which records the command at the end of its escrow's log. */
    ghost predicate Extends(before: seq<Entry>, after: seq<Entry>, cmd: Command, now: int, x: Entry) {
      && after == before + [x]
      && Of(after, cmd.escrowId) == Of(before, cmd.escrowId) + [x]
      && x.escrowId == cmd.escrowId
      && x.eventType == cmd.eventType
      && x.payloadJson == Dumps(cmd.payload)
      && x.createdAt == now
      && Fits(H, before, x)
    }
  }
}
