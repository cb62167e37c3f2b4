/** Where the rows of the audit table come from, and what a transaction that ended leaves behind. */
module AuditRollback {
  import opened Prelude
  import opened CanonicalJson
  import opened AuditLog
  import opened AuditAppend
  import opened AuditLocking

  // ---------------------------------------------------------------------------------------------
  // What one step can do
  // ---------------------------------------------------------------------------------------------

  /** A commit of a transaction whose row is inserted. */
  predicate Commits(s: State, a: Action) {
    a.Commit? && a.t in s.txs && s.txs[a.t].phase.Pending?
  }

  predicate Records(x: Entry, cmd: Command) {
    x.escrowId == cmd.escrowId && x.eventType == cmd.eventType && x.payloadJson == Dumps(cmd.payload)
  }

  ghost predicate Advances(s: State, t: nat, s': State, tx: Tx)
    requires t in s.txs
  {
    || (tx.phase.Started? && s' == SetPhase(s, t, Locked))
    || (tx.phase.Started? && s' == SetPhase(s, t, Locked).(locks := s.locks[LockKey(tx.cmd.escrowId) := t]))
    || (tx.phase.Locked? && exists latest :: s' == SetPhase(s, t, HasRead(latest)))
    || (tx.phase.HasRead? && exists x :: Records(x, tx.cmd) && s' == SetPhase(s, t, Pending(x)))
  }

  ghost predicate Moves(s: State, a: Action, s': State) {
    || s' == s
    || (a.Begin? && a.t !in s.txs && s' == s.(txs := s.txs[a.t := Tx(a.cmd, Started)]))
    || (a.t in s.txs && Advances(s, a.t, s', s.txs[a.t]))
    || (a.t in s.txs && !s.txs[a.t].phase.Committed? && s' == Finish(s, a.t, Aborted))
    || (Commits(s, a) && s' == Finish(s, a.t, Committed).(rows := s.rows + [s.txs[a.t].phase.entry]))
  }

  lemma InsertMoves(H: Hash, cfg: Config, s: State, t: nat, now: int)
    requires t in s.txs && s.txs[t].phase.HasRead?
    ensures Moves(s, InsertRow(t, now), Step(H, cfg, s, InsertRow(t, now)))
  {
    var x := NextEntry(H, s.txs[t].cmd, s.txs[t].phase.latest, now);
    InsertSteps(H, cfg, s, t, now);
    InsertCases(s, t, now, x, TryInsert(cfg, s, t, x), Step(H, cfg, s, InsertRow(t, now)));
  }

  lemma InsertCases(s: State, t: nat, now: int, x: Entry, outcome: Outcome, s': State)
    requires t in s.txs && s.txs[t].phase.HasRead? && Records(x, s.txs[t].cmd)
    requires s' ==
      if outcome.Stored? then SetPhase(s, t, Pending(x)) else if outcome.Blocked? then s else Finish(s, t, Aborted)
    ensures Moves(s, InsertRow(t, now), s')
  {
  }

  lemma StepMoves(H: Hash, cfg: Config, s: State, a: Action)
    ensures Moves(s, a, Step(H, cfg, s, a))
  {
    match a
    case InsertRow(t, now) =>
      if t in s.txs && s.txs[t].phase.HasRead? {
        InsertMoves(H, cfg, s, t, now);
      }
    case _ =>
  }

  // ---------------------------------------------------------------------------------------------
  // Who holds a lock
  // ---------------------------------------------------------------------------------------------

  predicate SameFirstBytes(e: Uuid, f: Uuid) {
    e / 0x1_0000_0000_0000_0000 == f / 0x1_0000_0000_0000_0000
  }

  /** Escrows share a lock exactly when their first 8 bytes agree; a key is a signed 64-bit integer. */
  lemma LockKeySharedIff(e: Uuid, f: Uuid)
    ensures LockKey(e) == LockKey(f) <==> SameFirstBytes(e, f)
    ensures -0x8000_0000_0000_0000 <= LockKey(e) < 0x8000_0000_0000_0000
  {
  }

  predicate Owns(s: State, t: nat, key: int) {
    t in s.txs && Holds(s.txs[t].phase) && LockKey(s.txs[t].cmd.escrowId) == key
  }

  /** Every lock belongs to a transaction past the lock that is still open. */
  ghost predicate LocksOwned(s: State) {
    forall k :: k in s.locks ==> Owns(s, s.locks[k], k)
  }

  lemma MoveKeepsOwned(s: State, a: Action, s': State)
    requires LocksOwned(s) && Moves(s, a, s')
    ensures LocksOwned(s')
  {
    forall k | k in s'.locks
      ensures Owns(s', s'.locks[k], k)
    {
      if k in s.locks {
        assert Owns(s, s.locks[k], k);
      }
    }
  }

  lemma {:induction false} RunKeepsOwned(H: Hash, cfg: Config, s: State, run: seq<Action>)
    requires LocksOwned(s)
    ensures LocksOwned(Run(H, cfg, s, run))
    decreases |run|
  {
    if run != [] {
      StepMoves(H, cfg, s, run[0]);
      MoveKeepsOwned(s, run[0], Step(H, cfg, s, run[0]));
      RunKeepsOwned(H, cfg, Step(H, cfg, s, run[0]), run[1..]);
    }
  }

  /** Some open transaction past the lock works on an escrow with the same first 8 bytes. */
  ghost predicate LockTaken(s: State, e: Uuid) {
    exists u :: u in s.txs && Holds(s.txs[u].phase) && SameFirstBytes(s.txs[u].cmd.escrowId, e)
  }

  lemma LockTakenIff(s: State, e: Uuid)
    requires LockInv(s) && LocksOwned(s)
    ensures LockKey(e) in s.locks <==> LockTaken(s, e)
  {
    var key := LockKey(e);
    if key in s.locks {
      assert Owns(s, s.locks[key], key);
      LockKeySharedIff(s.txs[s.locks[key]].cmd.escrowId, e);
    }
    if LockTaken(s, e) {
      var u :| u in s.txs && Holds(s.txs[u].phase) && SameFirstBytes(s.txs[u].cmd.escrowId, e);
      assert LockOk(s.rows, s.locks, u, s.txs[u]);
      LockKeySharedIff(s.txs[u].cmd.escrowId, e);
    }
  }

  // ---------------------------------------------------------------------------------------------
  // Where rows come from
  // ---------------------------------------------------------------------------------------------

  /** The commits of a run in order: who committed, and the row. */
  function Stores(H: Hash, cfg: Config, s: State, run: seq<Action>): seq<(nat, Entry)>
    decreases |run|
  {
    if run == [] then []
    else Stored(s, run[0]) + Stores(H, cfg, Step(H, cfg, s, run[0]), run[1..])
  }

  function Stored(s: State, a: Action): seq<(nat, Entry)> {
    if Commits(s, a) then [(a.t, s.txs[a.t].phase.entry)] else []
  }

  ghost predicate PendingRecords(s: State) {
    forall t :: t in s.txs && s.txs[t].phase.Pending? ==> Records(s.txs[t].phase.entry, s.txs[t].cmd)
  }

  ghost predicate StoredBy(s: State, x: Entry, store: (nat, Entry)) {
    x == store.1 && store.0 in s.txs && s.txs[store.0].phase.Committed? && Records(x, s.txs[store.0].cmd)
  }

  /** The rows are those of the committed transactions, one each, and each records its command. */
  ghost predicate TableIs(s: State, stores: seq<(nat, Entry)>) {
    && |s.rows| == |stores|
    && (forall i :: 0 <= i < |stores| ==> StoredBy(s, s.rows[i], stores[i]))
    && (forall i, j :: 0 <= i < j < |stores| ==> stores[i].0 != stores[j].0)
    && (forall t :: t in s.txs && s.txs[t].phase.Committed? ==> HasStored(stores, t))
  }

  predicate HasStored(stores: seq<(nat, Entry)>, t: nat) {
    exists i :: 0 <= i < |stores| && stores[i].0 == t
  }

  predicate Ended(s: State, t: nat) {
    t in s.txs && (s.txs[t].phase.Committed? || s.txs[t].phase.Aborted?)
  }

  lemma MoveKeepsRecords(s: State, a: Action, s': State)
    requires PendingRecords(s) && Moves(s, a, s')
    ensures PendingRecords(s')
  {
  }

  /** A transaction that ended stays as it is. */
  lemma MoveKeepsEnded(s: State, a: Action, s': State, t: nat)
    requires Ended(s, t) && Moves(s, a, s')
    ensures Ended(s', t) && s'.txs[t] == s.txs[t]
  {
  }

  /** The table changes at a commit only. */
  lemma MoveRows(s: State, a: Action, s': State)
    requires Moves(s, a, s')
    ensures !Commits(s, a) ==> s'.rows == s.rows
    ensures forall t :: t in s'.txs && s'.txs[t].phase.Committed? ==> Ended(s, t) || (Commits(s, a) && t == a.t)
  {
  }

  lemma CommitStep(H: Hash, cfg: Config, s: State, a: Action)
    requires Commits(s, a)
    ensures Step(H, cfg, s, a) == Finish(s, a.t, Committed).(rows := s.rows + [s.txs[a.t].phase.entry])
  {
  }

  lemma MoveKeepsTable(s: State, a: Action, s': State, stores: seq<(nat, Entry)>)
    requires PendingRecords(s) && TableIs(s, stores) && Moves(s, a, s')
    requires Commits(s, a) ==> s' == Finish(s, a.t, Committed).(rows := s.rows + [s.txs[a.t].phase.entry])
    ensures TableIs(s', stores + Stored(s, a))
  {
    var after := stores + Stored(s, a);
    MoveRows(s, a, s');
    forall i | 0 <= i < |after|
      ensures StoredBy(s', s'.rows[i], after[i])
    {
      if i < |stores| {
        assert StoredBy(s, s.rows[i], stores[i]);
        MoveKeepsEnded(s, a, s', stores[i].0);
      }
    }
    forall i, j | 0 <= i < j < |after|
      ensures after[i].0 != after[j].0
    {
      assert StoredBy(s, s.rows[i], stores[i]);
    }
    forall t | t in s'.txs && s'.txs[t].phase.Committed?
      ensures HasStored(after, t)
    {
      if Commits(s, a) && t == a.t {
        assert after[|stores|].0 == t;
      } else {
        MoveKeepsEnded(s, a, s', t);
        var i :| 0 <= i < |stores| && stores[i].0 == t;
        assert after[i].0 == t;
      }
    }
  }

  lemma Regroup<T>(a: seq<T>, b: seq<T>, c: seq<T>)
    ensures a + b + c == a + (b + c)
  {
  }

  lemma {:induction false} RunKeepsTable(H: Hash, cfg: Config, s: State, run: seq<Action>, stores: seq<(nat, Entry)>)
    requires PendingRecords(s) && TableIs(s, stores)
    ensures TableIs(Run(H, cfg, s, run), stores + Stores(H, cfg, s, run))
    decreases |run|
  {
    if run == [] {
      assert stores + [] == stores;
    } else {
      var now := Stored(s, run[0]);
      var next := Step(H, cfg, s, run[0]);
      var rest := Stores(H, cfg, next, run[1..]);
      StepMoves(H, cfg, s, run[0]);
      MoveKeepsRecords(s, run[0], next);
      if Commits(s, run[0]) {
        CommitStep(H, cfg, s, run[0]);
      }
      MoveKeepsTable(s, run[0], next, stores);
      RunKeepsTable(H, cfg, next, run[1..], stores + now);
      Regroup(stores, now, rest);
    }
  }

  /** After any run the table holds the rows of the run's commits, one for each committed transaction. */
  lemma EveryRowWasCommitted(H: Hash, cfg: Config, run: seq<Action>)
    ensures TableIs(Run(H, cfg, Empty, run), Stores(H, cfg, Empty, run))
  {
    RunKeepsTable(H, cfg, Empty, run, []);
    assert [] + Stores(H, cfg, Empty, run) == Stores(H, cfg, Empty, run);
  }

  // ---------------------------------------------------------------------------------------------
  // Rollback
  // ---------------------------------------------------------------------------------------------

  lemma {:induction false} RunKeepsEnded(H: Hash, cfg: Config, s: State, run: seq<Action>, t: nat)
    requires Ended(s, t)
    ensures Ended(Run(H, cfg, s, run), t) && Run(H, cfg, s, run).txs[t] == s.txs[t]
    decreases |run|
  {
    if run != [] {
      StepMoves(H, cfg, s, run[0]);
      MoveKeepsEnded(s, run[0], Step(H, cfg, s, run[0]), t);
      RunKeepsEnded(H, cfg, Step(H, cfg, s, run[0]), run[1..], t);
    }
  }

  lemma {:induction false} RunSplits(H: Hash, cfg: Config, s: State, a: seq<Action>, b: seq<Action>)
    ensures Run(H, cfg, s, a + b) == Run(H, cfg, Run(H, cfg, s, a), b)
    decreases |a|
  {
    if a == [] {
      assert a + b == b;
    } else {
      assert (a + b)[1..] == a[1..] + b;
      RunSplits(H, cfg, Step(H, cfg, s, a[0]), a[1..], b);
    }
  }

  lemma RunThen(H: Hash, cfg: Config, s: State, a: seq<Action>, x: Action, b: seq<Action>)
    ensures Run(H, cfg, s, a + ([x] + b)) == Run(H, cfg, Step(H, cfg, Run(H, cfg, s, a), x), b)
  {
    RunSplits(H, cfg, s, a, [x] + b);
    assert ([x] + b)[1..] == b;
  }

  lemma RollbackStep(H: Hash, cfg: Config, s: State, t: nat)
    requires t in s.txs && !s.txs[t].phase.Committed?
    ensures Step(H, cfg, s, Rollback(t)) == Finish(s, t, Aborted)
  {
  }

  /** With the transaction ended, a waiting append with the same key gets its lock. */
  lemma KeyIsFree(H: Hash, cfg: Config, s: State, t: nat, u: nat)
    requires cfg.locking && LockInv(s) && t in s.txs && Holds(s.txs[t].phase)
    requires u in s.txs && s.txs[u].phase.Started? && SameFirstBytes(s.txs[u].cmd.escrowId, s.txs[t].cmd.escrowId)
    ensures var next := Step(H, cfg, Finish(s, t, Aborted), AcquireLock(u));
      u in next.txs && next.txs[u].phase.Locked?
  {
    assert LockOk(s.rows, s.locks, t, s.txs[t]);
    LockKeySharedIff(s.txs[u].cmd.escrowId, s.txs[t].cmd.escrowId);
    assert LockKey(s.txs[u].cmd.escrowId) !in Finish(s, t, Aborted).locks;
  }

  /**
   A rollback at any moment of any run, before its commit: the table stays as it is, the transaction
   contributes no row to the whole run, before or after, and never again holds a lock; whoever waits
   for its lock gets it.
   */
  lemma RolledBackLeavesNothing(H: Hash, cfg: Config, before: seq<Action>, t: nat, after: seq<Action>)
    requires var s := Run(H, cfg, Empty, before); t in s.txs && !s.txs[t].phase.Committed?
    ensures var s := Run(H, cfg, Empty, before);
      var next := Step(H, cfg, s, Rollback(t));
      var end := Run(H, cfg, next, after);
      && next.rows == s.rows
      && t in end.txs && end.txs[t] == s.txs[t].(phase := Aborted)
      && (forall u :: u in s.txs && u != t ==> u in next.txs && next.txs[u] == s.txs[u])
      && end == Run(H, cfg, Empty, before + ([Rollback(t)] + after))
      && !HasStored(Stores(H, cfg, Empty, before + ([Rollback(t)] + after)), t)
      && (forall k :: k in end.locks ==> end.locks[k] != t)
    ensures cfg.locking ==> forall u :: FreedBy(Run(H, cfg, Empty, before), t, u) ==>
      GetsLock(H, cfg, Step(H, cfg, Run(H, cfg, Empty, before), Rollback(t)), u)
  {
    var s := Run(H, cfg, Empty, before);
    var next := Step(H, cfg, s, Rollback(t));
    var whole := before + ([Rollback(t)] + after);
    RollbackStep(H, cfg, s, t);
    RunThen(H, cfg, Empty, before, Rollback(t), after);
    RunKeepsEnded(H, cfg, next, after, t);
    EveryRowWasCommitted(H, cfg, whole);
    NeverStored(Run(H, cfg, Empty, whole), Stores(H, cfg, Empty, whole), t);
    RunKeepsOwned(H, cfg, Empty, whole);
    EndedHoldsNothing(Run(H, cfg, Empty, whole), t);
    if cfg.locking {
      EmptyInv(H);
      RunKeepsLocks(H, cfg, Empty, before);
      forall u | FreedBy(s, t, u)
        ensures GetsLock(H, cfg, next, u)
      {
        KeyIsFree(H, cfg, s, t, u);
      }
    }
  }

  /** `u` waits for a lock that `t` holds. */
  predicate FreedBy(s: State, t: nat, u: nat) {
    && t in s.txs && Holds(s.txs[t].phase)
    && u in s.txs && s.txs[u].phase.Started?
    && SameFirstBytes(s.txs[u].cmd.escrowId, s.txs[t].cmd.escrowId)
  }

  predicate GetsLock(H: Hash, cfg: Config, s: State, u: nat) {
    var next := Step(H, cfg, s, AcquireLock(u));
    u in next.txs && next.txs[u].phase.Locked?
  }

  lemma NeverStored(s: State, stores: seq<(nat, Entry)>, t: nat)
    requires TableIs(s, stores) && t in s.txs && !s.txs[t].phase.Committed?
    ensures !HasStored(stores, t)
  {
  }

  lemma EndedHoldsNothing(s: State, t: nat)
    requires LocksOwned(s) && Ended(s, t)
    ensures forall k :: k in s.locks ==> s.locks[k] != t
  {
    forall k | k in s.locks
      ensures s.locks[k] != t
    {
      assert Owns(s, s.locks[k], k);
    }
  }
}
