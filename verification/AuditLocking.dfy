/** What the advisory lock adds to the append protocol, and which inserts are still refused. */
module AuditLocking {
  import opened Prelude
  import opened JsonIdentity
  import opened AuditLog
  import opened AuditAppend

  predicate Holds(p: Phase) {
    p.Locked? || p.HasRead? || p.Pending?
  }

  /** A transaction past the lock owns its key, and what it read is still the latest row. */
  ghost predicate LockOk(rows: seq<Entry>, locks: map<int, nat>, t: nat, tx: Tx) {
    && (Holds(tx.phase) ==> LockKey(tx.cmd.escrowId) in locks && locks[LockKey(tx.cmd.escrowId)] == t)
    && (tx.phase.HasRead? ==> tx.phase.latest == Latest(rows, tx.cmd.escrowId))
  }

  ghost predicate LockInv(s: State) {
    forall t :: t in s.txs ==> LockOk(s.rows, s.locks, t, s.txs[t])
  }

  lemma FinishKeepsLocks(s: State, t: nat, p: Phase)
    requires LockInv(s) && t in s.txs && !Holds(p)
    ensures LockInv(Finish(s, t, p))
  {
    var s' := Finish(s, t, p);
    forall u | u in s'.txs
      ensures LockOk(s'.rows, s'.locks, u, s'.txs[u])
    {
      assert LockOk(s.rows, s.locks, u, s.txs[u]);
    }
  }

  lemma CommitKeepsLocks(H: Hash, cfg: Config, s: State, t: nat)
    requires Inv(H, s) && LockInv(s) && t in s.txs && s.txs[t].phase.Pending?
    ensures LockInv(Step(H, cfg, s, Commit(t)))
  {
    var x := s.txs[t].phase.entry;
    assert TxOk(H, s.rows, s.txs[t]) && LockOk(s.rows, s.locks, t, s.txs[t]);
    FinishKeepsLocks(s, t, Committed);
    var s' := Step(H, cfg, s, Commit(t));
    forall u | u in s'.txs
      ensures LockOk(s'.rows, s'.locks, u, s'.txs[u])
    {
      assert LockOk(s.rows, s.locks, u, s.txs[u]);
      OfAppend(s.rows, x, s'.txs[u].cmd.escrowId);
    }
  }

  lemma AcquireKeepsLocks(H: Hash, cfg: Config, s: State, t: nat)
    requires cfg.locking && LockInv(s)
    ensures LockInv(Step(H, cfg, s, AcquireLock(t)))
  {
    var s' := Step(H, cfg, s, AcquireLock(t));
    forall u | u in s'.txs
      ensures LockOk(s'.rows, s'.locks, u, s'.txs[u])
    {
      assert LockOk(s.rows, s.locks, u, s.txs[u]);
    }
  }

  lemma StepKeepsLocks(H: Hash, cfg: Config, s: State, a: Action)
    requires cfg.locking && Inv(H, s) && LockInv(s)
    ensures LockInv(Step(H, cfg, s, a))
  {
    match a
    case Begin(t, cmd) =>
    case AcquireLock(t) => AcquireKeepsLocks(H, cfg, s, t);
    case ReadLatest(t, _) =>
      if t in s.txs {
        assert LockOk(s.rows, s.locks, t, s.txs[t]);
      }
    case InsertRow(t, now) =>
      if t in s.txs && s.txs[t].phase.HasRead? {
        assert LockOk(s.rows, s.locks, t, s.txs[t]);
        FinishKeepsLocks(s, t, Aborted);
      }
    case Commit(t) =>
      if t in s.txs && s.txs[t].phase.Pending? {
        CommitKeepsLocks(H, cfg, s, t);
      }
    case Rollback(t) =>
      if t in s.txs && !s.txs[t].phase.Committed? {
        FinishKeepsLocks(s, t, Aborted);
      }
  }

  lemma {:induction false} RunKeepsLocks(H: Hash, cfg: Config, s: State, run: seq<Action>)
    requires cfg.locking && Inv(H, s) && LockInv(s)
    ensures LockInv(Run(H, cfg, s, run)) && Inv(H, Run(H, cfg, s, run))
    decreases |run|
  {
    if run != [] {
      StepKeepsInv(H, cfg, s, run[0]);
      StepKeepsLocks(H, cfg, s, run[0]);
      RunKeepsLocks(H, cfg, Step(H, cfg, s, run[0]), run[1..]);
    }
  }

  /** The triggers under which the service can work: none, or one that expects the genesis value. */
  predicate CommonMarker(cfg: Config) {
    cfg.trigger == None || cfg.trigger == Some(GENESIS_HASH)
  }

  lemma LockedRowFits(H: Hash, rows: seq<Entry>, cmd: Command, now: int)
    requires TableOk(H, rows)
    ensures var x := NextEntry(H, cmd, Latest(rows, cmd.escrowId), now);
      && Fits(H, rows, x)
      && x.escrowId == cmd.escrowId
      && !DuplicateNumber(rows, x)
      && TriggerAdmits(GENESIS_HASH, rows, x)
  {
    var log := Of(rows, cmd.escrowId);
    assert Log(H, log);
    GreatestIsLast(log);
    DumpsBalanced(cmd.payload);
    var x := NextEntry(H, cmd, Latest(rows, cmd.escrowId), now);
    forall i | 0 <= i < |rows|
      ensures !SameNumber(rows[i], x)
    {
      if rows[i].escrowId == cmd.escrowId {
        OfComplete(rows, rows[i]);
      }
    }
  }

  /** Another open transaction has a row with this hash waiting to commit. */
  ghost predicate HashPending(s: State, t: nat, x: Entry) {
    exists u :: u in s.txs && u != t && s.txs[u].phase.Pending? && s.txs[u].phase.entry.entryHash == x.entryHash
  }

  lemma OnlyHashesClash(H: Hash, s: State, t: nat, x: Entry)
    requires Inv(H, s) && LockInv(s) && t in s.txs && s.txs[t].phase.HasRead? && x.escrowId == s.txs[t].cmd.escrowId
    ensures MustWait(s, t, x) <==> HashPending(s, t, x)
  {
    assert LockOk(s.rows, s.locks, t, s.txs[t]);
    if MustWait(s, t, x) {
      var u :| u in s.txs && u != t && s.txs[u].phase.Pending? && Clash(s.txs[u].phase.entry, x);
      assert LockOk(s.rows, s.locks, u, s.txs[u]) && TxOk(H, s.rows, s.txs[u]);
    }
  }

  /** What a writer that holds its lock can meet at its insert, whatever the other writers are doing. */
  lemma LockedInsert(H: Hash, cfg: Config, s: State, t: nat, now: int)
    requires cfg.locking && Inv(H, s) && LockInv(s)
    requires t in s.txs && s.txs[t].phase.HasRead?
    ensures var x := NextEntry(H, s.txs[t].cmd, s.txs[t].phase.latest, now);
      var outcome := TryInsert(cfg, s, t, x);
      && Fits(H, s.rows, x) && x.escrowId == s.txs[t].cmd.escrowId
      && s.txs[t].phase.latest == Latest(s.rows, s.txs[t].cmd.escrowId)
      && (outcome == RefusedByTrigger ==> !CommonMarker(cfg))
      && (outcome != RefusedByTrigger ==>
            outcome == if HashPending(s, t, x) then Blocked else if DuplicateHash(s.rows, x) then RefusedHash else Stored)
  {
    assert LockOk(s.rows, s.locks, t, s.txs[t]);
    LockedRowFits(H, s.rows, s.txs[t].cmd, now);
    OnlyHashesClash(H, s, t, NextEntry(H, s.txs[t].cmd, s.txs[t].phase.latest, now));
  }

  /**
   With the lock held to commit, no append of any run is refused for its sequence number, nor by a
   trigger with the service's own first-row marker. It can wait only for, and be refused only
   because of, a row with the same entry hash.
   */
  lemma LockedInsertRefusedOnlyForHash(H: Hash, cfg: Config, run: seq<Action>, t: nat, now: int)
    requires cfg.locking && CommonMarker(cfg)
    requires var s := Run(H, cfg, Empty, run); t in s.txs && s.txs[t].phase.HasRead?
    ensures var s := Run(H, cfg, Empty, run);
      var x := NextEntry(H, s.txs[t].cmd, s.txs[t].phase.latest, now);
      && TryInsert(cfg, s, t, x) ==
           (if HashPending(s, t, x) then Blocked else if DuplicateHash(s.rows, x) then RefusedHash else Stored)
      && x.sequenceNo == |Of(s.rows, x.escrowId)|
  {
    EmptyInv(H);
    RunKeepsLocks(H, cfg, Empty, run);
    LockedInsert(H, cfg, Run(H, cfg, Empty, run), t, now);
  }

  /** The escrow's committed log, then the row about to be stored. */
  ghost function Candidate(rows: seq<Entry>, x: Entry): seq<Entry> {
    Of(rows, x.escrowId) + [x]
  }

  /** Another escrow already holds this whole history, event for event and payload for payload. */
  ghost predicate HistoryTaken(rows: seq<Entry>, x: Entry) {
    exists e: Uuid :: SameHistory(Of(rows, e), Candidate(rows, x), x.sequenceNo)
  }

  /**
   A row that fits its log repeats a stored hash exactly when some escrow's log already begins with
   the same history: the hash covers neither the escrow nor the number.
   */
  lemma RefusedExactlyForRepeatedHistory(H: Hash, rows: seq<Entry>, x: Entry)
    requires TableOk(H, rows) && Fits(H, rows, x)
    requires CollisionFree(H, HashedTexts(rows + [x]))
    ensures DuplicateHash(rows, x) <==> HistoryTaken(rows, x)
  {
    var mine := Candidate(rows, x);
    assert Log(H, Of(rows, x.escrowId));
    LogExtends(H, Of(rows, x.escrowId), x);
    forall e: Uuid, i | 0 <= i < |Of(rows, e)|
      ensures Of(rows, e)[i].entryHash == x.entryHash
         <==> i == x.sequenceNo && SameHistory(Of(rows, e), mine, i)
    {
      assert Log(H, Of(rows, e));
      TextsOfLogs(rows, e, x);
      HashMeetsHistory(H, Of(rows, e), mine, i, x.sequenceNo);
    }
    if DuplicateHash(rows, x) {
      var k :| 0 <= k < |rows| && rows[k].entryHash == x.entryHash;
      var e := rows[k].escrowId;
      OfComplete(rows, rows[k]);
      var i :| 0 <= i < |Of(rows, e)| && Of(rows, e)[i] == rows[k];
      assert SameHistory(Of(rows, e), mine, x.sequenceNo);
    }
    if HistoryTaken(rows, x) {
      var e: Uuid :| SameHistory(Of(rows, e), mine, x.sequenceNo);
      var r := Of(rows, e)[x.sequenceNo];
      assert r.entryHash == x.entryHash && r in rows;
    }
  }

  lemma TextsOfLogs(rows: seq<Entry>, e: Uuid, x: Entry)
    ensures HashedTexts(Of(rows, e)) + HashedTexts(Candidate(rows, x)) <= HashedTexts(rows + [x])
  {
    var all := rows + [x];
    assert forall r :: r in rows ==> r in all;
    assert x in all;
    forall text | text in HashedTexts(Of(rows, e)) + HashedTexts(Candidate(rows, x))
      ensures text in HashedTexts(all)
    {
      var r :| r in all && PreimageOf(r) == text;
      var i :| 0 <= i < |all| && all[i] == r;
    }
  }

  // ---------------------------------------------------------------------------------------------
  // The trigger
  // ---------------------------------------------------------------------------------------------

  ghost predicate NothingStored(s: State) {
    s.rows == [] && forall t :: t in s.txs ==> !s.txs[t].phase.Pending?
  }

  lemma FirstRowRefused(H: Hash, cfg: Config, s: State, t: nat, cmd: Command, now: int)
    requires !CommonMarker(cfg) && s.rows == []
    ensures TryInsert(cfg, s, t, NextEntry(H, cmd, None, now)) == RefusedByTrigger
  {
    assert Of([], cmd.escrowId) == [];
  }

  lemma WrongMarkerStep(H: Hash, cfg: Config, s: State, a: Action)
    requires !CommonMarker(cfg) && Inv(H, s) && NothingStored(s)
    ensures NothingStored(Step(H, cfg, s, a))
  {
    match a
    case InsertRow(t, now) =>
      if t in s.txs && s.txs[t].phase.HasRead? {
        assert TxOk(H, s.rows, s.txs[t]) && Of([], s.txs[t].cmd.escrowId) == [];
        FirstRowRefused(H, cfg, s, t, s.txs[t].cmd, now);
      }
    case _ =>
  }

  lemma {:induction false} WrongMarkerStoresNothing(H: Hash, cfg: Config, s: State, run: seq<Action>)
    requires !CommonMarker(cfg)
    requires Inv(H, s) && NothingStored(s)
    ensures NothingStored(Run(H, cfg, s, run))
    decreases |run|
  {
    if run != [] {
      StepKeepsInv(H, cfg, s, run[0]);
      WrongMarkerStep(H, cfg, s, run[0]);
      WrongMarkerStoresNothing(H, cfg, Step(H, cfg, s, run[0]), run[1..]);
    }
  }

  /** One writer, alone, step by step. */
  function Script(t: nat, cmd: Command, snapshot: nat, now: int): seq<Action> {
    [Begin(t, cmd), AcquireLock(t), ReadLatest(t, snapshot), InsertRow(t, now), Commit(t)]
  }

  lemma RunFive(H: Hash, cfg: Config, s: State, t: nat, cmd: Command, snapshot: nat, now: int)
    ensures Run(H, cfg, s, Script(t, cmd, snapshot, now)) ==
      Step(H, cfg, Step(H, cfg, Step(H, cfg, Step(H, cfg, Step(H, cfg, s,
        Begin(t, cmd)), AcquireLock(t)), ReadLatest(t, snapshot)), InsertRow(t, now)), Commit(t))
  {
    var r := Script(t, cmd, snapshot, now);
    var s1 := Step(H, cfg, s, r[0]);
    var s2 := Step(H, cfg, s1, r[1]);
    var s3 := Step(H, cfg, s2, r[2]);
    var s4 := Step(H, cfg, s3, r[3]);
    assert Run(H, cfg, s, r) == Run(H, cfg, s1, r[1..]);
    assert Run(H, cfg, s1, r[1..]) == Run(H, cfg, s2, r[2..]);
    assert Run(H, cfg, s2, r[2..]) == Run(H, cfg, s3, r[3..]);
    assert Run(H, cfg, s3, r[3..]) == Run(H, cfg, s4, r[4..]);
    assert Run(H, cfg, s4, r[4..]) == Run(H, cfg, Step(H, cfg, s4, r[4]), r[5..]);
    assert r[5..] == [];
  }

  lemma LoneWriterReads(H: Hash, cfg: Config, cmd: Command)
    ensures var s := Step(H, cfg, Step(H, cfg, Step(H, cfg, Empty, Begin(0, cmd)), AcquireLock(0)), ReadLatest(0, 0));
      s.rows == [] && s.txs == map[0 := Tx(cmd, HasRead(None))]
  {
    var s1 := Step(H, cfg, Empty, Begin(0, cmd));
    assert s1 == State([], map[], map[0 := Tx(cmd, Started)]);
    var s2 := Step(H, cfg, s1, AcquireLock(0));
    assert s2.rows == [] && s2.txs == map[0 := Tx(cmd, Locked)];
    assert Of([], cmd.escrowId) == [];
  }

  /** On an empty table with nobody else inserting, a genesis-linked row is stored. */
  lemma FirstRowStored(cfg: Config, s: State, t: nat, x: Entry)
    requires CommonMarker(cfg) && s.rows == [] && x.prevHash == GENESIS_HASH
    requires forall u :: u in s.txs && u != t ==> !s.txs[u].phase.Pending?
    ensures TryInsert(cfg, s, t, x) == Stored
  {
    assert Of([], x.escrowId) == [];
  }

  lemma LoneWriterInserts(H: Hash, cfg: Config, s: State, cmd: Command)
    requires CommonMarker(cfg) && s.rows == [] && s.txs == map[0 := Tx(cmd, HasRead(None))]
    ensures var inserted := Step(H, cfg, s, InsertRow(0, 0));
      inserted.rows == [] && 0 in inserted.txs && inserted.txs[0].phase.Pending?
  {
    NextEntryParts(H, cmd, None, 0);
    FirstRowStored(cfg, s, 0, NextEntry(H, cmd, None, 0));
    InsertSteps(H, cfg, s, 0, 0);
  }

  lemma LoneWriterStores(H: Hash, cfg: Config) returns (run: seq<Action>)
    requires CommonMarker(cfg)
    ensures |Run(H, cfg, Empty, run).rows| == 1
  {
    var cmd := Command(0, "EscrowFunded", []);
    run := Script(0, cmd, 0, 0);
    RunFive(H, cfg, Empty, 0, cmd, 0, 0);
    LoneWriterReads(H, cfg, cmd);
    var read := Step(H, cfg, Step(H, cfg, Step(H, cfg, Empty, Begin(0, cmd)), AcquireLock(0)), ReadLatest(0, 0));
    LoneWriterInserts(H, cfg, read, cmd);
    LoneWriterCommits(H, cfg, Step(H, cfg, read, InsertRow(0, 0)));
  }

  lemma LoneWriterCommits(H: Hash, cfg: Config, s: State)
    requires s.rows == [] && 0 in s.txs && s.txs[0].phase.Pending?
    ensures |Step(H, cfg, s, Commit(0)).rows| == 1
  {
  }

  /**
   The service can ever store a row exactly when the trigger is absent or takes the service's own
   first-row value. With the marker as written, the empty string, no run of any writers stores one.
   */
  lemma TriggerAndServiceAgree(H: Hash, cfg: Config)
    ensures (exists run: seq<Action> :: Run(H, cfg, Empty, run).rows != []) <==> CommonMarker(cfg)
    ensures cfg.trigger == Some("") ==> forall run: seq<Action> :: Run(H, cfg, Empty, run).rows == []
  {
    EmptyInv(H);
    if CommonMarker(cfg) {
      var run := LoneWriterStores(H, cfg);
      assert Run(H, cfg, Empty, run).rows != [];
    } else {
      forall run: seq<Action>
        ensures Run(H, cfg, Empty, run).rows == []
      {
        WrongMarkerStoresNothing(H, cfg, Empty, run);
      }
    }
    assert |GENESIS_HASH| == 64;
  }
}
