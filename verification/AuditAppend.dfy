/**
 `append_audit_event` as a transaction made of steps, run by any number of writers in any
 interleaving over one append-only table.

 With `locking` the advisory lock is honoured and every read sees all committed rows. Without it
 the lock is void and a read may return the latest entry of any earlier state of the table.
 `trigger` is the insert trigger's marker for a first row, or `None` where the trigger is absent.
 */
module AuditAppend {
  import opened Prelude
  import opened CanonicalJson
  import opened JsonDecoding
  import opened JsonIdentity
  import opened AuditLog

  datatype Command = Command(escrowId: Uuid, eventType: string, payload: Dict)

  datatype Config = Config(locking: bool, trigger: Option<string>)

  datatype Phase =
    | Started
    | Locked
    | HasRead(latest: Option<Entry>)
    | Pending(entry: Entry)
    | Committed
    | Aborted

  datatype Tx = Tx(cmd: Command, phase: Phase)

  datatype State = State(rows: seq<Entry>, locks: map<int, nat>, txs: map<nat, Tx>)

  datatype Action =
    | Begin(t: nat, cmd: Command)
    | AcquireLock(t: nat)
    | ReadLatest(t: nat, snapshot: nat)
    | InsertRow(t: nat, now: int)
    | Commit(t: nat)
    | Rollback(t: nat)

  const Empty := State([], map[], map[])

  // ---------------------------------------------------------------------------------------------
  // The table
  // ---------------------------------------------------------------------------------------------

  /** The rows of one escrow, in the order they were committed. */
  function Of(rows: seq<Entry>, e: Uuid): (r: seq<Entry>)
    ensures forall i :: 0 <= i < |r| ==> r[i].escrowId == e && r[i] in rows
  {
    if rows == [] then []
    else
      var r := Of(rows[..|rows| - 1], e);
      if rows[|rows| - 1].escrowId == e then r + [rows[|rows| - 1]] else r
  }

  /** The row with the greatest sequence number. */
  function Greatest(es: seq<Entry>): (r: Option<Entry>)
    ensures es == [] <==> r == None
    ensures r.Some? ==> r.value in es
  {
    if es == [] then None
    else
      var r := Greatest(es[..|es| - 1]);
      var last := es[|es| - 1];
      if r.Some? && last.sequenceNo <= r.value.sequenceNo then r else Some(last)
  }

  function Latest(rows: seq<Entry>, e: Uuid): Option<Entry> {
    Greatest(Of(rows, e))
  }

  /** First 8 bytes of the UUID as a signed big-endian integer: different escrows may share a key. */
  function LockKey(e: Uuid): int {
    var high := e / 0x1_0000_0000_0000_0000;
    if high < 0x8000_0000_0000_0000 then high else high - 0x1_0000_0000_0000_0000
  }

  predicate SameNumber(x: Entry, y: Entry) {
    x.escrowId == y.escrowId && x.sequenceNo == y.sequenceNo
  }

  predicate DuplicateNumber(rows: seq<Entry>, x: Entry) {
    exists i :: 0 <= i < |rows| && SameNumber(rows[i], x)
  }

  predicate DuplicateHash(rows: seq<Entry>, x: Entry) {
    exists i :: 0 <= i < |rows| && rows[i].entryHash == x.entryHash
  }

  /** The insert trigger: a first row carries the marker, any other names the latest row's hash. */
  predicate TriggerAdmits(marker: string, rows: seq<Entry>, x: Entry) {
    match Latest(rows, x.escrowId)
    case None => x.prevHash == marker
    case Some(l) => x.prevHash == l.entryHash
  }

  function NextEntry(H: Hash, cmd: Command, latest: Option<Entry>, now: int): Entry {
    match latest
    case None => CreateEntry(H, cmd.escrowId, 0, cmd.eventType, cmd.payload, GENESIS_HASH, now)
    case Some(l) => CreateEntry(H, cmd.escrowId, l.sequenceNo + 1, cmd.eventType, cmd.payload, l.entryHash, now)
  }

  // ---------------------------------------------------------------------------------------------
  // Steps
  // ---------------------------------------------------------------------------------------------

  datatype Outcome = Stored | Blocked | RefusedByTrigger | RefusedNumber | RefusedHash

  predicate Clash(x: Entry, y: Entry) {
    SameNumber(x, y) || x.entryHash == y.entryHash
  }

  /** An insert waits for any other open transaction holding a row with one of its unique values. */
  predicate MustWait(s: State, t: nat, x: Entry) {
    exists u :: u in s.txs && u != t && s.txs[u].phase.Pending? && Clash(s.txs[u].phase.entry, x)
  }

  function TryInsert(cfg: Config, s: State, t: nat, x: Entry): Outcome {
    if cfg.trigger.Some? && !TriggerAdmits(cfg.trigger.value, s.rows, x) then RefusedByTrigger
    else if MustWait(s, t, x) then Blocked
    else if DuplicateNumber(s.rows, x) then RefusedNumber
    else if DuplicateHash(s.rows, x) then RefusedHash
    else Stored
  }

  function SetPhase(s: State, t: nat, p: Phase): State
    requires t in s.txs
  {
    s.(txs := s.txs[t := s.txs[t].(phase := p)])
  }

  /** Ends a transaction, which gives up its lock. */
  function Finish(s: State, t: nat, p: Phase): State
    requires t in s.txs
  {
    SetPhase(s, t, p).(locks := map k | k in s.locks && s.locks[k] != t :: s.locks[k])
  }

  /** One step; an action that is not possible now changes nothing. */
  function Step(H: Hash, cfg: Config, s: State, a: Action): State {
    match a
    case Begin(t, cmd) => if t in s.txs then s else s.(txs := s.txs[t := Tx(cmd, Started)])
    case AcquireLock(t) =>
      if !(t in s.txs && s.txs[t].phase.Started?) then s
      else if !cfg.locking then SetPhase(s, t, Locked)
      else if LockKey(s.txs[t].cmd.escrowId) in s.locks then s
      else SetPhase(s, t, Locked).(locks := s.locks[LockKey(s.txs[t].cmd.escrowId) := t])
    case ReadLatest(t, snapshot) =>
      if !(t in s.txs && s.txs[t].phase.Locked?) then s
      else SetPhase(s, t, HasRead(Latest(Visible(cfg, s.rows, snapshot), s.txs[t].cmd.escrowId)))
    case InsertRow(t, now) =>
      if !(t in s.txs && s.txs[t].phase.HasRead?) then s
      else
        var x := NextEntry(H, s.txs[t].cmd, s.txs[t].phase.latest, now);
        (match TryInsert(cfg, s, t, x)
         case Blocked => s
         case Stored => SetPhase(s, t, Pending(x))
         case _ => Finish(s, t, Aborted))
    case Commit(t) =>
      if !(t in s.txs && s.txs[t].phase.Pending?) then s
      else Finish(s, t, Committed).(rows := s.rows + [s.txs[t].phase.entry])
    case Rollback(t) =>
      if !(t in s.txs && !s.txs[t].phase.Committed?) then s
      else Finish(s, t, Aborted)
  }

  function Visible(cfg: Config, rows: seq<Entry>, snapshot: nat): seq<Entry> {
    if cfg.locking || snapshot >= |rows| then rows else rows[..snapshot]
  }

  function Run(H: Hash, cfg: Config, s: State, run: seq<Action>): State
    decreases |run|
  {
    if run == [] then s else Run(H, cfg, Step(H, cfg, s, run[0]), run[1..])
  }

  // ---------------------------------------------------------------------------------------------
  // Facts about the table
  // ---------------------------------------------------------------------------------------------

  lemma {:induction false} OfPrefix(rows: seq<Entry>, k: nat, e: Uuid)
    requires k <= |rows|
    ensures Of(rows[..k], e) <= Of(rows, e)
  {
    if k < |rows| {
      var front := rows[..|rows| - 1];
      OfPrefix(front, k, e);
      assert front[..k] == rows[..k];
    } else {
      assert rows[..k] == rows;
    }
  }

  lemma OfAppend(rows: seq<Entry>, x: Entry, e: Uuid)
    ensures Of(rows + [x], e) == if x.escrowId == e then Of(rows, e) + [x] else Of(rows, e)
  {
    assert (rows + [x])[..|rows|] == rows;
  }

  lemma {:induction false} OfComplete(rows: seq<Entry>, r: Entry)
    requires r in rows
    ensures r in Of(rows, r.escrowId)
  {
    var n := |rows| - 1;
    if rows[n] != r {
      assert r in rows[..n];
      OfComplete(rows[..n], r);
    }
  }

  /** One escrow's log: numbered from 0 without gaps and chained from the genesis value. */
  ghost predicate Log(H: Hash, es: seq<Entry>) {
    && Chain(H, es)
    && BalancedPayloads(es)
    && forall i :: 0 <= i < |es| ==> es[i].sequenceNo == i
  }

  lemma {:induction false} GreatestIsLast(es: seq<Entry>)
    requires forall i :: 0 <= i < |es| ==> es[i].sequenceNo == i
    ensures Greatest(es) == if es == [] then None else Some(es[|es| - 1])
  {
    if es != [] {
      GreatestIsLast(es[..|es| - 1]);
    }
  }

  lemma LogExtends(H: Hash, es: seq<Entry>, x: Entry)
    requires Log(H, es)
    requires HashConsistent(H, x) && Balanced(x.payloadJson)
    requires x.sequenceNo == |es| && x.prevHash == LastHash(es)
    ensures Log(H, es + [x])
  {
    var r := es + [x];
    forall i | 0 <= i < |r|
      ensures SoundAt(H, r, i)
    {
      if i < |es| {
        assert SoundAt(H, es, i);
      }
    }
  }

  // ---------------------------------------------------------------------------------------------
  // What every interleaving keeps, with or without the lock
  // ---------------------------------------------------------------------------------------------

  ghost predicate UniqueHashes(rows: seq<Entry>) {
    forall i, j :: 0 <= i < j < |rows| ==> rows[i].entryHash != rows[j].entryHash
  }

  ghost predicate TableOk(H: Hash, rows: seq<Entry>) {
    UniqueHashes(rows) && forall e: Uuid :: Log(H, Of(rows, e))
  }

  /** A row that extends its escrow's log as it stands. */
  ghost predicate Fits(H: Hash, rows: seq<Entry>, x: Entry) {
    var log := Of(rows, x.escrowId);
    && HashConsistent(H, x)
    && Balanced(x.payloadJson)
    && x.sequenceNo == |log|
    && x.prevHash == LastHash(log)
  }

  ghost predicate TxOk(H: Hash, rows: seq<Entry>, tx: Tx) {
    match tx.phase
    case HasRead(latest) => latest.Some? ==> latest.value in Of(rows, tx.cmd.escrowId)
    case Pending(x) => x.escrowId == tx.cmd.escrowId && Fits(H, rows, x) && !DuplicateHash(rows, x)
    case _ => true
  }

  ghost predicate NoClashes(txs: map<nat, Tx>) {
    forall t, u :: t in txs && u in txs && t != u && txs[t].phase.Pending? && txs[u].phase.Pending? ==>
      !Clash(txs[t].phase.entry, txs[u].phase.entry)
  }

  ghost predicate Inv(H: Hash, s: State) {
    && TableOk(H, s.rows)
    && (forall t :: t in s.txs ==> TxOk(H, s.rows, s.txs[t]))
    && NoClashes(s.txs)
  }

  lemma EmptyInv(H: Hash)
    ensures Inv(H, Empty)
  {
  }

  lemma PhaseKeepsInv(H: Hash, s: State, t: nat, p: Phase)
    requires Inv(H, s) && t in s.txs
    requires TxOk(H, s.rows, s.txs[t].(phase := p))
    requires p.Pending? ==> !MustWait(s, t, p.entry)
    ensures Inv(H, SetPhase(s, t, p)) && Inv(H, Finish(s, t, p))
  {
    var txs' := SetPhase(s, t, p).txs;
    forall u, v | u in txs' && v in txs' && u != v && txs'[u].phase.Pending? && txs'[v].phase.Pending?
      ensures !Clash(txs'[u].phase.entry, txs'[v].phase.entry)
    {
      if u == t {
        assert !Clash(s.txs[v].phase.entry, p.entry);
      } else if v == t {
        assert !Clash(s.txs[u].phase.entry, p.entry);
      }
    }
  }

  lemma ReadKeepsInv(H: Hash, cfg: Config, s: State, t: nat, snapshot: nat)
    requires Inv(H, s)
    ensures Inv(H, Step(H, cfg, s, ReadLatest(t, snapshot)))
  {
    if t in s.txs && s.txs[t].phase.Locked? {
      var e := s.txs[t].cmd.escrowId;
      var seen := Visible(cfg, s.rows, snapshot);
      if seen != s.rows {
        OfPrefix(s.rows, snapshot, e);
      }
      assert Of(seen, e) <= Of(s.rows, e);
      PhaseKeepsInv(H, s, t, HasRead(Latest(seen, e)));
    }
  }

  lemma NextEntryParts(H: Hash, cmd: Command, latest: Option<Entry>, now: int)
    ensures var x := NextEntry(H, cmd, latest, now);
      && x.escrowId == cmd.escrowId
      && x.sequenceNo == (if latest == None then 0 else latest.value.sequenceNo + 1)
      && x.prevHash == (if latest == None then GENESIS_HASH else latest.value.entryHash)
      && HashConsistent(H, x) && Balanced(x.payloadJson)
  {
    DumpsBalanced(cmd.payload);
  }

  lemma TakenNumber(H: Hash, rows: seq<Entry>, x: Entry)
    requires Log(H, Of(rows, x.escrowId)) && x.sequenceNo < |Of(rows, x.escrowId)|
    ensures DuplicateNumber(rows, x)
  {
    var r := Of(rows, x.escrowId)[x.sequenceNo];
    assert r in rows && SameNumber(r, x);
  }

  /** A row built on any committed row of its escrow repeats a number or extends the log as it stands now. */
  lemma RowOnCommittedFits(H: Hash, rows: seq<Entry>, x: Entry, latest: Option<Entry>)
    requires TableOk(H, rows) && HashConsistent(H, x) && Balanced(x.payloadJson)
    requires latest.Some? ==> latest.value in Of(rows, x.escrowId)
    requires x.sequenceNo == if latest == None then 0 else latest.value.sequenceNo + 1
    requires x.prevHash == if latest == None then GENESIS_HASH else latest.value.entryHash
    requires !DuplicateNumber(rows, x)
    ensures Fits(H, rows, x)
  {
    var log := Of(rows, x.escrowId);
    assert Log(H, log);
    if x.sequenceNo < |log| {
      TakenNumber(H, rows, x);
      assert false;
    }
    if latest.Some? {
      var i :| 0 <= i < |log| && log[i] == latest.value;
      assert i == |log| - 1;
    }
  }

  /** The unique (escrow, number) pair repairs a stale read. */
  lemma FreshNumberFits(H: Hash, rows: seq<Entry>, cmd: Command, latest: Option<Entry>, now: int)
    requires TableOk(H, rows)
    requires latest.Some? ==> latest.value in Of(rows, cmd.escrowId)
    requires !DuplicateNumber(rows, NextEntry(H, cmd, latest, now))
    ensures Fits(H, rows, NextEntry(H, cmd, latest, now))
  {
    NextEntryParts(H, cmd, latest, now);
    RowOnCommittedFits(H, rows, NextEntry(H, cmd, latest, now), latest);
  }

  /** The insert step by its outcome. */
  lemma InsertSteps(H: Hash, cfg: Config, s: State, t: nat, now: int)
    requires t in s.txs && s.txs[t].phase.HasRead?
    ensures var x := NextEntry(H, s.txs[t].cmd, s.txs[t].phase.latest, now);
      var outcome := TryInsert(cfg, s, t, x);
      Step(H, cfg, s, InsertRow(t, now)) ==
        if outcome.Stored? then SetPhase(s, t, Pending(x)) else if outcome.Blocked? then s else Finish(s, t, Aborted)
  {
  }

  /** Inserting a row that was built on a committed one keeps the invariant, whatever becomes of it. */
  lemma RowKeepsInv(H: Hash, cfg: Config, s: State, t: nat, x: Entry, latest: Option<Entry>)
    requires Inv(H, s) && t in s.txs && x.escrowId == s.txs[t].cmd.escrowId
    requires HashConsistent(H, x) && Balanced(x.payloadJson)
    requires latest.Some? ==> latest.value in Of(s.rows, x.escrowId)
    requires x.sequenceNo == if latest == None then 0 else latest.value.sequenceNo + 1
    requires x.prevHash == if latest == None then GENESIS_HASH else latest.value.entryHash
    ensures TryInsert(cfg, s, t, x).Stored? ==> Inv(H, SetPhase(s, t, Pending(x)))
    ensures Inv(H, Finish(s, t, Aborted))
  {
    PhaseKeepsInv(H, s, t, Aborted);
    if TryInsert(cfg, s, t, x).Stored? {
      RowOnCommittedFits(H, s.rows, x, latest);
      PhaseKeepsInv(H, s, t, Pending(x));
    }
  }

  lemma InsertKeepsInv(H: Hash, cfg: Config, s: State, t: nat, now: int)
    requires Inv(H, s)
    ensures Inv(H, Step(H, cfg, s, InsertRow(t, now)))
  {
    if t in s.txs && s.txs[t].phase.HasRead? {
      var tx := s.txs[t];
      assert TxOk(H, s.rows, tx);
      NextEntryParts(H, tx.cmd, tx.phase.latest, now);
      RowKeepsInv(H, cfg, s, t, NextEntry(H, tx.cmd, tx.phase.latest, now), tx.phase.latest);
      InsertSteps(H, cfg, s, t, now);
    }
  }

  lemma TableGrows(H: Hash, rows: seq<Entry>, x: Entry)
    requires TableOk(H, rows) && Fits(H, rows, x) && !DuplicateHash(rows, x)
    ensures TableOk(H, rows + [x])
  {
    forall e: Uuid
      ensures Log(H, Of(rows + [x], e))
    {
      OfAppend(rows, x, e);
      assert Log(H, Of(rows, e));
      if e == x.escrowId {
        LogExtends(H, Of(rows, e), x);
      }
    }
  }

  lemma CommitKeepsInv(H: Hash, cfg: Config, s: State, t: nat)
    requires Inv(H, s)
    ensures Inv(H, Step(H, cfg, s, Commit(t)))
  {
    if t in s.txs && s.txs[t].phase.Pending? {
      var x := s.txs[t].phase.entry;
      assert TxOk(H, s.rows, s.txs[t]);
      PhaseKeepsInv(H, s, t, Committed);
      TableGrows(H, s.rows, x);
      var txs' := Finish(s, t, Committed).txs;
      forall u | u in txs'
        ensures TxOk(H, s.rows + [x], txs'[u])
      {
        OfAppend(s.rows, x, txs'[u].cmd.escrowId);
        assert TxOk(H, s.rows, txs'[u]);
        if u != t && s.txs[u].phase.Pending? {
          OtherPendingStillFits(H, s.rows, x, s.txs[u].phase.entry);
        }
      }
    }
  }

  lemma OtherPendingStillFits(H: Hash, rows: seq<Entry>, x: Entry, y: Entry)
    requires Fits(H, rows, x) && Fits(H, rows, y) && !Clash(x, y) && !DuplicateHash(rows, y)
    ensures Fits(H, rows + [x], y) && !DuplicateHash(rows + [x], y)
  {
    OfAppend(rows, x, y.escrowId);
  }

  lemma AcquireKeepsInv(H: Hash, cfg: Config, s: State, t: nat)
    requires Inv(H, s)
    ensures Inv(H, Step(H, cfg, s, AcquireLock(t)))
  {
    if t in s.txs && s.txs[t].phase.Started? {
      PhaseKeepsInv(H, s, t, Locked);
    }
  }

  lemma StepKeepsInv(H: Hash, cfg: Config, s: State, a: Action)
    requires Inv(H, s)
    ensures Inv(H, Step(H, cfg, s, a))
  {
    match a
    case Begin(t, cmd) =>
    case AcquireLock(t) => AcquireKeepsInv(H, cfg, s, t);
    case ReadLatest(t, snapshot) => ReadKeepsInv(H, cfg, s, t, snapshot);
    case InsertRow(t, now) => InsertKeepsInv(H, cfg, s, t, now);
    case Commit(t) => CommitKeepsInv(H, cfg, s, t);
    case Rollback(t) =>
      if t in s.txs && !s.txs[t].phase.Committed? {
        PhaseKeepsInv(H, s, t, Aborted);
      }
  }

  lemma StepAppendsOnly(H: Hash, cfg: Config, s: State, a: Action)
    ensures s.rows <= Step(H, cfg, s, a).rows
  {
  }

  /** Committed rows are never changed or removed. */
  lemma {:induction false} RunAppendsOnly(H: Hash, cfg: Config, s: State, run: seq<Action>)
    requires Inv(H, s)
    ensures Inv(H, Run(H, cfg, s, run))
    ensures s.rows <= Run(H, cfg, s, run).rows
    decreases |run|
  {
    if run != [] {
      var t := Step(H, cfg, s, run[0]);
      StepKeepsInv(H, cfg, s, run[0]);
      StepAppendsOnly(H, cfg, s, run[0]);
      RunAppendsOnly(H, cfg, t, run[1..]);
      PrefixTransitive(s.rows, t.rows, Run(H, cfg, t, run[1..]).rows);
    }
  }

  lemma PrefixTransitive(a: seq<Entry>, b: seq<Entry>, c: seq<Entry>)
    requires a <= b <= c
    ensures a <= c
  {
  }

  /**
   Safety over every run of any writers, commits and rollbacks, with or without the lock, stale
   reads included: each escrow's committed rows are numbered 0, 1, 2, ... without gaps, each names
   its predecessor's hash, and the verifier accepts them in whatever order they are listed.
   */
  lemma EveryRunChains(H: Hash, cfg: Config, run: seq<Action>, e: Uuid, listed: seq<Entry>)
    requires multiset(listed) == multiset(Of(Run(H, cfg, Empty, run).rows, e))
    ensures var log := Of(Run(H, cfg, Empty, run).rows, e);
      && (forall i :: 0 <= i < |log| ==> log[i].sequenceNo == i && log[i].prevHash == PrevHashAt(log, i))
      && Chain(H, log)
    ensures Accepted(H, listed)
  {
    var rows := Run(H, cfg, Empty, run).rows;
    EmptyInv(H);
    RunAppendsOnly(H, cfg, Empty, run);
    var log := Of(rows, e);
    assert Log(H, log);
    forall i | 0 <= i < |log|
      ensures log[i].prevHash == PrevHashAt(log, i)
    {
      ChainLink(H, log, i);
    }
    assert log[..|log|] == log;
    RenumberedPrefixAccepted(H, log, |log|, log, listed);
  }
}
