/**
 The negotiation-record backfill: an offset-paged loop over terminal sessions in creation order, an
 idempotency check per session, two records per session, three counters.

 `tables[k]` is what the query of batch k sees; sessions may become terminal between batches. The
 idempotency check expects at most one record per session and raises when it finds two.
 */
module Backfill {
  datatype Session = Session(id: nat, buyer: nat, seller: nat)

  datatype Role = Buyer | Seller

  datatype Record = Record(sessionId: nat, role: Role, enterprise: nat)

  datatype Tally = Tally(processed: nat, skipped: nat, errors: nat, affected: set<nat>)

  const NoTally := Tally(0, 0, 0, {})

  /** What can go wrong with a session: it does not load, or a side does not normalize. */
  datatype Outcomes = Outcomes(loads: nat -> bool, normalizes: (nat, Role) -> bool)

  function Count(records: seq<Record>, id: nat): nat {
    if records == [] then 0
    else Count(records[..|records| - 1], id) + (if records[|records| - 1].sessionId == id then 1 else 0)
  }

  function RoleCount(records: seq<Record>, id: nat, role: Role): nat {
    if records == [] then 0
    else
      var r := records[|records| - 1];
      RoleCount(records[..|records| - 1], id, role) + (if r.sessionId == id && r.role == role then 1 else 0)
  }

  /** One session: the records and counters after the loop body. */
  function Visit(o: Outcomes, dryRun: bool, records: seq<Record>, tally: Tally, s: Session): (seq<Record>, Tally) {
    var failed := tally.(errors := tally.errors + 1);
    var done := tally.(processed := tally.processed + 1);
    if Count(records, s.id) >= 2 then (records, failed)
    else if Count(records, s.id) == 1 then (records, tally.(skipped := tally.skipped + 1))
    else if !o.loads(s.id) then (records, failed)
    else if dryRun then (records, done)
    else if !o.normalizes(s.id, Buyer) then (records, failed)
    else
      var withBuyer := records + [Record(s.id, Buyer, s.buyer)];
      if !o.normalizes(s.id, Seller) then (withBuyer, failed)
      else (withBuyer + [Record(s.id, Seller, s.seller)], done.(affected := done.affected + {s.buyer, s.seller}))
  }

  function VisitAll(o: Outcomes, dryRun: bool, records: seq<Record>, tally: Tally, visits: seq<Session>): (seq<Record>, Tally)
    decreases |visits|
  {
    if visits == [] then (records, tally)
    else
      var (r, t) := Visit(o, dryRun, records, tally, visits[0]);
      VisitAll(o, dryRun, r, t, visits[1..])
  }

  // ---------------------------------------------------------------------------------------------
  // Paging
  // ---------------------------------------------------------------------------------------------

  function Page(table: seq<Session>, offset: nat, batch: nat): seq<Session> {
    var rest := if offset >= |table| then [] else table[offset..];
    if |rest| <= batch then rest else rest[..batch]
  }

  function TableAt(tables: seq<seq<Session>>, k: nat): seq<Session>
    requires tables != []
  {
    if k < |tables| then tables[k] else tables[|tables| - 1]
  }

  /** Sessions in the order the loop visits them, from batch `k` and `offset` on. */
  function Visits(tables: seq<seq<Session>>, k: nat, offset: nat, batch: nat): seq<Session>
    requires tables != []
    decreases if k < |tables| then |tables| - k else 0, |tables[|tables| - 1]| - offset
  {
    var page := Page(TableAt(tables, k), offset, batch);
    if page == [] then [] else page + Visits(tables, k + 1, offset + batch, batch)
  }

  /** Sessions only become terminal: a later table keeps the earlier one's sessions in order. */
  ghost predicate Within(a: seq<Session>, b: seq<Session>)
    decreases |b|
  {
    a == [] || (b != [] && ((a[0] == b[0] && Within(a[1..], b[1..])) || Within(a, b[1..])))
  }

  ghost predicate Growing(tables: seq<seq<Session>>) {
    forall k :: 0 <= k < |tables| - 1 ==> Within(tables[k], tables[k + 1])
  }

  /** Insertions push a session to the same or a later position. */
  lemma {:induction false} PushedRight(a: seq<Session>, b: seq<Session>, p: nat) returns (q: nat)
    requires Within(a, b) && p < |a|
    ensures p <= q < |b| && b[q] == a[p]
    decreases |b|
  {
    if a[0] == b[0] && Within(a[1..], b[1..]) {
      if p == 0 {
        q := 0;
      } else {
        q := PushedRight(a[1..], b[1..], p - 1);
        q := q + 1;
      }
    } else {
      q := PushedRight(a, b[1..], p);
      q := q + 1;
    }
  }

  lemma InPage(table: seq<Session>, offset: nat, batch: nat, p: nat)
    requires offset <= p < |table| && p < offset + batch
    ensures table[p] in Page(table, offset, batch)
  {
    assert table[p] == Page(table, offset, batch)[p - offset];
  }

  /** The visits are this page and then those of the next batch. */
  lemma VisitsUnfold(tables: seq<seq<Session>>, k: nat, offset: nat, batch: nat, next: nat, page: seq<Session>)
    requires tables != [] && next == offset + batch
    requires page == Page(TableAt(tables, k), offset, batch) && page != []
    ensures Visits(tables, k, offset, batch) == page + Visits(tables, k + 1, next, batch)
  {
    var rest := Visits(tables, k + 1, offset + batch, batch);
    assert Visits(tables, k, offset, batch) == page + rest;
    assert rest == Visits(tables, k + 1, next, batch);
  }

  /** Where the next batch's query finds a session. */
  lemma NextTable(tables: seq<seq<Session>>, k: nat, p: nat) returns (q: nat)
    requires tables != [] && Growing(tables) && p < |TableAt(tables, k)|
    ensures p <= q < |TableAt(tables, k + 1)| && TableAt(tables, k + 1)[q] == TableAt(tables, k)[p]
  {
    q := p;
    if k + 1 < |tables| {
      q := PushedRight(tables[k], tables[k + 1], p);
    }
  }

  /** A session at or beyond the offset will be visited, whatever becomes terminal meanwhile. */
  lemma {:induction false} VisitedLater(tables: seq<seq<Session>>, k: nat, offset: nat, batch: nat, p: nat)
    requires tables != [] && Growing(tables) && batch >= 1
    requires offset <= p < |TableAt(tables, k)|
    ensures TableAt(tables, k)[p] in Visits(tables, k, offset, batch)
    decreases if k < |tables| then |tables| - k else 0, |tables[|tables| - 1]| - offset
  {
    var page, next := Page(TableAt(tables, k), offset, batch), offset + batch;
    assert page != [];
    VisitsUnfold(tables, k, offset, batch, next, page);
    if p < next {
      InPage(TableAt(tables, k), offset, batch, p);
    } else {
      var q := NextTable(tables, k, p);
      VisitedLater(tables, k + 1, next, batch, q);
    }
  }

  /** No session that was terminal at the start is missed. */
  lemma NoneMissed(tables: seq<seq<Session>>, batch: nat, s: Session)
    requires tables != [] && Growing(tables) && batch >= 1
    requires s in tables[0]
    ensures s in Visits(tables, 0, 0, batch)
  {
    var p :| 0 <= p < |tables[0]| && tables[0][p] == s;
    VisitedLater(tables, 0, 0, batch, p);
  }

  lemma LastPage(table: seq<Session>, offset: nat, batch: nat, next: nat)
    requires batch >= 1 && offset < |table| <= next == offset + batch
    ensures Page(table, offset, batch) == table[offset..] && Page(table, next, batch) == []
  {
  }

  lemma FullPage(table: seq<Session>, offset: nat, batch: nat, next: nat)
    requires batch >= 1 && next == offset + batch < |table|
    ensures Page(table, offset, batch) == table[offset..next] != []
    ensures table[offset..] == table[offset..next] + table[next..]
  {
  }

  /** On a fixed table every session is visited once, in order. */
  lemma {:induction false} FixedTable(table: seq<Session>, k: nat, offset: nat, batch: nat)
    requires batch >= 1 && offset <= |table|
    ensures Visits([table], k, offset, batch) == table[offset..]
    decreases |table| - offset
  {
    var next := offset + batch;
    if next < |table| {
      FullPage(table, offset, batch, next);
      FixedTable(table, k + 1, next, batch);
      VisitsUnfold([table], k, offset, batch, next, Page(table, offset, batch));
    } else if offset < |table| {
      LastPage(table, offset, batch, next);
      VisitsUnfold([table], k, offset, batch, next, Page(table, offset, batch));
      assert Visits([table], k + 1, next, batch) == [];
    }
  }

  // ---------------------------------------------------------------------------------------------
  // Counters and records
  // ---------------------------------------------------------------------------------------------

  function Sum(t: Tally): nat {
    t.processed + t.skipped + t.errors
  }

  /** Every visit moves exactly one counter; a dry run writes nothing. */
  lemma {:induction false} CountersAddUp(o: Outcomes, dryRun: bool, records: seq<Record>, tally: Tally, visits: seq<Session>)
    ensures var (r, t) := VisitAll(o, dryRun, records, tally, visits);
      && Sum(t) == Sum(tally) + |visits|
      && records <= r
      && (dryRun ==> r == records && t.affected == tally.affected)
    decreases |visits|
  {
    if visits != [] {
      var (r, t) := Visit(o, dryRun, records, tally, visits[0]);
      CountersAddUp(o, dryRun, r, t, visits[1..]);
    }
  }

  /** A record of one of these sessions, naming the enterprise on its side. */
  ghost predicate Describes(visits: seq<Session>, r: Record) {
    exists s :: s in visits && r.sessionId == s.id && r.enterprise == (if r.role == Buyer then s.buyer else s.seller)
  }

  ghost predicate TakesPart(visits: seq<Session>, e: nat) {
    exists s :: s in visits && (s.buyer == e || s.seller == e)
  }

  lemma DescribesMore(visits: seq<Session>, r: Record, e: nat)
    requires visits != []
    ensures Describes(visits[1..], r) ==> Describes(visits, r)
    ensures TakesPart(visits[1..], e) ==> TakesPart(visits, e)
  {
    assert forall s :: s in visits[1..] ==> s in visits;
  }

  /** Whatever fails, every record a run adds describes a session it visited, and only parties are affected. */
  lemma {:induction false} AddedRecordsDescribe(o: Outcomes, dryRun: bool, records: seq<Record>, tally: Tally, visits: seq<Session>)
    ensures var (r, t) := VisitAll(o, dryRun, records, tally, visits);
      && (forall i :: |records| <= i < |r| ==> Describes(visits, r[i]))
      && (forall e :: e in t.affected ==> e in tally.affected || TakesPart(visits, e))
    decreases |visits|
  {
    if visits != [] {
      var s := visits[0];
      assert s in visits;
      var (mid, midTally) := Visit(o, dryRun, records, tally, s);
      var (r, t) := VisitAll(o, dryRun, mid, midTally, visits[1..]);
      AddedRecordsDescribe(o, dryRun, mid, midTally, visits[1..]);
      CountersAddUp(o, dryRun, mid, midTally, visits[1..]);
      forall i | |records| <= i < |r|
        ensures Describes(visits, r[i])
      {
        if i < |mid| {
          assert r[i] == mid[i];
        } else {
          DescribesMore(visits, r[i], 0);
        }
      }
      forall e | e in t.affected
        ensures e in tally.affected || TakesPart(visits, e)
      {
        if e !in midTally.affected {
          DescribesMore(visits, Record(0, Buyer, 0), e);
        }
      }
    }
  }

  ghost predicate NoException(o: Outcomes, visits: seq<Session>) {
    forall s :: s in visits ==> o.loads(s.id) && o.normalizes(s.id, Buyer) && o.normalizes(s.id, Seller)
  }

  lemma CountAppend(records: seq<Record>, r: Record, id: nat)
    ensures Count(records + [r], id) == Count(records, id) + (if r.sessionId == id then 1 else 0)
    ensures forall role ::
      RoleCount(records + [r], id, role) == RoleCount(records, id, role) + (if r.sessionId == id && r.role == role then 1 else 0)
  {
    assert (records + [r])[..|records|] == records;
  }

  lemma {:induction false} CountByRole(records: seq<Record>, id: nat)
    ensures Count(records, id) == RoleCount(records, id, Buyer) + RoleCount(records, id, Seller)
  {
    if records != [] {
      CountByRole(records[..|records| - 1], id);
    }
  }

  lemma VisitCounts(o: Outcomes, records: seq<Record>, tally: Tally, s: Session, id: nat)
    requires NoException(o, [s])
    ensures var (r, t) := Visit(o, false, records, tally, s);
      if s.id == id && Count(records, id) == 0
      then Count(r, id) == 2 && RoleCount(r, id, Buyer) == RoleCount(r, id, Seller) == 1
      else Count(r, id) == Count(records, id) && forall role :: RoleCount(r, id, role) == RoleCount(records, id, role)
    ensures Visit(o, false, records, tally, s).0 == records <==> Count(records, s.id) >= 1
  {
    assert s in [s];
    CountByRole(records, id);
    var b, e := Record(s.id, Buyer, s.buyer), Record(s.id, Seller, s.seller);
    CountAppend(records, b, id);
    CountAppend(records + [b], e, id);
  }

  /** An exception-free run gives a session without records one of each side; others stay as they were. */
  lemma {:induction false} RunCounts(o: Outcomes, records: seq<Record>, tally: Tally, visits: seq<Session>, id: nat)
    requires NoException(o, visits)
    ensures var r := VisitAll(o, false, records, tally, visits).0;
      if (exists s :: s in visits && s.id == id) && Count(records, id) == 0
      then RoleCount(r, id, Buyer) == RoleCount(r, id, Seller) == 1 && Count(r, id) == 2
      else Count(r, id) == Count(records, id) && forall role :: RoleCount(r, id, role) == RoleCount(records, id, role)
    decreases |visits|
  {
    if visits != [] {
      var s := visits[0];
      assert s in visits;
      var (r, t) := Visit(o, false, records, tally, s);
      VisitCounts(o, records, tally, s, id);
      RunCounts(o, r, t, visits[1..], id);
      assert forall x :: x in visits <==> x == s || x in visits[1..];
    }
  }

  /** A run leaves all records as they were exactly when every visited session already has one. */
  lemma {:induction false} AddsNothingIff(o: Outcomes, records: seq<Record>, tally: Tally, visits: seq<Session>)
    requires NoException(o, visits)
    ensures VisitAll(o, false, records, tally, visits).0 == records
       <==> forall s :: s in visits ==> Count(records, s.id) >= 1
    decreases |visits|
  {
    if visits != [] {
      var s := visits[0];
      assert s in visits;
      var (r, t) := Visit(o, false, records, tally, s);
      VisitCounts(o, records, tally, s, s.id);
      CountersAddUp(o, false, r, t, visits[1..]);
      if r == records {
        AddsNothingIff(o, r, t, visits[1..]);
        assert forall x :: x in visits <==> x == s || x in visits[1..];
      } else {
        assert |r| > |records|;
      }
    }
  }

  ghost predicate DistinctIds(sessions: seq<Session>) {
    forall i, j :: 0 <= i < j < |sessions| ==> sessions[i].id != sessions[j].id
  }

  /** How a session stands before a run, as its idempotency check sees it. */
  datatype Standing = Unrecorded | Half | Full

  function StandingOf(records: seq<Record>, id: nat): Standing {
    if Count(records, id) == 0 then Unrecorded else if Count(records, id) == 1 then Half else Full
  }

  /** How many of the sessions stand this way. */
  function Having(records: seq<Record>, visits: seq<Session>, standing: Standing): nat {
    if visits == [] then 0
    else (if StandingOf(records, visits[0].id) == standing then 1 else 0) + Having(records, visits[1..], standing)
  }

  lemma {:induction false} HavingNone(records: seq<Record>, visits: seq<Session>, standing: Standing)
    ensures Having(records, visits, standing) == 0 <==> forall s :: s in visits ==> StandingOf(records, s.id) != standing
  {
    if visits != [] {
      HavingNone(records, visits[1..], standing);
      assert forall x :: x in visits <==> x == visits[0] || x in visits[1..];
    }
  }

  /** The unrecorded sessions that a list visits, each once. */
  function Fresh(records: seq<Record>, visits: seq<Session>): set<nat> {
    set s | s in visits && Count(records, s.id) == 0 :: s.id
  }

  /** A visit to an unrecorded session completes it and leaves every other session as it stood. */
  lemma VisitStands(o: Outcomes, records: seq<Record>, tally: Tally, s: Session, id: nat)
    requires NoException(o, [s])
    ensures StandingOf(Visit(o, false, records, tally, s).0, id) ==
      if s.id == id && StandingOf(records, id) == Unrecorded then Full else StandingOf(records, id)
  {
    VisitCounts(o, records, tally, s, id);
  }

  lemma {:induction false} VisitKeepsHalf(a: seq<Record>, b: seq<Record>, visits: seq<Session>)
    requires forall s :: s in visits ==> (StandingOf(a, s.id) == Half <==> StandingOf(b, s.id) == Half)
    ensures Having(a, visits, Half) == Having(b, visits, Half)
  {
    if visits != [] {
      assert visits[0] in visits;
      VisitKeepsHalf(a, b, visits[1..]);
    }
  }

  /** After a visit its session is no longer fresh, and no other changes. */
  lemma FreshStep(o: Outcomes, records: seq<Record>, tally: Tally, visits: seq<Session>)
    requires visits != [] && NoException(o, visits)
    ensures var r := Visit(o, false, records, tally, visits[0]).0;
      && |Fresh(records, visits)| == (if Count(records, visits[0].id) == 0 then 1 else 0) + |Fresh(r, visits[1..])|
      && Having(r, visits[1..], Half) == Having(records, visits[1..], Half)
  {
    var s, rest := visits[0], visits[1..];
    var r := Visit(o, false, records, tally, s).0;
    assert s in visits && forall x :: x in visits <==> x == s || x in rest;
    forall x | x in rest
      ensures StandingOf(r, x.id) ==
        if s.id == x.id && StandingOf(records, x.id) == Unrecorded then Full else StandingOf(records, x.id)
    {
      VisitStands(o, records, tally, s, x.id);
    }
    VisitKeepsHalf(r, records, rest);
    if Count(records, s.id) == 0 {
      assert s.id !in Fresh(r, rest);
      assert Fresh(records, visits) == {s.id} + Fresh(r, rest);
    } else {
      assert Fresh(records, visits) == Fresh(r, rest);
    }
  }

  /**
   What an exception-free run counts, sessions it visits twice included: it processes each unrecorded
   session once, skips the visits to sessions with one record, and counts every other visit as an error,
   because the idempotency check raises on two records.
   */
  lemma {:induction false} TallyIsExact(o: Outcomes, records: seq<Record>, tally: Tally, visits: seq<Session>)
    requires NoException(o, visits)
    ensures var t := VisitAll(o, false, records, tally, visits).1;
      && t.processed == tally.processed + |Fresh(records, visits)|
      && t.skipped == tally.skipped + Having(records, visits, Half)
      && t.errors + |Fresh(records, visits)| + Having(records, visits, Half) == tally.errors + |visits|
    decreases |visits|
  {
    if visits == [] {
      assert Fresh(records, visits) == {};
    } else {
      assert visits[0] in visits;
      var (r, t) := Visit(o, false, records, tally, visits[0]);
      FreshStep(o, records, tally, visits);
      TallyIsExact(o, r, t, visits[1..]);
    }
  }

  /** A dry run writes nothing, so it judges every visit by the records it starts from. */
  lemma {:induction false} DryTallyIsExact(o: Outcomes, records: seq<Record>, tally: Tally, visits: seq<Session>)
    requires NoException(o, visits)
    ensures var t := VisitAll(o, true, records, tally, visits).1;
      && t.processed == tally.processed + Having(records, visits, Unrecorded)
      && t.skipped == tally.skipped + Having(records, visits, Half)
      && t.errors == tally.errors + Having(records, visits, Full)
    decreases |visits|
  {
    if visits != [] {
      assert visits[0] in visits;
      var (r, t) := Visit(o, true, records, tally, visits[0]);
      DryTallyIsExact(o, r, t, visits[1..]);
    }
  }

  /** No visited session has both its records, and none that is visited twice is without a record. */
  ghost predicate Errorless(dryRun: bool, records: seq<Record>, visits: seq<Session>) {
    && (forall s :: s in visits ==> Count(records, s.id) <= 1)
    && (!dryRun ==> forall i, j :: 0 <= i < j < |visits| && visits[i].id == visits[j].id ==> Count(records, visits[i].id) == 1)
  }

  lemma ErrorlessHead(records: seq<Record>, visits: seq<Session>)
    requires visits != []
    ensures Errorless(false, records, visits) <==>
      && Errorless(false, records, visits[1..])
      && Count(records, visits[0].id) <= 1
      && (forall x :: x in visits[1..] && x.id == visits[0].id ==> Count(records, x.id) == 1)
  {
    var rest := visits[1..];
    assert forall x :: x in visits <==> x == visits[0] || x in rest;
    if Errorless(false, records, visits) {
      forall x | x in rest && x.id == visits[0].id
        ensures Count(records, x.id) == 1
      {
        var j :| 0 <= j < |rest| && rest[j] == x;
        assert visits[j + 1] == x;
      }
      forall i, j | 0 <= i < j < |rest| && rest[i].id == rest[j].id
        ensures Count(records, rest[i].id) == 1
      {
        assert visits[i + 1] == rest[i] && visits[j + 1] == rest[j];
      }
    } else {
      assert forall j :: 1 <= j < |visits| ==> visits[j] == rest[j - 1] && rest[j - 1] in rest;
    }
  }

  /** Completing one unrecorded session leaves the rest errorless exactly when it is not visited again. */
  lemma ErrorlessRest(a: seq<Record>, b: seq<Record>, s: Session, rest: seq<Session>)
    requires Count(a, s.id) <= 1
    requires forall x :: x in rest ==> Count(b, x.id) == if s.id == x.id && Count(a, x.id) == 0 then 2 else Count(a, x.id)
    ensures Errorless(false, b, rest) <==>
      Errorless(false, a, rest) && forall x :: x in rest && x.id == s.id ==> Count(a, x.id) == 1
  {
    assert forall i :: 0 <= i < |rest| ==> rest[i] in rest;
  }

  /** Whether the rest of a run is errorless, before and after the first visit. */
  lemma ErrorlessStep(o: Outcomes, records: seq<Record>, tally: Tally, visits: seq<Session>)
    requires visits != [] && NoException(o, visits)
    ensures var r := Visit(o, false, records, tally, visits[0]).0;
      Errorless(false, records, visits) <==> Count(records, visits[0].id) <= 1 && Errorless(false, r, visits[1..])
  {
    var s, rest := visits[0], visits[1..];
    var r := Visit(o, false, records, tally, s).0;
    assert s in visits;
    ErrorlessHead(records, visits);
    forall x | x in rest
      ensures Count(r, x.id) == if s.id == x.id && Count(records, x.id) == 0 then 2 else Count(records, x.id)
    {
      VisitCounts(o, records, tally, s, x.id);
    }
    if Count(records, s.id) <= 1 {
      ErrorlessRest(records, r, s, rest);
    }
  }

  /**
   An exception-free run counts no error exactly when no session it visits has both its records at the
   start, and, unless it is a dry run, no unrecorded session is visited twice.
   */
  lemma {:induction false} NoErrorsIff(o: Outcomes, dryRun: bool, records: seq<Record>, tally: Tally, visits: seq<Session>)
    requires NoException(o, visits)
    ensures VisitAll(o, dryRun, records, tally, visits).1.errors >= tally.errors
    ensures VisitAll(o, dryRun, records, tally, visits).1.errors == tally.errors <==> Errorless(dryRun, records, visits)
    decreases |visits|
  {
    if dryRun {
      DryTallyIsExact(o, records, tally, visits);
      HavingNone(records, visits, Full);
    } else if visits != [] {
      assert visits[0] in visits;
      var (r, t) := Visit(o, false, records, tally, visits[0]);
      ErrorlessStep(o, records, tally, visits);
      NoErrorsIff(o, false, r, t, visits[1..]);
    }
  }

  /**
   Even a first run over no records counts errors when the table grows: `x` becomes terminal between
   two batches and is older than `a`, which is pushed onto the next page and visited again.
   */
  lemma PushedSessionCountsError(o: Outcomes, a: Session, x: Session)
    requires NoException(o, [a])
    ensures var tables := [[a], [x, a]];
      && Growing(tables)
      && Visits(tables, 0, 0, 1) == [a, a]
      && VisitAll(o, false, [], NoTally, Visits(tables, 0, 0, 1)).1 == Tally(1, 0, 1, {a.buyer, a.seller})
  {
    var tables := [[a], [x, a]];
    assert [x, a][1..] == [a] && [a][1..] == [];
    assert Within([], []) && Within([a], [a]) && Within([a], [x, a]);
    assert Page(TableAt(tables, 2), 2, 1) == [] && Page(TableAt(tables, 1), 1, 1) == [a] && Page(TableAt(tables, 0), 0, 1) == [a];
    assert Visits(tables, 2, 2, 1) == [];
    VisitsUnfold(tables, 1, 1, 1, 2, [a]);
    VisitsUnfold(tables, 0, 0, 1, 1, [a]);
    assert [a] + ([a] + []) == [a, a];
    VisitedTwice(o, a);
  }

  lemma VisitedTwice(o: Outcomes, a: Session)
    requires NoException(o, [a])
    ensures VisitAll(o, false, [], NoTally, [a, a]).1 == Tally(1, 0, 1, {a.buyer, a.seller})
  {
    assert a in [a];
    VisitCounts(o, [], NoTally, a, a.id);
    var (r, t) := Visit(o, false, [], NoTally, a);
    assert t == Tally(1, 0, 0, {} + {a.buyer, a.seller});
    assert [a, a][1..] == [a] && [a][1..] == [];
    assert VisitAll(o, false, [], NoTally, [a, a]) == VisitAll(o, false, r, t, [a]);
    var (r', t') := Visit(o, false, r, t, a);
    assert VisitAll(o, false, r, t, [a]) == VisitAll(o, false, r', t', []);
  }

  /** How a session stands after an exception-free run that visits it. */
  lemma StandingAfter(o: Outcomes, records: seq<Record>, tally: Tally, visits: seq<Session>, s: Session)
    requires NoException(o, visits) && s in visits
    ensures StandingOf(VisitAll(o, false, records, tally, visits).0, s.id) ==
      if StandingOf(records, s.id) == Half then Half else Full
  {
    RunCounts(o, records, tally, visits, s.id);
  }

  lemma HavingAfter(a: seq<Record>, b: seq<Record>, visits: seq<Session>)
    requires forall s :: s in visits ==> StandingOf(b, s.id) == if StandingOf(a, s.id) == Half then Half else Full
    ensures Fresh(b, visits) == {} && Having(b, visits, Half) == Having(a, visits, Half)
  {
    VisitKeepsHalf(b, a, visits);
  }

  /** A run that writes no record affects no enterprise. */
  lemma {:induction false} NothingAddedNobodyAffected(o: Outcomes, records: seq<Record>, tally: Tally, visits: seq<Session>)
    ensures var (r, t) := VisitAll(o, false, records, tally, visits);
      r == records ==> t.affected == tally.affected
    decreases |visits|
  {
    if visits != [] {
      var (r, t) := Visit(o, false, records, tally, visits[0]);
      CountersAddUp(o, false, r, t, visits[1..]);
      if VisitAll(o, false, r, t, visits[1..]).0 == records {
        assert r == records;
        NothingAddedNobodyAffected(o, r, t, visits[1..]);
      }
    }
  }

  /**
   Repeating an exception-free run, from any records and over any visits: it adds none and processes
   none, it skips only visits to sessions that had one record before the first run, and it counts every
   other as an error. It counts no error exactly when each session had one record to begin with.
   */
  lemma RepeatedRun(o: Outcomes, records: seq<Record>, visits: seq<Session>)
    requires NoException(o, visits)
    ensures var r1 := VisitAll(o, false, records, NoTally, visits).0;
      var (r2, t2) := VisitAll(o, false, r1, NoTally, visits);
      && r2 == r1 && t2.processed == 0 && t2.affected == {}
      && t2.skipped == Having(records, visits, Half)
      && t2.errors == |visits| - Having(records, visits, Half)
      && (t2.errors == 0 <==> forall s :: s in visits ==> Count(records, s.id) == 1)
  {
    var r1 := VisitAll(o, false, records, NoTally, visits).0;
    forall s | s in visits
      ensures StandingOf(r1, s.id) == if StandingOf(records, s.id) == Half then Half else Full
    {
      StandingAfter(o, records, NoTally, visits, s);
    }
    assert forall s :: s in visits ==> Count(r1, s.id) >= 1;
    AddsNothingIff(o, r1, NoTally, visits);
    NothingAddedNobodyAffected(o, r1, NoTally, visits);
    TallyIsExact(o, r1, NoTally, visits);
    HavingAfter(records, r1, visits);
    AllHalf(records, visits);
  }

  lemma {:induction false} AllHalf(records: seq<Record>, visits: seq<Session>)
    ensures Having(records, visits, Half) <= |visits|
    ensures Having(records, visits, Half) == |visits| <==> forall s :: s in visits ==> Count(records, s.id) == 1
  {
    if visits != [] {
      AllHalf(records, visits[1..]);
      assert forall x :: x in visits <==> x == visits[0] || x in visits[1..];
    }
  }

  lemma FreshHead(visits: seq<Session>)
    requires visits != [] && DistinctIds(visits)
    ensures |Fresh([], visits)| == 1 + |Fresh([], visits[1..])|
  {
    var s, rest := visits[0], visits[1..];
    assert forall x :: x in visits <==> x == s || x in rest;
    assert s.id !in Fresh([], rest) by {
      assert forall i :: 0 <= i < |rest| ==> rest[i] == visits[i + 1];
    }
    assert Fresh([], visits) == {s.id} + Fresh([], rest);
  }

  lemma {:induction false} NothingRecorded(visits: seq<Session>)
    requires DistinctIds(visits)
    ensures |Fresh([], visits)| == |visits| && Having([], visits, Half) == 0
  {
    if visits == [] {
      assert Fresh([], visits) == {};
    } else {
      FreshHead(visits);
      NothingRecorded(visits[1..]);
    }
  }

  /**
   Two exception-free runs over a fixed table that has no records yet. The first leaves every session
   with one buyer and one seller record. The second adds none, but not by skipping: it counts every
   session as an error.
   */
  lemma SecondRunCountsErrors(o: Outcomes, table: seq<Session>, batch: nat)
    requires batch >= 1 && NoException(o, table) && DistinctIds(table)
    ensures var visits := Visits([table], 0, 0, batch);
      var (r1, t1) := VisitAll(o, false, [], NoTally, visits);
      var (r2, t2) := VisitAll(o, false, r1, NoTally, visits);
      && t1.processed == |table| && t1.skipped == t1.errors == 0
      && (forall s :: s in table ==> RoleCount(r1, s.id, Buyer) == RoleCount(r1, s.id, Seller) == 1)
      && r2 == r1
      && t2 == Tally(0, 0, |table|, {})
  {
    FixedTable(table, 0, 0, batch);
    assert table[0..] == table;
    TallyIsExact(o, [], NoTally, table);
    NothingRecorded(table);
    forall s | s in table
      ensures var r1 := VisitAll(o, false, [], NoTally, table).0;
        RoleCount(r1, s.id, Buyer) == RoleCount(r1, s.id, Seller) == 1
    {
      RunCounts(o, [], NoTally, table, s.id);
    }
    RepeatedRun(o, [], table);
  }

  /**
   A session terminal at the start and without records ends an exception-free run with one record
   of each side, even if sessions become terminal between batches and push it to a later page.
   */
  lemma StartedSessionsRecorded(o: Outcomes, records: seq<Record>, tables: seq<seq<Session>>, batch: nat, s: Session)
    requires tables != [] && Growing(tables) && batch >= 1 && s in tables[0]
    requires NoException(o, Visits(tables, 0, 0, batch))
    requires Count(records, s.id) == 0
    ensures var r := VisitAll(o, false, records, NoTally, Visits(tables, 0, 0, batch)).0;
      RoleCount(r, s.id, Buyer) == RoleCount(r, s.id, Seller) == 1
  {
    NoneMissed(tables, batch, s);
    RunCounts(o, records, NoTally, Visits(tables, 0, 0, batch), s.id);
  }

  // ---------------------------------------------------------------------------------------------
  // Runs in which sessions fail
  // ---------------------------------------------------------------------------------------------

  lemma VisitRecords(o: Outcomes, records: seq<Record>, tally: Tally, s: Session, id: nat)
    ensures var r := Visit(o, false, records, tally, s).0;
      var written := s.id == id && Count(records, id) == 0 && o.loads(id) && o.normalizes(id, Buyer);
      && RoleCount(r, id, Buyer) == (if written then 1 else RoleCount(records, id, Buyer))
      && RoleCount(r, id, Seller) == (if written && o.normalizes(id, Seller) then 1 else RoleCount(records, id, Seller))
  {
    CountByRole(records, id);
    var b, e := Record(s.id, Buyer, s.buyer), Record(s.id, Seller, s.seller);
    CountAppend(records, b, id);
    CountAppend(records + [b], e, id);
  }

  /** The list visits a session by this id. */
  ghost predicate Visited(visits: seq<Session>, id: nat) {
    exists s :: s in visits && s.id == id
  }

  /**
   What any run leaves of a session, whatever fails and however often it is visited: if it had no record
   and is visited, one buyer record when it loads and its buyer side normalizes, and one seller record
   when its seller side does too; otherwise the records it had.
   */
  lemma {:induction false} RecordsWithFailures(o: Outcomes, records: seq<Record>, tally: Tally, visits: seq<Session>, id: nat)
    ensures var r := VisitAll(o, false, records, tally, visits).0;
      var written := Visited(visits, id) && Count(records, id) == 0 && o.loads(id) && o.normalizes(id, Buyer);
      && RoleCount(r, id, Buyer) == (if written then 1 else RoleCount(records, id, Buyer))
      && RoleCount(r, id, Seller) == (if written && o.normalizes(id, Seller) then 1 else RoleCount(records, id, Seller))
    decreases |visits|
  {
    if visits != [] {
      var s := visits[0];
      var (r, t) := Visit(o, false, records, tally, s);
      VisitRecords(o, records, tally, s, id);
      CountByRole(records, id);
      CountByRole(r, id);
      RecordsWithFailures(o, r, t, visits[1..], id);
      assert forall x :: x in visits <==> x == s || x in visits[1..];
      assert Visited(visits, id) <==> s.id == id || Visited(visits[1..], id);
    }
  }

  datatype Judgement = Processed | Skipped | Failed

  /** What a run makes of a session, judged by the records it starts from. */
  function Judged(o: Outcomes, dryRun: bool, records: seq<Record>, s: Session): Judgement {
    match StandingOf(records, s.id)
    case Full => Failed
    case Half => Skipped
    case Unrecorded =>
      if !o.loads(s.id) then Failed
      else if dryRun || (o.normalizes(s.id, Buyer) && o.normalizes(s.id, Seller)) then Processed
      else Failed
  }

  /** How many of the sessions a run judges this way. */
  function HowMany(o: Outcomes, dryRun: bool, records: seq<Record>, visits: seq<Session>, j: Judgement): nat {
    if visits == [] then 0
    else (if Judged(o, dryRun, records, visits[0]) == j then 1 else 0) + HowMany(o, dryRun, records, visits[1..], j)
  }

  /** A party to a session that the run processes. */
  ghost predicate PartyToProcessed(o: Outcomes, records: seq<Record>, visits: seq<Session>, e: nat) {
    exists s :: s in visits && Judged(o, false, records, s) == Processed && (e == s.buyer || e == s.seller)
  }

  lemma VisitJudged(o: Outcomes, dryRun: bool, records: seq<Record>, tally: Tally, s: Session)
    ensures var t := Visit(o, dryRun, records, tally, s).1;
      var j := Judged(o, dryRun, records, s);
      && t.processed == tally.processed + (if j == Processed then 1 else 0)
      && t.skipped == tally.skipped + (if j == Skipped then 1 else 0)
      && t.errors == tally.errors + (if j == Failed then 1 else 0)
      && t.affected == tally.affected + (if j == Processed && !dryRun then {s.buyer, s.seller} else {})
  {
  }

  /** Visiting one session does not change how the others are judged. */
  lemma VisitKeepsJudgement(o: Outcomes, dryRun: bool, records: seq<Record>, tally: Tally, s: Session, x: Session)
    requires dryRun || x.id != s.id
    ensures Judged(o, dryRun, Visit(o, dryRun, records, tally, s).0, x) == Judged(o, dryRun, records, x)
  {
    CountAppend(records, Record(s.id, Buyer, s.buyer), x.id);
    CountAppend(records + [Record(s.id, Buyer, s.buyer)], Record(s.id, Seller, s.seller), x.id);
  }

  lemma {:induction false} SameJudgements(o: Outcomes, dryRun: bool, a: seq<Record>, b: seq<Record>, visits: seq<Session>)
    requires forall s :: s in visits ==> Judged(o, dryRun, a, s) == Judged(o, dryRun, b, s)
    ensures forall j :: HowMany(o, dryRun, a, visits, j) == HowMany(o, dryRun, b, visits, j)
  {
    if visits != [] {
      assert visits[0] in visits;
      SameJudgements(o, dryRun, a, b, visits[1..]);
    }
  }

  /** After one visit, the rest is judged as it was. */
  lemma RestJudged(o: Outcomes, dryRun: bool, records: seq<Record>, tally: Tally, visits: seq<Session>)
    requires visits != [] && (dryRun || DistinctIds(visits))
    ensures var r := Visit(o, dryRun, records, tally, visits[0]).0;
      && (forall x :: x in visits[1..] ==> Judged(o, dryRun, r, x) == Judged(o, dryRun, records, x))
      && (forall j :: HowMany(o, dryRun, r, visits[1..], j) == HowMany(o, dryRun, records, visits[1..], j))
  {
    var r := Visit(o, dryRun, records, tally, visits[0]).0;
    forall x | x in visits[1..]
      ensures Judged(o, dryRun, r, x) == Judged(o, dryRun, records, x)
    {
      var i :| 0 <= i < |visits[1..]| && visits[1..][i] == x;
      assert visits[i + 1] == x;
      VisitKeepsJudgement(o, dryRun, records, tally, visits[0], x);
    }
    SameJudgements(o, dryRun, r, records, visits[1..]);
  }

  /**
   What a run counts when sessions may fail, each visited once or the run a dry one: a session that does
   not load or has a side that does not normalize is an error, and the enterprises counted as affected are
   exactly the parties to sessions that a run other than a dry one processes.
   */
  lemma {:induction false} TallyWithFailures(o: Outcomes, dryRun: bool, records: seq<Record>, tally: Tally, visits: seq<Session>)
    requires dryRun || DistinctIds(visits)
    ensures var t := VisitAll(o, dryRun, records, tally, visits).1;
      && t.processed == tally.processed + HowMany(o, dryRun, records, visits, Processed)
      && t.skipped == tally.skipped + HowMany(o, dryRun, records, visits, Skipped)
      && t.errors == tally.errors + HowMany(o, dryRun, records, visits, Failed)
      && forall e :: e in t.affected <==> e in tally.affected || (!dryRun && PartyToProcessed(o, records, visits, e))
    decreases |visits|
  {
    if visits != [] {
      var s, rest := visits[0], visits[1..];
      var (r, t) := Visit(o, dryRun, records, tally, s);
      VisitJudged(o, dryRun, records, tally, s);
      RestJudged(o, dryRun, records, tally, visits);
      TallyWithFailures(o, dryRun, r, t, rest);
      assert forall x :: x in visits <==> x == s || x in rest;
      if !dryRun {
        forall e: nat
          ensures PartyToProcessed(o, records, visits, e) <==>
            (Judged(o, false, records, s) == Processed && (e == s.buyer || e == s.seller)) || PartyToProcessed(o, r, rest, e)
        {
          PartiesSplit(o, records, r, visits, e);
        }
      }
    }
  }

  lemma PartiesSplit(o: Outcomes, records: seq<Record>, r: seq<Record>, visits: seq<Session>, e: nat)
    requires visits != []
    requires forall x :: x in visits[1..] ==> Judged(o, false, r, x) == Judged(o, false, records, x)
    ensures PartyToProcessed(o, records, visits, e) <==>
      || (Judged(o, false, records, visits[0]) == Processed && (e == visits[0].buyer || e == visits[0].seller))
      || PartyToProcessed(o, r, visits[1..], e)
  {
    assert forall x :: x in visits <==> x == visits[0] || x in visits[1..];
  }

  // ---------------------------------------------------------------------------------------------
  // Later runs
  // ---------------------------------------------------------------------------------------------

  lemma RecordedVisitKeepsCounts(o: Outcomes, dryRun: bool, records: seq<Record>, tally: Tally, s: Session, id: nat)
    requires s.id == id ==> Count(records, id) >= 1
    ensures var r := Visit(o, dryRun, records, tally, s).0;
      Count(r, id) == Count(records, id) && forall role :: RoleCount(r, id, role) == RoleCount(records, id, role)
  {
    var b, e := Record(s.id, Buyer, s.buyer), Record(s.id, Seller, s.seller);
    CountAppend(records, b, id);
    CountAppend(records + [b], e, id);
  }

  /** Once a session has any record, no run adds or removes one of its records, whatever fails. */
  lemma {:induction false} FirstRecordIsFinal(o: Outcomes, dryRun: bool, records: seq<Record>, tally: Tally, visits: seq<Session>, id: nat)
    requires Count(records, id) >= 1
    ensures var r := VisitAll(o, dryRun, records, tally, visits).0;
      Count(r, id) == Count(records, id) && forall role :: RoleCount(r, id, role) == RoleCount(records, id, role)
    decreases |visits|
  {
    if visits != [] {
      var (r, t) := Visit(o, dryRun, records, tally, visits[0]);
      RecordedVisitKeepsCounts(o, dryRun, records, tally, visits[0], id);
      FirstRecordIsFinal(o, dryRun, r, t, visits[1..], id);
    }
  }

  /** One invocation of the script: what fails in it, its mode, and the sessions it visits. */
  datatype Invocation = Invocation(o: Outcomes, dryRun: bool, visits: seq<Session>)

  function Invoke(records: seq<Record>, runs: seq<Invocation>): seq<Record>
    decreases |runs|
  {
    if runs == [] then records
    else Invoke(VisitAll(runs[0].o, runs[0].dryRun, records, NoTally, runs[0].visits).0, runs[1..])
  }

  lemma {:induction false} FirstRecordIsFinalForever(records: seq<Record>, runs: seq<Invocation>, id: nat)
    requires Count(records, id) >= 1
    ensures var r := Invoke(records, runs);
      Count(r, id) == Count(records, id) && forall role :: RoleCount(r, id, role) == RoleCount(records, id, role)
    decreases |runs|
  {
    if runs != [] {
      FirstRecordIsFinal(runs[0].o, runs[0].dryRun, records, NoTally, runs[0].visits, id);
      FirstRecordIsFinalForever(VisitAll(runs[0].o, runs[0].dryRun, records, NoTally, runs[0].visits).0, runs[1..], id);
    }
  }

  /** In this run the session loads and its buyer side normalizes, but not its seller side. */
  predicate SellerFails(o: Outcomes, id: nat) {
    o.loads(id) && o.normalizes(id, Buyer) && !o.normalizes(id, Seller)
  }

  lemma HalfWrittenVisit(o: Outcomes, records: seq<Record>, tally: Tally, s: Session, later: Outcomes)
    requires Count(records, s.id) == 0 && SellerFails(o, s.id)
    ensures var (r, t) := Visit(o, false, records, tally, s);
      && r == records + [Record(s.id, Buyer, s.buyer)]
      && t == tally.(errors := tally.errors + 1)
      && RoleCount(r, s.id, Buyer) == Count(r, s.id) == 1 && RoleCount(r, s.id, Seller) == 0
      && Visit(later, false, r, NoTally, s) == (r, NoTally.(skipped := 1))
  {
    CountByRole(records, s.id);
    CountAppend(records, Record(s.id, Buyer, s.buyer), s.id);
  }

  /** A run in which the seller side of an unrecorded session fails leaves it with its buyer record alone. */
  lemma {:induction false} HalfWrittenRun(o: Outcomes, records: seq<Record>, tally: Tally, visits: seq<Session>, id: nat)
    requires Count(records, id) == 0 && SellerFails(o, id)
    requires exists s :: s in visits && s.id == id
    ensures var r := VisitAll(o, false, records, tally, visits).0;
      RoleCount(r, id, Buyer) == Count(r, id) == 1 && RoleCount(r, id, Seller) == 0
    decreases |visits|
  {
    var s := visits[0];
    var (r, t) := Visit(o, false, records, tally, s);
    if s.id == id {
      HalfWrittenVisit(o, records, tally, s, o);
      FirstRecordIsFinal(o, false, r, t, visits[1..], id);
    } else {
      RecordedVisitKeepsCounts(o, false, records, tally, s, id);
      assert visits == [s] + visits[1..];
      HalfWrittenRun(o, r, t, visits[1..], id);
    }
  }

  /**
   If the seller side of an unrecorded session fails in some run, that session keeps one buyer record
   and no seller record through every later sequence of runs, whatever they visit and whether or not
   the seller side would succeed by then.
   */
  lemma HalfWrittenStaysHalf(o: Outcomes, records: seq<Record>, visits: seq<Session>, s: Session, later: seq<Invocation>)
    requires Count(records, s.id) == 0 && SellerFails(o, s.id) && s in visits
    ensures var r := Invoke(VisitAll(o, false, records, NoTally, visits).0, later);
      RoleCount(r, s.id, Buyer) == 1 && RoleCount(r, s.id, Seller) == 0
  {
    HalfWrittenRun(o, records, NoTally, visits, s.id);
    FirstRecordIsFinalForever(VisitAll(o, false, records, NoTally, visits).0, later, s.id);
  }

  // ---------------------------------------------------------------------------------------------
  // The script
  // ---------------------------------------------------------------------------------------------

  class RecordTable {
    var records: seq<Record>
  }

  /** How much of the run is left: batches until the table stops changing, then sessions. */
  function BatchesLeft(tables: seq<seq<Session>>, k: nat): nat {
    if k < |tables| then |tables| - k else 0
  }

  lemma PageMovesOn(tables: seq<seq<Session>>, k: nat, offset: nat, batch: nat)
    requires tables != [] && Page(TableAt(tables, k), offset, batch) != []
    ensures batch > 0 && offset < |TableAt(tables, k)|
    ensures BatchesLeft(tables, k) > 0 ==> BatchesLeft(tables, k + 1) < BatchesLeft(tables, k)
    ensures BatchesLeft(tables, k) == 0 ==>
      BatchesLeft(tables, k + 1) == 0 && offset < |tables[|tables| - 1]|
  {
  }

  /** What the run still visits after the page at hand. */
  lemma RestAfter(tables: seq<seq<Session>>, k: nat, offset: nat, batch: nat, page: seq<Session>, rest: seq<Session>, next: nat)
      returns (after: seq<Session>)
    requires tables != [] && next == offset + batch
    requires page == Page(TableAt(tables, k), offset, batch) && page != []
    requires rest == Visits(tables, k, offset, batch)
    ensures after == Visits(tables, k + 1, next, batch) && rest == page + after
  {
    VisitsUnfold(tables, k, offset, batch, next, page);
    after := Visits(tables, k + 1, next, batch);
  }

  lemma NothingLeft(tables: seq<seq<Session>>, k: nat, offset: nat, batch: nat)
    requires tables != [] && Page(TableAt(tables, k), offset, batch) == []
    ensures Visits(tables, k, offset, batch) == []
  {
  }

  method RunBackfill(db: RecordTable, o: Outcomes, tables: seq<seq<Session>>, batch: nat, dryRun: bool) returns (tally: Tally)
    requires tables != []
    modifies db
    ensures (db.records, tally) == VisitAll(o, dryRun, old(db.records), NoTally, Visits(tables, 0, 0, batch))
    ensures Sum(tally) == |Visits(tables, 0, 0, batch)|
    ensures dryRun ==> db.records == old(db.records)
  {
    ghost var visits := Visits(tables, 0, 0, batch);
    CountersAddUp(o, dryRun, db.records, NoTally, visits);
    tally := RunFromStart(db, o, tables, batch, dryRun, visits);
  }

  method RunFromStart(db: RecordTable, o: Outcomes, tables: seq<seq<Session>>, batch: nat, dryRun: bool, ghost visits: seq<Session>)
      returns (tally: Tally)
    requires tables != [] && visits == Visits(tables, 0, 0, batch)
    modifies db
    ensures (db.records, tally) == VisitAll(o, dryRun, old(db.records), NoTally, visits)
  {
    tally := NoTally;
    var k: nat, offset: nat := 0, 0;
    ghost var rest := visits;
    ghost var outcome := VisitAll(o, dryRun, db.records, NoTally, visits);
    var page := Page(TableAt(tables, k), offset, batch);
    while page != []
      invariant page == Page(TableAt(tables, k), offset, batch)
      invariant rest == Visits(tables, k, offset, batch)
      invariant outcome == VisitAll(o, dryRun, db.records, tally, rest)
      decreases BatchesLeft(tables, k), |tables[|tables| - 1]| - offset
    {
      PageMovesOn(tables, k, offset, batch);
      var next := offset + batch;
      rest := RestAfter(tables, k, offset, batch, page, rest, next);
      tally := VisitBatch(db, o, tally, page, dryRun, rest, outcome);
      k, offset := k + 1, next;
      page := Page(TableAt(tables, k), offset, batch);
    }
    NothingLeft(tables, k, offset, batch);
  }

  lemma {:induction false} VisitAllConcat(o: Outcomes, dryRun: bool, records: seq<Record>, tally: Tally, a: seq<Session>, b: seq<Session>)
    ensures var (r, t) := VisitAll(o, dryRun, records, tally, a);
      VisitAll(o, dryRun, records, tally, a + b) == VisitAll(o, dryRun, r, t, b)
    decreases |a|
  {
    if a == [] {
      assert a + b == b;
    } else {
      var (r, t) := Visit(o, dryRun, records, tally, a[0]);
      assert (a + b)[1..] == a[1..] + b;
      VisitAllConcat(o, dryRun, r, t, a[1..], b);
    }
  }

  /** One batch of a run that will come to `outcome`, with `rest` still to visit after it. */
  method VisitBatch(db: RecordTable, o: Outcomes, tally: Tally, page: seq<Session>, dryRun: bool, ghost rest: seq<Session>,
                    ghost outcome: (seq<Record>, Tally))
      returns (after: Tally)
    requires outcome == VisitAll(o, dryRun, db.records, tally, page + rest)
    modifies db
    ensures outcome == VisitAll(o, dryRun, db.records, after, rest)
  {
    after := VisitPage(db, o, tally, page, dryRun, rest);
  }

  /** One batch; `rest` is what the run will still visit after it. */
  method VisitPage(db: RecordTable, o: Outcomes, tally: Tally, page: seq<Session>, dryRun: bool, ghost rest: seq<Session>)
      returns (after: Tally)
    modifies db
    ensures (db.records, after) == VisitAll(o, dryRun, old(db.records), tally, page)
    ensures VisitAll(o, dryRun, db.records, after, rest) == VisitAll(o, dryRun, old(db.records), tally, page + rest)
  {
    VisitAllConcat(o, dryRun, db.records, tally, page, rest);
    after := tally;
    for i := 0 to |page|
      invariant VisitAll(o, dryRun, old(db.records), tally, page) == VisitAll(o, dryRun, db.records, after, page[i..])
    {
      assert page[i..][1..] == page[i + 1..];
      after := VisitSession(db, o, after, page[i], dryRun);
    }
    assert page[|page|..] == [];
  }

  method VisitSession(db: RecordTable, o: Outcomes, tally: Tally, s: Session, dryRun: bool) returns (after: Tally)
    modifies db
    ensures (db.records, after) == Visit(o, dryRun, old(db.records), tally, s)
  {
    var existing := Count(db.records, s.id);
    if existing >= 2 || (existing == 0 && !o.loads(s.id)) {
      return tally.(errors := tally.errors + 1);
    }
    if existing == 1 {
      return tally.(skipped := tally.skipped + 1);
    }
    if dryRun {
      return tally.(processed := tally.processed + 1);
    }
    if !o.normalizes(s.id, Buyer) {
      return tally.(errors := tally.errors + 1);
    }
    db.records := db.records + [Record(s.id, Buyer, s.buyer)];
    if !o.normalizes(s.id, Seller) {
      return tally.(errors := tally.errors + 1);
    }
    db.records := db.records + [Record(s.id, Seller, s.seller)];
    return tally.(processed := tally.processed + 1, affected := tally.affected + {s.buyer, s.seller});
  }
}
