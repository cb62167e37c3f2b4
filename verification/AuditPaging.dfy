/**
 Reading one escrow's log page by page. A page lists entries by sequence number and the cursor to
 the next one is the timestamp of its last entry, so timestamps decide what a reader sees.
 */
module AuditPaging {
  import opened Prelude
  import opened AuditLog

  /** Entries stamped after the cursor, in the order of the log. */
  function After(log: seq<Entry>, cursor: Option<int>): (r: seq<Entry>)
    ensures |r| <= |log|
  {
    if log == [] then []
    else
      var front := After(log[..|log| - 1], cursor);
      var last := log[|log| - 1];
      if cursor == None || last.createdAt > cursor.value then front + [last] else front
  }

  function ListEntries(log: seq<Entry>, after: Option<int>, limit: nat): seq<Entry> {
    var found := After(log, after);
    if |found| <= limit then found else found[..limit]
  }

  /** The limit the API passes on. */
  function PageLimit(requested: int): (limit: nat)
    ensures 1 <= limit <= 100
    ensures 1 <= requested <= 100 ==> limit == requested
    ensures requested < 1 ==> limit == 1
    ensures requested > 100 ==> limit == 100
  {
    var atLeastOne := if requested < 1 then 1 else requested;
    if atLeastOne > 100 then 100 else atLeastOne
  }

  /** One page, and the cursor to the next if a further entry was found. */
  function GetAuditLog(log: seq<Entry>, cursor: Option<int>, limit: nat): (seq<Entry>, Option<int>) {
    var entries := ListEntries(log, cursor, limit + 1);
    var hasMore := |entries| > limit;
    var page := if hasMore then entries[..limit] else entries;
    (page, if hasMore && page != [] then Some(page[|page| - 1].createdAt) else None)
  }

  function Flatten(batches: seq<seq<Entry>>): seq<Entry> {
    if batches == [] then [] else batches[0] + Flatten(batches[1..])
  }

  // ---------------------------------------------------------------------------------------------
  // Following cursors
  // ---------------------------------------------------------------------------------------------

  lemma {:induction false} AfterConcat(a: seq<Entry>, b: seq<Entry>, cursor: Option<int>)
    ensures After(a + b, cursor) == After(a, cursor) + After(b, cursor)
  {
    if b == [] {
      assert a + b == a;
    } else {
      var n := |b| - 1;
      assert (a + b)[..|a| + n] == a + b[..n];
      AfterConcat(a, b[..n], cursor);
    }
  }

  lemma {:induction false} AfterMembers(log: seq<Entry>, cursor: Option<int>, x: Entry)
    ensures x in After(log, cursor) <==> x in log && (cursor == None || x.createdAt > cursor.value)
  {
    if log != [] {
      AfterMembers(log[..|log| - 1], cursor, x);
      assert log == log[..|log| - 1] + [log[|log| - 1]];
    }
  }

  /** Moving the cursor to an entry's own timestamp loses at least that entry. */
  lemma {:induction false} LaterCursorSeesLess(log: seq<Entry>, cursor: Option<int>, x: Entry)
    requires cursor.Some? ==> x.createdAt > cursor.value
    ensures |After(log, Some(x.createdAt))| <= |After(log, cursor)|
    ensures x in log ==> |After(log, Some(x.createdAt))| < |After(log, cursor)|
  {
    if log != [] {
      LaterCursorSeesLess(log[..|log| - 1], cursor, x);
    }
  }

  lemma NextCursor(log: seq<Entry>, cursor: Option<int>, limit: nat)
    requires limit >= 1
    ensures var (page, next) := GetAuditLog(log, cursor, limit);
      next.Some? ==>
        exists x :: x in log && x.createdAt == next.value && (cursor.Some? ==> x.createdAt > cursor.value)
  {
    var (page, next) := GetAuditLog(log, cursor, limit);
    if next.Some? {
      var x := page[|page| - 1];
      assert x in After(log, cursor);
      AfterMembers(log, cursor, x);
    }
  }

  lemma CursorAdvances(log: seq<Entry>, arrivals: seq<seq<Entry>>, cursor: Option<int>, limit: nat)
    requires limit >= 1
    ensures var next := GetAuditLog(log, cursor, limit).1;
      next.Some? ==>
        |After(log + Flatten(arrivals), next)| < |After(log + Flatten(arrivals), cursor)|
  {
    var next := GetAuditLog(log, cursor, limit).1;
    if next.Some? {
      NextCursor(log, cursor, limit);
      var x :| x in log && x.createdAt == next.value && (cursor.Some? ==> x.createdAt > cursor.value);
      LaterCursorSeesLess(log + Flatten(arrivals), cursor, x);
    }
  }

  /** The log after the next batch has arrived, and the batches still to come. */
  function Grown(log: seq<Entry>, arrivals: seq<seq<Entry>>): seq<Entry> {
    if arrivals == [] then log else log + arrivals[0]
  }

  function Waiting(arrivals: seq<seq<Entry>>): seq<seq<Entry>> {
    if arrivals == [] then [] else arrivals[1..]
  }

  lemma GrownTotal(log: seq<Entry>, arrivals: seq<seq<Entry>>)
    ensures Grown(log, arrivals) + Flatten(Waiting(arrivals)) == log + Flatten(arrivals)
    ensures log <= Grown(log, arrivals) <= log + Flatten(arrivals)
  {
  }

  /**
   A reader that follows cursors until there is none. `arrivals[k]` is appended to the log between
   page k and page k+1. It terminates whatever the timestamps are.
   */
  function FollowCursors(log: seq<Entry>, arrivals: seq<seq<Entry>>, cursor: Option<int>, limit: nat): seq<Entry>
    requires limit >= 1
    decreases |After(log + Flatten(arrivals), cursor)|
  {
    var (page, next) := GetAuditLog(log, cursor, limit);
    if next == None then page
    else
      CursorAdvances(log, arrivals, cursor, limit);
      GrownTotal(log, arrivals);
      page + FollowCursors(Grown(log, arrivals), Waiting(arrivals), next, limit)
  }

  // ---------------------------------------------------------------------------------------------
  // Strictly increasing timestamps
  // ---------------------------------------------------------------------------------------------

  ghost predicate Increasing(log: seq<Entry>) {
    forall i, j :: 0 <= i < j < |log| ==> log[i].createdAt < log[j].createdAt
  }

  ghost predicate NonDecreasing(log: seq<Entry>) {
    forall i, j :: 0 <= i < j < |log| ==> log[i].createdAt <= log[j].createdAt
  }

  /** Position `p` splits the log at the cursor. */
  ghost predicate SplitsAt(log: seq<Entry>, cursor: Option<int>, p: nat) {
    && p <= |log|
    && (cursor == None ==> p == 0)
    && (cursor.Some? ==>
          && (forall i :: 0 <= i < p ==> log[i].createdAt <= cursor.value)
          && (forall i :: p <= i < |log| ==> log[i].createdAt > cursor.value))
  }

  lemma {:induction false} AllAfter(log: seq<Entry>, cursor: Option<int>)
    requires forall i :: 0 <= i < |log| ==> cursor == None || log[i].createdAt > cursor.value
    ensures After(log, cursor) == log
  {
    if log != [] {
      var n := |log| - 1;
      AllAfter(log[..n], cursor);
      assert log[..n] + [log[n]] == log;
    }
  }

  lemma {:induction false} NoneAfter(log: seq<Entry>, cursor: int)
    requires forall i :: 0 <= i < |log| ==> log[i].createdAt <= cursor
    ensures After(log, Some(cursor)) == []
  {
    if log != [] {
      NoneAfter(log[..|log| - 1], cursor);
    }
  }

  lemma AfterIsSuffix(log: seq<Entry>, cursor: Option<int>, p: nat)
    requires SplitsAt(log, cursor, p)
    ensures After(log, cursor) == log[p..]
  {
    AfterConcat(log[..p], log[p..], cursor);
    assert log[..p] + log[p..] == log;
    AllAfter(log[p..], cursor);
    if cursor.Some? {
      NoneAfter(log[..p], cursor.value);
    }
  }

  /** A page read from position `p`. */
  lemma PageFrom(log: seq<Entry>, cursor: Option<int>, p: nat, b: nat, limit: nat)
    requires limit >= 1 && b == p + limit && SplitsAt(log, cursor, p)
    ensures var (page, next) := GetAuditLog(log, cursor, limit);
      if b < |log| then page == log[p..b] && next == Some(log[b - 1].createdAt)
      else page == log[p..] && next == None
  {
    AfterIsSuffix(log, cursor, p);
    OneMoreTellsMore(log[p..], limit);
    assert b < |log| ==> log[p..][..limit] == log[p..b];
  }

  /** Asking for one entry more shows whether there are more, and the page is the same. */
  lemma OneMoreTellsMore(found: seq<Entry>, limit: nat)
    ensures var entries := if |found| <= limit + 1 then found else found[..limit + 1];
      && (|entries| > limit <==> |found| > limit)
      && (|found| > limit ==> entries[..limit] == found[..limit])
  {
  }

  /** The cursor of a reader that has read up to position `p`. */
  function CursorAt(log: seq<Entry>, p: nat): Option<int>
    requires p <= |log|
  {
    if p == 0 then None else Some(log[p - 1].createdAt)
  }

  lemma FollowStep(log: seq<Entry>, arrivals: seq<seq<Entry>>, p: nat, b: nat, limit: nat)
    requires limit >= 1 && p <= |log| && b == p + limit && SplitsAt(log, CursorAt(log, p), p)
    ensures FollowCursors(log, arrivals, CursorAt(log, p), limit) ==
      if b >= |log| then log[p..]
      else log[p..b] + FollowCursors(Grown(log, arrivals), Waiting(arrivals), CursorAt(log, b), limit)
  {
    PageFrom(log, CursorAt(log, p), p, b, limit);
  }

  lemma IncreasingSplits(log: seq<Entry>, total: seq<Entry>, p: nat)
    requires log <= total && Increasing(total) && p <= |log|
    ensures SplitsAt(log, CursorAt(log, p), p)
  {
    assert forall i :: 0 <= i < |log| ==> log[i] == total[i];
  }

  lemma Slices(log: seq<Entry>, total: seq<Entry>, p: nat, q: nat, m: nat)
    requires log <= total && p <= q <= |log| <= m <= |total|
    ensures log[p..q] + total[q..m] == total[p..m]
  {
  }

  lemma LastPage(log: seq<Entry>, arrivals: seq<seq<Entry>>, p: nat, limit: nat)
    requires limit >= 1 && p <= |log| <= p + limit && Increasing(log + Flatten(arrivals))
    ensures FollowCursors(log, arrivals, CursorAt(log, p), limit) == (log + Flatten(arrivals))[p..|log|]
  {
    IncreasingSplits(log, log + Flatten(arrivals), p);
    FollowStep(log, arrivals, p, p + limit, limit);
    assert log[p..] == (log + Flatten(arrivals))[p..|log|];
  }

  lemma SameTail(a: seq<Entry>, b: seq<Entry>, c: seq<Entry>)
    ensures a + b == a + c <==> b == c
  {
    assert b == (a + b)[|a|..] && c == (a + c)[|a|..];
  }

  lemma FollowPage(log: seq<Entry>, arrivals: seq<seq<Entry>>, p: nat, b: nat, limit: nat, due: seq<Entry>)
    requires limit >= 1 && b == p + limit < |log| && SplitsAt(log, CursorAt(log, p), p)
    ensures FollowCursors(log, arrivals, CursorAt(log, p), limit) == log[p..b] + due
       <==> FollowCursors(Grown(log, arrivals), Waiting(arrivals), CursorAt(log, b), limit) == due
  {
    FollowStep(log, arrivals, p, b, limit);
    SameTail(log[p..b], FollowCursors(Grown(log, arrivals), Waiting(arrivals), CursorAt(log, b), limit), due);
  }

  /** One page, then what the reader sees from position `q` of the grown log. */
  lemma JoinPages(log: seq<Entry>, arrivals: seq<seq<Entry>>, p: nat, q: nat, limit: nat, m: nat)
    requires limit >= 1 && q == p + limit < |log| <= m <= |log + Flatten(arrivals)|
    requires Increasing(log + Flatten(arrivals))
    requires FollowCursors(Grown(log, arrivals), Waiting(arrivals), CursorAt(Grown(log, arrivals), q), limit)
          == (log + Flatten(arrivals))[q..m]
    ensures FollowCursors(log, arrivals, CursorAt(log, p), limit) == (log + Flatten(arrivals))[p..m]
  {
    var total := log + Flatten(arrivals);
    IncreasingSplits(log, total, p);
    assert CursorAt(log, q) == CursorAt(Grown(log, arrivals), q);
    FollowPage(log, arrivals, p, q, limit, total[q..m]);
    Slices(log, total, p, q, m);
  }

  /**
   With strictly increasing timestamps the reader sees, once each and in order, every entry that
   was there at the start and then those that arrived before its last page.
   */
  lemma {:induction false} FollowFrom(log: seq<Entry>, arrivals: seq<seq<Entry>>, p: nat, limit: nat) returns (m: nat)
    requires limit >= 1 && p <= |log| && Increasing(log + Flatten(arrivals))
    ensures |log| <= m <= |log + Flatten(arrivals)|
    ensures FollowCursors(log, arrivals, CursorAt(log, p), limit) == (log + Flatten(arrivals))[p..m]
    decreases |log + Flatten(arrivals)| - p
  {
    if p + limit >= |log| {
      m := |log|;
      LastPage(log, arrivals, p, limit);
    } else {
      GrownTotal(log, arrivals);
      m := FollowFrom(Grown(log, arrivals), Waiting(arrivals), p + limit, limit);
      JoinPages(log, arrivals, p, p + limit, limit, m);
    }
  }

  lemma ReaderSeesEverything(log: seq<Entry>, arrivals: seq<seq<Entry>>, limit: nat) returns (m: nat)
    requires limit >= 1 && Increasing(log + Flatten(arrivals))
    ensures |log| <= m <= |log + Flatten(arrivals)|
    ensures FollowCursors(log, arrivals, None, limit) == (log + Flatten(arrivals))[..m]
    ensures log <= FollowCursors(log, arrivals, None, limit)
  {
    m := FollowFrom(log, arrivals, 0, limit);
    assert (log + Flatten(arrivals))[0..m] == (log + Flatten(arrivals))[..m];
  }

  // ---------------------------------------------------------------------------------------------
  // Ties
  // ---------------------------------------------------------------------------------------------

  /** Past the entries from `i` on that are stamped like the one before. */
  function Resume(log: seq<Entry>, i: nat): (r: nat)
    requires 0 < i <= |log|
    ensures i <= r <= |log|
    ensures forall k :: i <= k < r ==> log[k].createdAt == log[i - 1].createdAt
    ensures r < |log| ==> log[r].createdAt != log[i - 1].createdAt
    decreases |log| - i
  {
    if i == |log| || log[i].createdAt != log[i - 1].createdAt then i else Resume(log, i + 1)
  }

  /**
   Pages of `limit` entries, each resuming after the ties of the last entry of the one before, as they
   stand in the log when the next page is read.
   */
  function SkippingTies(log: seq<Entry>, arrivals: seq<seq<Entry>>, p: nat, limit: nat): seq<Entry>
    requires limit >= 1 && p <= |log|
    decreases |log + Flatten(arrivals)| - p
  {
    if p + limit >= |log| then log[p..]
    else
      GrownTotal(log, arrivals);
      var grown := Grown(log, arrivals);
      log[p..p + limit] + SkippingTies(grown, Waiting(arrivals), Resume(grown, p + limit), limit)
  }

  /** No tie runs across position `p`. */
  predicate BetweenTies(log: seq<Entry>, p: nat) {
    p <= |log| && (0 < p < |log| ==> log[p - 1].createdAt != log[p].createdAt)
  }

  lemma BetweenTiesSplits(log: seq<Entry>, p: nat)
    requires NonDecreasing(log) && BetweenTies(log, p)
    ensures SplitsAt(log, CursorAt(log, p), p)
  {
    if 0 < p < |log| {
      assert log[p - 1].createdAt < log[p].createdAt;
    }
  }

  /** The page after a boundary starts where the boundary's ties end. */
  lemma ResumeCursor(log: seq<Entry>, i: nat)
    requires 0 < i <= |log|
    ensures BetweenTies(log, Resume(log, i))
    ensures CursorAt(log, Resume(log, i)) == CursorAt(log, i)
  {
  }

  lemma Prefixes(log: seq<Entry>, total: seq<Entry>)
    requires NonDecreasing(total) && log <= total
    ensures NonDecreasing(log)
  {
    assert forall i :: 0 <= i < |log| ==> log[i] == total[i];
  }

  /**
   With ties, exactly the entries tied with a page's last entry and standing after it are skipped, those
   that arrive before the next page is read included.
   */
  lemma {:induction false} FollowSkipsTies(log: seq<Entry>, arrivals: seq<seq<Entry>>, p: nat, limit: nat)
    requires limit >= 1 && NonDecreasing(log + Flatten(arrivals)) && BetweenTies(log, p)
    ensures FollowCursors(log, arrivals, CursorAt(log, p), limit) == SkippingTies(log, arrivals, p, limit)
    decreases |log + Flatten(arrivals)| - p
  {
    Prefixes(log, log + Flatten(arrivals));
    BetweenTiesSplits(log, p);
    var b := p + limit;
    FollowStep(log, arrivals, p, b, limit);
    if b < |log| {
      GrownTotal(log, arrivals);
      var grown := Grown(log, arrivals);
      ResumeCursor(grown, b);
      assert CursorAt(log, b) == CursorAt(grown, b);
      FollowSkipsTies(grown, Waiting(arrivals), Resume(grown, b), limit);
      SkippingStep(log, arrivals, p, b, limit);
    }
  }

  lemma SkippingUnfold(log: seq<Entry>, arrivals: seq<seq<Entry>>, p: nat, limit: nat)
    requires limit >= 1 && p + limit < |log|
    ensures SkippingTies(log, arrivals, p, limit) == log[p..p + limit] +
      SkippingTies(Grown(log, arrivals), Waiting(arrivals), Resume(Grown(log, arrivals), p + limit), limit)
  {
  }

  lemma SkippingStep(log: seq<Entry>, arrivals: seq<seq<Entry>>, p: nat, b: nat, limit: nat)
    requires limit >= 1 && b == p + limit < |log|
    ensures SkippingTies(log, arrivals, p, limit) ==
      log[p..b] + SkippingTies(Grown(log, arrivals), Waiting(arrivals), Resume(Grown(log, arrivals), b), limit)
  {
    var grown, waiting := Grown(log, arrivals), Waiting(arrivals);
    var rest := SkippingTies(grown, waiting, Resume(grown, p + limit), limit);
    assert SkippingTies(log, arrivals, p, limit) == log[p..p + limit] + rest by {
      SkippingUnfold(log, arrivals, p, limit);
    }
    assert Resume(grown, p + limit) == Resume(grown, b) && log[p..p + limit] == log[p..b];
    assert rest == SkippingTies(grown, waiting, Resume(grown, b), limit);
  }

  /** One of the page boundaries p + limit, p + 2*limit, ... falls between equal timestamps. */
  ghost predicate BoundaryTie(log: seq<Entry>, arrivals: seq<seq<Entry>>, p: nat, limit: nat)
    requires limit >= 1
    decreases |log + Flatten(arrivals)| - p
  {
    && p + limit < |log|
    && (log[p + limit - 1].createdAt == log[p + limit].createdAt ||
        (GrownTotal(log, arrivals); BoundaryTie(Grown(log, arrivals), Waiting(arrivals), p + limit, limit)))
  }

  /** How long the log is when a reader that skips nothing reads its last page. */
  function FinalLength(log: seq<Entry>, arrivals: seq<seq<Entry>>, p: nat, limit: nat): (m: nat)
    requires limit >= 1
    ensures |log| <= m <= |log + Flatten(arrivals)|
    ensures arrivals == [] ==> m == |log|
    decreases |log + Flatten(arrivals)| - p
  {
    if p + limit >= |log| then |log|
    else
      GrownTotal(log, arrivals);
      FinalLength(Grown(log, arrivals), Waiting(arrivals), p + limit, limit)
  }

  /** A reader that resumes past a tie never meets its timestamp again. */
  lemma ResumesPastTie(log: seq<Entry>, arrivals: seq<seq<Entry>>, b: nat, limit: nat)
    requires limit >= 1 && 0 < b < |log|
    ensures var rest := SkippingTies(log, arrivals, Resume(log, b), limit);
      rest != [] ==> rest[0].createdAt != log[b - 1].createdAt
  {
  }

  /** After one page, completeness is completeness of the rest. */
  lemma JoinSkipping(log: seq<Entry>, arrivals: seq<seq<Entry>>, p: nat, b: nat, limit: nat)
    requires limit >= 1 && b == p + limit < |log|
    ensures var total := log + Flatten(arrivals);
      var m := FinalLength(log, arrivals, p, limit);
      var grown := Grown(log, arrivals);
      && m == FinalLength(grown, Waiting(arrivals), b, limit)
      && (SkippingTies(log, arrivals, p, limit) == total[p..m]
          <==> SkippingTies(grown, Waiting(arrivals), Resume(grown, b), limit) == total[b..m])
  {
    var total, m := log + Flatten(arrivals), FinalLength(log, arrivals, p, limit);
    var rest := SkippingTies(Grown(log, arrivals), Waiting(arrivals), Resume(Grown(log, arrivals), b), limit);
    FinalLengthStep(log, arrivals, p, b, limit);
    SkippingStep(log, arrivals, p, b, limit);
    Slices(log, total, p, b, m);
    SameTail(log[p..b], rest, total[b..m]);
  }

  lemma OtherHead(rest: seq<Entry>, tail: seq<Entry>, stamp: int)
    requires rest != [] ==> rest[0].createdAt != stamp
    requires tail != [] && tail[0].createdAt == stamp
    ensures rest != tail
  {
  }

  lemma TieLosesAnEntry(log: seq<Entry>, arrivals: seq<seq<Entry>>, p: nat, b: nat, limit: nat)
    requires limit >= 1 && b == p + limit < |log| && log[b - 1].createdAt == log[b].createdAt
    ensures SkippingTies(log, arrivals, p, limit) != (log + Flatten(arrivals))[p..FinalLength(log, arrivals, p, limit)]
  {
    var grown := Grown(log, arrivals);
    JoinSkipping(log, arrivals, p, b, limit);
    ResumesPastTie(grown, Waiting(arrivals), b, limit);
    assert grown[b - 1] == log[b - 1];
    OtherHead(SkippingTies(grown, Waiting(arrivals), Resume(grown, b), limit),
              (log + Flatten(arrivals))[b..FinalLength(log, arrivals, p, limit)], log[b].createdAt);
  }

  /** Without a tie at this boundary everything hangs on the later ones. */
  lemma CleanBoundary(log: seq<Entry>, arrivals: seq<seq<Entry>>, p: nat, b: nat, limit: nat)
    requires limit >= 1 && b == p + limit < |log| && log[b - 1].createdAt != log[b].createdAt
    ensures var grown, waiting := Grown(log, arrivals), Waiting(arrivals);
      && (SkippingTies(log, arrivals, p, limit) == (log + Flatten(arrivals))[p..FinalLength(log, arrivals, p, limit)]
          <==> SkippingTies(grown, waiting, b, limit) == (grown + Flatten(waiting))[b..FinalLength(grown, waiting, b, limit)])
      && (BoundaryTie(log, arrivals, p, limit) <==> BoundaryTie(grown, waiting, b, limit))
  {
    GrownTotal(log, arrivals);
    assert Grown(log, arrivals)[b] == log[b] && Grown(log, arrivals)[b - 1] == log[b - 1];
    JoinSkipping(log, arrivals, p, b, limit);
  }

  /** Nothing up to the final length is missed exactly when no boundary splits a tie. */
  lemma {:induction false} CompleteUnlessBoundaryTie(log: seq<Entry>, arrivals: seq<seq<Entry>>, p: nat, b: nat, limit: nat)
    requires limit >= 1 && p <= |log| && b == p + limit
    ensures SkippingTies(log, arrivals, p, limit) == (log + Flatten(arrivals))[p..FinalLength(log, arrivals, p, limit)]
       <==> !BoundaryTie(log, arrivals, p, limit)
    decreases |log + Flatten(arrivals)| - p
  {
    if b >= |log| {
      assert log[p..] == (log + Flatten(arrivals))[p..|log|];
    } else if log[b - 1].createdAt == log[b].createdAt {
      TieLosesAnEntry(log, arrivals, p, b, limit);
    } else {
      GrownTotal(log, arrivals);
      CleanBoundary(log, arrivals, p, b, limit);
      CompleteUnlessBoundaryTie(Grown(log, arrivals), Waiting(arrivals), b, b + limit, limit);
    }
  }

  lemma FinalLengthStep(log: seq<Entry>, arrivals: seq<seq<Entry>>, p: nat, b: nat, limit: nat)
    requires limit >= 1 && b == p + limit < |log|
    ensures FinalLength(log, arrivals, p, limit) == FinalLength(Grown(log, arrivals), Waiting(arrivals), b, limit)
  {
  }

  /**
   With timestamps that never fall, appends between pages included, a reader gets everything up to its
   last page exactly when no page boundary splits a tie; on an unchanging log that is the whole log.
   */
  lemma ReaderCompleteIff(log: seq<Entry>, arrivals: seq<seq<Entry>>, limit: nat)
    requires limit >= 1 && NonDecreasing(log + Flatten(arrivals))
    ensures var m := FinalLength(log, arrivals, 0, limit);
      FollowCursors(log, arrivals, None, limit) == (log + Flatten(arrivals))[..m] <==> !BoundaryTie(log, arrivals, 0, limit)
    ensures arrivals == [] ==> (FollowCursors(log, [], None, limit) == log <==> !BoundaryTie(log, [], 0, limit))
  {
    FollowSkipsTies(log, arrivals, 0, limit);
    CompleteUnlessBoundaryTie(log, arrivals, 0, limit, limit);
    var m := FinalLength(log, arrivals, 0, limit);
    assert (log + Flatten(arrivals))[0..m] == (log + Flatten(arrivals))[..m];
    assert arrivals == [] ==> (log + Flatten(arrivals))[..m] == log;
  }

  /** The smallest loss: two entries with one timestamp, read one at a time. */
  lemma TiedPairHalfRead(a: Entry, b: Entry)
    requires a.createdAt == b.createdAt
    ensures FollowCursors([a, b], [], None, 1) == [a] && BoundaryTie([a, b], [], 0, 1)
  {
    var log := [a, b];
    assert log + Flatten([]) == log;
    assert Resume(log, 1) == 2 && log[..1] == [a] && log[2..] == [];
    assert Grown(log, []) == log && Waiting([]) == [];
    FollowSkipsTies(log, [], 0, 1);
    assert SkippingTies(log, [], 2, 1) == [];
    assert SkippingTies(log, [], 0, 1) == log[0..1] + SkippingTies(log, [], 2, 1);
  }

  // ---------------------------------------------------------------------------------------------
  // Any clock
  // ---------------------------------------------------------------------------------------------

  /** All a reader gets from a cursor on is stamped after it. */
  lemma {:induction false} ReadsLater(log: seq<Entry>, arrivals: seq<seq<Entry>>, cursor: int, limit: nat, x: Entry)
    requires limit >= 1 && x in FollowCursors(log, arrivals, Some(cursor), limit)
    ensures x.createdAt > cursor
    decreases |After(log + Flatten(arrivals), Some(cursor))|
  {
    var (page, next) := GetAuditLog(log, Some(cursor), limit);
    if x in page {
      AfterMembers(log, Some(cursor), x);
    } else {
      CursorAdvances(log, arrivals, Some(cursor), limit);
      NextCursor(log, Some(cursor), limit);
      GrownTotal(log, arrivals);
      ReadsLater(Grown(log, arrivals), Waiting(arrivals), next.value, limit, x);
    }
  }

  lemma ReadsFirstAfter(log: seq<Entry>, arrivals: seq<seq<Entry>>, cursor: Option<int>, limit: nat)
    requires limit >= 1 && After(log, cursor) != []
    ensures var read := FollowCursors(log, arrivals, cursor, limit);
      read != [] && read[0] == After(log, cursor)[0]
  {
  }

  /** The first entry past a cursor stands no later than any other one past it. */
  lemma {:induction false} FirstPast(log: seq<Entry>, cursor: int, i: nat) returns (k: nat)
    requires i < |log| && log[i].createdAt > cursor
    ensures k <= i && After(log, Some(cursor)) != [] && After(log, Some(cursor))[0] == log[k]
  {
    var n := |log| - 1;
    if i < n {
      k := FirstPast(log[..n], cursor, i);
    } else if After(log[..n], Some(cursor)) == [] {
      k := i;
    } else {
      AfterMembers(log[..n], Some(cursor), After(log[..n], Some(cursor))[0]);
      k :| 0 <= k < n && log[..n][k] == After(log[..n], Some(cursor))[0];
    }
  }

  /** At every page boundary, all earlier stamps are at most, and all later ones above, the last one read. */
  ghost predicate CleanCuts(log: seq<Entry>, arrivals: seq<seq<Entry>>, p: nat, limit: nat)
    requires limit >= 1
    decreases |log + Flatten(arrivals)| - p
  {
    p + limit < |log| ==>
      && SplitsAt(Grown(log, arrivals), CursorAt(log, p + limit), p + limit)
      && (GrownTotal(log, arrivals); CleanCuts(Grown(log, arrivals), Waiting(arrivals), p + limit, limit))
  }

  /** Past a boundary that does not split the log, what is read is not what comes next in it. */
  lemma UncleanCutMisreads(log: seq<Entry>, arrivals: seq<seq<Entry>>, b: nat, limit: nat, m: nat)
    requires limit >= 1 && 0 < b < |log| <= m <= |log + Flatten(arrivals)| && StrictlyNumbered(log + Flatten(arrivals))
    requires !SplitsAt(log, CursorAt(log, b), b)
    ensures FollowCursors(log, arrivals, CursorAt(log, b), limit) != (log + Flatten(arrivals))[b..m]
  {
    var c, due := log[b - 1].createdAt, (log + Flatten(arrivals))[b..m];
    var read := FollowCursors(log, arrivals, Some(c), limit);
    if i :| 0 <= i < b && log[i].createdAt > c {
      var k := FirstPast(log, c, i);
      ReadsFirstAfter(log, arrivals, Some(c), limit);
      assert read[0] == log[k] == (log + Flatten(arrivals))[k] && due[0] == (log + Flatten(arrivals))[b];
    } else {
      var i :| b <= i < |log| && log[i].createdAt <= c;
      assert due[i - b] == log[i];
      if read == due {
        assert log[i] in read;
        ReadsLater(log, arrivals, c, limit, log[i]);
      }
    }
  }

  /** One page, and what is left to compare after it. */
  lemma JoinAnyClock(log: seq<Entry>, arrivals: seq<seq<Entry>>, p: nat, b: nat, limit: nat)
    requires limit >= 1 && b == p + limit < |log| && SplitsAt(log, CursorAt(log, p), p)
    ensures var total, m := log + Flatten(arrivals), FinalLength(log, arrivals, p, limit);
      && m == FinalLength(Grown(log, arrivals), Waiting(arrivals), b, limit)
      && (FollowCursors(log, arrivals, CursorAt(log, p), limit) == total[p..m]
          <==> FollowCursors(Grown(log, arrivals), Waiting(arrivals), CursorAt(log, b), limit) == total[b..m])
  {
    var total, m := log + Flatten(arrivals), FinalLength(log, arrivals, p, limit);
    FinalLengthStep(log, arrivals, p, b, limit);
    Slices(log, total, p, b, m);
    FollowPage(log, arrivals, p, b, limit, total[b..m]);
  }

  lemma LastCut(log: seq<Entry>, arrivals: seq<seq<Entry>>, p: nat, b: nat, limit: nat)
    requires limit >= 1 && p <= |log| <= b == p + limit && SplitsAt(log, CursorAt(log, p), p)
    ensures FollowCursors(log, arrivals, CursorAt(log, p), limit) == (log + Flatten(arrivals))[p..FinalLength(log, arrivals, p, limit)]
    ensures CleanCuts(log, arrivals, p, limit)
  {
    FollowStep(log, arrivals, p, b, limit);
    assert log[p..] == (log + Flatten(arrivals))[p..|log|];
  }

  lemma CleanCutsStep(log: seq<Entry>, arrivals: seq<seq<Entry>>, p: nat, b: nat, limit: nat)
    requires limit >= 1 && b == p + limit < |log|
    ensures CleanCuts(log, arrivals, p, limit) <==>
      SplitsAt(Grown(log, arrivals), CursorAt(log, b), b) && CleanCuts(Grown(log, arrivals), Waiting(arrivals), b, limit)
  {
  }

  lemma {:induction false} CompleteFromIff(log: seq<Entry>, arrivals: seq<seq<Entry>>, p: nat, b: nat, limit: nat)
    requires limit >= 1 && p <= |log| && b == p + limit && SplitsAt(log, CursorAt(log, p), p)
    requires StrictlyNumbered(log + Flatten(arrivals))
    ensures FollowCursors(log, arrivals, CursorAt(log, p), limit) == (log + Flatten(arrivals))[p..FinalLength(log, arrivals, p, limit)]
       <==> CleanCuts(log, arrivals, p, limit)
    decreases |log + Flatten(arrivals)| - p, 0
  {
    if b >= |log| {
      LastCut(log, arrivals, p, b, limit);
    } else {
      GrownTotal(log, arrivals);
      JoinAnyClock(log, arrivals, p, b, limit);
      CleanCutsStep(log, arrivals, p, b, limit);
      NextCutIff(Grown(log, arrivals), Waiting(arrivals), b, limit);
    }
  }

  /** What follows a boundary is read whole exactly when the boundary and all later ones are clean. */
  lemma {:induction false} NextCutIff(log: seq<Entry>, arrivals: seq<seq<Entry>>, b: nat, limit: nat)
    requires limit >= 1 && 0 < b < |log| && StrictlyNumbered(log + Flatten(arrivals))
    ensures FollowCursors(log, arrivals, CursorAt(log, b), limit) == (log + Flatten(arrivals))[b..FinalLength(log, arrivals, b, limit)]
       <==> SplitsAt(log, CursorAt(log, b), b) && CleanCuts(log, arrivals, b, limit)
    decreases |log + Flatten(arrivals)| - b, 1
  {
    if SplitsAt(log, CursorAt(log, b), b) {
      CompleteFromIff(log, arrivals, b, b + limit, limit);
    } else {
      UncleanCutMisreads(log, arrivals, b, limit, FinalLength(log, arrivals, b, limit));
    }
  }

  /**
   Whatever the clock does, appends between pages included: a reader gets everything up to its last page,
   once and in order, exactly when every page boundary has all earlier stamps at most, and all later
   ones above, the stamp before it. It may ask for any limit; the API brings it into range.
   */
  lemma AnyClockCompleteIff(log: seq<Entry>, arrivals: seq<seq<Entry>>, requested: int)
    requires StrictlyNumbered(log + Flatten(arrivals))
    ensures var limit := PageLimit(requested);
      FollowCursors(log, arrivals, None, limit) == (log + Flatten(arrivals))[..FinalLength(log, arrivals, 0, limit)]
      <==> CleanCuts(log, arrivals, 0, limit)
  {
    var limit := PageLimit(requested);
    CompleteFromIff(log, arrivals, 0, limit, limit);
    var m := FinalLength(log, arrivals, 0, limit);
    assert (log + Flatten(arrivals))[0..m] == (log + Flatten(arrivals))[..m];
  }
}
