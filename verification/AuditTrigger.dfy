/**
 The insert trigger as the only guard: rows from any writers, committed in some order, each let in by
 a trigger that saw the rows committed before it looked. What such rows link to, and exactly when the
 sorted log is linked.
 */
module AuditTrigger {
  import opened Prelude
  import opened Sorting
  import opened AuditLog
  import opened AuditAppend

  // ---------------------------------------------------------------------------------------------
  // Admission
  // ---------------------------------------------------------------------------------------------

  /** The trigger of row `i` saw the first `seen[i]` committed rows: none that was still uncommitted. */
  predicate AdmittedAt(marker: string, rows: seq<Entry>, seen: seq<nat>, i: nat)
    requires i < |rows| == |seen|
  {
    seen[i] <= i && TriggerAdmits(marker, rows[..seen[i]], rows[i])
  }

  ghost predicate Admitted(marker: string, rows: seq<Entry>, seen: seq<nat>) {
    |seen| == |rows| && forall i :: 0 <= i < |rows| ==> AdmittedAt(marker, rows, seen, i)
  }

  predicate LinkedAt(marker: string, es: seq<Entry>, i: nat)
    requires i < |es|
  {
    es[i].prevHash == if i == 0 then marker else es[i - 1].entryHash
  }

  /** Linked by `prev_hash`, the first row carrying the marker. */
  ghost predicate Linked(marker: string, es: seq<Entry>) {
    forall i :: 0 <= i < |es| ==> LinkedAt(marker, es, i)
  }

  /** What a row names when its trigger found this latest row. */
  function NamedHash(marker: string, latest: Option<Entry>): string {
    if latest == None then marker else latest.value.entryHash
  }

  /** `latest` is the entry of the list numbered just below `x`, or none is. */
  ghost predicate IsPredecessor(es: seq<Entry>, latest: Option<Entry>, x: Entry) {
    if latest == None then First(es, x) else Precedes(es, latest.value, x)
  }

  /** The entry names its predecessor by number. */
  ghost predicate LinksBack(marker: string, es: seq<Entry>, x: Entry) {
    exists latest: Option<Entry> :: IsPredecessor(es, latest, x) && x.prevHash == NamedHash(marker, latest)
  }

  function LatestSeen(rows: seq<Entry>, seen: seq<nat>, i: nat): Option<Entry>
    requires i < |rows| == |seen| && seen[i] <= i
  {
    Latest(rows[..seen[i]], rows[i].escrowId)
  }

  /** The latest row that the trigger of row `i` saw is the row's predecessor in its escrow's final log. */
  ghost predicate SawPredecessor(rows: seq<Entry>, seen: seq<nat>, i: nat) {
    i < |rows| == |seen| && seen[i] <= i && IsPredecessor(Of(rows, rows[i].escrowId), LatestSeen(rows, seen, i), rows[i])
  }

  ghost predicate AllSawPredecessor(rows: seq<Entry>, seen: seq<nat>, e: Uuid) {
    forall i :: 0 <= i < |rows| && rows[i].escrowId == e ==> SawPredecessor(rows, seen, i)
  }

  /** Hashes tell the entries apart, and none of them is the marker. */
  ghost predicate HashesApart(marker: string, es: seq<Entry>) {
    && (forall x :: x in es ==> x.entryHash != marker)
    && (forall x, y :: x in es && y in es && x.entryHash == y.entryHash ==> x == y)
  }

  // ---------------------------------------------------------------------------------------------
  // Linked means every row names its predecessor
  // ---------------------------------------------------------------------------------------------

  lemma PositionLinks(marker: string, es: seq<Entry>, s: seq<Entry>, i: nat)
    requires StrictlyNumbered(s) && multiset(s) == multiset(es) && i < |s|
    ensures LinkedAt(marker, s, i) <==> LinksBack(marker, es, s[i])
  {
    NeighbourPrecedes(es, s, i);
    if LinkedAt(marker, s, i) {
      var latest := if i == 0 then None else Some(s[i - 1]);
      assert IsPredecessor(es, latest, s[i]) && s[i].prevHash == NamedHash(marker, latest);
    }
    if LinksBack(marker, es, s[i]) {
      var latest :| IsPredecessor(es, latest, s[i]) && s[i].prevHash == NamedHash(marker, latest);
      if latest.Some? && i == 0 {
        assert latest.value in es;
      }
    }
  }

  lemma SortedLinks(marker: string, es: seq<Entry>)
    requires DistinctlyNumbered(es)
    ensures Linked(marker, SortBySequence(es)) <==> forall x :: x in es ==> LinksBack(marker, es, x)
  {
    var s := SortBySequence(es);
    SortStrictly(es);
    SameMembers(s, es);
    forall i | 0 <= i < |s|
      ensures LinkedAt(marker, s, i) <==> LinksBack(marker, es, s[i])
    {
      PositionLinks(marker, es, s, i);
    }
    if Linked(marker, s) {
      forall x | x in es
        ensures LinksBack(marker, es, x)
      {
        assert x in s;
        var i :| 0 <= i < |s| && s[i] == x;
        assert LinkedAt(marker, s, i);
      }
    }
    if forall x :: x in es ==> LinksBack(marker, es, x) {
      forall i | 0 <= i < |s|
        ensures LinkedAt(marker, s, i)
      {
        assert s[i] in s;
      }
    }
  }

  lemma SeenIsStored(rows: seq<Entry>, seen: seq<nat>, i: nat)
    requires i < |rows| == |seen| && seen[i] <= i
    ensures LatestSeen(rows, seen, i).Some? ==> LatestSeen(rows, seen, i).value in Of(rows, rows[i].escrowId)
  {
    OfPrefix(rows, seen[i], rows[i].escrowId);
  }

  /** One row: it names its predecessor if its trigger saw it, and only then where hashes tell rows apart. */
  lemma RowLinksBack(marker: string, rows: seq<Entry>, seen: seq<nat>, i: nat)
    requires Admitted(marker, rows, seen) && i < |rows|
    ensures var es := Of(rows, rows[i].escrowId);
      && (SawPredecessor(rows, seen, i) ==> LinksBack(marker, es, rows[i]))
      && (HashesApart(marker, es) && LinksBack(marker, es, rows[i]) ==> SawPredecessor(rows, seen, i))
  {
    var es, x := Of(rows, rows[i].escrowId), rows[i];
    assert AdmittedAt(marker, rows, seen, i);
    var latest := LatestSeen(rows, seen, i);
    assert x.prevHash == NamedHash(marker, latest);
    SeenIsStored(rows, seen, i);
    if HashesApart(marker, es) && LinksBack(marker, es, x) {
      var named :| IsPredecessor(es, named, x) && x.prevHash == NamedHash(marker, named);
      assert named.Some? ==> named.value in es;
      assert named == latest;
    }
  }

  /**
   What the trigger guarantees by itself. Over any rows it let in, whoever inserted them, in whatever
   order they were committed and whatever each trigger could see yet: an escrow's sorted log is linked
   if the latest row that each trigger saw is the row's predecessor by number, and, where hashes tell
   the rows apart and differ from the marker, only if.
   */
  lemma TriggerLinksIff(marker: string, rows: seq<Entry>, seen: seq<nat>, e: Uuid)
    requires Admitted(marker, rows, seen) && DistinctlyNumbered(Of(rows, e))
    ensures AllSawPredecessor(rows, seen, e) ==> Linked(marker, SortBySequence(Of(rows, e)))
    ensures HashesApart(marker, Of(rows, e)) ==>
      (Linked(marker, SortBySequence(Of(rows, e))) <==> AllSawPredecessor(rows, seen, e))
  {
    var es := Of(rows, e);
    SortedLinks(marker, es);
    if AllSawPredecessor(rows, seen, e) {
      forall x | x in es
        ensures LinksBack(marker, es, x)
      {
        var i :| 0 <= i < |rows| && rows[i] == x;
        assert SawPredecessor(rows, seen, i);
        RowLinksBack(marker, rows, seen, i);
      }
    }
    if HashesApart(marker, es) && Linked(marker, SortBySequence(es)) {
      forall i | 0 <= i < |rows| && rows[i].escrowId == e
        ensures SawPredecessor(rows, seen, i)
      {
        OfComplete(rows, rows[i]);
        RowLinksBack(marker, rows, seen, i);
      }
    }
  }

  // ---------------------------------------------------------------------------------------------
  // Rows committed in number order
  // ---------------------------------------------------------------------------------------------

  /** Row `i` stands in its escrow's log right after that log's rows before it. */
  lemma RowInLog(rows: seq<Entry>, i: nat)
    requires i < |rows|
    ensures var es, k := Of(rows, rows[i].escrowId), |Of(rows[..i], rows[i].escrowId)|;
      k < |es| && es[..k] == Of(rows[..i], rows[i].escrowId) && es[k] == rows[i]
  {
    var e := rows[i].escrowId;
    assert rows[..i + 1] == rows[..i] + [rows[i]];
    OfAppend(rows[..i], rows[i], e);
    OfPrefix(rows, i + 1, e);
  }

  /** In a strictly numbered log, the last of a prefix precedes an entry exactly when the prefix ends right before it. */
  lemma PrefixPrecedes(es: seq<Entry>, j: nat, k: nat)
    requires StrictlyNumbered(es) && j <= k < |es|
    ensures IsPredecessor(es, Greatest(es[..j]), es[k]) <==> j == k
  {
    if j < k {
      assert es[j] in es;
    } else {
      assert forall q :: q in es ==> exists l :: 0 <= l < |es| && es[l] == q;
    }
  }

  /** The trigger of row `i` saw all rows of the escrow that were committed before it. */
  predicate SawEarlier(rows: seq<Entry>, seen: seq<nat>, i: nat)
    requires i < |rows| == |seen| && seen[i] <= i
  {
    Of(rows[..seen[i]], rows[i].escrowId) == Of(rows[..i], rows[i].escrowId)
  }

  lemma SawEarlierIff(rows: seq<Entry>, seen: seq<nat>, i: nat)
    requires i < |rows| == |seen| && seen[i] <= i && StrictlyNumbered(Of(rows, rows[i].escrowId))
    ensures SawPredecessor(rows, seen, i) <==> SawEarlier(rows, seen, i)
  {
    var e := rows[i].escrowId;
    var es, k := Of(rows, e), |Of(rows[..i], e)|;
    RowInLog(rows, i);
    OfPrefix(rows, seen[i], e);
    OfPrefix(rows[..i], seen[i], e);
    assert rows[..i][..seen[i]] == rows[..seen[i]];
    var j := |Of(rows[..seen[i]], e)|;
    assert Of(rows[..seen[i]], e) == es[..j];
    PrefixPrecedes(es, j, k);
  }

  lemma DistinctFromStrict(es: seq<Entry>)
    requires StrictlyNumbered(es)
    ensures DistinctlyNumbered(es) && SortBySequence(es) == es
  {
    SortRestores(es, es);
    forall i, j | 0 <= i < j < |es|
      ensures NumbersApart(es[i], es[j])
    {
    }
  }

  ghost predicate AllSawEarlier(rows: seq<Entry>, seen: seq<nat>, e: Uuid)
    requires |rows| == |seen| && forall i :: 0 <= i < |rows| ==> seen[i] <= i
  {
    forall i :: 0 <= i < |rows| && rows[i].escrowId == e ==> SawEarlier(rows, seen, i)
  }

  /**
   Rows of an escrow committed in increasing number order are linked if each row's trigger saw the
   escrow's rows before it, and, where hashes tell rows apart, only if. Two open transactions do not
   see each other's rows: that they never both insert is what the advisory lock is for.
   */
  lemma TriggerLinks(marker: string, rows: seq<Entry>, seen: seq<nat>, e: Uuid)
    requires Admitted(marker, rows, seen) && StrictlyNumbered(Of(rows, e))
    ensures forall i :: 0 <= i < |rows| ==> seen[i] <= i
    ensures AllSawEarlier(rows, seen, e) ==> Linked(marker, Of(rows, e))
    ensures HashesApart(marker, Of(rows, e)) ==> (Linked(marker, Of(rows, e)) <==> AllSawEarlier(rows, seen, e))
  {
    forall i | 0 <= i < |rows|
      ensures seen[i] <= i
      ensures rows[i].escrowId == e ==> (SawPredecessor(rows, seen, i) <==> SawEarlier(rows, seen, i))
    {
      assert AdmittedAt(marker, rows, seen, i);
      if rows[i].escrowId == e {
        SawEarlierIff(rows, seen, i);
      }
    }
    DistinctFromStrict(Of(rows, e));
    TriggerLinksIff(marker, rows, seen, e);
    assert AllSawEarlier(rows, seen, e) <==> AllSawPredecessor(rows, seen, e);
  }

  // ---------------------------------------------------------------------------------------------
  // Rows inserted one transaction after another
  // ---------------------------------------------------------------------------------------------

  /** Every trigger saw every row committed before. */
  function Serial(n: nat): (seen: seq<nat>)
    ensures |seen| == n && forall i :: 0 <= i < n ==> seen[i] == i
  {
    seq(n, i requires 0 <= i < n => i)
  }

  lemma {:induction false} GreatestIsGreatest(es: seq<Entry>, x: Entry)
    requires x in es
    ensures Greatest(es).Some? && x.sequenceNo <= Greatest(es).value.sequenceNo
  {
    var n := |es| - 1;
    assert es == es[..n] + [es[n]];
    if x in es[..n] {
      GreatestIsGreatest(es[..n], x);
    }
  }

  /** The row that became position `b` of its escrow's log. */
  lemma {:induction false} LogPosition(rows: seq<Entry>, e: Uuid, b: nat) returns (i: nat)
    requires b < |Of(rows, e)|
    ensures i < |rows| && rows[i].escrowId == e && rows[i] == Of(rows, e)[b] && Of(rows[..i], e) == Of(rows, e)[..b]
  {
    var n := |rows| - 1;
    var front := Of(rows[..n], e);
    if b < |front| {
      i := LogPosition(rows[..n], e, b);
      assert rows[..n][..i] == rows[..i];
    } else {
      i := n;
    }
  }

  lemma SawSoGrew(rows: seq<Entry>, e: Uuid, a: nat, b: nat)
    requires a < b < |Of(rows, e)| && AllSawPredecessor(rows, Serial(|rows|), e)
    ensures Of(rows, e)[a].sequenceNo < Of(rows, e)[b].sequenceNo
  {
    var es := Of(rows, e);
    var i := LogPosition(rows, e, b);
    assert SawPredecessor(rows, Serial(|rows|), i);
    assert es[..b][a] == es[a];
    GreatestIsGreatest(es[..b], es[a]);
  }

  /**
   With inserts one after another the trigger alone keeps a log linked exactly when its rows came in
   increasing number order.
   */
  lemma SerialLinksIff(marker: string, rows: seq<Entry>, e: Uuid)
    requires Admitted(marker, rows, Serial(|rows|))
    requires DistinctlyNumbered(Of(rows, e)) && HashesApart(marker, Of(rows, e))
    ensures Linked(marker, SortBySequence(Of(rows, e))) <==> StrictlyNumbered(Of(rows, e))
  {
    var es, seen := Of(rows, e), Serial(|rows|);
    TriggerLinksIff(marker, rows, seen, e);
    if AllSawPredecessor(rows, seen, e) {
      forall a, b | 0 <= a < b < |es|
        ensures es[a].sequenceNo < es[b].sequenceNo
      {
        SawSoGrew(rows, e, a, b);
      }
    }
    if StrictlyNumbered(es) {
      DistinctFromStrict(es);
      TriggerLinks(marker, rows, seen, e);
    }
  }

  // ---------------------------------------------------------------------------------------------
  // Two inputs
  // ---------------------------------------------------------------------------------------------

  lemma TwoRows(x: Entry, y: Entry)
    requires x.escrowId == y.escrowId
    ensures [x, y][..0] == [] && [x, y][..1] == [x]
    ensures Of([], x.escrowId) == [] && Of([x], x.escrowId) == [x] && Of([x, y], x.escrowId) == [x, y]
    ensures Greatest([x]) == Some(x)
  {
    OfAppend([], x, x.escrowId);
    OfAppend([x], y, x.escrowId);
    assert [] + [x] == [x] && [x] + [y] == [x, y];
    assert Greatest([]) == None;
    assert [x][..0] == [];
  }

  /** Out of number order the trigger admits rows whose sorted log is not linked. */
  lemma TriggerNeedsOrder(marker: string, escrow: Uuid) returns (rows: seq<Entry>)
    ensures Admitted(marker, rows, Serial(|rows|)) && !Linked(marker, SortBySequence(Of(rows, escrow)))
  {
    var other := marker + "0";
    var x := Entry(escrow, 5, "late", "{}", marker, other, 0);
    var y := Entry(escrow, 3, "early", "{}", other, other, 0);
    rows := [x, y];
    TwoRows(x, y);
    assert AdmittedAt(marker, rows, Serial(2), 0) && AdmittedAt(marker, rows, Serial(2), 1);
    SwappedSorts(x, y);
    assert !LinkedAt(marker, [y, x], 0);
  }

  lemma SwappedSorts(x: Entry, y: Entry)
    requires y.sequenceNo < x.sequenceNo
    ensures SortBySequence([x, y]) == [y, x]
  {
    SortRestores([y, x], [x, y]);
  }

  /** Two open transactions that do not see each other's first row are both let in, in number order. */
  lemma ConcurrentFirstRows(marker: string, escrow: Uuid) returns (rows: seq<Entry>)
    ensures Admitted(marker, rows, [0, 0])
    ensures StrictlyNumbered(Of(rows, escrow)) && |Of(rows, escrow)| == 2 && !Linked(marker, Of(rows, escrow))
  {
    var other := marker + "0";
    var x := Entry(escrow, 0, "one", "{}", marker, other, 0);
    var y := Entry(escrow, 1, "two", "{}", marker, other, 0);
    rows := [x, y];
    TwoRows(x, y);
    assert AdmittedAt(marker, rows, [0, 0], 0) && AdmittedAt(marker, rows, [0, 0], 1);
    assert |other| != |marker|;
    assert !LinkedAt(marker, rows, 1);
  }
}
