/** The admin activity feed: the newest rows of two sources, merged, sorted and cut. */
module ActivityFeed {
  import opened Prelude
  import opened Sorting

  datatype Kind = EscrowEvent | SessionEvent

  datatype Row = Row(id: nat, status: string, updatedAt: int)

  datatype Item = Item(kind: Kind, id: nat, createdAt: int)

  predicate NewestRow(a: Row, b: Row) {
    a.updatedAt >= b.updatedAt
  }

  predicate NewestItem(a: Item, b: Item) {
    a.createdAt >= b.createdAt
  }

  function Take<T>(s: seq<T>, limit: nat): seq<T> {
    if |s| <= limit then s else s[..limit]
  }

  predicate TerminalStatus(status: string) {
    status == "AGREED" || status == "FAILED" || status == "WALK_AWAY" || status == "TIMEOUT"
  }

  function TerminalRows(rows: seq<Row>): seq<Row> {
    if rows == [] then []
    else if TerminalStatus(rows[0].status) then [rows[0]] + TerminalRows(rows[1..])
    else TerminalRows(rows[1..])
  }

  /** `ORDER BY updated_at DESC LIMIT limit`. */
  function NewestRows(rows: seq<Row>, limit: nat): seq<Row> {
    Take(Sort(rows, NewestRow), limit)
  }

  function Items(kind: Kind, rows: seq<Row>): (r: seq<Item>)
    ensures |r| == |rows|
    ensures forall i :: 0 <= i < |rows| ==> r[i] == Item(kind, rows[i].id, rows[i].updatedAt)
  {
    seq(|rows|, i requires 0 <= i < |rows| => Item(kind, rows[i].id, rows[i].updatedAt))
  }

  // ---------------------------------------------------------------------------------------------
  // Timestamps of sorted lists
  // ---------------------------------------------------------------------------------------------

  predicate NewestStamp(a: int, b: int) {
    a >= b
  }

  /** Newest first, one neighbour at a time. */
  ghost predicate Falling(s: seq<int>) {
    |s| <= 1 || (s[0] >= s[1] && Falling(s[1..]))
  }

  lemma {:induction false} FallingIsSorted(s: seq<int>)
    ensures Falling(s) <==> SortedBy(s, NewestStamp)
  {
    if |s| > 1 {
      FallingIsSorted(s[1..]);
      if Falling(s) {
        forall i | 0 < i < |s|
          ensures s[0] >= s[i]
        {
          assert s[i] == s[1..][i - 1] && s[1] == s[1..][0];
          assert i > 1 ==> NewestStamp(s[1..][0], s[1..][i - 1]);
        }
        forall i, j | 0 <= i < j < |s|
          ensures NewestStamp(s[i], s[j])
        {
          assert i > 0 ==> NewestStamp(s[1..][i - 1], s[1..][j - 1]);
        }
      }
      if SortedBy(s, NewestStamp) {
        assert NewestStamp(s[0], s[1]);
      }
    }
  }

  function RowStamp(r: Row): int {
    r.updatedAt
  }

  function ItemStamp(i: Item): int {
    i.createdAt
  }

  function Stamps<T>(s: seq<T>, f: T -> int): (r: seq<int>)
    ensures |r| == |s| && forall i :: 0 <= i < |s| ==> r[i] == f(s[i])
  {
    seq(|s|, i requires 0 <= i < |s| => f(s[i]))
  }

  lemma StampsConcat<T>(a: seq<T>, b: seq<T>, f: T -> int)
    ensures Stamps(a + b, f) == Stamps(a, f) + Stamps(b, f)
  {
  }

  lemma StampsTake<T>(s: seq<T>, k: nat, f: T -> int)
    ensures Stamps(Take(s, k), f) == Take(Stamps(s, f), k)
  {
  }

  function Without<T>(s: seq<T>, k: nat): seq<T>
    requires k < |s|
  {
    s[..k] + s[k + 1..]
  }

  lemma RemoveOne<T>(s: seq<T>, k: nat)
    requires k < |s|
    ensures multiset(s) == multiset(Without(s, k)) + multiset{s[k]}
  {
    assert s == s[..k] + [s[k]] + s[k + 1..];
  }

  lemma RemoveStamp<T>(s: seq<T>, k: nat, f: T -> int)
    requires k < |s|
    ensures multiset(Stamps(s, f)) == multiset(Stamps(Without(s, k), f)) + multiset{f(s[k])}
  {
    assert Without(Stamps(s, f), k) == Stamps(Without(s, k), f);
    RemoveOne(Stamps(s, f), k);
  }

  lemma RemoveCommon<T>(a: seq<T>, b: seq<T>) returns (k: nat)
    requires a != [] && multiset(a) == multiset(b)
    ensures k < |b| && b[k] == a[0] && multiset(Without(a, 0)) == multiset(Without(b, k))
  {
    SameMembers(a, b);
    assert a[0] in b;
    k :| 0 <= k < |b| && b[k] == a[0];
    RemoveOne(b, k);
    RemoveOne(a, 0);
    assert multiset(Without(a, 0)) == multiset(a) - multiset{a[0]};
    assert multiset(Without(b, k)) == multiset(b) - multiset{a[0]};
  }

  lemma {:induction false} StampsPermute<T>(a: seq<T>, b: seq<T>, f: T -> int)
    requires multiset(a) == multiset(b)
    ensures multiset(Stamps(a, f)) == multiset(Stamps(b, f))
    decreases |a|
  {
    SameMembers(a, b);
    if a != [] {
      var k := RemoveCommon(a, b);
      StampsPermute(Without(a, 0), Without(b, k), f);
      RemoveStamp(a, 0, f);
      RemoveStamp(b, k, f);
    } else {
      assert Stamps(a, f) == Stamps(b, f);
    }
  }

  // ---------------------------------------------------------------------------------------------
  // Merging
  // ---------------------------------------------------------------------------------------------

  /** The first k timestamps of two lists merged newest first. */
  function MergeTake(x: seq<int>, y: seq<int>, k: nat): seq<int>
    decreases k
  {
    if k == 0 || (x == [] && y == []) then []
    else if y == [] || (x != [] && x[0] >= y[0]) then [x[0]] + MergeTake(x[1..], y, k - 1)
    else [y[0]] + MergeTake(x, y[1..], k - 1)
  }

  /** A merge of k needs no more than the first k of each side. */
  lemma {:induction false} MergeNeedsFirst(x: seq<int>, y: seq<int>, k: nat, x': seq<int>, y': seq<int>)
    requires x' <= x && (|x'| == |x| || |x'| >= k)
    requires y' <= y && (|y'| == |y| || |y'| >= k)
    ensures MergeTake(x', y', k) == MergeTake(x, y, k)
    decreases k
  {
    if k > 0 && (x != [] || y != []) {
      if y == [] || (x != [] && x[0] >= y[0]) {
        MergeNeedsFirst(x[1..], y, k - 1, x'[1..], y');
      } else {
        MergeNeedsFirst(x, y[1..], k - 1, x', y'[1..]);
      }
    }
  }

  function Count(s: seq<int>, v: int): nat {
    if s == [] then 0 else (if s[0] == v then 1 else 0) + Count(s[1..], v)
  }

  lemma {:induction false} CountIsMultiplicity(s: seq<int>, v: int)
    ensures Count(s, v) == multiset(s)[v]
  {
    if s != [] {
      assert s == [s[0]] + s[1..];
      CountIsMultiplicity(s[1..], v);
    }
  }

  /** A whole merge holds both sides. */
  lemma {:induction false} MergeKeepsAll(x: seq<int>, y: seq<int>, k: nat, v: int)
    requires k >= |x| + |y|
    ensures Count(MergeTake(x, y, k), v) == Count(x, v) + Count(y, v)
    decreases k
  {
    if x == [] && y == [] {
    } else if y == [] || (x != [] && x[0] >= y[0]) {
      MergeKeepsAll(x[1..], y, k - 1, v);
      assert MergeTake(x, y, k)[1..] == MergeTake(x[1..], y, k - 1);
    } else {
      MergeKeepsAll(x, y[1..], k - 1, v);
      assert MergeTake(x, y, k)[1..] == MergeTake(x, y[1..], k - 1);
    }
  }

  lemma {:induction false} MergeSorted(x: seq<int>, y: seq<int>, k: nat)
    requires Falling(x) && Falling(y)
    ensures Falling(MergeTake(x, y, k))
    decreases k
  {
    if k > 0 && (x != [] || y != []) {
      if y == [] || (x != [] && x[0] >= y[0]) {
        MergeSorted(x[1..], y, k - 1);
        assert MergeTake(x, y, k)[1..] == MergeTake(x[1..], y, k - 1);
      } else {
        MergeSorted(x, y[1..], k - 1);
        assert MergeTake(x, y, k)[1..] == MergeTake(x, y[1..], k - 1);
      }
    }
  }

  lemma {:induction false} MergePrefix(x: seq<int>, y: seq<int>, k: nat, n: nat)
    requires k <= n
    ensures MergeTake(x, y, k) == Take(MergeTake(x, y, n), k)
    decreases k
  {
    if k > 0 && (x != [] || y != []) {
      if y == [] || (x != [] && x[0] >= y[0]) {
        MergePrefix(x[1..], y, k - 1, n - 1);
      } else {
        MergePrefix(x, y[1..], k - 1, n - 1);
      }
    }
  }

  lemma SameStamps(a: seq<int>, b: seq<int>)
    requires Falling(a) && Falling(b)
    requires forall v :: Count(a, v) == Count(b, v)
    ensures a == b
  {
    forall v: int
      ensures multiset(a)[v] == multiset(b)[v]
    {
      CountIsMultiplicity(a, v);
      CountIsMultiplicity(b, v);
    }
    FallingIsSorted(a);
    FallingIsSorted(b);
    SortedUnique(a, b, NewestStamp);
  }

  /** A sorted list is the merge of two sorted lists that together hold the same timestamps. */
  lemma SortedIsMerge(all: seq<int>, x: seq<int>, y: seq<int>, n: nat)
    requires Falling(all) && Falling(x) && Falling(y) && n >= |x| + |y|
    requires forall v :: Count(all, v) == Count(x, v) + Count(y, v)
    ensures all == MergeTake(x, y, n)
  {
    forall v: int
      ensures Count(all, v) == Count(MergeTake(x, y, n), v)
    {
      MergeKeepsAll(x, y, n, v);
    }
    MergeSorted(x, y, n);
    SameStamps(all, MergeTake(x, y, n));
  }

  function SortedStamps(items: seq<Item>): (r: seq<int>)
    ensures Falling(r) && |r| == |items|
  {
    var r := Stamps(Sort(items, NewestItem), ItemStamp);
    FallingIsSorted(r);
    r
  }

  lemma SortedStampCounts(items: seq<Item>, v: int)
    ensures Count(SortedStamps(items), v) == Count(Stamps(items, ItemStamp), v)
  {
    StampsPermute(Sort(items, NewestItem), items, ItemStamp);
    CountIsMultiplicity(SortedStamps(items), v);
    CountIsMultiplicity(Stamps(items, ItemStamp), v);
  }

  lemma {:induction false} CountConcat(a: seq<int>, b: seq<int>, v: int)
    ensures Count(a + b, v) == Count(a, v) + Count(b, v)
  {
    if a == [] {
      assert a + b == b;
    } else {
      assert (a + b)[1..] == a[1..] + b;
      CountConcat(a[1..], b, v);
    }
  }

  lemma ConcatStamps(a: seq<Item>, b: seq<Item>, v: int)
    ensures Count(SortedStamps(a + b), v) == Count(SortedStamps(a), v) + Count(SortedStamps(b), v)
  {
    SortedStampCounts(a + b, v);
    SortedStampCounts(a, v);
    SortedStampCounts(b, v);
    StampsConcat(a, b, ItemStamp);
    CountConcat(Stamps(a, ItemStamp), Stamps(b, ItemStamp), v);
  }

  /** The stamps of the newest of a combined list are the merge of the two sorted stamp lists. */
  lemma CombinedStamps(a: seq<Item>, b: seq<Item>, k: nat)
    ensures Take(SortedStamps(a + b), k) == MergeTake(SortedStamps(a), SortedStamps(b), k)
  {
    forall v: int
      ensures Count(SortedStamps(a + b), v) == Count(SortedStamps(a), v) + Count(SortedStamps(b), v)
    {
      ConcatStamps(a, b, v);
    }
    var n := k + |a| + |b|;
    SortedIsMerge(SortedStamps(a + b), SortedStamps(a), SortedStamps(b), n);
    MergePrefix(SortedStamps(a), SortedStamps(b), k, n);
  }

  // ---------------------------------------------------------------------------------------------
  // The feed
  // ---------------------------------------------------------------------------------------------

  /** The feed over two result lists. */
  function Feed(escrows: seq<Row>, sessions: seq<Row>, limit: nat): seq<Item> {
    Take(Sort(Items(EscrowEvent, escrows) + Items(SessionEvent, sessions), NewestItem), limit)
  }

  lemma SortedItemStamps(kind: Kind, rows: seq<Row>)
    ensures SortedStamps(Items(kind, rows)) == Stamps(Sort(rows, NewestRow), RowStamp)
  {
    var items := Items(kind, rows);
    assert Stamps(items, ItemStamp) == Stamps(rows, RowStamp);
    forall v: int
      ensures Count(SortedStamps(items), v) == Count(Stamps(Sort(rows, NewestRow), RowStamp), v)
    {
      SortedStampCounts(items, v);
      SortedRowCounts(rows, v);
    }
    FallingIsSorted(Stamps(Sort(rows, NewestRow), RowStamp));
    SameStamps(SortedStamps(items), Stamps(Sort(rows, NewestRow), RowStamp));
  }

  lemma SortedRowCounts(rows: seq<Row>, v: int)
    ensures Count(Stamps(Sort(rows, NewestRow), RowStamp), v) == Count(Stamps(rows, RowStamp), v)
  {
    StampsPermute(Sort(rows, NewestRow), rows, RowStamp);
    CountIsMultiplicity(Stamps(Sort(rows, NewestRow), RowStamp), v);
    CountIsMultiplicity(Stamps(rows, RowStamp), v);
  }

  lemma CutRowsStaySorted(rows: seq<Row>, k: nat)
    ensures Sort(NewestRows(rows, k), NewestRow) == NewestRows(rows, k)
  {
    SortedIsFixed(NewestRows(rows, k));
  }

  /** Sorting a sorted list changes nothing. */
  lemma {:induction false} SortedIsFixed(rows: seq<Row>)
    requires SortedBy(rows, NewestRow)
    ensures Sort(rows, NewestRow) == rows
  {
    if rows != [] {
      SortedIsFixed(rows[1..]);
      assert rows[1..] != [] ==> NewestRow(rows[0], rows[1..][0]);
    }
  }

  lemma NewestItemStamps(kind: Kind, rows: seq<Row>, k: nat)
    ensures SortedStamps(Items(kind, NewestRows(rows, k))) == Take(SortedStamps(Items(kind, rows)), k)
  {
    SortedItemStamps(kind, rows);
    SortedItemStamps(kind, NewestRows(rows, k));
    CutRowsStaySorted(rows, k);
    StampsTake(Sort(rows, NewestRow), k, RowStamp);
  }

  lemma FeedStamps(escrows: seq<Row>, sessions: seq<Row>, limit: nat)
    ensures Stamps(Feed(escrows, sessions, limit), ItemStamp) ==
      Take(SortedStamps(Items(EscrowEvent, escrows) + Items(SessionEvent, sessions)), limit)
  {
    var items := Sort(Items(EscrowEvent, escrows) + Items(SessionEvent, sessions), NewestItem);
    StampsTake(items, limit, ItemStamp);
  }

  /** Cutting each source first shows the same timestamps as sorting everything and cutting once. */
  lemma CuttingEarlyIsSafe(escrows: seq<Row>, sessions: seq<Row>, limit: nat)
    ensures Stamps(Feed(NewestRows(escrows, limit), NewestRows(sessions, limit), limit), ItemStamp) ==
      Stamps(Feed(escrows, sessions, limit), ItemStamp)
  {
    var x, y := SortedStamps(Items(EscrowEvent, escrows)), SortedStamps(Items(SessionEvent, sessions));
    FeedStamps(NewestRows(escrows, limit), NewestRows(sessions, limit), limit);
    FeedStamps(escrows, sessions, limit);
    CombinedStamps(Items(EscrowEvent, NewestRows(escrows, limit)), Items(SessionEvent, NewestRows(sessions, limit)), limit);
    CombinedStamps(Items(EscrowEvent, escrows), Items(SessionEvent, sessions), limit);
    NewestItemStamps(EscrowEvent, escrows, limit);
    NewestItemStamps(SessionEvent, sessions, limit);
    MergeNeedsFirst(x, y, limit, Take(x, limit), Take(y, limit));
  }

  ghost predicate Shows(x: Item, rows: seq<Row>) {
    exists i :: 0 <= i < |rows| && x == Item(x.kind, rows[i].id, rows[i].updatedAt)
  }

  /** The feed is as long as the limit and the rows allow, and every item is a row of its own source. */
  lemma FeedShowsRows(escrows: seq<Row>, sessions: seq<Row>, limit: nat)
    ensures |Feed(escrows, sessions, limit)| == (if |escrows| + |sessions| <= limit then |escrows| + |sessions| else limit)
    ensures forall x :: x in Feed(escrows, sessions, limit) ==>
      Shows(x, if x.kind == EscrowEvent then escrows else sessions)
  {
    var a, b := Items(EscrowEvent, escrows), Items(SessionEvent, sessions);
    SameMembers(Sort(a + b, NewestItem), a + b);
    forall x | x in Feed(escrows, sessions, limit)
      ensures Shows(x, if x.kind == EscrowEvent then escrows else sessions)
    {
      assert x in a + b;
      if x in a {
        var i :| 0 <= i < |a| && a[i] == x;
        assert x == Item(EscrowEvent, escrows[i].id, escrows[i].updatedAt);
      } else {
        var i :| 0 <= i < |b| && b[i] == x;
        assert x == Item(SessionEvent, sessions[i].id, sessions[i].updatedAt);
      }
    }
  }

  ghost predicate NewestFirst(items: seq<Item>) {
    forall i, j :: 0 <= i < j < |items| ==> items[i].createdAt >= items[j].createdAt
  }

  lemma FeedNewestFirst(escrows: seq<Row>, sessions: seq<Row>, limit: nat)
    ensures NewestFirst(Feed(escrows, sessions, limit))
  {
    var all := Sort(Items(EscrowEvent, escrows) + Items(SessionEvent, sessions), NewestItem);
    forall i, j | 0 <= i < j < |Feed(escrows, sessions, limit)|
      ensures Feed(escrows, sessions, limit)[i].createdAt >= Feed(escrows, sessions, limit)[j].createdAt
    {
      assert NewestItem(all[i], all[j]);
    }
  }

  /** A row that is not shown is no newer than any that is, and only a full feed leaves one out. */
  lemma FeedLeavesOutOldest(escrows: seq<Row>, sessions: seq<Row>, limit: nat, x: Item)
    requires x in Items(EscrowEvent, escrows) + Items(SessionEvent, sessions)
    requires x !in Feed(escrows, sessions, limit)
    ensures var feed := Feed(escrows, sessions, limit);
      |feed| == limit && forall y :: y in feed ==> y.createdAt >= x.createdAt
  {
    var items := Items(EscrowEvent, escrows) + Items(SessionEvent, sessions);
    var all := Sort(items, NewestItem);
    var feed := Feed(escrows, sessions, limit);
    SameMembers(all, items);
    var k :| 0 <= k < |all| && all[k] == x;
    assert forall i :: 0 <= i < |feed| ==> all[i] in feed by {
      assert forall i :: 0 <= i < |feed| ==> all[i] == feed[i];
    }
    forall y | y in feed
      ensures y.createdAt >= x.createdAt
    {
      var i :| 0 <= i < |feed| && feed[i] == y;
      assert NewestItem(all[i], all[k]);
    }
  }

  /** The session query returns exactly the sessions in a terminal status. */
  lemma {:induction false} TerminalRowsExactly(rows: seq<Row>, r: Row)
    ensures r in TerminalRows(rows) <==> r in rows && r.status in {"AGREED", "FAILED", "WALK_AWAY", "TIMEOUT"}
  {
    if rows != [] {
      TerminalRowsExactly(rows[1..], r);
      assert rows == [rows[0]] + rows[1..];
    }
  }

  /** What a query that failed contributes: nothing. */
  function OrNone(rows: Option<seq<Row>>): seq<Row> {
    if rows.Some? then rows.value else []
  }

  /** Appends one item per row. */
  method AppendItems(items: seq<Item>, kind: Kind, rows: seq<Row>) returns (r: seq<Item>)
    ensures r == items + Items(kind, rows)
  {
    r := items;
    for i := 0 to |rows|
      invariant r == items + Items(kind, rows)[..i]
    {
      r := r + [Item(kind, rows[i].id, rows[i].updatedAt)];
    }
  }

  lemma NewestRowsAreRows(rows: seq<Row>, limit: nat, r: Row)
    requires r in NewestRows(rows, limit)
    ensures r in rows
  {
    SameMembers(Sort(rows, NewestRow), rows);
  }

  /** An escrow item shows an escrow row, a session item a session in a terminal status. */
  ghost predicate ShowsRow(x: Item, escrows: seq<Row>, sessions: seq<Row>) {
    match x.kind
    case EscrowEvent => Shows(x, escrows)
    case SessionEvent => Shows(x, TerminalRows(sessions)) && exists r :: r in sessions && RowShown(x, r)
  }

  predicate RowShown(x: Item, r: Row) {
    x.id == r.id && x.createdAt == r.updatedAt && r.status in {"AGREED", "FAILED", "WALK_AWAY", "TIMEOUT"}
  }

  lemma ListingShowsRows(escrows: seq<Row>, sessions: seq<Row>, limit: nat, x: Item)
    requires x in Feed(NewestRows(escrows, limit), NewestRows(TerminalRows(sessions), limit), limit)
    ensures ShowsRow(x, escrows, sessions)
  {
    var e, s := NewestRows(escrows, limit), NewestRows(TerminalRows(sessions), limit);
    FeedShowsRows(e, s, limit);
    var rows := if x.kind == EscrowEvent then e else s;
    assert Shows(x, rows);
    var i :| 0 <= i < |rows| && x == Item(x.kind, rows[i].id, rows[i].updatedAt);
    var all := if x.kind == EscrowEvent then escrows else TerminalRows(sessions);
    NewestRowsAreRows(all, limit, rows[i]);
    var k :| 0 <= k < |all| && all[k] == rows[i];
    assert Shows(x, all);
    if x.kind == SessionEvent {
      TerminalRowsExactly(sessions, rows[i]);
      assert RowShown(x, rows[i]);
    }
  }

  /** The listing: two queries, either of which may fail and then contributes nothing. */
  method ListActivity(escrows: Option<seq<Row>>, sessions: Option<seq<Row>>, limit: nat) returns (items: seq<Item>)
    ensures items == Feed(NewestRows(OrNone(escrows), limit), NewestRows(TerminalRows(OrNone(sessions)), limit), limit)
    ensures Stamps(items, ItemStamp) == Stamps(Feed(OrNone(escrows), TerminalRows(OrNone(sessions)), limit), ItemStamp)
    ensures forall x :: x in items ==> ShowsRow(x, OrNone(escrows), OrNone(sessions))
    ensures NewestFirst(items)
  {
    items := [];
    if escrows.Some? {
      items := AppendItems(items, EscrowEvent, NewestRows(escrows.value, limit));
    }
    assert items == Items(EscrowEvent, NewestRows(OrNone(escrows), limit));
    if sessions.Some? {
      items := AppendItems(items, SessionEvent, NewestRows(TerminalRows(sessions.value), limit));
    }
    assert items == Items(EscrowEvent, NewestRows(OrNone(escrows), limit)) +
      Items(SessionEvent, NewestRows(TerminalRows(OrNone(sessions)), limit));
    items := Take(Sort(items, NewestItem), limit);
    CuttingEarlyIsSafe(OrNone(escrows), TerminalRows(OrNone(sessions)), limit);
    FeedNewestFirst(NewestRows(OrNone(escrows), limit), NewestRows(TerminalRows(OrNone(sessions)), limit), limit);
    forall x | x in items
      ensures ShowsRow(x, OrNone(escrows), OrNone(sessions))
    {
      ListingShowsRows(OrNone(escrows), OrNone(sessions), limit, x);
    }
  }
}
