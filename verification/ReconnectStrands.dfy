/**
 How many connections and timers of the event-stream hook are alive. Every attempt that ends, aborted
 or not, schedules the next one in its `finally`; only the last timer scheduled that way is remembered
 and can be cleared.
 */
module ReconnectStrands {
  import opened Prelude

  /** Live connections and pending timers by number; `stored` is the remembered timer, pending or not. */
  datatype Hook = Hook(live: set<nat>, timers: set<nat>, stored: Option<nat>, next: nat)

  const Unmounted := Hook({}, {}, None, 0)

  datatype Event =
    | Mount                  // the effect runs `connect`
    | Fires(timer: nat)      // a timer runs `connect`
    | Ends(connection: nat)  // a connection is done, fails or has been aborted
    | Reconnect              // the user reconnects: abort, clear, connect after a fixed wait
    | Cleanup                // the effect is undone: abort, clear

  /** The remembered timer is pending, so clearing it stops something. */
  predicate StoredPending(h: Hook) {
    h.stored.Some? && h.stored.value in h.timers
  }

  function Clear(h: Hook): Hook {
    h.(timers := if h.stored.Some? then h.timers - {h.stored.value} else h.timers, stored := None)
  }

  /** An abort ends nothing by itself: the connection's own `Ends` follows. */
  function Step(h: Hook, e: Event): Hook {
    match e
    case Mount => h.(live := h.live + {h.next}, next := h.next + 1)
    case Fires(t) => if t in h.timers then h.(timers := h.timers - {t}, live := h.live + {h.next}, next := h.next + 1) else h
    case Ends(c) =>
      if c in h.live
      then h.(live := h.live - {c}, timers := h.timers + {h.next}, stored := Some(h.next), next := h.next + 1) else h
    case Reconnect => var cleared := Clear(h); cleared.(timers := cleared.timers + {h.next}, next := h.next + 1)
    case Cleanup => Clear(h)
  }

  function Run(h: Hook, events: seq<Event>): Hook
    decreases |events|
  {
    if events == [] then h else Run(Step(h, events[0]), events[1..])
  }

  function Strands(h: Hook): nat {
    |h.live| + |h.timers|
  }

  ghost predicate Numbered(h: Hook) {
    forall n :: n in h.live || n in h.timers ==> n < h.next
  }

  /** What an event does to the number of strands. */
  function Change(h: Hook, e: Event): int {
    match e
    case Mount => 1
    case Reconnect => if StoredPending(h) then 0 else 1
    case Cleanup => if StoredPending(h) then -1 else 0
    case _ => 0
  }

  function Changes(h: Hook, events: seq<Event>): int
    decreases |events|
  {
    if events == [] then 0 else Change(h, events[0]) + Changes(Step(h, events[0]), events[1..])
  }

  lemma StepChanges(h: Hook, e: Event)
    requires Numbered(h)
    ensures Numbered(Step(h, e)) && Strands(Step(h, e)) == Strands(h) + Change(h, e)
  {
    assert h.next !in h.live && h.next !in h.timers;
    match e
    case Mount => Added(h.live, h.next);
    case Fires(t) =>
      if t in h.timers {
        Removed(h.timers, t);
        Added(h.live, h.next);
      }
    case Ends(c) =>
      if c in h.live {
        Removed(h.live, c);
        Added(h.timers, h.next);
      }
    case Reconnect =>
      ClearedTimers(h);
      Added(Clear(h).timers, h.next);
    case Cleanup => ClearedTimers(h);
  }

  lemma Added(a: set<nat>, n: nat)
    requires n !in a
    ensures |a + {n}| == |a| + 1
  {
  }

  lemma Removed(a: set<nat>, n: nat)
    requires n in a
    ensures |a - {n}| == |a| - 1
  {
  }

  lemma ClearedTimers(h: Hook)
    ensures |Clear(h).timers| == |h.timers| - (if StoredPending(h) then 1 else 0)
    ensures forall n :: n in Clear(h).timers ==> n in h.timers
  {
    if StoredPending(h) {
      Removed(h.timers, h.stored.value);
    } else if h.stored.Some? {
      assert h.timers - {h.stored.value} == h.timers;
    }
  }

  /** Over any run, attempts that end and timers that fire only pass a strand on. */
  lemma {:induction false} RunChanges(h: Hook, events: seq<Event>)
    requires Numbered(h)
    ensures Numbered(Run(h, events)) && Strands(Run(h, events)) == Strands(h) + Changes(h, events)
    decreases |events|
  {
    if events != [] {
      StepChanges(h, events[0]);
      RunChanges(Step(h, events[0]), events[1..]);
    }
  }

  /** No event of the run is a mount or a cleanup. */
  ghost predicate StaysMounted(events: seq<Event>) {
    forall i :: 0 <= i < |events| ==> events[i] != Mount && events[i] != Cleanup
  }

  /** Every manual reconnect of the run was made while the remembered timer was pending. */
  predicate ReconnectsWaiting(h: Hook, events: seq<Event>)
    decreases |events|
  {
    events == [] ||
    ((events[0] == Reconnect ==> StoredPending(h)) && ReconnectsWaiting(Step(h, events[0]), events[1..]))
  }

  lemma {:induction false} ChangesWhileMounted(h: Hook, events: seq<Event>)
    requires StaysMounted(events)
    ensures Changes(h, events) >= 0
    ensures Changes(h, events) == 0 <==> ReconnectsWaiting(h, events)
    decreases |events|
  {
    if events != [] {
      assert events[0] != Mount && events[0] != Cleanup;
      ChangesWhileMounted(Step(h, events[0]), events[1..]);
    }
  }

  /**
   After one mount the hook keeps one connection or one timer, never fewer, and never more exactly when
   each manual reconnect is made while the remembered timer is pending. A reconnect on a live stream
   adds a second one for good.
   */
  lemma OneStrandIff(events: seq<Event>)
    requires StaysMounted(events)
    ensures Strands(Run(Step(Unmounted, Mount), events)) >= 1
    ensures Strands(Run(Step(Unmounted, Mount), events)) == 1 <==> ReconnectsWaiting(Step(Unmounted, Mount), events)
  {
    StepChanges(Unmounted, Mount);
    RunChanges(Step(Unmounted, Mount), events);
    ChangesWhileMounted(Step(Unmounted, Mount), events);
  }

  /** Undoing the effect stops a strand exactly when the remembered timer is pending, not when a stream is live. */
  lemma CleanupStopsIff(h: Hook, later: seq<Event>)
    requires Numbered(h) && StaysMounted(later)
    ensures Strands(Step(h, Cleanup)) == Strands(h) - (if StoredPending(h) then 1 else 0)
    ensures Strands(Run(Step(h, Cleanup), later)) >= Strands(Step(h, Cleanup))
  {
    StepChanges(h, Cleanup);
    RunChanges(Step(h, Cleanup), later);
    ChangesWhileMounted(Step(h, Cleanup), later);
  }

  // ---------------------------------------------------------------------------------------------
  // Which timer is remembered, read off the events
  // ---------------------------------------------------------------------------------------------

  lemma {:induction false} RunLast(h: Hook, events: seq<Event>)
    requires events != []
    ensures Run(h, events) == Step(Run(h, events[..|events| - 1]), events[|events| - 1])
    decreases |events|
  {
    var n := |events| - 1;
    if n == 0 {
      assert Run(h, events) == Run(Step(h, events[0]), events[1..]) && events[1..] == [] && events[..0] == [];
    } else {
      RunLast(Step(h, events[0]), events[1..]);
      assert events[1..][..n - 1] == events[..n][1..] && events[1..][n - 1] == events[n];
    }
  }

  /** Event `i` ends a live connection. */
  predicate EndsLive(events: seq<Event>, i: nat)
    requires i < |events|
  {
    events[i].Ends? && events[i].connection in Run(Unmounted, events[..i]).live
  }

  /** Timer `n` is scheduled by the end of a connection, event `i`. */
  predicate Schedules(events: seq<Event>, i: nat, n: nat)
    requires i < |events|
  {
    EndsLive(events, i) && n == Run(Unmounted, events[..i]).next
  }

  /** Event `j` neither clears the remembered timer, nor fires `n`, nor schedules another. */
  predicate LeavesPending(events: seq<Event>, j: nat, n: nat)
    requires j < |events|
  {
    events[j] != Reconnect && events[j] != Cleanup && events[j] != Fires(n) && !EndsLive(events, j)
  }

  ghost predicate ScheduledLast(events: seq<Event>, i: nat, n: nat) {
    i < |events| && Schedules(events, i, n) && forall j :: i < j < |events| ==> LeavesPending(events, j, n)
  }

  predicate PendingIs(h: Hook, n: nat) {
    h.stored == Some(n) && n in h.timers
  }

  lemma SamePast(events: seq<Event>, m: nat, j: nat, n: nat)
    requires j < m <= |events|
    ensures Schedules(events[..m], j, n) <==> Schedules(events, j, n)
    ensures LeavesPending(events[..m], j, n) <==> LeavesPending(events, j, n)
  {
    assert events[..m][..j] == events[..j];
  }

  lemma ScheduledBefore(events: seq<Event>, n: nat)
    requires events != []
    ensures var m := |events| - 1;
      && ((exists i :: ScheduledLast(events, i, n)) <==>
           Schedules(events, m, n) || (LeavesPending(events, m, n) && exists i :: ScheduledLast(events[..m], i, n)))
  {
    var m := |events| - 1;
    var front := events[..m];
    forall j | 0 <= j < m
      ensures Schedules(front, j, n) <==> Schedules(events, j, n)
      ensures LeavesPending(front, j, n) <==> LeavesPending(events, j, n)
    {
      SamePast(events, m, j, n);
    }
    if i: nat :| ScheduledLast(events, i, n) && i < m {
      assert ScheduledLast(front, i, n);
    }
    if LeavesPending(events, m, n) {
      if i: nat :| ScheduledLast(front, i, n) {
        assert ScheduledLast(events, i, n);
      }
    }
    if Schedules(events, m, n) {
      assert ScheduledLast(events, m, n);
    }
  }

  /**
   Clearing stops timer `n` exactly when the end of a connection scheduled it and nothing since has
   cleared, fired or replaced it: a reconnect's own timer is never remembered.
   */
  lemma {:induction false} RememberedIff(events: seq<Event>, n: nat)
    ensures PendingIs(Run(Unmounted, events), n) <==> exists i :: ScheduledLast(events, i, n)
    decreases |events|
  {
    if events != [] {
      var m := |events| - 1;
      RunLast(Unmounted, events);
      ScheduledBefore(events, n);
      RememberedIff(events[..m], n);
    }
  }
}
