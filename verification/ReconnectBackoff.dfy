/** The reconnect delay of the event-stream hook, in milliseconds. */
module ReconnectBackoff {

  const BASE := 1000
  const CAP := 30000

  /** What happens to the hook's delay: a response arrives, an attempt ends, or a manual reconnect. */
  datatype Event = Opened | Ended | ManualReconnect

  function Min(a: int, b: int): int {
    if a < b then a else b
  }

  /** The delay kept after an event. */
  function Next(delay: int, e: Event): int {
    match e
    case Opened => BASE
    case ManualReconnect => BASE
    case Ended => Min(Min(delay, CAP) * 2, CAP)
  }

  function After(delay: int, history: seq<Event>): int
    decreases |history|
  {
    if history == [] then delay else Next(After(delay, history[..|history| - 1]), history[|history| - 1])
  }

  /** Attempts that ended since the delay was last reset. */
  function EndedSinceReset(history: seq<Event>): nat
    decreases |history|
  {
    if history == [] then 0
    else match history[|history| - 1]
      case Ended => 1 + EndedSinceReset(history[..|history| - 1])
      case _ => 0
  }

  function Pow2(k: nat): nat {
    if k == 0 then 1 else 2 * Pow2(k - 1)
  }

  /** The delay kept after any history, and so the next wait, is min(1000 * 2^k, 30000), k attempts after a reset. */
  lemma {:induction false} ClosedForm(history: seq<Event>)
    ensures After(BASE, history) == Min(BASE * Pow2(EndedSinceReset(history)), CAP)
    decreases |history|
  {
    if history != [] {
      ClosedForm(history[..|history| - 1]);
    }
  }

  class Backoff {
    var reconnectDelay: int
    ghost var history: seq<Event>

    ghost predicate Valid()
      reads this
    {
      reconnectDelay == After(BASE, history)
    }

    constructor ()
      ensures Valid() && history == []
    {
      reconnectDelay := BASE;
      history := [];
    }

    /** A response has arrived. */
    method OnOpened()
      requires Valid()
      modifies this
      ensures Valid() && history == old(history) + [Opened]
    {
      reconnectDelay := BASE;
      history := history + [Opened];
    }

    /** An attempt ends: schedule the next one and double the delay. */
    method OnEnded() returns (delay: int)
      requires Valid()
      modifies this
      ensures Valid() && history == old(history) + [Ended]
      ensures delay == Min(BASE * Pow2(EndedSinceReset(old(history))), CAP)
      ensures reconnectDelay == Min(2 * delay, CAP)
    {
      ClosedForm(history);
      delay := Min(reconnectDelay, CAP);
      reconnectDelay := Min(delay * 2, CAP);
      history := history + [Ended];
    }

    /** One attempt from start to end, and the wait before the next: a response resets the delay first. */
    method Connect(answered: bool) returns (delay: int)
      requires Valid()
      modifies this
      ensures Valid() && history == old(history) + (if answered then [Opened, Ended] else [Ended])
      ensures delay == if answered then BASE else Min(BASE * Pow2(EndedSinceReset(old(history))), CAP)
    {
      if answered {
        OnOpened();
      }
      delay := OnEnded();
    }

    /** The user reconnects: the delay is reset and the next attempt waits for the base delay. */
    method Reconnect() returns (delay: int)
      requires Valid()
      modifies this
      ensures Valid() && history == old(history) + [ManualReconnect]
      ensures delay == BASE
    {
      reconnectDelay := BASE;
      history := history + [ManualReconnect];
      delay := BASE;
    }
  }
}
