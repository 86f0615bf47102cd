/** The bounded event queue between a child process and whoever iterates its events. */
module EventQueues {
  /** Slots kept free for the terminal error and exit frames. */
  const RESERVED_TERMINAL_EVENTS := 2

  /** A queue with its history: every value it took in, and every value handed out. */
  datatype Queue<T> = Queue(items: seq<T>, waiters: nat, closed: bool, accepted: seq<T>, delivered: seq<T>)

  /** What one step of the asynchronous iterator does. */
  datatype Pull<T> = Yielded(value: T) | Parked | Ended

  function Empty<T>(): Queue<T> {
    Queue([], 0, false, [], [])
  }

  /** A value goes to the consumer that has waited longest, or else to the end of the line. */
  function Enter<T>(q: Queue<T>, value: T): Queue<T> {
    if q.waiters > 0 then
      q.(waiters := q.waiters - 1, accepted := q.accepted + [value], delivered := q.delivered + [value])
    else
      q.(items := q.items + [value], accepted := q.accepted + [value])
  }

  predicate Refuses<T>(q: Queue<T>, limit: nat) {
    q.closed || (|q.items| + RESERVED_TERMINAL_EVENTS >= limit && q.waiters == 0)
  }

  function Offered<T>(q: Queue<T>, limit: nat, value: T): Queue<T> {
    if Refuses(q, limit) then q else Enter(q, value)
  }

  function Forced<T>(q: Queue<T>, value: T): Queue<T> {
    if q.closed then q else Enter(q, value)
  }

  function Closed<T>(q: Queue<T>): Queue<T> {
    if q.closed then q else q.(closed := true, waiters := 0)
  }

  function Pulled<T>(q: Queue<T>): Queue<T> {
    if |q.items| > 0 then q.(items := q.items[1..], delivered := q.delivered + [q.items[0]])
    else if q.closed then q
    else q.(waiters := q.waiters + 1)
  }

  /** First in, first out, nothing lost: what was handed out and what still waits are
      together what was taken in. Consumers wait only on an empty queue. */
  ghost predicate Fifo<T>(q: Queue<T>) {
    && q.delivered + q.items == q.accepted
    && (q.waiters > 0 ==> q.items == [] && !q.closed)
  }

  lemma EnterKeepsFifo<T>(q: Queue<T>, value: T)
    requires Fifo(q)
    ensures Fifo(Enter(q, value))
  {
    if q.waiters == 0 {
      assert q.delivered + (q.items + [value]) == (q.delivered + q.items) + [value];
    } else {
      assert (q.delivered + [value]) + q.items == (q.delivered + q.items) + [value];
    }
  }

  lemma PullKeepsFifo<T>(q: Queue<T>)
    requires Fifo(q)
    ensures Fifo(Pulled(q)) && Pulled(q).accepted == q.accepted && |Pulled(q).items| <= |q.items|
  {
    if |q.items| > 0 {
      assert q.items == [q.items[0]] + q.items[1..];
      assert (q.delivered + [q.items[0]]) + q.items[1..] == q.delivered + q.items;
    }
  }

  function Drained<T>(q: Queue<T>, pulls: nat): Queue<T>
    decreases pulls
  {
    if pulls == 0 then q else Drained(Pulled(q), pulls - 1)
  }

  /** A closed queue still hands out everything it holds, in order, and then ends. */
  lemma {:induction false} DrainDeliversEverything<T>(q: Queue<T>)
    requires Fifo(q) && q.closed
    ensures var d := Drained(q, |q.items|); d.delivered == q.accepted && d.items == [] && d.closed
    decreases |q.items|
  {
    if |q.items| == 0 {
      assert q.delivered + q.items == q.delivered;
    } else {
      PullKeepsFifo(q);
      DrainDeliversEverything(Pulled(q));
    }
  }

  class EventQueue<T(!new)> {
    const limit: nat
    var items: seq<T>
    /** Consumers parked on an empty queue, longest wait first. */
    var waiters: nat
    var closed: bool
    ghost var accepted: seq<T>
    ghost var delivered: seq<T>

    ghost function State(): Queue<T>
      reads this
    {
      Queue(items, waiters, closed, accepted, delivered)
    }

    constructor (limit: nat)
      ensures State() == Empty() && this.limit == limit
    {
      this.limit := limit;
      items, waiters, closed, accepted, delivered := [], 0, false, [], [];
    }

    method Hand(value: T)
      modifies this
      ensures State() == Enter(old(State()), value)
    {
      accepted := accepted + [value];
      if waiters > 0 {
        waiters := waiters - 1;
        delivered := delivered + [value];
      } else {
        items := items + [value];
      }
    }

    method Push(value: T) returns (ok: bool)
      modifies this
      ensures ok == !Refuses(old(State()), limit)
      ensures State() == Offered(old(State()), limit, value)
    {
      if closed {
        return false;
      }
      if |items| >= limit - RESERVED_TERMINAL_EVENTS && waiters == 0 {
        return false;
      }
      Hand(value);
      return true;
    }

    method ForcePush(value: T)
      modifies this
      ensures State() == Forced(old(State()), value)
    {
      if closed {
        return;
      }
      Hand(value);
    }

    method Close()
      modifies this
      ensures State() == Closed(old(State()))
    {
      if closed {
        return;
      }
      closed := true;
      waiters := 0;
    }

    method Next() returns (r: Pull<T>)
      modifies this
      ensures State() == Pulled(old(State()))
      ensures match r
        case Yielded(value) => delivered == old(delivered) + [value]
        case Ended => old(closed && items == []) && State() == old(State())
        case Parked => delivered == old(delivered) && waiters == old(waiters) + 1
    {
      if |items| > 0 {
        r := Yielded(items[0]);
        delivered := delivered + [items[0]];
        items := items[1..];
      } else if closed {
        r := Ended;
      } else {
        waiters := waiters + 1;
        r := Parked;
      }
    }
  }
}
