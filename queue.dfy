/**
 * The crawl's bounded, deduplicating task queue. The Go channel becomes a
 * bounded sequence plus a closed flag; each method call is one atomic step,
 * standing for the section the mutex protects.
 */
module CrawlQueue {
  import opened Urls

  /** One unit of crawl work. `kind` is the free-form `Type` string of the source. */
  datatype Task = Task(url: Url, depth: int, kind: string)

  /** The four sentinel errors `Enqueue` can return. */
  datatype Rejection = ExternalDomain | DepthLimit | UrlVisited | QueueFull

  datatype EnqueueResult = Accepted | Rejected(reason: Rejection)

  /** What one receive from the channel yields. */
  datatype Delivery =
    | Received(task: Task)   // the oldest buffered task
    | Drained                // the channel is closed and empty: the consumer's range loop ends
    | WouldBlock             // the channel is open and empty: the consumer waits

  /** The queue's mutable contents: the channel buffer and the visited set. */
  datatype State = State(tasks: seq<Task>, visited: set<string>)

  /** Tasks are deduplicated by the string form of their URL. */
  function Key(t: Task): string {
    t.url.text
  }

  predicate Distinct(ts: seq<Task>) {
    forall i, j :: 0 <= i < j < |ts| ==> Key(ts[i]) != Key(ts[j])
  }

  /**
   * What every state the queue reaches satisfies: the buffer fits the channel's
   * capacity, holds only tasks of the crawl's own host whose URLs are marked
   * visited, and never holds two tasks with the same URL.
   */
  predicate Inv(domain: string, capacity: nat, s: State) {
    && |s.tasks| <= capacity
    && (forall i :: 0 <= i < |s.tasks| ==> s.tasks[i].url.host == domain && Key(s.tasks[i]) in s.visited)
    && Distinct(s.tasks)
  }

  /** The task passes the three checks that precede the channel send. */
  predicate ReachesSend(domain: string, s: State, t: Task, maxDepth: int) {
    t.url.host == domain && t.depth <= maxDepth && Key(t) !in s.visited
  }

  /**
   * One `Enqueue` call: reject an external host, then an over-deep task, then
   * an already-visited URL; otherwise mark the URL visited and try a
   * non-blocking send into the buffer.
   */
  function Offer(domain: string, capacity: nat, s: State, t: Task, maxDepth: int): (res: (State, EnqueueResult))
    ensures Inv(domain, capacity, s) ==> Inv(domain, capacity, res.0)
    ensures res.1 == Accepted <==> ReachesSend(domain, s, t, maxDepth) && |s.tasks| < capacity
    ensures res.1 == Accepted ==> res.0.tasks == s.tasks + [t]
    ensures res.1 != Accepted ==> res.0.tasks == s.tasks
    ensures res.0.visited == if ReachesSend(domain, s, t, maxDepth) then s.visited + {Key(t)} else s.visited
  {
    if t.url.host != domain then (s, Rejected(ExternalDomain))
    else if t.depth > maxDepth then (s, Rejected(DepthLimit))
    else if Key(t) in s.visited then (s, Rejected(UrlVisited))
    else
      var visited := s.visited + {Key(t)};
      if |s.tasks| < capacity then (State(s.tasks + [t], visited), Accepted)
      else (State(s.tasks, visited), Rejected(QueueFull))
  }

  /** One receive from the channel; a closed channel still hands out what it buffers. */
  function Receive(s: State, closed: bool): (res: (State, Delivery))
    ensures res.0.visited == s.visited
    ensures res.1.Received? <==> s.tasks != []
    ensures res.1.Received? ==> [res.1.task] + res.0.tasks == s.tasks
    ensures !res.1.Received? ==> res.0 == s && (res.1 == Drained <==> closed)
  {
    if s.tasks != [] then (State(s.tasks[1..], s.visited), Received(s.tasks[0]))
    else if closed then (s, Drained)
    else (s, WouldBlock)
  }

  lemma ReceivePreservesInv(domain: string, capacity: nat, s: State, closed: bool)
    requires Inv(domain, capacity, s)
    ensures Inv(domain, capacity, Receive(s, closed).0)
  {
    if s.tasks != [] {
      var rest := s.tasks[1..];
      forall i, j | 0 <= i < j < |rest| ensures Key(rest[i]) != Key(rest[j]) {
        assert rest[i] == s.tasks[i + 1] && rest[j] == s.tasks[j + 1];
      }
    }
  }

  /** The external-host check comes first: it wins whatever the depth or the visited set. */
  lemma ExternalHostAlwaysRejected(domain: string, capacity: nat, s: State, t: Task, maxDepth: int)
    requires t.url.host != domain
    ensures Offer(domain, capacity, s, t, maxDepth) == (s, Rejected(ExternalDomain))
  {
  }

  /** Depth is bounded inclusively: `maxDepth` itself passes, one more is rejected without a trace. */
  lemma DepthBoundInclusive(domain: string, capacity: nat, s: State, t: Task, maxDepth: int)
    requires t.url.host == domain
    ensures t.depth > maxDepth ==> Offer(domain, capacity, s, t, maxDepth) == (s, Rejected(DepthLimit))
    ensures t.depth == maxDepth ==> Offer(domain, capacity, s, t, maxDepth).1 != Rejected(DepthLimit)
  {
  }

  /**
   * A second offer of the same URL is refused as visited, whether the first
   * was buffered or dropped as full, and however many tasks were received in
   * between; the state is then left as it was.
   */
  lemma {:induction false} RevisitRejected(domain: string, capacity: nat, s: State, t: Task, maxDepth: int,
                                           receives: nat, t': Task, maxDepth': int)
    requires ReachesSend(domain, s, t, maxDepth)
    requires Key(t') == Key(t) && t'.url.host == domain && t'.depth <= maxDepth'
    ensures var s' := ReceiveN(Offer(domain, capacity, s, t, maxDepth).0, receives);
            Offer(domain, capacity, s', t', maxDepth') == (s', Rejected(UrlVisited))
  {
    ReceiveNKeepsVisited(Offer(domain, capacity, s, t, maxDepth).0, receives);
  }

  /** A task dropped because the buffer was full is nonetheless marked visited. */
  lemma FullStillMarksVisited(domain: string, capacity: nat, s: State, t: Task, maxDepth: int)
    requires Offer(domain, capacity, s, t, maxDepth).1 == Rejected(QueueFull)
    ensures Key(t) in Offer(domain, capacity, s, t, maxDepth).0.visited
    ensures |s.tasks| >= capacity && Offer(domain, capacity, s, t, maxDepth).0.tasks == s.tasks
  {
  }

  /** The state after `n` receives from an open channel. */
  function ReceiveN(s: State, n: nat): State
    decreases n
  {
    if n == 0 then s else ReceiveN(Receive(s, false).0, n - 1)
  }

  lemma {:induction false} ReceiveNKeepsVisited(s: State, n: nat)
    ensures ReceiveN(s, n).visited == s.visited
    decreases n
  {
    if n > 0 {
      ReceiveNKeepsVisited(Receive(s, false).0, n - 1);
    }
  }

  /** Everything a consumer receives from a closed channel until the end of its range loop. */
  function Drain(s: State): seq<Task>
    decreases |s.tasks|
  {
    var (s', d) := Receive(s, true);
    if d.Received? then [d.task] + Drain(s') else []
  }

  /** Consumers receive exactly the buffered tasks, oldest first. */
  lemma {:induction false} DrainIsFifo(s: State)
    ensures Drain(s) == s.tasks
    decreases |s.tasks|
  {
    if s.tasks != [] {
      DrainIsFifo(Receive(s, true).0);
    }
  }

  /** An accepted task is delivered after everything buffered before it. */
  lemma AcceptedDeliveredLast(domain: string, capacity: nat, s: State, t: Task, maxDepth: int)
    requires Offer(domain, capacity, s, t, maxDepth).1 == Accepted
    ensures Drain(Offer(domain, capacity, s, t, maxDepth).0) == Drain(s) + [t]
  {
    DrainIsFifo(s);
    DrainIsFifo(Offer(domain, capacity, s, t, maxDepth).0);
  }

  /** The queue object of `queue.go`. */
  class Queue {
    var tasks: seq<Task>
    var visited: set<string>
    var closed: bool
    const capacity: nat
    const domain: string

    function Snapshot(): State
      reads this
    {
      State(tasks, visited)
    }

    ghost predicate Valid()
      reads this
    {
      Inv(domain, capacity, Snapshot())
    }

    /** `NewQueue`: an empty open buffer of the given capacity, scoped to one host. */
    constructor (capacity: nat, domain: string)
      ensures this.capacity == capacity && this.domain == domain
      ensures tasks == [] && visited == {} && !closed
      ensures Valid()
    {
      this.capacity := capacity;
      this.domain := domain;
      tasks := [];
      visited := {};
      closed := false;
    }

    /**
     * `Enqueue`. Sending on a closed channel panics in Go, so the caller must
     * not reach the send once the queue is closed.
     */
    method Enqueue(t: Task, maxDepth: int) returns (r: EnqueueResult)
      requires Valid()
      requires !closed || !ReachesSend(domain, Snapshot(), t, maxDepth)
      modifies this
      ensures Valid() && closed == old(closed)
      ensures (Snapshot(), r) == Offer(domain, capacity, old(Snapshot()), t, maxDepth)
    {
      if t.url.host != domain {
        return Rejected(ExternalDomain);
      }
      if t.depth > maxDepth {
        return Rejected(DepthLimit);
      }
      var key := Key(t);
      if key in visited {
        return Rejected(UrlVisited);
      }
      visited := visited + {key};
      if |tasks| < capacity {
        tasks := tasks + [t];
        return Accepted;
      }
      return Rejected(QueueFull);
    }

    /** One receive from the channel `Dequeue` returns. */
    method Dequeue() returns (d: Delivery)
      requires Valid()
      modifies this
      ensures Valid() && closed == old(closed)
      ensures (Snapshot(), d) == Receive(old(Snapshot()), closed)
    {
      ReceivePreservesInv(domain, capacity, Snapshot(), closed);
      if tasks != [] {
        d := Received(tasks[0]);
        tasks := tasks[1..];
      } else if closed {
        d := Drained;
      } else {
        d := WouldBlock;
      }
    }

    /** `Close`. Closing a closed channel panics in Go, so the queue must be open. */
    method Close()
      requires Valid() && !closed
      modifies this
      ensures Valid()
      ensures closed && tasks == old(tasks) && visited == old(visited)
    {
      closed := true;
    }
  }
}
