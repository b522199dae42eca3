/**
 * The crawl's driver: the seed task, and what one worker does with one task it
 * receives from the queue (download, save, and for a shallow enough page,
 * parse and enqueue its links). Workers run one task at a time here; the
 * library calls a worker makes arrive through `Env`.
 */
module Worker {
  import opened Wrappers
  import opened Urls
  import opened CrawlQueue
  import D = Downloader
  import S = Storage
  import P = Parser

  /** The run's settings, as `ParseArgs` fills them. */
  datatype Config = Config(startUrl: Url, outputDir: string, depth: int, concurrency: int, useRobots: bool)

  /**
   * What the worker's library calls return for the task at hand: the GETs of
   * its download, the outcome of writing its file, `html.Parse` of a body,
   * and URL parsing and resolution.
   */
  datatype Env = Env(
    fetch: nat -> D.Response,
    writeFile: S.FileWrite -> Option<string>,
    htmlParse: seq<byte> -> Result<P.Node, string>,
    lib: P.UrlLib)

  /** What the worker did, in order. */
  datatype Event =
    | Wrote(write: S.FileWrite)
    | Offered(task: Task, result: EnqueueResult)
    | Done

  /** The errors `printErrAndExit` ends the run with. */
  datatype Fatal = DownloadError(failure: D.Failure) | SaveError(err: string) | ParseError(err: string)

  datatype StepResult = Processed | Exited(reason: Fatal)

  const SeedCapacity: nat := 1000
  const PageKind := "page"

  /** The tasks made from links found on `task`'s page: one level deeper, all of kind "page", in link order. */
  function ChildTasks(task: Task, links: seq<Url>): (kids: seq<Task>)
    ensures |kids| == |links|
    ensures forall i :: 0 <= i < |kids| ==> kids[i] == Task(links[i], task.depth + 1, PageKind)
    decreases |links|
  {
    if links == [] then []
    else ChildTasks(task, links[..|links| - 1]) + [Task(links[|links| - 1], task.depth + 1, PageKind)]
  }

  /** Enqueueing `ts` one after another, ignoring every rejection: the final state and one event per task. */
  function OfferAll(domain: string, capacity: nat, s: State, ts: seq<Task>, maxDepth: int): (State, seq<Event>)
    decreases |ts|
  {
    if ts == [] then (s, [])
    else
      var (s1, events) := OfferAll(domain, capacity, s, ts[..|ts| - 1], maxDepth);
      var (s2, r) := Offer(domain, capacity, s1, ts[|ts| - 1], maxDepth);
      (s2, events + [Offered(ts[|ts| - 1], r)])
  }

  /** The body and content type the worker goes on with: what was fetched, or nothing after too many attempts. */
  function Payload(result: D.DownloadResult): (seq<byte>, string) {
    if result.Fetched? then (result.body, result.contentType) else ([], "")
  }

  /** Enqueueing a page's children: its pages, then its resources, each list in order. */
  function Expand(domain: string, capacity: nat, s: State, task: Task, pages: seq<Url>, resources: seq<Url>,
                  maxDepth: int): (State, seq<Event>)
  {
    var (s1, e1) := OfferAll(domain, capacity, s, ChildTasks(task, pages), maxDepth);
    var (s2, e2) := OfferAll(domain, capacity, s1, ChildTasks(task, resources), maxDepth);
    (s2, e1 + e2)
  }

  /**
   * One pass of the `runWorker` loop body for `task`, declaratively, given the
   * result of its download: the new queue state, the verdict, the events.
   */
  function Step(domain: string, capacity: nat, s: State, cfg: Config, task: Task, env: Env,
                result: D.DownloadResult, w: S.FileWrite): (State, StepResult, seq<Event>)
  {
    if result.Failed? && result.failure != D.TooManyAttempts then (s, Exited(DownloadError(result.failure)), [])
    else if env.writeFile(w).Some? then (s, Exited(SaveError(env.writeFile(w).value)), [Wrote(w)])
    else if task.depth < cfg.depth then
      match env.htmlParse(Payload(result).0)
      case Err(e) => (s, Exited(ParseError(e)), [Wrote(w)])
      case Ok(doc) =>
        var (s', events) := Expand(domain, capacity, s, task, P.Collected(P.Pages, doc, task.url, env.lib),
                                   P.Collected(P.Resources, doc, task.url, env.lib), cfg.depth);
        (s', Processed, [Wrote(w)] + events + [Done])
    else (s, Processed, [Wrote(w), Done])
  }

  /** The write `Save` makes of the payload a download leaves. */
  function Written(st: S.Storage, task: Task, result: D.DownloadResult): S.FileWrite {
    S.Save(st, task.url, Payload(result).0, Payload(result).1)
  }

  /** Enqueue each child in turn, ignoring the result, as each of the two loops of `runWorker` does. */
  method EnqueueAll(q: Queue, ts: seq<Task>, maxDepth: int) returns (events: seq<Event>)
    requires q.Valid() && !q.closed
    modifies q
    ensures q.Valid() && !q.closed
    ensures (q.Snapshot(), events) == OfferAll(q.domain, q.capacity, old(q.Snapshot()), ts, maxDepth)
  {
    events := [];
    var i := 0;
    while i < |ts|
      invariant 0 <= i <= |ts|
      invariant q.Valid() && !q.closed
      invariant (q.Snapshot(), events) == OfferAll(q.domain, q.capacity, old(q.Snapshot()), ts[..i], maxDepth)
    {
      assert ts[..i + 1][..i] == ts[..i];
      var r := q.Enqueue(ts[i], maxDepth);
      events := events + [Offered(ts[i], r)];
      i := i + 1;
    }
    assert ts[..i] == ts;
  }

  /** The two enqueue loops of `runWorker`: pages first, then resources. */
  method EnqueueChildren(q: Queue, task: Task, pages: seq<Url>, resources: seq<Url>, maxDepth: int)
    returns (events: seq<Event>)
    requires q.Valid() && !q.closed
    modifies q
    ensures q.Valid() && !q.closed
    ensures (q.Snapshot(), events) == Expand(q.domain, q.capacity, old(q.Snapshot()), task, pages, resources, maxDepth)
  {
    var e1 := EnqueueAll(q, ChildTasks(task, pages), maxDepth);
    var e2 := EnqueueAll(q, ChildTasks(task, resources), maxDepth);
    events := e1 + e2;
  }

  /** The body of the `runWorker` loop for one received task. */
  method ProcessTask(q: Queue, d: D.Downloader, st: S.Storage, cfg: Config, task: Task, env: Env)
    returns (r: StepResult, events: seq<Event>)
    requires q.Valid() && !q.closed
    requires cfg.useRobots ==> d.robots.Some?
    modifies q
    ensures q.Valid() && !q.closed
    ensures var result := D.Expected(d, task.url, cfg.useRobots, env.fetch).0;
      (q.Snapshot(), r, events) ==
        Step(q.domain, q.capacity, old(q.Snapshot()), cfg, task, env, result, Written(st, task, result))
  {
    var result, _, _ := D.Download(d, task.url, cfg.useRobots, env.fetch);
    assert result == D.Expected(d, task.url, cfg.useRobots, env.fetch).0;
    ghost var s0 := q.Snapshot();
    ghost var step := Step(q.domain, q.capacity, s0, cfg, task, env, result, Written(st, task, result));
    if result.Failed? && result.failure != D.TooManyAttempts {
      return Exited(DownloadError(result.failure)), [];
    }
    var (body, contentType) := Payload(result);
    var w := S.Save(st, task.url, body, contentType);
    assert w == Written(st, task, result);
    events := [Wrote(w)];
    var err := env.writeFile(w);
    if err.Some? {
      return Exited(SaveError(err.value)), events;
    }
    if task.depth < cfg.depth {
      var parsed := P.ParseHtml(env.htmlParse(body), task.url, env.lib);
      if parsed.Err? {
        return Exited(ParseError(parsed.error)), events;
      }
      var (pages, resources) := parsed.value;
      var children := EnqueueChildren(q, task, pages, resources, cfg.depth);
      assert (q.Snapshot(), children) == Expand(q.domain, q.capacity, s0, task, pages, resources, cfg.depth);
      events := events + children;
      events := events + [Done];
      assert step == (q.Snapshot(), Processed, events);
      return Processed, events;
    }
    events := [Wrote(w), Done];
    r := Processed;
  }

  /** `runApp`'s queue and seed: a queue of 1000 scoped to the start host, and the start page at depth 0. */
  method Seed(cfg: Config) returns (q: Queue, r: EnqueueResult)
    ensures fresh(q) && q.Valid() && !q.closed
    ensures q.capacity == SeedCapacity && q.domain == cfg.startUrl.host
    ensures (q.Snapshot(), r) ==
      Offer(cfg.startUrl.host, SeedCapacity, State([], {}), Task(cfg.startUrl, 0, PageKind), cfg.depth)
  {
    q := new Queue(SeedCapacity, cfg.startUrl.host);
    r := q.Enqueue(Task(cfg.startUrl, 0, PageKind), cfg.depth);
  }

  /** The seed is buffered alone exactly when the depth limit is not negative; otherwise `runApp` fails. */
  lemma SeedAcceptedIffDepthNonNegative(cfg: Config)
    ensures var (s, r) := Offer(cfg.startUrl.host, SeedCapacity, State([], {}), Task(cfg.startUrl, 0, PageKind), cfg.depth);
      && (r == Accepted <==> cfg.depth >= 0)
      && (r == Accepted ==> s.tasks == [Task(cfg.startUrl, 0, PageKind)] && s.visited == {cfg.startUrl.text})
      && (r != Accepted ==> r == Rejected(DepthLimit))
  {
  }

  /** Enqueueing children keeps the queue's invariant. */
  lemma {:induction false} OfferAllPreservesInv(domain: string, capacity: nat, s: State, ts: seq<Task>, maxDepth: int)
    requires Inv(domain, capacity, s)
    ensures Inv(domain, capacity, OfferAll(domain, capacity, s, ts, maxDepth).0)
    decreases |ts|
  {
    if ts != [] {
      OfferAllPreservesInv(domain, capacity, s, ts[..|ts| - 1], maxDepth);
    }
  }

  /** Every child is offered exactly once, in order, and its result is recorded. */
  lemma {:induction false} OfferAllEventsInOrder(domain: string, capacity: nat, s: State, ts: seq<Task>, maxDepth: int)
    ensures |OfferAll(domain, capacity, s, ts, maxDepth).1| == |ts|
    ensures forall i :: 0 <= i < |ts| ==>
      OfferAll(domain, capacity, s, ts, maxDepth).1[i].Offered? && OfferAll(domain, capacity, s, ts, maxDepth).1[i].task == ts[i]
    decreases |ts|
  {
    if ts != [] {
      OfferAllEventsInOrder(domain, capacity, s, ts[..|ts| - 1], maxDepth);
    }
  }

  /** The tasks of the `Offered` events that were accepted, in order. */
  function AcceptedTasks(events: seq<Event>): seq<Task>
    decreases |events|
  {
    if events == [] then []
    else
      var e := events[|events| - 1];
      AcceptedTasks(events[..|events| - 1]) + (if e.Offered? && e.result == Accepted then [e.task] else [])
  }

  /** The queue's buffer grows by exactly the accepted children, in the order they were offered. */
  lemma {:induction false} OfferAllBuffersAccepted(domain: string, capacity: nat, s: State, ts: seq<Task>, maxDepth: int)
    ensures OfferAll(domain, capacity, s, ts, maxDepth).0.tasks == s.tasks + AcceptedTasks(OfferAll(domain, capacity, s, ts, maxDepth).1)
    decreases |ts|
  {
    if ts != [] {
      var ts', t := ts[..|ts| - 1], ts[|ts| - 1];
      OfferAllBuffersAccepted(domain, capacity, s, ts', maxDepth);
      var (s1, e1) := OfferAll(domain, capacity, s, ts', maxDepth);
      var (s2, r) := Offer(domain, capacity, s1, t, maxDepth);
      var events := e1 + [Offered(t, r)];
      assert events[..|events| - 1] == e1;
      var extra := if r == Accepted then [t] else [];
      assert AcceptedTasks(events) == AcceptedTasks(e1) + extra;
      assert s2.tasks == s1.tasks + extra;
      assert s.tasks + AcceptedTasks(e1) + extra == s.tasks + (AcceptedTasks(e1) + extra);
    }
  }

  /** Offering two lists one after the other is offering their concatenation. */
  lemma {:induction false} OfferAllAppend(domain: string, capacity: nat, s: State, a: seq<Task>, b: seq<Task>, maxDepth: int)
    ensures OfferAll(domain, capacity, s, a + b, maxDepth).0 ==
      OfferAll(domain, capacity, OfferAll(domain, capacity, s, a, maxDepth).0, b, maxDepth).0
    ensures OfferAll(domain, capacity, s, a + b, maxDepth).1 ==
      OfferAll(domain, capacity, s, a, maxDepth).1 + OfferAll(domain, capacity, OfferAll(domain, capacity, s, a, maxDepth).0, b, maxDepth).1
    decreases |b|
  {
    var s1 := OfferAll(domain, capacity, s, a, maxDepth).0;
    var e1 := OfferAll(domain, capacity, s, a, maxDepth).1;
    if b == [] {
      assert a + b == a;
    } else {
      var b', t := b[..|b| - 1], b[|b| - 1];
      assert (a + b)[..|a + b| - 1] == a + b';
      assert (a + b)[|a + b| - 1] == t;
      OfferAllAppend(domain, capacity, s, a, b', maxDepth);
      var e2' := OfferAll(domain, capacity, s1, b', maxDepth).1;
      var r := Offer(domain, capacity, OfferAll(domain, capacity, s1, b', maxDepth).0, t, maxDepth).1;
      assert e1 + e2' + [Offered(t, r)] == e1 + (e2' + [Offered(t, r)]);
    }
  }

  /** The links of a page are offered pages first, then resources, as one run of page-kind children one level deeper. */
  lemma PagesBeforeResources(domain: string, capacity: nat, s: State, task: Task, pages: seq<Url>, resources: seq<Url>,
                             maxDepth: int)
    ensures Expand(domain, capacity, s, task, pages, resources, maxDepth) ==
            OfferAll(domain, capacity, s, ChildTasks(task, pages + resources), maxDepth)
  {
    var a, b := ChildTasks(task, pages), ChildTasks(task, resources);
    OfferAllAppend(domain, capacity, s, a, b, maxDepth);
    ChildTasksAppend(task, pages, resources);
  }

  /** The children of two link lists, one after the other, are the children of the joined list. */
  lemma ChildTasksAppend(task: Task, pages: seq<Url>, resources: seq<Url>)
    ensures ChildTasks(task, pages) + ChildTasks(task, resources) == ChildTasks(task, pages + resources)
  {
    var a, b, c := ChildTasks(task, pages), ChildTasks(task, resources), ChildTasks(task, pages + resources);
    forall i | 0 <= i < |c| ensures (a + b)[i] == c[i] {
      if i < |a| { assert (pages + resources)[i] == pages[i]; }
      else { assert (pages + resources)[i] == resources[i - |a|]; }
    }
  }

  /** A processed page below the depth limit is saved, then its children are offered, then `Done` is recorded. */
  lemma ShallowPageExpanded(domain: string, capacity: nat, s: State, cfg: Config, task: Task, env: Env,
                            result: D.DownloadResult, w: S.FileWrite)
    requires Step(domain, capacity, s, cfg, task, env, result, w).1 == Processed
    requires task.depth < cfg.depth
    ensures env.htmlParse(Payload(result).0).Ok?
    ensures var doc := env.htmlParse(Payload(result).0).value;
      var (s', events) := Expand(domain, capacity, s, task, P.Collected(P.Pages, doc, task.url, env.lib),
                                 P.Collected(P.Resources, doc, task.url, env.lib), cfg.depth);
      Step(domain, capacity, s, cfg, task, env, result, w) ==
        (s', Processed, [Wrote(w)] + events + [Done])
  {
  }

  /** At or past the depth limit the page is saved but not parsed, and the queue is left alone. */
  lemma NoChildrenAtDepthLimit(domain: string, capacity: nat, s: State, cfg: Config, task: Task, env: Env,
                               result: D.DownloadResult, w: S.FileWrite)
    requires task.depth >= cfg.depth
    requires Step(domain, capacity, s, cfg, task, env, result, w).1 == Processed
    ensures Step(domain, capacity, s, cfg, task, env, result, w) ==
      (s, Processed, [Wrote(w), Done])
  {
  }

  /** Unless the download failed fatally, the first thing a step does is write the payload's file. */
  lemma SavedFirst(domain: string, capacity: nat, s: State, cfg: Config, task: Task, env: Env,
                   result: D.DownloadResult, w: S.FileWrite)
    requires result.Fetched? || result.failure == D.TooManyAttempts
    ensures var events := Step(domain, capacity, s, cfg, task, env, result, w).2;
      events != [] && events[0] == Wrote(w)
  {
    var body := Payload(result).0;
    var events := Step(domain, capacity, s, cfg, task, env, result, w).2;
    if env.writeFile(w).None? && task.depth < cfg.depth && env.htmlParse(body).Ok? {
      var doc := env.htmlParse(body).value;
      var x := Expand(domain, capacity, s, task, P.Collected(P.Pages, doc, task.url, env.lib),
                      P.Collected(P.Resources, doc, task.url, env.lib), cfg.depth);
      assert events == [Wrote(w)] + x.1 + [Done];
    }
  }

  /** Running out of attempts is not fatal: an empty body with no content type is saved in its place. */
  lemma TooManyAttemptsTolerated(domain: string, capacity: nat, s: State, cfg: Config, task: Task, env: Env,
                                 result: D.DownloadResult, w: S.FileWrite)
    requires result == D.Failed(D.TooManyAttempts)
    ensures Payload(result) == ([], "")
    ensures var events := Step(domain, capacity, s, cfg, task, env, result, w).2;
      events != [] && events[0] == Wrote(w)
  {
    SavedFirst(domain, capacity, s, cfg, task, env, result, w);
  }

  /** After too many attempts the file written is the one `Save` makes of an empty body with no content type. */
  lemma TooManyAttemptsWritesEmpty(st: S.Storage, task: Task, result: D.DownloadResult)
    requires result == D.Failed(D.TooManyAttempts)
    ensures Written(st, task, result) == S.Save(st, task.url, [], "")
    ensures Written(st, task, result).content == []
  {
  }

  /** Every other download failure, a robots refusal included, ends the run before anything is saved or enqueued. */
  lemma OtherDownloadErrorsFatal(domain: string, capacity: nat, s: State, cfg: Config, task: Task, env: Env,
                                 f: D.Failure, w: S.FileWrite)
    requires f != D.TooManyAttempts
    ensures Step(domain, capacity, s, cfg, task, env, D.Failed(f), w) == (s, Exited(DownloadError(f)), [])
  {
  }

  /** Every event of a run of offers is an `Offered` one. */
  lemma OffersOnly(domain: string, capacity: nat, s: State, ts: seq<Task>, maxDepth: int)
    ensures Done !in OfferAll(domain, capacity, s, ts, maxDepth).1
  {
    OfferAllEventsInOrder(domain, capacity, s, ts, maxDepth);
  }

  /** A failed write of the payload's file ends the run right after the write, with the queue untouched. */
  lemma SaveErrorFatal(domain: string, capacity: nat, s: State, cfg: Config, task: Task, env: Env,
                       result: D.DownloadResult, w: S.FileWrite)
    requires result.Fetched? || result.failure == D.TooManyAttempts
    requires env.writeFile(w).Some?
    ensures Step(domain, capacity, s, cfg, task, env, result, w) == (s, Exited(SaveError(env.writeFile(w).value)), [Wrote(w)])
  {
  }

  /** Below the depth limit, a payload that does not parse ends the run after its write, with the queue untouched. */
  lemma ParseErrorFatal(domain: string, capacity: nat, s: State, cfg: Config, task: Task, env: Env,
                        result: D.DownloadResult, w: S.FileWrite)
    requires result.Fetched? || result.failure == D.TooManyAttempts
    requires env.writeFile(w).None?
    requires task.depth < cfg.depth && env.htmlParse(Payload(result).0).Err?
    ensures Step(domain, capacity, s, cfg, task, env, result, w) ==
      (s, Exited(ParseError(env.htmlParse(Payload(result).0).error)), [Wrote(w)])
  {
  }

  /** A processed task ends with exactly one `Done`, after all its writes and enqueues. */
  lemma DoneOnceAtEnd(domain: string, capacity: nat, s: State, cfg: Config, task: Task, env: Env,
                      result: D.DownloadResult, w: S.FileWrite)
    requires Step(domain, capacity, s, cfg, task, env, result, w).1 == Processed
    ensures var events := Step(domain, capacity, s, cfg, task, env, result, w).2;
      events != [] && events[|events| - 1] == Done && Done !in events[..|events| - 1]
  {
    if task.depth < cfg.depth {
      ShallowDoneLast(domain, capacity, s, cfg, task, env, result, w);
    } else {
      NoChildrenAtDepthLimit(domain, capacity, s, cfg, task, env, result, w);
      EndsWithDone([Wrote(w)]);
    }
  }

  /** A processed page below the depth limit records `Done` once, after its enqueues. */
  lemma ShallowDoneLast(domain: string, capacity: nat, s: State, cfg: Config, task: Task, env: Env,
                        result: D.DownloadResult, w: S.FileWrite)
    requires Step(domain, capacity, s, cfg, task, env, result, w).1 == Processed
    requires task.depth < cfg.depth
    ensures var events := Step(domain, capacity, s, cfg, task, env, result, w).2;
      events != [] && events[|events| - 1] == Done && Done !in events[..|events| - 1]
  {
    ShallowPageExpanded(domain, capacity, s, cfg, task, env, result, w);
    var doc := env.htmlParse(Payload(result).0).value;
    var pages := P.Collected(P.Pages, doc, task.url, env.lib);
    var resources := P.Collected(P.Resources, doc, task.url, env.lib);
    ExpandOffersOnly(domain, capacity, s, task, pages, resources, cfg.depth);
    var offered := Expand(domain, capacity, s, task, pages, resources, cfg.depth).1;
    assert Done !in [Wrote(w)] + offered;
    EndsWithDone([Wrote(w)] + offered);
  }

  /** Enqueueing a page's children records no `Done`. */
  lemma ExpandOffersOnly(domain: string, capacity: nat, s: State, task: Task, pages: seq<Url>, resources: seq<Url>,
                         maxDepth: int)
    ensures Done !in Expand(domain, capacity, s, task, pages, resources, maxDepth).1
  {
    var s1 := OfferAll(domain, capacity, s, ChildTasks(task, pages), maxDepth).0;
    OffersOnly(domain, capacity, s, ChildTasks(task, pages), maxDepth);
    OffersOnly(domain, capacity, s1, ChildTasks(task, resources), maxDepth);
  }

  /** Appending `Done` to events without one puts exactly one `Done` last. */
  lemma EndsWithDone(front: seq<Event>)
    requires Done !in front
    ensures var events := front + [Done];
      events[|events| - 1] == Done && Done !in events[..|events| - 1]
  {
    assert (front + [Done])[..|front|] == front;
  }
}
