/**
 * The fetcher: a robots gate, then up to three GETs with a linear back-off of
 * 1, 2, 3 seconds. The HTTP client is an oracle: the i-th GET (counting from 0)
 * of one `Download` call returns `fetch(i)`. Sleeps are recorded, not taken.
 */
module Downloader {
  import opened Wrappers
  import opened Urls
  import Robots

  /** What one GET yields. `closeErr` is what closing a non-200 body returns; `readErr` what reading a 200 body returns. */
  datatype Response =
    | TransportErr(err: string)
    | Status(code: int, closeErr: Option<string>, body: seq<byte>, readErr: Option<string>, contentType: string)

  datatype Failure =
    | Disallowed               // ErrDisallowed
    | TooManyAttempts          // ErrTooManyAttempts
    | Transport(err: string)   // the transport error of the last GET
    | BodyIO(err: string)      // a failed body close or read

  datatype DownloadResult = Fetched(body: seq<byte>, contentType: string) | Failed(failure: Failure)

  /** The downloader; `robots` is `None` where the Go pointer is nil. */
  datatype Downloader = Downloader(robots: Option<Robots.Robots>, userAgent: string)

  datatype CreateError = CouldNotCreateDownloader

  const MaxAttempts := 3

  /**
   * `NewDownloader` as the code is written: any error from `FetchRobots` fails,
   * and the `(nil, nil)` it returns for a status other than 200 and 404 becomes
   * a downloader without a policy.
   */
  function NewDownloaderAsWritten(fetched: Robots.Fetched, userAgent: string): (r: Result<Downloader, CreateError>)
    ensures r.Err? <==> fetched.FetchFailed?
    ensures r.Ok? ==> r.value.userAgent == userAgent
    ensures r.Ok? ==> r.value.robots == if fetched.Policy? then Some(fetched.robots) else None
  {
    match fetched
    case FetchFailed(_) => Err(CouldNotCreateDownloader)
    case Policy(p) => Ok(Downloader(Some(p), userAgent))
    case NoPolicy => Ok(Downloader(None, userAgent))
  }

  /** A robots server answering 500 yields a downloader whose nil policy the robots gate would dereference. */
  lemma NilPolicyAsWritten(userAgent: string)
    ensures NewDownloaderAsWritten(Robots.NoPolicy, userAgent).Ok?
    ensures NewDownloaderAsWritten(Robots.NoPolicy, userAgent).value.robots.None?
  {
  }

  /**
   * `NewDownloader` as evidently intended: a status other than 200 and 404 is
   * an error, like every other exit of `FetchRobots` but the 404 one.
   */
  function NewDownloader(fetched: Robots.Fetched, userAgent: string): (r: Result<Downloader, CreateError>)
    ensures r.Err? <==> !fetched.Policy?
    ensures r.Ok? ==> r.value == Downloader(Some(fetched.robots), userAgent)
  {
    match fetched
    case Policy(p) => Ok(Downloader(Some(p), userAgent))
    case _ => Err(CouldNotCreateDownloader)
  }

  /** Every downloader the corrected constructor creates can pass the robots gate without a nil dereference. */
  lemma CreatedDownloaderHasPolicy(fetched: Robots.Fetched, userAgent: string)
    requires NewDownloader(fetched, userAgent).Ok?
    ensures NewDownloader(fetched, userAgent).value.robots.Some?
  {
  }

  /** The GET ends the loop before the attempts run out: a 200, or a non-200 whose body fails to close. */
  predicate Ends(r: Response) {
    r.Status? && (r.code == Robots.StatusOK || r.closeErr.Some?)
  }

  /** The index of the last GET made, searching from attempt `i`: the first that ends the loop, else the third. */
  function LastAttempt(fetch: nat -> Response, i: nat): (last: nat)
    requires i < MaxAttempts
    ensures i <= last < MaxAttempts
    ensures forall k :: i <= k < last ==> !Ends(fetch(k))
    ensures last < MaxAttempts - 1 ==> Ends(fetch(last))
    decreases MaxAttempts - i
  {
    if i == MaxAttempts - 1 || Ends(fetch(i)) then i else LastAttempt(fetch, i + 1)
  }

  /** The sleep after the GET that brings the counter to `attempts`, in seconds. */
  function SleepAfter(r: Response, attempts: nat): seq<nat> {
    if r.TransportErr? then [attempts]
    else if r.code != Robots.StatusOK && r.closeErr.None? && attempts < MaxAttempts then [attempts]
    else []
  }

  /** Every sleep taken over the first `n` GETs, in order. */
  function Sleeps(fetch: nat -> Response, n: nat): seq<nat>
    decreases n
  {
    if n == 0 then [] else Sleeps(fetch, n - 1) + SleepAfter(fetch(n - 1), n)
  }

  /** What the last GET makes of the call: its body, or the error that ends the loop. */
  function Classify(last: Response): DownloadResult {
    match last
    case TransportErr(e) => Failed(Transport(e))
    case Status(code, closeErr, body, readErr, contentType) =>
      if code != Robots.StatusOK then
        if closeErr.Some? then Failed(BodyIO(closeErr.value)) else Failed(TooManyAttempts)
      else if readErr.Some? then Failed(BodyIO(readErr.value))
      else Fetched(body, contentType)
  }

  /** The retry loop and what follows it, declaratively: the result, the number of GETs made and the sleeps taken. */
  function Retried(fetch: nat -> Response): (DownloadResult, nat, seq<nat>) {
    var n := LastAttempt(fetch, 0) + 1;
    (Classify(fetch(n - 1)), n, Sleeps(fetch, n))
  }

  /** One `Download` call, declaratively: the robots gate, then the retries. */
  function Expected(d: Downloader, u: Url, useRobots: bool, fetch: nat -> Response): (DownloadResult, nat, seq<nat>)
    requires useRobots ==> d.robots.Some?
  {
    if useRobots && !Robots.Allows(d.robots.value, d.userAgent, u.text) then (Failed(Disallowed), 0, [])
    else Retried(fetch)
  }

  /**
   * `Download`. The robots gate needs a policy: a nil one is dereferenced in
   * Go, so a caller that asks for the gate must supply one.
   */
  method Download(d: Downloader, u: Url, useRobots: bool, fetch: nat -> Response)
    returns (result: DownloadResult, gets: nat, sleeps: seq<nat>)
    requires useRobots ==> d.robots.Some?
    ensures (result, gets, sleeps) == Expected(d, u, useRobots, fetch)
  {
    if useRobots {
      var allowed := Robots.IsAllowed(d.robots.value, d.userAgent, u.text);
      if !allowed {
        return Failed(Disallowed), 0, [];
      }
    }
    result, gets, sleeps := Retry(fetch);
  }

  /** The retry loop of `Download` and the classification after it. */
  method Retry(fetch: nat -> Response) returns (result: DownloadResult, gets: nat, sleeps: seq<nat>)
    ensures (result, gets, sleeps) == Retried(fetch)
  {
    var resp: Option<Response> := None;  // nil after a transport error
    var err: Option<string> := None;
    var attempts := 0;
    gets, sleeps := 0, [];
    while attempts < MaxAttempts
      invariant 0 <= attempts <= MaxAttempts && gets == attempts
      invariant forall k :: 0 <= k < attempts ==> !Ends(fetch(k))
      invariant sleeps == Sleeps(fetch, attempts)
      invariant attempts > 0 ==> LeftBy(resp, err, fetch(attempts - 1))
    {
      var r := fetch(attempts);
      gets := gets + 1;
      assert Sleeps(fetch, gets) == sleeps + SleepAfter(r, gets);
      if r.TransportErr? {
        resp, err := None, Some(r.err);
        attempts := attempts + 1;
        sleeps := sleeps + [attempts];
        continue;
      }
      resp, err := Some(r), None;
      if r.code == Robots.StatusOK {
        LastAttemptIs(fetch, attempts);
        assert SleepAfter(r, gets) == [] && sleeps + [] == sleeps;
        break;
      }
      if r.closeErr.Some? {
        LastAttemptIs(fetch, attempts);
        assert SleepAfter(r, gets) == [] && sleeps + [] == sleeps;
        return Failed(BodyIO(r.closeErr.value)), gets, sleeps;
      }
      attempts := attempts + 1;
      if attempts < MaxAttempts {
        sleeps := sleeps + [attempts];
      }
    }
    if attempts == MaxAttempts {
      LastAttemptIs(fetch, MaxAttempts - 1);
    }
    result := Conclude(resp, err, fetch(gets - 1));
  }

  /** What the last GET leaves in the loop's variables: the response, or nil and the transport error. */
  ghost predicate LeftBy(resp: Option<Response>, err: Option<string>, last: Response) {
    if last.TransportErr? then resp.None? && err == Some(last.err) else resp == Some(last) && err.None?
  }

  /** The last GET is the first one that ends the loop, or the third. */
  lemma LastAttemptIs(fetch: nat -> Response, n: nat)
    requires n < MaxAttempts && (Ends(fetch(n)) || n == MaxAttempts - 1)
    requires forall k :: 0 <= k < n ==> !Ends(fetch(k))
    ensures LastAttempt(fetch, 0) == n
  {
  }

  /**
   * The checks after the retry loop, given the response and the error the
   * last GET left behind: a non-200 that closed cleanly means too many
   * attempts, then a transport error, then a failed body read.
   */
  method Conclude(resp: Option<Response>, err: Option<string>, last: Response) returns (result: DownloadResult)
    requires LeftBy(resp, err, last)
    requires last.Status? ==> last.code == Robots.StatusOK || last.closeErr.None?
    ensures result == Classify(last)
  {
    if resp.Some? && resp.value.code != Robots.StatusOK {
      return Failed(TooManyAttempts);
    }
    if err.Some? {
      return Failed(Transport(err.value));
    }
    var r := resp.value;
    if r.readErr.Some? {
      return Failed(BodyIO(r.readErr.value));
    }
    return Fetched(r.body, r.contentType);
  }

  /** A download makes at most three GETs, and none at all exactly when the robots gate refuses. */
  lemma AttemptsBounded(d: Downloader, u: Url, useRobots: bool, fetch: nat -> Response)
    requires useRobots ==> d.robots.Some?
    ensures Expected(d, u, useRobots, fetch).1 <= MaxAttempts
    ensures Expected(d, u, useRobots, fetch).1 == 0 <==> Expected(d, u, useRobots, fetch).0 == Failed(Disallowed)
  {
  }

  /** The sleeps before attempt `n` are the sequence 1, 2, ..., each attempt's number. */
  lemma {:induction false} SleepsAreLinear(fetch: nat -> Response, n: nat)
    requires n <= MaxAttempts
    requires forall k :: 0 <= k < n - 1 ==> !Ends(fetch(k))
    ensures n > 0 ==> n - 1 <= |Sleeps(fetch, n)| <= n
    ensures forall k :: 0 <= k < |Sleeps(fetch, n)| ==> Sleeps(fetch, n)[k] == k + 1
    decreases n
  {
    if n > 0 {
      SleepsAreLinear(fetch, n - 1);
    }
  }

  /** Each GET before the last one is followed by exactly one sleep. */
  lemma {:induction false} OneSleepPerRetry(fetch: nat -> Response, n: nat)
    requires n < MaxAttempts
    requires forall k :: 0 <= k < n ==> !Ends(fetch(k))
    ensures |Sleeps(fetch, n)| == n
    decreases n
  {
    if n > 0 {
      OneSleepPerRetry(fetch, n - 1);
    }
  }

  /**
   * Over a whole call, whatever the mix of answers, there is one sleep per
   * retried GET, and the last GET adds one more only when it was a transport
   * error: a final non-200, a 200 or a failed close sleeps no more.
   */
  lemma SleepCount(fetch: nat -> Response)
    ensures var n := Retried(fetch).1;
      |Retried(fetch).2| == if fetch(n - 1).TransportErr? then n else n - 1
  {
    var n := LastAttempt(fetch, 0) + 1;
    OneSleepPerRetry(fetch, n - 1);
  }

  /**
   * The first 200 among the attempts wins: its body and content type are
   * returned after one sleep per failed attempt before it.
   */
  lemma FirstOkWins(d: Downloader, u: Url, fetch: nat -> Response, i: nat)
    requires i < MaxAttempts
    requires forall k :: 0 <= k < i ==> !Ends(fetch(k))
    requires fetch(i).Status? && fetch(i).code == Robots.StatusOK && fetch(i).readErr.None?
    ensures Expected(d, u, false, fetch).0 == Fetched(fetch(i).body, fetch(i).contentType)
    ensures Expected(d, u, false, fetch).1 == i + 1
    ensures |Expected(d, u, false, fetch).2| == i
  {
    assert LastAttempt(fetch, 0) == i;
    SleepsAreLinear(fetch, i + 1);
  }

  /** Three non-200 answers give `ErrTooManyAttempts` after sleeping 1 and 2 seconds. */
  lemma AllStatusFail(d: Downloader, u: Url, fetch: nat -> Response)
    requires forall k :: 0 <= k < MaxAttempts ==>
      fetch(k).Status? && fetch(k).code != Robots.StatusOK && fetch(k).closeErr.None?
    ensures Expected(d, u, false, fetch).0 == Failed(TooManyAttempts)
    ensures Expected(d, u, false, fetch).1 == 3
    ensures Expected(d, u, false, fetch).2 == [1, 2]
  {
    assert !Ends(fetch(0)) && !Ends(fetch(1));
    assert Sleeps(fetch, 1) == [1];
    assert Sleeps(fetch, 2) == [1, 2];
    assert LastAttempt(fetch, 0) == 2;
    assert Classify(fetch(2)) == Failed(TooManyAttempts);
  }

  /** Three transport errors give the last one, after sleeping 1, 2 and 3 seconds. */
  lemma AllTransport(d: Downloader, u: Url, fetch: nat -> Response)
    requires forall k :: 0 <= k < MaxAttempts ==> fetch(k).TransportErr?
    ensures Expected(d, u, false, fetch).0 == Failed(Transport(fetch(2).err))
    ensures Expected(d, u, false, fetch).1 == 3
    ensures Expected(d, u, false, fetch).2 == [1, 2, 3]
  {
    assert !Ends(fetch(0)) && !Ends(fetch(1));
    assert Sleeps(fetch, 1) == [1];
    assert Sleeps(fetch, 2) == [1, 2];
    assert LastAttempt(fetch, 0) == 2;
    assert fetch(2).TransportErr?;
  }

  /** A non-200 body that fails to close aborts the retries at once with that error. */
  lemma CloseErrorStops(d: Downloader, u: Url, fetch: nat -> Response, i: nat)
    requires i < MaxAttempts
    requires forall k :: 0 <= k < i ==> !Ends(fetch(k))
    requires fetch(i).Status? && fetch(i).code != Robots.StatusOK && fetch(i).closeErr.Some?
    ensures Expected(d, u, false, fetch).0 == Failed(BodyIO(fetch(i).closeErr.value))
    ensures Expected(d, u, false, fetch).1 == i + 1
  {
    assert LastAttempt(fetch, 0) == i;
  }

  /** Without the gate, the policy plays no part: downloaders differing only in it behave the same. */
  lemma RobotsIgnoredWhenOff(d: Downloader, d': Downloader, u: Url, fetch: nat -> Response)
    ensures Expected(d, u, false, fetch) == Expected(d', u, false, fetch)
    ensures Expected(d, u, false, fetch).0 != Failed(Disallowed)
  {
  }

  /** With the gate on, a URL the policy allows is fetched as if the gate were off. */
  lemma AllowedPassesGate(d: Downloader, u: Url, fetch: nat -> Response)
    requires d.robots.Some? && Robots.Allows(d.robots.value, d.userAgent, u.text)
    ensures Expected(d, u, true, fetch) == Expected(d, u, false, fetch)
  {
  }
}
