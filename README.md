# site-mirror, modelled in Dafny

site-mirror is a command-line crawler written in Go. It mirrors one web site
into a local directory. Starting from one URL, a pool of workers takes tasks
from a bounded, deduplicating queue. For each task a worker:

- downloads the page, optionally honouring `robots.txt`, with up to three
  attempts and a linear back-off;
- writes the body under `<output>/<host>/` with a file name derived from the
  URL and the media type;
- for pages shallower than the depth limit, parses the HTML and enqueues the
  same-host pages and resources it links to, one level deeper.

This project models the sequential decision logic of that crawler and proves
what it promises:

| file | models |
|---|---|
| `queue.dfy` | the task queue: a class over a bounded buffer, a visited set and a closed flag, proved against the pure step functions `Offer` and `Receive` |
| `robots.dfy` | the `robots.txt` line parser (a loop proved against a declarative reading of the lines), the response classification of `FetchRobots`, and the group lookup and substring matching of `IsAllowed` |
| `downloader.dfy` | `NewDownloader` and `Download`: the robots gate, the retry loop over an oracle HTTP client, the recorded back-off sleeps, and the classification of the result |
| `storage.dfy` | `getExtensionFromMIME` and the local file name `Save` computes |
| `parser.dfy` | `ParseHTML`'s tree walk over an abstract HTML tree, proved equal to a pre-order flattening, with the page and resource filters |
| `worker.dfy` | the seed enqueue of `runApp` and one pass of `runWorker`'s loop body over the queue class |
| `text.dfy` | the Go string and path helpers these use: `HasPrefix`, `Contains`, `TrimSpace`, `TrimPrefix`, `Fields`, `Replace`, `Split(..)[0]`, `filepath.Ext` |
| `url.dfy`, `wrappers.dfy` | an abstract URL record, and `Option`/`Result` |

Inputs of the model stand for everything the code does not compute itself:

- A URL is a record of scheme, host, path, raw query, fragment and its
  serialised form (`URL.String()`).
- `url.Parse` and `ResolveReference` are uninterpreted function
  parameters (`Parser.UrlLib`). So is `html.Parse` (`Worker.Env`).
- The HTTP client is an oracle: the i-th GET of one `Download` call returns
  `fetch(i)`.
- The GET of `robots.txt` in `FetchRobots` is a `RobotsResponse` value whose
  body is already split into lines.
- File writes are returned as a `FileWrite` value. Their outcome is an `Env`
  parameter.

The matching in `robots.dfy` is the program's own simplification. It is not
the longest-match rule of section 2.2.2 of RFC 9309.

## Model

| member | source | states |
|---|---|---|
| CrawlQueue.Offer | internal/queue/queue.go:37-62 | an offer is accepted iff the host matches, the depth is at most the limit, the URL is unvisited and the buffer has room; an accepted task is appended at the back, otherwise the buffer is unchanged; the URL is marked visited iff the three checks pass, full buffer or not; the queue invariant is preserved |
| CrawlQueue.Receive | internal/queue/queue.go:64-66 | a receive yields the oldest buffered task and removes only it; on an empty buffer it yields the end of the range loop iff the channel is closed; the visited set never changes |
| CrawlQueue.ReceivePreservesInv | internal/queue/queue.go:29-66 | receiving keeps the invariant: the buffer fits the capacity, holds only same-host, visited and pairwise distinct URLs |
| CrawlQueue.ExternalHostAlwaysRejected | internal/queue/queue.go:41-43 | a foreign host is rejected whatever the depth and visited set, and the state is left unchanged |
| CrawlQueue.DepthBoundInclusive | internal/queue/queue.go:45-47 | a depth above the limit is rejected with the state unchanged; a depth equal to the limit passes the depth check |
| CrawlQueue.RevisitRejected | internal/queue/queue.go:49-54 | once a URL has passed the checks, any later offer of the same URL string is rejected as visited, with the state unchanged, however many receives happened in between and whether or not the first offer found room |
| CrawlQueue.FullStillMarksVisited | internal/queue/queue.go:53-61 | a task refused because the buffer is full is still marked visited, and the buffer is unchanged and at capacity |
| CrawlQueue.ReceiveNKeepsVisited | internal/queue/queue.go:64-66 | any number of receives leaves the visited set as it was |
| CrawlQueue.DrainIsFifo | internal/queue/queue.go:57-66 | consumers of a closed queue receive exactly the buffered tasks, oldest first |
| CrawlQueue.AcceptedDeliveredLast | internal/queue/queue.go:56-58 | an accepted task is delivered after everything buffered before it |
| CrawlQueue.Queue.constructor | internal/queue/queue.go:29-35 | a new queue is open, empty, has an empty visited set, the given capacity and domain, and satisfies the invariant |
| CrawlQueue.Queue.Enqueue | internal/queue/queue.go:37-62 | the new buffer, visited set and result are exactly those of `Offer`; the invariant is kept; a closed queue must not reach the send |
| CrawlQueue.Queue.Dequeue | internal/queue/queue.go:64-66 | the new state and delivery are exactly those of `Receive`; the invariant is kept |
| CrawlQueue.Queue.Close | internal/queue/queue.go:68-72 | the queue becomes closed and keeps its buffer and visited set; closing twice is excluded |
| Robots.IsAllowed | internal/robots/robots.go:16-29 | the loop's answer is exactly `Allows`: the exact agent's group if present, else the `*` group, else allow; deny iff some rule of that group is a substring of the URL |
| Robots.ExactGroupWins | internal/robots/robots.go:17-28 | with an exact group, only that group decides, and an empty exact group allows everything even when `*` has rules |
| Robots.WildcardFallback | internal/robots/robots.go:18-22 | without an exact group, the `*` group decides; without either, every URL is allowed |
| Robots.DeniedIffRuleOccurs | internal/robots/robots.go:23-28 | a URL is denied iff some rule of the chosen group occurs at some position of its string form |
| Robots.EmptyPolicyAllowsAll | internal/robots/robots.go:16-22 | the empty policy a 404 yields allows every URL for every agent (this is the policy returned at lines 54-55) |
| Robots.ReadLine | internal/robots/robots.go:63-80 | reading one more line changes the agent in force only on a `User-agent:` line and adds the line's fields to the current agent's list only on a `Disallow:` line |
| Robots.AppendFields | internal/robots/robots.go:76-79 | the inner loop appends every field, in order, to the agent's list, creates its key only if there is a field, and leaves every other agent alone |
| Robots.ReadOne | internal/robots/robots.go:64-80 | one line: a comment changes nothing; a `User-agent:` line sets the agent in force to its name; a `Disallow:` line appends its fields to the list of the agent in force and to no other; no other line changes anything |
| Robots.ParseRules | internal/robots/robots.go:60-82 | the parse loop's map has a key exactly for the agents with some rule, and each list is `RulesFor` that agent: the fields of every `Disallow:` line read while it was in force, in file order |
| Robots.CommentIgnored | internal/robots/robots.go:65-67 | a `#` line changes neither the current agent nor any list |
| Robots.AgentLineOpensNoGroup | internal/robots/robots.go:68-72 | a `User-agent:` line sets the agent to the trimmed line without `"User-agent: "` and creates no group by itself |
| Robots.DisallowLineAppends | internal/robots/robots.go:73-80 | a line containing `Disallow:` appends its fields to the current agent's list and to no other, and keeps the agent |
| Robots.NoAgentLineMeansEmptyAgent | internal/robots/robots.go:62-78 | before any `User-agent:` line, rules go to the group keyed by the empty string |
| Robots.RulesAreFields | internal/robots/robots.go:76-79 | every parsed rule is non-empty and has no white space |
| Robots.FetchRobots | internal/robots/robots.go:37-82 | a transport error or a close error fails; then a 404 gives the empty policy; then a read error fails; then a status other than 200 gives no policy and no error; a 200 gives the parsed rules |
| Downloader.NewDownloaderAsWritten | internal/downloader/downloader.go:27-40 | creation fails exactly when `FetchRobots` returned an error; otherwise the downloader keeps the user agent and holds the fetched policy, or no policy for the `(nil, nil)` outcome |
| Downloader.NilPolicyAsWritten | internal/downloader/downloader.go:27-40 | an unexpected robots status yields a downloader with no policy |
| Downloader.NewDownloader | internal/downloader/downloader.go:27-40 | corrected: creation fails unless a policy was fetched, and otherwise holds that policy and the user agent |
| Downloader.CreatedDownloaderHasPolicy | internal/downloader/downloader.go:27-46 | every downloader the corrected constructor creates has a policy for the robots gate |
| Downloader.LastAttempt | internal/downloader/downloader.go:50-71 | the last GET issued is the first one that ends the loop (a 200, or a failed body close), or else the third |
| Downloader.Download | internal/downloader/downloader.go:42-48 | a refusal by the robots gate returns `ErrDisallowed` without any GET; otherwise the result, GETs and sleeps are those of the retry loop: exactly `Expected` |
| Downloader.Retry | internal/downloader/downloader.go:50-87 | the loop's result, number of GETs and sleeps are exactly `Retried`: the first ending attempt (or the third), the linear sleeps, then the classification of the last response |
| Downloader.Conclude | internal/downloader/downloader.go:73-86 | after the loop, the outcome is `Classify` of the last response: too many attempts for a non-200, the transport error, a failed read, or the body and content type |
| Downloader.AttemptsBounded | internal/downloader/downloader.go:50-51 | at most 3 GETs are issued; none at all exactly when the robots gate refused (the bound is the constant of line 19) |
| Downloader.SleepsAreLinear | internal/downloader/downloader.go:55-70 | the k-th sleep lasts k seconds, and after n attempts there are n-1 or n sleeps |
| Downloader.OneSleepPerRetry | internal/downloader/downloader.go:55-70 | each GET that does not end the loop and is not the third is followed by exactly one sleep |
| Downloader.SleepCount | internal/downloader/downloader.go:53-70 | for any mix of answers, one sleep follows each GET before the last, and the last adds one only when it was a transport error; a final non-200, a 200 or a failed close adds none |
| Downloader.FirstOkWins | internal/downloader/downloader.go:59-86 | the first 200 ends the loop; its body and content type are returned after exactly that many GETs and sleeps |
| Downloader.AllStatusFail | internal/downloader/downloader.go:63-76 | three non-200 answers give too many attempts, after 3 GETs and sleeps of 1 and 2 seconds |
| Downloader.AllTransport | internal/downloader/downloader.go:53-80 | three transport errors return the last of them, not too many attempts, after 3 GETs and sleeps of 1, 2 and 3 seconds |
| Downloader.CloseErrorStops | internal/downloader/downloader.go:63-66 | a failed body close on a non-200 answer ends the call at once with that error |
| Downloader.RobotsIgnoredWhenOff | internal/downloader/downloader.go:46-48 | with the robots flag off, the policy is never consulted: any two downloaders give the same outcome, and never a refusal |
| Downloader.AllowedPassesGate | internal/downloader/downloader.go:46-48 | when the policy allows the URL, the call behaves exactly as with the flag off |
| Storage.ExtensionForCases | internal/storage/storage.go:48-61 | the switch yields one of five known extensions; `.css` exactly for `text/css`, `.js` exactly for the two JavaScript types, `.jpg` for `image/jpeg`, `.png` for `image/png`, `.html` for everything else |
| Storage.ExtensionShape | internal/storage/storage.go:48-61 | every extension produced is a dot followed by lower-case letters |
| Storage.ExtensionFromMime | internal/storage/storage.go:44-62 | the extension is always one of the five known ones, a dot followed by lower-case letters |
| Storage.ParametersIgnored | internal/storage/storage.go:45-46 | parameters after the first `;` do not change the extension |
| Storage.EffectivePath | internal/storage/storage.go:21-24 | the path is `index.html` exactly when the URL's path is empty, `/` or `index.html` |
| Storage.FileName | internal/storage/storage.go:21-33 | the site root without a query is `index.html`; without a query any other path is kept, and `.html` is appended exactly when its last element has no dot and the content type starts with `text/html` (so a dotted last element is kept whatever the type); with a query the name is the path with every `.` turned into `_`, then `_`, then the query with every `&` turned into `_`, then the media type's extension, which is the name's own `filepath.Ext` |
| Storage.Save | internal/storage/storage.go:18-35 | the one write goes to the output directory, under the URL's host, with the body unchanged, and its name is the one `FileName` promises |
| Parser.StylesheetRel | internal/parser/parser.go:52-58 | the `rel` search finds `"stylesheet"` exactly when some attribute is `rel="stylesheet"` |
| Parser.AnchorLinks | internal/parser/parser.go:28-42 | the attribute loop of `<a>` appends exactly `AnchorPages`, in attribute order |
| Parser.ResourceLinks | internal/parser/parser.go:43-67 | the attribute loop of a resource element appends exactly `TagResources`, in attribute order |
| Parser.ResourceOf | internal/parser/parser.go:45-65 | one attribute appends exactly what `AttrResource` says: the resolved same-host URL of a `src` (or of a link's `href`), for a link only when some attribute is `rel="stylesheet"`, and nothing otherwise |
| Parser.Traverse | internal/parser/parser.go:24-73 | the walk of a subtree appends exactly its node's own links and then its children's, for both lists |
| Parser.TraverseChildren | internal/parser/parser.go:70-72 | walking the children left to right appends each child's subtree in order |
| Parser.ParseHtml | internal/parser/parser.go:18-75 | a parse error is returned as is; otherwise the two lists are the pages and resources collected from the whole tree |
| Parser.AnchorPagesIff | internal/parser/parser.go:29-39 | a URL is among an anchor's pages iff some `href` parses and resolves to it and it passes the page filter |
| Parser.TagResourcesIff | internal/parser/parser.go:44-63 | a URL is among an element's resources iff some `src`, or a link's `href`, parses and resolves to it, it has the base's host, and a link is a stylesheet |
| Parser.NonStylesheetLinkIgnored | internal/parser/parser.go:51-62 | a `<link>` without `rel="stylesheet"` contributes no resource of its own |
| Parser.FlattenAppend | internal/parser/parser.go:70-72 | the links of two node lists in a row are the links of each in turn |
| Parser.CollectedIsPreorder | internal/parser/parser.go:24-73 | what the walk collects under a node is the concatenation of each node's own links in document pre-order |
| Parser.CollectedAllIsPreorder | internal/parser/parser.go:70-72 | the same for a list of siblings |
| Parser.FlattenMembership | internal/parser/parser.go:24-73 | a URL is collected iff some node in pre-order contributes it itself |
| Parser.PagesQualify | internal/parser/parser.go:34-37 | every page collected anywhere in the tree has the base's host, is not mailto, has no fragment and has a non-empty path |
| Parser.ResourcesSameHost | internal/parser/parser.go:50 | every resource collected anywhere in the tree has the base's host |
| Worker.ChildTasks | cmd/main.go:79-87 | one child per link, in link order, one level deeper than the task and of type `"page"` |
| Worker.EnqueueAll | cmd/main.go:79-85 | the loop leaves the queue and the events exactly as `OfferAll`, ignoring every rejection; the invariant is kept |
| Worker.EnqueueChildren | cmd/main.go:79-92 | the two loops leave the queue and the events as `Expand`: all page children, then all resource children |
| Worker.ProcessTask | cmd/main.go:64-94 | one pass of the loop body leaves the queue, the verdict and the events exactly as `Step` of the download's result and of the write `Save` makes of its payload; the invariant is kept |
| Worker.Seed | cmd/main.go:35-50 | the queue has capacity 1000 and the start host, and holds the outcome of offering the start page at depth 0 with type `"page"` |
| Worker.SeedAcceptedIffDepthNonNegative | cmd/main.go:49-53 | the seed is accepted iff the depth limit is not negative, and then it is the only task and the only visited URL; otherwise it is rejected as too deep |
| Worker.OfferAllPreservesInv | cmd/main.go:79-92 | enqueueing any list of children keeps the queue invariant |
| Worker.OfferAllEventsInOrder | cmd/main.go:79-92 | each child is offered exactly once, in list order |
| Worker.OfferAllBuffersAccepted | cmd/main.go:79-92 | the buffer grows by exactly the accepted children, in the order offered |
| Worker.OfferAllAppend | cmd/main.go:79-92 | offering two lists one after the other is offering their concatenation |
| Worker.PagesBeforeResources | cmd/main.go:79-92 | the two loops offer what one pass offers over the children of the pages followed by the resources, each in parser order |
| Worker.ChildTasksAppend | cmd/main.go:79-92 | the children of the page links followed by those of the resource links are the children of the two lists joined |
| Worker.ShallowPageExpanded | cmd/main.go:69-94 | a processed task below the depth limit was parsed, and its events are the write, the children's offers, then `Done` |
| Worker.NoChildrenAtDepthLimit | cmd/main.go:74-94 | at or past the depth limit the page is saved, not parsed, and the queue is untouched |
| Worker.SavedFirst | cmd/main.go:64-72 | unless the download failed fatally, the first event is the file write |
| Worker.TooManyAttemptsTolerated | cmd/main.go:64-72 | running out of attempts is not fatal: the payload is an empty body with no content type, and its write comes first |
| Worker.TooManyAttemptsWritesEmpty | cmd/main.go:64-69 | after too many attempts, the file written is what `Save` makes of an empty body with no content type, so its content is empty |
| Worker.OtherDownloadErrorsFatal | cmd/main.go:64-67 | any other download failure, a robots refusal included, ends the run before anything is saved or enqueued |
| Worker.OffersOnly | cmd/main.go:79-92 | enqueueing children records no `Done` |
| Worker.SaveErrorFatal | cmd/main.go:69-72 | a failed write ends the run with that error; the write is the only event and the queue is untouched |
| Worker.ParseErrorFatal | cmd/main.go:74-78 | below the depth limit, a parse failure ends the run with that error after the write, before any enqueue |
| Worker.DoneOnceAtEnd | cmd/main.go:94 | a processed task records `Done` exactly once, as its last event |
| Text.ContainsIffOccurs | internal/robots/robots.go:24 | `strings.Contains` holds exactly when the substring occurs at some position (also used at line 73) |
| Text.IsSpaceIffWhiteSpace | internal/robots/robots.go:69-76 | `unicode.IsSpace`, which `TrimSpace` and `Fields` use, holds for exactly the 25 code points of the Unicode White_Space property |
| Text.TrimSpace | internal/robots/robots.go:69-74 | the result is a substring whose surroundings are all white space, and it neither starts nor ends with white space (also used at internal/storage/storage.go:46) |
| Text.HasPrefixIffConcat | internal/robots/robots.go:65-68 | `strings.HasPrefix(s, prefix)` holds exactly when `s` is `prefix` followed by the rest of `s`, and always for `prefix` followed by anything |
| Text.TrimPrefix | internal/robots/robots.go:70-75 | the prefix is removed exactly when present |
| Text.Fields | internal/robots/robots.go:76 | every field is non-empty and has no white space |
| Text.FieldsKeepNonSpace | internal/robots/robots.go:76 | the fields together hold exactly the non-space characters of the line, in order |
| Text.FieldsOfJoin | internal/robots/robots.go:76 | splitting space-joined fields gives them back |
| Text.ReplaceChar | internal/storage/storage.go:27-28 | `strings.Replace(.., -1)` of one character replaces every occurrence and nothing else |
| Text.BeforeFirst | internal/storage/storage.go:45 | `strings.Split(s, ";")[0]` is the longest prefix without the separator |
| Text.Ext | internal/storage/storage.go:30 | `filepath.Ext` is a suffix that is empty or starts with a dot and holds no other dot or slash |
| Text.ExtEmptyIffNoDot | internal/storage/storage.go:30 | `filepath.Ext` is empty exactly when the last path element has no dot |

## Left out

- Concurrency is not modelled: goroutines, the `sync.WaitGroup` of `runApp` and `runWorker`, the queue's mutex and the blocking receive. Each queue method is one atomic step, and a receive on an open, empty channel is the `WouldBlock` delivery.
- `Done`, `WaitAndClose` and the active-task counter are called by `cmd/main.go` but are not part of `internal/queue/queue.go`. The worker records `Done` as an event only, and the seed step stops before `WaitAndClose`.
- `ParseArgs` and the flag defaults are not modelled, because they are global `flag` state. `internal/config/config.go` is a plain record (`Worker.Config`).
- `NewStorage` and `NewParser` are trivial constructors: `Storage.Storage` and no state at all.
- HTTP itself is not modelled. This covers the GETs of `Download` and `FetchRobots`, the 30-second client timeout, and a non-nil response returned together with a redirect error. A GET is either a transport error or a status answer.
- Bodies are not read as streams. A body close or read error is a field of the response.
- The `bufio.Scanner` line splitting and its 64 KiB line limit are not modelled: `FetchRobots` receives the lines.
- The deferred second `Body.Close` in `FetchRobots` panics when it fails. It runs after the result is decided and is not modelled.
- `url.Parse`, `ResolveReference`, `URL.String` and `html.Parse` are library code and are inputs. The HTML tree keeps only element tags, attributes and children.
- `filepath.Join` (with its cleaning of `..` and duplicate slashes), `os.MkdirAll` and `os.WriteFile` are not modelled. `Storage.Save` returns the three joined elements and the content, and the write's outcome is an input.
- `printErrAndExit`, `fmt.Printf` and `time.Sleep` are not modelled. A fatal error is the `Exited` verdict of one step. Sleeps are recorded as their durations in seconds.
- The queue's capacity is a `nat`: `make(chan Task, capacity)` panics on a negative capacity, and `runApp` always passes 1000.
- Integer widths are not modelled. Depths and status codes are unbounded; a depth overflow at `task.Depth + 1` is out of reach for realistic limits.
- robots_test.go carries its own reimplementation of the parsing loop. It differs from `FetchRobots`: it creates empty groups and requires the `Disallow:` prefix. Only `FetchRobots` is modelled.
- Worker.ProcessTask: the robots gate needs a policy, so the method requires one whenever the flag is set. The code as written can reach the gate without a policy; see Findings.
- Downloader.Download: requires a policy whenever the flag is set, for the same reason. Go would dereference a nil pointer there.
- CrawlQueue.Queue.Enqueue: requires that a closed queue never reaches the send. In Go, sending on a closed channel panics (internal/queue/queue.go:57), and that panic is not modelled.
- CrawlQueue.Queue.Close: requires an open queue. Closing a closed channel panics in Go (internal/queue/queue.go:71), and that panic is not modelled.
- Go strings are byte sequences, but here they are sequences of Unicode characters (`Text`). `strings.TrimSpace`, `strings.Fields` and the other helpers are modelled on characters, so behaviour on invalid UTF-8 is not captured.

## Findings

| source | as written | input that shows it | evidently intended | confidence | as-written member | corrected member |
|---|---|---|---|---|---|---|
| internal/robots/robots.go:57-58 with internal/downloader/downloader.go:28-40, 46 | for a `robots.txt` status other than 200 and 404 with a readable body, `FetchRobots` returns `(nil, nil)`: `err` is nil at that point; `NewDownloader` then accepts the nil policy, and with `-robots` set the first `Download` dereferences it in `IsAllowed` | the robots server answers 500 and the crawler runs with `-robots` | an unexpected status becomes an error, so that creating the downloader fails | not executed | Downloader.NilPolicyAsWritten | Downloader.NewDownloader |
