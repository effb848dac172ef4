# Crawl state of a threaded Python web crawler, in Dafny

This project models the shared state of a small multi-threaded web crawler
(`main.py`) and the rules that decide what enters it:

- `SafeList` is the **frontier**. It is a FIFO queue of URLs still to fetch. `insert` admits a URL
  only while a lifetime counter `count` is below `limit`. `batch_insert` (used to seed it)
  appends everything and ignores the limit. `pop` takes from the front. `count` is never
  decremented, so it counts admissions, not the current size.
- `SafeSet` is the **visited set**. `check_and_insert` is the atomic test-and-admit. It returns
  true only when the counter is below the limit and the URL is absent. `batch_insert` adds
  every seed and counts every list entry, duplicates included.
- The **link-admission loop** of `Scrapper.run` drops any href whose parsed scheme or
  hostname is empty or missing. It offers the rest to `check_and_insert` and enqueues
  those that come back true.
- The **retry policy** of `Scrapper.get_location` returns the sentinel `"Country Not Found"` for an
  empty IP. Otherwise it makes at most three lookups, skips any that raised or did not report
  status `"success"`, and returns the first non-empty country. If no attempt finds one, it
  returns the sentinel.

Each of `SafeList` and `SafeSet` is a Dafny `class` whose methods change its fields in
place. Each method is one atomic step, as the Python mutex makes it. Each object also has
a value view (`State()`): `Frontier.FrontierState` and `Visited.VisitedState`. Every method
proves that its new state is the matching function of the old one. The lemmas about
sequences of calls are stated over these values. The worker's loop over hrefs is
`Worker.Scrapper.ExpandLinks`, and the function `Worker.Expand` specifies it. The retry
policy is `Worker.Scrapper.GetLocation`, a loop proved equal to the function
`Worker.Location`.

The crawl as a whole is modelled as a sequence of atomic steps (`Worker.Event`). A step
either pops the next URL or runs the admission loop over a page's hrefs. Such a sequence
also covers any interleaving of several workers at the level of whole admission loops.
Over it, `Worker.FetchedAtMostOnce` proves that no URL is fetched twice when the seeds
are distinct. It also proves that every fetched URL is in the visited set. The seeds must
be distinct because `main` reads them from `initial.txt` without deduplication. A line
that appears twice is fetched twice, as `Worker.RepeatedSeedFetchedTwice` shows.

Files: `types.dfy` (URLs, `Option`), `frontier.dfy`, `visited.dfy`, `worker.dfy`.

Behaviours of the code that the model keeps, which a reader might not expect:

- The frontier's limit bounds the admission counter, not the current size. `batch_insert`
  ignores it, so seeding can leave more URLs than the limit.
- Re-seeding the visited set with duplicates increments `count` once per list entry, not
  once per distinct URL. `Visited.BatchInsertCountsDuplicates` shows this.
- The one-second back-off in `get_location` only follows a `"success"` reply with an empty
  country. An attempt that raised or reported another status is retried at once.
- There is no in-flight counter. The worker loop ends as soon as it sees an empty
  frontier.

## Model

| member | source | states |
|---|---|---|
| `Frontier.SafeList.constructor` | main.py:13-17 | a new frontier is empty, has counter 0 and keeps the given limit |
| `Frontier.SafeList.Insert` | main.py:19-27 | if `count < limit` the URL is appended at the back and `count` rises by 1; otherwise list and counter are unchanged; `len(list) <= count` is kept |
| `Frontier.SafeList.BatchInsert` | main.py:29-35 | all URLs are appended in order and `count` rises by their number, with no limit check; `len(list) <= count` is kept |
| `Frontier.SafeList.Pop` | main.py:37-42 | on a non-empty list returns the first URL and leaves exactly the tail; on an empty list (IndexError) returns None and changes nothing; the counter never changes |
| `Frontier.SafeList.IsEmpty` | main.py:44-48 | true exactly when the list is empty; a non-empty frontier has a positive counter |
| `Frontier.FrontierState.Insert` | main.py:23-27 | the counter rises by at most one, the limit is unchanged, and `len(list) <= count` is preserved |
| `Frontier.FrontierState.BatchInsert` | main.py:33-35 | the counter rises by the number of URLs given, and `len(list) <= count` is preserved |
| `Frontier.FrontierState.Front` | main.py:42 | `pop` has a URL to return exactly when the list is non-empty |
| `Frontier.FrontierState.Pop` | main.py:41-42 | the counter and limit are unchanged, and `len(list) <= count` is preserved |
| `Frontier.StepLaw` | main.py:19-42 | for one call, the URL returned followed by the new list equals the old list followed by the URLs appended; the counter rises by the number appended |
| `Frontier.ReplayKeepsValid` | main.py:19-42 | every sequence of insert, batch_insert and pop calls keeps `len(list) <= count` |
| `Frontier.QueueLaw` | main.py:19-42 | FIFO order: the URLs popped so far, followed by the pending list, equal the initial list followed by every URL appended, in order; the counter equals its start plus the number of URLs appended |
| `Frontier.InsertsRespectLimit` | main.py:23-27 | with no batch_insert, the counter, and hence the frontier's size, never exceeds the larger of its start value and the limit |
| `Frontier.BatchInsertIgnoresLimit` | main.py:33-35 | on a frontier whose counter has reached the limit, batch_insert still appends every URL while insert of any URL changes nothing |
| `Visited.ElementsOfBound` | main.py:66-68 | a list of seeds holds at most as many distinct URLs as entries, so counting entries bounds the set's size |
| `Visited.VisitedState.CheckAndInsert` | main.py:75-80 | the URL is in the result exactly when it was already present or was admitted; nothing is removed; without an admission the state is unchanged; `len(set) <= count` is preserved |
| `Visited.VisitedState.BatchInsert` | main.py:65-68 | the result holds exactly the old members and the given URLs; the counter rises by the number of list entries; `len(set) <= count` is preserved |
| `Visited.ReplayKeepsMembers` | main.py:65-80 | no sequence of calls removes a URL from the visited set |
| `Visited.ReplayKeepsValid` | main.py:65-80 | every sequence of calls keeps `len(set) <= count` |
| `Visited.AdmitsAtMostOnce` | main.py:75-80 | in any sequence of calls, `check_and_insert(u)` returns true at most once, and never if `u` was already present |
| `Visited.LaterAdmitsRefused` | main.py:76-80 | once `check_and_insert(u)` has returned true, every later `check_and_insert(u)` returns false, whatever calls come between |
| `Visited.AdmitsRespectLimit` | main.py:75-80 | with no batch_insert, the counter, and hence the set's size, never exceeds the larger of its start value and the limit |
| `Visited.BatchInsertCountsDuplicates` | main.py:65-68 | seeding an empty set with the same URL twice leaves one member and a counter of two |
| `Visited.SafeSet.constructor` | main.py:55-59 | a new visited set is empty, has counter 0 and keeps the given limit |
| `Visited.SafeSet.BatchInsert` | main.py:61-68 | the loop adds every URL of the list and counts every entry, duplicates included; `len(set) <= count` is kept |
| `Visited.SafeSet.CheckAndInsert` | main.py:70-80 | returns true iff `count < limit` and the URL is absent; on true the set gains exactly that URL and the counter rises by 1; on false neither changes |
| `Visited.SafeSet.Contains` | main.py:82-86 | true exactly when the URL is in the set |
| `Worker.AdmitLink` | main.py:182-191 | one pass of the loop body keeps both structures' size bounds |
| `Worker.Expand` | main.py:181-191 | the admission loop keeps both structures' size bounds and limits, and never lowers the visited counter |
| `Worker.AdmitLinkAppends` | main.py:184-191 | an href with an empty or missing scheme or hostname changes nothing; any other is offered to `check_and_insert`, and to `insert` exactly when admitted; so one pass appends at most the href itself, and only if it was newly admitted to the visited set |
| `Worker.ExpandAppends` | main.py:181-191 | the admission loop only appends to the frontier, and only adds to the visited set |
| `Worker.QueuedAreNewLinks` | main.py:181-191 | every href the loop enqueues is one of the page's hrefs, has a non-empty scheme and hostname, was absent from the visited set before and is in it afterwards |
| `Worker.ExpandOffersEveryLink` | main.py:181-191 | progress: after the loop every href that passes the filter is in the visited set, unless the visited counter has reached the limit |
| `Worker.QueuedDistinct` | main.py:181-191 | the admission loop enqueues no href twice |
| `Worker.ExpandKeepsCoupled` | main.py:190-191 | when both structures share the limit and their counters are equal, they stay so, and every href newly admitted to the visited set is also enqueued |
| `Worker.ExpandKeepsPendingVisited` | main.py:181-191 | if every pending URL is in the visited set, that still holds after the loop |
| `Worker.Seed` | main.py:197-208 | seeding both structures from the same list with the same limit leaves the frontier equal to the list, the visited set equal to its distinct URLs, the counters equal, and every pending URL visited |
| `Worker.CrawlLinksStep` | main.py:181-191 | an admission loop keeps the crawl invariant: fetched and pending URLs have no repeats and are all visited, and the counters stay coupled |
| `Worker.CrawlKeepsInvariant` | main.py:162-191 | every sequence of pops and admission loops keeps the crawl invariant |
| `Worker.SeedEstablishesInvariant` | main.py:205-208 | seeding from a list without repeats establishes the crawl invariant |
| `Worker.DoneDistinctAndVisited` | main.py:162-163 | under the crawl invariant, the URLs fetched so far have no repeats and are all in the visited set |
| `Worker.FetchedAtMostOnce` | main.py:162-208 | from seeds without repeats and limit 3000, no URL is ever popped for fetching twice, and every popped URL is in the visited set |
| `Worker.RepeatedSeedFetchedTwice` | main.py:205-208 | seeds are not deduplicated: a URL given twice in the seed list is popped twice by two pops |
| `Worker.Budget` | main.py:139 | the retry loop can use at most three answers, and no more answers than it is given |
| `Worker.FirstHit` | main.py:139-152 | finds the first attempt with status "success" and a non-empty country, or reports that there is none |
| `Worker.FirstHitAt` | main.py:143-152 | a hit preceded only by misses is the first hit |
| `Worker.Location` | main.py:134-155 | an empty IP gives "Country Not Found"; otherwise the result is the country of the first of at most three attempts with status "success" and a non-empty country, or "Country Not Found" when there is none |
| `Worker.AttemptsMade` | main.py:134-155 | no lookup for an empty IP; otherwise at most three lookups, none of them a hit except possibly the last, and fewer than the budget only when there was at least one and the last was a hit (lookups stop at the first hit) |
| `Worker.LaterAnswersIgnored` | main.py:139 | answers after the third attempt never change the result or the number of lookups |
| `Worker.Scrapper.constructor` | main.py:104-108 | a worker keeps references to the shared visited set and frontier |
| `Worker.Scrapper.ExpandLinks` | main.py:181-191 | the loop over hrefs changes the shared visited set and frontier exactly as the specification function `Expand` does, keeping both size bounds |
| `Worker.Scrapper.GetLocation` | main.py:129-155 | the retry loop returns `Location(ip, outcomes)` after `AttemptsMade(ip, outcomes)` lookups |

## Left out

- Threads and locks: `threading.Lock`, `threading.Thread` and the pool of three workers in `main`. Each `SafeList` and `SafeSet` method is one atomic step. The crawl-level lemmas treat a whole admission loop as one step.
- The race between `is_empty` and `pop` in `run` (main.py:162-163) is concurrency and is not modelled. A `pop` on an empty frontier is modelled as returning None, where Python raises IndexError and the thread ends.
- Page fetches with `requests.get` and the ip-api lookup are network I/O. The lookup's answers are an input sequence (`Worker.LookupOutcome`), and an exception is the `Raised` answer. A page's hrefs are the input of the `Links` event.
- `BeautifulSoup` link extraction is a foreign library. The hrefs are an input list.
- `urlparse` is a library parser. It is the function parameter `parse`, and only the scheme and hostname it yields are used. An exception raised by `urlparse` is not modelled.
- `get_ip` and `socket.gethostbyname` are DNS resolution. Its failure, which raises and ends the worker, is not modelled.
- `Site`, `Scrapper.write` and the file writes in `Scrapper.__init__` are file output. Reading `initial.txt` is file input. The seed list is an input.
- `time.time`, the rounded latency, `time.sleep(1)` and `time.sleep(2)` are wall-clock behaviour. So the model does not record where the back-off sleeps fall.
- `print` calls are diagnostics only.
- Worker.LookupOutcome: the reply's `country` is a string or missing. A truthy non-string JSON value, which Python would also return, is not represented.
- Worker.Scrapper.GetLocation: an answer sequence shorter than three stops the retries early. The running program always gets an answer or an exception for each attempt.
- Python integers are unbounded, like Dafny's, so no wrap-around arises.
