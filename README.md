# Keyword web crawler — verified model of the crawl engine

The crawler starts from one web address and looks for pages whose text contains a
keyword. It works breadth-first (`BreadthCrawler`, with a queue) or depth-first
(`DepthCrawler`, with a stack). Each page it attempts is numbered, in order, with a
sequence number. The outcome goes into a result list: the page matched, did not match,
or could not be fetched, in which case an error message is stored. Two limits bound the
crawl:

- `maxDepth`: how deep links are followed;
- `maxLinks`: how many pages may wait in the frontier at once.

A stop request from outside ends the crawl at the next evaluation of the loop condition.

This project models the crawl engine: the session state (`Crawler`), the two search
loops and their `check` helper, and the result record (`CrawlResult`).

Modules:

- `CrawlResults` (`crawl_result.dfy`): the result record `CrawlResult` as a datatype. It
  has the record's two constructors (`WithOutcome`, `WithError`) and accessors.
  `Page(address, depth)` is the page as the engine sees it.
- `Sessions` (`crawler.dfy`): the session fields of `Crawler`.
  - The fields are the visited list, keyword, limits, result list, sequence counter,
    stop flag and crawling flag.
  - They appear twice: once as a `Session` value with one function per operation, and
    once as the class `Sessions.Crawler`, whose methods update the fields in place.
  - Each method's contract equates the new `State()` with that function applied to the
    old one.
- `Frontiers` (`frontier.dfy`): the frontier as a sequence that both crawlers append to.
  - `Take` removes the oldest page (queue) or the newest page (stack).
  - `CheckPending` is the pending-page test `check` is documented to perform.
  - `CheckAsWritten` is what `check` actually computes (see Findings).
- `Traversal` (`traversal.dfy`): the search loop as a specification on values.
  - `Step` is one pass of the loop body.
  - `Run` is the loop from its k-th condition evaluation on. It terminates by a weight
    measure, with no fuel.
  - `SearchSpec` is the whole `search(address)`.
  - The web is an oracle (`Web`): whether a fetch succeeds, the links of a page, and
    whether a page contains a keyword.
  - Stop requests arrive through `stopAt(k)`, which says whether a stop has been
    requested by the k-th evaluation of the loop condition.
- `Crawlers` (`crawlers.dfy`): the classes `BreadthCrawler` and `DepthCrawler`.
  - Each owns a `Crawler` session and a `pagesToVisit` frontier field.
  - Both run the imperative `SearchLoop`. It keeps the source's `linksEnqueued` counter
    and is proved to end in exactly the state `SearchSpec` describes.
- `TraversalProperties` (`traversal_properties.dfy`): what the loop guarantees.
  - numbering of attempts;
  - the frontier bound;
  - the depth limit;
  - duplicate suppression;
  - breadth-first and depth-first removal order;
  - stopping, and failures not being fatal.
- `Examples` (`examples.dfy`): three-page crawls worked out in full.

Points where the code behaves differently from what its own comments or names suggest:

- The comments on `maxLinks` (Crawler.java:26 and :128-131) speak of links "on each
  page" and "per page". The code compares the `linksEnqueued` counter, which tracks the
  length of the whole frontier, with `maxLinks`, so the limit bounds the frontier. The
  model follows the code.
- `crawlSuccess()` returns `isMatch()`. It does not also mean "fetched".
- A page whose fetch fails is not marked visited, so it can be enqueued and attempted
  again. The guarantee that holds is therefore "no address is fetched successfully
  twice".
- A new crawler's `maxDepth` and `maxLinks` are 0 until set.

## Model

| member | source | states |
|---|---|---|
| CrawlResults.WithOutcome | src/com/resong/crawler/resources/CrawlResult.java:33-38 | the record built from a keyword-test outcome returns that page, sequence number and outcome from its accessors, with an empty error message |
| CrawlResults.WithError | src/com/resong/crawler/resources/CrawlResult.java:48-53 | the record built from an error message returns that page, sequence number and message, and is not a match |
| CrawlResults.CrawlResult.GetPage | src/com/resong/crawler/resources/CrawlResult.java:63-65 | getPage() returns the page the record was built with |
| CrawlResults.CrawlResult.GetErrorMessage | src/com/resong/crawler/resources/CrawlResult.java:73-75 | getErrorMessage() returns the stored message, empty for a record built from an outcome |
| CrawlResults.CrawlResult.GetSequence | src/com/resong/crawler/resources/CrawlResult.java:83-85 | getSequence() returns the sequence number the record was built with |
| CrawlResults.CrawlResult.IsMatch | src/com/resong/crawler/resources/CrawlResult.java:92-94 | isMatch() returns the stored outcome of the keyword test, false for a failure record |
| CrawlResults.AccessorsDetermineRecord | src/com/resong/crawler/resources/CrawlResult.java:63-94 | the four accessors expose the whole record: a record is rebuilt exactly from what they return |
| CrawlResults.CrawlResult.CrawlSuccess | src/com/resong/crawler/resources/CrawlResult.java:102-109 | crawlSuccess() is true exactly when the record is a match |
| CrawlResults.ConstructorsAreTheOnlyModes | src/com/resong/crawler/resources/CrawlResult.java:33-53 | every record built by either constructor has an empty error message or is not a match, so no record is both a failure and a match |
| CrawlResults.CrawlSuccessIgnoresFetchOutcome | src/com/resong/crawler/resources/CrawlResult.java:102-109 | a fetched page without the keyword and a failed page both report crawlSuccess() false, so crawlSuccess() does not tell fetched from failed |
| Sessions.MarkVisited | src/com/resong/crawler/resources/Crawler.java:67-80 | after addVisitedLink(a), hasVisitedLink(x) holds iff x is a or was visited before; the list grows by one at its end; nothing else changes |
| Sessions.NextPage | src/com/resong/crawler/resources/Crawler.java:231-233 | crawlingNextPage() raises the sequence number by one and changes nothing else |
| Sessions.RecordSuccess | src/com/resong/crawler/resources/Crawler.java:173-180 | addCrawledPage appends exactly one record carrying the page, the current sequence number and the outcome; nothing else changes |
| Sessions.RecordFailure | src/com/resong/crawler/resources/Crawler.java:189-196 | addFailedPage appends exactly one record carrying the page, the current sequence number and the message, not a match; nothing else changes |
| Sessions.RequestStop | src/com/resong/crawler/resources/Crawler.java:222-224 | stop() sets the stop flag and changes nothing else |
| Sessions.StopIsSticky | src/com/resong/crawler/resources/Crawler.java:33 | no session operation clears the stop flag once it is set |
| Sessions.Crawler.constructor | src/com/resong/crawler/resources/Crawler.java:45-56 | a new crawler has no visited links, the given keyword and result list, limits and sequence 0, and is neither stopped nor crawling |
| Sessions.Crawler.HasVisitedLink | src/com/resong/crawler/resources/Crawler.java:67-70 | answers whether the address is in the visited list; no field changes |
| Sessions.Crawler.AddVisitedLink | src/com/resong/crawler/resources/Crawler.java:77-80 | the new state is MarkVisited of the old one |
| Sessions.Crawler.GetKeyWord | src/com/resong/crawler/resources/Crawler.java:87-89 | returns the keyword field |
| Sessions.Crawler.SetKeyWord | src/com/resong/crawler/resources/Crawler.java:96-98 | replaces the keyword and nothing else |
| Sessions.Crawler.GetMaxDepth | src/com/resong/crawler/resources/Crawler.java:105-107 | returns the depth limit |
| Sessions.Crawler.SetMaxDepth | src/com/resong/crawler/resources/Crawler.java:114-116 | replaces the depth limit and nothing else |
| Sessions.Crawler.GetMaxLinks | src/com/resong/crawler/resources/Crawler.java:124-126 | returns the link limit |
| Sessions.Crawler.SetMaxLinks | src/com/resong/crawler/resources/Crawler.java:133-135 | replaces the link limit and nothing else |
| Sessions.Crawler.AddCrawledPage | src/com/resong/crawler/resources/Crawler.java:173-180 | the new state is RecordSuccess of the old one |
| Sessions.Crawler.AddFailedPage | src/com/resong/crawler/resources/Crawler.java:189-196 | the new state is RecordFailure of the old one |
| Sessions.Crawler.IsCrawling | src/com/resong/crawler/resources/Crawler.java:204-206 | returns the crawling flag |
| Sessions.Crawler.SetCrawling | src/com/resong/crawler/resources/Crawler.java:214-216 | replaces the crawling flag and nothing else |
| Sessions.Crawler.Stop | src/com/resong/crawler/resources/Crawler.java:222-224 | the new state is RequestStop of the old one |
| Sessions.Crawler.CrawlingNextPage | src/com/resong/crawler/resources/Crawler.java:231-233 | the new state is NextPage of the old one |
| Sessions.SetThenGet | src/com/resong/crawler/resources/Crawler.java:87-135 | each setter followed by its getter, and setCrawling(b) followed by isCrawling(), returns the value set |
| Frontiers.Take | src/com/resong/crawler/resources/BreadthCrawler.java:68 | the queue's dequeue gives the oldest page and leaves the rest in order; the stack's pop (DepthCrawler.java:66) gives the newest |
| Frontiers.CheckPending | src/com/resong/crawler/resources/BreadthCrawler.java:135-142 | check(link) is true iff some pending page has the link's address, and the frontier is left as it was |
| Frontiers.CheckAsWritten | src/com/resong/crawler/resources/BreadthCrawler.java:142-179 | check(link) as written returns false whatever the frontier holds, since its loop condition assigns false (the same at DepthCrawler.java:141-182) |
| Frontiers.CheckAsWrittenMissesPending | src/com/resong/crawler/resources/BreadthCrawler.java:151 | the check as written answers false for a frontier that holds the link's address |
| Traversal.FailureMessage | src/com/resong/crawler/resources/BreadthCrawler.java:127 | the failure message ends with the address that could not be fetched |
| Traversal.Expand | src/com/resong/crawler/resources/BreadthCrawler.java:99-120 | the inner loop only appends links of the page, none visited, never past maxLinks pending pages, and with the intended check none already pending and none twice |
| Traversal.ExpandKeepsLinkOrder | src/com/resong/crawler/resources/BreadthCrawler.java:99-119 | the inner loop appends links in the order the page lists them |
| Traversal.ExpandComplete | src/com/resong/crawler/resources/BreadthCrawler.java:104-119 | unless the inner loop stops at maxLinks, every link of the page that is not visited is pending afterwards, with either check |
| Traversal.Step | src/com/resong/crawler/resources/BreadthCrawler.java:68-129 | one pass of the loop body changes only the visited list, the results and the sequence number of the session |
| Traversal.StepRecords | src/com/resong/crawler/resources/BreadthCrawler.java:74-92 | one pass numbers the attempt with the next sequence number and appends exactly one record for the page taken; a fetched page is marked visited and recorded with its match outcome; a failed one is recorded with the failure message and not marked visited |
| Traversal.StepFrontier | src/com/resong/crawler/resources/BreadthCrawler.java:95-121 | one pass keeps the rest of the frontier in front and adds only children of the page taken, one level deeper, in link order, within maxLinks, and only when the page was fetched and lies above maxDepth |
| Traversal.StepEnqueuesLinks | src/com/resong/crawler/resources/BreadthCrawler.java:97-120 | when a fetched page lies above maxDepth and the frontier ends below maxLinks, every address it links to, other than its own and those visited before, is pending afterwards |
| Traversal.Poll | src/com/resong/crawler/resources/BreadthCrawler.java:62 | the loop condition sees the stop flag set iff it was set before or a stop was requested by then |
| Traversal.Run | src/com/resong/crawler/resources/BreadthCrawler.java:62-130 | the loop ends, with the frontier empty or a stop requested, and leaves keyword and limits unchanged |
| Traversal.Seed | src/com/resong/crawler/resources/BreadthCrawler.java:55 | the start page has the given address and depth 0 (the same at DepthCrawler.java:53) |
| Traversal.SearchSpec | src/com/resong/crawler/resources/BreadthCrawler.java:45-133 | search ends not crawling, with the frontier empty or a stop requested |
| Traversal.StepDecreases | src/com/resong/crawler/resources/BreadthCrawler.java:95-121 | every pass lowers the frontier's weight, where links one level deeper weigh less than the page that was expanded, so the loop terminates |
| Crawlers.SearchLoop | src/com/resong/crawler/resources/BreadthCrawler.java:45-133 | the imperative loop leaves the session fields and frontier exactly as SearchSpec describes, with linksEnqueued equal to the frontier length whenever the loop runs |
| Crawlers.Attempt | src/com/resong/crawler/resources/BreadthCrawler.java:68-129 | one pass of the imperative body ends in the state Step describes, with linksEnqueued equal to the frontier length |
| Crawlers.EnqueueLinks | src/com/resong/crawler/resources/BreadthCrawler.java:104-120 | the imperative inner loop yields the frontier Expand describes, with linksEnqueued equal to its length |
| Crawlers.BreadthCrawler.constructor | src/com/resong/crawler/resources/BreadthCrawler.java:30-33 | a new breadth-first crawler has an empty queue and a fresh session |
| Crawlers.BreadthCrawler.Search | src/com/resong/crawler/resources/BreadthCrawler.java:45-133 | search(address) with a queue ends in the state SearchSpec describes for the first-in-first-out discipline |
| Crawlers.BreadthCrawler.Check | src/com/resong/crawler/resources/BreadthCrawler.java:135-179 | check(link) is true iff the queue field holds a page with the link's address; this is the class-level view of Frontiers.CheckPending, which the inner loop calls on the frontier directly |
| Crawlers.DepthCrawler.constructor | src/com/resong/crawler/resources/DepthCrawler.java:30-33 | a new depth-first crawler has an empty stack and a fresh session |
| Crawlers.DepthCrawler.Search | src/com/resong/crawler/resources/DepthCrawler.java:45-131 | search(address) with a stack ends in the state SearchSpec describes for the last-in-first-out discipline |
| Crawlers.DepthCrawler.Check | src/com/resong/crawler/resources/DepthCrawler.java:134-182 | check(link) is true iff the stack field holds a page with the link's address; this is the class-level view of Frontiers.CheckPending, which the inner loop calls on the frontier directly |
| TraversalProperties.RunNumbersAttempts | src/com/resong/crawler/resources/BreadthCrawler.java:62-130 | the loop only appends to the result list, one record per attempt, and the i-th new record carries the old counter plus i + 1 |
| TraversalProperties.SearchNumbersFromOne | src/com/resong/crawler/resources/DepthCrawler.java:45-131 | a search by a new crawler numbers its records 1, 2, 3, ... in append order, and the record count equals the final sequence number |
| TraversalProperties.SeedIsAttemptedFirst | src/com/resong/crawler/resources/BreadthCrawler.java:55-79 | unless a stop is already requested, the first record is for the start address at depth 0 with sequence number 1 |
| TraversalProperties.StepKeepsBound | src/com/resong/crawler/resources/BreadthCrawler.java:104 | a pass never lets the frontier exceed max(1, maxLinks) pages |
| TraversalProperties.RunKeepsBound | src/com/resong/crawler/resources/BreadthCrawler.java:62-130 | the whole loop keeps the frontier within max(1, maxLinks) pages |
| TraversalProperties.SearchKeepsBound | src/com/resong/crawler/resources/DepthCrawler.java:47-115 | a search from an empty frontier ends with at most max(1, maxLinks) pages pending |
| TraversalProperties.NoExpansionAtMaxDepth | src/com/resong/crawler/resources/BreadthCrawler.java:97 | a page at or below the depth limit adds no links to the frontier |
| TraversalProperties.DepthZeroAttemptsOnlySeed | src/com/resong/crawler/resources/DepthCrawler.java:95 | with maxDepth at most 0 a search attempts at most one page, the start address |
| TraversalProperties.StepKeepsDeduplicated | src/com/resong/crawler/resources/BreadthCrawler.java:109-119 | with the intended check a pass keeps pending addresses distinct, unvisited, and the visited list free of repeats |
| TraversalProperties.StepKeepsVisitedMatchesRecords | src/com/resong/crawler/resources/BreadthCrawler.java:77-92 | a pass keeps the visited list equal to the addresses of the successfully fetched records, in order |
| TraversalProperties.RunKeepsDeduplicated | src/com/resong/crawler/resources/DepthCrawler.java:60-128 | the whole loop keeps both invariants |
| TraversalProperties.SearchFetchesEachAddressOnce | src/com/resong/crawler/resources/BreadthCrawler.java:45-133 | with the intended check, a new crawler's search fetches no address successfully twice and never holds an address twice in the frontier |
| TraversalProperties.QueueAttemptsPendingFirst | src/com/resong/crawler/resources/BreadthCrawler.java:62-119 | breadth-first: the pages pending at loop entry are attempted first and in their order, and whatever the loop leaves pending keeps that order too |
| TraversalProperties.QueueStepKeepsLayered | src/com/resong/crawler/resources/BreadthCrawler.java:97-118 | breadth-first: a pass keeps the queue sorted by depth and spanning at most two adjacent depths, none below the page taken |
| TraversalProperties.QueueAttemptsByDepth | src/com/resong/crawler/resources/BreadthCrawler.java:62-130 | breadth-first: pages are attempted in order of nondecreasing depth |
| TraversalProperties.StackAttemptsLastPushedNext | src/com/resong/crawler/resources/DepthCrawler.java:102-115 | depth-first: when a pass pushes links and no stop intervenes, the next page attempted is the last link pushed |
| TraversalProperties.StackStepKeepsBase | src/com/resong/crawler/resources/DepthCrawler.java:66-115 | depth-first: a pass that starts with more pages on the stack than those of a bottom part leaves that part at the bottom |
| TraversalProperties.Unwind | src/com/resong/crawler/resources/DepthCrawler.java:60-128 | the loop run until the stack shrinks to a given height or a stop is seen, after which the rest of the loop continues from the state it hands back |
| TraversalProperties.StackUnwindsToBase | src/com/resong/crawler/resources/DepthCrawler.java:60-128 | depth-first: the pages below the top stay at the bottom of the stack, untouched, until everything pushed above them has been attempted; then, unless a stop intervenes, the top of them is attempted next |
| TraversalProperties.StopHaltsBeforeNextAttempt | src/com/resong/crawler/resources/DepthCrawler.java:60 | a stop seen at the loop condition ends the loop without another record and leaves the frontier as it is |
| TraversalProperties.FailureIsNotFatal | src/com/resong/crawler/resources/DepthCrawler.java:121-127 | a failed fetch appends one failure record with its sequence number and the message, marks nothing visited, expands nothing, and the loop continues with the rest |
| Examples.BreadthFirstExample | src/com/resong/crawler/resources/BreadthCrawler.java:62-130 | for A linking to B and C, the breadth-first records are A 1 no match, B 2 match, C 3 no match |
| Examples.DepthFirstExample | src/com/resong/crawler/resources/DepthCrawler.java:60-128 | on the same web the depth-first records are A 1, C 2, B 3 |
| Examples.FailedFetchExample | src/com/resong/crawler/resources/BreadthCrawler.java:124-129 | when C cannot be fetched its record carries sequence 3 and the message for C, and the crawl completes |
| Examples.WrittenCheckFetchesTwice | src/com/resong/crawler/resources/BreadthCrawler.java:151 | with check as written, a page listing B twice causes B to be fetched twice, as attempts 2 and 3 |
| Examples.IntendedCheckFetchesOnce | src/com/resong/crawler/resources/BreadthCrawler.java:109-119 | with the intended check the same crawl fetches B once |

## Findings

| source | as written | input that shows it | evidently intended | confidence | as-written member | corrected member |
|---|---|---|---|---|---|---|
| src/com/resong/crawler/resources/BreadthCrawler.java:151 | `while(check = false)` assigns false, so the loop body never runs and `check` always returns false | start A with maxDepth 1 and maxLinks 2; A links to B twice; B is enqueued twice and fetched twice | `check` returns true iff a page with the link's address is in the queue | not executed | Examples.WrittenCheckFetchesTwice | Frontiers.CheckPending |
| src/com/resong/crawler/resources/DepthCrawler.java:150 | the same assignment in the stack version, so `check` always returns false | the same crawl run depth-first: B is pushed twice | `check` returns true iff a page with the link's address is on the stack | not executed | Frontiers.CheckAsWrittenMissesPending | Crawlers.DepthCrawler.Check |

The pending test is a parameter of the traversal: `AsWritten` models the code as
written, and `Intended` is the one the crawler classes use. With `Intended`, the
properties above are proved, including `SearchFetchesEachAddressOnce`.

## Left out

- Downloading and parsing pages (WebHelper, Page.containsText, Page.linkedPageIterator) are not part of this model; they are the `Web` oracle, and a fetch either succeeds fully or fails before anything is recorded.
- An exception thrown after the success record (by the link iterator, say) is not modelled; in the source it would add a second, failure record for the same attempt.
- printVisiting and printMatch only write to the console; they are left out.
- Stop requests come from another thread in the source; here they are the `stopAt` oracle, read at each evaluation of the loop condition. The crawling flag is only written by search itself: the window's call to `setCrawling(false)` from the GUI thread (MyCrawlerWindow.java:156-158), which can happen while a search is running, is not modelled.
- The GUI (MyCrawlerWindow) and the queue, stack and result-list classes are not part of this model; the frontier and the result list are sequences, so capacity and growth are not modelled.
- The drain-and-rebuild body of `check` is not modelled: as written it never runs. With `==` in place of `=` it would behave otherwise. On a hit, the pages already moved into the temporary container, up to and including the match, would be lost, and the rest of the frontier would stay. On a miss, `this.pagesToVisit = temp` (BreadthCrawler.java:174, DepthCrawler.java:176) would make the field and the temporary container one and the same object. From then on, each pass would take a page from that container and put it straight back, forever; with an empty frontier the loop would spin in its `else` branch. The model gives `check` the membership semantics its documentation states and leaves the frontier unchanged.
- Crawlers.SearchLoop: keeps the frontier in a local sequence during the loop and stores it in `pagesToVisit` at the end; the source updates the field in place, which no one else observes while the loop runs.
- Crawlers.BreadthCrawler.Search, Crawlers.DepthCrawler.Search, Crawlers.SearchLoop, Crawlers.Attempt, Crawlers.EnqueueLinks: use the intended check only; the written check is modelled in `Traversal` through `PendingCheck.AsWritten`, and its effect is shown in Examples.WrittenCheckFetchesTwice.
- Sessions.NextPage: the sequence counter and the limits are unbounded integers; 32-bit overflow after 2^31 attempts is not modelled.
- Inheritance from the abstract Crawler is modelled by composition: each crawler class owns a Crawler session object.
- Pages are values compared by address and depth; object identity of Page instances is not modelled.
