/** The two crawlers (BreadthCrawler.java, DepthCrawler.java). Each owns a session (the
    fields it inherits from Crawler in the source) and its own frontier, and runs the one
    search loop below with its own discipline: a queue for breadth-first, a stack for
    depth-first. */
module Crawlers {
  import opened CrawlResults
  import opened Sessions
  import opened Frontiers
  import opened Traversal

  /** The body of search(address) shared by both crawlers, updating the session's fields
      and the frontier step by step. linksEnqueued is the counter the source keeps beside
      the frontier; it always equals the frontier's length while the loop runs. A frontier
      left over from an earlier search is non-empty only after a stop request, and then
      the loop does not start. */
  method SearchLoop(cfg: Config, session: Crawler, pagesToVisit: seq<Page>, address: string)
    returns (frontier: seq<Page>)
    requires cfg.check == Intended
    requires pagesToVisit != [] ==> session.stopCrawl
    modifies session
    ensures State(session.State(), frontier) == SearchSpec(cfg, old(session.State()), pagesToVisit, address)
  {
    var linksEnqueued := 0;
    session.SetCrawling(true);
    var startPage := Seed(address);
    frontier := pagesToVisit + [startPage];
    linksEnqueued := linksEnqueued + 1;

    ghost var target := Run(cfg, 0, State(session.State(), frontier));
    ghost var before := session.State();
    var k: nat := 0;
    if cfg.stopAt(k) {
      session.Stop();
    }
    while frontier != [] && !session.stopCrawl
      invariant session.State() == Poll(cfg, k, before)
      invariant Run(cfg, k, State(before, frontier)) == target
      invariant session.stopCrawl || linksEnqueued == |frontier|
      decreases Measure(session.maxDepth, session.maxLinks, frontier)
    {
      StepDecreases(cfg, State(session.State(), frontier));
      frontier, linksEnqueued := Attempt(cfg, session, frontier, linksEnqueued);
      k := k + 1;
      before := session.State();
      if cfg.stopAt(k) {
        session.Stop();
      }
    }
    session.SetCrawling(false);
  }

  /** One pass of the loop body of search: take the next page, advance the sequence
      number, then either record the failed fetch, or mark the page visited, record
      whether it matched and, below the depth limit, enqueue its links. */
  method Attempt(cfg: Config, session: Crawler, pending: seq<Page>, count: int)
    returns (frontier: seq<Page>, linksEnqueued: int)
    requires cfg.check == Intended
    requires pending != [] && count == |pending|
    modifies session
    ensures State(session.State(), frontier) == Step(cfg, State(old(session.State()), pending))
    ensures linksEnqueued == |frontier|
  {
    var taken := Take(cfg.discipline, pending);
    var page := taken.0;
    frontier := taken.1;
    linksEnqueued := count - 1;
    // the "about to visit" notice is output only

    session.CrawlingNextPage();
    if cfg.web.fetchOk(page.address) {
      session.AddVisitedLink(page.address);
      var keyword := session.GetKeyWord();
      var containsText := cfg.web.containsText(page.address, keyword);
      // the "match found" notice is output only
      session.AddCrawledPage(page, containsText);
      var maxDepth := session.GetMaxDepth();
      if page.depth < maxDepth {
        var links := Children(cfg.web, page);
        frontier, linksEnqueued := EnqueueLinks(session, links, frontier, linksEnqueued);
      }
    } else {
      session.AddFailedPage(page, FailureMessage(page.address));
    }
  }

  /** The inner loop of search: walks the links of a fetched page while links remain and
      fewer than maxLinks pages are pending, appending each link that is neither visited
      nor pending. The session is only read. */
  method EnqueueLinks(session: Crawler, links: seq<Page>, pending: seq<Page>, count: int)
    returns (frontier: seq<Page>, linksEnqueued: int)
    requires count == |pending|
    ensures frontier == Expand(Intended, links, pending, session.linksVisited, session.maxLinks)
    ensures linksEnqueued == |frontier|
  {
    frontier, linksEnqueued := pending, count;
    var i := 0;
    var maxLinks := session.GetMaxLinks();
    while i < |links| && linksEnqueued < maxLinks
      invariant 0 <= i <= |links|
      invariant maxLinks == session.maxLinks
      invariant linksEnqueued == |frontier|
      invariant Expand(Intended, links[i..], frontier, session.linksVisited, maxLinks)
             == Expand(Intended, links, pending, session.linksVisited, maxLinks)
    {
      var link := links[i];
      ExpandAt(Intended, links, i, frontier, session.linksVisited, maxLinks);
      i := i + 1;
      var visited := session.HasVisitedLink(link.address);
      var check := CheckPending(frontier, link);
      if !visited && !check {
        frontier := frontier + [link];
        linksEnqueued := linksEnqueued + 1;
      }
      maxLinks := session.GetMaxLinks();
    }
  }

  class BreadthCrawler {
    const session: Crawler
    var pagesToVisit: seq<Page>

    /** A leftover queue exists only after a stop request. */
    ghost predicate Valid()
      reads this, session
    {
      pagesToVisit != [] ==> session.stopCrawl
    }

    constructor (keyword: string, list: seq<CrawlResult>)
      ensures Valid() && fresh(session) && pagesToVisit == []
      ensures session.State() == Session([], keyword, 0, 0, list, 0, false, false)
    {
      session := new Crawler(keyword, list);
      pagesToVisit := [];
    }

    /** Breadth-first search from address; stop requests arrive through stopAt. */
    method Search(address: string, web: Web, stopAt: nat -> bool)
      requires Valid()
      modifies this, session
      ensures Valid()
      ensures State(session.State(), pagesToVisit)
           == SearchSpec(Config(web, Fifo, Intended, stopAt), old(session.State()), old(pagesToVisit), address)
    {
      pagesToVisit := SearchLoop(Config(web, Fifo, Intended, stopAt), session, pagesToVisit, address);
    }

    /** check(link): whether a page with the link's address is in the queue; the queue is
        only read. */
    method Check(link: Page) returns (check: bool)
      ensures check <==> Pending(pagesToVisit, link.address)
    {
      check := CheckPending(pagesToVisit, link);
    }
  }

  class DepthCrawler {
    const session: Crawler
    var pagesToVisit: seq<Page>

    /** A leftover stack exists only after a stop request. */
    ghost predicate Valid()
      reads this, session
    {
      pagesToVisit != [] ==> session.stopCrawl
    }

    constructor (keyword: string, list: seq<CrawlResult>)
      ensures Valid() && fresh(session) && pagesToVisit == []
      ensures session.State() == Session([], keyword, 0, 0, list, 0, false, false)
    {
      session := new Crawler(keyword, list);
      pagesToVisit := [];
    }

    /** Depth-first search from address; stop requests arrive through stopAt. */
    method Search(address: string, web: Web, stopAt: nat -> bool)
      requires Valid()
      modifies this, session
      ensures Valid()
      ensures State(session.State(), pagesToVisit)
           == SearchSpec(Config(web, Lifo, Intended, stopAt), old(session.State()), old(pagesToVisit), address)
    {
      pagesToVisit := SearchLoop(Config(web, Lifo, Intended, stopAt), session, pagesToVisit, address);
    }

    /** check(link): whether a page with the link's address is on the stack; the stack is
        only read. */
    method Check(link: Page) returns (check: bool)
      ensures check <==> Pending(pagesToVisit, link.address)
    {
      check := CheckPending(pagesToVisit, link);
    }
  }
}
