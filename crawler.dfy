/** The session state shared by both traversal orders (Crawler.java): the keyword, the
    limits, the visited addresses, the sequence counter, the stop and crawling flags and
    the result list. Each operation is given once as a function on a Session value and
    once as a method of the class Crawler that updates the fields in place. */
module Sessions {
  import opened CrawlResults

  /** The abstract value of a crawler's fields. */
  datatype Session = Session(
    visited: seq<string>,
    keyword: string,
    maxDepth: int,
    maxLinks: int,
    results: seq<CrawlResult>,
    sequence: int,
    stopRequested: bool,
    crawling: bool)

  predicate HasVisited(s: Session, address: string)
  {
    address in s.visited
  }

  /** Appends an address to the visited list: an address counts as visited afterwards
      exactly when it was visited before or is the one added. */
  function MarkVisited(s: Session, address: string): (s': Session)
    ensures forall a :: HasVisited(s', a) <==> HasVisited(s, a) || a == address
    ensures |s'.visited| == |s.visited| + 1 && s'.visited[..|s.visited|] == s.visited
    ensures s' == s.(visited := s'.visited)
  {
    s.(visited := s.visited + [address])
  }

  /** Advances to the next fetch attempt: one more, and nothing else changes. */
  function NextPage(s: Session): (s': Session)
    ensures s'.sequence == s.sequence + 1
    ensures s' == s.(sequence := s'.sequence)
  {
    s.(sequence := s.sequence + 1)
  }

  /** Appends one success record carrying the current sequence number. */
  function RecordSuccess(s: Session, page: Page, matched: bool): (s': Session)
    ensures |s'.results| == |s.results| + 1 && s'.results[..|s.results|] == s.results
    ensures var r := s'.results[|s.results|];
      r.GetPage() == page && r.GetSequence() == s.sequence && r.IsMatch() == matched && r.GetErrorMessage() == ""
    ensures s' == s.(results := s'.results)
  {
    s.(results := s.results + [WithOutcome(page, s.sequence, matched)])
  }

  /** Appends one failure record carrying the current sequence number. */
  function RecordFailure(s: Session, page: Page, error: string): (s': Session)
    ensures |s'.results| == |s.results| + 1 && s'.results[..|s.results|] == s.results
    ensures var r := s'.results[|s.results|];
      r.GetPage() == page && r.GetSequence() == s.sequence && !r.IsMatch() && r.GetErrorMessage() == error
    ensures s' == s.(results := s'.results)
  {
    s.(results := s.results + [WithError(page, s.sequence, error)])
  }

  /** Raises the stop flag; nothing else changes. */
  function RequestStop(s: Session): (s': Session)
    ensures s'.stopRequested && s' == s.(stopRequested := true)
  {
    s.(stopRequested := true)
  }

  /** No session operation lowers the stop flag once it is raised. */
  lemma StopIsSticky(s: Session, address: string, page: Page, b: bool, e: string)
    requires s.stopRequested
    ensures MarkVisited(s, address).stopRequested && NextPage(s).stopRequested
    ensures RecordSuccess(s, page, b).stopRequested && RecordFailure(s, page, e).stopRequested
    ensures RequestStop(s).stopRequested && s.(crawling := b).stopRequested
  {
  }

  class Crawler {
    var linksVisited: seq<string>
    var kWord: string
    var maxDepth: int
    var maxLinks: int
    var rList: seq<CrawlResult>
    var sequence: int
    var stopCrawl: bool
    var crawlingNow: bool

    /** The abstract value of the fields. */
    function State(): Session
      reads this
    {
      Session(linksVisited, kWord, maxDepth, maxLinks, rList, sequence, stopCrawl, crawlingNow)
    }

    /** A new crawler: no limits (both 0), no page attempted, not crawling, no stop
        requested, nothing visited; results go to the given list. */
    constructor (keyword: string, list: seq<CrawlResult>)
      ensures State() == Session([], keyword, 0, 0, list, 0, false, false)
    {
      linksVisited := [];
      kWord := keyword;
      maxDepth := 0;
      maxLinks := 0;
      rList := list;
      sequence := 0;
      crawlingNow := false;
      stopCrawl := false;
    }

    method HasVisitedLink(address: string) returns (b: bool)
      ensures b == HasVisited(State(), address)
    {
      b := address in linksVisited;
    }

    method AddVisitedLink(address: string)
      modifies this
      ensures State() == MarkVisited(old(State()), address)
    {
      linksVisited := linksVisited + [address];
    }

    method GetKeyWord() returns (keyword: string)
      ensures keyword == State().keyword
    {
      keyword := kWord;
    }

    method SetKeyWord(keyword: string)
      modifies this
      ensures State() == old(State()).(keyword := keyword)
    {
      kWord := keyword;
    }

    method GetMaxDepth() returns (depth: int)
      ensures depth == State().maxDepth
    {
      depth := maxDepth;
    }

    method SetMaxDepth(mDepth: int)
      modifies this
      ensures State() == old(State()).(maxDepth := mDepth)
    {
      maxDepth := mDepth;
    }

    method GetMaxLinks() returns (links: int)
      ensures links == State().maxLinks
    {
      links := maxLinks;
    }

    method SetMaxLinks(mLinks: int)
      modifies this
      ensures State() == old(State()).(maxLinks := mLinks)
    {
      maxLinks := mLinks;
    }

    method AddCrawledPage(page: Page, matched: bool)
      modifies this
      ensures State() == RecordSuccess(old(State()), page, matched)
    {
      rList := rList + [WithOutcome(page, sequence, matched)];
    }

    method AddFailedPage(page: Page, error: string)
      modifies this
      ensures State() == RecordFailure(old(State()), page, error)
    {
      rList := rList + [WithError(page, sequence, error)];
    }

    method IsCrawling() returns (crawling: bool)
      ensures crawling == State().crawling
    {
      crawling := crawlingNow;
    }

    method SetCrawling(setCrawl: bool)
      modifies this
      ensures State() == old(State()).(crawling := setCrawl)
    {
      crawlingNow := setCrawl;
    }

    method Stop()
      modifies this
      ensures State() == RequestStop(old(State()))
    {
      stopCrawl := true;
    }

    method CrawlingNextPage()
      modifies this
      ensures State() == NextPage(old(State()))
    {
      sequence := sequence + 1;
    }
  }

  /** A client of the class: setCrawling(b) followed by isCrawling() yields b, and each
      setter followed by its getter yields the value set. */
  method SetThenGet(c: Crawler, b: bool, depth: int, links: int, keyword: string)
    returns (crawling: bool, d: int, l: int, k: string)
    modifies c
    ensures crawling == b && d == depth && l == links && k == keyword
  {
    c.SetCrawling(b);
    c.SetMaxDepth(depth);
    c.SetMaxLinks(links);
    c.SetKeyWord(keyword);
    crawling := c.IsCrawling();
    d := c.GetMaxDepth();
    l := c.GetMaxLinks();
    k := c.GetKeyWord();
  }
}
