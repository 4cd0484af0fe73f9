/** The record of one fetch attempt, and the page it refers to (CrawlResult.java). */
module CrawlResults {

  /** A page as the traversal sees it: its address, which is its identity,
      and its depth below the seed page (the seed has depth 0). */
  datatype Page = Page(address: string, depth: nat)

  /** One immutable record per fetch attempt. The fields are set once by one of the
      two constructors below and afterwards only read through the accessors. */
  datatype CrawlResult = CrawlResult(p: Page, error: string, flag: bool, order: int)
  {
    function GetPage(): (page: Page)
      ensures page == p
    {
      p
    }

    function GetErrorMessage(): (message: string)
      ensures message == error
    {
      error
    }

    function GetSequence(): (sequence: int)
      ensures sequence == order
    {
      order
    }

    function IsMatch(): (matched: bool)
      ensures matched == flag
    {
      flag
    }

    /** Reports "successful crawl", which the record can only tell from the match flag:
        a page that was fetched but lacks the keyword reads the same as a failed fetch. */
    function CrawlSuccess(): (b: bool)
      ensures b <==> IsMatch()
    {
      if flag then true else false
    }
  }

  /** The constructor taking the outcome of the keyword test: the error message is empty. */
  function WithOutcome(page: Page, sequence: int, result: bool): (r: CrawlResult)
    ensures r.GetPage() == page && r.GetSequence() == sequence
    ensures r.IsMatch() == result && r.GetErrorMessage() == ""
  {
    CrawlResult(page, "", result, sequence)
  }

  /** The constructor taking an error message: the record never reports a match. */
  function WithError(page: Page, sequence: int, message: string): (r: CrawlResult)
    ensures r.GetPage() == page && r.GetSequence() == sequence
    ensures !r.IsMatch() && r.GetErrorMessage() == message
  {
    CrawlResult(page, message, false, sequence)
  }

  /** A record built by WithOutcome (no error message) or by WithError (no match): no
      record built by either is both a failure and a match. */
  predicate FromConstructor(r: CrawlResult)
  {
    r.GetErrorMessage() == "" || !r.IsMatch()
  }

  lemma ConstructorsAreTheOnlyModes(page: Page, sequence: int, result: bool, message: string)
    ensures FromConstructor(WithOutcome(page, sequence, result))
    ensures FromConstructor(WithError(page, sequence, message))
  {
  }

  /** The four accessors expose the whole record: a record is rebuilt exactly from what
      they return. */
  lemma AccessorsDetermineRecord(r: CrawlResult)
    ensures CrawlResult(r.GetPage(), r.GetErrorMessage(), r.IsMatch(), r.GetSequence()) == r
  {
  }

  /** An error record never reports success, and neither does a fetched page that lacks
      the keyword: crawlSuccess cannot tell the two apart. */
  lemma CrawlSuccessIgnoresFetchOutcome(page: Page, sequence: int, message: string)
    ensures !WithError(page, sequence, message).CrawlSuccess()
    ensures WithOutcome(page, sequence, false).CrawlSuccess() == WithError(page, sequence, message).CrawlSuccess()
    ensures WithOutcome(page, sequence, true).CrawlSuccess()
  {
  }
}
