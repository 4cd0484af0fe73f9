/** The frontier of pages waiting to be attempted and the tests run against it
    (the queue of BreadthCrawler.java, the stack of DepthCrawler.java, and check()).
    Both are kept as a sequence to which new pages are appended; a queue removes its
    first (oldest) element, a stack its last (newest) one. */
module Frontiers {
  import opened CrawlResults

  datatype Discipline = Fifo | Lifo

  /** Removes the next page: the oldest for a queue, the newest for a stack. The rest keeps
      its order. */
  function Take(d: Discipline, f: seq<Page>): (r: (Page, seq<Page>))
    requires f != []
    ensures d == Fifo ==> f == [r.0] + r.1
    ensures d == Lifo ==> f == r.1 + [r.0]
  {
    match d
    case Fifo => (f[0], f[1..])
    case Lifo => (f[|f| - 1], f[..|f| - 1])
  }

  /** What check() is documented to answer: some pending page has this address. */
  predicate Pending(f: seq<Page>, address: string)
  {
    exists i :: 0 <= i < |f| && f[i].address == address
  }

  /** check() with its evidently intended loop condition: scans the frontier for the
      link's address and leaves the frontier (a value here) as it was. */
  method CheckPending(f: seq<Page>, link: Page) returns (check: bool)
    ensures check <==> Pending(f, link.address)
  {
    check := false;
    var i := 0;
    while i < |f| && !check
      invariant 0 <= i <= |f|
      invariant check <==> exists j :: 0 <= j < i && f[j].address == link.address
    {
      if f[i].address == link.address {
        check := true;
      }
      i := i + 1;
    }
  }

  /** check() as written: its loop condition `check = false` assigns false and then tests
      that value, so the loop body never runs and false is returned whatever the frontier
      holds. */
  function CheckAsWritten(f: seq<Page>, link: Page): (check: bool)
    ensures !check
  {
    false
  }

  /** The written check misses a page that is pending: a frontier holding B, asked about B. */
  lemma CheckAsWrittenMissesPending(link: Page)
    ensures Pending([link], link.address) && !CheckAsWritten([link], link)
  {
    assert [link][0].address == link.address;
  }

  /** Which pending test the traversal runs: the one written in the source or the intended one. */
  datatype PendingCheck = AsWritten | Intended

  predicate IsPending(c: PendingCheck, f: seq<Page>, link: Page)
  {
    match c
    case AsWritten => CheckAsWritten(f, link)
    case Intended => Pending(f, link.address)
  }

  /** No two pending pages share an address. */
  predicate DistinctAddresses(f: seq<Page>)
  {
    forall i, j :: 0 <= i < j < |f| ==> f[i].address != f[j].address
  }
}
