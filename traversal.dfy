/** The traversal loop shared by BreadthCrawler.search and DepthCrawler.search, as a
    specification on values: one Step per fetch attempt, and Run, the whole loop. The two
    searches differ only in the Discipline of the Config. */
module Traversal {
  import opened CrawlResults
  import opened Sessions
  import opened Frontiers

  /** The web as a fixed oracle: whether fetching an address succeeds, the addresses
      a page links to, and whether a page's text contains a keyword. */
  datatype Web = Web(
    fetchOk: string -> bool,
    links: string -> seq<string>,
    containsText: (string, string) -> bool)

  /** Everything the loop consults besides its state: the web, the frontier discipline,
      which pending test runs, and whether a stop has been requested from outside by the
      time the loop condition is evaluated for the k-th time. */
  datatype Config = Config(web: Web, discipline: Discipline, check: PendingCheck, stopAt: nat -> bool)

  /** The crawler's fields together with its frontier. */
  datatype State = State(session: Session, frontier: seq<Page>)

  /** The pages a fetched page links to, one level deeper, in link order. */
  function Children(web: Web, page: Page): (cs: seq<Page>)
    ensures |cs| == |web.links(page.address)|
    ensures forall i :: 0 <= i < |cs| ==> cs[i].address == web.links(page.address)[i] && cs[i].depth == page.depth + 1
  {
    seq(|web.links(page.address)|, i requires 0 <= i < |web.links(page.address)| =>
      Page(web.links(page.address)[i], page.depth + 1))
  }

  /** The message recorded when a page cannot be fetched. */
  function FailureMessage(address: string): (m: string)
    ensures |m| > |address| && m[|m| - |address|..] == address
  {
    "An error occurred while accessing " + address
  }

  function Max(a: int, b: int): int
  {
    if a >= b then a else b
  }

  /** The inner loop over a fetched page's links: while links remain and the frontier holds
      fewer than maxLinks pages, a link that is neither visited nor pending is appended.
      Only links are added, never beyond maxLinks entries, and none that is visited; with
      the intended pending test no address is added twice. */
  function Expand(c: PendingCheck, links: seq<Page>, f: seq<Page>, visited: seq<string>, maxLinks: int): (f': seq<Page>)
    ensures |f| <= |f'| && f'[..|f|] == f
    ensures |f'| <= Max(|f|, maxLinks)
    ensures forall i :: |f| <= i < |f'| ==> f'[i] in links && f'[i].address !in visited
    ensures c == Intended && DistinctAddresses(f) ==> DistinctAddresses(f')
    ensures c == Intended ==> forall i :: |f| <= i < |f'| ==> !Pending(f, f'[i].address)
    decreases |links|
  {
    if links == [] || |f| >= maxLinks then f
    else
      var link := links[0];
      if link.address !in visited && !IsPending(c, f, link) then
        Expand(c, links[1..], f + [link], visited, maxLinks)
      else
        Expand(c, links[1..], f, visited, maxLinks)
  }

  /** One pass of the inner loop, at link i: the link is appended when it is neither visited
      nor pending, and the walk goes on with the next link. */
  lemma ExpandAt(c: PendingCheck, links: seq<Page>, i: nat, f: seq<Page>, visited: seq<string>, maxLinks: int)
    requires i < |links| && |f| < maxLinks
    ensures Expand(c, links[i..], f, visited, maxLinks)
         == if links[i].address !in visited && !IsPending(c, f, links[i])
            then Expand(c, links[i + 1..], f + [links[i]], visited, maxLinks)
            else Expand(c, links[i + 1..], f, visited, maxLinks)
  {
    assert links[i..][1..] == links[i + 1..];
  }

  /** A page pending in a frontier stays pending in any frontier that extends it. */
  lemma PendingExtends(f: seq<Page>, f': seq<Page>, address: string)
    requires |f| <= |f'| && f'[..|f|] == f && Pending(f, address)
    ensures Pending(f', address)
  {
    var i :| 0 <= i < |f| && f[i].address == address;
    assert f'[i] == f'[..|f|][i];
  }

  /** The other half of Expand: unless the walk stopped at maxLinks, every link that is
      not visited ends up pending, either because it already was or because it was
      appended. This holds for either pending test; with the written one every unvisited
      link is appended. */
  lemma {:induction false} ExpandComplete(c: PendingCheck, links: seq<Page>, f: seq<Page>, visited: seq<string>, maxLinks: int)
    ensures var f' := Expand(c, links, f, visited, maxLinks);
      |f'| < maxLinks ==> forall l :: l in links && l.address !in visited ==> Pending(f', l.address)
    decreases |links|
  {
    var f' := Expand(c, links, f, visited, maxLinks);
    if links != [] && |f| < maxLinks {
      var link := links[0];
      var f1 := if link.address !in visited && !IsPending(c, f, link) then f + [link] else f;
      assert f' == Expand(c, links[1..], f1, visited, maxLinks);
      ExpandComplete(c, links[1..], f1, visited, maxLinks);
      if |f'| < maxLinks && link.address !in visited {
        assert Pending(f1, link.address) by {
          if f1 != f {
            assert f1[|f|] == link;
          }
        }
        PendingExtends(f1, f', link.address);
      }
      forall l | l in links && l.address !in visited && |f'| < maxLinks
        ensures Pending(f', l.address)
      {
        if l != link {
          assert l in links[1..];
        }
      }
    }
  }

  /** a can be obtained from b by leaving elements out: its elements occur in b in the
      same order. */
  predicate Subsequence(a: seq<Page>, b: seq<Page>)
    decreases |b|
  {
    a == [] || (b != [] && ((a[0] == b[0] && Subsequence(a[1..], b[1..])) || Subsequence(a, b[1..])))
  }

  /** The inner loop appends links in the order the page lists them. */
  lemma {:induction false} ExpandKeepsLinkOrder(c: PendingCheck, links: seq<Page>, f: seq<Page>, visited: seq<string>, maxLinks: int)
    ensures var f' := Expand(c, links, f, visited, maxLinks);
      Subsequence(f'[|f|..], links)
    decreases |links|
  {
    var f' := Expand(c, links, f, visited, maxLinks);
    if links != [] && |f| < maxLinks {
      var link := links[0];
      if link.address !in visited && !IsPending(c, f, link) {
        ExpandKeepsLinkOrder(c, links[1..], f + [link], visited, maxLinks);
        assert f'[|f|..][0] == link && f'[|f|..][1..] == f'[|f + [link]|..];
      } else {
        ExpandKeepsLinkOrder(c, links[1..], f, visited, maxLinks);
      }
    }
  }

  /** One iteration of the loop body: take the next page, advance the sequence number,
      and either record a failure, or mark the page visited, record whether it matched
      and, below the depth limit, expand its links. */
  function Step(cfg: Config, st: State): (st': State)
    requires st.frontier != []
    ensures st'.session == st.session.(visited := st'.session.visited, results := st'.session.results,
                                       sequence := st'.session.sequence)
  {
    var (page, rest) := Take(cfg.discipline, st.frontier);
    var s1 := NextPage(st.session);
    if cfg.web.fetchOk(page.address) then
      var s2 := MarkVisited(s1, page.address);
      var s3 := RecordSuccess(s2, page, cfg.web.containsText(page.address, s2.keyword));
      if page.depth < s3.maxDepth then
        State(s3, Expand(cfg.check, Children(cfg.web, page), rest, s3.visited, s3.maxLinks))
      else
        State(s3, rest)
    else
      State(RecordFailure(s1, page, FailureMessage(page.address)), rest)
  }

  /** What one step does to the session: the sequence number goes up by one and exactly one
      record is appended, for the page taken and with the new sequence number; a fetched
      page is marked visited and recorded with its match outcome and no error message, a
      page that cannot be fetched is recorded with the failure message and not marked
      visited. */
  lemma StepRecords(cfg: Config, st: State)
    requires st.frontier != []
    ensures var page, s, s' := Take(cfg.discipline, st.frontier).0, st.session, Step(cfg, st).session;
      var r := s'.results[|s.results|];
      && s'.sequence == s.sequence + 1
      && |s'.results| == |s.results| + 1 && s'.results[..|s.results|] == s.results
      && r.GetPage() == page && r.GetSequence() == s'.sequence
      && (cfg.web.fetchOk(page.address) ==>
            s'.visited == s.visited + [page.address]
            && r.GetErrorMessage() == "" && r.IsMatch() == cfg.web.containsText(page.address, s.keyword))
      && (!cfg.web.fetchOk(page.address) ==>
            s'.visited == s.visited && r == WithError(page, s'.sequence, FailureMessage(page.address)))
  {
  }

  /** What one step does to the frontier: the rest stays in front, in order; behind it come
      only children of the page taken, in link order, at most as many as keep the frontier within maxLinks, and
      only when the page was fetched and lies above the depth limit. */
  lemma StepFrontier(cfg: Config, st: State)
    requires st.frontier != []
    ensures var (page, rest) := Take(cfg.discipline, st.frontier);
      var f' := Step(cfg, st).frontier;
      && |rest| <= |f'| <= Max(|rest|, st.session.maxLinks) && f'[..|rest|] == rest
      && (forall i :: |rest| <= i < |f'| ==> f'[i].depth == page.depth + 1 && f'[i] in Children(cfg.web, page))
      && (|f'| > |rest| ==> cfg.web.fetchOk(page.address) && page.depth < st.session.maxDepth)
      && Subsequence(f'[|rest|..], Children(cfg.web, page))
  {
    var (page, rest) := Take(cfg.discipline, st.frontier);
    if cfg.web.fetchOk(page.address) && page.depth < st.session.maxDepth {
      var s3 := Step(cfg, st).session;
      ExpandKeepsLinkOrder(cfg.check, Children(cfg.web, page), rest, s3.visited, s3.maxLinks);
    } else {
      assert Step(cfg, st).frontier[|rest|..] == [];
    }
  }

  /** What one step must add: when a fetched page lies above the depth limit and the
      frontier ends below maxLinks, every address the page links to is pending afterwards,
      unless it is the page's own address or was visited before. */
  lemma StepEnqueuesLinks(cfg: Config, st: State)
    requires st.frontier != []
    ensures var page := Take(cfg.discipline, st.frontier).0;
      var f' := Step(cfg, st).frontier;
      cfg.web.fetchOk(page.address) && page.depth < st.session.maxDepth && |f'| < st.session.maxLinks ==>
        forall a :: a in cfg.web.links(page.address) && a != page.address && a !in st.session.visited ==>
          Pending(f', a)
  {
    var (page, rest) := Take(cfg.discipline, st.frontier);
    var f' := Step(cfg, st).frontier;
    if cfg.web.fetchOk(page.address) && page.depth < st.session.maxDepth {
      var visited := st.session.visited + [page.address];
      var cs := Children(cfg.web, page);
      assert f' == Expand(cfg.check, cs, rest, visited, st.session.maxLinks);
      ExpandComplete(cfg.check, cs, rest, visited, st.session.maxLinks);
      forall a | a in cfg.web.links(page.address) && a != page.address && a !in st.session.visited && |f'| < st.session.maxLinks
        ensures Pending(f', a)
      {
        var i :| 0 <= i < |cfg.web.links(page.address)| && cfg.web.links(page.address)[i] == a;
        assert cs[i] in cs && cs[i].address == a;
      }
    }
  }

  /** The stop flag as the loop condition sees it at its k-th evaluation. */
  function Poll(cfg: Config, k: nat, s: Session): (s': Session)
    ensures s'.stopRequested == (s.stopRequested || cfg.stopAt(k))
    ensures s' == s.(stopRequested := s'.stopRequested)
  {
    if cfg.stopAt(k) then RequestStop(s) else s
  }

  /** The loop, from its k-th evaluation of the condition on: it runs until the frontier
      is empty or a stop is requested, and it changes neither keyword nor limits. */
  function Run(cfg: Config, k: nat, st: State): (r: State)
    ensures r.frontier == [] || r.session.stopRequested
    ensures r.session.keyword == st.session.keyword && r.session.crawling == st.session.crawling
    ensures r.session.maxDepth == st.session.maxDepth && r.session.maxLinks == st.session.maxLinks
    decreases Measure(st.session.maxDepth, st.session.maxLinks, st.frontier)
  {
    var s := Poll(cfg, k, st.session);
    if st.frontier == [] || s.stopRequested then
      State(s, st.frontier)
    else
      StepDecreases(cfg, State(s, st.frontier));
      Run(cfg, k + 1, Step(cfg, State(s, st.frontier)))
  }

  /** The seed page built from the start address. */
  function Seed(address: string): (p: Page)
    ensures p.address == address && p.depth == 0
  {
    Page(address, 0)
  }

  /** search(address): mark crawling, put the seed behind whatever is pending, run the
      loop, and clear the crawling flag. */
  function SearchSpec(cfg: Config, s: Session, pagesToVisit: seq<Page>, address: string): (r: State)
    ensures !r.session.crawling
    ensures r.frontier == [] || r.session.stopRequested
  {
    var run := Run(cfg, 0, State(s.(crawling := true), pagesToVisit + [Seed(address)]));
    State(run.session.(crawling := false), run.frontier)
  }

  // ---------------------------------------------------------------------------
  // Termination. A pending page of depth d weighs (K+1)^(D-d) below the depth limit D,
  // where K = max(maxLinks, 0), and 1 otherwise. A step removes one page; if it expands
  // the page (depth d < D) it adds at most K pages of weight (K+1)^(D-d-1), which weigh
  // less than the page removed.

  function Pow(b: nat, e: nat): (r: nat)
    ensures b >= 1 ==> r >= 1
  {
    if e == 0 then 1 else b * Pow(b, e - 1)
  }

  function Weight(maxDepth: int, maxLinks: int, p: Page): nat
  {
    Pow(Max(maxLinks, 0) + 1, if p.depth < maxDepth then maxDepth - p.depth else 0)
  }

  function Measure(maxDepth: int, maxLinks: int, f: seq<Page>): nat
  {
    if f == [] then 0 else Measure(maxDepth, maxLinks, f[..|f| - 1]) + Weight(maxDepth, maxLinks, f[|f| - 1])
  }

  lemma {:induction false} MeasureAppend(maxDepth: int, maxLinks: int, f: seq<Page>, g: seq<Page>)
    ensures Measure(maxDepth, maxLinks, f + g) == Measure(maxDepth, maxLinks, f) + Measure(maxDepth, maxLinks, g)
    decreases |g|
  {
    if g != [] {
      assert (f + g)[..|f + g| - 1] == f + g[..|g| - 1];
      MeasureAppend(maxDepth, maxLinks, f, g[..|g| - 1]);
    } else {
      assert f + g == f;
    }
  }

  lemma {:induction false} MeasureUniform(maxDepth: int, maxLinks: int, g: seq<Page>, w: nat)
    requires forall i :: 0 <= i < |g| ==> Weight(maxDepth, maxLinks, g[i]) == w
    ensures Measure(maxDepth, maxLinks, g) == |g| * w
    decreases |g|
  {
    if g != [] {
      MeasureUniform(maxDepth, maxLinks, g[..|g| - 1], w);
    }
  }

  lemma MulMono(a: nat, b: nat, c: nat)
    requires a <= b
    ensures a * c <= b * c
  {
  }

  /** Removing the next page takes exactly that page's weight off the measure. */
  lemma MeasureTake(maxDepth: int, maxLinks: int, d: Discipline, f: seq<Page>)
    requires f != []
    ensures Measure(maxDepth, maxLinks, f)
         == Measure(maxDepth, maxLinks, Take(d, f).1) + Weight(maxDepth, maxLinks, Take(d, f).0)
  {
    var (page, rest) := Take(d, f);
    assert Measure(maxDepth, maxLinks, [page]) == Weight(maxDepth, maxLinks, page) by {
      assert [page][..0] == [];
    }
    match d
    case Fifo => MeasureAppend(maxDepth, maxLinks, [page], rest);
    case Lifo => MeasureAppend(maxDepth, maxLinks, rest, [page]);
  }

  /** At most K children of a page below the depth limit weigh less than the page. */
  lemma ChildrenWeighLess(maxDepth: int, maxLinks: int, page: Page, added: seq<Page>)
    requires page.depth < maxDepth && |added| <= Max(maxLinks, 0)
    requires forall i :: 0 <= i < |added| ==> added[i].depth == page.depth + 1
    ensures Measure(maxDepth, maxLinks, added) < Weight(maxDepth, maxLinks, page)
  {
    var b := Max(maxLinks, 0) + 1;
    var w := Pow(b, maxDepth - page.depth - 1);
    forall i | 0 <= i < |added|
      ensures Weight(maxDepth, maxLinks, added[i]) == w
    {
    }
    MeasureUniform(maxDepth, maxLinks, added, w);
    MulMono(|added|, Max(maxLinks, 0), w);
    assert Weight(maxDepth, maxLinks, page) == b * w;
  }

  /** Replacing the next page by at most K of its children, one level deeper and only
      when it lies above the depth limit, decreases the measure. */
  lemma FrontierDecreases(D: int, K: int, d: Discipline, f: seq<Page>, f': seq<Page>)
    requires f != []
    requires var (page, rest) := Take(d, f);
      && |rest| <= |f'| <= Max(|rest|, K) && f'[..|rest|] == rest
      && (forall i :: |rest| <= i < |f'| ==> f'[i].depth == page.depth + 1)
      && (|f'| > |rest| ==> page.depth < D)
    ensures Measure(D, K, f') < Measure(D, K, f)
  {
    var (page, rest) := Take(d, f);
    var added := f'[|rest|..];
    assert f' == rest + added;
    MeasureAppend(D, K, rest, added);
    MeasureTake(D, K, d, f);
    if |added| > 0 {
      forall i | 0 <= i < |added|
        ensures added[i].depth == page.depth + 1
      {
        assert added[i] == f'[|rest| + i];
      }
      ChildrenWeighLess(D, K, page, added);
    }
  }

  /** A step decreases the measure, so the loop terminates. */
  lemma StepDecreases(cfg: Config, st: State)
    requires st.frontier != []
    ensures Measure(st.session.maxDepth, st.session.maxLinks, Step(cfg, st).frontier)
          < Measure(st.session.maxDepth, st.session.maxLinks, st.frontier)
  {
    StepFrontier(cfg, st);
    FrontierDecreases(st.session.maxDepth, st.session.maxLinks, cfg.discipline, st.frontier, Step(cfg, st).frontier);
  }
}
