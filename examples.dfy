/** Small crawls worked out in full: seed A links to B and C, B alone contains the keyword,
    maxDepth 1 and maxLinks 2 (as a caller would set them after creating the crawler). */
module Examples {
  import opened CrawlResults
  import opened Sessions
  import opened Frontiers
  import opened Traversal

  const A := Page("A", 0)
  const B := Page("B", 1)
  const C := Page("C", 1)

  /** A new crawler for keyword "kw" after setMaxDepth(1) and setMaxLinks(2). */
  function Configured(): Session
  {
    Session([], "kw", 1, 2, [], 0, false, false)
  }

  /** In the example webs B alone contains the keyword. */
  function OnlyB(address: string, keyword: string): bool
  {
    address == "B"
  }

  /** A links to B and C; no other page has links. */
  function LinksToBC(address: string): seq<string>
  {
    if address == "A" then ["B", "C"] else []
  }

  /** A links to B twice; no other page has links. */
  function LinksToBTwice(address: string): seq<string>
  {
    if address == "A" then ["B", "B"] else []
  }

  function Reachable(address: string): bool
  {
    true
  }

  /** Every page but C can be fetched. */
  function AllButC(address: string): bool
  {
    address != "C"
  }

  function NeverStop(k: nat): bool
  {
    false
  }

  function ExampleConfig(links: string -> seq<string>, fetchOk: string -> bool, d: Discipline, c: PendingCheck): Config
  {
    Config(Web(fetchOk, links, OnlyB), d, c, NeverStop)
  }

  /** The configured crawler while crawling, after the attempts recorded in rs. */
  function Crawled(visited: seq<string>, rs: seq<CrawlResult>): Session
  {
    Configured().(crawling := true, visited := visited, results := rs, sequence := |rs|)
  }

  /** Expanding A from an empty frontier with A visited enqueues B then C. */
  lemma ExpandA()
    ensures Expand(Intended, [B, C], [], ["A"], 2) == [B, C]
  {
    assert !Pending([], "B");
    assert [B, C][1..] == [C] && [] + [B] == [B];
    assert Expand(Intended, [B, C], [], ["A"], 2) == Expand(Intended, [C], [B], ["A"], 2);
    assert !Pending([B], "C") by {
      assert [B][0].address != "C";
    }
    assert [C][1..] == [] && [B] + [C] == [B, C];
    assert Expand(Intended, [C], [B], ["A"], 2) == Expand(Intended, [], [B, C], ["A"], 2);
  }

  /** The written check enqueues a link listed twice two times. */
  lemma ExpandDuplicateAsWritten()
    ensures Expand(AsWritten, [B, B], [], ["A"], 2) == [B, B]
  {
    assert [B, B][1..] == [B] && [] + [B] == [B];
    assert Expand(AsWritten, [B, B], [], ["A"], 2) == Expand(AsWritten, [B], [B], ["A"], 2);
    assert [B][1..] == [] && [B] + [B] == [B, B];
    assert Expand(AsWritten, [B], [B], ["A"], 2) == Expand(AsWritten, [], [B, B], ["A"], 2);
  }

  /** The intended check enqueues a link listed twice once. */
  lemma ExpandDuplicateIntended()
    ensures Expand(Intended, [B, B], [], ["A"], 2) == [B]
  {
    assert !Pending([], "B");
    assert [B, B][1..] == [B] && [] + [B] == [B];
    assert Expand(Intended, [B, B], [], ["A"], 2) == Expand(Intended, [B], [B], ["A"], 2);
    assert Pending([B], "B") by {
      assert [B][0].address == "B";
    }
    assert [B][1..] == [];
    assert Expand(Intended, [B], [B], ["A"], 2) == Expand(Intended, [], [B], ["A"], 2);
  }

  /** The first attempt is the same in every example: A is fetched, does not match, is
      marked visited, and its links are expanded. */
  lemma FirstStep(cfg: Config)
    requires cfg.web.fetchOk("A") && !cfg.web.containsText("A", "kw")
    ensures Step(cfg, State(Crawled([], []), [A]))
         == State(Crawled(["A"], [WithOutcome(A, 1, false)]), Expand(cfg.check, Children(cfg.web, A), [], ["A"], 2))
  {
  }

  lemma ChildrenOfA(web: Web)
    ensures web.links == LinksToBC ==> Children(web, A) == [B, C]
    ensures web.links == LinksToBTwice ==> Children(web, A) == [B, B]
  {
  }

  /** A later attempt at a page of depth 1 that is fetched: it is recorded with its match
      outcome and marked visited, and nothing is expanded. */
  lemma LeafFetched(cfg: Config, visited: seq<string>, rs: seq<CrawlResult>, f: seq<Page>, page: Page, rest: seq<Page>)
    requires f != [] && Take(cfg.discipline, f) == (page, rest) && page.depth >= 1
    requires cfg.web.fetchOk(page.address)
    ensures Step(cfg, State(Crawled(visited, rs), f))
         == State(Crawled(visited + [page.address],
                          rs + [WithOutcome(page, |rs| + 1, cfg.web.containsText(page.address, "kw"))]), rest)
  {
  }

  /** A later attempt at a page that cannot be fetched: it is recorded with the failure
      message, and nothing is expanded. */
  lemma LeafFailed(cfg: Config, visited: seq<string>, rs: seq<CrawlResult>, f: seq<Page>, page: Page, rest: seq<Page>)
    requires f != [] && Take(cfg.discipline, f) == (page, rest)
    requires !cfg.web.fetchOk(page.address)
    ensures Step(cfg, State(Crawled(visited, rs), f))
         == State(Crawled(visited, rs + [WithError(page, |rs| + 1, FailureMessage(page.address))]), rest)
  {
  }

  /** Without a stop request the loop attempts the next page. */
  lemma RunUnrolls(cfg: Config, k: nat, st: State)
    requires st.frontier != [] && !st.session.stopRequested && !cfg.stopAt(k)
    ensures Run(cfg, k, st) == Run(cfg, k + 1, Step(cfg, st))
  {
  }

  /** The search from A runs the loop from A alone. */
  lemma SearchFromA(cfg: Config)
    ensures SearchSpec(cfg, Configured(), [], "A")
         == var run := Run(cfg, 0, State(Crawled([], []), [A])); State(run.session.(crawling := false), run.frontier)
  {
    assert [] + [Seed("A")] == [A];
    assert Configured().(crawling := true) == Crawled([], []);
  }

  /** The first attempt when A links to B and C: A is recorded and B, C are enqueued. */
  lemma FirstStepToBC(cfg: Config)
    requires cfg.web.links == LinksToBC && cfg.check == Intended
    requires cfg.web.fetchOk("A") && !cfg.web.containsText("A", "kw")
    ensures Step(cfg, State(Crawled([], []), [A])) == State(Crawled(["A"], [WithOutcome(A, 1, false)]), [B, C])
  {
    FirstStep(cfg);
    ChildrenOfA(cfg.web);
    ExpandA();
  }

  /** The first attempt when A links to B twice, with the written check: B is enqueued twice. */
  lemma FirstStepToBTwice(cfg: Config)
    requires cfg.web.links == LinksToBTwice && cfg.check == AsWritten
    requires cfg.web.fetchOk("A") && !cfg.web.containsText("A", "kw")
    ensures Step(cfg, State(Crawled([], []), [A])) == State(Crawled(["A"], [WithOutcome(A, 1, false)]), [B, B])
  {
    FirstStep(cfg);
    ChildrenOfA(cfg.web);
    ExpandDuplicateAsWritten();
  }

  /** Breadth-first, second attempt: B, the oldest pending page, matches. */
  lemma BreadthFirstSecond(cfg: Config)
    requires cfg == ExampleConfig(LinksToBC, Reachable, Fifo, Intended)
    ensures Step(cfg, State(Crawled(["A"], [WithOutcome(A, 1, false)]), [B, C]))
         == State(Crawled(["A"] + ["B"], [WithOutcome(A, 1, false)] + [WithOutcome(B, 2, true)]), [C])
  {
    LeafFetched(cfg, ["A"], [WithOutcome(A, 1, false)], [B, C], B, [C]);
  }

  /** Breadth-first, third attempt: C does not match. */
  lemma BreadthFirstThird(cfg: Config)
    requires cfg == ExampleConfig(LinksToBC, Reachable, Fifo, Intended)
    ensures Step(cfg, State(Crawled(["A"] + ["B"], [WithOutcome(A, 1, false)] + [WithOutcome(B, 2, true)]), [C]))
         == State(Crawled(["A"] + ["B"] + ["C"], [WithOutcome(A, 1, false)] + [WithOutcome(B, 2, true)] + [WithOutcome(C, 3, false)]), [])
  {
    LeafFetched(cfg, ["A"] + ["B"], [WithOutcome(A, 1, false)] + [WithOutcome(B, 2, true)], [C], C, []);
  }

  /** Breadth-first: A (sequence 1, no match), then B (2, match), then C (3, no match). */
  lemma BreadthFirstExample()
    ensures SearchSpec(ExampleConfig(LinksToBC, Reachable, Fifo, Intended), Configured(), [], "A").session.results
         == [WithOutcome(A, 1, false), WithOutcome(B, 2, true), WithOutcome(C, 3, false)]
  {
    var cfg := ExampleConfig(LinksToBC, Reachable, Fifo, Intended);
    FirstStepToBC(cfg);
    BreadthFirstSecond(cfg);
    BreadthFirstThird(cfg);
    RunUnrolls(cfg, 0, State(Crawled([], []), [A]));
    RunUnrolls(cfg, 1, State(Crawled(["A"], [WithOutcome(A, 1, false)]), [B, C]));
    RunUnrolls(cfg, 2, State(Crawled(["A"] + ["B"], [WithOutcome(A, 1, false)] + [WithOutcome(B, 2, true)]), [C]));
    SearchFromA(cfg);
  }

  /** Depth-first, second attempt: C, the newest pending page, does not match. */
  lemma DepthFirstSecond(cfg: Config)
    requires cfg == ExampleConfig(LinksToBC, Reachable, Lifo, Intended)
    ensures Step(cfg, State(Crawled(["A"], [WithOutcome(A, 1, false)]), [B, C]))
         == State(Crawled(["A"] + ["C"], [WithOutcome(A, 1, false)] + [WithOutcome(C, 2, false)]), [B])
  {
    assert [B, C][..1] == [B];
    LeafFetched(cfg, ["A"], [WithOutcome(A, 1, false)], [B, C], C, [B]);
  }

  /** Depth-first, third attempt: B matches. */
  lemma DepthFirstThird(cfg: Config)
    requires cfg == ExampleConfig(LinksToBC, Reachable, Lifo, Intended)
    ensures Step(cfg, State(Crawled(["A"] + ["C"], [WithOutcome(A, 1, false)] + [WithOutcome(C, 2, false)]), [B]))
         == State(Crawled(["A"] + ["C"] + ["B"], [WithOutcome(A, 1, false)] + [WithOutcome(C, 2, false)] + [WithOutcome(B, 3, true)]), [])
  {
    LeafFetched(cfg, ["A"] + ["C"], [WithOutcome(A, 1, false)] + [WithOutcome(C, 2, false)], [B], B, []);
  }

  /** Depth-first: A, then C (the last link pushed), then B. */
  lemma DepthFirstExample()
    ensures SearchSpec(ExampleConfig(LinksToBC, Reachable, Lifo, Intended), Configured(), [], "A").session.results
         == [WithOutcome(A, 1, false), WithOutcome(C, 2, false), WithOutcome(B, 3, true)]
  {
    var cfg := ExampleConfig(LinksToBC, Reachable, Lifo, Intended);
    FirstStepToBC(cfg);
    DepthFirstSecond(cfg);
    DepthFirstThird(cfg);
    RunUnrolls(cfg, 0, State(Crawled([], []), [A]));
    RunUnrolls(cfg, 1, State(Crawled(["A"], [WithOutcome(A, 1, false)]), [B, C]));
    RunUnrolls(cfg, 2, State(Crawled(["A"] + ["C"], [WithOutcome(A, 1, false)] + [WithOutcome(C, 2, false)]), [B]));
    SearchFromA(cfg);
  }

  /** With C unreachable, second attempt: B matches. */
  lemma FailedFetchSecond(cfg: Config)
    requires cfg == ExampleConfig(LinksToBC, AllButC, Fifo, Intended)
    ensures Step(cfg, State(Crawled(["A"], [WithOutcome(A, 1, false)]), [B, C]))
         == State(Crawled(["A"] + ["B"], [WithOutcome(A, 1, false)] + [WithOutcome(B, 2, true)]), [C])
  {
    LeafFetched(cfg, ["A"], [WithOutcome(A, 1, false)], [B, C], B, [C]);
  }

  /** With C unreachable, third attempt: C fails and is recorded with the message. */
  lemma FailedFetchThird(cfg: Config)
    requires cfg == ExampleConfig(LinksToBC, AllButC, Fifo, Intended)
    ensures Step(cfg, State(Crawled(["A"] + ["B"], [WithOutcome(A, 1, false)] + [WithOutcome(B, 2, true)]), [C]))
         == State(Crawled(["A"] + ["B"], [WithOutcome(A, 1, false)] + [WithOutcome(B, 2, true)] + [WithError(C, 3, "An error occurred while accessing C")]), [])
  {
    assert FailureMessage("C") == "An error occurred while accessing C";
    LeafFailed(cfg, ["A"] + ["B"], [WithOutcome(A, 1, false)] + [WithOutcome(B, 2, true)], [C], C, []);
  }

  /** When C cannot be fetched, its record carries the failure message and no match, and the
      crawl still attempts every page. */
  lemma FailedFetchExample()
    ensures SearchSpec(ExampleConfig(LinksToBC, AllButC, Fifo, Intended), Configured(), [], "A").session.results
         == [WithOutcome(A, 1, false), WithOutcome(B, 2, true), WithError(C, 3, "An error occurred while accessing C")]
  {
    var cfg := ExampleConfig(LinksToBC, AllButC, Fifo, Intended);
    FirstStepToBC(cfg);
    FailedFetchSecond(cfg);
    FailedFetchThird(cfg);
    RunUnrolls(cfg, 0, State(Crawled([], []), [A]));
    RunUnrolls(cfg, 1, State(Crawled(["A"], [WithOutcome(A, 1, false)]), [B, C]));
    RunUnrolls(cfg, 2, State(Crawled(["A"] + ["B"], [WithOutcome(A, 1, false)] + [WithOutcome(B, 2, true)]), [C]));
    SearchFromA(cfg);
  }

  /** With the written check, second attempt: the first copy of B. */
  lemma WrittenCheckSecond(cfg: Config)
    requires cfg == ExampleConfig(LinksToBTwice, Reachable, Fifo, AsWritten)
    ensures Step(cfg, State(Crawled(["A"], [WithOutcome(A, 1, false)]), [B, B]))
         == State(Crawled(["A"] + ["B"], [WithOutcome(A, 1, false)] + [WithOutcome(B, 2, true)]), [B])
  {
    assert [B, B][1..] == [B];
    LeafFetched(cfg, ["A"], [WithOutcome(A, 1, false)], [B, B], B, [B]);
  }

  /** With the written check, third attempt: the second copy of B, fetched again. */
  lemma WrittenCheckThird(cfg: Config)
    requires cfg == ExampleConfig(LinksToBTwice, Reachable, Fifo, AsWritten)
    ensures Step(cfg, State(Crawled(["A"] + ["B"], [WithOutcome(A, 1, false)] + [WithOutcome(B, 2, true)]), [B]))
         == State(Crawled(["A"] + ["B"] + ["B"], [WithOutcome(A, 1, false)] + [WithOutcome(B, 2, true)] + [WithOutcome(B, 3, true)]), [])
  {
    LeafFetched(cfg, ["A"] + ["B"], [WithOutcome(A, 1, false)] + [WithOutcome(B, 2, true)], [B], B, []);
  }

  /** With the written check, a link listed twice on A is enqueued twice, and B is fetched
      twice, under sequence numbers 2 and 3. */
  lemma WrittenCheckFetchesTwice()
    ensures SearchSpec(ExampleConfig(LinksToBTwice, Reachable, Fifo, AsWritten), Configured(), [], "A").session.results
         == [WithOutcome(A, 1, false), WithOutcome(B, 2, true), WithOutcome(B, 3, true)]
  {
    var cfg := ExampleConfig(LinksToBTwice, Reachable, Fifo, AsWritten);
    FirstStepToBTwice(cfg);
    WrittenCheckSecond(cfg);
    WrittenCheckThird(cfg);
    RunUnrolls(cfg, 0, State(Crawled([], []), [A]));
    RunUnrolls(cfg, 1, State(Crawled(["A"], [WithOutcome(A, 1, false)]), [B, B]));
    RunUnrolls(cfg, 2, State(Crawled(["A"] + ["B"], [WithOutcome(A, 1, false)] + [WithOutcome(B, 2, true)]), [B]));
    SearchFromA(cfg);
  }

  /** The first attempt when A links to B twice, with the intended check: B is enqueued once. */
  lemma FirstStepToBOnce(cfg: Config)
    requires cfg.web.links == LinksToBTwice && cfg.check == Intended
    requires cfg.web.fetchOk("A") && !cfg.web.containsText("A", "kw")
    ensures Step(cfg, State(Crawled([], []), [A])) == State(Crawled(["A"], [WithOutcome(A, 1, false)]), [B])
  {
    FirstStep(cfg);
    ChildrenOfA(cfg.web);
    ExpandDuplicateIntended();
  }

  /** With the intended check, the duplicate link is enqueued once and B is fetched once. */
  lemma IntendedCheckFetchesOnce()
    ensures SearchSpec(ExampleConfig(LinksToBTwice, Reachable, Fifo, Intended), Configured(), [], "A").session.results
         == [WithOutcome(A, 1, false), WithOutcome(B, 2, true)]
  {
    var cfg := ExampleConfig(LinksToBTwice, Reachable, Fifo, Intended);
    var st0, st1 := State(Crawled([], []), [A]), State(Crawled(["A"], [WithOutcome(A, 1, false)]), [B]);
    var st2 := State(Crawled(["A"] + ["B"], [WithOutcome(A, 1, false)] + [WithOutcome(B, 2, true)]), []);
    FirstStepToBOnce(cfg);
    LeafFetched(cfg, ["A"], [WithOutcome(A, 1, false)], [B], B, []);
    RunUnrolls(cfg, 0, st0);
    RunUnrolls(cfg, 1, st1);
    SearchFromA(cfg);
  }
}
