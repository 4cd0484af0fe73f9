/** What the search loop promises, proved about the specification in module Traversal:
    sequence numbering, the seed coming first, the bound on the frontier, the depth limit,
    duplicate suppression, queue and stack order, stopping and recovery from failed fetches. */
module TraversalProperties {
  import opened CrawlResults
  import opened Sessions
  import opened Frontiers
  import opened Traversal

  /** The pages of a list of records, in record order. */
  function Attempted(rs: seq<CrawlResult>): (ps: seq<Page>)
    ensures |ps| == |rs| && forall i :: 0 <= i < |rs| ==> ps[i] == rs[i].GetPage()
  {
    seq(|rs|, i requires 0 <= i < |rs| => rs[i].GetPage())
  }

  /** The addresses of the records made on the success path, in record order. */
  function FetchedAddresses(rs: seq<CrawlResult>): seq<string>
  {
    if rs == [] then []
    else
      var r := rs[|rs| - 1];
      FetchedAddresses(rs[..|rs| - 1]) + (if r.GetErrorMessage() == "" then [r.GetPage().address] else [])
  }

  predicate Distinct(v: seq<string>)
  {
    forall i, j :: 0 <= i < j < |v| ==> v[i] != v[j]
  }

  // ---------------------------------------------------------------------------
  // Sequence numbering

  /** The loop only appends to the result list, one record per attempt, numbered on from
      the sequence counter: the i-th new record carries counter + i + 1. */
  lemma {:induction false} RunNumbersAttempts(cfg: Config, k: nat, st: State)
    ensures var r, n := Run(cfg, k, st), |st.session.results|;
      && n <= |r.session.results| && r.session.results[..n] == st.session.results
      && |r.session.results| - n == r.session.sequence - st.session.sequence
      && forall i :: n <= i < |r.session.results| ==>
           r.session.results[i].GetSequence() == st.session.sequence + (i - n) + 1
    decreases Measure(st.session.maxDepth, st.session.maxLinks, st.frontier)
  {
    var s := Poll(cfg, k, st.session);
    if st.frontier != [] && !s.stopRequested {
      var st1 := Step(cfg, State(s, st.frontier));
      StepDecreases(cfg, State(s, st.frontier));
      StepRecords(cfg, State(s, st.frontier));
      RunNumbersAttempts(cfg, k + 1, st1);
      var n := |st.session.results|;
      var rs, rs1 := Run(cfg, k, st).session.results, st1.session.results;
      assert rs == Run(cfg, k + 1, st1).session.results;
      assert rs[..n + 1] == rs1;
      assert rs[..n] == rs1[..n];
      forall i | n <= i < |rs|
        ensures rs[i].GetSequence() == st.session.sequence + (i - n) + 1
      {
        if i == n {
          assert rs[n] == rs1[n];
        }
      }
    }
  }

  /** A search started with an empty frontier runs the loop from the seed alone. */
  lemma SearchFromSeed(cfg: Config, s: Session, address: string)
    ensures var run := Run(cfg, 0, State(s.(crawling := true), [Seed(address)]));
      SearchSpec(cfg, s, [], address) == State(run.session.(crawling := false), run.frontier)
  {
    assert [] + [Seed(address)] == [Seed(address)];
  }

  /** A search by a new crawler with an empty result list numbers its records 1, 2, 3, ...
      in append order, and the record count equals the final sequence number. */
  lemma SearchNumbersFromOne(cfg: Config, s: Session, address: string)
    requires s.results == [] && s.sequence == 0
    ensures var r := SearchSpec(cfg, s, [], address).session;
      && |r.results| == r.sequence
      && forall i :: 0 <= i < |r.results| ==> r.results[i].GetSequence() == i + 1
  {
    SearchFromSeed(cfg, s, address);
    RunNumbersAttempts(cfg, 0, State(s.(crawling := true), [Seed(address)]));
  }

  /** Unless a stop is already requested, the first page a new crawler attempts is the
      seed, at depth 0, and its record carries sequence number 1. */
  lemma SeedIsAttemptedFirst(cfg: Config, s: Session, address: string)
    requires s.results == [] && s.sequence == 0
    requires !s.stopRequested && !cfg.stopAt(0)
    ensures var r := SearchSpec(cfg, s, [], address).session;
      |r.results| >= 1 && r.results[0].GetPage() == Page(address, 0) && r.results[0].GetSequence() == 1
  {
    SearchFromSeed(cfg, s, address);
    var st0 := State(s.(crawling := true), [Seed(address)]);
    var st1 := Step(cfg, st0);
    StepRecords(cfg, st0);
    assert Run(cfg, 0, st0) == Run(cfg, 1, st1);
    RunNumbersAttempts(cfg, 1, st1);
    assert Run(cfg, 1, st1).session.results[..1] == st1.session.results;
  }

  // ---------------------------------------------------------------------------
  // The frontier bound

  /** The frontier never holds more than max(1, maxLinks) pages. */
  predicate Bounded(st: State)
  {
    |st.frontier| <= Max(1, st.session.maxLinks)
  }

  lemma StepKeepsBound(cfg: Config, st: State)
    requires st.frontier != [] && Bounded(st)
    ensures Bounded(Step(cfg, st))
  {
    StepFrontier(cfg, st);
  }

  lemma {:induction false} RunKeepsBound(cfg: Config, k: nat, st: State)
    requires Bounded(st)
    ensures Bounded(Run(cfg, k, st))
    decreases Measure(st.session.maxDepth, st.session.maxLinks, st.frontier)
  {
    var s := Poll(cfg, k, st.session);
    if st.frontier != [] && !s.stopRequested {
      StepDecreases(cfg, State(s, st.frontier));
      StepKeepsBound(cfg, State(s, st.frontier));
      RunKeepsBound(cfg, k + 1, Step(cfg, State(s, st.frontier)));
    }
  }

  /** A search started with an empty frontier keeps within the bound. */
  lemma SearchKeepsBound(cfg: Config, s: Session, address: string)
    ensures Bounded(SearchSpec(cfg, s, [], address))
  {
    SearchFromSeed(cfg, s, address);
    RunKeepsBound(cfg, 0, State(s.(crawling := true), [Seed(address)]));
  }

  // ---------------------------------------------------------------------------
  // The depth limit

  /** A page at or beyond maxDepth adds nothing to the frontier. */
  lemma NoExpansionAtMaxDepth(cfg: Config, st: State)
    requires st.frontier != [] && Take(cfg.discipline, st.frontier).0.depth >= st.session.maxDepth
    ensures Step(cfg, st).frontier == Take(cfg.discipline, st.frontier).1
  {
    StepFrontier(cfg, st);
  }

  /** With maxDepth at most 0 only the seed is attempted. */
  lemma DepthZeroAttemptsOnlySeed(cfg: Config, s: Session, address: string)
    requires s.maxDepth <= 0
    ensures var r := SearchSpec(cfg, s, [], address);
      && |s.results| <= |r.session.results| <= |s.results| + 1
      && r.session.results[..|s.results|] == s.results
      && (|r.session.results| == |s.results| + 1 ==> r.session.results[|s.results|].GetPage() == Seed(address))
  {
    SearchFromSeed(cfg, s, address);
    var st0 := State(s.(crawling := true), [Seed(address)]);
    var s0 := Poll(cfg, 0, st0.session);
    if !s0.stopRequested {
      var st1 := Step(cfg, State(s0, st0.frontier));
      StepFrontier(cfg, State(s0, st0.frontier));
      StepRecords(cfg, State(s0, st0.frontier));
      assert st1.frontier == [];
      assert Run(cfg, 0, st0) == Run(cfg, 1, st1);
    }
  }

  // ---------------------------------------------------------------------------
  // Duplicate suppression, with the intended pending test

  /** No two pending pages share an address, no pending page has been visited, and no
      address has been visited twice. */
  predicate Deduplicated(st: State)
  {
    && DistinctAddresses(st.frontier)
    && Distinct(st.session.visited)
    && forall i :: 0 <= i < |st.frontier| ==> st.frontier[i].address !in st.session.visited
  }

  /** The visited list holds exactly the addresses of the success records, in order. */
  predicate VisitedMatchesRecords(s: Session)
  {
    FetchedAddresses(s.results) == s.visited
  }

  lemma TakeKeepsDistinct(d: Discipline, f: seq<Page>)
    requires f != [] && DistinctAddresses(f)
    ensures var (page, rest) := Take(d, f);
      DistinctAddresses(rest) && !Pending(rest, page.address)
  {
    var (page, rest) := Take(d, f);
    forall i | 0 <= i < |rest|
      ensures rest[i].address != page.address
    {
      match d
      case Fifo => assert f[0] == page && f[i + 1] == rest[i];
      case Lifo => assert f[|f| - 1] == page && f[i] == rest[i];
    }
    forall i, j | 0 <= i < j < |rest|
      ensures rest[i].address != rest[j].address
    {
      match d
      case Fifo => assert f[i + 1] == rest[i] && f[j + 1] == rest[j];
      case Lifo => assert f[i] == rest[i] && f[j] == rest[j];
    }
  }

  lemma StepKeepsDeduplicated(cfg: Config, st: State)
    requires cfg.check == Intended && st.frontier != [] && Deduplicated(st)
    ensures Deduplicated(Step(cfg, st))
  {
    var (page, rest) := Take(cfg.discipline, st.frontier);
    var v := st.session.visited;
    TakeLeavesUnvisited(cfg.discipline, st);
    if cfg.web.fetchOk(page.address) {
      var s3 := RecordSuccess(MarkVisited(NextPage(st.session), page.address), page,
                              cfg.web.containsText(page.address, st.session.keyword));
      assert s3.visited == v + [page.address];
      DistinctAppend(v, page.address);
      assert forall i :: 0 <= i < |rest| ==> rest[i].address !in s3.visited;
      ExpandKeepsUnvisited(Children(cfg.web, page), rest, s3.visited, s3.maxLinks);
    }
  }

  /** Taking a page from a deduplicated frontier leaves distinct, unvisited pages none of
      which shares the taken page's address, and the taken page is itself unvisited. */
  lemma TakeLeavesUnvisited(d: Discipline, st: State)
    requires st.frontier != [] && Deduplicated(st)
    ensures var (page, rest) := Take(d, st.frontier);
      && page.address !in st.session.visited && DistinctAddresses(rest)
      && forall i :: 0 <= i < |rest| ==> rest[i].address !in st.session.visited && rest[i].address != page.address
  {
    var (page, rest) := Take(d, st.frontier);
    TakeKeepsDistinct(d, st.frontier);
    forall i | 0 <= i < |rest|
      ensures rest[i].address !in st.session.visited
    {
      match d
      case Fifo => assert rest[i] == st.frontier[i + 1];
      case Lifo => assert rest[i] == st.frontier[i];
    }
    match d
    case Fifo => assert page == st.frontier[0];
    case Lifo => assert page == st.frontier[|st.frontier| - 1];
  }

  lemma DistinctAppend(v: seq<string>, a: string)
    requires Distinct(v) && a !in v
    ensures Distinct(v + [a])
  {
  }

  /** With the intended test, expanding an unvisited frontier of distinct addresses keeps it
      so. */
  lemma ExpandKeepsUnvisited(links: seq<Page>, rest: seq<Page>, visited: seq<string>, maxLinks: int)
    requires DistinctAddresses(rest) && forall i :: 0 <= i < |rest| ==> rest[i].address !in visited
    ensures var f' := Expand(Intended, links, rest, visited, maxLinks);
      DistinctAddresses(f') && forall i :: 0 <= i < |f'| ==> f'[i].address !in visited
  {
    var f' := Expand(Intended, links, rest, visited, maxLinks);
    forall i | 0 <= i < |f'|
      ensures f'[i].address !in visited
    {
      if i < |rest| {
        assert f'[i] == f'[..|rest|][i];
      }
    }
  }

  lemma FetchedAddressesAppend(rs: seq<CrawlResult>, r: CrawlResult)
    ensures FetchedAddresses(rs + [r])
         == FetchedAddresses(rs) + (if r.GetErrorMessage() == "" then [r.GetPage().address] else [])
  {
    assert (rs + [r])[..|rs|] == rs;
  }

  lemma StepKeepsVisitedMatchesRecords(cfg: Config, st: State)
    requires st.frontier != [] && VisitedMatchesRecords(st.session)
    ensures VisitedMatchesRecords(Step(cfg, st).session)
  {
    var s' := Step(cfg, st).session;
    var n := |st.session.results|;
    StepRecords(cfg, st);
    assert s'.results == st.session.results + [s'.results[n]];
    FetchedAddressesAppend(st.session.results, s'.results[n]);
  }

  lemma {:induction false} RunKeepsDeduplicated(cfg: Config, k: nat, st: State)
    requires cfg.check == Intended && Deduplicated(st) && VisitedMatchesRecords(st.session)
    ensures Deduplicated(Run(cfg, k, st)) && VisitedMatchesRecords(Run(cfg, k, st).session)
    decreases Measure(st.session.maxDepth, st.session.maxLinks, st.frontier)
  {
    var s := Poll(cfg, k, st.session);
    if st.frontier != [] && !s.stopRequested {
      StepDecreases(cfg, State(s, st.frontier));
      StepKeepsDeduplicated(cfg, State(s, st.frontier));
      StepKeepsVisitedMatchesRecords(cfg, State(s, st.frontier));
      RunKeepsDeduplicated(cfg, k + 1, Step(cfg, State(s, st.frontier)));
    }
  }

  /** In a search by a new crawler, no address is fetched successfully twice, the visited
      list holds exactly the successfully fetched addresses, and no address is pending twice. */
  lemma SearchFetchesEachAddressOnce(cfg: Config, s: Session, address: string)
    requires cfg.check == Intended && s.visited == [] && s.results == []
    ensures var r := SearchSpec(cfg, s, [], address);
      && Distinct(FetchedAddresses(r.session.results))
      && FetchedAddresses(r.session.results) == r.session.visited
      && DistinctAddresses(r.frontier)
  {
    SearchFromSeed(cfg, s, address);
    RunKeepsDeduplicated(cfg, 0, State(s.(crawling := true), [Seed(address)]));
  }

  // ---------------------------------------------------------------------------
  // Removal order

  /** Breadth-first: the pages pending when the loop is entered are attempted first and in
      their order, before any page enqueued later. */
  lemma {:induction false} QueueAttemptsPendingFirst(cfg: Config, k: nat, st: State)
    requires cfg.discipline == Fifo
    ensures var r, n := Run(cfg, k, st), |st.session.results|;
      n <= |r.session.results| && st.frontier <= Attempted(r.session.results[n..]) + r.frontier
    decreases Measure(st.session.maxDepth, st.session.maxLinks, st.frontier)
  {
    RunNumbersAttempts(cfg, k, st);
    var s := Poll(cfg, k, st.session);
    if st.frontier != [] && !s.stopRequested {
      var st1 := Step(cfg, State(s, st.frontier));
      StepDecreases(cfg, State(s, st.frontier));
      StepRecords(cfg, State(s, st.frontier));
      StepFrontier(cfg, State(s, st.frontier));
      QueueAttemptsPendingFirst(cfg, k + 1, st1);
      RunNumbersAttempts(cfg, k + 1, st1);
      var r, n := Run(cfg, k, st), |st.session.results|;
      assert r == Run(cfg, k + 1, st1);
      var rs := r.session.results;
      var (page, rest) := Take(Fifo, st.frontier);
      assert rs[n] == rs[..n + 1][n] == st1.session.results[n];
      assert rest <= st1.frontier;
      QueuePrefixStep(rs, n, page, rest, st1.frontier, r.frontier);
    }
  }

  /** The page attempted first and the rest of the queue behind it stay a prefix of what is
      attempted and left over. */
  lemma QueuePrefixStep(rs: seq<CrawlResult>, n: nat, page: Page, rest: seq<Page>, f1: seq<Page>, tail: seq<Page>)
    requires n < |rs| && rs[n].GetPage() == page
    requires rest <= f1 && f1 <= Attempted(rs[n + 1..]) + tail
    ensures [page] + rest <= Attempted(rs[n..]) + tail
  {
    AttemptedFrom(rs, n);
    PrefixExtend(page, rest, f1, Attempted(rs[n + 1..]) + tail);
    assert Attempted(rs[n..]) + tail == [page] + (Attempted(rs[n + 1..]) + tail);
  }

  lemma AttemptedFrom(rs: seq<CrawlResult>, n: nat)
    requires n < |rs|
    ensures Attempted(rs[n..]) == [rs[n].GetPage()] + Attempted(rs[n + 1..])
  {
  }

  lemma PrefixExtend(p: Page, a: seq<Page>, b: seq<Page>, c: seq<Page>)
    requires a <= b && b <= c
    ensures [p] + a <= [p] + c
  {
    assert ([p] + c)[..|[p] + a|] == [p] + c[..|a|];
  }

  /** Depths in a queue never decrease from front to back and differ by at most one. */
  predicate Layered(f: seq<Page>)
  {
    forall i, j :: 0 <= i < j < |f| ==> f[i].depth <= f[j].depth <= f[i].depth + 1
  }

  lemma QueueStepKeepsLayered(cfg: Config, st: State)
    requires cfg.discipline == Fifo && st.frontier != [] && Layered(st.frontier)
    ensures Layered(Step(cfg, st).frontier)
    ensures forall i :: 0 <= i < |Step(cfg, st).frontier| ==> Step(cfg, st).frontier[i].depth >= st.frontier[0].depth
  {
    var (page, rest) := Take(Fifo, st.frontier);
    var f' := Step(cfg, st).frontier;
    StepFrontier(cfg, st);
    forall i | 0 <= i < |f'|
      ensures page.depth <= f'[i].depth <= page.depth + 1
    {
      if i < |rest| {
        assert f'[i] == st.frontier[i + 1];
      }
    }
    forall i, j | 0 <= i < j < |f'|
      ensures f'[i].depth <= f'[j].depth <= f'[i].depth + 1
    {
      if j < |rest| {
        assert f'[i] == st.frontier[i + 1] && f'[j] == st.frontier[j + 1];
      }
    }
  }

  /** The records from index n on are in order of nondecreasing depth. */
  predicate DepthOrdered(rs: seq<CrawlResult>, n: nat)
  {
    forall i, j :: n <= i < j < |rs| ==> rs[i].GetPage().depth <= rs[j].GetPage().depth
  }

  /** The records from index n on are at depth d or deeper. */
  predicate DepthAtLeast(rs: seq<CrawlResult>, n: nat, d: nat)
  {
    forall i :: n <= i < |rs| ==> d <= rs[i].GetPage().depth
  }

  /** Breadth-first: pages are attempted in order of nondecreasing depth, so every page of
      depth d comes before any of depth d + 1, and none is shallower than the page at the
      head of the queue. */
  lemma {:induction false} QueueAttemptsByDepth(cfg: Config, k: nat, st: State)
    requires cfg.discipline == Fifo && Layered(st.frontier)
    ensures var r, n := Run(cfg, k, st), |st.session.results|;
      && n <= |r.session.results|
      && DepthOrdered(r.session.results, n)
      && (|r.session.results| > n ==> st.frontier != [] && DepthAtLeast(r.session.results, n, st.frontier[0].depth))
    decreases Measure(st.session.maxDepth, st.session.maxLinks, st.frontier)
  {
    var s := Poll(cfg, k, st.session);
    if st.frontier != [] && !s.stopRequested {
      var st1 := Step(cfg, State(s, st.frontier));
      StepDecreases(cfg, State(s, st.frontier));
      var r, n, d := Run(cfg, k, st), |st.session.results|, st.frontier[0].depth;
      assert r == Run(cfg, k + 1, st1);
      assert n < |r.session.results| && r.session.results[n].GetPage().depth == d by {
        StepRecords(cfg, State(s, st.frontier));
        RunNumbersAttempts(cfg, k + 1, st1);
        assert r.session.results[n] == st1.session.results[n];
      }
      assert DepthOrdered(r.session.results, n + 1) && DepthAtLeast(r.session.results, n + 1, d) by {
        StepRecords(cfg, State(s, st.frontier));
        QueueStepKeepsLayered(cfg, State(s, st.frontier));
        QueueAttemptsByDepth(cfg, k + 1, st1);
      }
      DepthOrderExtend(r.session.results, n, d);
    }
  }

  /** Prepending an attempt at the least depth keeps the attempts ordered by depth. */
  lemma DepthOrderExtend(rs: seq<CrawlResult>, n: nat, d: nat)
    requires n < |rs| && rs[n].GetPage().depth == d
    requires DepthOrdered(rs, n + 1) && DepthAtLeast(rs, n + 1, d)
    ensures DepthOrdered(rs, n) && DepthAtLeast(rs, n, d)
  {
  }

  /** Depth-first: when a step pushes links and no stop intervenes, the next page attempted
      is the last link pushed. */
  lemma StackAttemptsLastPushedNext(cfg: Config, k: nat, st: State)
    requires cfg.discipline == Lifo && st.frontier != []
    requires !Poll(cfg, k, st.session).stopRequested && !cfg.stopAt(k + 1)
    requires |Step(cfg, State(Poll(cfg, k, st.session), st.frontier)).frontier| > |st.frontier| - 1
    ensures var st1, r, n := Step(cfg, State(Poll(cfg, k, st.session), st.frontier)), Run(cfg, k, st), |st.session.results|;
      |r.session.results| >= n + 2 && r.session.results[n + 1].GetPage() == st1.frontier[|st1.frontier| - 1]
  {
    var st1 := Step(cfg, State(Poll(cfg, k, st.session), st.frontier));
    var st2 := Step(cfg, State(Poll(cfg, k + 1, st1.session), st1.frontier));
    StepRecords(cfg, State(Poll(cfg, k + 1, st1.session), st1.frontier));
    assert Run(cfg, k, st) == Run(cfg, k + 1, st1) == Run(cfg, k + 2, st2);
    RunNumbersAttempts(cfg, k + 2, st2);
    var n := |st.session.results|;
    assert Run(cfg, k + 2, st2).session.results[..n + 2] == st2.session.results;
    assert st2.session.results[n + 1] == Run(cfg, k + 2, st2).session.results[n + 1];
  }

  /** Depth-first: a pass that starts with more than the pages of base on the stack, base
      at its bottom, leaves base at the bottom, since the page taken is the top one and
      pushed links go on top. */
  lemma StackStepKeepsBase(cfg: Config, st: State, base: seq<Page>)
    requires cfg.discipline == Lifo && base <= st.frontier && |base| < |st.frontier|
    ensures base <= Step(cfg, st).frontier
  {
    var rest := Take(Lifo, st.frontier).1;
    var f' := Step(cfg, st).frontier;
    StepFrontier(cfg, st);
    assert base <= rest by {
      assert rest[..|base|] == st.frontier[..|base|];
    }
    assert f'[..|base|] == rest[..|base|];
  }

  /** The loop from its k-th condition evaluation on, run only while more than b pages are
      pending: it hands back the evaluation count and the state at which the stack has
      shrunk to b pages, or a stop is seen, or it never went above b. */
  function Unwind(cfg: Config, k: nat, st: State, b: nat): (r: (nat, State))
    ensures k <= r.0
    ensures Run(cfg, k, st) == Run(cfg, r.0, r.1)
    ensures |r.1.frontier| <= b || Poll(cfg, r.0, r.1.session).stopRequested
    decreases Measure(st.session.maxDepth, st.session.maxLinks, st.frontier)
  {
    var s := Poll(cfg, k, st.session);
    if |st.frontier| <= b || s.stopRequested then (k, st)
    else
      StepDecreases(cfg, State(s, st.frontier));
      Unwind(cfg, k + 1, Step(cfg, State(s, st.frontier)), b)
  }

  /** Depth-first: the pages below the top of the stack stay at its bottom, untouched, until
      everything pushed above them has been attempted and the stack has shrunk back to
      them; only then, unless a stop intervenes, is the top of them attempted next. The
      records made meanwhile are appended to the ones before. */
  lemma {:induction false} StackUnwindsToBase(cfg: Config, k: nat, st: State, base: seq<Page>)
    requires cfg.discipline == Lifo && base <= st.frontier
    ensures var (k', mid) := Unwind(cfg, k, st, |base|);
      var r, n := Run(cfg, k, st), |mid.session.results|;
      && base <= mid.frontier
      && (mid.frontier == base || Poll(cfg, k', mid.session).stopRequested)
      && |st.session.results| <= n && mid.session.results[..|st.session.results|] == st.session.results
      && (base != [] && !Poll(cfg, k', mid.session).stopRequested ==>
            n < |r.session.results| && r.session.results[n].GetPage() == base[|base| - 1])
    decreases Measure(st.session.maxDepth, st.session.maxLinks, st.frontier)
  {
    var s := Poll(cfg, k, st.session);
    if |st.frontier| <= |base| || s.stopRequested {
      if base != [] && !s.stopRequested {
        assert st.frontier == base;
        var st1 := Step(cfg, State(s, st.frontier));
        StepRecords(cfg, State(s, st.frontier));
        RunNumbersAttempts(cfg, k + 1, st1);
        var rs := Run(cfg, k + 1, st1).session.results;
        assert rs[..|st1.session.results|] == st1.session.results;
        assert rs[|st.session.results|] == st1.session.results[|st.session.results|];
      }
    } else {
      var st1 := Step(cfg, State(s, st.frontier));
      StepDecreases(cfg, State(s, st.frontier));
      StackStepKeepsBase(cfg, State(s, st.frontier), base);
      StepRecords(cfg, State(s, st.frontier));
      StackUnwindsToBase(cfg, k + 1, st1, base);
      var mid := Unwind(cfg, k + 1, st1, |base|).1;
      var n0 := |st.session.results|;
      assert mid.session.results[..n0] == mid.session.results[..n0 + 1][..n0];
    }
  }

  // ---------------------------------------------------------------------------
  // Stopping and failures

  /** A stop request seen at the loop condition ends the loop before another page is
      removed: no record is added and the frontier is left as it is. */
  lemma StopHaltsBeforeNextAttempt(cfg: Config, k: nat, st: State)
    requires cfg.stopAt(k) || st.session.stopRequested
    ensures Run(cfg, k, st) == State(RequestStop(st.session), st.frontier)
  {
  }

  /** A failed fetch records a failure with that attempt's sequence number, does not mark
      the address visited, expands nothing, and the loop goes on with the rest of the
      frontier. */
  lemma FailureIsNotFatal(cfg: Config, k: nat, st: State)
    requires st.frontier != [] && !Poll(cfg, k, st.session).stopRequested
    requires !cfg.web.fetchOk(Take(cfg.discipline, st.frontier).0.address)
    ensures var (page, rest) := Take(cfg.discipline, st.frontier);
      var st1 := Step(cfg, State(Poll(cfg, k, st.session), st.frontier));
      && st1.session.visited == st.session.visited && st1.frontier == rest
      && st1.session.results == st.session.results + [WithError(page, st.session.sequence + 1, FailureMessage(page.address))]
      && Run(cfg, k, st) == Run(cfg, k + 1, st1)
  {
    var st1 := Step(cfg, State(Poll(cfg, k, st.session), st.frontier));
    var n := |st.session.results|;
    StepRecords(cfg, State(Poll(cfg, k, st.session), st.frontier));
    StepFrontier(cfg, State(Poll(cfg, k, st.session), st.frontier));
    assert st1.session.results == st1.session.results[..n] + [st1.session.results[n]];
  }
}
