/** The trade-portal scraper: batches with resume, links without duplicates, and a retry pass in place. */
module Portal {
  import opened Outcomes

  datatype Procedure = Procedure(sourceId: int, name: string, steps: seq<string>)

  function Ids(ps: seq<Procedure>): (r: seq<int>)
    ensures |r| == |ps| && forall i | 0 <= i < |ps| :: r[i] == ps[i].sourceId
  {
    if ps == [] then [] else [ps[0].sourceId] + Ids(ps[1..])
  }

  ghost predicate Distinct(ids: seq<int>) {
    forall i, j | 0 <= i < j < |ids| :: ids[i] != ids[j]
  }

  // ----- Batches ---------------------------------------------------------------------------------

  /**
   * One start of the program: how many at once, whether to resume, what scraping yields, after how many saved batches
   * it dies, and whether, with none left, it lives to write the output.
   */
  datatype Start = Start(concurrency: nat, resume: bool, scrape: int -> Procedure, batches: nat, finishes: bool)

  /** Scraping always returns an entry for the id asked for, an empty one on failure. */
  ghost predicate Usable(c: Start) {
    1 <= c.concurrency && forall id :: c.scrape(id).sourceId == id
  }

  function ScrapeAll(ids: seq<int>, scrape: int -> Procedure): seq<Procedure> {
    if ids == [] then [] else [scrape(ids[0])] + ScrapeAll(ids[1..], scrape)
  }

  function Remaining(todo: seq<int>, done: seq<int>): seq<int> {
    if todo == [] then [] else (if todo[0] in done then [] else [todo[0]]) + Remaining(todo[1..], done)
  }

  function BatchSize(remaining: seq<int>, concurrency: nat): (n: nat)
    ensures n <= |remaining|
  {
    if |remaining| < concurrency then |remaining| else concurrency
  }

  /** The results after at most `batches` batches, and the ids still to do. */
  function Batches(results: seq<Procedure>, remaining: seq<int>, c: Start, batches: nat): (seq<Procedure>, seq<int>)
    decreases batches
  {
    if batches == 0 || remaining == [] then (results, remaining)
    else
      var n := BatchSize(remaining, c.concurrency);
      Batches(results + ScrapeAll(remaining[..n], c.scrape), remaining[n..], c, batches - 1)
  }

  /** The saved partial file and the final output, if the run gets that far. */
  datatype Files = Files(partial: Option<seq<Procedure>>, output: Option<seq<Procedure>>)

  function Completed(f: Files, c: Start): seq<Procedure> {
    if c.resume then f.partial.GetOr([]) else []
  }

  function RunOnce(todo: seq<int>, f: Files, c: Start): Files {
    var completed := Completed(f, c);
    var remaining := Remaining(todo, Ids(completed));
    if remaining == [] then (if c.finishes then f.(output := Some(completed)) else f)
    else
      var (results, left) := Batches(completed, remaining, c, c.batches);
      Files(if c.batches == 0 then f.partial else Some(results),
            if left == [] && c.finishes then Some(results) else f.output)
  }

  lemma OneBatch(results: seq<Procedure>, remaining: seq<int>, i: nat, c: Start, batches: nat)
    requires i < |remaining| && 0 < batches
    ensures var n := BatchSize(remaining[i..], c.concurrency);
            && i + n <= |remaining|
            && Batches(results, remaining[i..], c, batches)
               == Batches(results + ScrapeAll(remaining[i..i + n], c.scrape), remaining[i + n..], c, batches - 1)
  {
    var rest, n := remaining[i..], BatchSize(remaining[i..], c.concurrency);
    assert rest[..n] == remaining[i..i + n] && rest[n..] == remaining[i + n..];
  }

  lemma RunOnceWrites(todo: seq<int>, f: Files, c: Start, scraped: seq<Procedure>, left: seq<int>)
    requires Remaining(todo, Ids(Completed(f, c))) != []
    requires Batches(Completed(f, c), Remaining(todo, Ids(Completed(f, c))), c, c.batches) == (scraped, left)
    ensures RunOnce(todo, f, c) == Files(if c.batches == 0 then f.partial else Some(scraped),
                                         if left == [] && c.finishes then Some(scraped) else f.output)
  {
  }

  lemma BatchesEnd(results: seq<Procedure>, rest: seq<int>, c: Start, batches: nat)
    requires rest == [] || batches == 0
    ensures Batches(results, rest, c, batches) == (results, rest)
  {
  }

  class Scraper {
    var partial: Option<seq<Procedure>>
    var output: Option<seq<Procedure>>

    ghost function OnDisk(): Files
      reads this
    {
      Files(partial, output)
    }

    constructor ()
      ensures OnDisk() == Files(None, None)
    {
      partial, output := None, None;
    }

    method Run(todo: seq<int>, c: Start)
      requires Usable(c)
      modifies this
      ensures OnDisk() == RunOnce(todo, old(OnDisk()), c)
    {
      var completed: seq<Procedure> := [];
      if c.resume && partial.Some? {
        completed := partial.value;
      }
      var remaining := Remaining(todo, Ids(completed));
      if remaining == [] {
        if c.finishes {
          output := Some(completed);
        }
        return;
      }
      var results, i := ScrapeBatches(completed, remaining, c);
      RunOnceWrites(todo, old(OnDisk()), c, results, remaining[i..]);
      if i < |remaining| || !c.finishes {
        return;
      }
      output := Some(results);
    }

    /** The batch loop: saves after each batch, and stops when none is left or the program dies. */
    method ScrapeBatches(completed: seq<Procedure>, remaining: seq<int>, c: Start)
      returns (results: seq<Procedure>, i: nat)
      requires Usable(c)
      modifies `partial
      ensures i <= |remaining| && (results, remaining[i..]) == Batches(completed, remaining, c, c.batches)
      ensures partial == if c.batches == 0 || remaining == [] then old(partial) else Some(results)
    {
      ghost var end := Batches(completed, remaining, c, c.batches);
      var saved := 0;
      results, i := completed, 0;
      assert remaining[0..] == remaining;
      while i < |remaining| && saved < c.batches
        invariant i <= |remaining| && saved <= c.batches && (saved == 0 <==> i == 0)
        invariant partial == if saved == 0 then old(partial) else Some(results)
        invariant Batches(results, remaining[i..], c, c.batches - saved) == end
        decreases |remaining| - i
      {
        var n := BatchSize(remaining[i..], c.concurrency);
        OneBatch(results, remaining, i, c, c.batches - saved);
        results := results + ScrapeAll(remaining[i..i + n], c.scrape);
        partial := Some(results);
        i, saved := i + n, saved + 1;
      }
      BatchesEnd(results, remaining[i..], c, c.batches - saved);
    }
  }

  function RunAll(todo: seq<int>, f: Files, starts: seq<Start>): Files
    decreases |starts|
  {
    if starts == [] then f else RunAll(todo, RunOnce(todo, f, starts[0]), starts[1..])
  }

  lemma {:induction false} ScrapedIds(ids: seq<int>, scrape: int -> Procedure)
    requires forall id :: scrape(id).sourceId == id
    ensures Ids(ScrapeAll(ids, scrape)) == ids
  {
    if ids != [] { ScrapedIds(ids[1..], scrape); }
  }

  lemma {:induction false} IdsOfConcat(a: seq<Procedure>, b: seq<Procedure>)
    ensures Ids(a + b) == Ids(a) + Ids(b)
  {
  }

  /** Batches only ever move ids, in order, from the list to the results. */
  lemma {:induction false} BatchesKeepOrder(results: seq<Procedure>, remaining: seq<int>, c: Start, batches: nat)
    requires Usable(c)
    ensures var (r, left) := Batches(results, remaining, c, batches);
            results <= r && Ids(r) + left == Ids(results) + remaining
            && (|remaining| <= batches ==> left == [])
    decreases batches
  {
    if batches > 0 && remaining != [] {
      var n := BatchSize(remaining, c.concurrency);
      var scraped := ScrapeAll(remaining[..n], c.scrape);
      ScrapedIds(remaining[..n], c.scrape);
      IdsOfConcat(results, scraped);
      assert remaining == remaining[..n] + remaining[n..];
      assert Ids(results + scraped) + remaining[n..] == Ids(results) + remaining;
      BatchesKeepOrder(results + scraped, remaining[n..], c, batches - 1);
    }
  }

  lemma {:induction false} ScrapeAllAt(ids: seq<int>, scrape: int -> Procedure)
    ensures |ScrapeAll(ids, scrape)| == |ids|
            && forall k | 0 <= k < |ids| :: ScrapeAll(ids, scrape)[k] == scrape(ids[k])
  {
    if ids != [] { ScrapeAllAt(ids[1..], scrape); }
  }

  /** So many batches of so many at once take what there is, in order, and keep what scraping yields for each id. */
  lemma {:induction false} BatchesScrape(results: seq<Procedure>, remaining: seq<int>, c: Start, batches: nat)
    ensures var r := Batches(results, remaining, c, batches).0;
            && results <= r
            && |r| - |results|
               == (if |remaining| < batches * c.concurrency then |remaining| else batches * c.concurrency)
            && forall k | 0 <= k < |r| - |results| :: r[|results| + k] == c.scrape(remaining[k])
    decreases batches
  {
    if batches > 0 && remaining != [] {
      var n := BatchSize(remaining, c.concurrency);
      ScrapeAllAt(remaining[..n], c.scrape);
      BatchesScrape(results + ScrapeAll(remaining[..n], c.scrape), remaining[n..], c, batches - 1);
      OneBatchMore(batches, c.concurrency);
    }
  }

  lemma OneBatchMore(batches: nat, n: nat)
    requires batches > 0
    ensures batches * n == n + (batches - 1) * n
  {
  }

  lemma {:induction false} RemainingAfterPrefix(todo: seq<int>, k: nat, done: seq<int>)
    requires k <= |todo| && (forall i | 0 <= i < k :: todo[i] in done) && forall i | k <= i < |todo| :: todo[i] !in done
    ensures Remaining(todo, done) == todo[k..]
  {
    if todo != [] {
      RemainingAfterPrefix(todo[1..], if k == 0 then 0 else k - 1, done);
    }
  }

  /** Saved partials are prefixes of the list, and an output is the whole of it. */
  ghost predicate Orderly(todo: seq<int>, f: Files) {
    && (f.partial.Some? ==> Ids(f.partial.value) <= todo)
    && (f.output.Some? ==> Ids(f.output.value) == todo)
  }

  /** What is completed, being a prefix of a list of distinct ids, and what remains make up the list. */
  lemma CompletedAndRemaining(todo: seq<int>, done: seq<int>)
    requires Distinct(todo) && done <= todo
    ensures done + Remaining(todo, done) == todo
  {
    forall i | 0 <= i < |done| ensures todo[i] in done {
      assert done[i] == todo[i];
    }
    RemainingAfterPrefix(todo, |done|, done);
  }

  lemma BatchesAreOrderly(todo: seq<int>, completed: seq<Procedure>, rest: seq<int>, c: Start)
    requires Ids(completed) + rest == todo && Usable(c)
    ensures var (results, left) := Batches(completed, rest, c, c.batches);
            && completed <= results && Ids(results) <= todo
            && (left == [] ==> Ids(results) == todo) && (|todo| <= c.batches ==> left == [])
  {
    BatchesKeepOrder(completed, rest, c, c.batches);
    var (results, left) := Batches(completed, rest, c, c.batches);
    SplitOfList(todo, Ids(results), left);
  }

  lemma SplitOfList(todo: seq<int>, done: seq<int>, left: seq<int>)
    requires done + left == todo
    ensures done <= todo && (left == [] ==> done == todo)
  {
  }

  /** What one start leaves on disk: what was completed stays, and is gone on with. */
  lemma StartGoesOn(todo: seq<int>, f: Files, c: Start)
    requires Distinct(todo) && Ids(Completed(f, c)) <= todo && Usable(c)
    ensures var completed, g := Completed(f, c), RunOnce(todo, f, c);
            && (g.partial == f.partial
                || (g.partial.Some? && completed <= g.partial.value && Ids(g.partial.value) <= todo))
            && (g.output == f.output || (g.output.Some? && completed <= g.output.value && Ids(g.output.value) == todo))
            && (|todo| <= c.batches && c.finishes ==> g.output.Some?)
  {
    var completed := Completed(f, c);
    var rest := Remaining(todo, Ids(completed));
    CompletedAndRemaining(todo, Ids(completed));
    SplitOfList(todo, Ids(completed), rest);
    BatchesAreOrderly(todo, completed, rest, c);
  }

  /** Beyond the completed entries, the saved ones are what scraping yields for the ids of the list, one by one. */
  ghost predicate Scraped(saved: seq<Procedure>, done: nat, todo: seq<int>, scrape: int -> Procedure) {
    |saved| <= |todo| && forall i | done <= i < |saved| :: saved[i] == scrape(todo[i])
  }

  /** A start saves what it scrapes, as many batches of as many as it was given, as far as the list goes. */
  lemma StartScrapes(todo: seq<int>, f: Files, c: Start)
    requires Distinct(todo) && Ids(Completed(f, c)) <= todo && Usable(c)
    ensures var done, g := if c.resume && f.partial.Some? then |f.partial.value| else 0, RunOnce(todo, f, c);
            && (0 < c.batches && done < |todo| ==>
                  && g.partial.Some? && Scraped(g.partial.value, done, todo, c.scrape)
                  && |g.partial.value| == (if |todo| - done < c.batches * c.concurrency then |todo|
                                           else done + c.batches * c.concurrency))
            && (g.output != f.output ==> g.output.Some? && Scraped(g.output.value, done, todo, c.scrape))
            && (c.finishes && |todo| - done <= c.batches * c.concurrency ==>
                  g.output.Some? && |g.output.value| == |todo|)
  {
    var completed := Completed(f, c);
    var rest := Remaining(todo, Ids(completed));
    CompletedAndRemaining(todo, Ids(completed));
    if rest != [] {
      var (results, left) := Batches(completed, rest, c, c.batches);
      BatchesScrapeList(todo, completed, rest, c);
      RunOnceWrites(todo, f, c, results, left);
    }
  }

  lemma BatchesScrapeList(todo: seq<int>, completed: seq<Procedure>, rest: seq<int>, c: Start)
    requires Ids(completed) + rest == todo && Usable(c)
    ensures var (results, left) := Batches(completed, rest, c, c.batches);
            && Scraped(results, |completed|, todo, c.scrape) && |results| + |left| == |todo|
            && |results| == (if |todo| - |completed| < c.batches * c.concurrency then |todo|
                             else |completed| + c.batches * c.concurrency)
  {
    BatchesScrape(completed, rest, c, c.batches);
    BatchesKeepOrder(completed, rest, c, c.batches);
    var (results, left) := Batches(completed, rest, c, c.batches);
    assert |Ids(results)| + |left| == |todo|;
    forall i | |completed| <= i < |results| ensures results[i] == c.scrape(todo[i]) {
      assert results[|completed| + (i - |completed|)] == c.scrape(rest[i - |completed|]);
    }
  }

  lemma RunOnceIsOrderly(todo: seq<int>, f: Files, c: Start)
    requires Distinct(todo) && Orderly(todo, f) && Usable(c)
    ensures Orderly(todo, RunOnce(todo, f, c))
    ensures |todo| <= c.batches && c.finishes ==> RunOnce(todo, f, c).output.Some?
  {
    assert Ids(Completed(f, c)) <= todo;
    StartGoesOn(todo, f, c);
  }

  /**
   * With distinct ids, after any series of crashes and restarts, at any batch sizes, resuming or not, every saved
   * partial is a prefix of the list and every output is each procedure once, in order; a run left alone
   * long enough produces one.
   */
  lemma {:induction false} CrashAndResume(todo: seq<int>, f: Files, starts: seq<Start>, last: Start)
    requires Distinct(todo) && Orderly(todo, f) && (forall c | c in starts :: Usable(c)) && Usable(last)
    requires |todo| <= last.batches && last.finishes
    ensures Orderly(todo, RunAll(todo, f, starts))
    ensures var g := RunOnce(todo, RunAll(todo, f, starts), last); g.output.Some? && Ids(g.output.value) == todo
    decreases |starts|
  {
    if starts == [] {
      RunOnceIsOrderly(todo, f, last);
    } else {
      assert starts[0] in starts && forall c | c in starts[1..] :: c in starts;
      RunOnceIsOrderly(todo, f, starts[0]);
      CrashAndResume(todo, RunOnce(todo, f, starts[0]), starts[1..], last);
    }
  }

  // ----- Step links ------------------------------------------------------------------------------

  datatype Link = Link(url: string, text: string)

  ghost predicate FirstAt(links: seq<Link>, url: string, k: int) {
    0 <= k < |links| && links[k].url == url && forall i | 0 <= i < k :: links[i].url != url
  }

  /** This link is the last one with its url. */
  ghost predicate LastOf(links: seq<Link>, l: Link) {
    exists k :: 0 <= k < |links| && links[k] == l && forall i | k < i < |links| :: links[i].url != l.url
  }

  /** `order` are the urls in the order they first turn up, at the places `from`. */
  ghost predicate FirstOrder(links: seq<Link>, order: seq<string>, from: seq<nat>) {
    && |from| == |order|
    && (forall i | 0 <= i < |links| :: links[i].url in order)
    && (forall i | 0 <= i < |order| :: FirstAt(links, order[i], from[i]))
    && (forall i, j | 0 <= i < j < |order| :: from[i] < from[j])
  }

  lemma OneMoreLink(links: seq<Link>, l: Link, order: seq<string>, from: seq<nat>)
    requires FirstOrder(links, order, from)
    ensures if l.url in order then FirstOrder(links + [l], order, from)
            else FirstOrder(links + [l], order + [l.url], from + [|links|])
  {
    forall u, k | FirstAt(links, u, k) ensures FirstAt(links + [l], u, k) { }
    if l.url !in order {
      assert FirstAt(links + [l], l.url, |links|);
      assert forall i | 0 <= i < |links| :: links[i].url in order && links[i].url in order + [l.url];
    }
  }

  lemma StillLast(links: seq<Link>, l: Link, earlier: Link)
    requires LastOf(links, earlier) && earlier.url != l.url
    ensures LastOf(links + [l], earlier)
  {
    var k :| 0 <= k < |links| && links[k] == earlier && forall i | k < i < |links| :: links[i].url != earlier.url;
    assert (links + [l])[k] == earlier;
  }

  /** A map from url to link, filled in list order: later links replace earlier ones in their place. */
  method MapByUrl(links: seq<Link>) returns (order: seq<string>, latest: map<string, Link>, ghost from: seq<nat>)
    ensures FirstOrder(links, order, from)
    ensures forall u | u in order :: u in latest && latest[u].url == u && LastOf(links, latest[u])
  {
    order, latest, from := [], map[], [];
    for n := 0 to |links|
      invariant FirstOrder(links[..n], order, from)
      invariant forall u :: u in latest <==> u in order
      invariant forall u | u in order :: latest[u].url == u && LastOf(links[..n], latest[u])
    {
      var l := links[n];
      ghost var seen := links[..n];
      assert links[..n + 1] == seen + [l];
      OneMoreLink(seen, l, order, from);
      forall u | u in order && u != l.url ensures LastOf(seen + [l], latest[u]) {
        StillLast(seen, l, latest[u]);
      }
      assert LastOf(seen + [l], l) by { assert (seen + [l])[n] == l; }
      if l.url !in latest {
        order, from := order + [l.url], from + [n];
      }
      latest := latest[l.url := l];
    }
    assert links[..|links|] == links;
  }

  /**
   * One link per url, the last one with it, where the url first turned up among the others; step i + 1 is
   * `steps[i]`.
   */
  method UniqueSteps(links: seq<Link>) returns (steps: seq<Link>, ghost from: seq<nat>)
    ensures FirstOrder(links, Urls(steps), from)
    ensures forall l | l in steps :: LastOf(links, l)
    ensures forall i, j | 0 <= i < j < |steps| :: steps[i].url != steps[j].url
  {
    var order, latest;
    order, latest, from := MapByUrl(links);
    steps := [];
    for i := 0 to |order|
      invariant |steps| == i && forall j | 0 <= j < i :: steps[j] == latest[order[j]] && steps[j].url == order[j]
      invariant forall l | l in steps :: LastOf(links, l)
    {
      assert order[i] in order;
      steps := steps + [latest[order[i]]];
    }
    assert Urls(steps) == order;
    forall i, j | 0 <= i < j < |steps| ensures steps[i].url != steps[j].url {
      assert FirstAt(links, order[i], from[i]) && FirstAt(links, order[j], from[j]);
    }
  }

  function Urls(steps: seq<Link>): (r: seq<string>)
    ensures |r| == |steps| && forall i | 0 <= i < |steps| :: r[i] == steps[i].url
  {
    if steps == [] then [] else [steps[0].url] + Urls(steps[1..])
  }

  // ----- The retry pass --------------------------------------------------------------------------

  predicate Failed(p: Procedure) {
    p.steps == []
  }

  function FailedOnes(all: seq<Procedure>): seq<Procedure> {
    if all == [] then [] else (if Failed(all[0]) then [all[0]] else []) + FailedOnes(all[1..])
  }

  /** findIndex by source id: the first place, or the length when there is none. */
  function IndexOf(all: seq<Procedure>, id: int): (k: nat)
    ensures k <= |all| && (k < |all| ==> all[k].sourceId == id) && forall i | 0 <= i < k :: all[i].sourceId != id
  {
    if all == [] || all[0].sourceId == id then 0 else 1 + IndexOf(all[1..], id)
  }

  function RetryEach(all: seq<Procedure>, failed: seq<Procedure>, again: Procedure -> Option<Procedure>)
    : (r: seq<Procedure>)
    ensures |r| == |all|
    decreases |failed|
  {
    if failed == [] then all
    else
      var updated, k := again(failed[0]), IndexOf(all, failed[0].sourceId);
      RetryEach(if updated.Some? && k < |all| then all[k := updated.value] else all, failed[1..], again)
  }

  method Retry(all: array<Procedure>, again: Procedure -> Option<Procedure>)
    modifies all
    ensures all[..] == RetryEach(old(all[..]), FailedOnes(old(all[..])), again)
  {
    var failed := FailedOnes(all[..]);
    for n := 0 to |failed|
      invariant RetryEach(all[..], failed[n..], again) == RetryEach(old(all[..]), failed, again)
    {
      var proc := failed[n];
      assert failed[n..][0] == proc && failed[n..][1..] == failed[n + 1..];
      var updated := again(proc);
      if updated.Some? {
        var idx := IndexOf(all[..], proc.sourceId);
        if idx < all.Length {
          all[idx] := updated.value;
        }
      }
    }
  }

  lemma {:induction false} FailedMembers(all: seq<Procedure>, p: Procedure)
    ensures p in FailedOnes(all) <==> p in all && Failed(p)
  {
    if all != [] { FailedMembers(all[1..], p); }
  }

  lemma IndexBySameIds(a: seq<Procedure>, b: seq<Procedure>, id: int)
    requires Ids(a) == Ids(b)
    ensures IndexOf(a, id) == IndexOf(b, id)
  {
    var i, j := IndexOf(a, id), IndexOf(b, id);
    assert forall k | 0 <= k < |a| ::
        Ids(a)[k] == Ids(b)[k] && a[k].sourceId == Ids(a)[k] && b[k].sourceId == Ids(b)[k];
  }

  /** Ids and order stay; an entry changes only if it is the first with the id of a procedure retried with success. */
  lemma {:induction false} RetryEachKeeps(all: seq<Procedure>, failed: seq<Procedure>,
                                          again: Procedure -> Option<Procedure>)
    requires forall p :: again(p).Some? ==> again(p).value.sourceId == p.sourceId
    ensures var r := RetryEach(all, failed, again);
            && Ids(r) == Ids(all)
            && forall i | 0 <= i < |all| && r[i] != all[i] ::
                 i == IndexOf(all, all[i].sourceId)
                 && exists p :: p in failed && p.sourceId == all[i].sourceId && again(p).Some?
    decreases |failed|
  {
    if failed != [] {
      var next := RetryOne(all, failed[0], again);
      RetryOneKeeps(all, failed[0], again);
      RetryEachKeeps(next, failed[1..], again);
      var r := RetryEach(all, failed, again);
      assert r == RetryEach(next, failed[1..], again);
      forall i | 0 <= i < |all| && r[i] != all[i]
        ensures i == IndexOf(all, all[i].sourceId)
                && exists q :: q in failed && q.sourceId == all[i].sourceId && again(q).Some?
      {
        IndexBySameIds(next, all, all[i].sourceId);
        assert failed[0] in failed && forall q | q in failed[1..] :: q in failed;
      }
    }
  }

  function RetryOne(all: seq<Procedure>, p: Procedure, again: Procedure -> Option<Procedure>): seq<Procedure> {
    var k := IndexOf(all, p.sourceId);
    if again(p).Some? && k < |all| then all[k := again(p).value] else all
  }

  lemma RetryOneKeeps(all: seq<Procedure>, p: Procedure, again: Procedure -> Option<Procedure>)
    requires again(p).Some? ==> again(p).value.sourceId == p.sourceId
    ensures var next := RetryOne(all, p, again);
            && Ids(next) == Ids(all)
            && forall i | 0 <= i < |all| && next[i] != all[i] ::
                 i == IndexOf(all, all[i].sourceId) && p.sourceId == all[i].sourceId && again(p).Some?
  {
    assert Ids(RetryOne(all, p, again)) == Ids(all);
  }

  ghost predicate DistinctProcedures(all: seq<Procedure>) {
    forall i, j | 0 <= i < j < |all| :: all[i].sourceId != all[j].sourceId
  }

  lemma WhoseRetry(all: seq<Procedure>, failed: seq<Procedure>, again: Procedure -> Option<Procedure>, i: nat)
    returns (p: Procedure)
    requires forall q :: again(q).Some? ==> again(q).value.sourceId == q.sourceId
    requires i < |all| && RetryEach(all, failed, again)[i] != all[i]
    ensures p in failed && p.sourceId == all[i].sourceId
  {
    RetryEachKeeps(all, failed, again);
    p :| p in failed && p.sourceId == all[i].sourceId;
  }

  lemma RetryLeavesOthers(all: seq<Procedure>, failed: seq<Procedure>, again: Procedure -> Option<Procedure>, i: nat)
    requires forall p :: again(p).Some? ==> again(p).value.sourceId == p.sourceId
    requires i < |all| && forall p | p in failed :: p.sourceId != all[i].sourceId
    ensures RetryEach(all, failed, again)[i] == all[i]
  {
    if RetryEach(all, failed, again)[i] != all[i] {
      var p := WhoseRetry(all, failed, again, i);
    }
  }

  lemma FailedHaveOtherIds(all: seq<Procedure>, i: nat, p: Procedure)
    requires DistinctProcedures(all) && i < |all| && !Failed(all[i]) && p in FailedOnes(all)
    ensures p.sourceId != all[i].sourceId
  {
    FailedMembers(all, p);
    var j :| 0 <= j < |all| && all[j] == p;
  }

  /** With distinct ids, a retry pass leaves every procedure that has steps as it was. */
  lemma RetryLeavesGoodOnes(all: seq<Procedure>, again: Procedure -> Option<Procedure>, i: nat)
    requires forall p :: again(p).Some? ==> again(p).value.sourceId == p.sourceId
    requires DistinctProcedures(all) && i < |all| && all[i].steps != []
    ensures RetryEach(all, FailedOnes(all), again)[i] == all[i]
  {
    var failed := FailedOnes(all);
    forall p | p in failed ensures p.sourceId != all[i].sourceId {
      FailedHaveOtherIds(all, i, p);
    }
    RetryLeavesOthers(all, failed, again, i);
  }

  lemma {:induction false} RetryEachReplaces(
    all: seq<Procedure>, failed: seq<Procedure>, again: Procedure -> Option<Procedure>, i: nat, p: Procedure)
    requires forall q :: again(q).Some? ==> again(q).value.sourceId == q.sourceId
    requires DistinctProcedures(all) && DistinctProcedures(failed)
    requires i < |all| && p in failed && p.sourceId == all[i].sourceId
    ensures RetryEach(all, failed, again)[i] == if again(p).Some? then again(p).value else all[i]
    decreases |failed|
  {
    var next := RetryOne(all, failed[0], again);
    RetryOneKeeps(all, failed[0], again);
    assert RetryEach(all, failed, again) == RetryEach(next, failed[1..], again);
    assert forall j | 0 <= j < |all| :: Ids(next)[j] == Ids(all)[j];
    if failed[0] == p {
      assert IndexOf(all, p.sourceId) == i;
      forall q | q in failed[1..] ensures q.sourceId != next[i].sourceId {
        var j :| 0 <= j < |failed[1..]| && failed[1..][j] == q;
        assert failed[j + 1] == q;
      }
      RetryLeavesOthers(next, failed[1..], again, i);
    } else {
      assert p in failed[1..];
      assert failed[0].sourceId != p.sourceId;
      RetryEachReplaces(next, failed[1..], again, i, p);
    }
  }

  lemma {:induction false} FailedAreDistinct(all: seq<Procedure>)
    requires DistinctProcedures(all)
    ensures DistinctProcedures(FailedOnes(all))
  {
    if all != [] {
      assert forall i, j | 0 <= i < j < |all[1..]| :: all[1..][i] == all[i + 1] && all[1..][j] == all[j + 1];
      FailedAreDistinct(all[1..]);
      forall q | q in FailedOnes(all[1..]) ensures q.sourceId != all[0].sourceId {
        FailedMembers(all[1..], q);
        var j :| 0 <= j < |all[1..]| && all[1..][j] == q;
        assert all[j + 1] == q;
      }
    }
  }

  /** With distinct ids, an entry without steps becomes what its retry yields, if it yields anything. */
  lemma RetryReplacesFailed(all: seq<Procedure>, again: Procedure -> Option<Procedure>, i: nat)
    requires forall p :: again(p).Some? ==> again(p).value.sourceId == p.sourceId
    requires DistinctProcedures(all) && i < |all| && all[i].steps == []
    ensures RetryEach(all, FailedOnes(all), again)[i] == if again(all[i]).Some? then again(all[i]).value else all[i]
  {
    FailedMembers(all, all[i]);
    FailedAreDistinct(all);
    RetryEachReplaces(all, FailedOnes(all), again, i, all[i]);
  }
}
