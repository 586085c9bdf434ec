/**
 * The paginated download (`download_handles`): pages `start .. start+count-1`
 * of the prefix's handle listing are requested in order, every handle is
 * appended to the output with a one-based global counter, the run stops
 * right after the first page whose last counter reaches the reported
 * `totalCount`, and it pauses between pages but not after the last one.
 *
 * The handle server is an oracle: a function from page index to the page it
 * returns. Every request succeeds in this model.
 */
module Download {
  import opened Events

  /** One page as the server returns it: its handles and `totalCount`, already parsed to an integer. */
  datatype PageResult = PageResult(handles: seq<string>, totalCount: nat)

  /** The server's answer for every page index, for a fixed prefix and page size. */
  type Server = int -> PageResult

  /** One-based counter of the first handle on `page`. */
  function First(page: int, size: int): (counter: int) {
    page * size + 1
  }

  /** The loop's stop test: the counter of the page's last handle reaches `totalCount`. */
  predicate Exhausted(server: Server, size: int, page: int) {
    First(page, size) + |server(page).handles| - 1 >= server(page).totalCount
  }

  /** The last page a run that has reached `page` will fetch: the first exhausted page, or `stop - 1`. */
  function LastPage(server: Server, size: int, page: int, stop: int): (last: int)
    requires page < stop
    ensures page <= last < stop
    ensures forall q :: page <= q < last ==> !Exhausted(server, size, q)
    ensures Exhausted(server, size, last) || last == stop - 1
    decreases stop - page
  {
    if Exhausted(server, size, page) || page == stop - 1 then page
    else LastPage(server, size, page + 1, stop)
  }

  /**
   * How many pages a run fetches: none for `count <= 0`, otherwise at least one
   * and at most `count`, fewer than `count` only when the last one fetched is
   * exhausted, and no page before the last is exhausted.
   */
  function FetchCount(server: Server, size: int, start: int, count: int): (k: nat)
    ensures count <= 0 ==> k == 0
    ensures count > 0 ==> 1 <= k <= count
    ensures forall p :: start <= p < start + k - 1 ==> !Exhausted(server, size, p)
    ensures 0 < k < count ==> Exhausted(server, size, start + k - 1)
  {
    if count <= 0 then 0 else LastPage(server, size, start, start + count) - start + 1
  }

  /** The (counter, handle) pairs of one page's lines, counted from `first`. */
  function Numbered(first: int, handles: seq<string>): (lines: seq<(int, string)>)
    ensures |lines| == |handles|
  {
    seq(|handles|, i requires 0 <= i < |handles| => (first + i, handles[i]))
  }

  /** The events of writing one page's numbered lines. */
  function PageLines(first: int, handles: seq<string>): (t: seq<Event>) {
    Writes(Numbered(first, handles))
  }

  lemma PageLinesSnoc(first: int, handles: seq<string>, i: nat)
    requires i < |handles|
    ensures PageLines(first, handles[..i + 1]) == PageLines(first, handles[..i]) + [Write(first + i, handles[i])]
  {
  }

  /** Page `page` of a run whose last fetched page is `last`: the request, its lines, and a pause unless it is the last. */
  function PageEvents(server: Server, size: int, page: int, last: int): (t: seq<Event>) {
    [FetchPage(page)] + PageLines(First(page, size), server(page).handles)
      + (if page < last then [Sleep] else [])
  }

  /** Pages `start .. q-1` of a run whose last fetched page is `last`. */
  function PagesUpTo(server: Server, size: int, start: int, q: int, last: int): (t: seq<Event>)
    decreases q - start
  {
    if q <= start then [] else PagesUpTo(server, size, start, q - 1, last) + PageEvents(server, size, q - 1, last)
  }

  /** The whole run: the first FetchCount pages from `start`, a pause after all but the last. */
  function DownloadRun(server: Server, size: int, start: int, count: int): (t: seq<Event>) {
    var k := FetchCount(server, size, start, count);
    PagesUpTo(server, size, start, start + k, start + k - 1)
  }

  /** The inner loop of `download_handles`: one line per handle, the counter running on from `first`. */
  method WritePage(first: int, handles: seq<string>) returns (lines: seq<Event>)
    ensures lines == PageLines(first, handles)
  {
    lines := [];
    var idx := 0;
    while idx < |handles|
      invariant 0 <= idx <= |handles|
      invariant lines == PageLines(first, handles[..idx])
    {
      PageLinesSnoc(first, handles, idx);
      lines := lines + [Write(first + idx, handles[idx])];
      idx := idx + 1;
    }
    assert handles[..idx] == handles;
  }

  /** `download_handles`: the events of one run. */
  method DownloadHandles(server: Server, start: int, count: int, size: int) returns (trace: seq<Event>)
    ensures trace == DownloadRun(server, size, start, count)
  {
    trace := [];
    var stop := start + count;
    ghost var k := FetchCount(server, size, start, count);
    var page := start;
    while page < stop
      invariant start <= page <= start + k
      invariant page < start + k || page >= stop
      invariant trace == PagesUpTo(server, size, start, page, start + k - 1)
    {
      var first := page * size + 1;
      var result := server(page);
      var lines := WritePage(first, result.handles);
      var events := [FetchPage(page)] + lines;
      assert first == First(page, size);
      var last := first + |result.handles| - 1;
      if last >= result.totalCount {
        assert Exhausted(server, size, page);
        assert events == PageEvents(server, size, page, start + k - 1);
        trace := trace + events;
        break;
      }
      if page < stop - 1 {
        events := events + [Sleep];
      }
      assert events == PageEvents(server, size, page, start + k - 1);
      trace := trace + events;
      page := page + 1;
    }
  }

  // Properties of a run

  /** The handle column of the output, counters stripped. */
  function Texts(lines: seq<(int, string)>): (texts: seq<string>) {
    seq(|lines|, i requires 0 <= i < |lines| => lines[i].1)
  }

  /** What the server lists on pages `lo .. hi-1`, in page order. */
  function Listing(server: Server, lo: int, hi: int): (handles: seq<string>)
    decreases hi - lo
  {
    if hi <= lo then [] else Listing(server, lo, hi - 1) + server(hi - 1).handles
  }

  /** Every handle at offset `j` of every page `p` in `lo .. hi-1` is among `lines` with counter `First(p, size) + j`. */
  ghost predicate AllNumbered(lines: seq<(int, string)>, server: Server, size: int, lo: int, hi: int) {
    forall p, j :: lo <= p < hi && 0 <= j < |server(p).handles|
                   ==> (First(p, size) + j, server(p).handles[j]) in lines
  }

  /** Counters strictly increase from one output line to the next. */
  predicate Increasing(lines: seq<(int, string)>) {
    forall i, j :: 0 <= i < j < |lines| ==> lines[i].0 < lines[j].0
  }

  lemma PageEventsProject(server: Server, size: int, page: int, last: int)
    ensures Pages(PageEvents(server, size, page, last)) == [page]
    ensures Sleeps(PageEvents(server, size, page, last)) == if page < last then 1 else 0
    ensures Lines(PageEvents(server, size, page, last)) == Numbered(First(page, size), server(page).handles)
  {
    var a: seq<Event> := [FetchPage(page)];
    var b := PageLines(First(page, size), server(page).handles);
    var c: seq<Event> := if page < last then [Sleep] else [];
    WritesProject(Numbered(First(page, size), server(page).handles));
    CollectAppend(a + b, c, PageOf);
    CollectAppend(a, b, PageOf);
    CollectAppend(a + b, c, SleepOf);
    CollectAppend(a, b, SleepOf);
    CollectAppend(a + b, c, LineOf);
    CollectAppend(a, b, LineOf);
  }

  lemma {:induction false} PagesUpToPages(server: Server, size: int, start: int, q: int, last: int)
    requires start <= q
    ensures Pages(PagesUpTo(server, size, start, q, last)) == Range(start, q)
    decreases q - start
  {
    if q > start {
      PagesUpToPages(server, size, start, q - 1, last);
      CollectAppend(PagesUpTo(server, size, start, q - 1, last), PageEvents(server, size, q - 1, last), PageOf);
      PageEventsProject(server, size, q - 1, last);
      RangeSnoc(start, q);
    }
  }

  /**
   * The run requests exactly the pages `start, start+1, ...` in order, as many
   * as FetchCount says: never more than `count`, stopping early only right
   * after an exhausted page, full or not.
   */
  lemma DownloadPagesInOrder(server: Server, size: int, start: int, count: int)
    ensures Pages(DownloadRun(server, size, start, count)) == Range(start, start + FetchCount(server, size, start, count))
  {
    var k := FetchCount(server, size, start, count);
    PagesUpToPages(server, size, start, start + k, start + k - 1);
  }

  lemma {:induction false} PagesUpToSleeps(server: Server, size: int, start: int, q: int, last: int)
    requires start <= q <= last + 1
    ensures Sleeps(PagesUpTo(server, size, start, q, last)) == if q == start then 0 else if q <= last then q - start else q - start - 1
    decreases q - start
  {
    if q > start {
      PagesUpToSleeps(server, size, start, q - 1, last);
      CollectAppend(PagesUpTo(server, size, start, q - 1, last), PageEvents(server, size, q - 1, last), SleepOf);
      PageEventsProject(server, size, q - 1, last);
    }
  }

  /** The run pauses between fetched pages only: one pause fewer than the pages it fetched. */
  lemma DownloadSleeps(server: Server, size: int, start: int, count: int)
    ensures var k := FetchCount(server, size, start, count);
      Sleeps(DownloadRun(server, size, start, count)) == if k == 0 then 0 else k - 1
  {
    var k := FetchCount(server, size, start, count);
    PagesUpToSleeps(server, size, start, start + k, start + k - 1);
  }

  lemma TextsAppend(a: seq<(int, string)>, b: seq<(int, string)>)
    ensures Texts(a + b) == Texts(a) + Texts(b)
  {
  }

  lemma {:induction false} PagesUpToListing(server: Server, size: int, start: int, q: int, last: int)
    requires start <= q
    ensures Texts(Lines(PagesUpTo(server, size, start, q, last))) == Listing(server, start, q)
    decreases q - start
  {
    if q > start {
      var prev := PagesUpTo(server, size, start, q - 1, last);
      var page := PageEvents(server, size, q - 1, last);
      PagesUpToListing(server, size, start, q - 1, last);
      CollectAppend(prev, page, LineOf);
      PageEventsProject(server, size, q - 1, last);
      TextsAppend(Lines(prev), Lines(page));
      assert Texts(Numbered(First(q - 1, size), server(q - 1).handles)) == server(q - 1).handles;
    }
  }

  /** With the counters stripped, the output is exactly what the server listed on the fetched pages. */
  lemma DownloadListing(server: Server, size: int, start: int, count: int)
    ensures Texts(Lines(DownloadRun(server, size, start, count)))
         == Listing(server, start, start + FetchCount(server, size, start, count))
  {
    var k := FetchCount(server, size, start, count);
    PagesUpToListing(server, size, start, start + k, start + k - 1);
  }

  /** The numbered lines of pages `lo .. hi-1`, page after page, each counted from its own `First`. */
  function NumberedPages(server: Server, size: int, lo: int, hi: int): (lines: seq<(int, string)>)
    decreases hi - lo
  {
    if hi <= lo then [] else NumberedPages(server, size, lo, hi - 1) + Numbered(First(hi - 1, size), server(hi - 1).handles)
  }

  lemma {:induction false} PagesUpToLines(server: Server, size: int, start: int, q: int, last: int)
    requires start <= q
    ensures Lines(PagesUpTo(server, size, start, q, last)) == NumberedPages(server, size, start, q)
    decreases q - start
  {
    if q > start {
      var prev := PagesUpTo(server, size, start, q - 1, last);
      var page := PageEvents(server, size, q - 1, last);
      assert PagesUpTo(server, size, start, q, last) == prev + page;
      PagesUpToLines(server, size, start, q - 1, last);
      CollectAppend(prev, page, LineOf);
      PageEventsProject(server, size, q - 1, last);
    }
  }

  /**
   * The output of a run, line by line: the lines of each fetched page in page order,
   * the handle at offset `j` of page `p` with counter `First(p, size) + j`.
   */
  lemma DownloadLines(server: Server, size: int, start: int, count: int)
    ensures Lines(DownloadRun(server, size, start, count))
         == NumberedPages(server, size, start, start + FetchCount(server, size, start, count))
  {
    var k := FetchCount(server, size, start, count);
    PagesUpToLines(server, size, start, start + k, start + k - 1);
  }

  /** Appending page `q - 1`'s numbered lines extends the pages covered by one. */
  lemma AllNumberedSnoc(a: seq<(int, string)>, server: Server, size: int, lo: int, q: int)
    requires lo < q
    requires AllNumbered(a, server, size, lo, q - 1)
    ensures AllNumbered(a + Numbered(First(q - 1, size), server(q - 1).handles), server, size, lo, q)
  {
    var n := Numbered(First(q - 1, size), server(q - 1).handles);
    forall p, j | lo <= p < q && 0 <= j < |server(p).handles|
      ensures (First(p, size) + j, server(p).handles[j]) in a + n
    {
      if p < q - 1 {
        assert (First(p, size) + j, server(p).handles[j]) in a;
      } else {
        assert n[j] == (First(p, size) + j, server(p).handles[j]);
      }
    }
  }

  lemma {:induction false} PagesUpToCounters(server: Server, size: int, start: int, q: int, last: int)
    requires start <= q
    ensures AllNumbered(Lines(PagesUpTo(server, size, start, q, last)), server, size, start, q)
    decreases q - start
  {
    if q > start {
      var prev := PagesUpTo(server, size, start, q - 1, last);
      var page := PageEvents(server, size, q - 1, last);
      assert PagesUpTo(server, size, start, q, last) == prev + page;
      PagesUpToCounters(server, size, start, q - 1, last);
      CollectAppend(prev, page, LineOf);
      PageEventsProject(server, size, q - 1, last);
      AllNumberedSnoc(Lines(prev), server, size, start, q);
    }
  }

  /** Every handle at offset `j` of a fetched page `p` is written with the counter `First(p, size) + j`, that is `p*size + j + 1`. */
  lemma DownloadCounters(server: Server, size: int, start: int, count: int)
    ensures AllNumbered(Lines(DownloadRun(server, size, start, count)), server, size, start,
                        start + FetchCount(server, size, start, count))
  {
    var k := FetchCount(server, size, start, count);
    PagesUpToCounters(server, size, start, start + k, start + k - 1);
  }

  /** No counter in `lines` exceeds `bound`. */
  predicate AllAtMost(lines: seq<(int, string)>, bound: int) {
    forall i :: 0 <= i < |lines| ==> lines[i].0 <= bound
  }

  /** Every counter in `lines` exceeds `bound`. */
  predicate AllAbove(lines: seq<(int, string)>, bound: int) {
    forall i :: 0 <= i < |lines| ==> lines[i].0 > bound
  }

  lemma IncreasingAppend(a: seq<(int, string)>, b: seq<(int, string)>, bound: int)
    requires Increasing(a) && Increasing(b) && AllAtMost(a, bound) && AllAbove(b, bound)
    ensures Increasing(a + b)
  {
    var ab := a + b;
    forall i, j | 0 <= i < j < |ab| ensures ab[i].0 < ab[j].0 {
      if j < |a| {
        assert ab[i] == a[i] && ab[j] == a[j];
      } else if i < |a| {
        assert ab[i] == a[i] && ab[j] == b[j - |a|];
      } else {
        assert ab[i] == b[i - |a|] && ab[j] == b[j - |a|];
      }
    }
  }

  lemma AllAtMostAppend(a: seq<(int, string)>, b: seq<(int, string)>, bound: int)
    requires AllAtMost(a, bound) && AllAtMost(b, bound)
    ensures AllAtMost(a + b, bound)
  {
    var ab := a + b;
    forall i | 0 <= i < |ab| ensures ab[i].0 <= bound {
      if i < |a| {
        assert ab[i] == a[i];
      } else {
        assert ab[i] == b[i - |a|];
      }
    }
  }

  lemma FirstNext(page: int, size: int)
    ensures First(page + 1, size) == First(page, size) + size
  {
    assert (page + 1) * size == page * size + size;
  }

  /** A page with at most `size` handles numbers them after the previous page's range and within its own, increasing. */
  lemma PageCounters(page: int, size: int, handles: seq<string>)
    requires |handles| <= size
    ensures var n := Numbered(First(page, size), handles);
      Increasing(n) && AllAbove(n, First(page, size) - 1) && AllAtMost(n, First(page + 1, size) - 1)
  {
    FirstNext(page, size);
  }

  lemma {:induction false} PagesUpToIncreasing(server: Server, size: int, start: int, q: int, last: int)
    requires start <= q
    requires forall p :: start <= p < q ==> |server(p).handles| <= size
    ensures Increasing(Lines(PagesUpTo(server, size, start, q, last)))
    ensures AllAtMost(Lines(PagesUpTo(server, size, start, q, last)), First(q, size) - 1)
    decreases q - start
  {
    if q > start {
      var prev := PagesUpTo(server, size, start, q - 1, last);
      var page := PageEvents(server, size, q - 1, last);
      assert PagesUpTo(server, size, start, q, last) == prev + page;
      PagesUpToIncreasing(server, size, start, q - 1, last);
      CollectAppend(prev, page, LineOf);
      PageEventsProject(server, size, q - 1, last);
      var a := Lines(prev);
      var b := Numbered(First(q - 1, size), server(q - 1).handles);
      PageCounters(q - 1, size, server(q - 1).handles);
      IncreasingAppend(a, b, First(q - 1, size) - 1);
      FirstNext(q - 1, size);
      assert AllAtMost(a, First(q, size) - 1);
      AllAtMostAppend(a, b, First(q, size) - 1);
    }
  }

  lemma DownloadCountersIncrease(server: Server, size: int, start: int, count: int)
    requires forall p :: start <= p < start + FetchCount(server, size, start, count) ==> |server(p).handles| <= size
    ensures Increasing(Lines(DownloadRun(server, size, start, count)))
  {
    var k := FetchCount(server, size, start, count);
    PagesUpToIncreasing(server, size, start, start + k, start + k - 1);
  }

  /** A server holding 25 handles, served 10 to a page: pages 0 and 1 full, page 2 with five. */
  function Server25(page: int): (result: PageResult) {
    PageResult(seq(if 0 <= page < 2 then 10 else if page == 2 then 5 else 0, i => "h"), 25)
  }

  /**
   * Asked for up to five pages from page 0, the run fetches pages 0, 1 and 2 and no fourth,
   * and writes 10, 10 and 5 lines: 25 in all, the last with counter 25.
   */
  lemma Server25Run()
    ensures FetchCount(Server25, 10, 0, 5) == 3
    ensures Pages(DownloadRun(Server25, 10, 0, 5)) == [0, 1, 2]
    ensures Sleeps(DownloadRun(Server25, 10, 0, 5)) == 2
    ensures |Lines(DownloadRun(Server25, 10, 0, 5))| == 25
    ensures Lines(DownloadRun(Server25, 10, 0, 5))[24].0 == 25
  {
    assert !Exhausted(Server25, 10, 0) && !Exhausted(Server25, 10, 1) && Exhausted(Server25, 10, 2);
    DownloadPagesInOrder(Server25, 10, 0, 5);
    DownloadSleeps(Server25, 10, 0, 5);
    DownloadLines(Server25, 10, 0, 5);
    var two := NumberedPages(Server25, 10, 0, 2);
    var third := Numbered(First(2, 10), Server25(2).handles);
    assert |NumberedPages(Server25, 10, 0, 1)| == 10;
    assert |two| == 20;
    assert NumberedPages(Server25, 10, 0, 3) == two + third;
    assert (two + third)[24] == third[4] == (25, "h");
  }

  /** A server holding exactly two full pages of 10. */
  function Server20(page: int): (result: PageResult) {
    PageResult(seq(if 0 <= page < 2 then 10 else 0, i => "h"), 20)
  }

  /** A full last page ends the run too: no request for an empty third page. */
  lemma Server20Run()
    ensures FetchCount(Server20, 10, 0, 5) == 2
    ensures Pages(DownloadRun(Server20, 10, 0, 5)) == [0, 1]
  {
    assert !Exhausted(Server20, 10, 0) && Exhausted(Server20, 10, 1);
    DownloadPagesInOrder(Server20, 10, 0, 5);
  }
}
