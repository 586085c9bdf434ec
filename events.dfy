/**
 * What a driver run does, step by step: requests to the handle server,
 * lines appended to the output file, and throttle pauses. A run is modelled
 * as the sequence of these events; the projections below pick out one kind.
 */
module Events {

  datatype Event =
    | FetchPage(page: int)                      // GET {server}/api/handles?prefix=..&page=..&pageSize=..
    | FetchHandle(postfix: string)              // GET {server}/api/handles/<prefix>/<postfix>
    | RewriteAlias(alias: string, target: string) // PUT {server}/api/handles/<prefix>/<alias>?index=various
    | Write(counter: int, text: string)         // output line `<counter>;<text>` (Text.OutputLine)
    | Sleep                                     // sleep(throttle)

  /** Maps every event to a (possibly empty) piece and concatenates the pieces in order. */
  function Collect<T>(t: seq<Event>, f: Event -> seq<T>): (r: seq<T>)
  {
    if t == [] then [] else f(t[0]) + Collect(t[1..], f)
  }

  lemma {:induction false} CollectAppend<T>(a: seq<Event>, b: seq<Event>, f: Event -> seq<T>)
    ensures Collect(a + b, f) == Collect(a, f) + Collect(b, f)
  {
    if a == [] {
      assert a + b == b;
    } else {
      assert (a + b)[1..] == a[1..] + b;
      CollectAppend(a[1..], b, f);
    }
  }

  function PageOf(e: Event): (r: seq<int>) {
    if e.FetchPage? then [e.page] else []
  }

  function LineOf(e: Event): (r: seq<(int, string)>) {
    if e.Write? then [(e.counter, e.text)] else []
  }

  function PostfixOf(e: Event): (r: seq<string>) {
    if e.FetchHandle? then [e.postfix] else []
  }

  function RewriteOf(e: Event): (r: seq<(string, string)>) {
    if e.RewriteAlias? then [(e.alias, e.target)] else []
  }

  function SleepOf(e: Event): (r: seq<Event>) {
    if e.Sleep? then [e] else []
  }

  /** The pages requested, in order. */
  function Pages(t: seq<Event>): (pages: seq<int>) {
    Collect(t, PageOf)
  }

  /** The lines appended to the output file, in order, as (counter, text). */
  function Lines(t: seq<Event>): (lines: seq<(int, string)>) {
    Collect(t, LineOf)
  }

  /** The postfixes whose records were requested, in order. */
  function Lookups(t: seq<Event>): (postfixes: seq<string>) {
    Collect(t, PostfixOf)
  }

  /** The (alias, target) rewrites sent, in order. */
  function Rewrites(t: seq<Event>): (pairs: seq<(string, string)>) {
    Collect(t, RewriteOf)
  }

  /** How many throttle pauses the run took. */
  function Sleeps(t: seq<Event>): (k: nat) {
    |Collect(t, SleepOf)|
  }

  /** The events of appending the given (counter, text) lines to the output, in order. */
  function Writes(lines: seq<(int, string)>): (t: seq<Event>)
    ensures |t| == |lines|
  {
    seq(|lines|, i requires 0 <= i < |lines| => Write(lines[i].0, lines[i].1))
  }

  /** Writing lines and reading them back from the events gives the same lines, with no request and no pause. */
  lemma {:induction false} WritesProject(lines: seq<(int, string)>)
    ensures Lines(Writes(lines)) == lines
    ensures Pages(Writes(lines)) == []
    ensures Sleeps(Writes(lines)) == 0
    decreases |lines|
  {
    if lines != [] {
      assert Writes(lines)[1..] == Writes(lines[1..]);
      WritesProject(lines[1..]);
    }
  }

  /** The integers `lo, lo+1, ..., hi-1` (empty when `hi <= lo`), like Python's `range(lo, hi)`. */
  function Range(lo: int, hi: int): (r: seq<int>)
  {
    seq(if hi <= lo then 0 else hi - lo, i => lo + i)
  }

  lemma RangeSnoc(lo: int, hi: int)
    requires lo < hi
    ensures Range(lo, hi) == Range(lo, hi - 1) + [hi - 1]
  {
  }
}
