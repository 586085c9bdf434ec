/**
 * The two CSV-driven batch commands, `get_handles` and `rewrite_aliases`.
 * Both walk the rows of the input file with a 0-based line counter, handle
 * the rows with `start <= line`, stop once `line >= start + count` after a
 * row, and pause after a handled row only when `line < start + count - 1`.
 * `rewrite_aliases` also reports the last line read and where to resume,
 * with -1 ("n/a") when the file ran out before the window was done.
 *
 * The input arrives already split into rows of fields (the `csv` module's
 * quoting is not modelled); the handle record lookup is an oracle.
 */
module Batch {
  import opened Wrappers
  import opened Events

  /** One row of the semicolon-separated input file, already split into fields. */
  type Row = seq<string>

  /** The record `get_handle` returns for a postfix, as it is written to the output. */
  type Records = string -> string

  /**
   * How many rows the reader yields before the loop ends, for a file of `n` rows:
   * the `break` is tested after a row, so reading ends after row `stop - 1`,
   * and never before row 0 has been read.
   */
  function RowsRead(n: nat, stop: int): (r: nat)
    ensures r <= n
    ensures n > 0 ==> r >= 1
    ensures stop >= 1 ==> r == if n < stop then n else stop
  {
    if stop <= 1 then (if n == 0 then 0 else 1) else if n < stop then n else stop
  }

  /** The first line handled: `start`, or line 0 for a negative start; never beyond the rows read. */
  function WindowLo(n: nat, start: int, count: int): (lo: nat)
    ensures lo <= WindowHi(n, start, count)
  {
    var hi := WindowHi(n, start, count);
    if start < 0 then 0 else if start < hi then start else hi
  }

  /** One past the last line handled. */
  function WindowHi(n: nat, start: int, count: int): (hi: nat)
    ensures hi <= n
  {
    RowsRead(n, start + count)
  }

  /** The pause after a handled row: only when it is not the last row of the window. */
  function Throttle(line: int, stop: int): (pause: seq<Event>) {
    if line < stop - 1 then [Sleep] else []
  }

  /** Lines `lo .. q-1`, each as its row's events `ops[line]` and then its pause. */
  function Processed(ops: seq<seq<Event>>, lo: nat, q: nat, stop: int): (t: seq<Event>)
    requires q <= |ops|
    decreases q
  {
    if q <= lo then [] else Processed(ops, lo, q - 1, stop) + ops[q - 1] + Throttle(q - 1, stop)
  }

  /** A batch run over rows whose work is `ops[line]`. */
  function BatchRun(ops: seq<seq<Event>>, start: int, count: int): (t: seq<Event>) {
    Processed(ops, WindowLo(|ops|, start, count), WindowHi(|ops|, start, count), start + count)
  }

  /** Field `k` of every row (empty where a row is too short; such rows are never handled). */
  function Column(rows: seq<Row>, k: nat): (c: seq<string>)
    ensures |c| == |rows|
  {
    seq(|rows|, l requires 0 <= l < |rows| => if k < |rows[l]| then rows[l][k] else "")
  }

  /** The work of `get_handles` for each line: fetch the record, write the line's `HandleLines` entry. */
  function HandleOps(rows: seq<Row>, records: Records): (ops: seq<seq<Event>>)
    ensures |ops| == |rows|
  {
    seq(|rows|, l requires 0 <= l < |rows| =>
      [FetchHandle(Column(rows, 0)[l]), Write(HandleLines(rows, records)[l].0, HandleLines(rows, records)[l].1)])
  }

  /** The work of `rewrite_aliases` for each line: rewrite the first postfix into an alias of the second. */
  function AliasOps(rows: seq<Row>): (ops: seq<seq<Event>>)
    ensures |ops| == |rows|
  {
    seq(|rows|, l requires 0 <= l < |rows| => [RewriteAlias(Column(rows, 0)[l], Column(rows, 1)[l])])
  }

  /** Every row read has at least `width` fields (the destructuring `[a, *_]` or `[a, b, *_]` succeeds). */
  predicate WideEnough(rows: seq<Row>, stop: int, width: nat) {
    forall l :: 0 <= l < RowsRead(|rows|, stop) ==> |rows[l]| >= width
  }

  /** `get_handles`: the events of one run over the input rows. */
  method GetHandles(rows: seq<Row>, records: Records, start: int, count: int) returns (trace: seq<Event>)
    requires WideEnough(rows, start + count, 1)
    ensures trace == BatchRun(HandleOps(rows, records), start, count)
  {
    ghost var ops := HandleOps(rows, records);
    var stop := start + count;
    trace := [];
    var line := 0;
    while line < |rows|
      invariant 0 <= line <= |rows|
      invariant line == 0 || line < stop
      invariant trace == Processed(ops, if start < 0 then 0 else start, line, stop)
    {
      assert line < RowsRead(|rows|, stop);
      var postfix := rows[line][0];
      if line >= start {
        var handle := records(postfix);
        trace := trace + [FetchHandle(postfix), Write(line, handle)];
        if line < stop - 1 {
          trace := trace + [Sleep];
        }
      }
      assert Column(rows, 0)[line] == postfix;
      assert ops[line] == [FetchHandle(postfix), Write(line, records(postfix))];
      line := line + 1;
      if line >= stop {
        break;
      }
    }
    assert line == WindowHi(|rows|, start, count);
    ProcessedFrom(ops, if start < 0 then 0 else start, WindowLo(|rows|, start, count), line, stop);
  }

  /** `rewrite_aliases`: the events of one run, the last line read, and the next start line or -1 at end of file. */
  method RewriteAliases(rows: seq<Row>, start: int, count: int) returns (trace: seq<Event>, last: int, next: int)
    requires WideEnough(rows, start + count, 2)
    ensures trace == BatchRun(AliasOps(rows), start, count)
    ensures last == WindowHi(|rows|, start, count) - 1
    ensures next == if StoppedByCount(|rows|, start, count) then start + count else -1
  {
    ghost var ops := AliasOps(rows);
    var line := 0;
    var stop := start + count;
    trace := [];
    var exhausted := true;
    while line < |rows|
      invariant 0 <= line <= |rows|
      invariant line == 0 || line < stop
      invariant trace == Processed(ops, if start < 0 then 0 else start, line, stop)
    {
      assert line < RowsRead(|rows|, stop);
      var aliasPostfix, targetPostfix := rows[line][0], rows[line][1];
      if line >= start {
        trace := trace + [RewriteAlias(aliasPostfix, targetPostfix)];
        if line < stop - 1 {
          trace := trace + [Sleep];
        }
      }
      assert Column(rows, 0)[line] == aliasPostfix && Column(rows, 1)[line] == targetPostfix;
      assert ops[line] == [RewriteAlias(aliasPostfix, targetPostfix)];
      line := line + 1;
      if line >= stop {
        exhausted := false;
        break;
      }
    }
    if exhausted {
      // for/else: the reader ran out before the window was done
      stop := -1;
    }
    assert line == WindowHi(|rows|, start, count);
    ProcessedFrom(ops, if start < 0 then 0 else start, WindowLo(|rows|, start, count), line, stop);
    last := line - 1;
    next := stop;
  }

  /** The run left the loop by its `break`: the row at line `max(start + count, 1) - 1` exists. */
  predicate StoppedByCount(n: nat, start: int, count: int) {
    (if start + count <= 1 then 1 else start + count) <= n
  }

  /** How the final log line shows `next`: the line to resume from, or "n/a" (None). */
  function ResumeMarker(next: int): (shown: Option<int>) {
    if next > -1 then Some(next) else None
  }

  lemma ProcessedFrom(ops: seq<seq<Event>>, lo: nat, lo': nat, q: nat, stop: int)
    requires q <= |ops|
    requires lo' == if lo < q then lo else q
    ensures Processed(ops, lo, q, stop) == Processed(ops, lo', q, stop)
  {
  }

  // Properties of a run

  /** For a positive count and a non-negative start, the handled lines are those in `[start, start + count)` that the file has. */
  lemma WindowOfCount(n: nat, start: int, count: int)
    requires start >= 0 && count >= 1
    ensures WindowLo(n, start, count) == if start < n then start else n
    ensures WindowHi(n, start, count) == if start + count < n then start + count else n
  {
  }

  /**
   * The corner case of a stop line `start + count` of 1 or less (a count of zero or less,
   * or a negative start): the `break` comes after the first row, so line 0 is still
   * handled when `start <= 0`, and it is the only one.
   */
  lemma WindowOfNoCount(n: nat, start: int, count: int)
    requires start <= 0 && start + count <= 1 && n >= 1
    ensures WindowLo(n, start, count) == 0 && WindowHi(n, start, count) == 1
  {
  }

  lemma CollectPair<T>(a: Event, b: Event, f: Event -> seq<T>)
    ensures Collect([a], f) == f(a)
    ensures Collect([a, b], f) == f(a) + f(b)
  {
    assert [a][1..] == [];
    assert [a, b] == [a] + [b];
    CollectAppend([a], [b], f);
    assert [b][1..] == [];
  }

  lemma ProcessedStep<T>(ops: seq<seq<Event>>, lo: nat, q: nat, stop: int, f: Event -> seq<T>)
    requires lo < q <= |ops|
    ensures Collect(Processed(ops, lo, q, stop), f)
         == Collect(Processed(ops, lo, q - 1, stop), f) + Collect(ops[q - 1], f) + (if q - 1 < stop - 1 then f(Sleep) else [])
  {
    var prev := Processed(ops, lo, q - 1, stop);
    CollectAppend(prev + ops[q - 1], Throttle(q - 1, stop), f);
    CollectAppend(prev, ops[q - 1], f);
    CollectPair(Sleep, Sleep, f);
  }

  lemma SliceSplit<T>(g: seq<T>, lo: nat, mid: nat, hi: nat)
    requires lo <= mid <= hi <= |g|
    ensures g[lo..mid] + g[mid..hi] == g[lo..hi]
  {
  }

  /** `ProcessedStep` for a projection that drops pauses. */
  lemma ProcessedQuietStep<T>(ops: seq<seq<Event>>, lo: nat, q: nat, stop: int, f: Event -> seq<T>)
    requires lo < q <= |ops|
    requires f(Sleep) == []
    ensures Collect(Processed(ops, lo, q, stop), f) == Collect(Processed(ops, lo, q - 1, stop), f) + Collect(ops[q - 1], f)
  {
    ProcessedStep(ops, lo, q, stop, f);
    var a := Collect(Processed(ops, lo, q - 1, stop), f) + Collect(ops[q - 1], f);
    assert a + [] == a;
  }

  /** When each line's work yields exactly one item `g[line]`, the run yields `g` over the window, in file order. */
  lemma {:induction false} ProcessedCollect<T>(ops: seq<seq<Event>>, lo: nat, q: nat, stop: int, f: Event -> seq<T>, g: seq<T>)
    requires q <= |ops| && |g| == |ops|
    requires f(Sleep) == []
    requires lo <= q
    requires forall l {:trigger Collect(ops[l], f)} :: lo <= l < q ==> Collect(ops[l], f) == [g[l]]
    ensures Collect(Processed(ops, lo, q, stop), f) == g[lo..q]
    decreases q
  {
    if q > lo {
      ProcessedCollect(ops, lo, q - 1, stop, f, g);
      ProcessedQuietStep(ops, lo, q, stop, f);
      assert Collect(ops[q - 1], f) == [g[q - 1]];
      SliceSplit(g, lo, q - 1, q);
    } else {
      assert Processed(ops, lo, q, stop) == [];
    }
  }

  /** A run of a batch projects, under a pause-free `f`, onto the window of the per-line values `g`. */
  lemma BatchCollect<T>(ops: seq<seq<Event>>, start: int, count: int, f: Event -> seq<T>, g: seq<T>)
    requires |g| == |ops|
    requires f(Sleep) == []
    requires forall l {:trigger Collect(ops[l], f)} :: 0 <= l < |ops| ==> Collect(ops[l], f) == [g[l]]
    ensures Collect(BatchRun(ops, start, count), f) == g[WindowLo(|ops|, start, count)..WindowHi(|ops|, start, count)]
  {
    var lo, hi := WindowLo(|ops|, start, count), WindowHi(|ops|, start, count);
    assert BatchRun(ops, start, count) == Processed(ops, lo, hi, start + count);
    ProcessedCollect(ops, lo, hi, start + count, f, g);
  }

  /** The number of lines in `lo .. q-1` that are followed by a pause, that is, below `stop - 1`. */
  function ThrottledRows(lo: nat, q: nat, stop: int): (k: nat) {
    var e := if q < stop - 1 then q else stop - 1;
    if e <= lo then 0 else e - lo
  }

  lemma ProcessedSleepsStep(ops: seq<seq<Event>>, lo: nat, q: nat, stop: int)
    requires lo < q <= |ops|
    requires Sleeps(ops[q - 1]) == 0
    ensures Sleeps(Processed(ops, lo, q, stop)) - ThrottledRows(lo, q, stop)
         == Sleeps(Processed(ops, lo, q - 1, stop)) - ThrottledRows(lo, q - 1, stop)
  {
    ProcessedStep(ops, lo, q, stop, SleepOf);
    var a := Collect(Processed(ops, lo, q - 1, stop), SleepOf);
    var b := Collect(ops[q - 1], SleepOf);
    var c := if q - 1 < stop - 1 then SleepOf(Sleep) else [];
    assert |a + b + c| == |a| + |b| + |c|;
  }

  lemma ProcessedSleepsNone(ops: seq<seq<Event>>, lo: nat, q: nat, stop: int)
    requires lo >= q && q <= |ops|
    ensures Sleeps(Processed(ops, lo, q, stop)) == ThrottledRows(lo, q, stop) == 0
  {
    assert Processed(ops, lo, q, stop) == [];
  }

  /** Only the pauses between lines count: a window whose lines pause nowhere holds `ThrottledRows` pauses. */
  lemma {:induction false} ProcessedSleeps(ops: seq<seq<Event>>, lo: nat, q: nat, stop: int)
    requires q <= |ops|
    requires forall l {:trigger Sleeps(ops[l])} :: lo <= l < q ==> Sleeps(ops[l]) == 0
    ensures Sleeps(Processed(ops, lo, q, stop)) == ThrottledRows(lo, q, stop)
    decreases q
  {
    if q > lo {
      ProcessedSleeps(ops, lo, q - 1, stop);
      ProcessedSleepsStep(ops, lo, q, stop);
    } else {
      ProcessedSleepsNone(ops, lo, q, stop);
    }
  }

  /** The last event of a non-empty window is a pause exactly when its last line is below `stop - 1`. */
  lemma ProcessedLast(ops: seq<seq<Event>>, lo: nat, q: nat, stop: int)
    requires lo < q <= |ops|
    requires ops[q - 1] != [] && !ops[q - 1][|ops[q - 1]| - 1].Sleep?
    ensures var t := Processed(ops, lo, q, stop);
      t != [] && (t[|t| - 1] == Sleep <==> q - 1 < stop - 1)
  {
  }

  lemma ThrottledWindow(n: nat, start: int, count: int)
    requires start >= 0 && count >= 1
    ensures ThrottledRows(WindowLo(n, start, count), WindowHi(n, start, count), start + count)
         == if n <= start then 0 else if start + count <= n then count - 1 else n - start
  {
    WindowOfCount(n, start, count);
    if n <= start {
    } else if start + count <= n {
      assert WindowHi(n, start, count) == start + count;
    } else {
      assert WindowHi(n, start, count) == n;
    }
  }

  /** A line's events hold no pause of their own and end in something other than a pause. */
  predicate QuietRow(events: seq<Event>) {
    Sleeps(events) == 0 && events != [] && !events[|events| - 1].Sleep?
  }

  predicate QuietRows(ops: seq<seq<Event>>) {
    forall l {:trigger QuietRow(ops[l])} :: 0 <= l < |ops| ==> QuietRow(ops[l])
  }

  /**
   * With a window given by `start >= 0` and `count >= 1`, a run pauses after every line but
   * the `count`-th, and ends on a pause exactly when the input runs out before that line.
   */
  lemma BatchThrottle(ops: seq<seq<Event>>, start: int, count: int)
    requires start >= 0 && count >= 1
    requires QuietRows(ops)
    ensures var run := BatchRun(ops, start, count);
      && Sleeps(run) == (if |ops| <= start then 0 else if start + count <= |ops| then count - 1 else |ops| - start)
      && (start < |ops| ==> run != [] && (run[|run| - 1] == Sleep <==> |ops| < start + count))
  {
    var n := |ops|;
    var lo, hi := WindowLo(n, start, count), WindowHi(n, start, count);
    assert BatchRun(ops, start, count) == Processed(ops, lo, hi, start + count);
    QuietWindowSleeps(ops, lo, hi, start + count);
    ThrottledWindow(n, start, count);
    if start < n {
      WindowOfCount(n, start, count);
      assert QuietRow(ops[hi - 1]);
      ProcessedLast(ops, lo, hi, start + count);
    }
  }

  lemma QuietWindowSleeps(ops: seq<seq<Event>>, lo: nat, hi: nat, stop: int)
    requires hi <= |ops|
    requires QuietRows(ops)
    ensures Sleeps(Processed(ops, lo, hi, stop)) == ThrottledRows(lo, hi, stop)
  {
    forall l | lo <= l < hi
      ensures Sleeps(ops[l]) == 0
    {
      assert QuietRow(ops[l]);
    }
    ProcessedSleeps(ops, lo, hi, stop);
  }

  /** The record lines `get_handles` writes for each line: the line index, then the record of the row's postfix. */
  function HandleLines(rows: seq<Row>, records: Records): (r: seq<(int, string)>)
    ensures |r| == |rows|
  {
    seq(|rows|, l requires 0 <= l < |rows| => (l, records(Column(rows, 0)[l])))
  }

  lemma HandleOpsAt(rows: seq<Row>, records: Records, l: nat)
    requires l < |rows|
    ensures var ops := HandleOps(rows, records);
      && Collect(ops[l], PostfixOf) == [Column(rows, 0)[l]]
      && Collect(ops[l], LineOf) == [HandleLines(rows, records)[l]]
      && Sleeps(ops[l]) == 0
      && ops[l] != [] && !ops[l][|ops[l]| - 1].Sleep?
  {
    var x := Column(rows, 0)[l];
    assert HandleOps(rows, records)[l] == [FetchHandle(x), Write(l, records(x))];
    CollectPair(FetchHandle(x), Write(l, records(x)), PostfixOf);
    CollectPair(FetchHandle(x), Write(l, records(x)), LineOf);
    CollectPair(FetchHandle(x), Write(l, records(x)), SleepOf);
  }

  lemma HandleOpsEach(rows: seq<Row>, records: Records)
    ensures forall l {:trigger Collect(HandleOps(rows, records)[l], PostfixOf)} :: 0 <= l < |rows|
              ==> Collect(HandleOps(rows, records)[l], PostfixOf) == [Column(rows, 0)[l]]
    ensures forall l {:trigger Collect(HandleOps(rows, records)[l], LineOf)} :: 0 <= l < |rows|
              ==> Collect(HandleOps(rows, records)[l], LineOf) == [HandleLines(rows, records)[l]]
    ensures QuietRows(HandleOps(rows, records))
  {
    forall l | 0 <= l < |rows|
      ensures Collect(HandleOps(rows, records)[l], PostfixOf) == [Column(rows, 0)[l]]
      ensures Collect(HandleOps(rows, records)[l], LineOf) == [HandleLines(rows, records)[l]]
      ensures QuietRow(HandleOps(rows, records)[l])
    {
      HandleOpsAt(rows, records, l);
    }
  }

  /** `get_handles` looks up the postfix of every line in the window, and no other, in file order. */
  lemma GetHandlesLookups(rows: seq<Row>, records: Records, start: int, count: int)
    ensures var lo, hi := WindowLo(|rows|, start, count), WindowHi(|rows|, start, count);
      Lookups(BatchRun(HandleOps(rows, records), start, count)) == Column(rows, 0)[lo..hi]
  {
    HandleOpsEach(rows, records);
    BatchCollect(HandleOps(rows, records), start, count, PostfixOf, Column(rows, 0));
  }

  /** `get_handles` writes the record of every line in the window, in file order, prefixed by its 0-based line index. */
  lemma GetHandlesOutput(rows: seq<Row>, records: Records, start: int, count: int)
    ensures var lo, hi := WindowLo(|rows|, start, count), WindowHi(|rows|, start, count);
      Lines(BatchRun(HandleOps(rows, records), start, count)) == HandleLines(rows, records)[lo..hi]
  {
    HandleOpsEach(rows, records);
    BatchCollect(HandleOps(rows, records), start, count, LineOf, HandleLines(rows, records));
  }

  /**
   * `get_handles` pauses after every handled line but the window's line
   * `start + count - 1`: `count - 1` pauses when the file reaches it, and one
   * after each handled line (the final row too) when the file ends earlier.
   */
  lemma GetHandlesThrottle(rows: seq<Row>, records: Records, start: int, count: int)
    requires start >= 0 && count >= 1
    ensures var run := BatchRun(HandleOps(rows, records), start, count);
      && Sleeps(run) == (if |rows| <= start then 0 else if start + count <= |rows| then count - 1 else |rows| - start)
      && (start < |rows| ==> run != [] && (run[|run| - 1] == Sleep <==> |rows| < start + count))
  {
    HandleOpsEach(rows, records);
    BatchThrottle(HandleOps(rows, records), start, count);
  }

  /** The (alias, target) pair of every line. */
  function Pairs(rows: seq<Row>): (r: seq<(string, string)>)
    ensures |r| == |rows|
  {
    seq(|rows|, l requires 0 <= l < |rows| => (Column(rows, 0)[l], Column(rows, 1)[l]))
  }

  lemma AliasOpsAt(rows: seq<Row>, l: nat)
    requires l < |rows|
    ensures var ops := AliasOps(rows);
      && Collect(ops[l], RewriteOf) == [Pairs(rows)[l]]
      && Sleeps(ops[l]) == 0
      && ops[l] != [] && !ops[l][|ops[l]| - 1].Sleep?
  {
    var e := RewriteAlias(Column(rows, 0)[l], Column(rows, 1)[l]);
    assert AliasOps(rows)[l] == [e];
    CollectPair(e, e, RewriteOf);
    CollectPair(e, e, SleepOf);
  }

  lemma AliasOpsEach(rows: seq<Row>)
    ensures forall l {:trigger Collect(AliasOps(rows)[l], RewriteOf)} :: 0 <= l < |rows|
              ==> Collect(AliasOps(rows)[l], RewriteOf) == [Pairs(rows)[l]]
    ensures QuietRows(AliasOps(rows))
  {
    forall l | 0 <= l < |rows|
      ensures Collect(AliasOps(rows)[l], RewriteOf) == [Pairs(rows)[l]]
      ensures QuietRow(AliasOps(rows)[l])
    {
      AliasOpsAt(rows, l);
    }
  }

  /** `rewrite_aliases` sends one rewrite per line of the window, and no other, in file order. */
  lemma RewriteAliasesWindow(rows: seq<Row>, start: int, count: int)
    ensures var lo, hi := WindowLo(|rows|, start, count), WindowHi(|rows|, start, count);
      Rewrites(BatchRun(AliasOps(rows), start, count)) == Pairs(rows)[lo..hi]
  {
    AliasOpsEach(rows);
    BatchCollect(AliasOps(rows), start, count, RewriteOf, Pairs(rows));
  }

  /** `rewrite_aliases` pauses as `get_handles` does: never after line `start + count - 1`, but after a final row earlier in the window. */
  lemma RewriteAliasesThrottle(rows: seq<Row>, start: int, count: int)
    requires start >= 0 && count >= 1
    ensures var run := BatchRun(AliasOps(rows), start, count);
      && Sleeps(run) == (if |rows| <= start then 0 else if start + count <= |rows| then count - 1 else |rows| - start)
      && (start < |rows| ==> run != [] && (run[|run| - 1] == Sleep <==> |rows| < start + count))
  {
    AliasOpsEach(rows);
    BatchThrottle(AliasOps(rows), start, count);
  }

  /**
   * The report of `rewrite_aliases` for a positive count and non-negative start:
   * it resumes at `start + count` exactly when the file has that many rows,
   * shows "n/a" otherwise, and the last line read is the window's last line.
   */
  lemma RewriteAliasesReport(n: nat, start: int, count: int)
    requires start >= 0 && count >= 1
    ensures StoppedByCount(n, start, count) <==> start + count <= n
    ensures ResumeMarker(if StoppedByCount(n, start, count) then start + count else -1)
         == if start + count <= n then Some(start + count) else None
    ensures WindowHi(n, start, count) - 1 == (if start + count <= n then start + count else n) - 1
  {
  }

  /**
   * Resuming at the reported `next` continues exactly where a run stopped by its
   * count left off: the two runs rewrite the same lines, in the same order, as one
   * run over both windows.
   */
  lemma RewriteAliasesResume(rows: seq<Row>, start: int, count: int, more: int)
    requires start >= 0 && count >= 1 && more >= 1
    requires StoppedByCount(|rows|, start, count)
    ensures Rewrites(BatchRun(AliasOps(rows), start, count))
          + Rewrites(BatchRun(AliasOps(rows), start + count, more))
         == Rewrites(BatchRun(AliasOps(rows), start, count + more))
  {
    var n := |rows|;
    RewriteAliasesWindow(rows, start, count);
    RewriteAliasesWindow(rows, start + count, more);
    RewriteAliasesWindow(rows, start, count + more);
    WindowOfCount(n, start, count);
    WindowOfCount(n, start + count, more);
    WindowOfCount(n, start, count + more);
    var p := Pairs(rows);
    var hi := WindowHi(n, start, count + more);
    assert WindowHi(n, start + count, more) == hi;
    SliceSplit(p, start, start + count, hi);
  }

  /** Two alias rows, start 0, count 2: two rewrites with one pause between them and none after. */
  lemma TwoAliasRows()
    ensures BatchRun(AliasOps([["aliasA", "targetA"], ["aliasB", "targetB"]]), 0, 2)
         == [RewriteAlias("aliasA", "targetA"), Sleep, RewriteAlias("aliasB", "targetB")]
    ensures StoppedByCount(2, 0, 2) && WindowHi(2, 0, 2) - 1 == 1
  {
    var rows: seq<Row> := [["aliasA", "targetA"], ["aliasB", "targetB"]];
    var ops := AliasOps(rows);
    assert Column(rows, 0)[0] == "aliasA" && Column(rows, 1)[0] == "targetA";
    assert Column(rows, 0)[1] == "aliasB" && Column(rows, 1)[1] == "targetB";
    assert ops[0] == [RewriteAlias("aliasA", "targetA")];
    assert ops[1] == [RewriteAlias("aliasB", "targetB")];
    assert Processed(ops, 0, 1, 2) == [RewriteAlias("aliasA", "targetA"), Sleep];
  }
}
