/** Resuming a batch: the pending work (`requests.whole` minus
    `requests.completed`), the retry of `requests.failed`, the choice between
    them that `process_request_batch` makes from which state files exist and
    what the operator answers, and the partition of the worklist into the
    slices the worker threads are given. */
module Resume {

  import opened Outcomes
  import opened Text
  import opened Store
  import opened Planner

  // ---------------------------------------------------------------------------
  // Set difference of stored rows

  /** `list(set(rows) - set(excluded))` with rows compared as whole dicts: every
      row of `rows` that is not in `excluded`, each once, in order of first
      occurrence (`set` iteration order is not specified, so any order would do). */
  function Difference(rows: seq<Row>, excluded: seq<Row>): (r: seq<Row>)
    ensures forall x :: x in r <==> x in rows && x !in excluded
    ensures forall i, j :: 0 <= i < j < |r| ==> r[i] != r[j]
    decreases |rows|
  {
    if rows == [] then []
    else if rows[0] in excluded then Difference(rows[1..], excluded)
    else
      var rest := Difference(rows[1..], excluded + [rows[0]]);
      assert rows[0] !in rest;
      [rows[0]] + rest
  }

  /** The rows `pending_requests` starts from: those of `requests.whole` that
      are not also in `requests.completed` (all of them when that file is missing). */
  function PendingRows(tables: Tables, directory: string): (r: seq<Row>)
    ensures forall x :: x in r <==> x in Rows(tables, WholePath(directory)) && x !in Rows(tables, CompletedPath(directory))
    ensures CompletedPath(directory) !in tables ==>
      forall x :: x in r <==> x in Rows(tables, WholePath(directory))
    ensures forall i, j :: 0 <= i < j < |r| ==> r[i] != r[j]
  {
    Difference(Rows(tables, WholePath(directory)), Rows(tables, CompletedPath(directory)))
  }

  /** The rows `failed_requests` retries: `list(set(rows of requests.failed))`. */
  function FailedRows(tables: Tables, directory: string): (r: seq<Row>)
    ensures forall x :: x in r <==> x in Rows(tables, FailedPath(directory))
    ensures forall i, j :: 0 <= i < j < |r| ==> r[i] != r[j]
  {
    Difference(Rows(tables, FailedPath(directory)), [])
  }

  // ---------------------------------------------------------------------------
  // Turning a stored row back into a request

  /** `int(cell)`: a stored list is never a number. */
  function ParseInt(c: Cell): Result<nat>
  {
    match c
    case Str(t) => ParseDecimal(t)
    case List(_) => Err(ValueError)
  }

  /** The loop body shared by `pending_requests` and `failed_requests`: the
      element list is parsed back and sorted, `throttle_time` must be present,
      `threads` becomes an int (stored again as its decimal digits). */
  function Convert(row: Row): (r: Result<Request>)
    ensures "elements" !in row ==> r == Err(KeyError("elements"))
    ensures r.Ok? ==> SortedElements(r.value)
  {
    if "elements" !in row then Err(KeyError("elements"))
    else if row["elements"].Str? then Err(ValueError)
    else if "throttle_time" !in row then Err(KeyError("throttle_time"))
    else if "threads" !in row then Err(KeyError("threads"))
    else
      var n :- ParseInt(row["threads"]);
      Ok(row["elements" := List(Sort(row["elements"].items))]["threads" := Str(Decimal(n))])
  }

  /** A converted request has the stored row's keys and values, except that
      its elements are sorted and its thread count is written canonically; the
      conversion fails exactly when a key is missing or a value does not parse. */
  lemma ConvertEffect(row: Row)
    ensures Convert(row).Ok? <==> && "elements" in row && row["elements"].List?
                                  && "throttle_time" in row && "threads" in row
                                  && ParseInt(row["threads"]).Ok?
    ensures Convert(row).Ok? ==>
      var req := Convert(row).value;
      && req.Keys == row.Keys
      && req["elements"] == List(Sort(row["elements"].items))
      && req["threads"] == Str(Decimal(ParseInt(row["threads"]).value))
      && forall k :: k in row && k != "elements" && k != "threads" ==> req[k] == row[k]
  {
  }

  /** Converting a converted request changes nothing: its elements are
      already sorted and its thread count already reads back as the same int. */
  lemma ConvertIdempotent(row: Row)
    requires Convert(row).Ok?
    ensures Convert(Convert(row).value) == Convert(row)
  {
    var req := Convert(row).value;
    ConvertEffect(row);
    var n := ParseInt(row["threads"]).value;
    assert ParseInt(req["threads"]) == Ok(n);
    SortSorted(req["elements"].items);
    var again := req["elements" := List(Sort(req["elements"].items))]["threads" := Str(Decimal(n))];
    assert again == req;
    assert Convert(req) == Ok(again);
  }

  /** The conversion of every row in turn; the first row that fails raises. */
  function ConvertAll(rows: seq<Row>): (r: Result<seq<Request>>)
    ensures r.Ok? <==> forall i :: 0 <= i < |rows| ==> Convert(rows[i]).Ok?
    ensures r.Ok? ==> |r.value| == |rows|
    ensures r.Ok? ==> forall i :: 0 <= i < |rows| ==> Convert(rows[i]) == Ok(r.value[i])
    decreases |rows|
  {
    if rows == [] then Ok([])
    else
      OkCons(Convert, rows);
      match Convert(rows[0])
      case Err(e) => Err(e)
      case Ok(head) =>
        match ConvertAll(rows[1..])
        case Err(e) => Err(e)
        case Ok(tail) =>
          ValuesCons(Convert, rows, head, tail);
          Ok([head] + tail)
  }

  lemma OkCons<A, B>(f: A -> Result<B>, xs: seq<A>)
    requires xs != []
    ensures (forall i :: 0 <= i < |xs| ==> f(xs[i]).Ok?)
        <==> f(xs[0]).Ok? && forall i :: 0 <= i < |xs[1..]| ==> f(xs[1..][i]).Ok?
  {
    assert forall i :: 1 <= i < |xs| ==> xs[i] == xs[1..][i - 1];
  }

  lemma ValuesCons<A, B>(f: A -> Result<B>, xs: seq<A>, head: B, tail: seq<B>)
    requires xs != [] && |tail| == |xs| - 1 && f(xs[0]) == Ok(head)
    requires forall i :: 0 <= i < |xs[1..]| ==> f(xs[1..][i]) == Ok(tail[i])
    ensures forall i :: 0 <= i < |xs| ==> f(xs[i]) == Ok(([head] + tail)[i])
  {
    assert forall i :: 1 <= i < |xs| ==> xs[i] == xs[1..][i - 1] && ([head] + tail)[i] == tail[i - 1];
  }

  /** Every request that has been converted carries a sorted element list. */
  predicate SortedElements(req: Request)
  {
    "elements" in req && req["elements"].List? && Sorted(req["elements"].items)
  }

  lemma ConvertAllSorted(rows: seq<Row>)
    requires ConvertAll(rows).Ok?
    ensures forall i :: 0 <= i < |ConvertAll(rows).value| ==> SortedElements(ConvertAll(rows).value[i])
  {
  }

  /** What resuming cannot undo: `requests.whole` stores a request's elements in
      the order the plan gave them, but only the converted request, whose elements
      are sorted, is ever written to `requests.completed`. A stored request whose
      elements are not in order therefore never matches a completed row and stays
      pending however often it completes. */
  lemma {:induction false} UnsortedStaysPending(tables: Tables, directory: string, sent: seq<Row>, w: Row)
    requires ConvertAll(sent).Ok?
    requires forall c :: c in Rows(tables, CompletedPath(directory)) ==> c in ConvertAll(sent).value
    requires w in Rows(tables, WholePath(directory))
    requires "elements" in w && w["elements"].List? && !Sorted(w["elements"].items)
    ensures w in PendingRows(tables, directory)
  {
    ConvertAllSorted(sent);
    var done := ConvertAll(sent).value;
    assert forall c :: c in done ==> SortedElements(c);
    assert !SortedElements(w);
  }

  /** The loop over the rows in `pending_requests`/`failed_requests`. */
  method ConvertRequests(rows: seq<Row>) returns (r: Result<seq<Request>>)
    ensures r == ConvertAll(rows)
  {
    var requests: seq<Request> := [];
    var i := 0;
    while i < |rows|
      invariant 0 <= i <= |rows|
      invariant |requests| == i
      invariant forall k :: 0 <= k < i ==> Convert(rows[k]) == Ok(requests[k])
    {
      var c := Convert(rows[i]);
      if c.Err? {
        FirstFailure(rows, i);
        return Err(c.error);
      }
      requests := requests + [c.value];
      i := i + 1;
    }
    assert ConvertAll(rows).Ok?;
    assert ConvertAll(rows).value == requests;
    r := Ok(requests);
  }

  /** When every row before `i` converts and row `i` does not, the conversion
      raises row `i`'s error. */
  lemma {:induction false} FirstFailure(rows: seq<Row>, i: int)
    requires 0 <= i < |rows|
    requires forall k :: 0 <= k < i ==> Convert(rows[k]).Ok?
    requires Convert(rows[i]).Err?
    ensures ConvertAll(rows) == Err(Convert(rows[i]).error)
    decreases i
  {
    if i > 0 {
      var tail := rows[1..];
      assert Convert(rows[0]).Ok?;
      assert forall k :: 0 <= k < i - 1 ==> Convert(tail[k]).Ok? by {
        assert forall k :: 0 <= k < i - 1 ==> tail[k] == rows[k + 1];
      }
      assert tail[i - 1] == rows[i];
      FirstFailure(tail, i - 1);
    }
  }

  // ---------------------------------------------------------------------------
  // Which worklist: the decision in process_request_batch, pending_requests
  // and failed_requests

  const RemoveFailed := "Remove failed requests"
  const Overwrite := "Overwrite"

  /** Where the worklist comes from. */
  datatype Source = Create | Pending | RetryFailed

  datatype Decision = Decision(source: Source, removeFailed: bool)

  /** The choice made from whether `requests.whole` and `requests.failed`
      exist and the operator's answer to the failed-requests prompt (asked
      only when both exist). The resume prompt is not part of the choice:
      `pending_requests` asks it only after converting the pending rows. */
  function Decide(wholeExists: bool, failedExists: bool, failedAnswer: string): (d: Decision)
    ensures d.source == RetryFailed <==> wholeExists && failedExists && failedAnswer != RemoveFailed
    ensures d.source == Create <==> !wholeExists
    ensures d.source == Pending <==> wholeExists && !(failedExists && failedAnswer != RemoveFailed)
    ensures d.removeFailed <==> wholeExists && failedExists
  {
    if !wholeExists then Decision(Create, false)
    else if failedExists then
      if failedAnswer != RemoveFailed then Decision(RetryFailed, true)
      else Decision(Pending, true)
    else Decision(Pending, false)
  }

  /** `pending_requests`: the converted pending rows, replaced by a fresh
      `create_requests` when the operator answers Overwrite. The conversion
      runs (and may raise) before the prompt. Returns the worklist or error
      and the files afterwards. */
  ghost function PendingOutcome(tables: Tables, template: Row, directory: string, answer: string): (Result<seq<Request>>, Tables)
  {
    var conv := ConvertAll(PendingRows(tables, directory));
    if conv.Err? || answer != Overwrite then (conv, tables)
    else CreateOutcome(tables, template, directory)
  }

  /** `create_requests` as a value: its result and the files afterwards. */
  ghost function CreateOutcome(tables: Tables, template: Row, directory: string): (Result<seq<Request>>, Tables)
  {
    var r := ExpandRequests(tables, template);
    (r, if r.Ok? then CreatedTables(tables, directory, template, r.value) else tables)
  }

  /** The whole resolution at the top of `process_request_batch`. */
  ghost function BatchOutcome(tables: Tables, template: Row, directory: string, failedAnswer: string, resumeAnswer: string): (Result<seq<Request>>, Tables)
  {
    var failed := FailedPath(directory);
    var d := Decide(WholePath(directory) in tables, failed in tables, failedAnswer);
    var (r, after) := SourceOutcome(tables, template, directory, d.source, resumeAnswer);
    if d.removeFailed && r.Ok? then (r, after - {failed}) else (r, after)
  }

  /** The worklist from the chosen source, and the files afterwards. */
  ghost function SourceOutcome(tables: Tables, template: Row, directory: string, source: Source, resumeAnswer: string): (Result<seq<Request>>, Tables)
  {
    match source
    case Create => CreateOutcome(tables, template, directory)
    case Pending => PendingOutcome(tables, template, directory, resumeAnswer)
    case RetryFailed => (ConvertAll(FailedRows(tables, directory)), tables)
  }

  /** Once a worklist has been resolved, `requests.failed` no longer exists:
      it is either removed by `failed_requests` or reset by `create_requests`. */
  lemma ResolvedClearsFailed(tables: Tables, template: Row, directory: string, failedAnswer: string, resumeAnswer: string)
    requires BatchOutcome(tables, template, directory, failedAnswer, resumeAnswer).0.Ok?
    ensures FailedPath(directory) !in BatchOutcome(tables, template, directory, failedAnswer, resumeAnswer).1
  {
    var r := ExpandRequests(tables, template);
    if r.Ok? {
      ExpandKeys(tables, template);
      CreateResetsState(tables, directory, template, r.value);
    }
  }

  /** An error on the way to the worklist leaves every file as it was. */
  lemma ErrorKeepsFiles(tables: Tables, template: Row, directory: string, failedAnswer: string, resumeAnswer: string)
    requires BatchOutcome(tables, template, directory, failedAnswer, resumeAnswer).0.Err?
    ensures BatchOutcome(tables, template, directory, failedAnswer, resumeAnswer).1 == tables
  {
  }

  /** Retrying hands back exactly the distinct failed rows, each converted. */
  lemma RetryIsFailedRows(tables: Tables, template: Row, directory: string, failedAnswer: string, resumeAnswer: string)
    requires WholePath(directory) in tables && FailedPath(directory) in tables
    requires failedAnswer != RemoveFailed
    requires BatchOutcome(tables, template, directory, failedAnswer, resumeAnswer).0.Ok?
    ensures var reqs := BatchOutcome(tables, template, directory, failedAnswer, resumeAnswer).0.value;
      && |reqs| == |FailedRows(tables, directory)|
      && forall i :: 0 <= i < |reqs| ==> reqs[i] == Convert(FailedRows(tables, directory)[i]).value
  {
  }

  /** Resuming without Overwrite touches no file and hands back the converted
      pending rows; with no completed file, that is every stored request. */
  lemma ResumeIsPendingRows(tables: Tables, template: Row, directory: string, resumeAnswer: string)
    requires WholePath(directory) in tables && FailedPath(directory) !in tables
    requires resumeAnswer != Overwrite
    ensures BatchOutcome(tables, template, directory, "", resumeAnswer)
         == (ConvertAll(PendingRows(tables, directory)), tables)
  {
  }

  /** Overwriting a previous extraction still converts its pending rows
      first: a pending row that does not convert raises before the prompt and
      leaves every file as it was; otherwise the worklist is a fresh plan. */
  lemma OverwriteConvertsFirst(tables: Tables, template: Row, directory: string, failedAnswer: string)
    requires WholePath(directory) in tables
    requires !(FailedPath(directory) in tables && failedAnswer != RemoveFailed)
    ensures ConvertAll(PendingRows(tables, directory)).Err? ==>
      BatchOutcome(tables, template, directory, failedAnswer, Overwrite) == (ConvertAll(PendingRows(tables, directory)), tables)
    ensures ConvertAll(PendingRows(tables, directory)).Ok? ==>
      BatchOutcome(tables, template, directory, failedAnswer, Overwrite).0 == ExpandRequests(tables, template)
  {
  }

  /** `process_request_batch` up to the split: the resolution on the store. */
  method ResolveRequests(store: RequestStore, template: Row, directory: string, failedAnswer: string, resumeAnswer: string)
    returns (r: Result<seq<Request>>)
    modifies store
    ensures (r, store.tables) == BatchOutcome(old(store.tables), template, directory, failedAnswer, resumeAnswer)
  {
    var whole := WholePath(directory);
    var failed := FailedPath(directory);
    var d := Decide(whole in store.tables, failed in store.tables, failedAnswer);
    r := TakeWorklist(store, template, directory, d.source, resumeAnswer);
    if d.removeFailed && r.Ok? {
      store.RemoveIfExists(failed);
    }
  }

  /** The worklist from the chosen source. */
  method TakeWorklist(store: RequestStore, template: Row, directory: string, source: Source, resumeAnswer: string)
    returns (r: Result<seq<Request>>)
    modifies store
    ensures (r, store.tables) == SourceOutcome(old(store.tables), template, directory, source, resumeAnswer)
  {
    match source {
      case Create =>
        r := CreateRequests(store, template, directory);
      case Pending =>
        r := PendingRequests(store, template, directory, resumeAnswer);
      case RetryFailed =>
        var rows := store.RequestFromCsv(FailedPath(directory));
        r := ConvertRequests(Difference(rows, []));
    }
  }

  /** `pending_requests` on the store. */
  method PendingRequests(store: RequestStore, template: Row, directory: string, answer: string)
    returns (r: Result<seq<Request>>)
    modifies store
    ensures (r, store.tables) == PendingOutcome(old(store.tables), template, directory, answer)
  {
    var whole := store.RequestFromCsv(WholePath(directory));
    var completed := store.RequestFromCsv(CompletedPath(directory));
    r := ConvertRequests(Difference(whole, completed));
    if r.Ok? && answer == Overwrite {
      r := CreateRequests(store, template, directory);
    }
  }

  // ---------------------------------------------------------------------------
  // np.array_split(requests, threads)

  /** Where slice `i` starts when every slice has `q` items and the first `r`
      slices one more: `np.array_split` takes `q = len / n` and `r = len % n`. */
  function Offset(q: nat, r: nat, i: nat): nat
  {
    if i == 0 then 0 else Offset(q, r, i - 1) + q + (if i - 1 < r then 1 else 0)
  }

  /** The start of slice `i` in closed form. */
  lemma {:induction false} OffsetClosed(q: nat, r: nat, i: nat)
    ensures Offset(q, r, i) == i * q + (if i < r then i else r)
  {
    if i > 0 {
      OffsetClosed(q, r, i - 1);
      assert i * q == (i - 1) * q + q;
    }
  }

  /** The `n` slices of a list of `len` items end exactly at its end. */
  lemma OffsetEnd(len: nat, n: nat)
    requires n > 0
    ensures Offset(len / n, len % n, n) == len
  {
    OffsetClosed(len / n, len % n, n);
    assert n * (len / n) + len % n == len;
  }

  lemma {:induction false} OffsetWithin(q: nat, r: nat, n: nat, i: nat)
    requires i <= n && r < n
    ensures Offset(q, r, i) <= Offset(q, r, n)
    decreases n - i
  {
    if i < n {
      OffsetWithin(q, r, n, i + 1);
    }
  }

  /** Slice `i` of `xs` split into `n` sections. */
  function Slice(xs: seq<Request>, n: nat, i: nat): (s: seq<Request>)
    requires 0 <= i < n
    ensures |s| == |xs| / n + (if i < |xs| % n then 1 else 0)
  {
    SliceBounds(|xs|, n, i);
    xs[Offset(|xs| / n, |xs| % n, i)..Offset(|xs| / n, |xs| % n, i + 1)]
  }

  lemma SliceBounds(len: nat, n: nat, i: nat)
    requires i < n
    ensures Offset(len / n, len % n, i + 1) <= len
  {
    OffsetEnd(len, n);
    OffsetWithin(len / n, len % n, n, i + 1);
  }

  /** `np.array_split`: `n` contiguous slices, ValueError when `n` is not positive. */
  function ArraySplit(xs: seq<Request>, n: int): (r: Result<seq<seq<Request>>>)
    ensures n <= 0 <==> r == Err(ValueError)
    ensures r.Ok? ==> |r.value| == n
  {
    if n <= 0 then Err(ValueError) else Ok(seq(n, i requires 0 <= i < n => Slice(xs, n, i)))
  }

  function Concat(parts: seq<seq<Request>>): seq<Request>
  {
    if parts == [] then [] else parts[0] + Concat(parts[1..])
  }

  lemma {:induction false} SlicesConcat(xs: seq<Request>, n: int, from: nat)
    requires 0 < n && from <= n
    ensures var start := Offset(|xs| / n, |xs| % n, from);
      start <= |xs| && Concat(ArraySplit(xs, n).value[from..]) == xs[start..]
    decreases n - from
  {
    var split := ArraySplit(xs, n).value;
    var q, r := |xs| / n, |xs| % n;
    OffsetEnd(|xs|, n);
    OffsetWithin(q, r, n, from);
    if from < n {
      SliceBounds(|xs|, n, from);
      SlicesConcat(xs, n, from + 1);
      ConcatFrom(split, from);
      var a, b := Offset(q, r, from), Offset(q, r, from + 1);
      assert split[from] == xs[a..b];
      SplitAt(xs, a, b);
    }
  }

  lemma ConcatFrom(parts: seq<seq<Request>>, from: nat)
    requires from < |parts|
    ensures Concat(parts[from..]) == parts[from] + Concat(parts[from + 1..])
  {
    assert parts[from..][1..] == parts[from + 1..];
  }

  lemma SplitAt<T>(xs: seq<T>, a: int, b: int)
    requires 0 <= a <= b <= |xs|
    ensures xs[a..] == xs[a..b] + xs[b..]
  {
  }

  /** The slices partition the list: in order, nothing lost or repeated, and
      their sizes are `len / n + 1` for the first `len % n` and `len / n` after. */
  lemma ArraySplitPartitions(xs: seq<Request>, n: int)
    requires n > 0
    ensures Concat(ArraySplit(xs, n).value) == xs
    ensures forall i :: 0 <= i < n ==> |ArraySplit(xs, n).value[i]| == |xs| / n + (if i < |xs| % n then 1 else 0)
  {
    SlicesConcat(xs, n, 0);
    assert ArraySplit(xs, n).value[0..] == ArraySplit(xs, n).value;
  }

  /** Slice sizes differ by at most one, larger ones first. */
  lemma ArraySplitBalanced(xs: seq<Request>, n: int, i: int, j: int)
    requires n > 0 && 0 <= i < j < n
    ensures |ArraySplit(xs, n).value[j]| <= |ArraySplit(xs, n).value[i]| <= |ArraySplit(xs, n).value[j]| + 1
  {
    ArraySplitPartitions(xs, n);
  }

  /** The batches handed to the workers: with several threads every slice
      goes to its own worker, with one thread the first slice (all of the
      worklist) is processed directly; an empty worklist is not split at all. */
  function Batches(requests: seq<Request>, threads: int): (r: Result<seq<seq<Request>>>)
    ensures requests == [] ==> r == Ok([])
    ensures requests != [] && threads <= 0 ==> r == Err(ValueError)
  {
    if requests == [] then Ok([])
    else
      var split :- ArraySplit(requests, threads);
      if threads > 1 then Ok(split) else Ok([split[0]])
  }

  /** Every request of the worklist is handed to exactly one worker, in order. */
  lemma BatchesCoverWorklist(requests: seq<Request>, threads: int)
    requires Batches(requests, threads).Ok?
    ensures Concat(Batches(requests, threads).value) == requests
  {
    if requests != [] {
      ArraySplitPartitions(requests, threads);
      if threads == 1 {
        var split := ArraySplit(requests, threads).value;
        assert |split[0]| == |requests|;
        assert Concat(split) == split[0] + Concat(split[1..]);
      }
    }
  }
}
