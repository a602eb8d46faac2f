/** `create_requests`: expanding the request template into the worklist (one
    request per row of an element batch file, or one per five-day window of a
    `StudyDate=` range, or the template alone), then resetting the state files
    and recording the worklist in `requests.whole`. */
module Planner {

  import opened Outcomes
  import opened Text
  import opened Dates
  import opened Store

  /** A request is a dict like the template it came from. */
  type Request = Row

  /** Paths of the three state files under the output directory. */
  function WholePath(directory: string): string { PathJoin(directory, "requests.whole") }
  function CompletedPath(directory: string): string { PathJoin(directory, "requests.completed") }
  function FailedPath(directory: string): string { PathJoin(directory, "requests.failed") }

  /** The element list of a request; KeyError when it has none. An `elements`
      entry given as a string is not modelled and reported as TypeError. */
  function Elements(req: Request): (r: Result<seq<string>>)
    ensures "elements" !in req ==> r == Err(KeyError("elements"))
    ensures r.Ok? <==> "elements" in req && req["elements"].List?
  {
    if "elements" !in req then Err(KeyError("elements"))
    else match req["elements"]
      case List(xs) => Ok(xs)
      case Str(_) => Err(TypeError)
  }

  /** Python's `str()` of a cell, as an f-string renders it. */
  function Display(c: Cell): string
  {
    match c
    case Str(t) => t
    case List(xs) => "[" + QuotedItems(xs) + "]"
  }

  function QuotedItems(xs: seq<string>): string
    decreases |xs|
  {
    if xs == [] then ""
    else if |xs| == 1 then "'" + xs[0] + "'"
    else "'" + xs[0] + "', " + QuotedItems(xs[1..])
  }

  // ---------------------------------------------------------------------------
  // add_element_to_list

  /** An element names `key` when its part before the first `=` is `key`, or it is `key` itself. */
  predicate Names(x: string, key: string)
  {
    BeforeFirst(x, '=') == key || x == key
  }

  /** The list comprehension the guard of `add_element_to_list` builds. */
  function GuardList(elements: seq<string>, key: string): (g: seq<Option<string>>)
    ensures |g| == |elements|
    decreases |elements|
  {
    if elements == [] then []
    else [if Names(elements[0], key) then Some(elements[0]) else None] + GuardList(elements[1..], key)
  }

  /** The guard is a list, so it is truthy exactly when the element list is not
      empty, whether or not any element names the key. */
  lemma GuardTruthy(elements: seq<string>, key: string)
    ensures GuardList(elements, key) != [] <==> elements != []
  {
  }

  /** The replacement comprehension: every element naming `key` becomes `key=value`. */
  function Replaced(elements: seq<string>, key: string, value: string): (r: seq<string>)
    ensures |r| == |elements|
    decreases |elements|
  {
    if elements == [] then []
    else [if Names(elements[0], key) then key + "=" + value else elements[0]] + Replaced(elements[1..], key, value)
  }

  lemma {:induction false} ReplacedAt(elements: seq<string>, key: string, value: string, i: int)
    requires 0 <= i < |elements|
    ensures Replaced(elements, key, value)[i] == if Names(elements[i], key) then key + "=" + value else elements[i]
    decreases |elements|
  {
    if i > 0 {
      ReplacedAt(elements[1..], key, value, i - 1);
    }
  }

  /** `add_element_to_list` as written: the replacement whenever the guard list is
      truthy, and an append only otherwise. */
  function AddElementToList(elements: seq<string>, key: string, value: string): (r: seq<string>)
  {
    if GuardList(elements, key) != [] then Replaced(elements, key, value)
    else elements + [key + "=" + value]
  }

  /** What the function does: on an empty list, the one element `key=value`; on any
      other list, a list of the same length where exactly the elements naming `key`
      become `key=value` and every other element is kept. */
  lemma AddElementToListEffect(elements: seq<string>, key: string, value: string)
    ensures elements == [] ==> AddElementToList(elements, key, value) == [key + "=" + value]
    ensures elements != [] ==> |AddElementToList(elements, key, value)| == |elements|
    ensures elements != [] ==> forall i :: 0 <= i < |elements| ==>
      AddElementToList(elements, key, value)[i] == if Names(elements[i], key) then key + "=" + value else elements[i]
  {
    GuardTruthy(elements, key);
    forall i | 0 <= i < |elements| && elements != []
      ensures AddElementToList(elements, key, value)[i] == if Names(elements[i], key) then key + "=" + value else elements[i]
    {
      ReplacedAt(elements, key, value, i);
    }
  }

  /** The key is dropped: on a list where no element names the key, nothing is
      added and the list comes back unchanged. */
  lemma AbsentKeyDropped(elements: seq<string>, key: string, value: string)
    requires elements != []
    requires forall i :: 0 <= i < |elements| ==> !Names(elements[i], key)
    ensures AddElementToList(elements, key, value) == elements
  {
    AddElementToListEffect(elements, key, value);
  }

  // ---------------------------------------------------------------------------
  // Row-batch expansion

  /** The state the key loop of one row threads through: the row request's
      element list, the template's element list, and whether the two are still
      the same Python list object (the copy of the template is shallow). */
  datatype Lists = Lists(elements: seq<string>, template: seq<string>, shared: bool)

  /** One `add_element_to_list` call. Its append changes the list in place, so
      while the row request still shares the template's list, the template sees it. */
  function AddKey(s: Lists, key: string, value: string): Lists
  {
    var r := AddElementToList(s.elements, key, value);
    if GuardList(s.elements, key) != [] then Lists(r, s.template, false)
    else Lists(r, if s.shared then r else s.template, s.shared)
  }

  /** The loop `for key in row` over the row's keys in column order. */
  function AddKeys(s: Lists, keys: seq<string>, row: Row): Lists
    requires forall k :: k in keys ==> k in row
    decreases |keys|
  {
    if keys == [] then s else AddKeys(AddKey(s, keys[0], Display(row[keys[0]])), keys[1..], row)
  }

  /** The keys of the dict `DictReader` builds from a line, in column order. */
  function RowKeys(header: seq<string>, rec: Record): (keys: seq<string>)
    ensures forall k :: k in keys ==> k in Zip(header, rec)
  {
    ZipDomain(header, rec);
    Dedup(header[..if |header| < |rec| then |header| else |rec|])
  }

  lemma {:induction false} ZipDomain(header: seq<string>, rec: Record)
    ensures forall k :: k in Zip(header, rec) <==> k in header[..if |header| < |rec| then |header| else |rec|]
    decreases |header|
  {
    if header != [] && rec != [] {
      ZipDomain(header[1..], rec[1..]);
      var n := if |header| < |rec| then |header| else |rec|;
      assert header[..n] == [header[0]] + header[1..][..n - 1];
    }
  }

  /** The distinct strings of a list, each at its first position. */
  function Dedup(s: seq<string>): (r: seq<string>)
    ensures forall k :: k in r <==> k in s
    ensures forall i, j :: 0 <= i < j < |r| ==> r[i] != r[j]
    decreases |s|
  {
    if s == [] then []
    else
      var d := Dedup(s[..|s| - 1]);
      assert s == s[..|s| - 1] + [s[|s| - 1]];
      if s[|s| - 1] in d then d else d + [s[|s| - 1]]
  }

  /** One request per line of the batch file: the template with the line's
      elements folded in and the list sorted; the template's own list comes out
      as the shared appends left it. */
  function BatchRequests(template: Row, tmpl: seq<string>, header: seq<string>, recs: seq<Record>): (r: (seq<Request>, seq<string>))
    ensures |r.0| == |recs|
    decreases |recs|
  {
    if recs == [] then ([], tmpl)
    else
      var s := AddKeys(Lists(tmpl, tmpl, true), RowKeys(header, recs[0]), Zip(header, recs[0]));
      var rest := BatchRequests(template, s.template, header, recs[1..]);
      ([template["elements" := List(Sort(s.elements))]] + rest.0, rest.1)
  }

  /** A row request's list only ever starts out shared, and it stays so only as
      long as every call took the append branch. */
  lemma {:induction false} AddKeysNonEmpty(s: Lists, keys: seq<string>, row: Row)
    requires forall k :: k in keys ==> k in row
    requires s.elements != []
    ensures AddKeys(s, keys, row).template == s.template
    ensures |AddKeys(s, keys, row).elements| == |s.elements|
    decreases |keys|
  {
    if keys != [] {
      var v := Display(row[keys[0]]);
      AddElementToListEffect(s.elements, keys[0], v);
      GuardTruthy(s.elements, keys[0]);
      AddKeysNonEmpty(AddKey(s, keys[0], v), keys[1..], row);
    }
  }

  /** For a key without `=`, an element names it exactly when the element's
      part before the first `=` is that key. */
  lemma NamesByPrefix(x: string, key: string)
    requires '=' !in key
    ensures Names(x, key) <==> BeforeFirst(x, '=') == key
  {
    if '=' !in x {
      SplitNoSeparator(x, '=');
    }
  }

  /** A `key=value` element names its key again. */
  lemma PairKey(key: string, value: string)
    requires '=' !in key
    ensures BeforeFirst(key + "=" + value, '=') == key
  {
    SplitAfterPrefix(key, '=', value);
    assert key + "=" + value == key + ['='] + value;
  }

  /** A line's columns laid over an element list: an element whose part before
      `=` is one of the line's keys becomes `key=value` with that column's value,
      and every other element is kept where it is. */
  function Overlaid(elements: seq<string>, keys: seq<string>, row: Row): seq<string>
    requires forall k :: k in keys ==> k in row
  {
    seq(|elements|, j requires 0 <= j < |elements| =>
      var k := BeforeFirst(elements[j], '=');
      if k in keys then k + "=" + Display(row[k]) else elements[j])
  }

  /** On a non-empty list, the key loop lays the line's columns over the list:
      each element takes the value of the column it names, and a column that no
      element names adds nothing. */
  lemma {:induction false} AddKeysEffect(s: Lists, keys: seq<string>, row: Row)
    requires forall k :: k in keys ==> k in row && '=' !in k
    requires s.elements != []
    ensures AddKeys(s, keys, row).elements == Overlaid(s.elements, keys, row)
    decreases |keys|
  {
    if keys == [] {
      assert AddKeys(s, keys, row).elements == Overlaid(s.elements, keys, row);
    } else {
      var k0 := keys[0];
      var v0 := Display(row[k0]);
      var s1 := AddKey(s, k0, v0);
      AddElementToListEffect(s.elements, k0, v0);
      AddKeysEffect(s1, keys[1..], row);
      assert keys == [k0] + keys[1..];
      forall j | 0 <= j < |s.elements|
        ensures Overlaid(s1.elements, keys[1..], row)[j] == Overlaid(s.elements, keys, row)[j]
      {
        var n := BeforeFirst(s.elements[j], '=');
        NamesByPrefix(s.elements[j], k0);
        if n == k0 {
          PairKey(k0, v0);
        } else {
          assert n in keys <==> n in keys[1..];
        }
      }
    }
  }

  /** The keys of a line are header columns. */
  lemma RowKeysInHeader(header: seq<string>, rec: Record)
    ensures forall k :: k in RowKeys(header, rec) ==> k in header
  {
    var n := if |header| < |rec| then |header| else |rec|;
    forall k | k in RowKeys(header, rec) ensures k in header {
      assert k in header[..n];
      var i :| 0 <= i < n && header[..n][i] == k;
      assert header[i] == k;
    }
  }

  /** A template with elements is never changed by the batch. */
  lemma {:induction false} BatchKeepsTemplate(template: Row, tmpl: seq<string>, header: seq<string>, recs: seq<Record>)
    requires tmpl != []
    ensures BatchRequests(template, tmpl, header, recs).1 == tmpl
    decreases |recs|
  {
    if recs != [] {
      var keys := RowKeys(header, recs[0]);
      var row := Zip(header, recs[0]);
      AddKeysNonEmpty(Lists(tmpl, tmpl, true), keys, row);
      var s := AddKeys(Lists(tmpl, tmpl, true), keys, row);
      BatchKeepsTemplate(template, s.template, header, recs[1..]);
    }
  }

  predicate HasElements(req: Request, n: nat)
  {
    "elements" in req && req["elements"].List? && |req["elements"].items| == n
  }

  /** With a template that has elements, every row request has exactly as many
      elements as the template: batch columns never add one. */
  lemma {:induction false} BatchElementCount(template: Row, tmpl: seq<string>, header: seq<string>, recs: seq<Record>)
    requires tmpl != []
    ensures forall i :: 0 <= i < |recs| ==> HasElements(BatchRequests(template, tmpl, header, recs).0[i], |tmpl|)
    decreases |recs|
  {
    if recs != [] {
      var keys := RowKeys(header, recs[0]);
      var row := Zip(header, recs[0]);
      AddKeysNonEmpty(Lists(tmpl, tmpl, true), keys, row);
      var s := AddKeys(Lists(tmpl, tmpl, true), keys, row);
      BatchElementCount(template, s.template, header, recs[1..]);
      var rest := BatchRequests(template, s.template, header, recs[1..]);
      var all: seq<Request> := BatchRequests(template, tmpl, header, recs).0;
      assert all == [template["elements" := List(Sort(s.elements))]] + rest.0;
      SortLength(s.elements);
      forall i | 0 <= i < |recs| ensures HasElements(all[i], |tmpl|) {
        if i > 0 { assert all[i] == rest.0[i - 1]; }
      }
    }
  }

  /** Every row request is the template with a sorted element list and nothing
      else changed; with a non-empty template list and header columns free of
      `=`, request i's list is the template's list with line i's columns laid
      over it, sorted. */
  lemma BatchShape(template: Row, tmpl: seq<string>, header: seq<string>, recs: seq<Record>)
    ensures forall i :: 0 <= i < |recs| ==>
      var req := BatchRequests(template, tmpl, header, recs).0[i];
      && req.Keys == template.Keys + {"elements"}
      && (forall k :: k in template && k != "elements" ==> req[k] == template[k])
      && req["elements"].List? && Sorted(req["elements"].items)
    ensures tmpl != [] && (forall k :: k in header ==> '=' !in k) ==>
      forall i :: 0 <= i < |recs| ==>
        BatchRequests(template, tmpl, header, recs).0[i]
          == template["elements" := List(Sort(Overlaid(tmpl, RowKeys(header, recs[i]), Zip(header, recs[i]))))]
  {
    BatchSorted(template, tmpl, header, recs);
    if tmpl != [] && (forall k :: k in header ==> '=' !in k) {
      BatchContent(template, tmpl, header, recs);
    }
  }

  lemma {:induction false} BatchSorted(template: Row, tmpl: seq<string>, header: seq<string>, recs: seq<Record>)
    ensures forall i :: 0 <= i < |recs| ==>
      var req := BatchRequests(template, tmpl, header, recs).0[i];
      && req.Keys == template.Keys + {"elements"}
      && (forall k :: k in template && k != "elements" ==> req[k] == template[k])
      && req["elements"].List? && Sorted(req["elements"].items)
    decreases |recs|
  {
    if recs != [] {
      var s := AddKeys(Lists(tmpl, tmpl, true), RowKeys(header, recs[0]), Zip(header, recs[0]));
      BatchSorted(template, s.template, header, recs[1..]);
      var rest := BatchRequests(template, s.template, header, recs[1..]).0;
      var all := BatchRequests(template, tmpl, header, recs).0;
      assert all == [template["elements" := List(Sort(s.elements))]] + rest;
      forall i | 0 <= i < |recs|
        ensures && all[i].Keys == template.Keys + {"elements"}
                && (forall k :: k in template && k != "elements" ==> all[i][k] == template[k])
                && all[i]["elements"].List? && Sorted(all[i]["elements"].items)
      {
        if i > 0 { assert all[i] == rest[i - 1]; }
      }
    }
  }

  /** With a non-empty template list and header columns free of `=`, request i
      is the template with line i's columns laid over the template's list, sorted. */
  lemma {:induction false} BatchContent(template: Row, tmpl: seq<string>, header: seq<string>, recs: seq<Record>)
    requires tmpl != []
    requires forall k :: k in header ==> '=' !in k
    ensures forall i :: 0 <= i < |recs| ==>
      BatchRequests(template, tmpl, header, recs).0[i]
        == template["elements" := List(Sort(Overlaid(tmpl, RowKeys(header, recs[i]), Zip(header, recs[i]))))]
    decreases |recs|
  {
    if recs != [] {
      var keys := RowKeys(header, recs[0]);
      var row := Zip(header, recs[0]);
      RowKeysInHeader(header, recs[0]);
      AddKeysNonEmpty(Lists(tmpl, tmpl, true), keys, row);
      AddKeysEffect(Lists(tmpl, tmpl, true), keys, row);
      var s := AddKeys(Lists(tmpl, tmpl, true), keys, row);
      BatchContent(template, s.template, header, recs[1..]);
      var rest := BatchRequests(template, s.template, header, recs[1..]).0;
      var all := BatchRequests(template, tmpl, header, recs).0;
      assert all == [template["elements" := List(Sort(s.elements))]] + rest;
      forall i | 0 <= i < |recs|
        ensures all[i] == template["elements" := List(Sort(Overlaid(tmpl, RowKeys(header, recs[i]), Zip(header, recs[i]))))]
      {
        if i > 0 {
          assert all[i] == rest[i - 1];
          assert recs[1..][i - 1] == recs[i];
        }
      }
    }
  }

  /** On an empty template list the first column is appended in place, to the
      template's list too, and later columns of the line only replace. */
  lemma FirstLineOfEmptyTemplate(keys: seq<string>, row: Row)
    requires keys != [] && forall k :: k in keys ==> k in row
    ensures var first := keys[0] + "=" + Display(row[keys[0]]);
      && AddKeys(Lists([], [], true), keys, row).template == [first]
      && |AddKeys(Lists([], [], true), keys, row).elements| == 1
  {
    var k := keys[0];
    var first := k + "=" + Display(row[k]);
    var s1 := AddKey(Lists([], [], true), k, Display(row[k]));
    GuardTruthy([], k);
    assert s1 == Lists([first], [first], true);
    AddKeysNonEmpty(s1, keys[1..], row);
  }

  /** An empty template list takes the first column of the first line with
      columns, in place; from then on it is non-empty, so every later column of
      every line is dropped and each request holds that single element. */
  lemma EmptyTemplateKeepsFirstColumn(template: Row, header: seq<string>, recs: seq<Record>)
    requires recs != [] && RowKeys(header, recs[0]) != []
    ensures var k := RowKeys(header, recs[0])[0];
      var first := k + "=" + Display(Zip(header, recs[0])[k]);
      && BatchRequests(template, [], header, recs).1 == [first]
      && forall i :: 0 <= i < |recs| ==> HasElements(BatchRequests(template, [], header, recs).0[i], 1)
  {
    var keys := RowKeys(header, recs[0]);
    var row := Zip(header, recs[0]);
    FirstLineOfEmptyTemplate(keys, row);
    var s := AddKeys(Lists([], [], true), keys, row);
    BatchKeepsTemplate(template, s.template, header, recs[1..]);
    BatchElementCount(template, s.template, header, recs[1..]);
    var rest := BatchRequests(template, s.template, header, recs[1..]);
    var all: seq<Request> := BatchRequests(template, [], header, recs).0;
    assert all == [template["elements" := List(Sort(s.elements))]] + rest.0;
    SortLength(s.elements);
    forall i | 0 <= i < |recs| ensures HasElements(all[i], 1) {
      if i > 0 { assert all[i] == rest.0[i - 1]; }
    }
  }

  // ---------------------------------------------------------------------------
  // StudyDate split

  /** The first element that starts with `StudyDate=`, if any. */
  function FirstStudyDate(elements: seq<string>): (r: Option<string>)
    ensures r.Some? ==> exists i :: 0 <= i < |elements| && elements[i] == r.value && FirstAt(elements, i)
    ensures r.None? ==> forall i :: 0 <= i < |elements| ==> !StartsWith(elements[i], "StudyDate=")
    decreases |elements|
  {
    if elements == [] then None
    else if StartsWith(elements[0], "StudyDate=") then
      assert FirstAt(elements, 0);
      Some(elements[0])
    else
      var r := FirstStudyDate(elements[1..]);
      FirstAtShift(elements, r);
      r
  }

  lemma FirstAtShift(elements: seq<string>, r: Option<string>)
    requires elements != [] && !StartsWith(elements[0], "StudyDate=")
    requires r.Some? ==> exists i :: 0 <= i < |elements[1..]| && elements[1..][i] == r.value && FirstAt(elements[1..], i)
    ensures r.Some? ==> exists i :: 0 <= i < |elements| && elements[i] == r.value && FirstAt(elements, i)
  {
    if r.Some? {
      var i :| 0 <= i < |elements[1..]| && elements[1..][i] == r.value && FirstAt(elements[1..], i);
      assert elements[i + 1] == r.value && FirstAt(elements, i + 1);
    }
  }

  /** Element `i` starts with `StudyDate=` and none before it does. */
  predicate FirstAt(elements: seq<string>, i: int)
    requires 0 <= i < |elements|
  {
    StartsWith(elements[i], "StudyDate=") && forall j :: 0 <= j < i ==> !StartsWith(elements[j], "StudyDate=")
  }

  /** The range an element `StudyDate=...` carries: `split('=')[1]`. */
  function StudyDateRange(element: string): (range: string)
    requires StartsWith(element, "StudyDate=")
    ensures '=' !in range
    ensures var tail := element[|"StudyDate="|..];
      tail == range || StartsWith(tail, range + "=")
  {
    assert element == "StudyDate" + ['='] + element[10..];
    SplitAfterPrefix("StudyDate", '=', element[10..]);
    FirstPiece(element[10..], '=');
    Split(element, '=')[1]
  }

  /** The element list of one window's request: every `StudyDate=` element replaced. */
  function ReplaceStudyDate(elements: seq<string>, range: string): (r: seq<string>)
    ensures |r| == |elements|
    decreases |elements|
  {
    if elements == [] then []
    else
      var head := if StartsWith(elements[0], "StudyDate=") then "StudyDate=" + range else elements[0];
      [head] + ReplaceStudyDate(elements[1..], range)
  }

  lemma {:induction false} ReplaceStudyDateAt(elements: seq<string>, range: string, i: int)
    requires 0 <= i < |elements|
    ensures ReplaceStudyDate(elements, range)[i]
         == if StartsWith(elements[i], "StudyDate=") then "StudyDate=" + range else elements[i]
    decreases |elements|
  {
    if i > 0 { ReplaceStudyDateAt(elements[1..], range, i - 1); }
  }

  /** One request per date range, in order. */
  function WindowRequests(template: Row, elements: seq<string>, ranges: seq<string>): (reqs: seq<Request>)
    ensures |reqs| == |ranges|
    decreases |ranges|
  {
    if ranges == [] then []
    else
      var req := template["elements" := List(ReplaceStudyDate(elements, ranges[0]))];
      [req] + WindowRequests(template, elements, ranges[1..])
  }

  /** Request `i` is the template whose `StudyDate=` elements now carry range `i`;
      every other element and every other key is the template's. */
  lemma {:induction false} WindowRequestsAt(template: Row, elements: seq<string>, ranges: seq<string>, i: int, j: int)
    requires 0 <= i < |ranges| && 0 <= j < |elements|
    ensures var req := WindowRequests(template, elements, ranges)[i];
      && req.Keys == template.Keys + {"elements"}
      && (forall k :: k in template && k != "elements" ==> req[k] == template[k])
      && req["elements"].List? && |req["elements"].items| == |elements|
      && req["elements"].items[j]
         == if StartsWith(elements[j], "StudyDate=") then "StudyDate=" + ranges[i] else elements[j]
    decreases |ranges|
  {
    if i == 0 {
      ReplaceStudyDateAt(elements, ranges[0], j);
    } else {
      WindowRequestsAt(template, elements, ranges[1..], i - 1, j);
    }
  }

  // ---------------------------------------------------------------------------
  // The expansion as a whole

  /** The worklist `create_requests` builds before touching any file, or the
      error it raises on the way. */
  function ExpandRequests(tables: Tables, template: Row): Result<seq<Request>>
  {
    if "elements_batch_file" in template then
      match template["elements_batch_file"]
      case List(_) => Err(TypeError)
      case Str(path) =>
        if path !in tables then Ok([template])
        else
          var t := tables[path];
          if t.records == [] then Ok([])
          else
            var elements :- Elements(template);
            Ok(BatchRequests(template, elements, t.header, t.records).0)
    else
      var elements :- Elements(template);
      match FirstStudyDate(elements)
      case None => Ok([template])
      case Some(e) =>
        var ranges :- DateRanges(StudyDateRange(e));
        Ok(WindowRequests(template, elements, ranges))
  }

  /** Date-split mode: one request per window `split_date_range` produces, in
      order, each the template with that window as its StudyDate. */
  lemma ExpandDateSplit(tables: Tables, template: Row, elements: seq<string>, e: string, ranges: seq<string>)
    requires "elements_batch_file" !in template
    requires Elements(template) == Ok(elements)
    requires FirstStudyDate(elements) == Some(e)
    requires DateRanges(StudyDateRange(e)) == Ok(ranges)
    ensures ExpandRequests(tables, template) == Ok(WindowRequests(template, elements, ranges))
    ensures |ExpandRequests(tables, template).value| == |ranges|
  {
  }

  /** Without a batch file key and without a StudyDate element, or with a batch
      file that does not exist, the template alone is the worklist. */
  lemma ExpandTemplateAlone(tables: Tables, template: Row)
    requires || ("elements_batch_file" in template && template["elements_batch_file"].Str?
                 && template["elements_batch_file"].text !in tables)
             || ("elements_batch_file" !in template && Elements(template).Ok?
                 && FirstStudyDate(Elements(template).value).None?)
    ensures ExpandRequests(tables, template) == Ok([template])
  {
  }

  /** Every request of the worklist has the template's keys. */
  lemma ExpandKeys(tables: Tables, template: Row)
    requires ExpandRequests(tables, template).Ok?
    ensures forall i :: 0 <= i < |ExpandRequests(tables, template).value| ==>
      ExpandRequests(tables, template).value[i].Keys == template.Keys
  {
    var reqs := ExpandRequests(tables, template).value;
    if "elements_batch_file" in template {
      var path := template["elements_batch_file"].text;
      if path in tables && tables[path].records != [] {
        var t := tables[path];
        BatchShape(template, Elements(template).value, t.header, t.records);
      }
    } else {
      var elements := Elements(template).value;
      if FirstStudyDate(elements).Some? {
        var ranges := DateRanges(StudyDateRange(FirstStudyDate(elements).value)).value;
        forall i | 0 <= i < |reqs| ensures reqs[i].Keys == template.Keys {
          if elements != [] { WindowRequestsAt(template, elements, ranges, i, 0); }
        }
      }
    }
  }

  // ---------------------------------------------------------------------------
  // Resetting the state files and recording the worklist

  lemma SuffixChar(p: string, suffix: string, k: int)
    requires EndsWith(p, suffix) && 0 < k <= |suffix|
    ensures p[|p| - k] == suffix[|suffix| - k]
  {
    assert p[|p| - |suffix|..][|suffix| - k] == p[|p| - k];
  }

  /** The three state files are three different files. */
  lemma StatePathsDistinct(directory: string)
    ensures WholePath(directory) != CompletedPath(directory)
    ensures WholePath(directory) != FailedPath(directory)
    ensures CompletedPath(directory) != FailedPath(directory)
  {
    var w, c, f := WholePath(directory), CompletedPath(directory), FailedPath(directory);
    SuffixChar(w, "requests.whole", 1);
    SuffixChar(c, "requests.completed", 1);
    SuffixChar(c, "requests.completed", 3);
    SuffixChar(f, "requests.failed", 1);
    SuffixChar(f, "requests.failed", 3);
  }

  /** The files after `create_requests` has built `reqs`: the three state files
      removed, then every request written to `requests.whole` with its own keys. */
  ghost function CreatedTables(tables: Tables, directory: string, template: Row, reqs: seq<Request>): Tables
  {
    var reset := tables - {WholePath(directory)} - {CompletedPath(directory)} - {FailedPath(directory)};
    WriteAll(reset, WholePath(directory), reqs, SortedKeys(template.Keys))
  }

  /** After `create_requests`, `requests.whole` reads back as exactly the new
      worklist (and is absent when it is empty), `requests.completed` and
      `requests.failed` are gone, and no other file has changed. */
  lemma CreateResetsState(tables: Tables, directory: string, template: Row, reqs: seq<Request>)
    requires forall i :: 0 <= i < |reqs| ==> reqs[i].Keys == template.Keys
    ensures var after := CreatedTables(tables, directory, template, reqs);
      && Rows(after, WholePath(directory)) == reqs
      && (WholePath(directory) in after <==> reqs != [])
      && CompletedPath(directory) !in after
      && FailedPath(directory) !in after
      && forall p :: p !in {WholePath(directory), CompletedPath(directory), FailedPath(directory)} ==>
           (p in after <==> p in tables) && (p in tables ==> after[p] == tables[p])
  {
    StatePathsDistinct(directory);
    var w := WholePath(directory);
    var cols := SortedKeys(template.Keys);
    var reset := tables - {w} - {CompletedPath(directory)} - {FailedPath(directory)};
    assert forall i :: 0 <= i < |reqs| ==> KeysAre(reqs[i], cols);
    WriteAllReadBack(reset, w, reqs, cols);
    WriteAllFrame(reset, w, reqs, cols);
  }

  /** `create_requests(config)` on the store: expand the template, remove the
      three state files, write each request to `requests.whole`, return the list.
      An error raised while expanding leaves every file untouched. */
  method CreateRequests(store: RequestStore, template: Row, directory: string) returns (r: Result<seq<Request>>)
    modifies store
    ensures r == ExpandRequests(old(store.tables), template)
    ensures r.Ok? ==> store.tables == CreatedTables(old(store.tables), directory, template, r.value)
    ensures r.Err? ==> store.tables == old(store.tables)
  {
    var requests :- Expand(store.tables, template);
    ExpandKeys(old(store.tables), template);
    var whole := WholePath(directory);
    store.RemoveIfExists(whole);
    store.RemoveIfExists(CompletedPath(directory));
    store.RemoveIfExists(FailedPath(directory));
    ghost var cols := SortedKeys(template.Keys);
    var i := 0;
    while i < |requests|
      invariant 0 <= i <= |requests|
      invariant WriteAll(store.tables, whole, requests[i..], cols)
             == CreatedTables(old(store.tables), directory, template, requests)
    {
      var keys := KeysOf(requests[i]);
      WriteStep(store.tables, whole, requests, i, keys, cols);
      var _ := store.DictToCsv(requests[i], whole, keys);
      i := i + 1;
    }
    r := Ok(requests);
  }

  /** One request written with its own key order is the next step of writing
      the worklist with the template's sorted columns. */
  lemma WriteStep(tables: Tables, path: string, requests: seq<Request>, i: nat, keys: seq<string>, cols: seq<string>)
    requires i < |requests|
    requires NoDup(keys) && KeysAre(requests[i], keys)
    requires NoDup(cols) && KeysAre(requests[i], cols)
    ensures WriteAll(tables, path, requests[i..], cols) == WriteAll(AfterWrite(tables, path, requests[i], keys), path, requests[i + 1..], cols)
  {
    KeysOfWrite(tables, path, requests[i], keys, cols);
    assert requests[i..][1..] == requests[i + 1..];
  }

  /** The expansion part of `create_requests`, which reads the batch file but writes nothing. */
  method Expand(tables: Tables, template: Row) returns (r: Result<seq<Request>>)
    ensures r == ExpandRequests(tables, template)
  {
    if "elements_batch_file" in template {
      var file := template["elements_batch_file"];
      if file.List? {
        return Err(TypeError);
      }
      if file.text !in tables {
        return Ok([template]);
      }
      var t := tables[file.text];
      if t.records == [] {
        return Ok([]);
      }
      var elements :- Elements(template);
      var requests := ExpandBatch(template, elements, t.header, t.records);
      return Ok(requests);
    }
    var elements :- Elements(template);
    var studyDate := FindStudyDate(elements);
    if studyDate.None? {
      return Ok([template]);
    }
    var ranges :- SplitDateRange(StudyDateRange(studyDate.value));
    var requests := ExpandWindows(template, elements, ranges);
    return Ok(requests);
  }

  /** The loop over the date windows: one copy of the template per window. */
  method ExpandWindows(template: Row, elements: seq<string>, ranges: seq<string>) returns (requests: seq<Request>)
    ensures requests == WindowRequests(template, elements, ranges)
  {
    requests := [];
    var i := 0;
    assert ranges[i..] == ranges;
    while i < |ranges|
      invariant 0 <= i <= |ranges|
      invariant requests + WindowRequests(template, elements, ranges[i..]) == WindowRequests(template, elements, ranges)
    {
      var req := template["elements" := List(ReplaceStudyDate(elements, ranges[i]))];
      assert WindowRequests(template, elements, ranges[i..]) == [req] + WindowRequests(template, elements, ranges[i + 1..]) by {
        assert ranges[i..][1..] == ranges[i + 1..];
      }
      ConsAppend(requests, [req] + WindowRequests(template, elements, ranges[i + 1..]));
      requests := requests + [req];
      i := i + 1;
    }
    assert ranges[i..] == [];
  }

  /** One line's worth of `BatchRequests`. */
  lemma BatchStep(template: Row, tmpl: seq<string>, header: seq<string>, recs: seq<Record>, j: int)
    requires 0 <= j < |recs|
    ensures var s := AddKeys(Lists(tmpl, tmpl, true), RowKeys(header, recs[j]), Zip(header, recs[j]));
      BatchRequests(template, tmpl, header, recs[j..]).0
      == [template["elements" := List(Sort(s.elements))]] + BatchRequests(template, s.template, header, recs[j + 1..]).0
  {
    assert recs[j..][1..] == recs[j + 1..];
  }

  /** The loop over the batch file's lines. */
  method ExpandBatch(template: Row, elements: seq<string>, header: seq<string>, recs: seq<Record>) returns (requests: seq<Request>)
    ensures requests == BatchRequests(template, elements, header, recs).0
  {
    requests := [];
    var tmpl := elements;
    var j := 0;
    assert recs[j..] == recs;
    while j < |recs|
      invariant 0 <= j <= |recs|
      invariant BatchRequests(template, elements, header, recs).0 == requests + BatchRequests(template, tmpl, header, recs[j..]).0
    {
      // row_request = template.copy(): its element list is still the template's
      var rowElements, tmplAfter := AddRow(tmpl, RowKeys(header, recs[j]), Zip(header, recs[j]));
      var req := template["elements" := List(Sort(rowElements))];
      assert BatchRequests(template, elements, header, recs).0
             == (requests + [req]) + BatchRequests(template, tmplAfter, header, recs[j + 1..]).0 by {
        BatchStep(template, tmpl, header, recs, j);
        ConsAppend(requests, [req] + BatchRequests(template, tmplAfter, header, recs[j + 1..]).0);
      }
      requests := requests + [req];
      tmpl := tmplAfter;
      j := j + 1;
    }
    assert recs[j..] == [];
  }

  /** The loop over one line's columns, starting from a request that shares the
      template's element list. */
  method AddRow(tmpl: seq<string>, keys: seq<string>, row: Row) returns (elements: seq<string>, tmplAfter: seq<string>)
    requires forall k :: k in keys ==> k in row
    ensures elements == AddKeys(Lists(tmpl, tmpl, true), keys, row).elements
    ensures tmplAfter == AddKeys(Lists(tmpl, tmpl, true), keys, row).template
  {
    elements := tmpl;
    tmplAfter := tmpl;
    var shared := true;
    var i := 0;
    while i < |keys|
      invariant 0 <= i <= |keys|
      invariant AddKeys(Lists(tmpl, tmpl, true), keys, row) == AddKeys(Lists(elements, tmplAfter, shared), keys[i..], row)
    {
      var value := Display(row[keys[i]]);
      assert keys[i..][1..] == keys[i + 1..];
      if GuardList(elements, keys[i]) != [] {
        elements := Replaced(elements, keys[i], value);
        shared := false;
      } else {
        // element_list.append(...): seen through every name for the list
        elements := elements + [keys[i] + "=" + value];
        if shared {
          tmplAfter := elements;
        }
      }
      i := i + 1;
    }
  }

  /** The loop that looks for the first `StudyDate=` element. */
  method FindStudyDate(elements: seq<string>) returns (found: Option<string>)
    ensures found == FirstStudyDate(elements)
  {
    found := None;
    var k := 0;
    while k < |elements|
      invariant 0 <= k <= |elements|
      invariant FirstStudyDate(elements) == FirstStudyDate(elements[k..])
    {
      assert elements[k..][1..] == elements[k + 1..];
      if StartsWith(elements[k], "StudyDate=") {
        found := Some(elements[k]);
        break;
      }
      k := k + 1;
    }
  }
}
