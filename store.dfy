/** The CSV files the batch keeps its state in (`requests.whole`,
    `requests.completed`, `requests.failed`, the result database and the batch
    file of element rows), modelled as tables held in a map from path to
    header and records, with the three helpers that read and write them. */
module Store {

  import opened Outcomes
  import opened Text

  /** What a cell holds once `str()` has rendered a value: plain text, or a
      list of strings (a request's `elements`, stored as its list literal). */
  datatype Cell = Str(text: string) | List(items: seq<string>)

  /** A dict as `csv.DictWriter` takes it and `csv.DictReader` gives it back. */
  type Row = map<string, Cell>

  /** One line of a CSV file after the header. */
  type Record = seq<Cell>

  datatype Table = Table(header: seq<string>, records: seq<Record>)

  /** The file system, as far as the batch sees it: a table per existing path. */
  type Tables = map<string, Table>

  /** A dataset whose elements are given by keyword, each with `str(value)`. */
  type Dataset = map<string, string>

  // ---------------------------------------------------------------------------
  // Paths

  predicate EndsWith(s: string, suffix: string)
  {
    |suffix| <= |s| && s[|s| - |suffix|..] == suffix
  }

  /** `os.path.join(dir, name)` for two components on POSIX. */
  function PathJoin(dir: string, name: string): (p: string)
    ensures EndsWith(p, name)
    ensures !StartsWith(name, "/") && dir != "" ==> StartsWith(p, dir)
  {
    if StartsWith(name, "/") then name
    else if dir == "" || EndsWith(dir, "/") then dir + name
    else dir + "/" + name
  }

  /** Length of the prefix of `p` up to and including its last `/` (0 if none). */
  function LastSlashEnd(p: string): (n: nat)
    ensures n <= |p|
    ensures n > 0 ==> p[n - 1] == '/'
    ensures forall i :: n <= i < |p| ==> p[i] != '/'
  {
    if p == [] then 0
    else if p[|p| - 1] == '/' then |p|
    else LastSlashEnd(p[..|p| - 1])
  }

  predicate AllSlashes(s: string)
  {
    forall i :: 0 <= i < |s| ==> s[i] == '/'
  }

  function TrimTrailingSlashes(s: string): (r: string)
    ensures |r| <= |s| && r == s[..|r|]
    ensures r == [] || r[|r| - 1] != '/'
  {
    if s == [] || s[|s| - 1] != '/' then s else TrimTrailingSlashes(s[..|s| - 1])
  }

  /** `os.path.dirname(p)` on POSIX: everything before the last `/`, with the
      trailing slashes dropped unless the head is slashes only. */
  function DirName(p: string): (d: string)
  {
    var head := p[..LastSlashEnd(p)];
    if head != "" && !AllSlashes(head) then TrimTrailingSlashes(head) else head
  }

  /** The last slash of `dir/name` is the one the join inserted. */
  lemma {:induction false} LastSlashOfJoin(dir: string, name: string)
    requires '/' !in name
    ensures LastSlashEnd(dir + "/" + name) == |dir| + 1
    decreases |name|
  {
    var p := dir + "/" + name;
    if name != [] {
      var init := name[..|name| - 1];
      assert name[|name| - 1] in name;
      assert '/' !in init by { assert forall c :: c in init ==> c in name; }
      assert p[..|p| - 1] == dir + "/" + init;
      LastSlashOfJoin(dir, init);
    }
  }

  /** Taking the directory of a joined path gives back the directory, for a
      relative file name without slashes and a directory without a trailing one. */
  lemma DirNameOfJoin(dir: string, name: string)
    requires '/' !in name
    requires dir == "" || dir[|dir| - 1] != '/'
    requires dir == "" || !AllSlashes(dir)
    ensures DirName(PathJoin(dir, name)) == dir
  {
    assert !StartsWith(name, "/") by { if |name| > 0 { assert name[0] != '/'; } }
    if dir == "" {
      assert PathJoin(dir, name) == name;
      assert LastSlashEnd(name) == 0;
    } else {
      assert !EndsWith(dir, "/");
      var p := dir + "/" + name;
      assert PathJoin(dir, name) == p;
      LastSlashOfJoin(dir, name);
      var head := p[..|dir| + 1];
      assert head == dir + "/";
      assert !AllSlashes(head) by { var j :| 0 <= j < |dir| && dir[j] != '/'; assert head[j] == dir[j]; }
      assert head[..|dir|] == dir;
      assert TrimTrailingSlashes(head) == TrimTrailingSlashes(dir);
    }
  }

  // ---------------------------------------------------------------------------
  // Records and the rows read back from them

  function Lookup(d: Row, key: string): Cell
  {
    if key in d then d[key] else Str("")
  }

  /** The line `DictWriter.writerow(d)` writes under the given columns (a missing
      key writes the empty string). */
  function RecordOf(d: Row, columns: seq<string>): (rec: Record)
    ensures |rec| == |columns|
    decreases |columns|
  {
    if columns == [] then [] else [Lookup(d, columns[0])] + RecordOf(d, columns[1..])
  }

  /** The dict `DictReader` builds from one line: header names paired with the
      cells in order, a later duplicate name overriding an earlier one. */
  function Zip(header: seq<string>, rec: Record): Row
    decreases |header|
  {
    if header == [] || rec == [] then map[] else map[header[0] := rec[0]] + Zip(header[1..], rec[1..])
  }

  /** The rows `DictReader` yields from a table. */
  function ReadTable(t: Table): (rows: seq<Row>)
    ensures |rows| == |t.records|
  {
    ReadRecords(t.header, t.records)
  }

  function ReadRecords(header: seq<string>, recs: seq<Record>): (rows: seq<Row>)
    ensures |rows| == |recs|
    decreases |recs|
  {
    if recs == [] then [] else [Zip(header, recs[0])] + ReadRecords(header, recs[1..])
  }

  lemma {:induction false} ReadRecordsAppend(header: seq<string>, recs: seq<Record>, rec: Record)
    ensures ReadRecords(header, recs + [rec]) == ReadRecords(header, recs) + [Zip(header, rec)]
    decreases |recs|
  {
    if recs != [] {
      assert (recs + [rec])[1..] == recs[1..] + [rec];
      ReadRecordsAppend(header, recs[1..], rec);
    } else {
      assert ReadRecords(header, [rec]) == [Zip(header, rec)] + ReadRecords(header, []);
    }
  }

  /** `d` cut down to the given keys, with `DictWriter`'s empty default for a key it lacks. */
  function Restrict(d: Row, keys: seq<string>): (r: Row)
    ensures forall k :: k in r <==> k in keys
    ensures forall k :: k in r ==> r[k] == Lookup(d, k)
    decreases |keys|
  {
    if keys == [] then map[] else map[keys[0] := Lookup(d, keys[0])] + Restrict(d, keys[1..])
  }

  /** Reading back a line written under some columns, under the same columns,
      gives the written dict cut down to those columns; duplicate columns are harmless. */
  lemma {:induction false} ZipRecordOf(d: Row, columns: seq<string>)
    ensures Zip(columns, RecordOf(d, columns)) == Restrict(d, columns)
    decreases |columns|
  {
    if columns != [] {
      var rest := columns[1..];
      ZipRecordOf(d, rest);
      assert RecordOf(d, columns)[1..] == RecordOf(d, rest);
    }
  }

  /** Cutting a dict down to exactly its own keys changes nothing. */
  lemma RestrictAll(d: Row, keys: seq<string>)
    requires forall k :: k in d <==> k in keys
    ensures Restrict(d, keys) == d
  {
  }

  // ---------------------------------------------------------------------------
  // dict_to_csv, request_from_csv, dataset_to_csv as functions of the tables

  /** `DictWriter` refuses (ValueError) a dict with a key outside its fieldnames. */
  predicate Writable(d: Row, fieldnames: seq<string>)
  {
    forall k :: k in d ==> k in fieldnames
  }

  /** The table at `path` once `dict_to_csv` has opened it: the existing one,
      or a new one holding only the sorted header. */
  function Opened(tables: Tables, path: string, fieldnames: seq<string>): Table
  {
    if path in tables then tables[path] else Table(Sort(fieldnames), [])
  }

  /** The tables after `dict_to_csv(d, path, fieldnames)`: the header step, then
      one line written in the order of the sorted fieldnames of this call. */
  function AfterWrite(tables: Tables, path: string, d: Row, fieldnames: seq<string>): Tables
  {
    var t := Opened(tables, path, fieldnames);
    tables[path := if Writable(d, fieldnames) then Table(t.header, t.records + [RecordOf(d, Sort(fieldnames))]) else t]
  }

  /** Writing never touches another file, writes the sorted header exactly when the
      file is new, keeps every earlier line and appends exactly one. */
  lemma DictToCsvAppends(tables: Tables, path: string, d: Row, fieldnames: seq<string>)
    requires Writable(d, fieldnames)
    ensures var after := AfterWrite(tables, path, d, fieldnames);
      && after.Keys == tables.Keys + {path}
      && (forall p :: p in tables && p != path ==> after[p] == tables[p])
      && after[path].header == (if path in tables then tables[path].header else Sort(fieldnames))
      && Sorted(after[path].header) == (path in tables ==> Sorted(tables[path].header))
      && multiset(after[path].header) == (if path in tables then multiset(tables[path].header) else multiset(fieldnames))
      && |after[path].records| == (if path in tables then |tables[path].records| else 0) + 1
      && (path in tables ==> after[path].records[..|tables[path].records|] == tables[path].records)
  {
    var after := AfterWrite(tables, path, d, fieldnames);
    if path in tables {
      assert after[path].records[..|tables[path].records|] == tables[path].records;
    }
  }

  /** The append-only view: when the header already matches this call's fieldnames
      and the dict has exactly those keys, the rows read back are the earlier ones
      followed by the dict itself. */
  lemma {:induction false} DictToCsvReadBack(tables: Tables, path: string, d: Row, fieldnames: seq<string>)
    requires forall k :: k in d <==> k in fieldnames
    requires path in tables ==> tables[path].header == Sort(fieldnames)
    ensures ReadTable(AfterWrite(tables, path, d, fieldnames)[path])
         == (if path in tables then ReadTable(tables[path]) else []) + [d]
  {
    var cols := Sort(fieldnames);
    var t := Opened(tables, path, fieldnames);
    assert t.header == cols;
    ReadRecordsAppend(cols, t.records, RecordOf(d, cols));
    ZipRecordOf(d, cols);
    SortSameMembers(fieldnames);
    RestrictAll(d, cols);
  }

  lemma SortSameMembers(s: seq<string>)
    ensures forall k :: k in Sort(s) <==> k in s
  {
    assert forall k :: k in Sort(s) <==> k in multiset(Sort(s));
    assert forall k :: k in s <==> k in multiset(s);
  }

  /** What `request_from_csv(path)` returns: the rows of the file, or none when it is missing. */
  function Rows(tables: Tables, path: string): (rows: seq<Row>)
    ensures path !in tables ==> rows == []
    ensures path in tables ==> |rows| == |tables[path].records|
  {
    if path in tables then ReadTable(tables[path]) else []
  }

  /** The first of `keys` that the dataset lacks, if any. */
  function FirstMissing(ds: Dataset, keys: seq<string>): (r: Option<string>)
    ensures r.None? <==> forall k :: k in keys ==> k in ds
    ensures r.Some? ==> r.value in keys && r.value !in ds
    decreases |keys|
  {
    if keys == [] then None
    else if keys[0] !in ds then Some(keys[0])
    else FirstMissing(ds, keys[1..])
  }

  /** The dict `dataset_to_csv` builds: each keyword with `str` of its value. */
  function DatasetRow(ds: Dataset, keys: seq<string>): (d: Row)
    requires forall k :: k in keys ==> k in ds
    ensures forall k :: k in d <==> k in keys
    ensures forall k :: k in d ==> d[k] == Str(ds[k])
    decreases |keys|
  {
    if keys == [] then map[] else map[keys[0] := Str(ds[keys[0]])] + DatasetRow(ds, keys[1..])
  }

  /** The loop of `dataset_to_csv` that builds its dict, raising KeyError at
      the first keyword the dataset lacks. */
  method DatasetRowOf(ds: Dataset, keys: seq<string>) returns (r: Result<Row>)
    ensures r.Err? <==> FirstMissing(ds, keys).Some?
    ensures r.Err? ==> r == Err(KeyError(FirstMissing(ds, keys).value))
    ensures r.Ok? ==> r.value == DatasetRow(ds, keys)
  {
    var row: Row := map[];
    var i := 0;
    while i < |keys|
      invariant 0 <= i <= |keys|
      invariant forall k :: k in keys[..i] ==> k in ds
      invariant row == DatasetRow(ds, keys[..i])
    {
      if keys[i] !in ds {
        FirstMissingAt(ds, keys, i);
        return Err(KeyError(keys[i]));
      }
      assert keys[..i + 1] == keys[..i] + [keys[i]];
      DatasetRowSnoc(ds, keys[..i], keys[i]);
      row := row[keys[i] := Str(ds[keys[i]])];
      i := i + 1;
    }
    assert keys[..i] == keys;
    return Ok(row);
  }

  /** The first keyword missing is the first one, in order, that is missing. */
  lemma {:induction false} FirstMissingAt(ds: Dataset, keys: seq<string>, i: nat)
    requires i < |keys| && keys[i] !in ds
    requires forall k :: k in keys[..i] ==> k in ds
    ensures FirstMissing(ds, keys) == Some(keys[i])
    decreases i
  {
    if i > 0 {
      assert keys[0] in keys[..i];
      assert keys[1..][..i - 1] == keys[..i][1..];
      FirstMissingAt(ds, keys[1..], i - 1);
    }
  }

  lemma DatasetRowSnoc(ds: Dataset, keys: seq<string>, k: string)
    requires forall x :: x in keys + [k] ==> x in ds
    ensures DatasetRow(ds, keys + [k]) == DatasetRow(ds, keys)[k := Str(ds[k])]
  {
  }

  /** `dataset_to_csv(ds, path, keys)`: KeyError for the first keyword the dataset
      lacks, before anything is written; otherwise one line of its values. */
  function DatasetWrite(tables: Tables, path: string, ds: Dataset, keys: seq<string>): Result<Tables>
  {
    match FirstMissing(ds, keys)
    case Some(k) => Err(KeyError(k))
    case None => Ok(AfterWrite(tables, path, DatasetRow(ds, keys), keys))
  }

  /** A dataset with every keyword is written as one row that reads back as the
      keywords with their values. */
  lemma DatasetReadBack(tables: Tables, path: string, ds: Dataset, keys: seq<string>)
    requires forall k :: k in keys ==> k in ds
    requires path !in tables
    ensures DatasetWrite(tables, path, ds, keys).Ok?
    ensures Rows(DatasetWrite(tables, path, ds, keys).value, path) == [DatasetRow(ds, keys)]
  {
    DictToCsvReadBack(tables, path, DatasetRow(ds, keys), keys);
  }

  // ---------------------------------------------------------------------------
  // Writing whole dicts: the fieldnames are the dict's own keys

  ghost predicate NoDup(ks: seq<string>)
  {
    forall k :: multiset(ks)[k] <= 1
  }

  /** Some duplicate-free list enumerates any finite set of keys. */
  lemma {:induction false} Enumerate(keys: set<string>) returns (ks: seq<string>)
    ensures NoDup(ks) && forall k :: k in ks <==> k in keys
    decreases |keys|
  {
    if keys == {} {
      ks := [];
    } else {
      var x :| x in keys;
      var rest := Enumerate(keys - {x});
      ks := [x] + rest;
      assert multiset(ks) == multiset{x} + multiset(rest);
    }
  }

  lemma SortedEnumerationExists(keys: set<string>)
    ensures exists ks :: Sorted(ks) && NoDup(ks) && forall k :: k in ks <==> k in keys
  {
    var e := Enumerate(keys);
    var s := Sort(e);
    assert forall k :: k in s <==> k in multiset(e);
    assert Sorted(s) && NoDup(s) && forall k :: k in s <==> k in keys;
  }

  /** `sorted(d.keys())`: the keys in code-point order. */
  ghost function SortedKeys(keys: set<string>): (ks: seq<string>)
    ensures Sorted(ks) && NoDup(ks) && forall k :: k in ks <==> k in keys
  {
    SortedEnumerationExists(keys);
    var ks :| Sorted(ks) && NoDup(ks) && forall k :: k in ks <==> k in keys;
    ks
  }

  /** Two duplicate-free lists of the same keys sort to the same header. */
  lemma SameKeysSameSort(a: seq<string>, b: seq<string>)
    requires NoDup(a) && NoDup(b) && forall k :: k in a <==> k in b
    ensures Sort(a) == Sort(b)
  {
    forall k ensures multiset(a)[k] == multiset(b)[k] {
      assert k in a <==> k in multiset(a);
      assert k in b <==> k in multiset(b);
    }
    assert multiset(a) == multiset(b);
    SortedUnique(Sort(a), Sort(b));
  }

  lemma SortSorted(s: seq<string>)
    requires Sorted(s)
    ensures Sort(s) == s
  {
    SortedUnique(Sort(s), s);
  }

  /** `dict_to_csv(d, path, fieldnames)` for each dict in turn. */
  function WriteAll(tables: Tables, path: string, ds: seq<Row>, fieldnames: seq<string>): Tables
    decreases |ds|
  {
    if ds == [] then tables
    else WriteAll(AfterWrite(tables, path, ds[0], fieldnames), path, ds[1..], fieldnames)
  }

  /** Writing to one file leaves every other file as it was, and the file
      exists afterwards when it did before or something was written. */
  lemma {:induction false} WriteAllFrame(tables: Tables, path: string, ds: seq<Row>, fieldnames: seq<string>)
    ensures forall p :: p != path ==> (p in WriteAll(tables, path, ds, fieldnames) <==> p in tables)
    ensures forall p :: p != path && p in tables ==> WriteAll(tables, path, ds, fieldnames)[p] == tables[p]
    ensures path in WriteAll(tables, path, ds, fieldnames) <==> path in tables || ds != []
    decreases |ds|
  {
    if ds != [] {
      WriteAllFrame(AfterWrite(tables, path, ds[0], fieldnames), path, ds[1..], fieldnames);
    }
  }

  /** The dict's keys are exactly the listed names. */
  ghost predicate KeysAre(d: Row, fieldnames: seq<string>)
  {
    d.Keys == set k | k in fieldnames
  }

  /** `DictToCsvReadBack` in terms of `request_from_csv`. */
  lemma WriteOne(tables: Tables, path: string, d: Row, fieldnames: seq<string>)
    requires KeysAre(d, fieldnames)
    requires path in tables ==> tables[path].header == Sort(fieldnames)
    ensures Rows(AfterWrite(tables, path, d, fieldnames), path) == Rows(tables, path) + [d]
  {
    DictToCsvReadBack(tables, path, d, fieldnames);
  }

  /** Writing dicts whose keys are exactly the fieldnames, to a file that is new
      or already has their sorted header, appends them in order. */
  lemma {:induction false} WriteAllReadBack(tables: Tables, path: string, ds: seq<Row>, fieldnames: seq<string>)
    requires forall i :: 0 <= i < |ds| ==> KeysAre(ds[i], fieldnames)
    requires path in tables ==> tables[path].header == Sort(fieldnames)
    ensures Rows(WriteAll(tables, path, ds, fieldnames), path) == Rows(tables, path) + ds
    decreases |ds|
  {
    if ds != [] {
      var next := AfterWrite(tables, path, ds[0], fieldnames);
      var tail := ds[1..];
      assert path in next ==> next[path].header == Sort(fieldnames);
      WriteOne(tables, path, ds[0], fieldnames);
      assert forall i :: 0 <= i < |tail| ==> tail[i] == ds[i + 1];
      WriteAllReadBack(next, path, tail, fieldnames);
      ConsAppend(Rows(tables, path), ds);
    }
  }

  lemma ConsAppend<T>(a: seq<T>, s: seq<T>)
    requires s != []
    ensures a + s == (a + [s[0]]) + s[1..]
  {
    assert s == [s[0]] + s[1..];
  }
  // ---------------------------------------------------------------------------
  // The store itself

  /** `d.keys()`, in some order. */
  method KeysOf(d: Row) returns (ks: seq<string>)
    ensures NoDup(ks) && KeysAre(d, ks)
  {
    ks := [];
    var left := d.Keys;
    while left != {}
      invariant NoDup(ks)
      invariant forall k :: k in ks <==> k in d && k !in left
      invariant left <= d.Keys
      decreases |left|
    {
      var k :| k in left;
      assert multiset(ks + [k]) == multiset(ks) + multiset{k};
      ks := ks + [k];
      left := left - {k};
    }
  }

  /** Writing with a dict's keys in one order or another is the same write. */
  lemma KeysOfWrite(tables: Tables, path: string, d: Row, ks: seq<string>, fieldnames: seq<string>)
    requires NoDup(ks) && KeysAre(d, ks)
    requires NoDup(fieldnames) && KeysAre(d, fieldnames)
    ensures AfterWrite(tables, path, d, ks) == AfterWrite(tables, path, d, fieldnames)
  {
    assert forall k :: k in ks <==> k in d.Keys;
    assert forall k :: k in fieldnames <==> k in d.Keys;
    SameKeysSameSort(ks, fieldnames);
    assert Writable(d, ks) && Writable(d, fieldnames);
    assert Opened(tables, path, ks) == Opened(tables, path, fieldnames);
  }

  /** The files, updated in place by the batch. */
  class RequestStore {
    var tables: Tables

    constructor (initial: Tables)
      ensures tables == initial
    {
      tables := initial;
    }

    /** `dict_to_csv`: write the sorted header if the file is new, then one line;
        ValueError (after the header) for a key outside the fieldnames. */
    method DictToCsv(d: Row, path: string, fieldnames: seq<string>) returns (r: Result<()>)
      modifies this
      ensures tables == AfterWrite(old(tables), path, d, fieldnames)
      ensures r == if Writable(d, fieldnames) then Ok(()) else Err(ValueError)
    {
      var t: Table;
      if path in tables {
        t := tables[path];
      } else {
        t := Table(Sort(fieldnames), []);
      }
      if Writable(d, fieldnames) {
        tables := tables[path := Table(t.header, t.records + [RecordOf(d, Sort(fieldnames))])];
        r := Ok(());
      } else {
        tables := tables[path := t];
        r := Err(ValueError);
      }
    }

    /** `request_from_csv`. */
    method RequestFromCsv(path: string) returns (rows: seq<Row>)
      ensures rows == Rows(tables, path)
      ensures path in tables ==> |rows| == |tables[path].records|
    {
      if path in tables {
        rows := ReadTable(tables[path]);
      } else {
        rows := [];
      }
    }

    /** `dataset_to_csv`: gather `str(ds[key])` key by key, then `dict_to_csv`. */
    method DatasetToCsv(ds: Dataset, path: string, keys: seq<string>) returns (r: Result<()>)
      modifies this
      ensures r.Ok? <==> DatasetWrite(old(tables), path, ds, keys).Ok?
      ensures r.Ok? ==> tables == DatasetWrite(old(tables), path, ds, keys).value
      ensures r.Err? ==> tables == old(tables) && r == Err(DatasetWrite(old(tables), path, ds, keys).error)
    {
      var row :- DatasetRowOf(ds, keys);
      r := DictToCsv(row, path, keys);
      assert Writable(row, keys);
    }

    /** `os.remove(path)` after an existence check. */
    method RemoveIfExists(path: string)
      modifies this
      ensures tables == old(tables) - {path}
    {
      if path in tables {
        tables := tables - {path};
      }
    }
  }
}
