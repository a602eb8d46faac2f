/** The worker (`SCU`): the query model it asks for, its association with
    bounded retries, and the handling of the response stream of each C-FIND
    and C-MOVE request, which appends result rows to the database file and the
    request itself to `requests.completed` or `requests.failed`. The network
    is replaced by inputs: the outcome of each association attempt, and for
    each request the responses it receives. */
module Worker {

  import opened Outcomes
  import opened Text
  import opened Store
  import opened Planner
  import opened Schedule

  // ---------------------------------------------------------------------------
  // create_query_model: the Query/Retrieve information models of DICOM PS3.4 Annex C

  const PatientRootFind := "1.2.840.10008.5.1.4.1.2.1.1"
  const PatientRootMove := "1.2.840.10008.5.1.4.1.2.1.2"
  const StudyRootFind := "1.2.840.10008.5.1.4.1.2.2.1"
  const StudyRootMove := "1.2.840.10008.5.1.4.1.2.2.2"
  const PatientStudyOnlyFind := "1.2.840.10008.5.1.4.1.2.3.1"
  const PatientStudyOnlyMove := "1.2.840.10008.5.1.4.1.2.3.2"

  /** The information model roots: their UIDs without the FIND/MOVE component. */
  const PatientRoot := "1.2.840.10008.5.1.4.1.2.1"
  const StudyRoot := "1.2.840.10008.5.1.4.1.2.2"
  const PatientStudyOnlyRoot := "1.2.840.10008.5.1.4.1.2.3"

  /** The SOP class UID for a request type and `model` setting: `study` and
      `psonly` pick those roots, anything else the patient root; types other
      than c-find and c-move get none. The model is looked up only for those
      two types, so only they raise KeyError when it is missing. */
  function QueryModel(requestType: string, model: Option<string>): (r: Result<Option<string>>)
    ensures Lower(requestType) != "c-find" && Lower(requestType) != "c-move" ==> r == Ok(None)
    ensures r.Err? <==> (Lower(requestType) == "c-find" || Lower(requestType) == "c-move") && model.None?
    ensures r.Ok? && r.value.Some? ==>
      (Lower(requestType) == "c-find" <==> EndsWith(r.value.value, ".1"))
    ensures r.Ok? && r.value.Some? ==> |r.value.value| == |PatientRoot| + 2
    ensures r.Ok? && r.value.Some? ==>
      var root := r.value.value[..|PatientRoot|];
      && (model.value == "study" <==> root == StudyRoot)
      && (model.value == "psonly" <==> root == PatientStudyOnlyRoot)
      && (model.value != "study" && model.value != "psonly" <==> root == PatientRoot)
  {
    var kind := Lower(requestType);
    RootsOfModels();
    if kind != "c-find" && kind != "c-move" then Ok(None)
    else if model.None? then Err(KeyError("model"))
    else if kind == "c-find" then
      Ok(Some(if model.value == "study" then StudyRootFind
              else if model.value == "psonly" then PatientStudyOnlyFind
              else PatientRootFind))
    else
      Ok(Some(if model.value == "study" then StudyRootMove
              else if model.value == "psonly" then PatientStudyOnlyMove
              else PatientRootMove))
  }

  /** Each query model UID is its root followed by one more component. */
  lemma RootsOfModels()
    ensures PatientRootFind[..|PatientRoot|] == PatientRoot && PatientRootMove[..|PatientRoot|] == PatientRoot
    ensures StudyRootFind[..|PatientRoot|] == StudyRoot && StudyRootMove[..|PatientRoot|] == StudyRoot
    ensures PatientStudyOnlyFind[..|PatientRoot|] == PatientStudyOnlyRoot && PatientStudyOnlyMove[..|PatientRoot|] == PatientStudyOnlyRoot
    ensures PatientRoot != StudyRoot && PatientRoot != PatientStudyOnlyRoot && StudyRoot != PatientStudyOnlyRoot
  {
    assert PatientRoot[24] == '1' && StudyRoot[24] == '2' && PatientStudyOnlyRoot[24] == '3';
  }

  /** For every `model` setting, C-MOVE uses the retrieve counterpart of the
      information model C-FIND uses: the same root with the last component 2. */
  lemma MoveMatchesFind(model: string)
    ensures var find := QueryModel("c-find", Some(model)).value.value;
            var move := QueryModel("c-move", Some(model)).value.value;
      && |find| == |move| && find[..|find| - 1] == move[..|move| - 1]
      && find[|find| - 1] == '1' && move[|move| - 1] == '2'
  {
    assert Lower("c-find") == "c-find";
    assert Lower("c-move") == "c-move";
  }

  // ---------------------------------------------------------------------------
  // Settings, responses and the element keywords

  /** `request.description_filter` of the configuration. */
  datatype DescriptionFilter = DescriptionFilter(enabled: bool, studyDescription: seq<string>, seriesDescription: seq<string>)

  /** The parts of the configuration the worker reads. */
  datatype Settings = Settings(
    requestType: string,
    model: Option<string>,
    descriptionFilter: Option<DescriptionFilter>,
    directory: string,
    databaseFile: string,
    schedule: Option<Window>)

  function DatabasePath(s: Settings): string { PathJoin(s.directory, s.databaseFile) }

  /** One response: its status code (None when the status dataset carries no
      Status, as for an aborted association) and the identifier it returns. */
  datatype Response = Response(status: Option<nat>, identifier: Dataset)

  const Success := 0x0000
  const PendingMatch := 0xFF00
  const PendingWarning := 0xFF01

  /** C-FIND's pending statuses (PS3.4 C.4.1): more matches follow. */
  predicate FindPending(status: Option<nat>)
  {
    status.Some? && (status.value == PendingMatch || status.value == PendingWarning)
  }

  /** C-MOVE's pending status (PS3.4 C.4.2): sub-operations continue. */
  predicate MovePending(status: Option<nat>)
  {
    status == Some(PendingMatch)
  }

  /** The keyword an element path names: the part before `=`. */
  function Keyword(element: string): string { BeforeFirst(element, '=') }

  function Keywords(elements: seq<string>): (ks: seq<string>)
    ensures |ks| == |elements| && forall i :: 0 <= i < |elements| ==> ks[i] == Keyword(elements[i])
  {
    seq(|elements|, i requires 0 <= i < |elements| => Keyword(elements[i]))
  }

  /** The value an element path gives: everything after the first `=`, or empty. */
  function ElementValue(element: string): string
    decreases |element|
  {
    if element == [] then []
    else if element[0] == '=' then element[1..]
    else ElementValue(element[1..])
  }

  /** The identifier `create_dataset` builds: each element sets its keyword,
      a later element for the same keyword overriding an earlier one. */
  function Identifier(elements: seq<string>): (ds: Dataset)
    ensures forall i :: 0 <= i < |elements| ==> Keyword(elements[i]) in ds
    decreases |elements|
  {
    if elements == [] then map[]
    else
      var init := elements[..|elements| - 1];
      var last := elements[|elements| - 1];
      assert forall i :: 0 <= i < |elements| - 1 ==> elements[i] == init[i];
      Identifier(init)[Keyword(last) := ElementValue(last)]
  }

  /** Element `i` is the last to set its keyword. */
  predicate LastFor(elements: seq<string>, i: int)
    requires 0 <= i < |elements|
  {
    forall j :: i < j < |elements| ==> Keyword(elements[j]) != Keyword(elements[i])
  }

  /** The identifier holds exactly the elements' keywords, each set to the
      value of the last element naming it. */
  lemma IdentifierValues(elements: seq<string>)
    ensures forall k :: k in Identifier(elements) ==> exists i :: 0 <= i < |elements| && Keyword(elements[i]) == k
    ensures forall i :: 0 <= i < |elements| && LastFor(elements, i) ==>
      Identifier(elements)[Keyword(elements[i])] == ElementValue(elements[i])
  {
    IdentifierKeys(elements);
    forall i | 0 <= i < |elements| && LastFor(elements, i)
      ensures Identifier(elements)[Keyword(elements[i])] == ElementValue(elements[i])
    {
      IdentifierLast(elements, i);
    }
  }

  lemma {:induction false} IdentifierKeys(elements: seq<string>)
    ensures forall k :: k in Identifier(elements) ==> exists i :: 0 <= i < |elements| && Keyword(elements[i]) == k
    decreases |elements|
  {
    if elements != [] {
      var init := elements[..|elements| - 1];
      IdentifierKeys(init);
      assert forall i :: 0 <= i < |init| ==> elements[i] == init[i];
    }
  }

  lemma {:induction false} IdentifierLast(elements: seq<string>, i: int)
    requires 0 <= i < |elements| && LastFor(elements, i)
    ensures Identifier(elements)[Keyword(elements[i])] == ElementValue(elements[i])
    decreases |elements|
  {
    var n := |elements| - 1;
    if i < n {
      var init := elements[..n];
      assert Keyword(elements[n]) != Keyword(elements[i]);
      assert init[i] == elements[i];
      assert LastFor(init, i) by {
        assert forall j :: i < j < |init| ==> init[j] == elements[j];
      }
      IdentifierLast(init, i);
    }
  }

  // ---------------------------------------------------------------------------
  // The description filter

  /** Some filter string occurs in the description, both upper-cased. */
  predicate MatchesAny(filters: seq<string>, description: string)
  {
    exists i :: 0 <= i < |filters| && Contains(Upper(description), Upper(filters[i]))
  }

  /** Whether a pending C-FIND match is saved: always without an enabled
      filter; otherwise when a study description filter matches, or, for a
      SERIES-level match, a series description filter does. */
  predicate ShouldSave(filter: Option<DescriptionFilter>, id: Dataset)
  {
    || filter.None?
    || !filter.value.enabled
    || ("StudyDescription" in id && MatchesAny(filter.value.studyDescription, id["StudyDescription"]))
    || (&& "SeriesDescription" in id && "QueryRetrieveLevel" in id && id["QueryRetrieveLevel"] == "SERIES"
        && MatchesAny(filter.value.seriesDescription, id["SeriesDescription"]))
  }

  /** Matching ignores case and an empty filter string matches everything. */
  lemma MatchesAnyCharacterised(filters: seq<string>, description: string)
    ensures MatchesAny(filters, description) <==>
      exists i, j :: 0 <= i < |filters| && OccursAt(Upper(description), Upper(filters[i]), j)
    ensures (exists i :: 0 <= i < |filters| && filters[i] == "") ==> MatchesAny(filters, description)
  {
    forall i | 0 <= i < |filters| {
      ContainsAt(Upper(description), Upper(filters[i]));
    }
    if exists i :: 0 <= i < |filters| && filters[i] == "" {
      var i :| 0 <= i < |filters| && filters[i] == "";
      assert OccursAt(Upper(description), Upper(filters[i]), 0);
    }
  }

  /** The loop over the filter strings, stopping at the first match. */
  method AnyFilterMatches(filters: seq<string>, description: string) returns (found: bool)
    ensures found == MatchesAny(filters, description)
  {
    var desc := Upper(description);
    found := false;
    var i := 0;
    while i < |filters|
      invariant 0 <= i <= |filters|
      invariant forall k :: 0 <= k < i ==> !Contains(desc, Upper(filters[k]))
    {
      if Contains(desc, Upper(filters[i])) {
        found := true;
        break;
      }
      i := i + 1;
    }
  }

  /** `should_save` as the C-FIND loop computes it. */
  method ShouldSaveResponse(filter: Option<DescriptionFilter>, id: Dataset) returns (save: bool)
    ensures save == ShouldSave(filter, id)
  {
    save := true;
    if filter.Some? && filter.value.enabled {
      save := false;
      if filter.value.studyDescription != [] && "StudyDescription" in id {
        save := AnyFilterMatches(filter.value.studyDescription, id["StudyDescription"]);
      }
      if !save && filter.value.seriesDescription != [] && "SeriesDescription" in id
        && "QueryRetrieveLevel" in id && id["QueryRetrieveLevel"] == "SERIES"
      {
        save := AnyFilterMatches(filter.value.seriesDescription, id["SeriesDescription"]);
      }
    }
  }

  // ---------------------------------------------------------------------------
  // The response streams as folds over the files

  /** Appending a request to a state file with its own keys as fieldnames. */
  ghost function Appended(tables: Tables, path: string, request: Request): Tables
  {
    AfterWrite(tables, path, request, SortedKeys(request.Keys))
  }

  /** What a handler leaves behind: its result and the files. */
  datatype Outcome = Outcome(result: Result<()>, tables: Tables)

  /** Where a terminal status sends the request. */
  function StatePath(s: Settings, code: nat): string
  {
    if code == Success then CompletedPath(s.directory) else FailedPath(s.directory)
  }

  /** One C-FIND response: a saved pending match appends a row of the
      keywords' values to the database file (KeyError when the match lacks
      one); a terminal status appends the request to `requests.completed`
      (0x0000) or `requests.failed`, and a status without a code raises
      AttributeError. */
  ghost function FindStep(tables: Tables, s: Settings, request: Request, keywords: seq<string>, rsp: Response): Result<Tables>
  {
    if FindPending(rsp.status) then
      if ShouldSave(s.descriptionFilter, rsp.identifier) then DatasetWrite(tables, DatabasePath(s), rsp.identifier, keywords)
      else Ok(tables)
    else
      match rsp.status
      case None => Err(AttributeError)
      case Some(code) => Ok(Appended(tables, StatePath(s, code), request))
  }

  /** The C-FIND response loop; the first error ends it and is raised. */
  ghost function FindFold(tables: Tables, s: Settings, request: Request, keywords: seq<string>, responses: seq<Response>): Outcome
    decreases |responses|
  {
    if responses == [] then Outcome(Ok(()), tables)
    else
      match FindStep(tables, s, request, keywords, responses[0])
      case Err(e) => Outcome(Err(e), tables)
      case Ok(t) => FindFold(t, s, request, keywords, responses[1..])
  }

  /** What the C-MOVE loop carries from one response to the next. */
  datatype MoveState = MoveState(identifier: Dataset, keywords: seq<string>, tables: Tables)

  /** One C-MOVE response: a terminal status stamps `Status` (as `hex`) on
      the identifier, adds `Status` to the keywords once more, writes the
      identifier to the database file and appends the request to
      `requests.completed` (0x0000) or `requests.failed`. None means an error
      that ends the loop. */
  ghost function MoveStep(m: MoveState, s: Settings, request: Request, rsp: Response): Option<MoveState>
  {
    if MovePending(rsp.status) then Some(m)
    else
      match rsp.status
      case None => None
      case Some(code) =>
        var stamped := m.identifier["Status" := Hex(code)];
        var columns := m.keywords + ["Status"];
        match DatasetWrite(m.tables, DatabasePath(s), stamped, columns)
        case Err(_) => None
        case Ok(t) => Some(MoveState(stamped, columns, Appended(t, StatePath(s, code), request)))
  }

  /** The C-MOVE response loop, whose errors are caught and only reported:
      the files as the loop leaves them. */
  ghost function MoveFold(m: MoveState, s: Settings, request: Request, responses: seq<Response>): Tables
    decreases |responses|
  {
    if responses == [] then m.tables
    else
      match MoveStep(m, s, request, responses[0])
      case None => m.tables
      case Some(next) => MoveFold(next, s, request, responses[1..])
  }

  // ---------------------------------------------------------------------------
  // Append-only files

  /** Every file of `before` is still there with the same header and its lines
      as a prefix of the new ones. */
  predicate Grows(before: Tables, after: Tables)
  {
    forall p :: p in before ==> (
      && p in after && after[p].header == before[p].header
      && |before[p].records| <= |after[p].records|
      && after[p].records[..|before[p].records|] == before[p].records)
  }

  lemma GrowsTrans(a: Tables, b: Tables, c: Tables)
    requires Grows(a, b) && Grows(b, c)
    ensures Grows(a, c)
  {
    forall p | p in a
      ensures p in c && c[p].header == a[p].header && |a[p].records| <= |c[p].records|
      ensures c[p].records[..|a[p].records|] == a[p].records
    {
      assert c[p].records[..|b[p].records|][..|a[p].records|] == c[p].records[..|a[p].records|];
    }
  }

  lemma AfterWriteGrows(tables: Tables, path: string, d: Row, fieldnames: seq<string>)
    ensures Grows(tables, AfterWrite(tables, path, d, fieldnames))
  {
    var after := AfterWrite(tables, path, d, fieldnames);
    if path in tables && Writable(d, fieldnames) {
      assert after[path].records[..|tables[path].records|] == tables[path].records;
    }
  }

  lemma FindStepGrows(tables: Tables, s: Settings, request: Request, keywords: seq<string>, rsp: Response)
    requires FindStep(tables, s, request, keywords, rsp).Ok?
    ensures Grows(tables, FindStep(tables, s, request, keywords, rsp).value)
  {
    if FindPending(rsp.status) {
      if ShouldSave(s.descriptionFilter, rsp.identifier) {
        AfterWriteGrows(tables, DatabasePath(s), DatasetRow(rsp.identifier, keywords), keywords);
      }
    } else {
      AfterWriteGrows(tables, StatePath(s, rsp.status.value), request, SortedKeys(request.Keys));
    }
  }

  lemma {:induction false} FindFoldGrows(tables: Tables, s: Settings, request: Request, keywords: seq<string>, responses: seq<Response>)
    ensures Grows(tables, FindFold(tables, s, request, keywords, responses).tables)
    decreases |responses|
  {
    if responses != [] && FindStep(tables, s, request, keywords, responses[0]).Ok? {
      var next := FindStep(tables, s, request, keywords, responses[0]).value;
      FindStepGrows(tables, s, request, keywords, responses[0]);
      FindFoldGrows(next, s, request, keywords, responses[1..]);
      GrowsTrans(tables, next, FindFold(next, s, request, keywords, responses[1..]).tables);
    }
  }

  lemma MoveStepGrows(m: MoveState, s: Settings, request: Request, rsp: Response)
    requires MoveStep(m, s, request, rsp).Some?
    ensures Grows(m.tables, MoveStep(m, s, request, rsp).value.tables)
  {
    if !MovePending(rsp.status) {
      var code := rsp.status.value;
      var stamped := m.identifier["Status" := Hex(code)];
      var columns := m.keywords + ["Status"];
      var t := DatasetWrite(m.tables, DatabasePath(s), stamped, columns).value;
      AfterWriteGrows(m.tables, DatabasePath(s), DatasetRow(stamped, columns), columns);
      AfterWriteGrows(t, StatePath(s, code), request, SortedKeys(request.Keys));
      GrowsTrans(m.tables, t, Appended(t, StatePath(s, code), request));
    }
  }

  lemma {:induction false} MoveFoldGrows(m: MoveState, s: Settings, request: Request, responses: seq<Response>)
    ensures Grows(m.tables, MoveFold(m, s, request, responses))
    decreases |responses|
  {
    if responses != [] && MoveStep(m, s, request, responses[0]).Some? {
      var next := MoveStep(m, s, request, responses[0]).value;
      MoveStepGrows(m, s, request, responses[0]);
      MoveFoldGrows(next, s, request, responses[1..]);
      GrowsTrans(m.tables, next.tables, MoveFold(next, s, request, responses[1..]));
    }
  }

  // ---------------------------------------------------------------------------
  // Classification of terminal statuses

  /** Lines in the file at `path` (none when it is missing). */
  function LineCount(tables: Tables, path: string): nat
  {
    if path in tables then |tables[path].records| else 0
  }

  /** Whether a response ends the operation, with success (`success`) or not,
      given which statuses are pending. */
  function Ends(pending: bool, status: Option<nat>, success: bool): nat
  {
    if !pending && status.Some? && (status.value == Success) == success then 1 else 0
  }

  /** How many responses end a C-FIND with success (`success`) or otherwise. */
  function FindTerminals(responses: seq<Response>, success: bool): nat
    decreases |responses|
  {
    if responses == [] then 0
    else Ends(FindPending(responses[0].status), responses[0].status, success) + FindTerminals(responses[1..], success)
  }

  /** How many responses end a C-MOVE sub-operation with success or otherwise. */
  function MoveTerminals(responses: seq<Response>, success: bool): nat
    decreases |responses|
  {
    if responses == [] then 0
    else Ends(MovePending(responses[0].status), responses[0].status, success) + MoveTerminals(responses[1..], success)
  }

  /** Appending a request adds one line to its state file and changes no other file. */
  lemma RecordAppends(tables: Tables, path: string, request: Request)
    ensures var after := Appended(tables, path, request);
      && LineCount(after, path) == LineCount(tables, path) + 1
      && forall p :: p != path ==> (p in after <==> p in tables) && (p in tables ==> after[p] == tables[p])
  {
    assert Writable(request, SortedKeys(request.Keys));
    DictToCsvAppends(tables, path, request, SortedKeys(request.Keys));
  }

  /** Line counts after appending a request to `path`. */
  lemma AppendedCounts(tables: Tables, path: string, request: Request, p: string)
    ensures LineCount(Appended(tables, path, request), p) == LineCount(tables, p) + (if p == path then 1 else 0)
  {
    RecordAppends(tables, path, request);
  }

  /** A write to one file keeps the line count of every other file. */
  lemma DatabaseWriteKeeps(tables: Tables, path: string, d: Row, keys: seq<string>, p: string)
    requires p != path
    ensures LineCount(AfterWrite(tables, path, d, keys), p) == LineCount(tables, p)
  {
  }

  /** A database write changes no file but the database file. */
  lemma DatasetWriteFrame(tables: Tables, path: string, ds: Dataset, keys: seq<string>)
    requires DatasetWrite(tables, path, ds, keys).Ok?
    ensures var after := DatasetWrite(tables, path, ds, keys).value;
      forall p :: p != path ==> (p in after <==> p in tables) && (p in tables ==> after[p] == tables[p])
  {
  }

  /** One C-FIND response adds a line to `requests.completed` exactly when it
      ends the find successfully, and to `requests.failed` exactly when it ends
      it otherwise. */
  lemma FindStepCounts(tables: Tables, s: Settings, request: Request, keywords: seq<string>, rsp: Response)
    requires DatabasePath(s) != CompletedPath(s.directory) && DatabasePath(s) != FailedPath(s.directory)
    requires FindStep(tables, s, request, keywords, rsp).Ok?
    ensures var after := FindStep(tables, s, request, keywords, rsp).value;
      && LineCount(after, CompletedPath(s.directory)) == LineCount(tables, CompletedPath(s.directory)) + Ends(FindPending(rsp.status), rsp.status, true)
      && LineCount(after, FailedPath(s.directory)) == LineCount(tables, FailedPath(s.directory)) + Ends(FindPending(rsp.status), rsp.status, false)
  {
    StatePathsDistinct(s.directory);
    var completed, failed := CompletedPath(s.directory), FailedPath(s.directory);
    if FindPending(rsp.status) {
      if ShouldSave(s.descriptionFilter, rsp.identifier) {
        assert FirstMissing(rsp.identifier, keywords).None?;
        var d := DatasetRow(rsp.identifier, keywords);
        DatabaseWriteKeeps(tables, DatabasePath(s), d, keywords, completed);
        DatabaseWriteKeeps(tables, DatabasePath(s), d, keywords, failed);
      }
    } else {
      AppendedCounts(tables, StatePath(s, rsp.status.value), request, completed);
      AppendedCounts(tables, StatePath(s, rsp.status.value), request, failed);
    }
  }

  /** C-FIND classification: pending statuses append nothing to the state files,
      each terminal 0x0000 appends one line to `requests.completed` and every
      other terminal status one line to `requests.failed`. */
  lemma {:induction false} FindCounts(tables: Tables, s: Settings, request: Request, keywords: seq<string>, responses: seq<Response>)
    requires DatabasePath(s) != CompletedPath(s.directory) && DatabasePath(s) != FailedPath(s.directory)
    requires FindFold(tables, s, request, keywords, responses).result.Ok?
    ensures var after := FindFold(tables, s, request, keywords, responses).tables;
      && LineCount(after, CompletedPath(s.directory)) == LineCount(tables, CompletedPath(s.directory)) + FindTerminals(responses, true)
      && LineCount(after, FailedPath(s.directory)) == LineCount(tables, FailedPath(s.directory)) + FindTerminals(responses, false)
    decreases |responses|
  {
    if responses != [] {
      var next := FindStep(tables, s, request, keywords, responses[0]).value;
      FindStepCounts(tables, s, request, keywords, responses[0]);
      FindCounts(next, s, request, keywords, responses[1..]);
    }
  }

  /** A stream of pending C-FIND responses leaves `requests.completed` and
      `requests.failed` exactly as they were, whatever happens to the database file. */
  lemma {:induction false} FindPendingLeavesState(tables: Tables, s: Settings, request: Request, keywords: seq<string>, responses: seq<Response>)
    requires DatabasePath(s) != CompletedPath(s.directory) && DatabasePath(s) != FailedPath(s.directory)
    requires forall i :: 0 <= i < |responses| ==> FindPending(responses[i].status)
    ensures var after := FindFold(tables, s, request, keywords, responses).tables;
      forall p :: p == CompletedPath(s.directory) || p == FailedPath(s.directory) ==>
        (p in after <==> p in tables) && (p in tables ==> after[p] == tables[p])
    decreases |responses|
  {
    if responses != [] {
      var rsp := responses[0];
      if FindStep(tables, s, request, keywords, rsp).Ok? {
        var next := FindStep(tables, s, request, keywords, rsp).value;
        PendingStepKeeps(tables, s, request, keywords, rsp);
        assert forall i :: 0 <= i < |responses| - 1 ==> responses[1..][i] == responses[i + 1];
        FindPendingLeavesState(next, s, request, keywords, responses[1..]);
      }
    }
  }

  /** One pending C-FIND response leaves the two state files as they were. */
  lemma PendingStepKeeps(tables: Tables, s: Settings, request: Request, keywords: seq<string>, rsp: Response)
    requires DatabasePath(s) != CompletedPath(s.directory) && DatabasePath(s) != FailedPath(s.directory)
    requires FindPending(rsp.status) && FindStep(tables, s, request, keywords, rsp).Ok?
    ensures var next := FindStep(tables, s, request, keywords, rsp).value;
      forall p :: p == CompletedPath(s.directory) || p == FailedPath(s.directory) ==>
        (p in next <==> p in tables) && (p in tables ==> next[p] == tables[p])
  {
    if ShouldSave(s.descriptionFilter, rsp.identifier) {
      DatasetWriteFrame(tables, DatabasePath(s), rsp.identifier, keywords);
    }
  }

  /** A terminal C-MOVE response on an identifier with every keyword: the
      database write cannot fail, so the step always goes on. */
  lemma MoveStepTerminal(m: MoveState, s: Settings, request: Request, code: nat)
    requires forall k :: k in m.keywords ==> k in m.identifier
    requires !MovePending(Some(code))
    ensures var stamped := m.identifier["Status" := Hex(code)];
            var columns := m.keywords + ["Status"];
            var t := AfterWrite(m.tables, DatabasePath(s), DatasetRow(stamped, columns), columns);
      && (forall k :: k in columns ==> k in stamped)
      && MoveStep(m, s, request, Response(Some(code), map[])) == Some(MoveState(stamped, columns, Appended(t, StatePath(s, code), request)))
  {
    var stamped := m.identifier["Status" := Hex(code)];
    var columns := m.keywords + ["Status"];
    StampedHasColumns(m.identifier, m.keywords, Hex(code));
    assert DatasetWrite(m.tables, DatabasePath(s), stamped, columns)
        == Ok(AfterWrite(m.tables, DatabasePath(s), DatasetRow(stamped, columns), columns));
  }

  lemma StampedHasColumns(identifier: Dataset, keywords: seq<string>, status: string)
    requires forall k :: k in keywords ==> k in identifier
    ensures forall k :: k in keywords + ["Status"] ==> k in identifier["Status" := status]
  {
  }

  /** One C-MOVE response with a status code, on an identifier with every
      keyword: nothing fails, and the request is appended exactly when the
      response is terminal, to the file its status picks. */
  lemma MoveStepCounts(m: MoveState, s: Settings, request: Request, rsp: Response)
    requires DatabasePath(s) != CompletedPath(s.directory) && DatabasePath(s) != FailedPath(s.directory)
    requires forall k :: k in m.keywords ==> k in m.identifier
    requires rsp.status.Some?
    ensures MoveStep(m, s, request, rsp).Some?
    ensures var next := MoveStep(m, s, request, rsp).value;
      && (forall k :: k in next.keywords ==> k in next.identifier)
      && LineCount(next.tables, CompletedPath(s.directory)) == LineCount(m.tables, CompletedPath(s.directory)) + Ends(MovePending(rsp.status), rsp.status, true)
      && LineCount(next.tables, FailedPath(s.directory)) == LineCount(m.tables, FailedPath(s.directory)) + Ends(MovePending(rsp.status), rsp.status, false)
  {
    StatePathsDistinct(s.directory);
    if !MovePending(rsp.status) {
      var code := rsp.status.value;
      var stamped := m.identifier["Status" := Hex(code)];
      var columns := m.keywords + ["Status"];
      var t := AfterWrite(m.tables, DatabasePath(s), DatasetRow(stamped, columns), columns);
      MoveStepTerminal(m, s, request, code);
      assert MoveStep(m, s, request, rsp) == MoveStep(m, s, request, Response(Some(code), map[]));
      DatabaseWriteKeeps(m.tables, DatabasePath(s), DatasetRow(stamped, columns), columns, CompletedPath(s.directory));
      DatabaseWriteKeeps(m.tables, DatabasePath(s), DatasetRow(stamped, columns), columns, FailedPath(s.directory));
      AppendedCounts(t, StatePath(s, code), request, CompletedPath(s.directory));
      AppendedCounts(t, StatePath(s, code), request, FailedPath(s.directory));
    }
  }

  lemma StatusesTail(responses: seq<Response>)
    requires responses != [] && forall i :: 0 <= i < |responses| ==> responses[i].status.Some?
    ensures forall i :: 0 <= i < |responses[1..]| ==> responses[1..][i].status.Some?
  {
    assert forall i :: 0 <= i < |responses| - 1 ==> responses[1..][i] == responses[i + 1];
  }

  /** C-MOVE classification: when every status has a code and the identifier
      has every keyword, no write fails, and each terminal status appends the
      request once, to `requests.completed` for 0x0000 and to
      `requests.failed` otherwise. */
  lemma {:induction false} MoveCounts(m: MoveState, s: Settings, request: Request, responses: seq<Response>)
    requires DatabasePath(s) != CompletedPath(s.directory) && DatabasePath(s) != FailedPath(s.directory)
    requires forall k :: k in m.keywords ==> k in m.identifier
    requires forall i :: 0 <= i < |responses| ==> responses[i].status.Some?
    ensures var after := MoveFold(m, s, request, responses);
      && LineCount(after, CompletedPath(s.directory)) == LineCount(m.tables, CompletedPath(s.directory)) + MoveTerminals(responses, true)
      && LineCount(after, FailedPath(s.directory)) == LineCount(m.tables, FailedPath(s.directory)) + MoveTerminals(responses, false)
    decreases |responses|
  {
    if responses != [] {
      MoveStepCounts(m, s, request, responses[0]);
      var next := MoveStep(m, s, request, responses[0]).value;
      StatusesTail(responses);
      MoveCounts(next, s, request, responses[1..]);
    }
  }

  // ---------------------------------------------------------------------------
  // retry_association

  /** The association as the worker sees it: whether it is up, and how many
      association attempts have been made so far. */
  datatype Link = Link(established: bool, used: nat)

  /** Whether association attempt `i` succeeds; attempts beyond the oracle fail. */
  predicate Attempt(attempts: seq<bool>, i: nat)
  {
    i < |attempts| && attempts[i]
  }

  /** The `for i in range(100)` loop of `retry_association` from iteration
      `i`: return once the association is up, otherwise make a new attempt;
      after the hundredth iteration, exit with status 1. */
  function RetryFrom(link: Link, attempts: seq<bool>, i: nat): (Result<()>, Link)
    decreases 100 - i
  {
    if i >= 100 then (Err(SystemExit(1)), link)
    else if link.established then (Ok(()), link)
    else RetryFrom(Link(Attempt(attempts, link.used), link.used + 1), attempts, i + 1)
  }

  /** Retrying returns exactly when the association is already up or one of the
      next 99 attempts succeeds (a success of the hundredth is never checked),
      and it returns with the association up. */
  lemma {:induction false} RetryCharacterised(link: Link, attempts: seq<bool>, i: nat)
    requires i <= 100
    ensures RetryFrom(link, attempts, i).0.Ok? <==>
      i < 100 && (link.established || exists k :: link.used <= k < link.used + 99 - i && Attempt(attempts, k))
    ensures RetryFrom(link, attempts, i).0.Ok? ==> RetryFrom(link, attempts, i).1.established
    ensures RetryFrom(link, attempts, i).0.Err? ==> RetryFrom(link, attempts, i).0 == Err(SystemExit(1))
    decreases 100 - i
  {
    if i < 100 && !link.established {
      var next := Link(Attempt(attempts, link.used), link.used + 1);
      RetryCharacterised(next, attempts, i + 1);
    }
  }

  /** The quirk of the bounded loop: when only the hundredth attempt succeeds,
      the association is up and the worker still exits. */
  lemma HundredthAttemptDiscarded(used: nat, attempts: seq<bool>)
    requires forall k :: used <= k < used + 99 ==> !Attempt(attempts, k)
    requires Attempt(attempts, used + 99)
    ensures RetryFrom(Link(false, used), attempts, 0) == (Err(SystemExit(1)), Link(true, used + 100))
  {
    RetryRun(Link(false, used), attempts, 0);
  }

  lemma {:induction false} RetryRun(link: Link, attempts: seq<bool>, i: nat)
    requires i <= 100 && !link.established
    requires forall k :: link.used <= k < link.used + 99 - i ==> !Attempt(attempts, k)
    requires i < 100 ==> Attempt(attempts, link.used + 99 - i)
    ensures RetryFrom(link, attempts, i) == (Err(SystemExit(1)), Link(i < 100, link.used + 100 - i))
    decreases 100 - i
  {
    if i < 99 {
      RetryRun(Link(Attempt(attempts, link.used), link.used + 1), attempts, i + 1);
    }
  }

  // ---------------------------------------------------------------------------
  // One request, a batch of requests

  /** The files and the association together. */
  datatype Work = Work(tables: Tables, link: Link)

  /** `send_find`: build the identifier (its elements must be a list), retry the
      association when it is down, then run the response loop. */
  ghost function FindRequest(w: Work, s: Settings, attempts: seq<bool>, request: Request, responses: seq<Response>): (Result<()>, Work)
  {
    match Elements(request)
    case Err(e) => (Err(e), w)
    case Ok(elements) =>
      var (retried, link) := RetryFrom(w.link, attempts, 0);
      if retried.Err? then (retried, Work(w.tables, link))
      else
        var o := FindFold(w.tables, s, request, Keywords(elements), responses);
        (o.result, Work(o.tables, link))
  }

  /** `send_move`: as `send_find`, with the move response loop, whose errors
      are swallowed. */
  ghost function MoveRequest(w: Work, s: Settings, attempts: seq<bool>, request: Request, responses: seq<Response>): (Result<()>, Work)
  {
    match Elements(request)
    case Err(e) => (Err(e), w)
    case Ok(elements) =>
      var (retried, link) := RetryFrom(w.link, attempts, 0);
      if retried.Err? then (retried, Work(w.tables, link))
      else (Ok(()), Work(MoveFold(MoveState(Identifier(elements), Keywords(elements), w.tables), s, request, responses), link))
  }

  /** `process_request`: dispatch on the lower-cased request type; other types do nothing. */
  ghost function RequestStep(w: Work, s: Settings, attempts: seq<bool>, request: Request, responses: seq<Response>): (Result<()>, Work)
  {
    if "type" !in request then (Err(KeyError("type")), w)
    else match request["type"]
      case List(_) => (Err(AttributeError), w)
      case Str(t) =>
        if Lower(t) == "c-find" then FindRequest(w, s, attempts, request, responses)
        else if Lower(t) == "c-move" then MoveRequest(w, s, attempts, request, responses)
        else (Ok(()), w)
  }

  /** What the environment does while request `i` is due: whether extraction
      is still to continue (cleared by an interrupt), the moment of the day on
      the schedule's clock, the responses the request receives, and whether
      the association is down once they have been received (an A-ABORT, or a
      timeout that aborts it). */
  datatype Step = Step(proceed: bool, now: Instant, responses: seq<Response>, dropped: bool)

  /** The step for request `i`; past the end of the input, extraction has been stopped. */
  function StepAt(env: seq<Step>, i: nat): Step
  {
    if i < |env| then env[i] else Step(false, 0, [], false)
  }

  /** The association after a request's exchange: down when it was dropped,
      with no attempt made. */
  function AfterExchange(w: Work, dropped: bool): (r: Work)
    ensures r.tables == w.tables && r.link.used == w.link.used
    ensures r.link.established <==> w.link.established && !dropped
  {
    if dropped then Work(w.tables, Link(false, w.link.used)) else w
  }

  /** The loop of `process_requests_batch` from request `i`: while the flag is
      set, wait for the schedule, process the request and read its
      `throttle_time`; the first error ends the batch. */
  ghost function BatchFrom(w: Work, s: Settings, attempts: seq<bool>, requests: seq<Request>, env: seq<Step>, i: nat): (Result<()>, Work)
    decreases |requests| - i
  {
    if i >= |requests| then (Ok(()), w)
    else
      var step := StepAt(env, i);
      if !step.proceed then BatchFrom(w, s, attempts, requests, env, i + 1)
      else match WaitDecision(s.schedule, step.now)
        case Err(e) => (Err(e), w)
        case Ok(_) =>
          var (r, sent) := RequestStep(w, s, attempts, requests[i], step.responses);
          var next := AfterExchange(sent, step.dropped);
          if r.Err? then (r, next)
          else if "throttle_time" !in requests[i] then (Err(KeyError("throttle_time")), next)
          else BatchFrom(next, s, attempts, requests, env, i + 1)
  }

  /** A request that is sent: a C-FIND or C-MOVE whose elements form a list. */
  predicate Sends(request: Request)
  {
    && "type" in request && request["type"].Str?
    && (Lower(request["type"].text) == "c-find" || Lower(request["type"].text) == "c-move")
    && Elements(request).Ok?
  }

  /** After the association drops in the middle of a batch, the next request
      that is sent first retries the association; when none of the next 99
      attempts succeeds, the worker exits with status 1. */
  lemma DropThenExit(w: Work, s: Settings, attempts: seq<bool>, requests: seq<Request>, env: seq<Step>, i: nat)
    requires i + 1 < |requests|
    requires StepAt(env, i).proceed && StepAt(env, i).dropped
    requires WaitDecision(s.schedule, StepAt(env, i).now).Ok?
    requires RequestStep(w, s, attempts, requests[i], StepAt(env, i).responses).0.Ok?
    requires "throttle_time" in requests[i]
    requires StepAt(env, i + 1).proceed && WaitDecision(s.schedule, StepAt(env, i + 1).now).Ok?
    requires Sends(requests[i + 1])
    requires var used := RequestStep(w, s, attempts, requests[i], StepAt(env, i).responses).1.link.used;
      forall k :: used <= k < used + 99 ==> !Attempt(attempts, k)
    ensures BatchFrom(w, s, attempts, requests, env, i).0 == Err(SystemExit(1))
  {
    var sent := RequestStep(w, s, attempts, requests[i], StepAt(env, i).responses).1;
    var next := AfterExchange(sent, true);
    RetryCharacterised(next.link, attempts, 0);
    assert BatchFrom(w, s, attempts, requests, env, i) == BatchFrom(next, s, attempts, requests, env, i + 1);
  }

  /** `process_requests_batch`: associate (one attempt), then the loop. */
  ghost function RunBatch(w: Work, s: Settings, attempts: seq<bool>, requests: seq<Request>, env: seq<Step>): (Result<()>, Work)
  {
    BatchFrom(Work(w.tables, Link(Attempt(attempts, w.link.used), w.link.used + 1)), s, attempts, requests, env, 0)
  }

  /** A worker only ever appends: no file it finds is removed, and no line of
      one is rewritten, whatever the responses and however the batch ends. */
  lemma {:induction false} BatchGrows(w: Work, s: Settings, attempts: seq<bool>, requests: seq<Request>, env: seq<Step>, i: nat)
    ensures Grows(w.tables, BatchFrom(w, s, attempts, requests, env, i).1.tables)
    decreases |requests| - i
  {
    if i < |requests| {
      var step := StepAt(env, i);
      if !step.proceed {
        BatchGrows(w, s, attempts, requests, env, i + 1);
      } else if WaitDecision(s.schedule, step.now).Ok? {
        var (r, sent) := RequestStep(w, s, attempts, requests[i], step.responses);
        var next := AfterExchange(sent, step.dropped);
        RequestGrows(w, s, attempts, requests[i], step.responses);
        if r.Ok? && "throttle_time" in requests[i] {
          BatchGrows(next, s, attempts, requests, env, i + 1);
          GrowsTrans(w.tables, next.tables, BatchFrom(next, s, attempts, requests, env, i + 1).1.tables);
        }
      }
    }
  }

  lemma RequestGrows(w: Work, s: Settings, attempts: seq<bool>, request: Request, responses: seq<Response>)
    ensures Grows(w.tables, RequestStep(w, s, attempts, request, responses).1.tables)
  {
    if "type" in request && request["type"].Str? {
      var t := Lower(request["type"].text);
      if t == "c-find" {
        FindRequestGrows(w, s, attempts, request, responses);
      } else if t == "c-move" {
        MoveRequestGrows(w, s, attempts, request, responses);
      }
    }
  }

  lemma FindRequestGrows(w: Work, s: Settings, attempts: seq<bool>, request: Request, responses: seq<Response>)
    ensures Grows(w.tables, FindRequest(w, s, attempts, request, responses).1.tables)
  {
    if Elements(request).Ok? {
      FindFoldGrows(w.tables, s, request, Keywords(Elements(request).value), responses);
    }
  }

  lemma MoveRequestGrows(w: Work, s: Settings, attempts: seq<bool>, request: Request, responses: seq<Response>)
    ensures Grows(w.tables, MoveRequest(w, s, attempts, request, responses).1.tables)
  {
    if Elements(request).Ok? {
      var elements := Elements(request).value;
      MoveFoldGrows(MoveState(Identifier(elements), Keywords(elements), w.tables), s, request, responses);
    }
  }

  // ---------------------------------------------------------------------------
  // The worker object

  /** An SCU: its settings and query model, the association's state, the
      store it writes to and the outcomes of its association attempts. */
  class Scu {
    const settings: Settings
    const queryModel: Option<string>
    const attempts: seq<bool>
    const store: RequestStore
    var established: bool
    var used: nat

    constructor (settings: Settings, queryModel: Option<string>, store: RequestStore, attempts: seq<bool>)
      ensures this.settings == settings && this.queryModel == queryModel
      ensures this.store == store && this.attempts == attempts
      ensures !established && used == 0
    {
      this.settings := settings;
      this.queryModel := queryModel;
      this.store := store;
      this.attempts := attempts;
      established := false;
      used := 0;
    }

    /** `establish_association`: one attempt. */
    method EstablishAssociation()
      modifies this
      ensures established == Attempt(attempts, old(used)) && used == old(used) + 1
    {
      established := Attempt(attempts, used);
      used := used + 1;
    }

    /** `retry_association` (the one-second sleep and the message are not modelled). */
    method RetryAssociation() returns (r: Result<()>)
      modifies this
      ensures (r, Link(established, used)) == RetryFrom(Link(old(established), old(used)), attempts, 0)
    {
      var i := 0;
      while i < 100
        invariant 0 <= i <= 100
        invariant RetryFrom(Link(established, used), attempts, i) == RetryFrom(Link(old(established), old(used)), attempts, 0)
      {
        if !established {
          established := Attempt(attempts, used);
          used := used + 1;
        } else {
          return Ok(());
        }
        i := i + 1;
      }
      return Err(SystemExit(1));
    }

    /** `wait_until_scheduled_time` at moment `now`: the pause it decides on
        (the sleep itself is not modelled). */
    method WaitUntilScheduledTime(now: Instant) returns (r: Result<Gate>)
      ensures r == WaitDecision(settings.schedule, now)
    {
      if settings.schedule.None? || !settings.schedule.value.enabled {
        return Ok(Proceed);
      }
      var untilStart :- SecondsUntil(settings.schedule.value.startTime, now);
      var untilEnd :- SecondsUntil(settings.schedule.value.endTime, now);
      if untilEnd > untilStart {
        r := Ok(Sleep(untilStart));
      } else {
        r := Ok(Proceed);
      }
    }

    /** Append `request` to `requests.completed` or `requests.failed` with its own keys. */
    method RecordRequest(request: Request, code: nat)
      modifies store
      ensures store.tables == Appended(old(store.tables), StatePath(settings, code), request)
    {
      var keys := KeysOf(request);
      KeysOfWrite(store.tables, StatePath(settings, code), request, keys, SortedKeys(request.Keys));
      var _ := store.DictToCsv(request, StatePath(settings, code), keys);
    }

    /** `send_find`. */
    method SendFind(request: Request, responses: seq<Response>) returns (r: Result<()>)
      modifies this, store
      ensures (r, Work(store.tables, Link(established, used)))
           == FindRequest(Work(old(store.tables), Link(old(established), old(used))), settings, attempts, request, responses)
    {
      var elements :- Elements(request);
      var keywords := Keywords(elements);
      if !established {
        var retried := RetryAssociation();
        if retried.Err? {
          return retried;
        }
      }
      // the association is up here: retrying returns only once it is
      RetryCharacterised(Link(old(established), old(used)), attempts, 0);
      ghost var start := store.tables;
      var i := 0;
      while i < |responses|
        invariant 0 <= i <= |responses|
        invariant Link(established, used) == RetryFrom(Link(old(established), old(used)), attempts, 0).1
        invariant FindFold(store.tables, settings, request, keywords, responses[i..]) == FindFold(start, settings, request, keywords, responses)
      {
        assert responses[i..][1..] == responses[i + 1..];
        var handled := FindResponse(request, keywords, responses[i]);
        if handled.Err? {
          return handled;
        }
        i := i + 1;
      }
      return Ok(());
    }

    /** The body of the C-FIND loop for one response. */
    method FindResponse(request: Request, keywords: seq<string>, rsp: Response) returns (r: Result<()>)
      modifies store
      ensures FindStep(old(store.tables), settings, request, keywords, rsp)
           == if r.Err? then Err(r.error) else Ok(store.tables)
      ensures r.Err? ==> store.tables == old(store.tables)
    {
      r := Ok(());
      if FindPending(rsp.status) {
        var save := ShouldSaveResponse(settings.descriptionFilter, rsp.identifier);
        if save {
          r := store.DatasetToCsv(rsp.identifier, DatabasePath(settings), keywords);
        }
      } else {
        if rsp.status.None? {
          return Err(AttributeError);
        }
        RecordRequest(request, rsp.status.value);
      }
    }

    /** `send_move`. */
    method SendMove(request: Request, responses: seq<Response>) returns (r: Result<()>)
      modifies this, store
      ensures (r, Work(store.tables, Link(established, used)))
           == MoveRequest(Work(old(store.tables), Link(old(established), old(used))), settings, attempts, request, responses)
    {
      var elements :- Elements(request);
      var identifier := Identifier(elements);
      var keywords := Keywords(elements);
      if !established {
        var retried := RetryAssociation();
        if retried.Err? {
          return retried;
        }
      }
      RetryCharacterised(Link(old(established), old(used)), attempts, 0);
      ghost var start := store.tables;
      var i := 0;
      while i < |responses|
        invariant 0 <= i <= |responses|
        invariant Link(established, used) == RetryFrom(Link(old(established), old(used)), attempts, 0).1
        invariant MoveFold(MoveState(identifier, keywords, store.tables), settings, request, responses[i..])
               == MoveFold(MoveState(Identifier(elements), Keywords(elements), start), settings, request, responses)
      {
        assert responses[i..][1..] == responses[i + 1..];
        var stop;
        stop, identifier, keywords := MoveResponse(request, identifier, keywords, responses[i]);
        if stop {
          // the error is caught and reported by the handler around the loop
          return Ok(());
        }
        i := i + 1;
      }
      return Ok(());
    }

    /** The body of the C-MOVE loop for one response; `stop` when it raised. */
    method MoveResponse(request: Request, identifier: Dataset, keywords: seq<string>, rsp: Response)
      returns (stop: bool, identifierAfter: Dataset, keywordsAfter: seq<string>)
      modifies store
      ensures MoveStep(MoveState(identifier, keywords, old(store.tables)), settings, request, rsp)
           == if stop then None else Some(MoveState(identifierAfter, keywordsAfter, store.tables))
      ensures stop ==> store.tables == old(store.tables)
    {
      stop, identifierAfter, keywordsAfter := false, identifier, keywords;
      if !MovePending(rsp.status) {
        if rsp.status.None? {
          return true, identifier, keywords;
        }
        identifierAfter := identifier["Status" := Hex(rsp.status.value)];
        keywordsAfter := keywords + ["Status"];
        var written := store.DatasetToCsv(identifierAfter, DatabasePath(settings), keywordsAfter);
        if written.Err? {
          return true, identifierAfter, keywordsAfter;
        }
        RecordRequest(request, rsp.status.value);
      }
    }

    /** `process_request`. */
    method ProcessRequest(request: Request, responses: seq<Response>) returns (r: Result<()>)
      modifies this, store
      ensures (r, Work(store.tables, Link(established, used)))
           == RequestStep(Work(old(store.tables), Link(old(established), old(used))), settings, attempts, request, responses)
    {
      if "type" !in request {
        return Err(KeyError("type"));
      }
      if request["type"].List? {
        return Err(AttributeError);
      }
      var kind := Lower(request["type"].text);
      if kind == "c-find" {
        r := SendFind(request, responses);
      } else if kind == "c-move" {
        r := SendMove(request, responses);
      } else {
        r := Ok(());
      }
    }

    /** `process_requests_batch` (releasing the association is not modelled). */
    method ProcessRequestsBatch(requests: seq<Request>, env: seq<Step>) returns (r: Result<()>)
      modifies this, store
      ensures (r, Work(store.tables, Link(established, used)))
           == RunBatch(Work(old(store.tables), Link(old(established), old(used))), settings, attempts, requests, env)
    {
      EstablishAssociation();
      var i := 0;
      while i < |requests|
        invariant 0 <= i <= |requests|
        invariant BatchFrom(Work(store.tables, Link(established, used)), settings, attempts, requests, env, i)
               == RunBatch(Work(old(store.tables), Link(old(established), old(used))), settings, attempts, requests, env)
      {
        var step := StepAt(env, i);
        if step.proceed {
          var gate := WaitUntilScheduledTime(step.now);
          if gate.Err? {
            return Err(gate.error);
          }
          var done := ProcessRequest(requests[i], step.responses);
          if step.dropped {
            established := false;
          }
          if done.Err? {
            return done;
          }
          if "throttle_time" !in requests[i] {
            return Err(KeyError("throttle_time"));
          }
        }
        i := i + 1;
      }
      return Ok(());
    }
  }

  /** `SCU(config)`: the query model is chosen when the worker is built, so a
      missing `model` setting for c-find or c-move fails here. */
  method NewScu(settings: Settings, store: RequestStore, attempts: seq<bool>) returns (r: Result<Scu>)
    ensures r.Ok? <==> QueryModel(settings.requestType, settings.model).Ok?
    ensures r.Err? ==> r.error == QueryModel(settings.requestType, settings.model).error
    ensures r.Ok? ==> && fresh(r.value) && r.value.store == store && r.value.settings == settings
                      && r.value.attempts == attempts && r.value.queryModel == QueryModel(settings.requestType, settings.model).value
                      && !r.value.established && r.value.used == 0
  {
    var model :- QueryModel(settings.requestType, settings.model);
    var scu := new Scu(settings, model, store, attempts);
    return Ok(scu);
  }
}
