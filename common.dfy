/** The entry point's configuration handling: `merge_configs`, which folds the
    `common` section of the YAML configuration into the section of the chosen
    operation, and the file the interrupt handler looks at for failed requests. */
module Common {

  import opened Outcomes
  import opened Text
  import opened Store
  import opened Planner

  /** A loaded YAML value: a mapping, or any other value (a string, a number,
      a list), which the merge only ever copies. */
  datatype Value = Mapping(fields: map<string, Value>) | Other(text: string)

  type Section = map<string, Value>

  /** `config[key]` where `config` must be a mapping: KeyError when the key is
      missing, TypeError when the container is not a mapping. */
  function Lookup(v: Value, key: string): (r: Result<Value>)
    ensures r.Ok? <==> v.Mapping? && key in v.fields
    ensures r.Ok? ==> r.value == v.fields[key]
    ensures v.Mapping? && key !in v.fields ==> r == Err(KeyError(key))
  {
    if v.Other? then Err(TypeError)
    else if key !in v.fields then Err(KeyError(key))
    else Ok(v.fields[key])
  }

  /** The `output` section a side contributes: nothing when it has none, the
      entries when it is a mapping; `dict.update` with any other value fails. */
  function OutputOf(fields: Section): (r: Result<Section>)
    ensures "output" !in fields ==> r == Ok(map[])
    ensures r.Ok? <==> "output" !in fields || fields["output"].Mapping?
    ensures "output" in fields && r.Ok? ==> r.value == fields["output"].fields
  {
    if "output" !in fields then Ok(map[])
    else if fields["output"].Other? then Err(TypeError)
    else Ok(fields["output"].fields)
  }

  /** Whether the merge succeeds: `common` is a mapping holding `pacs`,
      `local` and `schedule`, the operation's section is a mapping, and every
      `output` section present is a mapping. */
  predicate Mergeable(config: Section, operation: string)
  {
    && "common" in config && config["common"].Mapping?
    && "pacs" in config["common"].fields
    && "local" in config["common"].fields
    && "schedule" in config["common"].fields
    && operation in config && config[operation].Mapping?
    && OutputOf(config["common"].fields).Ok?
    && OutputOf(config[operation].fields).Ok?
  }

  /** `merge_configs(config, operation)`. The dictionary display is evaluated
      in order, so the first missing key among `common`, `pacs`, `local`,
      `schedule` and the operation's section is the one reported; a section
      that is not a mapping raises TypeError where it is first used. */
  function MergeConfigs(config: Section, operation: string): (r: Result<Section>)
    ensures r.Ok? <==> Mergeable(config, operation)
    ensures "common" !in config ==> r == Err(KeyError("common"))
    ensures "common" in config && config["common"].Other? ==> r == Err(TypeError)
    ensures "common" in config && config["common"].Mapping? && "pacs" !in config["common"].fields
            ==> r == Err(KeyError("pacs"))
    ensures && "common" in config && config["common"].Mapping? && "pacs" in config["common"].fields
            && "local" !in config["common"].fields
            ==> r == Err(KeyError("local"))
    ensures && "common" in config && config["common"].Mapping? && "pacs" in config["common"].fields
            && "local" in config["common"].fields && "schedule" !in config["common"].fields
            ==> r == Err(KeyError("schedule"))
    ensures && "common" in config && config["common"].Mapping?
            && "pacs" in config["common"].fields && "local" in config["common"].fields
            && "schedule" in config["common"].fields && operation !in config
            ==> r == Err(KeyError(operation))
    // a section that is not a mapping, or an `output` that is not one, cannot be merged
    ensures && "common" in config && config["common"].Mapping?
            && "pacs" in config["common"].fields && "local" in config["common"].fields
            && "schedule" in config["common"].fields && operation in config
            && !Mergeable(config, operation)
            ==> r == Err(TypeError)
    ensures r.Ok? ==>
      var common, op := config["common"].fields, config[operation].fields;
      && r.value.Keys == {"pacs", "local", "schedule", "request", "output"}
                         + (if operation == "c-move" && "anonymization" in op then {"anonymization"} else {})
      && r.value["pacs"] == common["pacs"]
      && r.value["local"] == common["local"]
      && r.value["schedule"] == common["schedule"]
    // the request is the operation's section with `type` defaulting to the operation
    ensures r.Ok? ==>
      var op := config[operation].fields;
      && r.value["request"].Mapping?
      && r.value["request"].fields.Keys == op.Keys + {"type"}
      && r.value["request"].fields["type"] == (if "type" in op then op["type"] else Other(operation))
      && forall k :: k in op ==> r.value["request"].fields[k] == op[k]
    // the output is the common one overlaid with the operation's
    ensures r.Ok? ==>
      var common, own := OutputOf(config["common"].fields).value, OutputOf(config[operation].fields).value;
      && r.value["output"].Mapping?
      && r.value["output"].fields.Keys == common.Keys + own.Keys
      && (forall k :: k in own ==> r.value["output"].fields[k] == own[k])
      && (forall k :: k in common && k !in own ==> r.value["output"].fields[k] == common[k])
    ensures r.Ok? && "anonymization" in r.value ==> r.value["anonymization"] == config[operation].fields["anonymization"]
  {
    var common :- Lookup(Mapping(config), "common");
    var pacs :- Lookup(common, "pacs");
    var local :- Lookup(common, "local");
    var schedule :- Lookup(common, "schedule");
    var op :- Lookup(Mapping(config), operation);
    if op.Other? then Err(TypeError)
    else
      var base :- OutputOf(common.fields);
      var own :- OutputOf(op.fields);
      Ok(Merged(common.fields, op.fields, operation, base, own))
  }

  /** The merged section once every lookup has succeeded. */
  function Merged(common: Section, op: Section, operation: string, base: Section, own: Section): (r: Section)
    requires "pacs" in common && "local" in common && "schedule" in common
    ensures r.Keys == {"pacs", "local", "schedule", "request", "output"}
                      + (if operation == "c-move" && "anonymization" in op then {"anonymization"} else {})
    ensures r["pacs"] == common["pacs"] && r["local"] == common["local"] && r["schedule"] == common["schedule"]
    ensures && r["request"].Mapping?
            && r["request"].fields.Keys == op.Keys + {"type"}
            && r["request"].fields["type"] == (if "type" in op then op["type"] else Other(operation))
            && forall k :: k in op ==> r["request"].fields[k] == op[k]
    ensures && r["output"].Mapping?
            && r["output"].fields.Keys == base.Keys + own.Keys
            && (forall k :: k in own ==> r["output"].fields[k] == own[k])
            && (forall k :: k in base && k !in own ==> r["output"].fields[k] == base[k])
    ensures "anonymization" in r ==> r["anonymization"] == op["anonymization"]
  {
    var request := Mapping(map["type" := Other(operation)] + op);
    var merged := map["pacs" := common["pacs"], "local" := common["local"], "schedule" := common["schedule"],
                      "request" := request, "output" := Mapping(base + own)];
    if operation == "c-move" && "anonymization" in op
    then merged["anonymization" := op["anonymization"]]
    else merged
  }

  /** Where the interrupt handler of the entry point looks for failed
      requests: in the output directory for c-move, otherwise next to the
      database file as configured. */
  function InterruptFailedPath(operation: string, directory: string, databaseFile: string): (p: string)
    ensures operation == "c-move" ==> p == FailedPath(directory)
    ensures operation != "c-move" ==> DirName(databaseFile) == "" ==> p == "requests.failed"
  {
    if operation == "c-move" then PathJoin(directory, "requests.failed")
    else PathJoin(DirName(databaseFile), "requests.failed")
  }

  /** For c-find the handler and the worker agree when the database file is
      configured with the output directory in front of it. */
  lemma FindHandlerAgrees(directory: string, name: string)
    requires '/' !in name
    requires directory != "" && directory[|directory| - 1] != '/' && !AllSlashes(directory)
    ensures InterruptFailedPath("c-find", directory, PathJoin(directory, name)) == FailedPath(directory)
  {
    DirNameOfJoin(directory, name);
  }

  /** An output directory spelled as the working directory: `.` followed by
      nothing but slashes. */
  predicate DotDirectory(directory: string)
  {
    |directory| >= 1 && directory[0] == '.' && forall i :: 1 <= i < |directory| ==> directory[i] == '/'
  }

  /** The worker always writes `requests.failed` into the output directory, but
      for c-find a database file given by its bare name (as the worker expects:
      it joins it to the output directory) sends the handler to
      `requests.failed` in the working directory; for an output directory not
      spelled `.`, `./`, ... that is another path than the worker's. */
  lemma FindHandlerLooksElsewhere(directory: string, databaseFile: string)
    requires '/' !in databaseFile && directory != "" && !DotDirectory(directory)
    ensures InterruptFailedPath("c-find", directory, databaseFile) == "requests.failed"
    ensures InterruptFailedPath("c-find", directory, databaseFile) != FailedPath(directory)
  {
    assert !StartsWith(databaseFile, "/") by { if |databaseFile| > 0 { assert databaseFile[0] != '/'; } }
    DirNameOfJoin("", databaseFile);
    assert PathJoin("", databaseFile) == databaseFile;
    FailedPathLonger(directory);
  }

  /** With the output directory spelled as the working directory, the worker's
      failed file is the handler's relative path joined to that directory, so
      both name the same file. */
  lemma FindHandlerWorkingDirectory(directory: string, databaseFile: string)
    requires '/' !in databaseFile && DotDirectory(directory)
    ensures InterruptFailedPath("c-find", directory, databaseFile) == "requests.failed"
    ensures FailedPath(directory) == PathJoin(directory, InterruptFailedPath("c-find", directory, databaseFile))
  {
    assert !StartsWith(databaseFile, "/") by { if |databaseFile| > 0 { assert databaseFile[0] != '/'; } }
    DirNameOfJoin("", databaseFile);
    assert PathJoin("", databaseFile) == databaseFile;
  }

  lemma FailedPathLonger(directory: string)
    requires directory != ""
    ensures |FailedPath(directory)| > |"requests.failed"|
  {
    assert !StartsWith("requests.failed", "/") by { assert "requests.failed"[..1] == "r"; }
    assert directory[|directory| - 1..] == [directory[|directory| - 1]];
  }
}
