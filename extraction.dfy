/** `process_request_batch`: resolve the worklist, split it over the workers
    and run them. The pool's threads are run one after another, in slice
    order; each worker has its own association attempts and its own
    environment (interrupt flag, clock, responses). */
module Extraction {

  import opened Outcomes
  import opened Store
  import opened Planner
  import opened Resume
  import opened Worker

  /** The association attempts of worker `k`; none when not given. */
  function AttemptsOf(attempts: seq<seq<bool>>, k: nat): seq<bool>
  {
    if k < |attempts| then attempts[k] else []
  }

  /** The environment of worker `k`; an empty one (stopped) when not given. */
  function EnvOf(envs: seq<seq<Step>>, k: nat): seq<Step>
  {
    if k < |envs| then envs[k] else []
  }

  /** `thread_scu_function`: build a worker (choosing its query model) and
      run its batch from a fresh association. */
  ghost function WorkerRun(tables: Tables, s: Settings, attempts: seq<bool>, env: seq<Step>, batch: seq<Request>): (Result<()>, Tables)
  {
    match QueryModel(s.requestType, s.model)
    case Err(e) => (Err(e), tables)
    case Ok(_) =>
      var (r, w) := RunBatch(Work(tables, Link(false, 0)), s, attempts, batch, env);
      (r, w.tables)
  }

  /** The pool from worker `k` on: whatever a worker raises stays in its
      future, which nobody reads, so the next worker starts regardless. */
  ghost function PoolFrom(tables: Tables, s: Settings, attempts: seq<seq<bool>>, envs: seq<seq<Step>>, batches: seq<seq<Request>>, k: nat): Tables
    decreases |batches| - k
  {
    if k >= |batches| then tables
    else PoolFrom(WorkerRun(tables, s, AttemptsOf(attempts, k), EnvOf(envs, k), batches[k]).1, s, attempts, envs, batches, k + 1)
  }

  /** Splitting and dispatching a resolved worklist. */
  ghost function Dispatch(tables: Tables, s: Settings, threads: int, attempts: seq<seq<bool>>, envs: seq<seq<Step>>, requests: seq<Request>): (r: (Result<()>, Tables))
    ensures requests == [] ==> r == (Ok(()), tables)
    ensures requests != [] && threads <= 0 ==> r == (Err(ValueError), tables)
    ensures threads > 1 ==> r.0 == Ok(())
  {
    match Batches(requests, threads)
    case Err(e) => (Err(e), tables)
    case Ok(batches) =>
      if batches == [] then (Ok(()), tables)
      else if threads > 1 then (Ok(()), PoolFrom(tables, s, attempts, envs, batches, 0))
      else WorkerRun(tables, s, AttemptsOf(attempts, 0), EnvOf(envs, 0), batches[0])
  }

  /** With one thread the whole worklist goes to a single worker, run in
      the calling thread, so what it raises is what the extraction raises. */
  lemma OneThreadRunsWorklist(tables: Tables, s: Settings, attempts: seq<seq<bool>>, envs: seq<seq<Step>>, requests: seq<Request>)
    requires requests != []
    ensures Dispatch(tables, s, 1, attempts, envs, requests) == WorkerRun(tables, s, AttemptsOf(attempts, 0), EnvOf(envs, 0), requests)
  {
    BatchesCoverWorklist(requests, 1);
    var b := Batches(requests, 1).value;
    assert |b| == 1 && b[1..] == [];
    assert Concat(b[1..]) == [];
    assert Concat(b) == b[0] + [] == b[0];
    assert b[0] == requests;
  }

  /** The whole of `process_request_batch`: the worklist is resolved from the
      state files (creating it when there is none), then dispatched. */
  ghost function Extract(tables: Tables, s: Settings, template: Row, threads: int, failedAnswer: string, resumeAnswer: string,
                         attempts: seq<seq<bool>>, envs: seq<seq<Step>>): (Result<()>, Tables)
  {
    var (resolved, after) := BatchOutcome(tables, template, s.directory, failedAnswer, resumeAnswer);
    match resolved
    case Err(e) => (Err(e), after)
    case Ok(requests) => Dispatch(after, s, threads, attempts, envs, requests)
  }

  /** A worker only appends to the files it is given. */
  lemma WorkerGrows(tables: Tables, s: Settings, attempts: seq<bool>, env: seq<Step>, batch: seq<Request>)
    ensures Grows(tables, WorkerRun(tables, s, attempts, env, batch).1)
  {
    if QueryModel(s.requestType, s.model).Ok? {
      var w := Work(tables, Link(false, 0));
      BatchGrows(Work(w.tables, Link(Attempt(attempts, 0), 1)), s, attempts, batch, env, 0);
    }
  }

  lemma {:induction false} PoolGrows(tables: Tables, s: Settings, attempts: seq<seq<bool>>, envs: seq<seq<Step>>, batches: seq<seq<Request>>, k: nat)
    ensures Grows(tables, PoolFrom(tables, s, attempts, envs, batches, k))
    decreases |batches| - k
  {
    if k < |batches| {
      var next := WorkerRun(tables, s, AttemptsOf(attempts, k), EnvOf(envs, k), batches[k]).1;
      WorkerGrows(tables, s, AttemptsOf(attempts, k), EnvOf(envs, k), batches[k]);
      PoolGrows(next, s, attempts, envs, batches, k + 1);
      GrowsTrans(tables, next, PoolFrom(next, s, attempts, envs, batches, k + 1));
    }
  }

  /** Once the worklist is resolved, the extraction only appends to the state
      files and the database, however many workers there are and however each
      of them ends. */
  lemma ExtractionAppendsOnly(tables: Tables, s: Settings, template: Row, threads: int, failedAnswer: string, resumeAnswer: string,
                              attempts: seq<seq<bool>>, envs: seq<seq<Step>>)
    ensures var (resolved, after) := BatchOutcome(tables, template, s.directory, failedAnswer, resumeAnswer);
      Grows(after, Extract(tables, s, template, threads, failedAnswer, resumeAnswer, attempts, envs).1)
  {
    var (resolved, after) := BatchOutcome(tables, template, s.directory, failedAnswer, resumeAnswer);
    if resolved.Ok? && Batches(resolved.value, threads).Ok? && resolved.value != [] {
      var batches := Batches(resolved.value, threads).value;
      if threads > 1 {
        PoolGrows(after, s, attempts, envs, batches, 0);
      } else {
        WorkerGrows(after, s, AttemptsOf(attempts, 0), EnvOf(envs, 0), batches[0]);
      }
    }
  }

  /** `process_request_batch` for the `request.threads` setting `threads`,
      with the operator's answers to the two prompts. */
  method ProcessRequestBatch(store: RequestStore, s: Settings, template: Row, threads: int, failedAnswer: string, resumeAnswer: string,
                             attempts: seq<seq<bool>>, envs: seq<seq<Step>>)
    returns (r: Result<()>)
    modifies store
    ensures (r, store.tables) == Extract(old(store.tables), s, template, threads, failedAnswer, resumeAnswer, attempts, envs)
  {
    var requests :- ResolveRequests(store, template, s.directory, failedAnswer, resumeAnswer);
    if requests == [] {
      return Ok(());
    }
    var batches :- Batches(requests, threads);
    if threads > 1 {
      ghost var start := store.tables;
      var k := 0;
      while k < |batches|
        invariant 0 <= k <= |batches|
        invariant PoolFrom(store.tables, s, attempts, envs, batches, k) == PoolFrom(start, s, attempts, envs, batches, 0)
      {
        var _ := RunWorker(store, s, AttemptsOf(attempts, k), EnvOf(envs, k), batches[k]);
        k := k + 1;
      }
      return Ok(());
    }
    r := RunWorker(store, s, AttemptsOf(attempts, 0), EnvOf(envs, 0), batches[0]);
  }

  /** `thread_scu_function`. */
  method RunWorker(store: RequestStore, s: Settings, attempts: seq<bool>, env: seq<Step>, batch: seq<Request>) returns (r: Result<()>)
    modifies store
    ensures (r, store.tables) == WorkerRun(old(store.tables), s, attempts, env, batch)
  {
    var scu :- NewScu(s, store, attempts);
    r := scu.ProcessRequestsBatch(batch, env);
  }
}
