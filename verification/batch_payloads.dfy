/**
 Staged payloads of batch note-write jobs: submitters that stage, enqueue and compensate,
 and workers that load, write, delete and report, interleaved step by step and lost anywhere.

 A job is open until its success, or its failure at the last attempt, is reported; while it is
 open it can be delivered to any worker at any time. A failed job can be replayed, any number
 of times, as a new job for the same payload.
 */
module BatchPayloads {
  import opened Wrappers

  type Id = nat
  type Operation = string

  datatype Body = Body(requestedBy: string, operations: seq<Operation>)

  datatype Submission = Staged | Returned | Compensating | Raised | Abandoned

  datatype Execution =
    | Idle
    | Loading(id: Id, job: nat, attempt: nat)
    | Loaded(id: Id, job: nat, attempt: nat, operations: seq<Operation>)
    | Written(id: Id, job: nat, attempt: nat)
    | Deleted(id: Id, job: nat, attempt: nat)
    | Failing(id: Id, job: nat, attempt: nat)

  datatype End = Open | Succeeded | Failed

  datatype Job = Job(payload: Id, attempts: nat, end: End)

  /** `staged` and `written` are history: what was staged, and which batches completed a write of what. */
  datatype State = State(
    rows: map<Id, Body>,
    submissions: map<Id, Submission>,
    jobs: seq<Job>,
    executions: map<nat, Execution>,
    staged: map<Id, Body>,
    written: set<(Id, seq<Operation>)>)

  const Start := State(map[], map[], [], map[], map[], {})

  datatype Act =
    | Stage(id: Id, body: Body)
    | Queue(id: Id)
    | EnqueueReturns(id: Id)
    | EnqueueRaises(id: Id)
    | Compensate(id: Id)
    | SubmitterLost(id: Id)
    | Replay(id: Id)
    | Begin(worker: nat, job: nat)
    | Load(worker: nat, answered: bool)
    | BatchWrite(worker: nat, succeeds: bool)
    | Delete(worker: nat, succeeds: bool)
    | ReportSuccess(worker: nat)
    | ReportFailure(worker: nat)
    | WorkerLost(worker: nat)

  function ExecutionOf(s: State, worker: nat): Execution {
    if worker in s.executions then s.executions[worker] else Idle
  }

  predicate IsAt(s: State, id: Id, at: Submission) {
    id in s.submissions && s.submissions[id] == at
  }

  predicate HasJob(s: State, id: Id) {
    exists j :: 0 <= j < |s.jobs| && s.jobs[j].payload == id
  }

  /** Some job for the payload is in the dead-letter stream. */
  predicate HasFailed(s: State, id: Id) {
    exists j :: 0 <= j < |s.jobs| && s.jobs[j].payload == id && s.jobs[j].end.Failed?
  }

  predicate Enabled(s: State, a: Act) {
    match a
    case Stage(id, _) => id !in s.submissions
    case Queue(id) => id in s.submissions && !HasJob(s, id)
    case EnqueueReturns(id) => IsAt(s, id, Staged) && HasJob(s, id)
    case EnqueueRaises(id) => IsAt(s, id, Staged)
    case Compensate(id) => IsAt(s, id, Compensating)
    case SubmitterLost(id) => IsAt(s, id, Staged) || IsAt(s, id, Compensating)
    case Replay(id) => HasFailed(s, id)
    case Begin(worker, j) => ExecutionOf(s, worker).Idle? && j < |s.jobs| && s.jobs[j].end.Open?
    case Load(worker, _) => ExecutionOf(s, worker).Loading?
    case BatchWrite(worker, _) => ExecutionOf(s, worker).Loaded?
    case Delete(worker, _) => ExecutionOf(s, worker).Written?
    case ReportSuccess(worker) => ExecutionOf(s, worker).Deleted?
    case ReportFailure(worker) => ExecutionOf(s, worker).Failing?
    case WorkerLost(_) => true
  }

  function SetExecution(s: State, worker: nat, e: Execution): State {
    s.(executions := s.executions[worker := e])
  }

  function EndJob(s: State, j: nat, end: End): State {
    if j < |s.jobs| then s.(jobs := s.jobs[j := s.jobs[j].(end := end)]) else s
  }

  function Next(max: nat, s: State, a: Act): State
    requires Enabled(s, a)
  {
    match a
    case Stage(id, body) =>
      s.(rows := s.rows[id := body], submissions := s.submissions[id := Staged], staged := s.staged[id := body])
    case Queue(id) => s.(jobs := s.jobs + [Job(id, 0, Open)])
    case EnqueueReturns(id) => s.(submissions := s.submissions[id := Returned])
    case EnqueueRaises(id) => s.(submissions := s.submissions[id := Compensating])
    case Compensate(id) => s.(rows := s.rows - {id}, submissions := s.submissions[id := Raised])
    case SubmitterLost(id) => s.(submissions := s.submissions[id := Abandoned])
    case Replay(id) => s.(jobs := s.jobs + [Job(id, 0, Open)])
    case Begin(worker, j) =>
      var job := s.jobs[j];
      SetExecution(s, worker, Loading(job.payload, j, job.attempts + 1)).(jobs := s.jobs[j := job.(attempts := job.attempts + 1)])
    case Load(worker, answered) =>
      var e := s.executions[worker];
      SetExecution(s, worker, if answered && e.id in s.rows then Loaded(e.id, e.job, e.attempt, s.rows[e.id].operations) else Failing(e.id, e.job, e.attempt))
    case BatchWrite(worker, succeeds) =>
      var e := s.executions[worker];
      if succeeds then SetExecution(s, worker, Written(e.id, e.job, e.attempt)).(written := s.written + {(e.id, e.operations)})
      else SetExecution(s, worker, Failing(e.id, e.job, e.attempt))
    case Delete(worker, succeeds) =>
      var e := s.executions[worker];
      if succeeds then SetExecution(s, worker, Deleted(e.id, e.job, e.attempt)).(rows := s.rows - {e.id})
      else SetExecution(s, worker, Failing(e.id, e.job, e.attempt))
    case ReportSuccess(worker) => EndJob(SetExecution(s, worker, Idle), s.executions[worker].job, Succeeded)
    case ReportFailure(worker) =>
      var e := s.executions[worker];
      if e.attempt >= max then EndJob(SetExecution(s, worker, Idle), e.job, Failed) else SetExecution(s, worker, Idle)
    case WorkerLost(worker) => SetExecution(s, worker, Idle)
  }

  ghost predicate IsRun(max: nat, states: seq<State>, acts: seq<Act>) {
    && |states| == |acts| + 1
    && states[0] == Start
    && forall i :: 0 <= i < |acts| ==> Enabled(states[i], acts[i]) && states[i + 1] == Next(max, states[i], acts[i])
  }

  predicate Done(s: State, id: Id) {
    id in s.staged && (id, s.staged[id].operations) in s.written
  }

  // ---------- the payload outlives its job ----------

  /** A payload is where it was staged, or its batch was written, or its own submission raised. */
  predicate PayloadSafe(s: State, id: Id) {
    && (id in s.submissions <==> id in s.staged)
    && (id in s.rows ==> id in s.staged && s.rows[id] == s.staged[id])
    && (id in s.staged && id !in s.rows ==> Done(s, id) || IsAt(s, id, Raised))
  }

  predicate ExecutionSafe(s: State, worker: nat) {
    match ExecutionOf(s, worker)
    case Loaded(id, _, _, operations) => id in s.staged && operations == s.staged[id].operations
    case Written(id, _, _) => Done(s, id)
    case _ => true
  }

  ghost predicate Safe(s: State) {
    && (forall id: nat :: PayloadSafe(s, id))
    && (forall worker: nat :: ExecutionSafe(s, worker))
  }

  lemma StepKeepsPayload(max: nat, s: State, a: Act, id: Id)
    requires Safe(s) && Enabled(s, a)
    ensures PayloadSafe(Next(max, s, a), id)
  {
    assert PayloadSafe(s, id);
    if a.Delete? {
      assert ExecutionSafe(s, a.worker);
    }
  }

  lemma StepKeepsExecution(max: nat, s: State, a: Act, worker: nat)
    requires Safe(s) && Enabled(s, a)
    ensures ExecutionSafe(Next(max, s, a), worker)
  {
    assert ExecutionSafe(s, worker);
    match a
    case Stage(id, _) => assert PayloadSafe(s, id);
    case Load(w, _) => assert PayloadSafe(s, s.executions[w].id);
    case _ =>
  }

  lemma {:induction false} RunIsSafe(max: nat, states: seq<State>, acts: seq<Act>, k: nat)
    requires IsRun(max, states, acts) && k < |states|
    ensures Safe(states[k])
  {
    if k > 0 {
      RunIsSafe(max, states, acts, k - 1);
      forall id: nat ensures PayloadSafe(states[k], id) {
        StepKeepsPayload(max, states[k - 1], acts[k - 1], id);
      }
      forall worker: nat ensures ExecutionSafe(states[k], worker) {
        StepKeepsExecution(max, states[k - 1], acts[k - 1], worker);
      }
    }
  }

  /**
   When `submit` returned a job, its payload is still staged unless a batch write of
   exactly those operations has completed; and no other payload disappears early, except
   one whose own `submit` raised.
   */
  lemma PayloadOutlivesItsJob(max: nat, states: seq<State>, acts: seq<Act>, k: nat, id: Id)
    requires IsRun(max, states, acts) && k < |states| && id in states[k].staged && id !in states[k].rows
    ensures Done(states[k], id) || IsAt(states[k], id, Raised)
    ensures IsAt(states[k], id, Returned) ==> Done(states[k], id)
  {
    RunIsSafe(max, states, acts, k);
    assert PayloadSafe(states[k], id);
  }

  /** A payload still staged has exactly the operations that were submitted. */
  lemma PayloadIsUnchanged(max: nat, states: seq<State>, acts: seq<Act>, k: nat, id: Id)
    requires IsRun(max, states, acts) && k < |states| && id in states[k].rows
    ensures id in states[k].staged && states[k].rows[id] == states[k].staged[id]
  {
    RunIsSafe(max, states, acts, k);
    assert PayloadSafe(states[k], id);
  }

  // ---------- exactly when an execution finds its payload ----------

  predicate Removes(s: State, a: Act, id: Id)
    requires Enabled(s, a)
  {
    a == Compensate(id) || (a.Delete? && a.succeeds && s.executions[a.worker].id == id)
  }

  predicate StagedBefore(acts: seq<Act>, id: Id, k: nat)
    requires k <= |acts|
  {
    exists i :: 0 <= i < k && acts[i].Stage? && acts[i].id == id
  }

  ghost predicate RemovedBefore(max: nat, states: seq<State>, acts: seq<Act>, id: Id, k: nat)
    requires IsRun(max, states, acts) && k <= |acts|
  {
    exists i :: 0 <= i < k && Removes(states[i], acts[i], id)
  }

  lemma {:induction false} RowExactlyWhen(max: nat, states: seq<State>, acts: seq<Act>, id: Id, k: nat)
    requires IsRun(max, states, acts) && k <= |acts|
    ensures id in states[k].submissions <==> StagedBefore(acts, id, k)
    ensures id in states[k].rows <==> StagedBefore(acts, id, k) && !RemovedBefore(max, states, acts, id, k)
    ensures RemovedBefore(max, states, acts, id, k) ==> StagedBefore(acts, id, k)
  {
    if k > 0 {
      RowExactlyWhen(max, states, acts, id, k - 1);
      RunIsSafe(max, states, acts, k - 1);
      RowStep(max, states[k - 1], acts[k - 1], id);
      BeforeOneMore(max, states, acts, id, k - 1);
    }
  }

  lemma RowStep(max: nat, s: State, a: Act, id: Id)
    requires Safe(s) && Enabled(s, a)
    ensures var n := Next(max, s, a);
            && (id in n.submissions <==> id in s.submissions || (a.Stage? && a.id == id))
            && (id in n.rows <==> (id in s.rows || (a.Stage? && a.id == id)) && !Removes(s, a, id))
            && (Removes(s, a, id) ==> id in s.submissions)
            && (a.Stage? && a.id == id ==> id !in s.submissions && id !in s.rows)
  {
    assert PayloadSafe(s, id);
    if a.Delete? {
      assert ExecutionSafe(s, a.worker);
    }
  }

  lemma BeforeOneMore(max: nat, states: seq<State>, acts: seq<Act>, id: Id, k: nat)
    requires IsRun(max, states, acts) && k < |acts|
    ensures StagedBefore(acts, id, k + 1) <==> StagedBefore(acts, id, k) || (acts[k].Stage? && acts[k].id == id)
    ensures RemovedBefore(max, states, acts, id, k + 1) <==> RemovedBefore(max, states, acts, id, k) || Removes(states[k], acts[k], id)
  {
  }

  /**
   In every run an execution whose read is answered finds its payload exactly when it was
   staged and no delete or compensation of it ran before, whoever ran it and for whatever job.
   */
  lemma FindsPayloadExactlyWhen(max: nat, states: seq<State>, acts: seq<Act>, k: nat)
    requires IsRun(max, states, acts) && k < |acts| && acts[k].Load? && acts[k].answered
    ensures var id, worker := states[k].executions[acts[k].worker].id, acts[k].worker;
            && (ExecutionOf(states[k + 1], worker).Loaded? <==>
                  StagedBefore(acts, id, k) && !RemovedBefore(max, states, acts, id, k))
            && (ExecutionOf(states[k + 1], worker).Failing? <==>
                  !StagedBefore(acts, id, k) || RemovedBefore(max, states, acts, id, k))
  {
    RowExactlyWhen(max, states, acts, states[k].executions[acts[k].worker].id, k);
  }

  // ---------- exactly when a written batch can end as failed ----------

  /**
   What the surroundings do: lose workers, deliver a job while a worker still has one for the
   same payload, let the read or the batch write raise, let the delete raise, replay failed jobs.
   */
  datatype Surroundings = Surroundings(losses: bool, overlaps: bool, raises: bool, deletesRaise: bool, replays: bool)

  predicate Busy(e: Execution, id: Id) {
    !e.Idle? && e.id == id
  }

  predicate InFlight(ex: map<nat, Execution>, id: Id) {
    exists w :: w in ex && Busy(ex[w], id)
  }

  ghost predicate Permits(env: Surroundings, s: State, a: Act)
    requires Enabled(s, a)
  {
    match a
    case WorkerLost(_) => env.losses
    case Begin(_, j) => env.overlaps || !InFlight(s.executions, s.jobs[j].payload)
    case Load(_, answered) => env.raises || answered
    case BatchWrite(_, succeeds) => env.raises || succeeds
    case Delete(_, succeeds) => env.deletesRaise || succeeds
    case Replay(_) => env.replays
    case _ => true
  }

  ghost predicate IsPermitted(max: nat, env: Surroundings, states: seq<State>, acts: seq<Act>) {
    IsRun(max, states, acts) && forall i :: 0 <= i < |acts| ==> Permits(env, states[i], acts[i])
  }

  /** A job ends as failed although the batch of its payload was written. */
  predicate FailsWritten(max: nat, s: State, a: Act)
    requires Enabled(s, a)
  {
    a.ReportFailure? && s.executions[a.worker].attempt >= max && Done(s, s.executions[a.worker].id)
  }

  /** No execution has the payload or ever will. */
  ghost predicate Hopeless(s: State, id: Id) {
    && id in s.staged && id !in s.rows && !Done(s, id)
    && forall w :: w in s.executions && Busy(s.executions[w], id) ==> s.executions[w].Loading? || s.executions[w].Failing?
  }

  ghost predicate OneJob(jobs: seq<Job>, id: Id) {
    forall i, j :: 0 <= i < j < |jobs| && jobs[i].payload == id ==> jobs[j].payload != id
  }

  ghost predicate IsExecuted(ex: map<nat, Execution>, id: Id, j: nat) {
    exists w :: w in ex && Busy(ex[w], id) && ex[w].job == j
  }

  /** A written batch has an execution that only deletes and reports, or no open job at all. */
  ghost predicate Winding(ex: map<nat, Execution>, jobs: seq<Job>, id: Id) {
    && (forall w :: w in ex && Busy(ex[w], id) ==> ex[w].Written? || ex[w].Deleted?)
    && (forall j: nat :: j < |jobs| && jobs[j].payload == id && jobs[j].end.Open? ==> IsExecuted(ex, id, j))
  }

  ghost predicate Sole(ex: map<nat, Execution>, id: Id) {
    forall v, w :: v in ex && w in ex && Busy(ex[v], id) && Busy(ex[w], id) ==> v == w
  }

  ghost predicate JobsNamed(ex: map<nat, Execution>, jobs: seq<Job>) {
    forall w :: w in ex && !ex[w].Idle? ==> ex[w].job < |jobs| && jobs[ex[w].job].payload == ex[w].id
  }

  predicate SomeFailing(ex: map<nat, Execution>, id: Id) {
    exists w :: w in ex && Busy(ex[w], id) && ex[w].Failing?
  }

  ghost predicate NeverWritten(s: State, id: Id) {
    id in s.staged || forall operations :: (id, operations) !in s.written
  }

  ghost predicate Tidy(env: Surroundings, s: State, id: Id) {
    && Sole(s.executions, id) && JobsNamed(s.executions, s.jobs) && NeverWritten(s, id)
    && (HasJob(s, id) ==> id in s.staged)
    && (Done(s, id) ==> HasJob(s, id) && Winding(s.executions, s.jobs, id))
    && (OneJob(s.jobs, id) || Hopeless(s, id))
    && (!env.raises && (HasFailed(s, id) || SomeFailing(s.executions, id)) ==> Hopeless(s, id))
  }

  /** Neither losses nor overlaps nor failed deletes, and no replays of jobs that failed because something raised. */
  predicate Orderly(env: Surroundings) {
    !env.losses && !env.overlaps && !env.deletesRaise && !(env.raises && env.replays)
  }

  ghost predicate Steps(env: Surroundings, s: State, a: Act, id: Id) {
    Safe(s) && Tidy(env, s, id) && Orderly(env) && Enabled(s, a) && Permits(env, s, a)
  }

  lemma StaysSole(max: nat, env: Surroundings, s: State, a: Act, id: Id)
    requires Steps(env, s, a, id)
    ensures Sole(Next(max, s, a).executions, id)
  {
    if a.Begin? {
      assert s.jobs[a.job].payload == id ==> !InFlight(s.executions, id);
    } else {
      KeepsItsPayload(max, s, a);
    }
  }

  /** Only a delivery gives a worker something else to execute. */
  lemma KeepsItsPayload(max: nat, s: State, a: Act)
    requires Enabled(s, a) && !a.Begin?
    ensures var n := Next(max, s, a);
            forall w :: w in n.executions && !n.executions[w].Idle? ==>
              && w in s.executions && !s.executions[w].Idle?
              && n.executions[w].id == s.executions[w].id && n.executions[w].job == s.executions[w].job
  {
  }

  lemma StaysNamed(max: nat, s: State, a: Act)
    requires Enabled(s, a) && JobsNamed(s.executions, s.jobs)
    ensures JobsNamed(Next(max, s, a).executions, Next(max, s, a).jobs)
  {
    if !a.Begin? {
      KeepsItsPayload(max, s, a);
    }
  }

  lemma JobsStayTidy(max: nat, env: Surroundings, s: State, a: Act, id: Id)
    requires Steps(env, s, a, id)
    ensures var n := Next(max, s, a);
            && NeverWritten(n, id)
            && (HasJob(n, id) ==> id in n.staged)
            && (HasJob(s, id) ==> HasJob(n, id))
            && (Done(n, id) ==> HasJob(n, id))
  {
    var n := Next(max, s, a);
    assert PayloadSafe(s, id);
    if HasJob(s, id) {
      var j :| 0 <= j < |s.jobs| && s.jobs[j].payload == id;
      assert n.jobs[j].payload == id;
    }
    if a.BatchWrite? && s.executions[a.worker].id == id {
      assert Busy(s.executions[a.worker], id);
      assert s.jobs[s.executions[a.worker].job].payload == id;
    }
  }

  lemma StaysWritten(max: nat, s: State, a: Act, id: Id)
    requires Safe(s) && Enabled(s, a) && Done(s, id)
    ensures Done(Next(max, s, a), id)
  {
    assert PayloadSafe(s, id);
  }

  lemma OldJobIsOpen(max: nat, env: Surroundings, s: State, a: Act, id: Id, j: nat)
    requires Steps(env, s, a, id) && Done(s, id)
    requires var n := Next(max, s, a); j < |n.jobs| && n.jobs[j].payload == id && n.jobs[j].end.Open?
    ensures j < |s.jobs| && s.jobs[j].payload == id && s.jobs[j].end.Open?
    ensures a.ReportSuccess? || a.ReportFailure? ==> s.executions[a.worker].job != j
  {
  }

  lemma WrittenStaysTidy(max: nat, env: Surroundings, s: State, a: Act, id: Id)
    requires Steps(env, s, a, id) && Done(s, id)
    ensures var n := Next(max, s, a); Winding(n.executions, n.jobs, id)
  {
    var n := Next(max, s, a);
    forall w | w in n.executions && Busy(n.executions[w], id) ensures n.executions[w].Written? || n.executions[w].Deleted? {
      StillWinding(max, env, s, a, id, w);
    }
    forall j: nat | j < |n.jobs| && n.jobs[j].payload == id && n.jobs[j].end.Open? ensures IsExecuted(n.executions, id, j) {
      OldJobIsOpen(max, env, s, a, id, j);
      var w :| w in s.executions && Busy(s.executions[w], id) && s.executions[w].job == j;
      assert w in n.executions && Busy(n.executions[w], id) && n.executions[w].job == j;
    }
  }

  lemma StillWinding(max: nat, env: Surroundings, s: State, a: Act, id: Id, w: nat)
    requires Steps(env, s, a, id) && Done(s, id)
    requires var n := Next(max, s, a); w in n.executions && Busy(n.executions[w], id)
    ensures var n := Next(max, s, a); n.executions[w].Written? || n.executions[w].Deleted?
  {
    assert a.Begin? && s.jobs[a.job].payload == id ==> IsExecuted(s.executions, id, a.job);
  }

  lemma OnlyAWriteWrites(max: nat, env: Surroundings, s: State, a: Act, id: Id)
    requires Steps(env, s, a, id) && !Done(s, id)
    ensures Done(Next(max, s, a), id) ==> a.BatchWrite? && Busy(s.executions[a.worker], id) && s.executions[a.worker].Loaded?
  {
    if a.Stage? {
      assert PayloadSafe(s, a.id);
      assert a.id == id ==> (id, a.body.operations) !in s.written;
    }
  }

  lemma BecomesWritten(max: nat, env: Surroundings, s: State, a: Act, id: Id)
    requires Steps(env, s, a, id) && !Done(s, id) && Done(Next(max, s, a), id)
    ensures var n := Next(max, s, a); Winding(n.executions, n.jobs, id)
  {
    var n := Next(max, s, a);
    OnlyAWriteWrites(max, env, s, a, id);
    var e := s.executions[a.worker];
    assert OneJob(s.jobs, id);
    forall j: nat | j < |n.jobs| && n.jobs[j].payload == id ensures IsExecuted(n.executions, id, j) {
      assert j == e.job;
      assert a.worker in n.executions && Busy(n.executions[a.worker], id) && n.executions[a.worker].job == j;
    }
  }

  lemma StaysHopeless(max: nat, env: Surroundings, s: State, a: Act, id: Id)
    requires Steps(env, s, a, id) && Hopeless(s, id)
    ensures Hopeless(Next(max, s, a), id)
  {
    assert PayloadSafe(s, id);
  }

  lemma OneJobStays(max: nat, env: Surroundings, s: State, a: Act, id: Id)
    requires Steps(env, s, a, id) && !Hopeless(s, id)
    ensures OneJob(Next(max, s, a).jobs, id)
  {
    var n := Next(max, s, a);
    if a.Queue? && a.id == id {
      forall j | 0 <= j < |s.jobs| ensures s.jobs[j].payload != id {}
    }
  }

  lemma FailureIsHopeless(max: nat, env: Surroundings, s: State, a: Act, id: Id)
    requires Steps(env, s, a, id) && !env.raises
    requires HasFailed(Next(max, s, a), id) || SomeFailing(Next(max, s, a).executions, id)
    ensures Hopeless(Next(max, s, a), id)
  {
    var n := Next(max, s, a);
    if HasFailed(n, id) {
      var j :| 0 <= j < |n.jobs| && n.jobs[j].payload == id && n.jobs[j].end.Failed?;
      FailedBefore(max, env, s, a, id, j);
      StaysHopeless(max, env, s, a, id);
    } else if Hopeless(s, id) {
      StaysHopeless(max, env, s, a, id);
    } else {
      var w :| w in n.executions && Busy(n.executions[w], id) && n.executions[w].Failing?;
      MissesItsPayload(max, env, s, a, id, w);
    }
  }

  lemma MissesItsPayload(max: nat, env: Surroundings, s: State, a: Act, id: Id, w: nat)
    requires Steps(env, s, a, id) && !env.raises && !SomeFailing(s.executions, id)
    requires var n := Next(max, s, a); w in n.executions && Busy(n.executions[w], id) && n.executions[w].Failing?
    ensures Hopeless(Next(max, s, a), id)
  {
    assert a.Load? && a.worker == w && w in s.executions && Busy(s.executions[w], id);
    assert s.jobs[s.executions[w].job].payload == id;
    assert HasJob(s, id);
  }

  lemma FailedBefore(max: nat, env: Surroundings, s: State, a: Act, id: Id, j: nat)
    requires Steps(env, s, a, id) && !env.raises
    requires var n := Next(max, s, a); j < |n.jobs| && n.jobs[j].payload == id && n.jobs[j].end.Failed?
    ensures HasFailed(s, id) || SomeFailing(s.executions, id)
  {
    if j < |s.jobs| && s.jobs[j].end.Failed? {
      assert HasFailed(s, id);
    } else {
      assert a.ReportFailure? && s.executions[a.worker].job == j && Busy(s.executions[a.worker], id);
    }
  }

  lemma StepStaysTidy(max: nat, env: Surroundings, s: State, a: Act, id: Id)
    requires Steps(env, s, a, id)
    ensures Tidy(env, Next(max, s, a), id)
  {
    StaysSole(max, env, s, a, id);
    StaysNamed(max, s, a);
    JobsStayTidy(max, env, s, a, id);
    if Done(s, id) {
      WrittenStaysTidy(max, env, s, a, id);
    } else if Done(Next(max, s, a), id) {
      BecomesWritten(max, env, s, a, id);
    }
    if Hopeless(s, id) {
      StaysHopeless(max, env, s, a, id);
    } else {
      OneJobStays(max, env, s, a, id);
    }
    if !env.raises && (HasFailed(Next(max, s, a), id) || SomeFailing(Next(max, s, a).executions, id)) {
      FailureIsHopeless(max, env, s, a, id);
    }
  }

  lemma {:induction false} RunStaysTidy(max: nat, env: Surroundings, states: seq<State>, acts: seq<Act>, k: nat, id: Id)
    requires IsPermitted(max, env, states, acts) && Orderly(env) && k < |states|
    ensures Tidy(env, states[k], id)
  {
    if k > 0 {
      RunStaysTidy(max, env, states, acts, k - 1, id);
      RunIsSafe(max, states, acts, k - 1);
      assert Permits(env, states[k - 1], acts[k - 1]);
      StepStaysTidy(max, env, states[k - 1], acts[k - 1], id);
    }
  }

  // ---------- runs in which it does ----------

  lemma Extend(max: nat, env: Surroundings, states: seq<State>, acts: seq<Act>, a: Act) returns (states': seq<State>, acts': seq<Act>)
    requires IsPermitted(max, env, states, acts) && Enabled(states[|acts|], a) && Permits(env, states[|acts|], a)
    ensures IsPermitted(max, env, states', acts') && acts' == acts + [a] && states' == states + [Next(max, states[|acts|], a)]
  {
    var last := states[|acts|];
    var next := Next(max, last, a);
    states', acts' := states + [next], acts + [a];
    forall i | 0 <= i < |acts'| ensures Enabled(states'[i], acts'[i]) && states'[i + 1] == Next(max, states'[i], acts'[i]) && Permits(env, states'[i], acts'[i]) {
      if i < |acts| {
        assert states'[i] == states[i] && states'[i + 1] == states[i + 1] && acts'[i] == acts[i];
      } else {
        assert states'[i] == last && states'[i + 1] == next && acts'[i] == a;
      }
    }
  }

  /** A worker is free to try the job again, and what it tries will fail. */
  ghost predicate Doomed(env: Surroundings, s: State, worker: nat, j: nat, id: Id, attempts: nat) {
    && ExecutionOf(s, worker).Idle? && j < |s.jobs| && s.jobs[j] == Job(id, attempts, Open)
    && (env.overlaps || !InFlight(s.executions, id))
    && (id !in s.rows || env.raises || (env.deletesRaise && id in s.staged && s.rows[id] == s.staged[id]))
  }

  /** Everything but the worker's execution, the job's attempts and what was written stays. */
  ghost predicate FailedAttempt(s: State, n: State, worker: nat, j: nat, id: Id, attempt: nat) {
    && n.rows == s.rows && n.staged == s.staged && n.submissions == s.submissions && s.written <= n.written
    && n.executions == s.executions[worker := Failing(id, j, attempt)]
    && j < |s.jobs| && n.jobs == s.jobs[j := Job(id, attempt, Open)]
  }

  /** One attempt, up to the point where its failure is reported; where only deletes fail, it writes. */
  lemma OneAttempt(max: nat, env: Surroundings, states: seq<State>, acts: seq<Act>, worker: nat, j: nat, id: Id, attempts: nat)
    returns (states': seq<State>, acts': seq<Act>)
    requires IsPermitted(max, env, states, acts) && Doomed(env, states[|acts|], worker, j, id, attempts)
    ensures IsPermitted(max, env, states', acts')
    ensures FailedAttempt(states[|acts|], states'[|acts'|], worker, j, id, attempts + 1)
    ensures id in states[|acts|].rows && !env.raises ==> Done(states'[|acts'|], id)
    ensures env.raises ==> states'[|acts'|].written == states[|acts|].written
  {
    var s := states[|acts|];
    states', acts' := Extend(max, env, states, acts, Begin(worker, j));
    if env.raises {
      states', acts' := Extend(max, env, states', acts', Load(worker, false));
    } else {
      states', acts' := Extend(max, env, states', acts', Load(worker, true));
      if id in s.rows {
        states', acts' := Extend(max, env, states', acts', BatchWrite(worker, true));
        states', acts' := Extend(max, env, states', acts', Delete(worker, false));
      }
    }
    assert states'[|acts'|].executions == s.executions[worker := Failing(id, j, attempts + 1)];
  }

  lemma StaysDoneThroughFailure(s: State, n: State, worker: nat, j: nat, id: Id, attempt: nat)
    requires FailedAttempt(s, n, worker, j, id, attempt) && Done(s, id)
    ensures Done(n, id)
  {
  }

  /** Attempts fail until the last one is about to be reported. */
  lemma {:induction false} AttemptsRunOut(max: nat, env: Surroundings, states: seq<State>, acts: seq<Act>, worker: nat, j: nat, id: Id, attempts: nat)
    returns (states': seq<State>, acts': seq<Act>)
    requires IsPermitted(max, env, states, acts) && Doomed(env, states[|acts|], worker, j, id, attempts) && attempts < max
    ensures IsPermitted(max, env, states', acts')
    ensures FailedAttempt(states[|acts|], states'[|acts'|], worker, j, id, max)
    ensures id in states[|acts|].rows && !env.raises ==> Done(states'[|acts'|], id)
    ensures env.raises ==> states'[|acts'|].written == states[|acts|].written
    decreases max - attempts
  {
    var s := states[|acts|];
    states', acts' := OneAttempt(max, env, states, acts, worker, j, id, attempts);
    if attempts + 1 < max {
      states', acts' := Extend(max, env, states', acts', ReportFailure(worker));
      var n := states'[|acts'|];
      RestsAgain(env, s, n, worker, id);
      states', acts' := AttemptsRunOut(max, env, states', acts', worker, j, id, attempts + 1);
      assert n.executions[worker := Failing(id, j, max)] == s.executions[worker := Failing(id, j, max)];
    }
  }

  lemma RestsAgain(env: Surroundings, s: State, n: State, worker: nat, id: Id)
    requires ExecutionOf(s, worker).Idle? && (env.overlaps || !InFlight(s.executions, id))
    requires n.executions == s.executions[worker := Idle]
    ensures env.overlaps || !InFlight(n.executions, id)
  {
  }

  /** One job is queued, and the first attempts of it are made. */
  lemma Queued(max: nat, env: Surroundings, body: Body) returns (states: seq<State>, acts: seq<Act>)
    ensures IsPermitted(max, env, states, acts)
    ensures states[|acts|] == State(map[0 := body], map[0 := Returned], [Job(0, 0, Open)], map[], map[0 := body], {})
  {
    states, acts := Extend(max, env, [Start], [], Stage(0, body));
    states, acts := Extend(max, env, states, acts, Queue(0));
    assert states[|acts|].jobs[0].payload == 0;
    states, acts := Extend(max, env, states, acts, EnqueueReturns(0));
  }

  /** A free worker executes a job up to the point where its success is to be reported. */
  lemma Executed(max: nat, env: Surroundings, states: seq<State>, acts: seq<Act>, j: nat, body: Body) returns (states': seq<State>, acts': seq<Act>)
    requires IsPermitted(max, env, states, acts)
    requires var s := states[|acts|];
             && j < |s.jobs| && s.jobs[j] == Job(0, 0, Open) && 0 in s.rows && s.rows[0] == body
             && ExecutionOf(s, 0).Idle? && !InFlight(s.executions, 0)
    ensures IsPermitted(max, env, states', acts')
    ensures var s, n := states[|acts|], states'[|acts'|];
            && n.rows == s.rows - {0} && n.staged == s.staged && n.written == s.written + {(0, body.operations)}
            && n.executions == s.executions[0 := Deleted(0, j, 1)] && n.jobs == s.jobs[j := Job(0, 1, Open)]
  {
    states', acts' := Extend(max, env, states, acts, Begin(0, j));
    states', acts' := Extend(max, env, states', acts', Load(0, true));
    states', acts' := Extend(max, env, states', acts', BatchWrite(0, true));
    states', acts' := Extend(max, env, states', acts', Delete(0, true));
    assert states'[|acts'|].executions == states[|acts|].executions[0 := Deleted(0, j, 1)];
  }

  ghost predicate FailsSome(max: nat, env: Surroundings, states: seq<State>, acts: seq<Act>) {
    IsPermitted(max, env, states, acts) && exists k :: 0 <= k < |acts| && FailsWritten(max, states[k], acts[k])
  }

  /** The last failure of a written batch's job is reported. */
  lemma ReportsIt(max: nat, env: Surroundings, states: seq<State>, acts: seq<Act>, worker: nat, j: nat, attempt: nat)
    returns (states': seq<State>, acts': seq<Act>)
    requires IsPermitted(max, env, states, acts) && Done(states[|acts|], 0)
    requires ExecutionOf(states[|acts|], worker) == Failing(0, j, attempt) && attempt >= max
    ensures FailsSome(max, env, states', acts')
  {
    states', acts' := Extend(max, env, states, acts, ReportFailure(worker));
    var k := |acts|;
    assert acts'[k] == ReportFailure(worker) && states'[k] == states[k];
    assert FailsWritten(max, states'[k], acts'[k]);
  }

  /** Tried again until the attempts run out, a written batch without a payload ends as failed. */
  lemma DoomedFails(max: nat, env: Surroundings, states: seq<State>, acts: seq<Act>, worker: nat, j: nat, attempts: nat)
    returns (states': seq<State>, acts': seq<Act>)
    requires IsPermitted(max, env, states, acts) && Doomed(env, states[|acts|], worker, j, 0, attempts)
    requires Done(states[|acts|], 0) || (0 in states[|acts|].rows && !env.raises)
    ensures FailsSome(max, env, states', acts')
  {
    if attempts < max {
      states', acts' := AttemptsRunOut(max, env, states, acts, worker, j, 0, attempts);
      assert Done(states'[|acts'|], 0);
      states', acts' := ReportsIt(max, env, states', acts', worker, j, max);
    } else {
      states', acts' := OneAttempt(max, env, states, acts, worker, j, 0, attempts);
      assert Done(states'[|acts'|], 0);
      states', acts' := ReportsIt(max, env, states', acts', worker, j, attempts + 1);
    }
  }

  /** The worker is lost between its delete and its report. */
  lemma LossFails(max: nat, env: Surroundings, body: Body) returns (states: seq<State>, acts: seq<Act>)
    requires env.losses
    ensures FailsSome(max, env, states, acts)
  {
    states, acts := Queued(max, env, body);
    states, acts := Executed(max, env, states, acts, 0, body);
    states, acts := Extend(max, env, states, acts, WorkerLost(0));
    states, acts := DoomedFails(max, env, states, acts, 0, 0, 1);
  }

  /** A second worker is given the job between the first one's delete and its report. */
  lemma OverlapFails(max: nat, env: Surroundings, body: Body) returns (states: seq<State>, acts: seq<Act>)
    requires env.overlaps
    ensures FailsSome(max, env, states, acts)
  {
    states, acts := Queued(max, env, body);
    states, acts := Executed(max, env, states, acts, 0, body);
    states, acts := DoomedFails(max, env, states, acts, 1, 0, 1);
  }

  /** Every attempt writes the batch and fails to delete its payload. */
  lemma FailedDeleteFails(max: nat, env: Surroundings, body: Body) returns (states: seq<State>, acts: seq<Act>)
    requires env.deletesRaise
    ensures FailsSome(max, env, states, acts)
  {
    var less := env.(raises := false);
    states, acts := Queued(max, less, body);
    states, acts := DoomedFails(max, less, states, acts, 0, 0, 0);
    forall i | 0 <= i < |acts| ensures Permits(env, states[i], acts[i]) {
      assert Permits(less, states[i], acts[i]);
    }
  }

  /** A job fails because its writes raise, its replay succeeds, and it is replayed once more. */
  lemma ReplayFails(max: nat, env: Surroundings, body: Body) returns (states: seq<State>, acts: seq<Act>)
    requires env.raises && env.replays && max >= 1
    ensures FailsSome(max, env, states, acts)
  {
    states, acts := Queued(max, env, body);
    states, acts := AttemptsRunOut(max, env, states, acts, 0, 0, 0, 0);
    states, acts := Extend(max, env, states, acts, ReportFailure(0));
    assert states[|acts|].jobs[0].end.Failed?;
    states, acts := Extend(max, env, states, acts, Replay(0));
    states, acts := Executed(max, env, states, acts, 1, body);
    states, acts := Extend(max, env, states, acts, ReportSuccess(0));
    assert states[|acts|].jobs[0].end.Failed?;
    states, acts := Extend(max, env, states, acts, Replay(0));
    states, acts := DoomedFails(max, env, states, acts, 0, 2, 0);
  }

  /** Nobody but its own execution could report it, and that only deletes and reports success. */
  lemma OrderlyNeverFails(max: nat, env: Surroundings, states: seq<State>, acts: seq<Act>)
    requires Orderly(env) && IsPermitted(max, env, states, acts)
    ensures !FailsSome(max, env, states, acts)
  {
    forall k: nat | k < |acts| ensures !FailsWritten(max, states[k], acts[k]) {
      if acts[k].ReportFailure? {
        var e := states[k].executions[acts[k].worker];
        RunStaysTidy(max, env, states, acts, k, e.id);
        assert Busy(e, e.id);
      }
    }
  }

  /**
   A job can end as failed although the batch of its payload was written exactly when workers
   can be lost, or deliveries overlap, or the delete can raise, or jobs that failed because
   their read or write raised are replayed.
   */
  lemma WrittenBatchCanFailExactlyWhen(max: nat, env: Surroundings)
    requires max >= 1
    ensures (exists states: seq<State>, acts: seq<Act> :: FailsSome(max, env, states, acts))
            <==> env.losses || env.overlaps || env.deletesRaise || (env.raises && env.replays)
  {
    if Orderly(env) {
      forall states: seq<State>, acts: seq<Act> | IsPermitted(max, env, states, acts) ensures !FailsSome(max, env, states, acts) {
        OrderlyNeverFails(max, env, states, acts);
      }
    } else {
      var states, acts;
      if env.losses {
        states, acts := LossFails(max, env, Body("", []));
      } else if env.overlaps {
        states, acts := OverlapFails(max, env, Body("", []));
      } else if env.deletesRaise {
        states, acts := FailedDeleteFails(max, env, Body("", []));
      } else {
        states, acts := ReplayFails(max, env, Body("", []));
      }
    }
  }

  // ---------- the objects ----------

  class MaintenanceJobPayloadStore {
    var rows: map<Id, Body>

    constructor ()
      ensures rows == map[]
    {
      rows := map[];
    }

    /** A second row under the same key is refused by the primary key. */
    method Save(id: Id, body: Body) returns (ok: bool)
      modifies this
      ensures ok <==> id !in old(rows)
      ensures rows == if ok then old(rows)[id := body] else old(rows)
    {
      if id in rows {
        return false;
      }
      rows := rows[id := body];
      return true;
    }

    method Fetch(id: Id) returns (body: Option<Body>)
      ensures body == if id in rows then Some(rows[id]) else None
    {
      body := if id in rows then Some(rows[id]) else None;
    }

    method Remove(id: Id)
      modifies this
      ensures rows == old(rows) - {id}
    {
      rows := rows - {id};
    }
  }

  datatype EnqueueAnswer = Queued | QueueUnavailable | RateLimited | OtherException

  datatype SubmitError = QueueDisabled | PayloadTooLarge | StagingFailed | Refused | Unhandled

  class MaintenanceBatchNoteWriteService {
    const store: MaintenanceJobPayloadStore
    const enabled: bool
    const maxOperations: nat

    constructor (store: MaintenanceJobPayloadStore, enabled: bool, maxOperations: nat)
      requires maxOperations > 0
      ensures this.store == store && this.enabled == enabled && this.maxOperations == maxOperations
    {
      this.store, this.enabled, this.maxOperations := store, enabled, maxOperations;
    }

    /** Stages, enqueues, and takes the row back only when the queue refused the job. */
    method Submit(id: Id, operations: seq<Operation>, requestedBy: string, answer: EnqueueAnswer) returns (r: Result<Id, SubmitError>)
      modifies store
      ensures !enabled ==> r == Err(QueueDisabled)
      ensures enabled && |operations| > maxOperations ==> r == Err(PayloadTooLarge)
      ensures r.Ok? <==> enabled && |operations| <= maxOperations && id !in old(store.rows) && answer.Queued?
      ensures r.Ok? || r == Err(Unhandled) ==> store.rows == old(store.rows)[id := Body(requestedBy, operations)]
      ensures r.Err? && r != Err(Unhandled) ==> store.rows == old(store.rows)
    {
      if !enabled {
        return Err(QueueDisabled);
      }
      if |operations| > maxOperations {
        return Err(PayloadTooLarge);
      }
      var staged := store.Save(id, Body(requestedBy, operations));
      if !staged {
        return Err(StagingFailed);
      }
      match answer
      case Queued => return Ok(id);
      case OtherException => return Err(Unhandled);
      case _ =>
        store.Remove(id);
        assert store.rows == old(store.rows);
        return Err(Refused);
    }

    /** Executes one staged batch: what is written is what was staged, and the payload goes only after that. */
    method ExecuteBatch(id: Id, writeSucceeds: bool, deleteSucceeds: bool) returns (written: Option<seq<Operation>>, reported: bool)
      modifies store
      ensures written.Some? <==> id in old(store.rows) && writeSucceeds
      ensures written.Some? ==> written.value == old(store.rows)[id].operations
      ensures reported <==> written.Some? && deleteSucceeds
      ensures store.rows == if reported then old(store.rows) - {id} else old(store.rows)
    {
      var body := store.Fetch(id);
      if body.None? || !writeSucceeds {
        return None, false;
      }
      if !deleteSucceeds {
        return Some(body.value.operations), false;
      }
      store.Remove(id);
      return Some(body.value.operations), true;
    }
  }
}
