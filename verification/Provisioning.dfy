/** The provisioning queue: jobs, the workspaces they serve, and each transaction as a
    function from the queue before to the queue after. */
module Provisioning {
  import opened Prelude

  datatype JobStatus = Queued | Running | Succeeded | FailedForGood
  datatype Job = Job(
    workspace: Id, status: JobStatus, attempt: nat, availableAt: nat,
    leaseOwner: Option<Id>, leaseExpiresAt: Option<nat>, createdAt: nat, completedAt: Option<nat>)

  datatype WorkspaceState = WorkspacePending | WorkspaceProvisioning | WorkspaceReady | WorkspaceFailed
  datatype Workspace = Workspace(state: WorkspaceState, workerId: Option<Id>)

  datatype Queue = Queue(jobs: map<Id, Job>, workspaces: map<Id, Workspace>)

  datatype QueueError = JobUnresolved | WorkspaceMissing | LeaseLost | WorkerIdTaken

  predicate ActiveJob(j: Job) {
    j.status == Queued || j.status == Running
  }

  predicate Finished(j: Job) {
    !ActiveJob(j)
  }

  predicate HasActiveJob(q: Queue, workspace: Id) {
    exists j :: j in q.jobs && q.jobs[j].workspace == workspace && ActiveJob(q.jobs[j])
  }

  // ---------------------------------------------------------------- ensure

  /** The second transaction of ensuring a workspace runs: resolve or insert the active
      job, then mark the workspace unless it is ready. It does not look at the state
      that was read before it began. */
  function Enqueue(q: Queue, workspace: Id, jobId: Id, now: nat): Result<Queue, QueueError> {
    if workspace !in q.workspaces then Err(WorkspaceMissing)
    else if !HasActiveJob(q, workspace) && jobId in q.jobs then Err(JobUnresolved)
    else
      var jobs :=
        if HasActiveJob(q, workspace) then q.jobs
        else q.jobs[jobId := Job(workspace, Queued, 0, now, None, None, now, None)];
      var w := q.workspaces[workspace];
      Ok(Queue(
           jobs,
           q.workspaces[workspace := if w.state == WorkspaceReady then w else w.(state := WorkspaceProvisioning)]))
  }

  /** The first transaction: the workspace row, inserted when it is missing. */
  function Resolve(q: Queue, workspace: Id): Queue {
    if workspace in q.workspaces then q
    else q.(workspaces := q.workspaces[workspace := Workspace(WorkspacePending, None)])
  }

  function QueueOr(q: Queue, r: Result<Queue, QueueError>): Queue {
    if r.Ok? then r.value else q
  }

  /** Both transactions as one step; the first stays committed when the second throws. */
  function Ensure(q: Queue, workspace: Id, jobId: Id, now: nat): Queue {
    var resolved := Resolve(q, workspace);
    if resolved.workspaces[workspace].state == WorkspaceReady then resolved
    else QueueOr(resolved, Enqueue(resolved, workspace, jobId, now))
  }

  // ----------------------------------------------------------------- claim

  predicate Claimable(j: Job, now: nat) {
    || (j.status == Queued && j.availableAt <= now)
    || (j.status == Running && j.leaseExpiresAt.Some? && j.leaseExpiresAt.value <= now)
  }

  /** Queued jobs first, then the longest available, then the oldest. */
  predicate Before(a: Job, b: Job) {
    var rankA := if a.status == Queued then 0 else 1;
    var rankB := if b.status == Queued then 0 else 1;
    || rankA < rankB
    || (rankA == rankB && a.availableAt < b.availableAt)
    || (rankA == rankB && a.availableAt == b.availableAt && a.createdAt < b.createdAt)
  }

  predicate NextJob(q: Queue, j: Id, now: nat) {
    && j in q.jobs
    && Claimable(q.jobs[j], now)
    && forall k :: k in q.jobs && Claimable(q.jobs[k], now) ==> !Before(q.jobs[k], q.jobs[j])
  }

  function Claim(q: Queue, j: Id, owner: Id, lease: nat, now: nat): Queue
    requires j in q.jobs
  {
    var job := q.jobs[j];
    q.(jobs := q.jobs[j := job.(
         status := Running, attempt := job.attempt + 1, leaseOwner := Some(owner),
         leaseExpiresAt := Some(now + lease), completedAt := None)])
  }

  // ---------------------------------------------------------------- finish

  datatype Outcome =
    | Success(workerId: Option<Id>)
    | Failure(retryable: bool, delay: nat)

  predicate HoldsLease(q: Queue, j: Id, owner: Id) {
    j in q.jobs && q.jobs[j].status == Running && q.jobs[j].leaseOwner == Some(owner)
  }

  function FinishedJob(job: Job, outcome: Outcome, now: nat): Job {
    var released := job.(leaseOwner := None, leaseExpiresAt := None);
    if outcome.Failure? && outcome.retryable then
      released.(status := Queued, availableAt := now + outcome.delay, completedAt := None)
    else
      released.(status := if outcome.Success? then Succeeded else FailedForGood,
                availableAt := now, completedAt := Some(now))
  }

  function FinishedWorkspace(w: Workspace, id: Id, outcome: Outcome): Workspace {
    match outcome
    case Success(workerId) =>
      Workspace(WorkspaceReady, Some(if workerId.Some? then workerId.value else id))
    case Failure(retryable, _) =>
      if retryable then w else w.(state := WorkspaceFailed)
  }

  /** Worker workspace ids are a unique column. */
  predicate WorkerIdFree(q: Queue, workspace: Id, workerId: Option<Id>) {
    workerId.Some? ==>
      forall w :: w in q.workspaces && w != workspace ==> q.workspaces[w].workerId != workerId
  }

  function Finish(q: Queue, j: Id, owner: Id, outcome: Outcome, now: nat): Result<Queue, QueueError> {
    if !HoldsLease(q, j, owner) then Err(LeaseLost)
    else
      var job := q.jobs[j];
      var jobs := q.jobs[j := FinishedJob(job, outcome, now)];
      if job.workspace !in q.workspaces then Ok(q.(jobs := jobs))
      else
        var w := FinishedWorkspace(q.workspaces[job.workspace], job.workspace, outcome);
        if outcome.Success? && !WorkerIdFree(q, job.workspace, w.workerId) then Err(WorkerIdTaken)
        else Ok(Queue(jobs, q.workspaces[job.workspace := w]))
  }

  /** Deleting a workspace cascades to its jobs. */
  function DeleteWorkspace(q: Queue, workspace: Id): Queue {
    Queue(map j | j in q.jobs && q.jobs[j].workspace != workspace :: q.jobs[j], q.workspaces - {workspace})
  }

  // --------------------------------------------------------------- backoff

  const MAXIMUM_DELAY_MS: nat := 60000

  function PowerOfTwo(n: nat): nat {
    if n == 0 then 1 else 2 * PowerOfTwo(n - 1)
  }

  /** The delay before a job is available again after failing its n-th attempt. */
  function RetryDelay(attempt: nat): nat {
    Min(MAXIMUM_DELAY_MS, 1000 * PowerOfTwo(Max(0, attempt - 1)))
  }

  /** All delays of the first n attempts together. */
  function TotalDelay(n: nat): nat {
    if n == 0 then 0 else TotalDelay(n - 1) + RetryDelay(n)
  }

  lemma {:induction false} DelayGrows(a: nat, b: nat)
    requires a <= b
    ensures RetryDelay(a) <= RetryDelay(b) <= MAXIMUM_DELAY_MS
    decreases b - a
  {
    if a < b {
      DelayGrows(a, b - 1);
      assert b >= 2 ==> PowerOfTwo(b - 1) == 2 * PowerOfTwo(b - 2);
    }
  }

  lemma {:induction false} TotalDelayGrows(a: nat, b: nat)
    requires a <= b
    ensures TotalDelay(a) <= TotalDelay(b) <= TotalDelay(a) + MAXIMUM_DELAY_MS * (b - a)
    decreases b - a
  {
    if a < b {
      TotalDelayGrows(a, b - 1);
      DelayGrows(b, b);
    }
  }
}
