/** Several processors draining one queue under expiring leases, any of which may crash
    at any moment: the steps of the protocol, with a tally of what happened to each job. */
module ProvisioningProtocol {
  import opened Prelude
  import opened Provisioning

  /** Where a processor is with the job it claimed: the worker call is pending, or it
      failed and the failure is still to be recorded. */
  datatype Stage = Working | GivingUp(retryable: bool)
  datatype Flight = Flight(job: Id, attempt: nat, stage: Stage)

  /** Everything that ever happened to one job, with the times of the last claim and of the
      last finish. A reclaim is a claim of a job whose previous lease ran out. */
  datatype Tally = Tally(
    claims: nat, finishes: nat, reclaims: nat, requeues: nat, backoff: nat, lastClaimer: Option<Id>,
    claimedAt: nat, finishedAt: nat)

  const UNTOUCHED: Tally := Tally(0, 0, 0, 0, 0, None, 0, 0)

  datatype System = System(queue: Queue, clock: nat, flights: map<Id, Flight>, tallies: map<Id, Tally>)

  /** The configuration shared by the processors. */
  datatype Policy = Policy(lease: nat, maximumAttempts: nat)

  datatype Op =
    | EnsureRunning(workspace: Id, jobId: Id)
    | EnqueueLate(workspace: Id, jobId: Id)
    | ClaimNext(processor: Id, job: Id)
    | WorkerReplied(processor: Id, workerId: Option<Id>)
    | WorkerRefused(processor: Id, retryable: bool)
    | GiveUp(processor: Id)
    | Crash(processor: Id)
    | Delete(workspace: Id)

  datatype Timed = Timed(op: Op, elapsed: nat)

  function TallyOf(s: System, j: Id): Tally {
    if j in s.tallies then s.tallies[j] else UNTOUCHED
  }

  /** A processor claims only when it holds no job. */
  function ClaimStep(policy: Policy, s: System, p: Id, j: Id, now: nat): System {
    if p in s.flights || !NextJob(s.queue, j, now) then s
    else
      var t := TallyOf(s, j);
      System(
        Claim(s.queue, j, p, policy.lease, now), now,
        s.flights[p := Flight(j, s.queue.jobs[j].attempt + 1, Working)],
        s.tallies[j := t.(
          claims := t.claims + 1, lastClaimer := Some(p), claimedAt := now,
          reclaims := t.reclaims + if s.queue.jobs[j].status == Running then 1 else 0)])
  }

  /** The worker answered: record the success, or fall through to the error handler
      when recording it throws. */
  function ReplyStep(s: System, p: Id, workerId: Option<Id>, now: nat): System {
    if p !in s.flights || s.flights[p].stage != Working then s
    else
      var f := s.flights[p];
      match Finish(s.queue, f.job, p, Success(workerId), now)
      case Err(_) => s.(flights := s.flights[p := f.(stage := GivingUp(true))])
      case Ok(q) =>
        var t := TallyOf(s, f.job);
        System(q, now, s.flights - {p}, s.tallies[f.job := t.(finishes := t.finishes + 1, finishedAt := now)])
  }

  /** The outcome a failed attempt is finished with. */
  function FailureOf(policy: Policy, f: Flight): Outcome {
    Failure(f.stage.GivingUp? && f.stage.retryable && f.attempt < policy.maximumAttempts, RetryDelay(f.attempt))
  }

  /** The error handler: record the failure; a lost lease is swallowed. */
  function GiveUpStep(policy: Policy, s: System, p: Id, now: nat): System {
    if p !in s.flights || s.flights[p].stage == Working then s
    else
      var f := s.flights[p];
      var outcome := FailureOf(policy, f);
      match Finish(s.queue, f.job, p, outcome, now)
      case Err(_) => s.(flights := s.flights - {p})
      case Ok(q) =>
        var t := TallyOf(s, f.job);
        var again := if outcome.retryable then 1 else 0;
        System(q, now, s.flights - {p}, s.tallies[f.job := t.(
                 finishes := t.finishes + 1, finishedAt := now, requeues := t.requeues + again,
                 backoff := t.backoff + again * outcome.delay)])
  }

  function Act(policy: Policy, s: System, op: Op, now: nat): System {
    match op
    case EnsureRunning(w, j) => s.(queue := Ensure(s.queue, w, j, now))
    case EnqueueLate(w, j) => s.(queue := QueueOr(s.queue, Enqueue(s.queue, w, j, now)))
    case ClaimNext(p, j) => ClaimStep(policy, s, p, j, now)
    case WorkerReplied(p, workerId) => ReplyStep(s, p, workerId, now)
    case WorkerRefused(p, retryable) =>
      if p in s.flights && s.flights[p].stage == Working
      then s.(flights := s.flights[p := s.flights[p].(stage := GivingUp(retryable))])
      else s
    case GiveUp(p) => GiveUpStep(policy, s, p, now)
    case Crash(p) => s.(flights := s.flights - {p})
    case Delete(w) =>
      var q := DeleteWorkspace(s.queue, w);
      s.(queue := q, tallies := map j | j in s.tallies && j in q.jobs :: s.tallies[j])
  }

  function Step(policy: Policy, s: System, timed: Timed): System {
    Act(policy, s, timed.op, s.clock + timed.elapsed).(clock := s.clock + timed.elapsed)
  }

  function Run(policy: Policy, s: System, ops: seq<Timed>): System
    decreases |ops|
  {
    if ops == [] then s else Run(policy, Step(policy, s, ops[0]), ops[1..])
  }

  const START: System := System(Queue(map[], map[]), 0, map[], map[])

  // -------------------------------------------------------------- invariants

  function One(b: bool): nat {
    if b then 1 else 0
  }

  /** A job row agrees with its tally: attempts are claims, every claim ended in at most
      one finish, requeues and backoff stay within the retry policy, a lease lasts as long as
      the policy says from the last claim on, and a requeued job waits out its delay. */
  predicate JobAgrees(policy: Policy, job: Job, t: Tally) {
    var running := One(job.status == Running);
    && job.attempt == t.claims
    && t.claims == t.finishes + t.reclaims + running
    && t.finishes == t.requeues + One(Finished(job))
    && t.requeues <= Max(0, policy.maximumAttempts - 1)
    && t.backoff <= TotalDelay(Min(job.attempt - running, Max(0, policy.maximumAttempts - 1)))
    && (if job.status == Running then
          && job.leaseOwner.Some? && job.leaseOwner == t.lastClaimer
          && job.leaseExpiresAt == Some(t.claimedAt + policy.lease)
        else job.leaseOwner.None? && job.leaseExpiresAt.None?)
    && (job.completedAt.Some? <==> Finished(job))
    && (job.status == Queued ==>
          job.availableAt == if job.attempt == 0 then job.createdAt else t.finishedAt + RetryDelay(job.attempt))
  }

  ghost predicate JobsAgree(policy: Policy, s: System) {
    && s.tallies.Keys <= s.queue.jobs.Keys
    && forall j :: j in s.queue.jobs ==> JobAgrees(policy, s.queue.jobs[j], TallyOf(s, j))
  }

  /** A processor that still owns the lease owns it for the attempt it is working on. */
  predicate FlightsAgree(s: System) {
    forall p :: p in s.flights && HoldsLease(s.queue, s.flights[p].job, p) ==>
      s.queue.jobs[s.flights[p].job].attempt == s.flights[p].attempt
  }

  /** Rows refer to existing workspaces, and a workspace has at most one active job. */
  predicate OneActiveJob(q: Queue) {
    && (forall j :: j in q.jobs ==> q.jobs[j].workspace in q.workspaces)
    && (forall i, j | i in q.jobs && j in q.jobs ::
          q.jobs[i].workspace == q.jobs[j].workspace && ActiveJob(q.jobs[i]) && ActiveJob(q.jobs[j]) ==> i == j)
  }

  predicate WorkerIdsUnique(q: Queue) {
    && (forall w :: w in q.workspaces && q.workspaces[w].state == WorkspaceReady ==>
          q.workspaces[w].workerId.Some?)
    && (forall v, w | v in q.workspaces && w in q.workspaces ::
          q.workspaces[v].workerId.Some? && q.workspaces[v].workerId == q.workspaces[w].workerId ==> v == w)
  }

  /** A provisioning workspace has an active job; an active job's workspace is
      provisioning or ready. */
  predicate WorkspacesAgree(q: Queue) {
    forall w :: w in q.workspaces ==>
      && (q.workspaces[w].state == WorkspaceProvisioning ==> HasActiveJob(q, w))
      && (HasActiveJob(q, w) ==> q.workspaces[w].state in {WorkspaceProvisioning, WorkspaceReady})
  }

  /** Exactly the provisioning workspaces have an active job. */
  predicate WorkspacesAgreeExactly(q: Queue) {
    forall w :: w in q.workspaces ==>
      (q.workspaces[w].state == WorkspaceProvisioning <==> HasActiveJob(q, w))
  }

  ghost predicate Coherent(policy: Policy, s: System) {
    && JobsAgree(policy, s)
    && FlightsAgree(s)
    && OneActiveJob(s.queue)
    && WorkerIdsUnique(s.queue)
    && WorkspacesAgree(s.queue)
  }
}
