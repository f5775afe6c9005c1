/** What every run of the provisioning protocol keeps: leases are safe under crashes and
    expiry, retries and backoff are bounded, workspaces and jobs agree. */
module ProvisioningInvariants {
  import opened Prelude
  import opened Provisioning
  import opened ProvisioningProtocol

  // ------------------------------------------------------- rows of the queue

  /** Replacing one job by another of the same workspace: activity elsewhere stays. */
  lemma ReplacingJob(q: Queue, jobs: map<Id, Job>, j: Id, job: Job)
    requires OneActiveJob(q) && j in q.jobs && job.workspace == q.jobs[j].workspace
    requires ActiveJob(job) ==> ActiveJob(q.jobs[j])
    requires jobs == q.jobs[j := job]
    ensures OneActiveJob(q.(jobs := jobs))
    ensures forall w :: w != job.workspace ==>
              (HasActiveJob(q.(jobs := jobs), w) <==> HasActiveJob(q, w))
    ensures ActiveJob(q.jobs[j]) ==> (HasActiveJob(q.(jobs := jobs), job.workspace) <==> ActiveJob(job))
  {
    var q' := q.(jobs := jobs);
    forall w | w != job.workspace
      ensures HasActiveJob(q', w) <==> HasActiveJob(q, w)
    {
      if HasActiveJob(q, w) {
        var k :| k in q.jobs && q.jobs[k].workspace == w && ActiveJob(q.jobs[k]);
        assert k in q'.jobs && q'.jobs[k] == q.jobs[k];
      }
      if HasActiveJob(q', w) {
        var k :| k in q'.jobs && q'.jobs[k].workspace == w && ActiveJob(q'.jobs[k]);
        assert k in q.jobs && q'.jobs[k] == q.jobs[k];
      }
    }
    if ActiveJob(job) {
      assert j in q'.jobs && q'.jobs[j] == job;
    }
  }

  lemma ResolvingKeepsRows(q: Queue, workspace: Id)
    requires OneActiveJob(q) && WorkerIdsUnique(q) && WorkspacesAgree(q)
    ensures var q' := Resolve(q, workspace);
            && OneActiveJob(q') && WorkerIdsUnique(q') && WorkspacesAgree(q')
            && (forall w :: HasActiveJob(q', w) <==> HasActiveJob(q, w))
  {
  }

  /** The agreement at one workspace. */
  predicate AgreesAt(q: Queue, w: Id) {
    && w in q.workspaces
    && (q.workspaces[w].state == WorkspaceProvisioning ==> HasActiveJob(q, w))
    && (HasActiveJob(q, w) ==> q.workspaces[w].state in {WorkspaceProvisioning, WorkspaceReady})
  }

  /** Writing one workspace row that fits the jobs keeps every row fitting. */
  lemma WritingWorkspace(q: Queue, id: Id, w: Workspace)
    requires OneActiveJob(q) && WorkerIdsUnique(q) && id in q.workspaces
    requires forall v :: v in q.workspaces && v != id ==> AgreesAt(q, v)
    requires w.state == WorkspaceProvisioning ==> HasActiveJob(q, id)
    requires HasActiveJob(q, id) ==> w.state in {WorkspaceProvisioning, WorkspaceReady}
    requires w.state == WorkspaceReady ==> w.workerId.Some?
    requires w.workerId == q.workspaces[id].workerId || WorkerIdFree(q, id, w.workerId)
    ensures var q' := q.(workspaces := q.workspaces[id := w]);
            && OneActiveJob(q') && WorkerIdsUnique(q') && WorkspacesAgree(q')
            && (forall v :: HasActiveJob(q', v) <==> HasActiveJob(q, v))
  {
  }

  /** Inserting a job for a workspace without one makes that workspace active, and no other. */
  lemma InsertingJob(q: Queue, j: Id, job: Job)
    requires OneActiveJob(q) && j !in q.jobs && ActiveJob(job)
    requires job.workspace in q.workspaces && !HasActiveJob(q, job.workspace)
    ensures var q' := q.(jobs := q.jobs[j := job]);
            && OneActiveJob(q')
            && HasActiveJob(q', job.workspace)
            && (forall w :: w != job.workspace ==> (HasActiveJob(q', w) <==> HasActiveJob(q, w)))
  {
    var q' := q.(jobs := q.jobs[j := job]);
    assert q'.jobs[j] == job;
    forall w | w != job.workspace ensures HasActiveJob(q', w) <==> HasActiveJob(q, w) {
      if HasActiveJob(q, w) {
        var k :| k in q.jobs && q.jobs[k].workspace == w && ActiveJob(q.jobs[k]);
        assert k in q'.jobs && q'.jobs[k] == q.jobs[k];
      }
    }
  }

  lemma EnqueuingKeepsRows(q: Queue, workspace: Id, jobId: Id, now: nat)
    requires OneActiveJob(q) && WorkerIdsUnique(q) && WorkspacesAgree(q)
    requires Enqueue(q, workspace, jobId, now).Ok?
    ensures var q' := Enqueue(q, workspace, jobId, now).value;
            && OneActiveJob(q') && WorkerIdsUnique(q') && WorkspacesAgree(q')
            && HasActiveJob(q', workspace)
            && (forall w :: w != workspace ==> (HasActiveJob(q', w) <==> HasActiveJob(q, w)))
  {
    hide OneActiveJob, HasActiveJob;
    var q' := Enqueue(q, workspace, jobId, now).value;
    var middle := q.(jobs := q'.jobs);
    if !HasActiveJob(q, workspace) {
      InsertingJob(q, jobId, q'.jobs[jobId]);
    } else {
      assert middle == q;
    }
    forall v | v in middle.workspaces && v != workspace ensures AgreesAt(middle, v) {
      assert AgreesAt(q, v);
    }
    WritingWorkspace(middle, workspace, q'.workspaces[workspace]);
  }

  lemma ClaimingKeepsRows(q: Queue, j: Id, owner: Id, lease: nat, now: nat)
    requires OneActiveJob(q) && WorkerIdsUnique(q) && WorkspacesAgree(q)
    requires j in q.jobs && Claimable(q.jobs[j], now)
    ensures var q' := Claim(q, j, owner, lease, now);
            && OneActiveJob(q') && WorkerIdsUnique(q') && WorkspacesAgree(q')
            && (forall w :: HasActiveJob(q', w) <==> HasActiveJob(q, w))
  {
    var q' := Claim(q, j, owner, lease, now);
    ReplacingJob(q, q'.jobs, j, q'.jobs[j]);
    assert HasActiveJob(q, q.jobs[j].workspace);
  }

  lemma FinishingKeepsRows(q: Queue, j: Id, owner: Id, outcome: Outcome, now: nat)
    requires OneActiveJob(q) && WorkerIdsUnique(q) && WorkspacesAgree(q)
    requires Finish(q, j, owner, outcome, now).Ok?
    ensures var q' := Finish(q, j, owner, outcome, now).value;
            && OneActiveJob(q') && WorkerIdsUnique(q') && WorkspacesAgree(q')
            && (forall w :: w != q.jobs[j].workspace ==> (HasActiveJob(q', w) <==> HasActiveJob(q, w)))
            && (HasActiveJob(q', q.jobs[j].workspace) <==> outcome.Failure? && outcome.retryable)
  {
    var q' := Finish(q, j, owner, outcome, now).value;
    var id := q.jobs[j].workspace;
    assert HasActiveJob(q, id) && AgreesAt(q, id);
    ReplacingJob(q, q'.jobs, j, q'.jobs[j]);
    FinishedWorkspaceFits(q, q', j, id, outcome);
  }

  lemma FinishedWorkspaceFits(q: Queue, q': Queue, j: Id, id: Id, outcome: Outcome)
    requires WorkerIdsUnique(q) && WorkspacesAgree(q) && AgreesAt(q, id) && HasActiveJob(q, id)
    requires q'.workspaces == q.workspaces[id := FinishedWorkspace(q.workspaces[id], id, outcome)]
    requires outcome.Success? ==> WorkerIdFree(q, id, q'.workspaces[id].workerId)
    requires OneActiveJob(q.(jobs := q'.jobs))
    requires forall w :: w != id ==> (HasActiveJob(q.(jobs := q'.jobs), w) <==> HasActiveJob(q, w))
    requires HasActiveJob(q.(jobs := q'.jobs), id) <==> outcome.Failure? && outcome.retryable
    ensures OneActiveJob(q') && WorkerIdsUnique(q') && WorkspacesAgree(q')
    ensures forall w :: HasActiveJob(q', w) <==> HasActiveJob(q.(jobs := q'.jobs), w)
  {
    hide OneActiveJob, HasActiveJob;
    var middle := q.(jobs := q'.jobs);
    forall v | v in middle.workspaces && v != id ensures AgreesAt(middle, v) {
      assert AgreesAt(q, v);
    }
    WritingWorkspace(middle, id, q'.workspaces[id]);
  }

  lemma DeletingKeepsRows(q: Queue, workspace: Id)
    requires OneActiveJob(q) && WorkerIdsUnique(q) && WorkspacesAgree(q)
    ensures var q' := DeleteWorkspace(q, workspace);
            && OneActiveJob(q') && WorkerIdsUnique(q') && WorkspacesAgree(q')
            && (forall w :: w != workspace ==> (HasActiveJob(q', w) <==> HasActiveJob(q, w)))
  {
    var q' := DeleteWorkspace(q, workspace);
    forall w | w != workspace ensures HasActiveJob(q', w) <==> HasActiveJob(q, w) {
      if HasActiveJob(q, w) {
        var k :| k in q.jobs && q.jobs[k].workspace == w && ActiveJob(q.jobs[k]);
        assert k in q'.jobs && q'.jobs[k] == q.jobs[k];
      }
    }
  }

  // ------------------------------------------------------ jobs and flights

  lemma EnqueuingAgrees(policy: Policy, s: System, q: Queue, workspace: Id, jobId: Id, now: nat)
    requires JobsAgree(policy, s) && FlightsAgree(s)
    requires q.jobs == s.queue.jobs && Enqueue(q, workspace, jobId, now).Ok?
    ensures var q' := Enqueue(q, workspace, jobId, now).value;
            JobsAgree(policy, s.(queue := q')) && FlightsAgree(s.(queue := q'))
  {
  }

  lemma ClaimedJobAgrees(policy: Policy, job: Job, t: Tally, owner: Id, now: nat)
    requires JobAgrees(policy, job, t) && ActiveJob(job)
    ensures JobAgrees(
        policy,
        job.(status := Running, attempt := job.attempt + 1, leaseOwner := Some(owner),
             leaseExpiresAt := Some(now + policy.lease), completedAt := None),
        t.(claims := t.claims + 1, lastClaimer := Some(owner), claimedAt := now,
           reclaims := t.reclaims + if job.status == Running then 1 else 0))
  {
  }

  lemma ClaimingAgrees(policy: Policy, s: System, p: Id, j: Id, now: nat)
    requires JobsAgree(policy, s) && FlightsAgree(s)
    requires p !in s.flights && NextJob(s.queue, j, now)
    ensures var s' := ClaimStep(policy, s, p, j, now);
            JobsAgree(policy, s') && FlightsAgree(s')
  {
    hide JobAgrees;
    var s' := ClaimStep(policy, s, p, j, now);
    ClaimedJobAgrees(policy, s.queue.jobs[j], TallyOf(s, j), p, now);
    forall k | k in s'.queue.jobs ensures JobAgrees(policy, s'.queue.jobs[k], TallyOf(s', k)) {
      assert k in s.queue.jobs && (k != j ==> TallyOf(s', k) == TallyOf(s, k));
    }
  }

  /** The tally after a finish with this outcome. */
  function TallyAfter(t: Tally, outcome: Outcome, now: nat): Tally {
    var again := if outcome.Failure? && outcome.retryable then 1 else 0;
    t.(finishes := t.finishes + 1, finishedAt := now, requeues := t.requeues + again,
       backoff := t.backoff + if again == 1 then outcome.delay else 0)
  }

  lemma FinishedJobAgrees(policy: Policy, job: Job, t: Tally, outcome: Outcome, now: nat)
    requires JobAgrees(policy, job, t) && job.status == Running
    requires outcome.Failure? && outcome.retryable ==>
               job.attempt < policy.maximumAttempts && outcome.delay == RetryDelay(job.attempt)
    ensures JobAgrees(policy, FinishedJob(job, outcome, now), TallyAfter(t, outcome, now))
  {
  }

  lemma FinishingAgrees(policy: Policy, s: System, p: Id, outcome: Outcome, now: nat)
    requires JobsAgree(policy, s) && FlightsAgree(s)
    requires p in s.flights && Finish(s.queue, s.flights[p].job, p, outcome, now).Ok?
    requires outcome.Failure? && outcome.retryable ==>
               s.flights[p].attempt < policy.maximumAttempts
               && outcome.delay == RetryDelay(s.flights[p].attempt)
    ensures var j := s.flights[p].job;
            var s' := System(Finish(s.queue, j, p, outcome, now).value, now, s.flights - {p},
                             s.tallies[j := TallyAfter(TallyOf(s, j), outcome, now)]);
            JobsAgree(policy, s') && FlightsAgree(s')
  {
    hide JobAgrees;
    var j := s.flights[p].job;
    var q := Finish(s.queue, j, p, outcome, now).value;
    var s' := System(q, now, s.flights - {p}, s.tallies[j := TallyAfter(TallyOf(s, j), outcome, now)]);
    assert HoldsLease(s.queue, j, p);
    FinishedJobAgrees(policy, s.queue.jobs[j], TallyOf(s, j), outcome, now);
    assert q.jobs == s.queue.jobs[j := FinishedJob(s.queue.jobs[j], outcome, now)];
    forall k | k in q.jobs ensures JobAgrees(policy, q.jobs[k], TallyOf(s', k)) {
      assert k in s.queue.jobs && (k != j ==> TallyOf(s', k) == TallyOf(s, k));
    }
  }

  // ---------------------------------------------------------------- one step

  lemma ResolvedJobsAgree(policy: Policy, s: System, q: Queue)
    requires JobsAgree(policy, s) && FlightsAgree(s) && q.jobs == s.queue.jobs
    ensures JobsAgree(policy, s.(queue := q)) && FlightsAgree(s.(queue := q))
  {
  }

  lemma EnsureIsCoherent(policy: Policy, s: System, op: Op, now: nat)
    requires Coherent(policy, s) && (op.EnsureRunning? || op.EnqueueLate?)
    ensures Coherent(policy, Act(policy, s, op, now))
  {
    hide OneActiveJob, WorkerIdsUnique, WorkspacesAgree, JobsAgree, FlightsAgree, HasActiveJob, Enqueue;
    var resolved := if op.EnsureRunning? then Resolve(s.queue, op.workspace) else s.queue;
    if op.EnsureRunning? {
      ResolvingKeepsRows(s.queue, op.workspace);
    }
    ResolvedJobsAgree(policy, s, resolved);
    if Enqueue(resolved, op.workspace, op.jobId, now).Ok? {
      EnqueuingKeepsRows(resolved, op.workspace, op.jobId, now);
      EnqueuingAgrees(policy, s, resolved, op.workspace, op.jobId, now);
    }
  }

  lemma ClaimIsCoherent(policy: Policy, s: System, op: Op, now: nat)
    requires Coherent(policy, s) && op.ClaimNext?
    ensures Coherent(policy, Act(policy, s, op, now))
  {
    if op.processor !in s.flights && NextJob(s.queue, op.job, now) {
      ClaimingKeepsRows(s.queue, op.job, op.processor, policy.lease, now);
      ClaimingAgrees(policy, s, op.processor, op.job, now);
    }
  }

  lemma FinishIsCoherent(policy: Policy, s: System, p: Id, outcome: Outcome, now: nat)
    requires Coherent(policy, s)
    requires p in s.flights && Finish(s.queue, s.flights[p].job, p, outcome, now).Ok?
    requires outcome.Failure? && outcome.retryable ==>
               s.flights[p].attempt < policy.maximumAttempts
               && outcome.delay == RetryDelay(s.flights[p].attempt)
    ensures var j := s.flights[p].job;
            Coherent(policy, System(Finish(s.queue, j, p, outcome, now).value, now, s.flights - {p},
                                    s.tallies[j := TallyAfter(TallyOf(s, j), outcome, now)]))
  {
    hide JobsAgree, FlightsAgree, OneActiveJob, WorkerIdsUnique, WorkspacesAgree, Finish;
    FinishingKeepsRows(s.queue, s.flights[p].job, p, outcome, now);
    FinishingAgrees(policy, s, p, outcome, now);
  }

  lemma ReplyIsCoherent(policy: Policy, s: System, op: Op, now: nat)
    requires Coherent(policy, s) && op.WorkerReplied?
    ensures Coherent(policy, Act(policy, s, op, now))
  {
    hide JobsAgree, OneActiveJob, WorkerIdsUnique, WorkspacesAgree, Finish;
    var p := op.processor;
    if p in s.flights && s.flights[p].stage == Working {
      if Finish(s.queue, s.flights[p].job, p, Success(op.workerId), now).Ok? {
        FinishIsCoherent(policy, s, p, Success(op.workerId), now);
      } else {
        FlightsOnlyAgrees(policy, s, Act(policy, s, op, now));
      }
    }
  }

  lemma GiveUpIsCoherent(policy: Policy, s: System, op: Op, now: nat)
    requires Coherent(policy, s) && op.GiveUp?
    ensures Coherent(policy, Act(policy, s, op, now))
  {
    hide JobsAgree, OneActiveJob, WorkerIdsUnique, WorkspacesAgree, Finish;
    var p := op.processor;
    if p in s.flights && s.flights[p].stage != Working {
      var outcome := FailureOf(policy, s.flights[p]);
      if Finish(s.queue, s.flights[p].job, p, outcome, now).Ok? {
        FinishIsCoherent(policy, s, p, outcome, now);
      } else {
        FlightsOnlyAgrees(policy, s, Act(policy, s, op, now));
      }
    }
  }

  /** Replacing the stage of a flight, or dropping flights, keeps coherence. */
  lemma FlightsOnlyAgrees(policy: Policy, s: System, s': System)
    requires Coherent(policy, s)
    requires s'.queue == s.queue && s'.tallies == s.tallies
    requires forall p :: p in s'.flights ==>
               p in s.flights && s'.flights[p].job == s.flights[p].job
               && s'.flights[p].attempt == s.flights[p].attempt
    ensures Coherent(policy, s')
  {
  }

  lemma DeleteIsCoherent(policy: Policy, s: System, op: Op, now: nat)
    requires Coherent(policy, s) && op.Delete?
    ensures Coherent(policy, Act(policy, s, op, now))
  {
    DeletingKeepsRows(s.queue, op.workspace);
  }

  lemma ActIsCoherent(policy: Policy, s: System, op: Op, now: nat)
    requires Coherent(policy, s)
    ensures Coherent(policy, Act(policy, s, op, now))
  {
    hide Coherent;
    match op {
      case EnsureRunning(_, _) => EnsureIsCoherent(policy, s, op, now);
      case EnqueueLate(_, _) => EnsureIsCoherent(policy, s, op, now);
      case ClaimNext(_, _) => ClaimIsCoherent(policy, s, op, now);
      case WorkerReplied(_, _) => ReplyIsCoherent(policy, s, op, now);
      case WorkerRefused(_, _) => FlightsOnlyAgrees(policy, s, Act(policy, s, op, now));
      case GiveUp(_) => GiveUpIsCoherent(policy, s, op, now);
      case Crash(_) => FlightsOnlyAgrees(policy, s, Act(policy, s, op, now));
      case Delete(_) => DeleteIsCoherent(policy, s, op, now);
    }
  }

  lemma StepIsCoherent(policy: Policy, s: System, timed: Timed)
    requires Coherent(policy, s)
    ensures Coherent(policy, Step(policy, s, timed))
  {
    hide Coherent, Act;
    var now := s.clock + timed.elapsed;
    ActIsCoherent(policy, s, timed.op, now);
    FlightsOnlyAgrees(policy, Act(policy, s, timed.op, now), Step(policy, s, timed));
  }

  lemma {:induction false} RunIsCoherent(policy: Policy, s: System, ops: seq<Timed>)
    requires Coherent(policy, s)
    ensures Coherent(policy, Run(policy, s, ops))
    decreases |ops|
  {
    if ops != [] {
      StepIsCoherent(policy, s, ops[0]);
      RunIsCoherent(policy, Step(policy, s, ops[0]), ops[1..]);
    }
  }

  lemma EveryRunIsCoherent(policy: Policy, ops: seq<Timed>)
    ensures Coherent(policy, Run(policy, START, ops))
  {
    RunIsCoherent(policy, START, ops);
  }

  // ---------------------------------------------------------- lease safety

  /** In every reachable state a finish is refused for want of the lease unless it comes
      from the owner of the job's latest claim and that claim is not finished yet. */
  lemma OnlyTheLatestClaimFinishes(policy: Policy, ops: seq<Timed>, j: Id, owner: Id, outcome: Outcome, now: nat)
    ensures var s := Run(policy, START, ops);
            Finish(s.queue, j, owner, outcome, now) != Err(LeaseLost)
            <==>
            && j in s.queue.jobs
            && TallyOf(s, j).lastClaimer == Some(owner)
            && TallyOf(s, j).claims == TallyOf(s, j).finishes + TallyOf(s, j).reclaims + 1
  {
    EveryRunIsCoherent(policy, ops);
    var s := Run(policy, START, ops);
    if j in s.queue.jobs {
      assert JobAgrees(policy, s.queue.jobs[j], TallyOf(s, j));
    }
  }

  /** A processor's finish is accepted only for the very attempt it claimed, whatever
      other processors did in between. */
  lemma FinishIsForOwnAttempt(policy: Policy, ops: seq<Timed>, p: Id, outcome: Outcome, now: nat)
    requires var s := Run(policy, START, ops);
             p in s.flights && Finish(s.queue, s.flights[p].job, p, outcome, now) != Err(LeaseLost)
    ensures var s := Run(policy, START, ops);
            var f := s.flights[p];
            f.job in s.queue.jobs && s.queue.jobs[f.job].attempt == f.attempt == TallyOf(s, f.job).claims
  {
    EveryRunIsCoherent(policy, ops);
    var s := Run(policy, START, ops);
    assert JobAgrees(policy, s.queue.jobs[s.flights[p].job], TallyOf(s, s.flights[p].job));
  }

  /** Attempts count claims, and no claim is finished twice. */
  lemma AttemptsCountClaims(policy: Policy, ops: seq<Timed>, j: Id)
    requires j in Run(policy, START, ops).queue.jobs
    ensures var s := Run(policy, START, ops);
            var t := TallyOf(s, j);
            && s.queue.jobs[j].attempt == t.claims
            && t.finishes + t.reclaims <= t.claims <= t.finishes + t.reclaims + 1
  {
    EveryRunIsCoherent(policy, ops);
    var s := Run(policy, START, ops);
    assert JobAgrees(policy, s.queue.jobs[j], TallyOf(s, j));
  }

  /** What one step can do to a job that is there before and after. */
  datatype JobMove = Kept | Claimed | Released

  function MoveOf(job: Job, job': Job): JobMove {
    if job' == job then Kept
    else if job'.attempt == job.attempt then Released
    else JobMove.Claimed
  }

  /** A job changes only by being claimed while active or released while running. */
  lemma StepMovesJobs(policy: Policy, s: System, timed: Timed, j: Id)
    requires j in s.queue.jobs && timed.op != Delete(s.queue.jobs[j].workspace)
    ensures var s' := Step(policy, s, timed);
            && j in s'.queue.jobs
            && s'.queue.jobs[j].workspace == s.queue.jobs[j].workspace
            && (match MoveOf(s.queue.jobs[j], s'.queue.jobs[j])
                case Kept => true
                case Claimed =>
                  && ActiveJob(s.queue.jobs[j])
                  && s'.queue.jobs[j].status == Running
                  && s'.queue.jobs[j].attempt == s.queue.jobs[j].attempt + 1
                case Released =>
                  s.queue.jobs[j].status == Running && s'.queue.jobs[j].status != Running)
            && (TallyOf(s', j) != TallyOf(s, j) ==> ActiveJob(s.queue.jobs[j]))
  {
  }

  lemma StepKeepsFinished(policy: Policy, s: System, timed: Timed, j: Id)
    requires j in s.queue.jobs && Finished(s.queue.jobs[j])
    requires timed.op != Delete(s.queue.jobs[j].workspace)
    ensures var s' := Step(policy, s, timed);
            j in s'.queue.jobs && s'.queue.jobs[j] == s.queue.jobs[j] && TallyOf(s', j) == TallyOf(s, j)
  {
    hide Step;
    StepMovesJobs(policy, s, timed, j);
  }

  /** A succeeded or failed job never changes again, through every run that does not delete
      its workspace. */
  lemma {:induction false} FinishedJobsNeverChange(policy: Policy, s: System, ops: seq<Timed>, j: Id)
    requires j in s.queue.jobs && Finished(s.queue.jobs[j])
    requires forall timed | timed in ops :: timed.op != Delete(s.queue.jobs[j].workspace)
    ensures var s' := Run(policy, s, ops);
            j in s'.queue.jobs && s'.queue.jobs[j] == s.queue.jobs[j] && TallyOf(s', j) == TallyOf(s, j)
    decreases |ops|
  {
    hide Step;
    if ops != [] {
      assert ops[0] in ops;
      StepKeepsFinished(policy, s, ops[0], j);
      FinishedJobsNeverChange(policy, Step(policy, s, ops[0]), ops[1..], j);
    }
  }

  // --------------------------------------------------------- bounded retry

  lemma RowRetriesAreBounded(policy: Policy, job: Job, t: Tally)
    requires policy.maximumAttempts >= 1 && JobAgrees(policy, job, t)
    ensures t.requeues <= policy.maximumAttempts - 1
    ensures t.claims <= policy.maximumAttempts + t.reclaims
    ensures t.backoff <= TotalDelay(policy.maximumAttempts - 1) <= MAXIMUM_DELAY_MS * (policy.maximumAttempts - 1)
  {
    TotalDelayGrows(Min(job.attempt - One(job.status == Running), policy.maximumAttempts - 1),
                    policy.maximumAttempts - 1);
    TotalDelayGrows(0, policy.maximumAttempts - 1);
  }

  /** In every reachable state a job has been requeued fewer times than the attempt
      limit, its backoff is within the total of the schedule, and its claims exceed the
      limit by no more than the leases lost on it. */
  lemma RetriesAreBounded(policy: Policy, ops: seq<Timed>, j: Id)
    requires policy.maximumAttempts >= 1
    requires j in Run(policy, START, ops).queue.jobs
    ensures var t := TallyOf(Run(policy, START, ops), j);
            && t.requeues <= policy.maximumAttempts - 1
            && t.claims <= policy.maximumAttempts + t.reclaims
            && t.backoff <= TotalDelay(policy.maximumAttempts - 1) <= MAXIMUM_DELAY_MS * (policy.maximumAttempts - 1)
  {
    EveryRunIsCoherent(policy, ops);
    var s := Run(policy, START, ops);
    RowRetriesAreBounded(policy, s.queue.jobs[j], TallyOf(s, j));
  }

  const DEFAULT_ATTEMPTS: nat := 8

  /** With the default of eight attempts no job of any run is ever kept waiting for more than
      123 seconds in all between its attempts. */
  lemma DefaultBackoff(policy: Policy, ops: seq<Timed>, j: Id)
    requires policy.maximumAttempts == DEFAULT_ATTEMPTS
    requires j in Run(policy, START, ops).queue.jobs
    ensures TallyOf(Run(policy, START, ops), j).backoff <= 123000
  {
    hide Run;
    RetriesAreBounded(policy, ops, j);
    assert TotalDelay(7) == 123000;
  }

  /** How many more changes a job can go through while no lease on it is lost. */
  function Rank(policy: Policy, job: Job): int {
    match job.status
    case Queued => 2 * (policy.maximumAttempts - job.attempt)
    case Running => 2 * (policy.maximumAttempts - job.attempt) + 1
    case _ => 0
  }

  lemma RankOfAgreeingRow(policy: Policy, job: Job, t: Tally)
    requires policy.maximumAttempts >= 1 && JobAgrees(policy, job, t) && t.reclaims == 0
    ensures Rank(policy, job) >= 0
    ensures Rank(policy, job) == 0 <==> Finished(job)
    ensures ActiveJob(job) ==> job.attempt <= policy.maximumAttempts - One(job.status == Queued)
  {
  }

  /** While no lease on a job was lost, every change to it lowers its rank, which is
      zero exactly when the job has ended. */
  lemma EveryChangeLowersTheRank(policy: Policy, s: System, timed: Timed, j: Id)
    requires Coherent(policy, s) && policy.maximumAttempts >= 1
    requires j in s.queue.jobs && timed.op != Delete(s.queue.jobs[j].workspace)
    requires TallyOf(s, j).reclaims == 0 && TallyOf(Step(policy, s, timed), j).reclaims == 0
    ensures var s' := Step(policy, s, timed);
            && j in s'.queue.jobs
            && 0 <= Rank(policy, s'.queue.jobs[j]) <= Rank(policy, s.queue.jobs[j])
            && (s'.queue.jobs[j] != s.queue.jobs[j] ==>
                  Rank(policy, s'.queue.jobs[j]) < Rank(policy, s.queue.jobs[j]))
            && (Rank(policy, s'.queue.jobs[j]) == 0 <==> Finished(s'.queue.jobs[j]))
  {
    hide Step, FlightsAgree, OneActiveJob, WorkerIdsUnique, WorkspacesAgree;
    StepMovesJobs(policy, s, timed, j);
    StepIsCoherent(policy, s, timed);
    var s' := Step(policy, s, timed);
    var job, job' := s.queue.jobs[j], s'.queue.jobs[j];
    assert JobAgrees(policy, job, TallyOf(s, j)) && JobAgrees(policy, job', TallyOf(s', j));
    RankOfAgreeingRow(policy, job, TallyOf(s, j));
    RankOfAgreeingRow(policy, job', TallyOf(s', j));
  }

  /** The job is there throughout a run and no lease on it is lost. */
  predicate NeverLost(policy: Policy, s: System, ops: seq<Timed>, j: Id)
    decreases |ops|
  {
    && j in s.queue.jobs && TallyOf(s, j).reclaims == 0
    && (ops != [] ==>
          && ops[0].op != Delete(s.queue.jobs[j].workspace)
          && NeverLost(policy, Step(policy, s, ops[0]), ops[1..], j))
  }

  /** How many steps of a run change a job. */
  function Changes(policy: Policy, s: System, ops: seq<Timed>, j: Id): nat
    requires NeverLost(policy, s, ops, j)
    decreases |ops|
  {
    if ops == [] then 0
    else
      var next := Step(policy, s, ops[0]);
      (if next.queue.jobs[j] == s.queue.jobs[j] then 0 else 1) + Changes(policy, next, ops[1..], j)
  }

  /** Without lease loss a job changes at most twice for every attempt it has left: however
      long the run, and whatever else happens in it, the job ends or stops being worked on. */
  lemma {:induction false} ChangesAreBounded(policy: Policy, s: System, ops: seq<Timed>, j: Id)
    requires Coherent(policy, s) && policy.maximumAttempts >= 1 && NeverLost(policy, s, ops, j)
    ensures j in Run(policy, s, ops).queue.jobs
    ensures var left := Rank(policy, Run(policy, s, ops).queue.jobs[j]);
            && Changes(policy, s, ops, j) + left <= Rank(policy, s.queue.jobs[j]) <= 2 * policy.maximumAttempts
            && left >= 0
            && (left == 0 <==> Finished(Run(policy, s, ops).queue.jobs[j]))
    decreases |ops|
  {
    hide Step, JobsAgree, FlightsAgree, OneActiveJob, WorkerIdsUnique, WorkspacesAgree;
    CoherentRow(policy, s, j);
    if ops == [] {
      RankOfAgreeingRow(policy, s.queue.jobs[j], TallyOf(s, j));
    } else {
      EveryChangeLowersTheRank(policy, s, ops[0], j);
      StepIsCoherent(policy, s, ops[0]);
      ChangesAreBounded(policy, Step(policy, s, ops[0]), ops[1..], j);
    }
  }

  lemma CoherentRow(policy: Policy, s: System, j: Id)
    requires Coherent(policy, s) && j in s.queue.jobs
    ensures JobAgrees(policy, s.queue.jobs[j], TallyOf(s, j))
  {
  }

  /** Whenever some job may be claimed, one of them is next: a claim comes back empty
      only when nothing is claimable. */
  lemma {:induction false} SomeClaimIsNext(q: Queue, among: set<Id>, now: nat) returns (j: Id)
    requires among != {} && among <= q.jobs.Keys
    requires forall k :: k in among ==> Claimable(q.jobs[k], now)
    ensures j in among && forall k :: k in among ==> !Before(q.jobs[k], q.jobs[j])
    decreases |among|
  {
    j :| j in among;
    var rest := among - {j};
    if rest == {} {
      assert among == {j};
    } else {
      var i: Id := SomeClaimIsNext(q, rest, now);
      var best: Id := if Before(q.jobs[i], q.jobs[j]) then i else j;
      forall k | k in among ensures !Before(q.jobs[k], q.jobs[best]) {
        if k != j {
          assert k in rest && !Before(q.jobs[k], q.jobs[i]);
        }
      }
      j := best;
    }
  }

  lemma ClaimsAreComplete(q: Queue, now: nat)
    ensures (exists j :: NextJob(q, j, now)) <==> (exists j :: j in q.jobs && Claimable(q.jobs[j], now))
  {
    if j :| j in q.jobs && Claimable(q.jobs[j], now) {
      var among := set k | k in q.jobs && Claimable(q.jobs[k], now);
      assert j in among;
      var next := SomeClaimIsNext(q, among, now);
      assert NextJob(q, next, now);
    }
  }

  // -------------------------------------------------- workspaces and jobs

  predicate EnsuresAtomically(ops: seq<Timed>) {
    forall i :: 0 <= i < |ops| ==> !ops[i].op.EnqueueLate?
  }

  lemma EnsureKeepsExactly(q: Queue, workspace: Id, jobId: Id, now: nat)
    requires OneActiveJob(q) && WorkerIdsUnique(q) && WorkspacesAgree(q) && WorkspacesAgreeExactly(q)
    ensures WorkspacesAgreeExactly(Ensure(q, workspace, jobId, now))
  {
    hide OneActiveJob, WorkerIdsUnique, HasActiveJob;
    ResolvingKeepsRows(q, workspace);
    var resolved := Resolve(q, workspace);
    if resolved.workspaces[workspace].state != WorkspaceReady
       && Enqueue(resolved, workspace, jobId, now).Ok? {
      EnqueuingKeepsRows(resolved, workspace, jobId, now);
    }
  }

  lemma FinishKeepsExactly(q: Queue, j: Id, owner: Id, outcome: Outcome, now: nat)
    requires OneActiveJob(q) && WorkerIdsUnique(q) && WorkspacesAgree(q) && WorkspacesAgreeExactly(q)
    ensures WorkspacesAgreeExactly(QueueOr(q, Finish(q, j, owner, outcome, now)))
  {
    if Finish(q, j, owner, outcome, now).Ok? {
      FinishingKeepsRows(q, j, owner, outcome, now);
      assert HasActiveJob(q, q.jobs[j].workspace);
    }
  }

  lemma StepKeepsExactly(policy: Policy, s: System, timed: Timed)
    requires Coherent(policy, s) && WorkspacesAgreeExactly(s.queue) && !timed.op.EnqueueLate?
    ensures WorkspacesAgreeExactly(Step(policy, s, timed).queue)
  {
    hide JobsAgree, FlightsAgree, OneActiveJob, WorkerIdsUnique, WorkspacesAgree;
    hide Claim, Finish, DeleteWorkspace, Ensure, HasActiveJob;
    var now := s.clock + timed.elapsed;
    match timed.op {
      case EnsureRunning(w, j) => EnsureKeepsExactly(s.queue, w, j, now);
      case ClaimNext(p, j) => ClaimKeepsExactly(policy, s, p, j, now);
      case WorkerReplied(p, workerId) =>
        if p in s.flights {
          FinishKeepsExactly(s.queue, s.flights[p].job, p, Success(workerId), now);
        }
      case WorkerRefused(_, _) =>
      case GiveUp(p) =>
        if p in s.flights {
          FinishKeepsExactly(s.queue, s.flights[p].job, p, FailureOf(policy, s.flights[p]), now);
        }
      case Crash(_) =>
      case Delete(w) => DeleteKeepsExactly(s.queue, w);
    }
  }

  lemma ClaimKeepsExactly(policy: Policy, s: System, p: Id, j: Id, now: nat)
    requires Coherent(policy, s) && WorkspacesAgreeExactly(s.queue)
    ensures WorkspacesAgreeExactly(ClaimStep(policy, s, p, j, now).queue)
  {
    if p !in s.flights && NextJob(s.queue, j, now) {
      ClaimingKeepsRows(s.queue, j, p, policy.lease, now);
    }
  }

  lemma DeleteKeepsExactly(q: Queue, workspace: Id)
    requires OneActiveJob(q) && WorkerIdsUnique(q) && WorkspacesAgree(q) && WorkspacesAgreeExactly(q)
    ensures WorkspacesAgreeExactly(DeleteWorkspace(q, workspace))
  {
    DeletingKeepsRows(q, workspace);
  }

  lemma {:induction false} RunKeepsExactly(policy: Policy, s: System, ops: seq<Timed>)
    requires Coherent(policy, s) && WorkspacesAgreeExactly(s.queue) && EnsuresAtomically(ops)
    ensures WorkspacesAgreeExactly(Run(policy, s, ops).queue)
    decreases |ops|
  {
    if ops != [] {
      StepIsCoherent(policy, s, ops[0]);
      StepKeepsExactly(policy, s, ops[0]);
      RunKeepsExactly(policy, Step(policy, s, ops[0]), ops[1..]);
    }
  }

  /** In every reachable state a workspace has at most one active job, a provisioning
      workspace has one, an active job's workspace is provisioning or ready, and a ready
      workspace has a worker id of its own. When ensuring is one step, exactly the
      provisioning workspaces have an active job. */
  lemma WorkspacesAndJobsAgree(policy: Policy, ops: seq<Timed>)
    ensures var q := Run(policy, START, ops).queue;
            OneActiveJob(q) && WorkerIdsUnique(q) && WorkspacesAgree(q)
    ensures EnsuresAtomically(ops) ==> WorkspacesAgreeExactly(Run(policy, START, ops).queue)
  {
    EveryRunIsCoherent(policy, ops);
    if EnsuresAtomically(ops) {
      RunKeepsExactly(policy, START, ops);
    }
  }

  /** Run on its own, the second transaction of ensuring keeps the exact agreement if and
      only if the workspace was not ready by then. */
  lemma LateEnqueueNeedsUnreadyWorkspace(q: Queue, workspace: Id, jobId: Id, now: nat)
    requires OneActiveJob(q) && WorkerIdsUnique(q) && WorkspacesAgree(q) && WorkspacesAgreeExactly(q)
    requires Enqueue(q, workspace, jobId, now).Ok?
    ensures WorkspacesAgreeExactly(Enqueue(q, workspace, jobId, now).value)
            <==> q.workspaces[workspace].state != WorkspaceReady
  {
    EnqueuingKeepsRows(q, workspace, jobId, now);
  }
}
