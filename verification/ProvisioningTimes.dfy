/** When jobs are claimed and what each step leaves in the tables, read back from the
    columns: how long a lease protects, how long a failed attempt waits, who comes first. */
module ProvisioningTimes {
  import opened Prelude
  import opened Provisioning
  import opened ProvisioningProtocol
  import opened ProvisioningInvariants

  lemma RowAgrees(policy: Policy, ops: seq<Timed>, j: Id)
    requires j in Run(policy, START, ops).queue.jobs
    ensures var s := Run(policy, START, ops); JobAgrees(policy, s.queue.jobs[j], TallyOf(s, j))
  {
    hide Run;
    EveryRunIsCoherent(policy, ops);
    CoherentRow(policy, Run(policy, START, ops), j);
  }

  // ------------------------------------------------------------ who is next

  /** A job waits to be claimed: it is queued and its time has come, or it is running and a
      whole lease has passed since it was last claimed. */
  predicate Waiting(policy: Policy, s: System, j: Id, now: nat) {
    && j in s.queue.jobs
    && (|| (s.queue.jobs[j].status == Queued && s.queue.jobs[j].availableAt <= now)
        || (s.queue.jobs[j].status == Running && TallyOf(s, j).claimedAt + policy.lease <= now))
  }

  predicate NotLater(a: Job, b: Job) {
    a.availableAt < b.availableAt || (a.availableAt == b.availableAt && a.createdAt <= b.createdAt)
  }

  /** In every reachable state the job handed out is one that waits; a queued one comes before
      every running one, and among equals the longest available and then the oldest. */
  lemma NextIsFirstWaiting(policy: Policy, ops: seq<Timed>, j: Id, now: nat)
    ensures var s := Run(policy, START, ops);
            NextJob(s.queue, j, now)
            <==>
            && Waiting(policy, s, j, now)
            && forall k :: Waiting(policy, s, k, now) ==>
                 || (s.queue.jobs[j].status == Queued && s.queue.jobs[k].status == Running)
                 || (s.queue.jobs[j].status == s.queue.jobs[k].status && NotLater(s.queue.jobs[j], s.queue.jobs[k]))
  {
    hide Run;
    var s := Run(policy, START, ops);
    forall k | k in s.queue.jobs ensures Claimable(s.queue.jobs[k], now) <==> Waiting(policy, s, k, now) {
      RowAgrees(policy, ops, k);
    }
  }

  // ------------------------------------------------------- what a claim does

  /** A step that claims a job records its own time and its processor. It comes no sooner
      than a lease after the previous claim when that one is still unfinished, and otherwise
      no sooner than the delay of the last attempt after it failed. */
  lemma ClaimsWait(policy: Policy, ops: seq<Timed>, timed: Timed, j: Id)
    requires var s := Run(policy, START, ops);
             j in s.queue.jobs && timed.op != Delete(s.queue.jobs[j].workspace)
    ensures var s := Run(policy, START, ops);
            var s' := Step(policy, s, timed);
            var t, t', job := TallyOf(s, j), TallyOf(s', j), s.queue.jobs[j];
            if t'.claims == t.claims then t'.claimedAt == t.claimedAt
            else
              && t'.claims == t.claims + 1 && t'.claimedAt == s'.clock
              && timed.op.ClaimNext? && timed.op.job == j && t'.lastClaimer == Some(timed.op.processor)
              && s'.clock >= (if job.status == Running then t.claimedAt + policy.lease
                              else if job.attempt == 0 then job.createdAt
                              else t.finishedAt + RetryDelay(job.attempt))
  {
    hide Run;
    RowAgrees(policy, ops, j);
    StepClaims(policy, Run(policy, START, ops), timed, j);
  }

  lemma StepClaims(policy: Policy, s: System, timed: Timed, j: Id)
    requires j in s.queue.jobs && timed.op != Delete(s.queue.jobs[j].workspace)
    ensures var s' := Step(policy, s, timed);
            var t, t' := TallyOf(s, j), TallyOf(s', j);
            if t'.claims == t.claims then t'.claimedAt == t.claimedAt
            else
              && t'.claims == t.claims + 1 && t'.claimedAt == s'.clock
              && timed.op.ClaimNext? && timed.op.job == j && t'.lastClaimer == Some(timed.op.processor)
              && Claimable(s.queue.jobs[j], s'.clock)
    ensures var s' := Step(policy, s, timed);
            var t, t' := TallyOf(s, j), TallyOf(s', j);
            if t'.finishes == t.finishes then t'.finishedAt == t.finishedAt
            else
              && t'.finishes == t.finishes + 1 && t'.finishedAt == s'.clock
              && s.queue.jobs[j].status == Running
              && j in s'.queue.jobs && s'.queue.jobs[j].status != Running
    ensures var s' := Step(policy, s, timed);
            var t, t' := TallyOf(s, j), TallyOf(s', j);
            t'.claims == t.claims && t'.finishes == t.finishes ==> t' == t
  {
  }

  lemma {:induction false} ClockGrows(policy: Policy, s: System, ops: seq<Timed>)
    ensures s.clock <= Run(policy, s, ops).clock
    decreases |ops|
  {
    hide Act;
    if ops != [] {
      ClockGrows(policy, Step(policy, s, ops[0]), ops[1..]);
    }
  }

  lemma {:induction false} FinishesGrow(policy: Policy, s: System, ops: seq<Timed>, j: Id)
    requires j in s.queue.jobs
    requires forall timed | timed in ops :: timed.op != Delete(s.queue.jobs[j].workspace)
    ensures TallyOf(s, j).finishes <= TallyOf(Run(policy, s, ops), j).finishes
    decreases |ops|
  {
    hide Step;
    if ops != [] {
      assert ops[0] in ops;
      StepMovesJobs(policy, s, ops[0], j);
      StepClaims(policy, s, ops[0], j);
      FinishesGrow(policy, Step(policy, s, ops[0]), ops[1..], j);
    }
  }

  /** From a claim on, for a whole lease, nobody claims the job again without its being
      finished first, whatever happens in the meantime. */
  lemma {:induction false} LeaseKeepsOthersOff(policy: Policy, s: System, ops: seq<Timed>, j: Id)
    requires Coherent(policy, s) && j in s.queue.jobs
    requires forall timed | timed in ops :: timed.op != Delete(s.queue.jobs[j].workspace)
    requires Run(policy, s, ops).clock < TallyOf(s, j).claimedAt + policy.lease
    requires s.queue.jobs[j].status == Running
    ensures var after := Run(policy, s, ops);
            || TallyOf(after, j).finishes > TallyOf(s, j).finishes
            || (j in after.queue.jobs && after.queue.jobs[j] == s.queue.jobs[j] && TallyOf(after, j) == TallyOf(s, j))
    decreases |ops|
  {
    hide Step, JobsAgree, FlightsAgree, OneActiveJob, WorkerIdsUnique, WorkspacesAgree;
    if ops != [] {
      var timed := ops[0];
      assert timed in ops;
      var next := Step(policy, s, timed);
      StepMovesJobs(policy, s, timed, j);
      StepIsCoherent(policy, s, timed);
      ClockGrows(policy, next, ops[1..]);
      CoherentRow(policy, s, j);
      CoherentRow(policy, next, j);
      StepClaims(policy, s, timed, j);
      if next.queue.jobs[j] == s.queue.jobs[j] {
        LeaseKeepsOthersOff(policy, next, ops[1..], j);
      } else {
        FinishesGrow(policy, next, ops[1..], j);
      }
    }
  }

  // ------------------------------------------------ what each step leaves

  /** Ensuring a workspace runs, by columns: a ready one is left alone; otherwise it is marked
      as provisioning, and a job that can be claimed at once is queued unless one is active or
      the new id is taken. */
  lemma EnsureLeaves(q: Queue, w: Id, jobId: Id, now: nat)
    ensures var q' := Ensure(q, w, jobId, now);
            var before := if w in q.workspaces then q.workspaces[w] else Workspace(WorkspacePending, None);
            var active := exists k :: k in q.jobs && q.jobs[k].workspace == w && q.jobs[k].status in {Queued, Running};
            if before.state == WorkspaceReady then q' == q
            else if active then
              q' == q.(workspaces := q.workspaces[w := before.(state := WorkspaceProvisioning)])
            else if jobId in q.jobs then q' == q.(workspaces := q.workspaces[w := before])
            else
              q' == Queue(
                      q.jobs[jobId := Job(w, Queued, 0, now, None, None, now, None)],
                      q.workspaces[w := before.(state := WorkspaceProvisioning)])
  {
    if w in q.workspaces {
      assert q.workspaces[w := q.workspaces[w]] == q.workspaces;
    }
    assert HasActiveJob(q, w)
           <==> exists k :: k in q.jobs && q.jobs[k].workspace == w && q.jobs[k].status in {Queued, Running};
  }

  /** The job of a flight runs under the lease of its processor. */
  predicate StillOwns(s: System, p: Id) {
    && p in s.flights && s.flights[p].job in s.queue.jobs
    && s.queue.jobs[s.flights[p].job].status == Running
    && s.queue.jobs[s.flights[p].job].leaseOwner == Some(p)
  }

  /** A worker's reply, by columns. With the lease, and a worker id no other workspace has,
      the job has succeeded and its workspace is ready under that id, its own when the reply
      names none; otherwise nothing is written and the processor goes on to give up. */
  lemma ReplyLeaves(policy: Policy, s: System, p: Id, workerId: Option<Id>, now: nat)
    requires p in s.flights && s.flights[p].stage == Working
    requires StillOwns(s, p) ==> s.queue.jobs[s.flights[p].job].workspace in s.queue.workspaces
    ensures var s' := Act(policy, s, WorkerReplied(p, workerId), now);
            var j := s.flights[p].job;
            if StillOwns(s, p)
               && var w := s.queue.jobs[j].workspace;
                  var id := if workerId.Some? then workerId.value else w;
                  forall v :: v in s.queue.workspaces && v != w ==> s.queue.workspaces[v].workerId != Some(id)
            then
              var job, w := s.queue.jobs[j], s.queue.jobs[j].workspace;
              var id := if workerId.Some? then workerId.value else w;
              && s'.queue.jobs == s.queue.jobs[j := Job(
                   w, Succeeded, job.attempt, now, None, None, job.createdAt, Some(now))]
              && s'.queue.workspaces == s.queue.workspaces[w := Workspace(WorkspaceReady, Some(id))]
              && s'.flights == s.flights - {p}
            else
              s'.queue == s.queue && s'.flights == s.flights[p := Flight(j, s.flights[p].attempt, GivingUp(true))]
  {
  }

  /** A worker call that fails sends its processor on to give up. No step happens out of turn:
      only a processor at work hears from its worker, and only one giving up records it. */
  lemma StepsInTurn(policy: Policy, s: System, p: Id, workerId: Option<Id>, retryable: bool, now: nat)
    ensures var s' := Act(policy, s, WorkerRefused(p, retryable), now);
            if p in s.flights && s.flights[p].stage.Working? then
              && s' == s.(flights := s'.flights)
              && s'.flights == s.flights[p := Flight(s.flights[p].job, s.flights[p].attempt, GivingUp(retryable))]
            else s' == s
    ensures p !in s.flights || s.flights[p].stage.GivingUp? ==> Act(policy, s, WorkerReplied(p, workerId), now) == s
    ensures p !in s.flights || s.flights[p].stage.Working? ==> Act(policy, s, GiveUp(p), now) == s
  {
  }

  /** A recorded failure, by columns. With the lease, a retryable failure of an attempt below
      the limit queues the job again after the delay of the attempt and leaves its workspace;
      any other ends the job for good and its workspace has failed. Without the lease nothing
      is written. The processor is done either way. */
  lemma GiveUpLeaves(policy: Policy, s: System, p: Id, now: nat)
    requires p in s.flights && s.flights[p].stage.GivingUp?
    requires StillOwns(s, p) ==> s.queue.jobs[s.flights[p].job].workspace in s.queue.workspaces
    ensures var s' := Act(policy, s, GiveUp(p), now);
            var f := s.flights[p];
            && s'.flights == s.flights - {p}
            && (!StillOwns(s, p) ==> s'.queue == s.queue)
            && (StillOwns(s, p) ==>
                  var job, w := s.queue.jobs[f.job], s.queue.jobs[f.job].workspace;
                  if f.stage.retryable && f.attempt < policy.maximumAttempts then
                    && s'.queue.jobs == s.queue.jobs[f.job := Job(
                         w, Queued, job.attempt, now + RetryDelay(f.attempt), None, None, job.createdAt, None)]
                    && s'.queue.workspaces == s.queue.workspaces
                  else
                    && s'.queue.jobs == s.queue.jobs[f.job := Job(
                         w, FailedForGood, job.attempt, now, None, None, job.createdAt, Some(now))]
                    && s'.queue.workspaces
                       == s.queue.workspaces[w := Workspace(WorkspaceFailed, s.queue.workspaces[w].workerId)])
  {
    if StillOwns(s, p) {
      var w := s.queue.jobs[s.flights[p].job].workspace;
      assert s.queue.workspaces[w := s.queue.workspaces[w]] == s.queue.workspaces;
    }
  }

  /** The delays: one second after the first attempt, twice as long after each next one, and
      never more than a minute. */
  lemma DelaysDouble(n: nat)
    requires n >= 1
    ensures RetryDelay(1) == 1000
    ensures RetryDelay(n + 1) == if RetryDelay(n) * 2 > 60000 then 60000 else RetryDelay(n) * 2
  {
  }
}
