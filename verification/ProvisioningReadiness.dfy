/** When a ready workspace stops being ready, and what the lease does not protect against:
    the second transaction of ensuring run late, and two calls of one processor at once. */
module ProvisioningReadiness {
  import opened Prelude
  import opened Provisioning
  import opened ProvisioningProtocol
  import opened ProvisioningInvariants

  predicate IsReady(s: System, w: Id) {
    w in s.queue.workspaces && s.queue.workspaces[w].state == WorkspaceReady
  }

  /** The workspace is deleted, or a processor that holds the lease of a job of it records a
      failure for good. */
  predicate TakesReadyAway(policy: Policy, s: System, op: Op, w: Id) {
    || op == Delete(w)
    || (&& op.GiveUp?
        && op.processor in s.flights
        && var f := s.flights[op.processor];
           && f.stage != Working
           && HoldsLease(s.queue, f.job, op.processor)
           && s.queue.jobs[f.job].workspace == w
           && !FailureOf(policy, f).retryable)
  }

  /** A ready workspace stops being ready on exactly these steps. */
  lemma ReadyIsLostExactly(policy: Policy, s: System, timed: Timed, w: Id)
    requires IsReady(s, w)
    ensures !IsReady(Step(policy, s, timed), w) <==> TakesReadyAway(policy, s, timed.op, w)
  {
  }

  lemma NoActiveJobNoLoss(policy: Policy, s: System, op: Op, w: Id)
    requires IsReady(s, w) && WorkspacesAgreeExactly(s.queue) && op != Delete(w)
    ensures !TakesReadyAway(policy, s, op, w)
  {
    if TakesReadyAway(policy, s, op, w) {
      var j := s.flights[op.processor].job;
      assert j in s.queue.jobs && s.queue.jobs[j].workspace == w && ActiveJob(s.queue.jobs[j]);
    }
  }

  lemma {:induction false} ReadyStaysReadyFrom(policy: Policy, s: System, ops: seq<Timed>, w: Id)
    requires Coherent(policy, s) && WorkspacesAgreeExactly(s.queue) && IsReady(s, w)
    requires EnsuresAtomically(ops) && forall timed | timed in ops :: timed.op != Delete(w)
    ensures IsReady(Run(policy, s, ops), w)
    decreases |ops|
  {
    hide Step, Coherent, WorkspacesAgreeExactly, IsReady, TakesReadyAway;
    if ops != [] {
      assert ops[0] in ops;
      ReadyIsLostExactly(policy, s, ops[0], w);
      NoActiveJobNoLoss(policy, s, ops[0].op, w);
      StepIsCoherent(policy, s, ops[0]);
      StepKeepsExactly(policy, s, ops[0]);
      ReadyStaysReadyFrom(policy, Step(policy, s, ops[0]), ops[1..], w);
    }
  }

  lemma {:induction false} RunConcat(policy: Policy, s: System, ops: seq<Timed>, more: seq<Timed>)
    ensures Run(policy, s, ops + more) == Run(policy, Run(policy, s, ops), more)
    decreases |ops|
  {
    hide Step;
    if ops == [] {
      assert ops + more == more;
    } else {
      assert (ops + more)[1..] == ops[1..] + more;
      RunConcat(policy, Step(policy, s, ops[0]), ops[1..], more);
    }
  }

  /** When ensuring is one step, a workspace that became ready stays ready until it is
      deleted, through every run with crashes, expiry and retries. */
  lemma ReadyStaysReady(policy: Policy, ops: seq<Timed>, more: seq<Timed>, w: Id)
    requires EnsuresAtomically(ops) && EnsuresAtomically(more)
    requires IsReady(Run(policy, START, ops), w)
    requires forall timed | timed in more :: timed.op != Delete(w)
    ensures IsReady(Run(policy, START, ops + more), w)
  {
    RunConcat(policy, START, ops, more);
    EveryRunIsCoherent(policy, ops);
    WorkspacesAndJobsAgree(policy, ops);
    ReadyStaysReadyFrom(policy, Run(policy, START, ops), more, w);
  }

  // ------------------------------------------------- a run that loses it

  lemma RunOn(policy: Policy, ops: seq<Timed>, s: System, timed: Timed)
    requires Run(policy, START, ops) == s
    ensures Run(policy, START, ops + [timed]) == Step(policy, s, timed)
  {
    hide Step;
    RunConcat(policy, START, ops, [timed]);
    assert [timed][1..] == [];
  }

  const BECOMING_READY: seq<Timed> :=
    [Timed(EnsureRunning(1, 10), 0)] + [Timed(ClaimNext(5, 10), 0)] + [Timed(WorkerReplied(5, None), 0)]
  const LATE: seq<Timed> := BECOMING_READY + [Timed(EnqueueLate(1, 11), 0)]
  const LOSING: seq<Timed> :=
    LATE + [Timed(ClaimNext(5, 11), 0)] + [Timed(WorkerRefused(5, false), 0)] + [Timed(GiveUp(5), 0)]

  const DONE: Job := Job(1, Succeeded, 1, 0, None, None, 0, Some(0))
  const QUEUED: Job := Job(1, Queued, 0, 0, None, None, 0, None)
  const READY: Workspace := Workspace(WorkspaceReady, Some(1))
  const ONCE: Tally := Tally(1, 1, 0, 0, 0, Some(5), 0, 0)

  lemma BecomesReady(policy: Policy)
    ensures Run(policy, START, BECOMING_READY)
            == System(Queue(map[10 := DONE], map[1 := READY]), 0, map[], map[10 := ONCE])
  {
    var one := Step(policy, START, Timed(EnsureRunning(1, 10), 0));
    assert one == System(
        Queue(map[10 := QUEUED], map[1 := Workspace(WorkspaceProvisioning, None)]), 0, map[], map[]) by {
      assert !HasActiveJob(START.queue, 1);
    }
    RunOn(policy, [], START, Timed(EnsureRunning(1, 10), 0));
    assert [] + [Timed(EnsureRunning(1, 10), 0)] == [Timed(EnsureRunning(1, 10), 0)];
    RunOn(policy, [Timed(EnsureRunning(1, 10), 0)], one, Timed(ClaimNext(5, 10), 0));
    var two := Step(policy, one, Timed(ClaimNext(5, 10), 0));
    assert NextJob(one.queue, 10, 0);
    RunOn(
      policy, [Timed(EnsureRunning(1, 10), 0)] + [Timed(ClaimNext(5, 10), 0)], two, Timed(WorkerReplied(5, None), 0));
  }

  /** A run of the split ensure comes to a ready workspace with an active job. */
  lemma SomeRunQueuesForAReadyWorkspace(policy: Policy)
    ensures var s := Run(policy, START, LATE);
            && s == System(Queue(map[10 := DONE, 11 := QUEUED], map[1 := READY]), 0, map[], map[10 := ONCE])
            && IsReady(s, 1) && HasActiveJob(s.queue, 1) && !WorkspacesAgreeExactly(s.queue)
  {
    hide Run;
    BecomesReady(policy);
    var before := System(Queue(map[10 := DONE], map[1 := READY]), 0, map[], map[10 := ONCE]);
    RunOn(policy, BECOMING_READY, before, Timed(EnqueueLate(1, 11), 0));
    assert !HasActiveJob(before.queue, 1);
    assert Run(policy, START, LATE).queue.jobs[11] == QUEUED;
  }

  /** Its continuation: the late job fails for good, and the ready workspace with it. */
  lemma SomeRunLosesAReadyWorkspace(policy: Policy)
    ensures IsReady(Run(policy, START, LATE), 1)
    ensures var s := Run(policy, START, LOSING);
            1 in s.queue.workspaces && s.queue.workspaces[1] == READY.(state := WorkspaceFailed)
  {
    hide Run;
    SomeRunQueuesForAReadyWorkspace(policy);
    var late := Run(policy, START, LATE);
    var claim, refuse, giveUp := Timed(ClaimNext(5, 11), 0), Timed(WorkerRefused(5, false), 0), Timed(GiveUp(5), 0);
    assert NextJob(late.queue, 11, 0);
    RunOn(policy, LATE, late, claim);
    var claimed := Step(policy, late, claim);
    RunOn(policy, LATE + [claim], claimed, refuse);
    var refused := Step(policy, claimed, refuse);
    RunOn(policy, LATE + [claim] + [refuse], refused, giveUp);
  }

  // ------------------------------------------------ two calls of one processor

  /** A call whose lease ran out, and whose job was claimed again since, can still finish the
      job, though for another attempt than it claimed, if and only if the job was claimed
      again under its own processor's id. */
  lemma SupersededCallFinishesExactly(
    q: Queue, j: Id, first: Id, second: Id, lease: nat, start: nat, now: nat, outcome: Outcome, at: nat)
    requires j in q.jobs && Claimable(q.jobs[j], start) && start + lease <= now
    ensures var once := Claim(q, j, first, lease, start);
            && Claimable(once.jobs[j], now)
            && var twice := Claim(once, j, second, lease, now);
               && twice.jobs[j].attempt == once.jobs[j].attempt + 1
               && (Finish(twice, j, first, outcome, at) != Err(LeaseLost) <==> first == second)
  {
  }
}
