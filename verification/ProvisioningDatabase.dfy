/** The queue tables and the processor as the control plane updates them, proved to
    take the steps of the protocol. */
module ProvisioningDatabase {
  import opened Prelude
  import opened Provisioning
  import opened ProvisioningProtocol
  import opened ProvisioningInvariants

  class Database {
    var jobs: map<Id, Job>
    var workspaces: map<Id, Workspace>

    constructor ()
      ensures Contents() == START.queue
    {
      jobs, workspaces := map[], map[];
    }

    function Contents(): Queue
      reads this
    {
      Queue(jobs, workspaces)
    }

    method EnsurePersonalWorkspace(workspace: Id)
      modifies this`workspaces
      ensures Contents() == Resolve(old(Contents()), workspace) && workspace in workspaces
    {
      if workspace !in workspaces {
        workspaces := workspaces[workspace := Workspace(WorkspacePending, None)];
      }
    }

    /** Resolves the workspace, then in a second transaction its active job. */
    method EnsureWorkspaceRunning(workspace: Id, jobId: Id, now: nat) returns (r: Result<Option<Id>, QueueError>)
      modifies this
      ensures Contents() == Ensure(old(Contents()), workspace, jobId, now)
      ensures r.Ok? && r.value.Some? ==>
                && r.value.value in jobs && ActiveJob(jobs[r.value.value])
                && jobs[r.value.value].workspace == workspace
      ensures r == Ok(None) ==> workspaces[workspace].state == WorkspaceReady && jobs == old(jobs)
    {
      EnsurePersonalWorkspace(workspace);
      if workspaces[workspace].state == WorkspaceReady {
        return Ok(None);
      }
      r := EnqueueJob(workspace, jobId, now);
    }

    method EnqueueJob(workspace: Id, jobId: Id, now: nat) returns (r: Result<Option<Id>, QueueError>)
      modifies this
      ensures match Enqueue(old(Contents()), workspace, jobId, now)
              case Err(error) => r == Err(error) && Contents() == old(Contents())
              case Ok(q) =>
                && Contents() == q && r.Ok? && r.value.Some?
                && r.value.value in jobs && ActiveJob(jobs[r.value.value])
                && jobs[r.value.value].workspace == workspace
    {
      if workspace !in workspaces {
        return Err(WorkspaceMissing);
      }
      var found := FindActiveJob(workspace);
      if found.None? {
        if jobId in jobs {
          return Err(JobUnresolved);
        }
        jobs := jobs[jobId := Job(workspace, Queued, 0, now, None, None, now, None)];
        found := Some(jobId);
      }
      if workspaces[workspace].state != WorkspaceReady {
        workspaces := workspaces[workspace := workspaces[workspace].(state := WorkspaceProvisioning)];
      }
      return Ok(found);
    }

    method FindActiveJob(workspace: Id) returns (found: Option<Id>)
      ensures found.Some? <==> HasActiveJob(Contents(), workspace)
      ensures found.Some? ==>
                found.value in jobs && jobs[found.value].workspace == workspace && ActiveJob(jobs[found.value])
    {
      if j :| j in jobs && jobs[j].workspace == workspace && ActiveJob(jobs[j]) {
        return Some(j);
      }
      return None;
    }

    /** Takes the next claimable job; none only when no job is claimable. */
    method ClaimProvisioningJob(owner: Id, lease: nat, now: nat) returns (claimed: Option<Id>)
      modifies this`jobs
      ensures claimed.None? <==> forall j :: j in old(jobs) ==> !Claimable(old(jobs)[j], now)
      ensures claimed.None? ==> jobs == old(jobs)
      ensures claimed.Some? ==>
                && NextJob(old(Contents()), claimed.value, now)
                && Contents() == Claim(old(Contents()), claimed.value, owner, lease, now)
    {
      if forall j | j in jobs :: !Claimable(jobs[j], now) {
        return None;
      }
      ClaimsAreComplete(Contents(), now);
      var j :| j in jobs && NextJob(Contents(), j, now);
      var row := jobs[j];
      row := row.(status := Running, attempt := row.attempt + 1, completedAt := None);
      row := row.(leaseOwner := Some(owner), leaseExpiresAt := Some(now + lease));
      jobs := jobs[j := row];
      return Some(j);
    }

    method FinishProvisioningJob(j: Id, owner: Id, outcome: Outcome, now: nat) returns (r: Result<(), QueueError>)
      modifies this
      ensures match Finish(old(Contents()), j, owner, outcome, now)
              case Err(error) => r == Err(error) && Contents() == old(Contents())
              case Ok(q) => r == Ok(()) && Contents() == q
    {
      if j !in jobs || jobs[j].status != Running || jobs[j].leaseOwner != Some(owner) {
        return Err(LeaseLost);
      }
      var saved := jobs;
      var row := jobs[j];
      var requeue := outcome.Failure? && outcome.retryable;
      row := row.(leaseOwner := None, leaseExpiresAt := None, availableAt := now);
      if requeue {
        row := row.(status := Queued, availableAt := now + outcome.delay, completedAt := None);
      } else {
        row := row.(status := if outcome.Success? then Succeeded else FailedForGood, completedAt := Some(now));
      }
      jobs := jobs[j := row];
      if row.workspace in workspaces {
        if outcome.Success? {
          var workerId := if outcome.workerId.Some? then outcome.workerId.value else row.workspace;
          if exists w | w in workspaces :: w != row.workspace && workspaces[w].workerId == Some(workerId) {
            jobs := saved;
            return Err(WorkerIdTaken);
          }
          workspaces := workspaces[row.workspace := Workspace(WorkspaceReady, Some(workerId))];
        } else if !outcome.retryable {
          workspaces := workspaces[row.workspace := workspaces[row.workspace].(state := WorkspaceFailed)];
        }
      }
      assert requeue && row.workspace in workspaces ==>
        workspaces == workspaces[row.workspace := workspaces[row.workspace]];
      return Ok(());
    }
  }

  /** One processor. Between its methods other processors may run. */
  class Processor {
    const id: Id
    const policy: Policy
    const database: Database
    var flight: Option<Flight>

    constructor (id: Id, policy: Policy, database: Database)
      ensures this.id == id && this.policy == policy && this.database == database && flight == None
    {
      this.id, this.policy, this.database, flight := id, policy, database, None;
    }

    /** This processor in the protocol, beside the flights of the others. */
    function System(clock: nat, others: map<Id, Flight>, tallies: map<Id, Tally>): System
      reads this, database
    {
      ProvisioningProtocol.System(
        database.Contents(), clock, if flight.Some? then others[id := flight.value] else others - {id}, tallies)
    }

    /** Claims a job; an unauthorized workspace goes straight to the error handler. */
    method BeginNext(authorized: bool, now: nat) returns (began: bool)
      requires flight.None?
      modifies this`flight, database
      ensures began <==> exists j :: j in old(database.jobs) && Claimable(old(database.jobs)[j], now)
      ensures !began ==> flight.None? && database.Contents() == old(database.Contents())
      ensures began ==>
                && flight.Some? && NextJob(old(database.Contents()), flight.value.job, now)
                && database.Contents() == Claim(old(database.Contents()), flight.value.job, id, policy.lease, now)
                && flight.value.attempt == old(database.jobs)[flight.value.job].attempt + 1
                && flight.value.stage == if authorized then Working else GivingUp(false)
    {
      var claimed := database.ClaimProvisioningJob(id, policy.lease, now);
      if claimed.None? {
        return false;
      }
      assert NextJob(old(database.Contents()), claimed.value, now);
      flight := Some(Flight(
                       claimed.value, database.jobs[claimed.value].attempt,
                       if authorized then Working else GivingUp(false)));
      return true;
    }

    /** The worker answered: takes the protocol's reply step. */
    method Replied(
      workerId: Option<Id>, now: nat, ghost others: map<Id, Flight>, ghost tallies: map<Id, Tally>)
      requires id !in others && flight.Some? && flight.value.stage == Working
      modifies this`flight, database
      ensures var s := ReplyStep(old(System(now, others, tallies)), id, workerId, now);
              System(now, others, s.tallies) == s
    {
      var f := flight.value;
      var r := database.FinishProvisioningJob(f.job, id, Success(workerId), now);
      if r.Ok? {
        flight := None;
      } else {
        flight := Some(f.(stage := GivingUp(true)));
      }
    }

    /** The error handler: takes the protocol's give-up step. */
    method RecordFailure(now: nat, ghost others: map<Id, Flight>, ghost tallies: map<Id, Tally>)
      requires id !in others && flight.Some? && flight.value.stage != Working
      modifies this`flight, database
      ensures var s := GiveUpStep(policy, old(System(now, others, tallies)), id, now);
              System(now, others, s.tallies) == s
    {
      var f := flight.value;
      var retry := f.stage.retryable && f.attempt < policy.maximumAttempts;
      var delay := RetryDelay(f.attempt);
      var _ := database.FinishProvisioningJob(f.job, id, Failure(retry, delay), now);
      flight := None;
    }
  }
}
