/** Capacity is conserved: over any mix of registrations, capacity changes, health
    reports, assignments and deletions, what a host has reserved is what its workspaces
    hold, and never more than it has. */
module PlacementRuns {
  import opened Prelude
  import opened MapSums
  import opened Placement

  // ------------------------------------------------------------ transactions

  /** Another host has the name or the address. */
  predicate IdentityInUse(hosts: map<Id, Host>, h: Id, name: Id, url: Id) {
    exists k :: k in hosts && k != h && (hosts[k].name == name || hosts[k].url == url)
  }

  function RegisterHost(f: Fleet, h: Id, name: Id, url: Id, enabled: bool, schedulable: bool, total: Amounts)
    : Result<Fleet, PlacementError>
  {
    if total.slots == 0 then Err(InvalidRequest)
    else if h in f.hosts && !AtMost(f.hosts[h].reserved, total) then Err(CapacityBelowReservations)
    else if IdentityInUse(f.hosts, h, name, url) then Err(IdentityTaken)
    else
      var row :=
        if h in f.hosts then f.hosts[h].(
            name := name, url := url, enabled := enabled, schedulable := schedulable, total := total)
        else Host(name, url, enabled, schedulable, HostUnknown, None, total, NOTHING);
      Ok(f.(hosts := f.hosts[h := row]))
  }

  function SetScheduling(f: Fleet, h: Id, enabled: Option<bool>, schedulable: Option<bool>, state: Option<HostState>)
    : Result<Fleet, PlacementError>
  {
    if h !in f.hosts then Err(HostMissing)
    else
      var row := f.hosts[h];
      Ok(f.(hosts := f.hosts[h := row.(
              enabled := if enabled.Some? then enabled.value else row.enabled,
              schedulable := if schedulable.Some? then schedulable.value else row.schedulable,
              state := if state.Some? then state.value else row.state)]))
  }

  /** A health report never moves a draining host. */
  function RecordHealth(f: Fleet, h: Id, healthy: bool, observed: bool, now: nat): Result<Fleet, PlacementError> {
    if h !in f.hosts then Err(HostMissing)
    else
      var row := f.hosts[h];
      var state := if row.state == HostDraining then HostDraining
                   else if healthy then HostHealthy else HostUnavailable;
      Ok(f.(hosts := f.hosts[h := row.(
              state := state, heartbeat := if observed then Some(now) else row.heartbeat)]))
  }

  function AddWorkspace(f: Fleet, w: Id): Fleet {
    if w in f.workspaces then f else f.(workspaces := f.workspaces[w := Workspace(None, NOTHING)])
  }

  /** Reserving the requirements on a host and recording the assignment. */
  function Reserve(f: Fleet, w: Id, h: Id, need: Amounts): Fleet
    requires h in f.hosts
  {
    Fleet(
      f.hosts[h := f.hosts[h].(reserved := Plus(f.hosts[h].reserved, need))],
      f.workspaces[w := Workspace(Some(h), need)])
  }

  datatype Assignment = Assignment(fleet: Fleet, host: Id)

  ghost function Assign(f: Fleet, w: Id, need: Amounts, since: int): Result<Assignment, PlacementError> {
    if need.slots == 0 then Err(InvalidRequest)
    else if w !in f.workspaces then Err(WorkspaceMissing)
    else if f.workspaces[w].host.Some? then
      var h := f.workspaces[w].host.value;
      if h in f.hosts then Ok(Assignment(f, h)) else Err(HostMissing)
    else if exists h :: Chosen(f.hosts, h, need, since) then
      var h :| Chosen(f.hosts, h, need, since);
      Ok(Assignment(Reserve(f, w, h, need), h))
    else Err(NoCapacity)
  }

  /** Deleting a workspace fires the release trigger of its host. */
  function DeleteWorkspace(f: Fleet, w: Id): Fleet {
    if w !in f.workspaces then f
    else
      var row := f.workspaces[w];
      var hosts :=
        if row.host.Some? && row.host.value in f.hosts then
          var h := row.host.value;
          f.hosts[h := f.hosts[h].(reserved := MinusClamped(f.hosts[h].reserved, row.reserved))]
        else f.hosts;
      Fleet(hosts, f.workspaces - {w})
  }

  // -------------------------------------------------------------------- runs

  datatype Op =
    | Register(host: Id, name: Id, url: Id, enabled: bool, schedulable: bool, total: Amounts)
    | Schedule(host: Id, enable: Option<bool>, schedule: Option<bool>, state: Option<HostState>)
    | Report(host: Id, healthy: bool, observed: bool, at: nat)
    | Create(workspace: Id)
    | Place(workspace: Id, need: Amounts, since: int)
    | Remove(workspace: Id)

  function OrSame(f: Fleet, r: Result<Fleet, PlacementError>): Fleet {
    if r.Ok? then r.value else f
  }

  ghost function Step(f: Fleet, op: Op): Fleet {
    match op
    case Register(h, name, url, enabled, schedulable, total) =>
      OrSame(f, RegisterHost(f, h, name, url, enabled, schedulable, total))
    case Schedule(h, enabled, schedulable, state) => OrSame(f, SetScheduling(f, h, enabled, schedulable, state))
    case Report(h, healthy, observed, at) => OrSame(f, RecordHealth(f, h, healthy, observed, at))
    case Create(w) => AddWorkspace(f, w)
    case Place(w, need, since) =>
      var r := Assign(f, w, need, since);
      if r.Ok? then r.value.fleet else f
    case Remove(w) => DeleteWorkspace(f, w)
  }

  ghost function Run(f: Fleet, ops: seq<Op>): Fleet
    decreases |ops|
  {
    if ops == [] then f else Run(Step(f, ops[0]), ops[1..])
  }

  // ------------------------------------------------------------ conservation

  /** What one workspace holds of one resource on one host. */
  function ShareOf(h: Id, kind: Kind): (Id, Workspace) -> int {
    (w: Id, row: Workspace) => if row.host == Some(h) then Get(row.reserved, kind) else 0
  }

  ghost predicate Conserved(f: Fleet, h: Id, kind: Kind)
    requires h in f.hosts
  {
    && Get(f.hosts[h].reserved, kind) == Sum(f.workspaces, ShareOf(h, kind))
    && Get(f.hosts[h].reserved, kind) <= Get(f.hosts[h].total, kind)
  }

  ghost predicate Balanced(f: Fleet) {
    && (forall h, kind: Kind :: h in f.hosts ==> Conserved(f, h, kind))
    && (forall w :: w in f.workspaces && f.workspaces[w].host.Some? ==> f.workspaces[w].host.value in f.hosts)
  }

  lemma HostsOnlyIsBalanced(f: Fleet, hosts: map<Id, Host>)
    requires Balanced(f) && f.hosts.Keys <= hosts.Keys
    requires forall h :: h in hosts ==>
               && AtMost(hosts[h].reserved, hosts[h].total)
               && hosts[h].reserved == (if h in f.hosts then f.hosts[h].reserved else NOTHING)
    ensures Balanced(f.(hosts := hosts))
  {
    forall h, kind: Kind | h in hosts ensures Conserved(f.(hosts := hosts), h, kind) {
      if h in f.hosts {
        assert Conserved(f, h, kind);
      } else {
        NobodyIsOn(f, h, kind);
      }
    }
  }

  /** No workspace holds anything on a host that is not registered. */
  lemma NobodyIsOn(f: Fleet, h: Id, kind: Kind)
    requires Balanced(f) && h !in f.hosts
    ensures Sum(f.workspaces, ShareOf(h, kind)) == 0
  {
    SumZero(f.workspaces, ShareOf(h, kind));
  }

  lemma RowsAtMost(f: Fleet, h: Id)
    requires Balanced(f) && h in f.hosts
    ensures AtMost(f.hosts[h].reserved, f.hosts[h].total)
  {
    assert Conserved(f, h, Memory) && Conserved(f, h, Cpu) && Conserved(f, h, Disk) && Conserved(f, h, Slots);
  }

  lemma HostOpsAreBalanced(f: Fleet, op: Op)
    requires Balanced(f) && (op.Register? || op.Schedule? || op.Report?)
    ensures Balanced(Step(f, op))
  {
    forall h | h in f.hosts ensures AtMost(f.hosts[h].reserved, f.hosts[h].total) {
      RowsAtMost(f, h);
    }
    HostsOnlyIsBalanced(f, Step(f, op).hosts);
  }

  lemma CreatingIsBalanced(f: Fleet, w: Id)
    requires Balanced(f)
    ensures Balanced(AddWorkspace(f, w))
  {
    if w !in f.workspaces {
      forall h, kind: Kind | h in f.hosts ensures Conserved(AddWorkspace(f, w), h, kind) {
        assert Conserved(f, h, kind);
        SumWrite(f.workspaces, ShareOf(h, kind), w, Workspace(None, NOTHING));
      }
    }
  }

  lemma ReservingIsBalanced(f: Fleet, w: Id, h: Id, need: Amounts, since: int)
    requires Balanced(f) && w in f.workspaces && f.workspaces[w].host.None?
    requires h in f.hosts && Eligible(f.hosts[h], need, since)
    ensures Balanced(Reserve(f, w, h, need))
  {
    var after := Reserve(f, w, h, need);
    forall k, kind: Kind | k in after.hosts ensures Conserved(after, k, kind) {
      assert Conserved(f, k, kind);
      SumWrite(f.workspaces, ShareOf(k, kind), w, Workspace(Some(h), need));
    }
  }

  lemma ShareIsNonnegative(f: Fleet, w: Id, h: Id, kind: Kind)
    requires w in f.workspaces
    ensures ShareOf(h, kind)(w, f.workspaces[w]) <= Sum(f.workspaces, ShareOf(h, kind))
  {
    SumAtLeast(f.workspaces, ShareOf(h, kind), w);
  }

  /** The release trigger never clamps: a host holds at least what the deleted
      workspace had reserved. */
  lemma ReleaseNeverClamps(f: Fleet, w: Id, kind: Kind)
    requires Balanced(f) && w in f.workspaces && f.workspaces[w].host.Some?
    ensures var h := f.workspaces[w].host.value;
            && h in f.hosts
            && Get(f.workspaces[w].reserved, kind) <= Get(f.hosts[h].reserved, kind)
            && h in DeleteWorkspace(f, w).hosts
            && Get(DeleteWorkspace(f, w).hosts[h].reserved, kind)
               == Get(f.hosts[h].reserved, kind) - Get(f.workspaces[w].reserved, kind)
  {
    var h := f.workspaces[w].host.value;
    assert Conserved(f, h, kind);
    ShareIsNonnegative(f, w, h, kind);
  }

  lemma DeletingIsBalanced(f: Fleet, w: Id)
    requires Balanced(f)
    ensures Balanced(DeleteWorkspace(f, w))
  {
    if w in f.workspaces {
      var after := DeleteWorkspace(f, w);
      forall h, kind: Kind | h in after.hosts ensures Conserved(after, h, kind) {
        assert Conserved(f, h, kind);
        SumSplit(f.workspaces, ShareOf(h, kind), w);
        if f.workspaces[w].host == Some(h) {
          ReleaseNeverClamps(f, w, kind);
        }
      }
    }
  }

  lemma StepIsBalanced(f: Fleet, op: Op)
    requires Balanced(f)
    ensures Balanced(Step(f, op))
  {
    hide Balanced;
    match op {
      case Register(_, _, _, _, _, _) => HostOpsAreBalanced(f, op);
      case Schedule(_, _, _, _) => HostOpsAreBalanced(f, op);
      case Report(_, _, _, _) => HostOpsAreBalanced(f, op);
      case Create(w) => CreatingIsBalanced(f, w);
      case Place(w, need, since) =>
        var r := Assign(f, w, need, since);
        if r.Ok? && f.workspaces[w].host.None? {
          ReservingIsBalanced(f, w, r.value.host, need, since);
        }
      case Remove(w) => DeletingIsBalanced(f, w);
    }
  }

  lemma {:induction false} RunIsBalanced(f: Fleet, ops: seq<Op>)
    requires Balanced(f)
    ensures Balanced(Run(f, ops))
    decreases |ops|
  {
    if ops != [] {
      StepIsBalanced(f, ops[0]);
      RunIsBalanced(Step(f, ops[0]), ops[1..]);
    }
  }

  /** In every reachable state, on every host and for each resource, what is reserved is
      the sum over the assigned workspaces and never exceeds the total. */
  lemma CapacityIsConserved(ops: seq<Op>, h: Id, kind: Kind)
    requires h in Run(Fleet(map[], map[]), ops).hosts
    ensures var f := Run(Fleet(map[], map[]), ops);
            Get(f.hosts[h].reserved, kind) == Sum(f.workspaces, ShareOf(h, kind))
            && Get(f.hosts[h].reserved, kind) <= Get(f.hosts[h].total, kind)
  {
    RunIsBalanced(Fleet(map[], map[]), ops);
    assert Conserved(Run(Fleet(map[], map[]), ops), h, kind);
  }

  lemma StepKeepsAssignment(f: Fleet, op: Op, w: Id)
    requires w in f.workspaces && f.workspaces[w].host.Some? && op != Remove(w)
    ensures w in Step(f, op).workspaces && Step(f, op).workspaces[w] == f.workspaces[w]
    ensures op.Place? && op.workspace == w ==> Step(f, op) == f
  {
  }

  /** An assignment, once made, stays through every run that does not delete the
      workspace, and asking again at the end of it reserves nothing. */
  lemma {:induction false} AssignmentIsImmutable(f: Fleet, ops: seq<Op>, w: Id)
    requires w in f.workspaces && f.workspaces[w].host.Some?
    requires Remove(w) !in ops
    ensures w in Run(f, ops).workspaces && Run(f, ops).workspaces[w] == f.workspaces[w]
    ensures forall need, since :: Step(Run(f, ops), Place(w, need, since)) == Run(f, ops)
    decreases |ops|
  {
    hide Step;
    if ops == [] {
      forall need, since ensures Step(f, Place(w, need, since)) == f {
        StepKeepsAssignment(f, Place(w, need, since), w);
      }
    } else {
      assert ops[0] in ops;
      StepKeepsAssignment(f, ops[0], w);
      AssignmentIsImmutable(Step(f, ops[0]), ops[1..], w);
    }
  }

  /** Placement picks an eligible host that precedes every other one, and is refused for
      capacity exactly when no host is eligible; nothing else is reserved. */
  lemma PlacementIsOptimalAndComplete(f: Fleet, w: Id, need: Amounts, since: int)
    requires need.slots > 0 && w in f.workspaces && f.workspaces[w].host.None?
    ensures Assign(f, w, need, since) == Err(NoCapacity)
            <==> forall h :: h in f.hosts ==> !Eligible(f.hosts[h], need, since)
    ensures match Assign(f, w, need, since)
            case Err(error) => error == NoCapacity
            case Ok(a) =>
              && Chosen(f.hosts, a.host, need, since)
              && a.fleet.workspaces == f.workspaces[w := Workspace(Some(a.host), need)]
              && a.fleet.hosts.Keys == f.hosts.Keys
              && (forall h :: h in f.hosts && h != a.host ==> a.fleet.hosts[h] == f.hosts[h])
              && (forall kind: Kind :: Get(a.fleet.hosts[a.host].reserved, kind)
                                       == Get(f.hosts[a.host].reserved, kind) + Get(need, kind))
  {
    ChoiceExistsAndIsUnique(f.hosts, need, since);
  }

  predicate HasRoom(h: Host, need: Amounts) {
    && h.total.memory - h.reserved.memory >= need.memory
    && h.total.cpu - h.reserved.cpu >= need.cpu
    && h.total.disk - h.reserved.disk >= need.disk
    && h.total.slots - h.reserved.slots >= need.slots
  }

  lemma ChosenHasRoom(h: Host, need: Amounts, since: int)
    requires Eligible(h, need, since)
    ensures HasRoom(h, need)
  {
    assert Get(h.total, Memory) - Get(h.reserved, Memory) >= Get(need, Memory);
    assert Get(h.total, Cpu) - Get(h.reserved, Cpu) >= Get(need, Cpu);
    assert Get(h.total, Disk) - Get(h.reserved, Disk) >= Get(need, Disk);
    assert Get(h.total, Slots) - Get(h.reserved, Slots) >= Get(need, Slots);
  }

  // ---------------------------------------------------------- the statements

  class Database {
    var hosts: map<Id, Host>
    var workspaces: map<Id, Workspace>

    constructor ()
      ensures Contents() == Fleet(map[], map[])
    {
      hosts, workspaces := map[], map[];
    }

    function Contents(): Fleet
      reads this
    {
      Fleet(hosts, workspaces)
    }

    /** One transaction: an assigned workspace keeps its host; otherwise the candidate is
        selected, its room is checked again by the guarded reservation, and the workspace
        row is written. The guard never fails. */
    method AssignWorkspaceWorker(w: Id, need: Amounts, maxAge: nat, now: nat) returns (r: Result<Id, PlacementError>)
      modifies this
      ensures match Assign(old(Contents()), w, need, now - maxAge)
              case Err(error) => r == Err(error) && Contents() == old(Contents())
              case Ok(a) => r == Ok(a.host) && Contents() == a.fleet
    {
      if need.slots == 0 {
        return Err(InvalidRequest);
      }
      if w !in workspaces {
        return Err(WorkspaceMissing);
      }
      if workspaces[w].host.Some? {
        var h := workspaces[w].host.value;
        return if h in hosts then Ok(h) else Err(HostMissing);
      }
      hide Precedes, Eligible, LighterIn, LevelIn;
      ChoiceExistsAndIsUnique(hosts, need, now - maxAge);
      if h :| h in hosts && Chosen(hosts, h, need, now - maxAge) {
        ChosenHasRoom(hosts[h], need, now - maxAge);
        var reserved := ReserveAndAssign(w, h, need);
        return if reserved then Ok(h) else Err(NoCapacity);
      }
      return Err(NoCapacity);
    }

    /** The guarded reservation and the assignment; false when the host has no room. */
    method ReserveAndAssign(w: Id, h: Id, need: Amounts) returns (reserved: bool)
      requires h in hosts
      modifies this
      ensures reserved <==> HasRoom(old(hosts)[h], need)
      ensures Contents() == if reserved then Reserve(old(Contents()), w, h, need) else old(Contents())
    {
      var row := hosts[h];
      if row.total.memory - row.reserved.memory < need.memory || row.total.cpu - row.reserved.cpu < need.cpu
         || row.total.disk - row.reserved.disk < need.disk || row.total.slots - row.reserved.slots < need.slots {
        return false;
      }
      row := row.(reserved := Plus(row.reserved, need));
      hosts := hosts[h := row];
      workspaces := workspaces[w := Workspace(Some(h), need)];
      return true;
    }

    method DeleteWorkspaceRow(w: Id)
      modifies this
      ensures Contents() == DeleteWorkspace(old(Contents()), w)
    {
      if w !in workspaces {
        return;
      }
      var row := workspaces[w];
      workspaces := workspaces - {w};
      if row.host.Some? && row.host.value in hosts {
        var host := hosts[row.host.value];
        host := host.(reserved := MinusClamped(host.reserved, row.reserved));
        hosts := hosts[row.host.value := host];
      }
    }

    method UpsertWorkerHost(h: Id, name: Id, url: Id, enabled: bool, schedulable: bool, total: Amounts)
      returns (r: Result<(), PlacementError>)
      modifies this`hosts
      ensures match RegisterHost(old(Contents()), h, name, url, enabled, schedulable, total)
              case Err(error) => r == Err(error) && Contents() == old(Contents())
              case Ok(f) => r == Ok(()) && Contents() == f
    {
      if total.slots == 0 {
        return Err(InvalidRequest);
      }
      if h in hosts {
        var row := hosts[h];
        if total.memory < row.reserved.memory || total.cpu < row.reserved.cpu
           || total.disk < row.reserved.disk || total.slots < row.reserved.slots {
          return Err(CapacityBelowReservations);
        }
      }
      if exists k | k in hosts :: k != h && (hosts[k].name == name || hosts[k].url == url) {
        return Err(IdentityTaken);
      }
      if h in hosts {
        var row := hosts[h].(name := name, url := url);
        row := row.(enabled := enabled, schedulable := schedulable);
        hosts := hosts[h := row.(total := total)];
      } else {
        hosts := hosts[h := Host(name, url, enabled, schedulable, HostUnknown, None, total, NOTHING)];
      }
      return Ok(());
    }
  }
}
