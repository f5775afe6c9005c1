/** Where a workspace goes and what host operations leave, read back from the columns. */
module PlacementChoice {
  import opened Prelude
  import opened Placement
  import opened PlacementRuns

  /** A host can take a workspace: it is enabled, schedulable, healthy and seen recently, and
      has every amount left. */
  predicate CanTake(h: Host, need: Amounts, since: int) {
    && h.enabled && h.schedulable && h.state == HostHealthy
    && h.heartbeat.Some? && since <= h.heartbeat.value
    && h.reserved.memory + need.memory <= h.total.memory
    && h.reserved.cpu + need.cpu <= h.total.cpu
    && h.reserved.disk + need.disk <= h.total.disk
    && h.reserved.slots + need.slots <= h.total.slots
  }

  /** The share of a total that is reserved, as a fraction; of no total nothing is. */
  datatype Share = Share(part: nat, whole: nat)

  function ShareTaken(reserved: nat, total: nat): (s: Share)
    ensures s.whole > 0
    ensures total > 0 ==> s.part * total == reserved * s.whole
    ensures total == 0 ==> s.part == 0
  {
    if total == 0 then Share(0, 1) else Share(reserved, total)
  }

  predicate Less(a: Share, b: Share) {
    a.part * b.whole < b.part * a.whole
  }

  predicate Same(a: Share, b: Share) {
    a.part * b.whole == b.part * a.whole
  }

  /** One host is taken rather than another: by the share of slots reserved, then of memory,
      of processor and of disk, and then by its id. */
  predicate TakenRather(i: Id, a: Host, j: Id, b: Host) {
    var slots, slots' := ShareTaken(a.reserved.slots, a.total.slots), ShareTaken(b.reserved.slots, b.total.slots);
    var memory, memory' := ShareTaken(a.reserved.memory, a.total.memory), ShareTaken(b.reserved.memory, b.total.memory);
    var cpu, cpu' := ShareTaken(a.reserved.cpu, a.total.cpu), ShareTaken(b.reserved.cpu, b.total.cpu);
    var disk, disk' := ShareTaken(a.reserved.disk, a.total.disk), ShareTaken(b.reserved.disk, b.total.disk);
    || Less(slots, slots')
    || (Same(slots, slots') && Less(memory, memory'))
    || (Same(slots, slots') && Same(memory, memory') && Less(cpu, cpu'))
    || (Same(slots, slots') && Same(memory, memory') && Same(cpu, cpu') && Less(disk, disk'))
    || (Same(slots, slots') && Same(memory, memory') && Same(cpu, cpu') && Same(disk, disk') && i < j)
  }

  lemma SameOrder(i: Id, a: Host, j: Id, b: Host)
    ensures Precedes(i, a, j, b) <==> TakenRather(i, a, j, b)
  {
    SharesCompare(a, b, Memory);
    SharesCompare(a, b, Cpu);
    SharesCompare(a, b, Disk);
    SharesCompare(a, b, Slots);
    hide LighterIn, LevelIn, Less, Same, ShareTaken;
  }

  lemma SharesCompare(a: Host, b: Host, kind: Kind)
    ensures var x, y := ShareTaken(Get(a.reserved, kind), Get(a.total, kind)),
                        ShareTaken(Get(b.reserved, kind), Get(b.total, kind));
            && (LighterIn(a, b, kind) <==> Less(x, y))
            && (LevelIn(a, b, kind) <==> Same(x, y))
  {
  }

  lemma SameCandidates(h: Host, need: Amounts, since: int)
    ensures Eligible(h, need, since) <==> CanTake(h, need, since)
  {
    if CanTake(h, need, since) {
      forall kind: Kind ensures Get(h.total, kind) - Get(h.reserved, kind) >= Get(need, kind) {
      }
    }
    if Eligible(h, need, since) {
      ChosenHasRoom(h, need, since);
    }
  }

  /** A placement, by columns: the refusals in their order; an assigned workspace keeps its
      host and reserves nothing; otherwise the host that is taken can take the workspace, is
      taken rather than any other that can, and has the amounts reserved. */
  lemma PlacementLeaves(f: Fleet, w: Id, need: Amounts, since: int)
    ensures var out := Assign(f, w, need, since);
            if need.slots == 0 then out == Err(InvalidRequest)
            else if w !in f.workspaces then out == Err(WorkspaceMissing)
            else if f.workspaces[w].host.Some? then
              var h := f.workspaces[w].host.value;
              out == if h in f.hosts then Ok(Assignment(f, h)) else Err(HostMissing)
            else if forall h :: h in f.hosts ==> !CanTake(f.hosts[h], need, since) then out == Err(NoCapacity)
            else
              && out.Ok?
              && var h := out.value.host;
                 && h in f.hosts && CanTake(f.hosts[h], need, since)
                 && (forall k :: k in f.hosts && k != h && CanTake(f.hosts[k], need, since) ==>
                       TakenRather(h, f.hosts[h], k, f.hosts[k]))
                 && var r := f.hosts[h].reserved;
                    out.value.fleet == Fleet(
                      f.hosts[h := f.hosts[h].(reserved := Amounts(
                        r.memory + need.memory, r.cpu + need.cpu, r.disk + need.disk, r.slots + need.slots))],
                      f.workspaces[w := Workspace(Some(h), need)])
  {
    hide Precedes, TakenRather, Eligible, CanTake;
    ChoiceExistsAndIsUnique(f.hosts, need, since);
    forall k | k in f.hosts ensures Eligible(f.hosts[k], need, since) <==> CanTake(f.hosts[k], need, since) {
      SameCandidates(f.hosts[k], need, since);
    }
    var out := Assign(f, w, need, since);
    if out.Ok? && f.workspaces[w].host.None? {
      var h := out.value.host;
      forall k | k in f.hosts && k != h && CanTake(f.hosts[k], need, since)
        ensures TakenRather(h, f.hosts[h], k, f.hosts[k])
      {
        SameOrder(h, f.hosts[h], k, f.hosts[k]);
      }
    }
  }

  /** A deletion from a fleet whose books balance, by columns: the host gets back exactly what
      the workspace had reserved. */
  lemma DeletionLeaves(f: Fleet, w: Id)
    requires Balanced(f) && w in f.workspaces && f.workspaces[w].host.Some?
    ensures var h := f.workspaces[w].host.value;
            && h in f.hosts
            && var r, back := f.hosts[h].reserved, f.workspaces[w].reserved;
               && back.memory <= r.memory && back.cpu <= r.cpu && back.disk <= r.disk && back.slots <= r.slots
               && DeleteWorkspace(f, w) == Fleet(
                    f.hosts[h := f.hosts[h].(reserved := Amounts(
                      r.memory - back.memory, r.cpu - back.cpu, r.disk - back.disk, r.slots - back.slots))],
                    f.workspaces - {w})
  {
    ReleaseNeverClamps(f, w, Memory);
    ReleaseNeverClamps(f, w, Cpu);
    ReleaseNeverClamps(f, w, Disk);
    ReleaseNeverClamps(f, w, Slots);
  }

  /** A registration, by columns: refused without slots, below any reservation, or under a
      name or address of another host; otherwise the given columns, and for a known host its
      reservations, state and heartbeat as they were. */
  lemma RegistrationLeaves(
    f: Fleet, h: Id, name: Id, url: Id, enabled: bool, schedulable: bool, total: Amounts)
    ensures var out := RegisterHost(f, h, name, url, enabled, schedulable, total);
            if total.slots == 0 then out == Err(InvalidRequest)
            else if h in f.hosts
                    && var r := f.hosts[h].reserved;
                       total.memory < r.memory || total.cpu < r.cpu || total.disk < r.disk || total.slots < r.slots
            then out == Err(CapacityBelowReservations)
            else if exists k :: k in f.hosts && k != h && (f.hosts[k].name == name || f.hosts[k].url == url)
            then out == Err(IdentityTaken)
            else
              out == Ok(f.(hosts := f.hosts[h :=
                if h in f.hosts then
                  var was := f.hosts[h];
                  Host(name, url, enabled, schedulable, was.state, was.heartbeat, total, was.reserved)
                else Host(name, url, enabled, schedulable, HostUnknown, None, total, Amounts(0, 0, 0, 0))]))
  {
  }

  /** Scheduling changes and health reports, by columns: neither touches amounts, a report
      leaves a draining host draining, and both are refused for a host that is not there. */
  lemma HostUpdatesLeave(
    f: Fleet, h: Id, enabled: Option<bool>, schedulable: Option<bool>, state: Option<HostState>,
    healthy: bool, observed: bool, now: nat)
    ensures var out := SetScheduling(f, h, enabled, schedulable, state);
            if h !in f.hosts then out == Err(HostMissing)
            else
              && out.Ok? && h in out.value.hosts
              && var row, after := f.hosts[h], out.value.hosts[h];
                 && out.value == f.(hosts := f.hosts[h := after])
                 && after == Host(row.name, row.url, after.enabled, after.schedulable, after.state, row.heartbeat,
                                  row.total, row.reserved)
                 && Some(after.enabled) == (if enabled.Some? then enabled else Some(row.enabled))
                 && Some(after.schedulable) == (if schedulable.Some? then schedulable else Some(row.schedulable))
                 && Some(after.state) == (if state.Some? then state else Some(row.state))
    ensures var out := RecordHealth(f, h, healthy, observed, now);
            if h !in f.hosts then out == Err(HostMissing)
            else
              && out.Ok? && h in out.value.hosts
              && var row, after := f.hosts[h], out.value.hosts[h];
                 && out.value == f.(hosts := f.hosts[h := after])
                 && after == Host(row.name, row.url, row.enabled, row.schedulable, after.state, after.heartbeat,
                                  row.total, row.reserved)
                 && (row.state == HostDraining ==> after.state == HostDraining)
                 && (row.state != HostDraining ==> after.state == if healthy then HostHealthy else HostUnavailable)
                 && after.heartbeat == if observed then Some(now) else row.heartbeat
  {
  }
}
