/** Published services: activation under workspace and organization limits, TCP ingress
    port allocation, revocation and expiry. */
module Publications {
  import opened Prelude

  datatype Key = Key(workspace: Id, name: Id)
  datatype Protocol = Http | Tcp
  datatype Visibility = Public | PrivateByToken | MalformedAccess

  datatype Service = Service(
    id: Id, slug: Id, protocol: Protocol, targetPort: nat, ingressPort: Option<nat>,
    visibility: Visibility, active: bool, expiresAt: Option<nat>, createdAt: nat)

  /** The workspaces with their organizations, and the service rows. */
  datatype Registry = Registry(workspaces: map<Id, Id>, services: map<Key, Service>)

  datatype Request = Request(
    id: Id, slug: Id, protocol: Protocol, targetPort: nat, visibility: Visibility,
    expiresAt: Option<nat>, lowest: nat, highest: nat)

  datatype Limits = Limits(perWorkspace: nat, perOrganization: nat)

  datatype PublicationError =
    | PortInvalid | LimitsInvalid | WorkspaceMissing | TtlInvalid | AccessInvalid
    | WorkspaceLimitReached | OrganizationLimitReached | RangeInvalid | PortsExhausted | IdentityTaken

  const MINIMUM_TTL_MS: nat := 5 * 60 * 1000
  const MAXIMUM_TTL_MS: nat := 7 * 24 * 60 * 60 * 1000
  const RESERVED_PORT: nat := 7777

  predicate PortAllowed(port: nat) {
    1024 <= port <= 65535 && port != RESERVED_PORT
  }

  /** An ingress range may not reach outside the allowed ports nor contain the reserved one. */
  predicate RangeAllowed(lowest: nat, highest: nat) {
    && 1024 <= lowest <= highest <= 65535
    && !(lowest <= RESERVED_PORT <= highest)
  }

  predicate LimitsAllowed(limits: Limits) {
    1 <= limits.perWorkspace <= 100 && 1 <= limits.perOrganization <= 10000
  }

  predicate LiveAt(s: Service, at: nat) {
    s.active && (s.expiresAt.Some? ==> s.expiresAt.value > at)
  }

  function LiveInWorkspace(r: Registry, workspace: Id, at: nat): set<Key> {
    set k | k in r.services && k.workspace == workspace && LiveAt(r.services[k], at)
  }

  function LiveInOrganization(r: Registry, organization: Id, at: nat): set<Key> {
    set k | k in r.services && k.workspace in r.workspaces && r.workspaces[k.workspace] == organization
            && LiveAt(r.services[k], at)
  }

  /** Ports are taken by every row that has one, live or not. */
  predicate PortTaken(services: map<Key, Service>, port: nat) {
    exists k :: k in services && services[k].ingressPort == Some(port)
  }

  /** The first port from a candidate on that no row has. */
  function FirstFree(services: map<Key, Service>, candidate: nat, highest: nat): (port: Option<nat>)
    ensures port.Some? ==>
              && candidate <= port.value <= highest && !PortTaken(services, port.value)
              && forall p :: candidate <= p < port.value ==> PortTaken(services, p)
    ensures port.None? ==> forall p :: candidate <= p <= highest ==> PortTaken(services, p)
    decreases highest + 1 - candidate
  {
    if candidate > highest then None
    else if !PortTaken(services, candidate) then Some(candidate)
    else FirstFree(services, candidate + 1, highest)
  }

  predicate KeepsPort(r: Registry, k: Key, request: Request) {
    && k in r.services && r.services[k].protocol == Tcp
    && r.services[k].ingressPort.Some?
    && request.lowest <= r.services[k].ingressPort.value <= request.highest
  }

  /** The port a request ends up with; the outer option is the refusal. */
  function PortFor(r: Registry, k: Key, request: Request): Option<Option<nat>> {
    if request.protocol == Http then Some(None)
    else if KeepsPort(r, k, request) then Some(r.services[k].ingressPort)
    else
      match FirstFree(r.services, request.lowest, request.highest)
      case None => None
      case Some(port) => Some(Some(port))
  }

  predicate TtlAllowed(expiresAt: Option<nat>, now: nat) {
    expiresAt.Some? ==> MINIMUM_TTL_MS <= expiresAt.value - now <= MAXIMUM_TTL_MS
  }

  predicate AccessAllowed(request: Request) {
    request.visibility != MalformedAccess && (request.protocol == Tcp ==> request.visibility == Public)
  }

  function Row(r: Registry, k: Key, request: Request, port: Option<nat>, now: nat): Service {
    if k in r.services then
      r.services[k].(protocol := request.protocol, targetPort := request.targetPort, ingressPort := port,
                     visibility := request.visibility, active := true, expiresAt := request.expiresAt)
    else
      Service(request.id, request.slug, request.protocol, request.targetPort, port,
              request.visibility, true, request.expiresAt, now)
  }

  function Publish(r: Registry, limits: Limits, k: Key, request: Request, now: nat)
    : Result<Registry, PublicationError>
  {
    if !PortAllowed(request.targetPort) then Err(PortInvalid)
    else if !LimitsAllowed(limits) then Err(LimitsInvalid)
    else if k.workspace !in r.workspaces then Err(WorkspaceMissing)
    else if !TtlAllowed(request.expiresAt, now) then Err(TtlInvalid)
    else if !AccessAllowed(request) then Err(AccessInvalid)
    else
      var counted := !(k in r.services && LiveAt(r.services[k], now));
      if counted && |LiveInWorkspace(r, k.workspace, now)| >= limits.perWorkspace then Err(WorkspaceLimitReached)
      else if counted && |LiveInOrganization(r, r.workspaces[k.workspace], now)| >= limits.perOrganization then
        Err(OrganizationLimitReached)
      else if request.protocol == Tcp && !RangeAllowed(request.lowest, request.highest) then Err(RangeInvalid)
      else
        match PortFor(r, k, request)
        case None => Err(PortsExhausted)
        case Some(port) =>
          if k !in r.services
             && exists o :: o in r.services
                            && (r.services[o].id == request.id || r.services[o].slug == request.slug) then
            Err(IdentityTaken)
          else Ok(r.(services := r.services[k := Row(r, k, request, port, now)]))
  }

  function Revoke(r: Registry, k: Key): Registry {
    if k in r.services then r.(services := r.services[k := r.services[k].(active := false)]) else r
  }

  function RevokeOrganization(r: Registry, organization: Id): Registry {
    r.(services := map k | k in r.services ::
      if k.workspace in r.workspaces && r.workspaces[k.workspace] == organization
      then r.services[k].(active := false) else r.services[k])
  }

  function AddWorkspace(r: Registry, workspace: Id, organization: Id): Registry {
    if workspace in r.workspaces then r else r.(workspaces := r.workspaces[workspace := organization])
  }

  /** Deleting a workspace cascades to its services. */
  function DeleteWorkspace(r: Registry, workspace: Id): Registry {
    Registry(r.workspaces - {workspace}, map k | k in r.services && k.workspace != workspace :: r.services[k])
  }

  // -------------------------------------------------------------------- runs

  datatype Op =
    | PublishService(key: Key, request: Request)
    | RevokeService(key: Key)
    | RevokeAll(organization: Id)
    | CreateWorkspace(workspace: Id, organization: Id)
    | RemoveWorkspace(workspace: Id)

  datatype Timed = Timed(op: Op, elapsed: nat)
  datatype State = State(registry: Registry, clock: nat)

  function Act(r: Registry, limits: Limits, op: Op, now: nat): Registry {
    match op
    case PublishService(k, request) =>
      var out := Publish(r, limits, k, request, now);
      if out.Ok? then out.value else r
    case RevokeService(k) => Revoke(r, k)
    case RevokeAll(organization) => RevokeOrganization(r, organization)
    case CreateWorkspace(workspace, organization) => AddWorkspace(r, workspace, organization)
    case RemoveWorkspace(workspace) => DeleteWorkspace(r, workspace)
  }

  function Step(limits: Limits, s: State, timed: Timed): State {
    var now := s.clock + timed.elapsed;
    State(Act(s.registry, limits, timed.op, now), now)
  }

  function Run(limits: Limits, s: State, ops: seq<Timed>): State
    decreases |ops|
  {
    if ops == [] then s else Run(limits, Step(limits, s, ops[0]), ops[1..])
  }

  const EMPTY: State := State(Registry(map[], map[]), 0)

  // -------------------------------------------------------------- invariants

  predicate PortsAreSound(r: Registry) {
    && (forall k :: k in r.services ==>
          match r.services[k].protocol
          case Http => r.services[k].ingressPort.None?
          case Tcp => r.services[k].ingressPort.Some? && PortAllowed(r.services[k].ingressPort.value))
    && (forall j, k | j in r.services && k in r.services ::
          r.services[j].ingressPort.Some? && r.services[j].ingressPort == r.services[k].ingressPort ==> j == k)
  }

  predicate RowsAreSound(r: Registry, clock: nat) {
    forall k :: k in r.services ==>
      && k.workspace in r.workspaces
      && r.services[k].createdAt <= clock
      && (r.services[k].expiresAt.Some? ==> r.services[k].expiresAt.value > r.services[k].createdAt)
  }

  predicate WithinWorkspace(r: Registry, limits: Limits, workspace: Id, at: nat) {
    |LiveInWorkspace(r, workspace, at)| <= limits.perWorkspace
  }

  predicate WithinOrganization(r: Registry, limits: Limits, organization: Id, at: nat) {
    |LiveInOrganization(r, organization, at)| <= limits.perOrganization
  }

  ghost predicate Sound(limits: Limits, s: State) {
    && PortsAreSound(s.registry)
    && RowsAreSound(s.registry, s.clock)
    && (forall w :: WithinWorkspace(s.registry, limits, w, s.clock))
    && (forall o :: WithinOrganization(s.registry, limits, o, s.clock))
  }

  /** What is live later is live now: expiry only takes away. */
  lemma LimitsHoldLater(r: Registry, limits: Limits, clock: nat, at: nat)
    requires clock <= at
    requires forall w :: WithinWorkspace(r, limits, w, clock)
    requires forall o :: WithinOrganization(r, limits, o, clock)
    ensures forall w :: WithinWorkspace(r, limits, w, at)
    ensures forall o :: WithinOrganization(r, limits, o, at)
  {
    forall w ensures WithinWorkspace(r, limits, w, at) {
      assert WithinWorkspace(r, limits, w, clock);
      SizeMonotone(LiveInWorkspace(r, w, at), LiveInWorkspace(r, w, clock));
    }
    forall o ensures WithinOrganization(r, limits, o, at) {
      assert WithinOrganization(r, limits, o, clock);
      SizeMonotone(LiveInOrganization(r, o, at), LiveInOrganization(r, o, clock));
    }
  }

  lemma FewerLiveIsWithin(r: Registry, r': Registry, limits: Limits, at: nat)
    requires forall w :: WithinWorkspace(r, limits, w, at)
    requires forall o :: WithinOrganization(r, limits, o, at)
    requires forall w :: LiveInWorkspace(r', w, at) <= LiveInWorkspace(r, w, at)
    requires forall o :: LiveInOrganization(r', o, at) <= LiveInOrganization(r, o, at)
    ensures forall w :: WithinWorkspace(r', limits, w, at)
    ensures forall o :: WithinOrganization(r', limits, o, at)
  {
    forall w ensures WithinWorkspace(r', limits, w, at) {
      assert WithinWorkspace(r, limits, w, at);
      SizeMonotone(LiveInWorkspace(r', w, at), LiveInWorkspace(r, w, at));
    }
    forall o ensures WithinOrganization(r', limits, o, at) {
      assert WithinOrganization(r, limits, o, at);
      SizeMonotone(LiveInOrganization(r', o, at), LiveInOrganization(r, o, at));
    }
  }

  lemma OneMore<T>(before: set<T>, after: set<T>, x: T)
    requires after <= before + {x}
    ensures |after| <= |before| + 1
    ensures x in before ==> |after| <= |before|
  {
    SizeMonotone(after, before + {x});
    if x in before {
      assert before + {x} == before;
    }
  }

  lemma PublishingIsWithin(r: Registry, limits: Limits, k: Key, request: Request, now: nat)
    requires Publish(r, limits, k, request, now).Ok?
    requires forall w :: WithinWorkspace(r, limits, w, now)
    requires forall o :: WithinOrganization(r, limits, o, now)
    ensures var r' := Publish(r, limits, k, request, now).value;
            && (forall w :: WithinWorkspace(r', limits, w, now))
            && (forall o :: WithinOrganization(r', limits, o, now))
  {
    var r' := Publish(r, limits, k, request, now).value;
    assert forall j :: j in r'.services && j != k ==> j in r.services && r'.services[j] == r.services[j];
    forall w ensures WithinWorkspace(r', limits, w, now) {
      assert WithinWorkspace(r, limits, w, now);
      if w == k.workspace {
        OneMore(LiveInWorkspace(r, w, now), LiveInWorkspace(r', w, now), k);
      } else {
        SizeMonotone(LiveInWorkspace(r', w, now), LiveInWorkspace(r, w, now));
      }
    }
    forall o ensures WithinOrganization(r', limits, o, now) {
      assert WithinOrganization(r, limits, o, now);
      if o == r.workspaces[k.workspace] {
        OneMore(LiveInOrganization(r, o, now), LiveInOrganization(r', o, now), k);
      } else {
        SizeMonotone(LiveInOrganization(r', o, now), LiveInOrganization(r, o, now));
      }
    }
  }

  lemma PublishingKeepsRows(r: Registry, limits: Limits, k: Key, request: Request, now: nat)
    requires Publish(r, limits, k, request, now).Ok?
    requires PortsAreSound(r) && RowsAreSound(r, now)
    ensures var r' := Publish(r, limits, k, request, now).value;
            PortsAreSound(r') && RowsAreSound(r', now)
  {
  }

  lemma ActIsSound(limits: Limits, r: Registry, op: Op, now: nat)
    requires Sound(limits, State(r, now))
    ensures Sound(limits, State(Act(r, limits, op, now), now))
  {
    var r' := Act(r, limits, op, now);
    match op {
      case PublishService(k, request) =>
        if Publish(r, limits, k, request, now).Ok? {
          PublishingIsWithin(r, limits, k, request, now);
          PublishingKeepsRows(r, limits, k, request, now);
        }
      case RevokeService(k) => FewerLiveIsWithin(r, r', limits, now);
      case RevokeAll(_) => FewerLiveIsWithin(r, r', limits, now);
      case CreateWorkspace(_, _) => FewerLiveIsWithin(r, r', limits, now);
      case RemoveWorkspace(_) => FewerLiveIsWithin(r, r', limits, now);
    }
  }

  lemma StepIsSound(limits: Limits, s: State, timed: Timed)
    requires Sound(limits, s)
    ensures Sound(limits, Step(limits, s, timed))
  {
    hide Act;
    var now := s.clock + timed.elapsed;
    LimitsHoldLater(s.registry, limits, s.clock, now);
    ActIsSound(limits, s.registry, timed.op, now);
  }

  lemma {:induction false} RunIsSound(limits: Limits, s: State, ops: seq<Timed>)
    requires Sound(limits, s)
    ensures Sound(limits, Run(limits, s, ops))
    decreases |ops|
  {
    if ops != [] {
      StepIsSound(limits, s, ops[0]);
      RunIsSound(limits, Step(limits, s, ops[0]), ops[1..]);
    }
  }

  /** In every reachable state, and at every later time, no workspace and no organization
      has more live services than its limit, and no two services share an ingress port. */
  lemma PublicationsStayWithinLimits(limits: Limits, ops: seq<Timed>, at: nat)
    requires Run(limits, EMPTY, ops).clock <= at
    ensures var r := Run(limits, EMPTY, ops).registry;
            && (forall w :: |LiveInWorkspace(r, w, at)| <= limits.perWorkspace)
            && (forall o :: |LiveInOrganization(r, o, at)| <= limits.perOrganization)
            && PortsAreSound(r)
  {
    assert forall w :: LiveInWorkspace(EMPTY.registry, w, 0) == {};
    assert forall o :: LiveInOrganization(EMPTY.registry, o, 0) == {};
    RunIsSound(limits, EMPTY, ops);
    var r := Run(limits, EMPTY, ops).registry;
    LimitsHoldLater(r, limits, Run(limits, EMPTY, ops).clock, at);
    forall w ensures |LiveInWorkspace(r, w, at)| <= limits.perWorkspace {
      assert WithinWorkspace(r, limits, w, at);
    }
    forall o ensures |LiveInOrganization(r, o, at)| <= limits.perOrganization {
      assert WithinOrganization(r, limits, o, at);
    }
  }

  /** A newly allocated port is the least one of the range that no row has, and a TCP
      request is refused for want of ports exactly when it keeps none and every port of
      its range is taken. */
  lemma PortsAreLeastAndComplete(r: Registry, k: Key, request: Request)
    requires request.protocol == Tcp
    ensures PortFor(r, k, request).None?
            <==> !KeepsPort(r, k, request)
                 && forall p :: request.lowest <= p <= request.highest ==> PortTaken(r.services, p)
    ensures PortFor(r, k, request).Some? && !KeepsPort(r, k, request) ==>
              var port := PortFor(r, k, request).value;
              && port.Some? && request.lowest <= port.value <= request.highest
              && !PortTaken(r.services, port.value)
              && forall p :: request.lowest <= p < port.value ==> PortTaken(r.services, p)
  {
  }

  /** A step leaves a TCP service its port: it neither deletes the workspace nor publishes
      the service over HTTP or with a range that excludes the port. */
  predicate LeavesPort(op: Op, k: Key, port: nat) {
    && op != RemoveWorkspace(k.workspace)
    && (op.PublishService? && op.key == k ==>
          op.request.protocol == Tcp && op.request.lowest <= port <= op.request.highest)
  }

  predicate HasPort(r: Registry, k: Key, port: nat) {
    k in r.services && r.services[k].protocol == Tcp && r.services[k].ingressPort == Some(port)
  }

  lemma StepKeepsPort(limits: Limits, s: State, timed: Timed, k: Key, port: nat)
    requires HasPort(s.registry, k, port) && LeavesPort(timed.op, k, port)
    ensures HasPort(Step(limits, s, timed).registry, k, port)
  {
  }

  /** A TCP service keeps its port through every run of revocations, expiry, republications
      and steps of others, as long as every step leaves it its port. */
  lemma {:induction false} PortsAreSticky(limits: Limits, s: State, ops: seq<Timed>, k: Key, port: nat)
    requires HasPort(s.registry, k, port)
    requires forall timed | timed in ops :: LeavesPort(timed.op, k, port)
    ensures HasPort(Run(limits, s, ops).registry, k, port)
    decreases |ops|
  {
    hide Step, HasPort, LeavesPort;
    if ops != [] {
      assert ops[0] in ops;
      StepKeepsPort(limits, s, ops[0], k, port);
      PortsAreSticky(limits, Step(limits, s, ops[0]), ops[1..], k, port);
    }
  }

  // ---------------------------------------------------------- the statements

  class Database {
    var workspaces: map<Id, Id>
    var services: map<Key, Service>

    constructor ()
      ensures Contents() == EMPTY.registry
    {
      workspaces, services := map[], map[];
    }

    function Contents(): Registry
      reads this
    {
      Registry(workspaces, services)
    }

    /** Searches the range upwards for a port no row has. */
    method SearchPort(lowest: nat, highest: nat) returns (port: Option<nat>)
      ensures port == FirstFree(services, lowest, highest)
    {
      var used := set k | k in services && services[k].ingressPort.Some? :: services[k].ingressPort.value;
      assert forall p :: p in used <==> PortTaken(services, p);
      var candidate := lowest;
      while candidate <= highest
        invariant lowest <= candidate
        invariant FirstFree(services, lowest, highest) == FirstFree(services, candidate, highest)
      {
        if candidate !in used {
          return Some(candidate);
        }
        candidate := candidate + 1;
      }
      return None;
    }

    method UpsertPublishedService(limits: Limits, k: Key, request: Request, now: nat)
      returns (r: Result<Service, PublicationError>)
      modifies this`services
      ensures match Publish(old(Contents()), limits, k, request, now)
              case Err(error) => r == Err(error) && Contents() == old(Contents())
              case Ok(registry) => Contents() == registry && r == Ok(services[k])
    {
      if !PortAllowed(request.targetPort) {
        return Err(PortInvalid);
      }
      if limits.perWorkspace < 1 || limits.perWorkspace > 100
         || limits.perOrganization < 1 || limits.perOrganization > 10000 {
        return Err(LimitsInvalid);
      }
      if k.workspace !in workspaces {
        return Err(WorkspaceMissing);
      }
      if request.expiresAt.Some? {
        var ttl := request.expiresAt.value - now;
        if ttl < MINIMUM_TTL_MS || ttl > MAXIMUM_TTL_MS {
          return Err(TtlInvalid);
        }
      }
      if !AccessAllowed(request) {
        return Err(AccessInvalid);
      }
      if k !in services || !LiveAt(services[k], now) {
        var live := |LiveInWorkspace(Contents(), k.workspace, now)|;
        if live >= limits.perWorkspace {
          return Err(WorkspaceLimitReached);
        }
        var organizationLive := |LiveInOrganization(Contents(), workspaces[k.workspace], now)|;
        if organizationLive >= limits.perOrganization {
          return Err(OrganizationLimitReached);
        }
      }
      var port: Option<nat> := None;
      if request.protocol == Tcp {
        if !RangeAllowed(request.lowest, request.highest) {
          return Err(RangeInvalid);
        }
        if KeepsPort(Contents(), k, request) {
          port := services[k].ingressPort;
        } else {
          port := SearchPort(request.lowest, request.highest);
          if port.None? {
            return Err(PortsExhausted);
          }
        }
      }
      if k in services {
        var row := services[k];
        row := row.(protocol := request.protocol, targetPort := request.targetPort, ingressPort := port);
        row := row.(active := true, visibility := request.visibility, expiresAt := request.expiresAt);
        services := services[k := row];
      } else {
        if exists o | o in services :: services[o].id == request.id || services[o].slug == request.slug {
          return Err(IdentityTaken);
        }
        services := services[k := Service(
          request.id, request.slug, request.protocol, request.targetPort, port,
          request.visibility, true, request.expiresAt, now)];
      }
      return Ok(services[k]);
    }
  }
}
