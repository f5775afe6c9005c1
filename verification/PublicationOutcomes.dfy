/** What publishing and revoking come to, read back from the columns. */
module PublicationOutcomes {
  import opened Prelude
  import opened Publications

  predicate Live(s: Service, now: nat) {
    s.active && (s.expiresAt.Some? ==> now < s.expiresAt.value)
  }

  /** The live services of a workspace, and of an organization. */
  function LiveOfWorkspace(r: Registry, w: Id, now: nat): set<Key> {
    set k | k in r.services && k.workspace == w && Live(r.services[k], now)
  }

  function LiveOfOrganization(r: Registry, o: Id, now: nat): set<Key> {
    set k | k in r.services && k.workspace in r.workspaces && r.workspaces[k.workspace] == o && Live(r.services[k], now)
  }

  predicate Used(r: Registry, port: nat) {
    exists k :: k in r.services && r.services[k].ingressPort == Some(port)
  }

  /** The service is a TCP one with a port inside the range. */
  predicate HasPortInRange(r: Registry, k: Key, request: Request) {
    && k in r.services && r.services[k].protocol == Tcp && r.services[k].ingressPort.Some?
    && request.lowest <= r.services[k].ingressPort.value <= request.highest
  }

  /** The port a published row has: none over HTTP; over TCP the one it had, or else the least
      one of the range that no row has. */
  predicate PortGiven(r: Registry, k: Key, request: Request, port: Option<nat>) {
    if request.protocol == Http then port.None?
    else if HasPortInRange(r, k, request) then port == r.services[k].ingressPort
    else
      && port.Some? && request.lowest <= port.value <= request.highest && !Used(r, port.value)
      && forall p :: request.lowest <= p < port.value ==> Used(r, p)
  }

  /** The requests refused for what they say themselves. */
  function SelfRefusal(r: Registry, limits: Limits, k: Key, request: Request, now: nat): Option<PublicationError> {
    if request.targetPort < 1024 || request.targetPort > 65535 || request.targetPort == 7777 then Some(PortInvalid)
    else if limits.perWorkspace < 1 || limits.perWorkspace > 100
            || limits.perOrganization < 1 || limits.perOrganization > 10000 then Some(LimitsInvalid)
    else if k.workspace !in r.workspaces then Some(WorkspaceMissing)
    else if request.expiresAt.Some?
            && (request.expiresAt.value < now + 300000 || request.expiresAt.value > now + 604800000) then
      Some(TtlInvalid)
    else if request.visibility == MalformedAccess || (request.protocol == Tcp && request.visibility != Public) then
      Some(AccessInvalid)
    else None
  }

  /** A publication, by columns: the refusals in their order, the limits counting what is live
      unless the service itself is; otherwise the requested columns, with the identity and the
      creation time a known service had, and no other row changes. */
  lemma PublicationLeaves(r: Registry, limits: Limits, k: Key, request: Request, now: nat)
    ensures var out, refusal := Publish(r, limits, k, request, now), SelfRefusal(r, limits, k, request, now);
            if refusal.Some? then out == Err(refusal.value)
            else
              var known, counted := k in r.services, !(k in r.services && Live(r.services[k], now));
              if counted && |LiveOfWorkspace(r, k.workspace, now)| >= limits.perWorkspace then
                out == Err(WorkspaceLimitReached)
              else if counted && |LiveOfOrganization(r, r.workspaces[k.workspace], now)| >= limits.perOrganization then
                out == Err(OrganizationLimitReached)
              else if request.protocol == Tcp
                      && !(1024 <= request.lowest <= request.highest <= 65535
                           && (request.highest < 7777 || 7777 < request.lowest)) then
                out == Err(RangeInvalid)
              else if request.protocol == Tcp && !HasPortInRange(r, k, request)
                      && forall p :: request.lowest <= p <= request.highest ==> Used(r, p) then
                out == Err(PortsExhausted)
              else if !known && exists o :: o in r.services
                                            && (r.services[o].id == request.id || r.services[o].slug == request.slug)
              then out == Err(IdentityTaken)
              else
                && out.Ok? && k in out.value.services
                && var row := out.value.services[k];
                   && out.value == Registry(r.workspaces, r.services[k := row])
                   && PortGiven(r, k, request, row.ingressPort)
                   && row == Service(
                        if known then r.services[k].id else request.id,
                        if known then r.services[k].slug else request.slug,
                        request.protocol, request.targetPort, row.ingressPort, request.visibility, true,
                        request.expiresAt, if known then r.services[k].createdAt else now)
  {
    hide FirstFree;
    assert LiveOfWorkspace(r, k.workspace, now) == LiveInWorkspace(r, k.workspace, now);
    if k.workspace in r.workspaces {
      var o := r.workspaces[k.workspace];
      assert LiveOfOrganization(r, o, now) == LiveInOrganization(r, o, now);
    }
    PortIsGiven(r, k, request);
  }

  lemma PortIsGiven(r: Registry, k: Key, request: Request)
    ensures var port := PortFor(r, k, request);
            && (port.Some? ==> PortGiven(r, k, request, port.value))
            && (port.None? <==>
                  && request.protocol == Tcp && !HasPortInRange(r, k, request)
                  && forall p :: request.lowest <= p <= request.highest ==> Used(r, p))
  {
    assert forall p :: PortTaken(r.services, p) <==> Used(r, p);
  }

  /** Revocations, by columns: of one service, or of all of an organization. */
  lemma RevocationsLeave(r: Registry, k: Key, o: Id)
    ensures Revoke(r, k) == if k in r.services then r.(services := r.services[k := r.services[k].(active := false)])
                            else r
    ensures var r' := RevokeOrganization(r, o);
            && r'.workspaces == r.workspaces && r'.services.Keys == r.services.Keys
            && forall j :: j in r.services ==>
                 r'.services[j] == if j.workspace in r.workspaces && r.workspaces[j.workspace] == o
                                   then r.services[j].(active := false) else r.services[j]
  {
  }
}
