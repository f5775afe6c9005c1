/** The publication connection limiter: counted leases at four levels, updated in place,
    beside the set of leases it has handed out. */
module ConnectionLimiter {
  import opened Prelude
  import opened PublicationScopes

  datatype Limits = Limits(global: int, worker: int, organization: int, route: int)

  function LimitAt(limits: Limits, level: Level): int {
    match level
    case GlobalLevel => limits.global
    case WorkerLevel => limits.worker
    case OrganizationLevel => limits.organization
    case RouteLevel => limits.route
  }

  /** The limits a limiter accepts: all positive, none above the global one. */
  predicate Acceptable(limits: Limits) {
    forall level: Level :: 1 <= LimitAt(limits, level) <= limits.global
  }

  /** A slot taken by one connection, with the flag of its release closure. */
  class Lease {
    const scope: Scope
    var released: bool

    constructor (scope: Scope)
      ensures this.scope == scope && !released
    {
      this.scope := scope;
      released := false;
    }
  }

  /** The leases counted under a key of a level. */
  ghost function On(leases: set<Lease>, level: Level, key: Id): set<Lease> {
    set l | l in leases && KeyAt(l.scope, level) == key
  }

  /** Every level has room for one more lease of a scope. */
  ghost predicate HasRoom(limits: Limits, leases: set<Lease>, scope: Scope) {
    forall level: Level :: |On(leases, level, KeyAt(scope, level))| < LimitAt(limits, level)
  }

  lemma RoomIsEveryLevel(limits: Limits, leases: set<Lease>, scope: Scope)
    ensures HasRoom(limits, leases, scope) <==>
            && |On(leases, GlobalLevel, GLOBAL)| < limits.global
            && |On(leases, WorkerLevel, scope.worker)| < limits.worker
            && |On(leases, OrganizationLevel, scope.organization)| < limits.organization
            && |On(leases, RouteLevel, scope.route)| < limits.route
  {
    hide On;
    assert LimitAt(limits, GlobalLevel) == limits.global && KeyAt(scope, GlobalLevel) == GLOBAL;
    assert LimitAt(limits, WorkerLevel) == limits.worker && KeyAt(scope, WorkerLevel) == scope.worker;
    assert LimitAt(limits, OrganizationLevel) == limits.organization
           && KeyAt(scope, OrganizationLevel) == scope.organization;
    assert LimitAt(limits, RouteLevel) == limits.route && KeyAt(scope, RouteLevel) == scope.route;
  }

  function CountIn(rows: map<Id, nat>, key: Id): nat {
    if key in rows then rows[key] else 0
  }

  /** A table counts the leases of a level: each key's count is the number of leases with
      that key, within the limit, and a key without leases has no entry. */
  ghost predicate Counts(rows: map<Id, nat>, leases: set<Lease>, level: Level, limit: int) {
    forall key: Id ::
      && CountIn(rows, key) == |On(leases, level, key)| <= limit
      && (key in rows ==> rows[key] > 0)
  }

  lemma OnAdded(leases: set<Lease>, lease: Lease, level: Level, key: Id)
    requires lease !in leases
    ensures |On(leases + {lease}, level, key)|
            == |On(leases, level, key)| + if KeyAt(lease.scope, level) == key then 1 else 0
  {
    var after := On(leases + {lease}, level, key);
    if KeyAt(lease.scope, level) == key {
      assert after == On(leases, level, key) + {lease};
    } else {
      assert after == On(leases, level, key);
    }
  }

  lemma EveryLeaseIsGlobal(leases: set<Lease>)
    ensures On(leases, GlobalLevel, GLOBAL) == leases
  {
  }

  /** Raising one key's count follows one more lease. */
  lemma CountsAdded(rows: map<Id, nat>, leases: set<Lease>, level: Level, limit: int, lease: Lease)
    requires Counts(rows, leases, level, limit)
    requires lease !in leases && CountIn(rows, KeyAt(lease.scope, level)) < limit
    ensures var key := KeyAt(lease.scope, level);
            Counts(rows[key := CountIn(rows, key) + 1], leases + {lease}, level, limit)
  {
    forall key: Id {
      OnAdded(leases, lease, level, key);
    }
  }

  /** A table after one lease of a key is gone: a count that reaches zero has no entry. */
  function Lowered(rows: map<Id, nat>, key: Id): map<Id, nat> {
    if CountIn(rows, key) > 1 then rows[key := rows[key] - 1] else rows - {key}
  }

  /** Lowering one key's count follows one lease fewer. */
  lemma CountsRemoved(rows: map<Id, nat>, leases: set<Lease>, level: Level, limit: int, lease: Lease)
    requires Counts(rows, leases, level, limit) && lease in leases
    ensures Counts(Lowered(rows, KeyAt(lease.scope, level)), leases - {lease}, level, limit)
  {
    assert leases == (leases - {lease}) + {lease};
    forall key: Id {
      OnAdded(leases - {lease}, lease, level, key);
    }
  }

  class Limiter {
    const limits: Limits
    var global: nat
    var workers: map<Id, nat>
    var organizations: map<Id, nat>
    var routes: map<Id, nat>
    ghost var handedOut: set<Lease>

    /** The leases handed out and not yet released. */
    ghost function Live(): set<Lease>
      reads this, handedOut
    {
      set l | l in handedOut && !l.released
    }

    ghost predicate CountsExactly(live: set<Lease>)
      reads this
    {
      && global == |live| <= limits.global
      && Counts(workers, live, WorkerLevel, limits.worker)
      && Counts(organizations, live, OrganizationLevel, limits.organization)
      && Counts(routes, live, RouteLevel, limits.route)
    }

    ghost predicate Valid()
      reads this, handedOut
    {
      Acceptable(limits) && CountsExactly(Live())
    }

    constructor (limits: Limits)
      requires Acceptable(limits)
      ensures Valid() && this.limits == limits && handedOut == {}
    {
      this.limits := limits;
      global, workers, organizations, routes := 0, map[], map[], map[];
      handedOut := {};
      new;
      AcceptableIsEveryLevel(limits);
      forall level: Level, key: Id ensures On({}, level, key) == {} {
      }
      assert Live() == {};
    }

    /** Takes a slot exactly when every level has room for one more live lease. */
    method TryAcquire(scope: Scope) returns (lease: Lease?)
      requires Valid()
      modifies this
      ensures Valid()
      ensures lease != null <==> old(HasRoom(limits, Live(), scope))
      ensures lease == null ==> handedOut == old(handedOut) && Live() == old(Live())
      ensures lease != null ==>
                && fresh(lease) && lease.scope == scope
                && handedOut == old(handedOut) + {lease}
                && Live() == old(Live()) + {lease}
    {
      hide Counts;
      RoomIsCounted(scope);
      var worker := CountIn(workers, scope.worker);
      var organization := CountIn(organizations, scope.organization);
      var route := CountIn(routes, scope.route);
      if global >= limits.global || worker >= limits.worker
         || organization >= limits.organization || route >= limits.route {
        return null;
      }
      lease := new Lease(scope);
      CountedAfterAcquiring(Live(), lease);
      global := global + 1;
      workers := workers[scope.worker := worker + 1];
      organizations := organizations[scope.organization := organization + 1];
      routes := routes[scope.route := route + 1];
      handedOut := handedOut + {lease};
      assert Live() == old(Live()) + {lease};
    }

    /** Gives a slot back the first time; later calls change nothing. */
    method Release(lease: Lease)
      requires Valid() && lease in handedOut
      modifies this`global, this`workers, this`organizations, this`routes, lease
      ensures Valid() && lease.released
      ensures Live() == old(Live()) - {lease}
    {
      hide Counts;
      if lease.released {
        return;
      }
      CountedAfterReleasing(Live(), lease);
      lease.released := true;
      global := global - 1;
      workers := Decrement(workers, lease.scope.worker);
      organizations := Decrement(organizations, lease.scope.organization);
      routes := Decrement(routes, lease.scope.route);
      assert Live() == old(Live()) - {lease};
    }

    method Decrement(rows: map<Id, nat>, key: Id) returns (after: map<Id, nat>)
      ensures after == Lowered(rows, key)
    {
      var held: int := if key in rows then rows[key] else 1;
      var remaining := held - 1;
      if remaining > 0 {
        return rows[key := remaining];
      } else {
        return rows - {key};
      }
    }

    lemma RoomIsCounted(scope: Scope)
      requires Valid()
      ensures HasRoom(limits, Live(), scope) <==>
              && global < limits.global
              && CountIn(workers, scope.worker) < limits.worker
              && CountIn(organizations, scope.organization) < limits.organization
              && CountIn(routes, scope.route) < limits.route
    {
      var live := Live();
      EveryLeaseIsGlobal(live);
      assert HasRoom(limits, live, scope) <==>
             && |On(live, GlobalLevel, GLOBAL)| < limits.global
             && |On(live, WorkerLevel, scope.worker)| < limits.worker
             && |On(live, OrganizationLevel, scope.organization)| < limits.organization
             && |On(live, RouteLevel, scope.route)| < limits.route by {
        RoomIsEveryLevel(limits, live, scope);
      }
    }

    lemma CountedAfterAcquiring(live: set<Lease>, lease: Lease)
      requires CountsExactly(live) && lease !in live
      requires global < limits.global
      requires CountIn(workers, lease.scope.worker) < limits.worker
      requires CountIn(organizations, lease.scope.organization) < limits.organization
      requires CountIn(routes, lease.scope.route) < limits.route
      ensures var s, after := lease.scope, live + {lease};
              && Counts(workers[s.worker := CountIn(workers, s.worker) + 1], after, WorkerLevel, limits.worker)
              && Counts(organizations[s.organization := CountIn(organizations, s.organization) + 1], after,
                        OrganizationLevel, limits.organization)
              && Counts(routes[s.route := CountIn(routes, s.route) + 1], after, RouteLevel, limits.route)
    {
      hide Counts;
      CountsAdded(workers, live, WorkerLevel, limits.worker, lease);
      CountsAdded(organizations, live, OrganizationLevel, limits.organization, lease);
      CountsAdded(routes, live, RouteLevel, limits.route, lease);
    }

    lemma CountedAfterReleasing(live: set<Lease>, lease: Lease)
      requires CountsExactly(live) && lease in live
      ensures global > 0
      ensures var s, after := lease.scope, live - {lease};
              && |after| == global - 1
              && Counts(Lowered(workers, s.worker), after, WorkerLevel, limits.worker)
              && Counts(Lowered(organizations, s.organization), after, OrganizationLevel, limits.organization)
              && Counts(Lowered(routes, s.route), after, RouteLevel, limits.route)
    {
      hide Counts;
      SizeWithout(live, lease);
      CountsRemoved(workers, live, WorkerLevel, limits.worker, lease);
      CountsRemoved(organizations, live, OrganizationLevel, limits.organization, lease);
      CountsRemoved(routes, live, RouteLevel, limits.route, lease);
    }

    /** The four levels as one statement: at every level, a key's count is the number of
        live leases with that key, within the limit. */
    lemma LeasesAreConserved(level: Level, key: Id)
      requires Valid()
      requires level == GlobalLevel ==> key == GLOBAL
      ensures CountAt(level, key) == |On(Live(), level, key)| <= LimitAt(limits, level)
      ensures level != GlobalLevel ==> (key in Rows(level) <==> On(Live(), level, key) != {})
    {
      EveryLeaseIsGlobal(Live());
      assert level == WorkerLevel ==> CountIn(workers, key) == |On(Live(), WorkerLevel, key)|;
      assert level == OrganizationLevel ==> CountIn(organizations, key) == |On(Live(), OrganizationLevel, key)|;
      assert level == RouteLevel ==> CountIn(routes, key) == |On(Live(), RouteLevel, key)|;
    }

    function Rows(level: Level): map<Id, nat>
      requires level != GlobalLevel
      reads this
    {
      if level == WorkerLevel then workers
      else if level == OrganizationLevel then organizations
      else routes
    }

    function CountAt(level: Level, key: Id): nat
      reads this
    {
      if level == GlobalLevel then global else CountIn(Rows(level), key)
    }
  }

  /** Builds a limiter, refusing limits that are not positive or exceed the global one. */
  method Configure(limits: Limits) returns (limiter: Limiter?)
    ensures limiter == null <==> !Acceptable(limits)
    ensures limiter != null ==> fresh(limiter) && limiter.Valid() && limiter.limits == limits && limiter.handedOut == {}
  {
    AcceptableIsEveryLevel(limits);
    if limits.global < 1 || limits.worker < 1 || limits.organization < 1 || limits.route < 1 {
      return null;
    }
    if limits.worker > limits.global || limits.organization > limits.global || limits.route > limits.global {
      return null;
    }
    limiter := new Limiter(limits);
  }

  lemma AcceptableIsEveryLevel(limits: Limits)
    ensures Acceptable(limits) <==>
            && 1 <= limits.global
            && 1 <= limits.worker <= limits.global
            && 1 <= limits.organization <= limits.global
            && 1 <= limits.route <= limits.global
  {
    assert LimitAt(limits, WorkerLevel) == limits.worker;
    assert LimitAt(limits, OrganizationLevel) == limits.organization;
    assert LimitAt(limits, RouteLevel) == limits.route;
    assert LimitAt(limits, GlobalLevel) == limits.global;
  }
}
