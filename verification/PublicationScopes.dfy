/** What a published connection is counted against: everything, its worker, its organization
    and its route. */
module PublicationScopes {
  import opened Prelude

  datatype Scope = Scope(worker: Id, organization: Id, route: Id)
  datatype Level = GlobalLevel | WorkerLevel | OrganizationLevel | RouteLevel

  /** The one key of the global table. */
  const GLOBAL: Id := 0

  function KeyAt(scope: Scope, level: Level): Id {
    match level
    case GlobalLevel => GLOBAL
    case WorkerLevel => scope.worker
    case OrganizationLevel => scope.organization
    case RouteLevel => scope.route
  }
}
