/** Runs of the billing tables: deliveries in any order, seats, administration and
    membership changes interleaved, time never going back. */
module BillingRuns {
  import opened Prelude
  import opened Billing
  import opened StripeWebhook

  datatype State = State(tables: Tables, clock: nat)

  datatype Op =
    | Deliver(delivery: Delivery)
    | Interrupted(delivery: Delivery)
    | Assign(authorized: bool, organization: Id, member: Id)
    | Unassign(authorized: bool, organization: Id, member: Id)
    | AdminWrite(member: Id, row: Entitlement)
    | AdminRevoke(organization: Id, member: Id)
    | CreateOrganization(organization: Id)
    | Join(organization: Id, member: Id)
    | Disable(member: Id, disabled: bool)
    | Leave(member: Id)

  datatype Timed = Timed(op: Op, elapsed: nat)

  function OrSame(t: Tables, r: Result<Tables, BillingError>): Tables {
    if r.Ok? then r.value else t
  }

  /** A delivery cut off after its registration: the projection and the settling of the event
      are one transaction, so this is all that can be left of it. */
  function RegisteredOnly(t: Tables, d: Delivery): Tables {
    if d.createdAt.None? then t
    else
      match Register(t, d.kind, EventKey(d.createdAt.value, d.id))
      case Err(_) => t
      case Ok(r) => r.tables
  }

  ghost function StepTables(t: Tables, op: Op, now: nat): Tables {
    match op
    case Deliver(d) => Process(t, d, now).tables
    case Interrupted(d) => RegisteredOnly(t, d)
    case Assign(authorized, organization, member) =>
      OrSame(t, AssignSeat(t, authorized, organization, member, now))
    case Unassign(authorized, organization, member) =>
      OrSame(t, RevokeSeat(t, authorized, organization, member))
    case AdminWrite(member, row) =>
      if AdminMayWrite(row.source) then OrSame(t, UpsertEntitlement(t, member, row)) else t
    case AdminRevoke(organization, member) => RevokeEntitlement(t, organization, member)
    case CreateOrganization(organization) => AddOrganization(t, organization)
    case Join(organization, member) => AddMember(t, organization, member)
    case Disable(member, disabled) => SetDisabled(t, member, disabled)
    case Leave(member) => RemoveMember(t, member)
  }

  ghost function Advance(s: State, timed: Timed): State {
    var now := s.clock + timed.elapsed;
    State(StepTables(s.tables, timed.op, now), now)
  }

  ghost function Reach(s: State, ops: seq<Timed>): State
    decreases |ops|
  {
    if ops == [] then s else Reach(Advance(s, ops[0]), ops[1..])
  }

  const EMPTY: State := State(Tables({}, map[], map[], map[], map[], map[]), 0)
}
