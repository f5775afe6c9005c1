/** The Stripe billing projection: rows, entitlement access, and every
    transaction on them as a function from the tables before to the tables after.
    A transaction that throws is an Err and leaves the tables as they were. */
module Billing {
  import opened Prelude

  /** Fourteen days, in milliseconds. */
  const GRACE_MS: nat := 14 * 24 * 60 * 60 * 1000

  datatype EntitlementState = Pending | Active | Grace | Suspended | Revoked
  datatype EntitlementSource = FromBeta | FromStripe | FromAdmin
  datatype Entitlement = Entitlement(
    organization: Id, state: EntitlementState, source: EntitlementSource,
    startsAt: nat, endsAt: Option<nat>)

  datatype Member = Member(organization: Id, disabled: bool)

  /** Events are ordered by creation time, then by event id. */
  datatype EventKey = EventKey(createdAt: nat, id: Id)

  datatype CustomerFields = CustomerFields(stripeId: Id, email: Option<Id>, country: Option<Id>)
  datatype Customer = Customer(key: EventKey, fields: CustomerFields)

  datatype Status = StatusActive | StatusTrialing | StatusOther(name: Id)
  datatype SubscriptionFields = SubscriptionFields(
    stripeId: Id, price: Id, status: Status, seats: nat,
    cancelAtPeriodEnd: bool, periodEnd: Option<nat>)
  datatype PaymentState = PaidUp | InGrace | Delinquent
  datatype Subscription = Subscription(
    key: EventKey, fields: SubscriptionFields,
    payment: PaymentState, graceEndsAt: Option<nat>, invoiceKey: Option<EventKey>)

  datatype EventType =
    | CustomerCreated | CustomerUpdated | CheckoutCompleted
    | SubscriptionCreated | SubscriptionUpdated | SubscriptionDeleted
    | InvoicePaid | InvoicePaymentFailed
    | OtherType(name: Id)
  datatype EventResult = EventPending | EventApplied | EventIgnored | EventFailed
  datatype StripeEvent = StripeEvent(kind: EventType, createdAt: nat, result: EventResult, attempts: nat)

  datatype Tables = Tables(
    organizations: set<Id>,
    members: map<Id, Member>,
    customers: map<Id, Customer>,
    subscriptions: map<Id, Subscription>,
    entitlements: map<Id, Entitlement>,
    events: map<Id, StripeEvent>)

  datatype BillingError =
    | EventIdInvalid | EventTimeInvalid | IdentityConflict | ObjectInvalid
    | OrganizationMissing | TextInvalid | StripeIdTaken
    | SeatQuantityConflict | EndNotAfterStart | InvoiceSubscriptionMissing
    | AccessDenied | SubscriptionRequired | SeatsExhausted
    | EntitlementInvalid | MembershipMissing

  predicate After(a: EventKey, b: EventKey) {
    a.createdAt > b.createdAt || (a.createdAt == b.createdAt && a.id > b.id)
  }

  // ---------------------------------------------------------------- access

  datatype Access = Access(state: EntitlementState, endsAt: Option<nat>)

  /** The access a subscription grants at one moment. */
  function AccessAt(sub: Subscription, now: nat): Access {
    if sub.payment == InGrace && sub.graceEndsAt.Some? && sub.graceEndsAt.value > now then
      Access(Grace, sub.graceEndsAt)
    else if
      && sub.payment == PaidUp
      && (sub.fields.status == StatusActive || sub.fields.status == StatusTrialing)
      && (sub.fields.periodEnd.None? || sub.fields.periodEnd.value > now)
    then
      Access(Active, sub.fields.periodEnd)
    else
      Access(Suspended, sub.graceEndsAt)
  }

  /** The row conditions of the entitlement lookup: state and time window. */
  predicate InForce(e: Entitlement, now: nat) {
    && (e.state == Active || e.state == Grace)
    && e.startsAt <= now
    && (e.endsAt.None? || e.endsAt.value > now)
  }

  predicate HasActiveEntitlement(t: Tables, member: Id, organization: Id, now: nat) {
    && member in t.entitlements
    && t.entitlements[member].organization == organization
    && InForce(t.entitlements[member], now)
    && member in t.members
    && t.members[member].organization == organization
    && !t.members[member].disabled
  }

  /** The table constraint on entitlement windows. */
  predicate EndsAfterStart(e: Entitlement) {
    e.endsAt.Some? ==> e.endsAt.value > e.startsAt
  }

  predicate HoldsSeat(e: Entitlement, organization: Id) {
    e.organization == organization && e.source == FromStripe && e.state != Revoked
  }

  function SeatHolders(ents: map<Id, Entitlement>, organization: Id): set<Id> {
    set m | m in ents && HoldsSeat(ents[m], organization)
  }

  /** The bulk update that copies an access onto every held seat. */
  function Rewritten(ents: map<Id, Entitlement>, organization: Id, access: Access): map<Id, Entitlement> {
    map m | m in ents ::
      if HoldsSeat(ents[m], organization)
      then ents[m].(state := access.state, endsAt := access.endsAt)
      else ents[m]
  }

  /** The bulk update under the window constraint: one bad row aborts it. */
  function Reconcile(ents: map<Id, Entitlement>, sub: Subscription, organization: Id, now: nat)
    : Result<map<Id, Entitlement>, BillingError>
  {
    var after := Rewritten(ents, organization, AccessAt(sub, now));
    if forall m :: m in SeatHolders(ents, organization) ==> EndsAfterStart(after[m]) then Ok(after)
    else Err(EndNotAfterStart)
  }

  // ---------------------------------------------------------------- events

  predicate Settled(e: StripeEvent) {
    e.result == EventApplied || e.result == EventIgnored
  }

  datatype Registered = Registered(tables: Tables, inserted: bool)

  function Register(t: Tables, kind: EventType, key: EventKey): Result<Registered, BillingError> {
    if key.id == 0 then Err(EventIdInvalid)
    else if key.id !in t.events then
      Ok(Registered(
           t.(events := t.events[key.id := StripeEvent(kind, key.createdAt, EventPending, 0)]), true))
    else if t.events[key.id].kind != kind || t.events[key.id].createdAt != key.createdAt then
      Err(IdentityConflict)
    else Ok(Registered(t, false))
  }

  function Complete(t: Tables, id: Id, result: EventResult): Tables
    requires id in t.events
  {
    var e := t.events[id];
    t.(events := t.events[id := e.(result := result, attempts := e.attempts + 1)])
  }

  datatype Reply =
    | Duplicate(result: EventResult)
    | Processed(result: EventResult)
    | Threw(error: BillingError)

  datatype Delivered = Delivered(tables: Tables, reply: Reply)

  /** Marks an event ignored unless it is settled already. */
  function IgnoreEvent(t: Tables, kind: EventType, key: EventKey): Delivered {
    match Register(t, kind, key)
    case Err(error) => Delivered(t, Threw(error))
    case Ok(r) =>
      var e := r.tables.events[key.id];
      if Settled(e) then Delivered(r.tables, Duplicate(e.result))
      else Delivered(Complete(r.tables, key.id, EventIgnored), Processed(EventIgnored))
  }

  /** Marks an event failed unless it is settled already. */
  function FailEvent(t: Tables, kind: EventType, key: EventKey): Tables {
    match Register(t, kind, key)
    case Err(_) => t
    case Ok(r) =>
      if Settled(r.tables.events[key.id]) then r.tables
      else Complete(r.tables, key.id, EventFailed)
  }

  // ----------------------------------------------------------- projections

  datatype CustomerInput = CustomerInput(fields: CustomerFields, textValid: bool)
  datatype SubscriptionInput = SubscriptionInput(fields: SubscriptionFields, textValid: bool)

  datatype Projected = Projected(tables: Tables, applied: bool)

  function ProjectCustomer(t: Tables, organization: Id, key: EventKey, input: CustomerInput)
    : Result<Projected, BillingError>
  {
    if !input.textValid || input.fields.stripeId == 0 then Err(TextInvalid)
    else if organization in t.customers && !After(key, t.customers[organization].key) then
      Ok(Projected(t, false))
    else if exists o :: o in t.customers && o != organization
                        && t.customers[o].fields.stripeId == input.fields.stripeId then
      Err(StripeIdTaken)
    else
      Ok(Projected(t.(customers := t.customers[organization := Customer(key, input.fields)]), true))
  }

  /** The row a subscription snapshot leaves: billing fields are replaced,
      payment and grace are carried over. */
  function Snapshot(t: Tables, organization: Id, key: EventKey, fields: SubscriptionFields): Subscription {
    if organization in t.subscriptions then
      t.subscriptions[organization].(key := key, fields := fields)
    else
      Subscription(key, fields, PaidUp, None, None)
  }

  function ProjectSubscription(
    t: Tables, organization: Id, key: EventKey, input: SubscriptionInput, now: nat)
    : Result<Projected, BillingError>
  {
    var stale := organization in t.subscriptions && !After(key, t.subscriptions[organization].key);
    if input.fields.seats < |SeatHolders(t.entitlements, organization)| then Err(SeatQuantityConflict)
    else if !input.textValid || input.fields.stripeId == 0 then Err(TextInvalid)
    else if !stale && exists o :: o in t.subscriptions && o != organization
                                  && t.subscriptions[o].fields.stripeId == input.fields.stripeId then
      Err(StripeIdTaken)
    else
      var row := if stale then t.subscriptions[organization] else Snapshot(t, organization, key, input.fields);
      match Reconcile(t.entitlements, row, organization, now)
      case Err(error) => Err(error)
      case Ok(ents) =>
        Ok(Projected(
             t.(subscriptions := t.subscriptions[organization := row], entitlements := ents), !stale))
  }

  /** What one billing event asks to be written. */
  datatype Projection = Projection(
    organization: Id, customer: Option<CustomerInput>, subscription: Option<SubscriptionInput>)

  function ProjectBoth(t: Tables, key: EventKey, p: Projection, now: nat): Result<Projected, BillingError> {
    if p.organization == 0 || p.organization !in t.organizations then Err(OrganizationMissing)
    else
      var first :=
        if p.customer.Some? then ProjectCustomer(t, p.organization, key, p.customer.value)
        else Ok(Projected(t, false));
      match first
      case Err(error) => Err(error)
      case Ok(c) =>
        if p.subscription.None? then first
        else
          match ProjectSubscription(c.tables, p.organization, key, p.subscription.value, now)
          case Err(error) => Err(error)
          case Ok(s) => Ok(Projected(s.tables, c.applied || s.applied))
  }

  function ApplyBilling(t: Tables, kind: EventType, key: EventKey, p: Projection, now: nat): Delivered {
    match Register(t, kind, key)
    case Err(error) => Delivered(t, Threw(error))
    case Ok(r) =>
      var e := r.tables.events[key.id];
      if Settled(e) then Delivered(r.tables, Duplicate(e.result))
      else
        match ProjectBoth(r.tables, key, p, now)
        case Err(error) => Delivered(Complete(r.tables, key.id, EventFailed), Threw(error))
        case Ok(done) =>
          var result := if done.applied then EventApplied else EventIgnored;
          Delivered(Complete(done.tables, key.id, result), Processed(result))
  }

  /** An organization whose row has a Stripe id, if any. */
  ghost function OwnerOf<T>(rows: map<Id, T>, idOf: T -> Id, stripeId: Id): (o: Option<Id>)
    ensures o.Some? ==> o.value in rows && idOf(rows[o.value]) == stripeId
    ensures o.None? ==> forall k :: k in rows ==> idOf(rows[k]) != stripeId
  {
    if exists k :: k in rows && idOf(rows[k]) == stripeId then
      var k :| k in rows && idOf(rows[k]) == stripeId;
      Some(k)
    else None
  }

  const SubscriptionId: Subscription -> Id := (s: Subscription) => s.fields.stripeId
  const CustomerId: Customer -> Id := (c: Customer) => c.fields.stripeId

  ghost function SubscriptionOwner(subs: map<Id, Subscription>, stripeId: Id): (o: Option<Id>)
    ensures o.Some? ==> o.value in subs && subs[o.value].fields.stripeId == stripeId
    ensures o.None? ==> forall k :: k in subs ==> subs[k].fields.stripeId != stripeId
  {
    OwnerOf(subs, SubscriptionId, stripeId)
  }

  ghost function CustomerOwner(customers: map<Id, Customer>, stripeId: Id): (o: Option<Id>)
    ensures o.Some? ==> o.value in customers && customers[o.value].fields.stripeId == stripeId
    ensures o.None? ==> forall k :: k in customers ==> customers[k].fields.stripeId != stripeId
  {
    OwnerOf(customers, CustomerId, stripeId)
  }

  /** The row one newer invoice event leaves: payment clears the grace end,
      a failure sets it only when there is none. */
  function AfterInvoice(sub: Subscription, key: EventKey, paid: bool, now: nat): Subscription {
    if paid then
      sub.(payment := PaidUp, graceEndsAt := None, invoiceKey := Some(key))
    else
      var end := if sub.graceEndsAt.Some? then sub.graceEndsAt.value else key.createdAt + GRACE_MS;
      sub.(payment := if end > now then InGrace else Delinquent,
           graceEndsAt := Some(end), invoiceKey := Some(key))
  }

  ghost function ProjectInvoice(t: Tables, key: EventKey, paid: bool, stripeId: Id, now: nat)
    : Result<Projected, BillingError>
  {
    match SubscriptionOwner(t.subscriptions, stripeId)
    case None => Err(InvoiceSubscriptionMissing)
    case Some(organization) =>
      var sub := t.subscriptions[organization];
      if sub.invoiceKey.Some? && !After(key, sub.invoiceKey.value) then Ok(Projected(t, false))
      else
        var row := AfterInvoice(sub, key, paid, now);
        match Reconcile(t.entitlements, row, organization, now)
        case Err(error) => Err(error)
        case Ok(ents) =>
          Ok(Projected(
               t.(subscriptions := t.subscriptions[organization := row], entitlements := ents), true))
  }

  ghost function ApplyInvoice(t: Tables, key: EventKey, paid: bool, stripeId: Id, now: nat): Delivered {
    var kind := if paid then InvoicePaid else InvoicePaymentFailed;
    match Register(t, kind, key)
    case Err(error) => Delivered(t, Threw(error))
    case Ok(r) =>
      var e := r.tables.events[key.id];
      if Settled(e) then Delivered(r.tables, Duplicate(e.result))
      else
        match ProjectInvoice(r.tables, key, paid, stripeId, now)
        case Err(error) =>
          Delivered(FailEvent(r.tables, kind, key), Threw(error))
        case Ok(done) =>
          var result := if done.applied then EventApplied else EventIgnored;
          Delivered(Complete(done.tables, key.id, result), Processed(result))
  }

  // ----------------------------------------------------------------- seats

  function AssignSeat(t: Tables, authorized: bool, organization: Id, member: Id, now: nat)
    : Result<Tables, BillingError>
  {
    if !authorized then Err(AccessDenied)
    else if
      || member !in t.members
      || t.members[member].organization != organization
      || t.members[member].disabled
    then Err(AccessDenied)
    else if organization !in t.subscriptions then Err(SubscriptionRequired)
    else if |SeatHolders(t.entitlements, organization) - {member}|
            >= t.subscriptions[organization].fields.seats then
      Err(SeatsExhausted)
    else
      var access := AccessAt(t.subscriptions[organization], now);
      var row := Entitlement(organization, access.state, FromStripe, now, access.endsAt);
      if !EndsAfterStart(row) then Err(EndNotAfterStart)
      else Ok(t.(entitlements := t.entitlements[member := row]))
  }

  function RevokeSeat(t: Tables, authorized: bool, organization: Id, member: Id): Result<Tables, BillingError> {
    if !authorized then Err(AccessDenied)
    else if member in t.entitlements && HoldsSeat(t.entitlements[member], organization) then
      Ok(t.(entitlements := t.entitlements[member := t.entitlements[member].(state := Revoked)]))
    else Ok(t)
  }

  /** The request check of the administration route: only two sources may be written. */
  predicate AdminMayWrite(source: EntitlementSource) {
    source == FromBeta || source == FromAdmin
  }

  function UpsertEntitlement(t: Tables, member: Id, row: Entitlement): Result<Tables, BillingError> {
    if !EndsAfterStart(row) then Err(EntitlementInvalid)
    else if row.source == FromBeta && row.endsAt.None? then Err(EntitlementInvalid)
    else if member !in t.members || t.members[member].organization != row.organization then
      Err(MembershipMissing)
    else Ok(t.(entitlements := t.entitlements[member := row]))
  }

  function RevokeEntitlement(t: Tables, organization: Id, member: Id): Tables {
    if member in t.entitlements && t.entitlements[member].organization == organization then
      t.(entitlements := t.entitlements[member := t.entitlements[member].(state := Revoked)])
    else t
  }

  // --------------------------------------------------------------- members

  function AddOrganization(t: Tables, organization: Id): Tables {
    t.(organizations := t.organizations + {organization})
  }

  function AddMember(t: Tables, organization: Id, member: Id): Tables {
    if organization in t.organizations && member !in t.members then
      t.(members := t.members[member := Member(organization, false)])
    else t
  }

  function SetDisabled(t: Tables, member: Id, disabled: bool): Tables {
    if member in t.members then
      t.(members := t.members[member := t.members[member].(disabled := disabled)])
    else t
  }

  /** Removing a member cascades to the entitlement row. */
  function RemoveMember(t: Tables, member: Id): Tables {
    t.(members := t.members - {member}, entitlements := t.entitlements - {member})
  }
}
