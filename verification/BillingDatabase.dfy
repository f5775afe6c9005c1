/** The billing tables as the control plane updates them: each method performs the
    statements of one transaction in order, restores the saved tables when one throws,
    and is proved to compute the transaction of module Billing. */
module BillingDatabase {
  import opened Prelude
  import opened Billing
  import opened StripeWebhook
  import opened BillingInvariants

  class Database {
    var organizations: set<Id>
    var members: map<Id, Member>
    var customers: map<Id, Customer>
    var subscriptions: map<Id, Subscription>
    var entitlements: map<Id, Entitlement>
    var events: map<Id, StripeEvent>

    constructor ()
      ensures Contents() == Tables({}, map[], map[], map[], map[], map[])
    {
      organizations, members, customers := {}, map[], map[];
      subscriptions, entitlements, events := map[], map[], map[];
    }

    function Contents(): Tables
      reads this
    {
      Tables(organizations, members, customers, subscriptions, entitlements, events)
    }

    /** Puts back the tables saved when a transaction began. */
    method Rollback(saved: Tables)
      modifies this
      ensures Contents() == saved
    {
      organizations, members, customers := saved.organizations, saved.members, saved.customers;
      subscriptions, entitlements, events := saved.subscriptions, saved.entitlements, saved.events;
    }

    method HasActive(member: Id, organization: Id, now: nat) returns (active: bool)
      ensures active == HasActiveEntitlement(Contents(), member, organization, now)
    {
      if member !in entitlements || member !in members {
        return false;
      }
      var row, owner := entitlements[member], members[member];
      active :=
        && row.organization == organization
        && row.state in {Active, Grace}
        && row.startsAt <= now
        && (row.endsAt.None? || row.endsAt.value > now)
        && owner.organization == row.organization
        && !owner.disabled;
    }

    /** Inserts the event unless its id is taken, then compares what is stored. */
    method RegisterEvent(kind: EventType, key: EventKey) returns (r: Result<bool, BillingError>)
      modifies this`events
      ensures match Register(old(Contents()), kind, key)
              case Err(error) => r == Err(error) && Contents() == old(Contents())
              case Ok(done) => r == Ok(done.inserted) && Contents() == done.tables && key.id in events
    {
      if key.id == 0 {
        return Err(EventIdInvalid);
      }
      var inserted := key.id !in events;
      if inserted {
        events := events[key.id := StripeEvent(kind, key.createdAt, EventPending, 0)];
      }
      var row := events[key.id];
      if row.kind != kind || row.createdAt != key.createdAt {
        return Err(IdentityConflict);
      }
      return Ok(inserted);
    }

    method CompleteEvent(id: Id, result: EventResult)
      requires id in events
      modifies this`events
      ensures Contents() == Complete(old(Contents()), id, result)
    {
      var row := events[id];
      row := row.(result := result);
      row := row.(attempts := row.attempts + 1);
      events := events[id := row];
    }

    method FailStripeEvent(kind: EventType, key: EventKey)
      modifies this`events
      ensures Contents() == FailEvent(old(Contents()), kind, key)
    {
      var registered := RegisterEvent(kind, key);
      if registered.Err? || events[key.id].result == EventApplied || events[key.id].result == EventIgnored {
        return;
      }
      CompleteEvent(key.id, EventFailed);
    }

    method IgnoreStripeEvent(kind: EventType, key: EventKey) returns (reply: Reply)
      modifies this`events
      ensures Delivered(Contents(), reply) == IgnoreEvent(old(Contents()), kind, key)
    {
      var registered := RegisterEvent(kind, key);
      if registered.Err? {
        return Threw(registered.error);
      }
      if events[key.id].result == EventApplied || events[key.id].result == EventIgnored {
        return Duplicate(events[key.id].result);
      }
      CompleteEvent(key.id, EventIgnored);
      return Processed(EventIgnored);
    }

    /** Copies the current access onto every held seat; false when a row would end
        before it starts, and then nothing is written. */
    method ReconcileEntitlements(sub: Subscription, organization: Id, now: nat) returns (ok: bool)
      modifies this`entitlements
      ensures ok == Reconcile(old(entitlements), sub, organization, now).Ok?
      ensures entitlements == if ok then Reconcile(old(entitlements), sub, organization, now).value
                              else old(entitlements)
    {
      var access := AccessAt(sub, now);
      var after := map m | m in entitlements ::
        if HoldsSeat(entitlements[m], organization)
        then entitlements[m].(state := access.state, endsAt := access.endsAt)
        else entitlements[m];
      ok := forall m | m in entitlements ::
        HoldsSeat(entitlements[m], organization) ==> EndsAfterStart(after[m]);
      if ok {
        entitlements := after;
      }
    }

    method WriteCustomer(organization: Id, key: EventKey, input: CustomerInput)
      returns (r: Result<bool, BillingError>)
      modifies this`customers
      ensures match ProjectCustomer(old(Contents()), organization, key, input)
              case Err(error) => r == Err(error) && Contents() == old(Contents())
              case Ok(p) => r == Ok(p.applied) && Contents() == p.tables
    {
      if !input.textValid || input.fields.stripeId == 0 {
        return Err(TextInvalid);
      }
      if organization in customers {
        var stored := customers[organization].key;
        if !(key.createdAt > stored.createdAt || (key.createdAt == stored.createdAt && key.id > stored.id)) {
          return Ok(false);
        }
      }
      if exists o | o in customers :: o != organization && customers[o].fields.stripeId == input.fields.stripeId {
        return Err(StripeIdTaken);
      }
      customers := customers[organization := Customer(key, input.fields)];
      return Ok(true);
    }

    /** On an error the caller rolls back; the tables are then the saved ones again. */
    method WriteSubscription(organization: Id, key: EventKey, input: SubscriptionInput, now: nat)
      returns (r: Result<bool, BillingError>)
      modifies this`subscriptions, this`entitlements
      ensures match ProjectSubscription(old(Contents()), organization, key, input, now)
              case Err(error) => r == Err(error)
              case Ok(p) => r == Ok(p.applied) && Contents() == p.tables
    {
      var taken := |SeatHolders(entitlements, organization)|;
      if input.fields.seats < taken {
        return Err(SeatQuantityConflict);
      }
      if !input.textValid || input.fields.stripeId == 0 {
        return Err(TextInvalid);
      }
      var applied := true;
      if organization in subscriptions {
        var stored := subscriptions[organization].key;
        applied := key.createdAt > stored.createdAt || (key.createdAt == stored.createdAt && key.id > stored.id);
      }
      if applied {
        if exists o | o in subscriptions ::
            o != organization && subscriptions[o].fields.stripeId == input.fields.stripeId {
          return Err(StripeIdTaken);
        }
        var row :=
          if organization in subscriptions then subscriptions[organization].(key := key, fields := input.fields)
          else Subscription(key, input.fields, PaidUp, None, None);
        subscriptions := subscriptions[organization := row];
      }
      var ok := ReconcileEntitlements(subscriptions[organization], organization, now);
      if !ok {
        return Err(EndNotAfterStart);
      }
      assert !applied ==> subscriptions == old(subscriptions)[organization := old(subscriptions)[organization]];
      return Ok(applied);
    }

    method ApplyBillingProjection(kind: EventType, key: EventKey, p: Projection, now: nat) returns (reply: Reply)
      modifies this
      ensures Delivered(Contents(), reply) == ApplyBilling(old(Contents()), kind, key, p, now)
    {
      var registered := RegisterEvent(kind, key);
      if registered.Err? {
        return Threw(registered.error);
      }
      if Settled(events[key.id]) {
        return Duplicate(events[key.id].result);
      }
      var saved := Contents();
      var result := RunProjection(key, p, now);
      if result.Err? {
        Rollback(saved);
        CompleteEvent(key.id, EventFailed);
        return Threw(result.error);
      }
      ProjectionsKeepEvents(saved, key, p, now);
      var outcome := if result.value then EventApplied else EventIgnored;
      CompleteEvent(key.id, outcome);
      return Processed(outcome);
    }

    /** The body of the billing transaction, up to settling the event. */
    method RunProjection(key: EventKey, p: Projection, now: nat) returns (r: Result<bool, BillingError>)
      modifies this`customers, this`subscriptions, this`entitlements
      ensures match ProjectBoth(old(Contents()), key, p, now)
              case Err(error) => r == Err(error)
              case Ok(done) => r == Ok(done.applied) && Contents() == done.tables
    {
      if p.organization == 0 || p.organization !in organizations {
        return Err(OrganizationMissing);
      }
      var applied := false;
      if p.customer.Some? {
        r := WriteCustomer(p.organization, key, p.customer.value);
        if r.Err? {
          return;
        }
        applied := applied || r.value;
      }
      if p.subscription.Some? {
        r := WriteSubscription(p.organization, key, p.subscription.value, now);
        if r.Err? {
          return;
        }
        applied := applied || r.value;
      }
      return Ok(applied);
    }

    method ApplyInvoiceProjection(key: EventKey, paid: bool, stripeId: Id, now: nat) returns (reply: Reply)
      requires UniqueStripeIds(Contents())
      modifies this
      ensures Delivered(Contents(), reply) == ApplyInvoice(old(Contents()), key, paid, stripeId, now)
    {
      var kind := if paid then InvoicePaid else InvoicePaymentFailed;
      var registered := RegisterEvent(kind, key);
      if registered.Err? {
        return Threw(registered.error);
      }
      if Settled(events[key.id]) {
        return Duplicate(events[key.id].result);
      }
      var saved := Contents();
      var result := RunInvoice(key, paid, stripeId, now);
      if result.Err? {
        Rollback(saved);
        FailStripeEvent(kind, key);
        return Threw(result.error);
      }
      InvoicesKeepEvents(saved, key, paid, stripeId, now);
      var outcome := if result.value then EventApplied else EventIgnored;
      CompleteEvent(key.id, outcome);
      return Processed(outcome);
    }

    method FindSubscription(stripeId: Id) returns (owner: Option<Id>)
      requires UniqueStripeIds(Contents())
      ensures owner == SubscriptionOwner(subscriptions, stripeId)
    {
      if k :| k in subscriptions && subscriptions[k].fields.stripeId == stripeId {
        return Some(k);
      }
      return None;
    }

    /** The body of the invoice transaction, up to settling the event. */
    method RunInvoice(key: EventKey, paid: bool, stripeId: Id, now: nat) returns (r: Result<bool, BillingError>)
      requires UniqueStripeIds(Contents())
      modifies this`subscriptions, this`entitlements
      ensures match ProjectInvoice(old(Contents()), key, paid, stripeId, now)
              case Err(error) => r == Err(error)
              case Ok(done) => r == Ok(done.applied) && Contents() == done.tables
    {
      var owner := FindSubscription(stripeId);
      if owner.None? {
        return Err(InvoiceSubscriptionMissing);
      }
      var organization := owner.value;
      var row := subscriptions[organization];
      if row.invoiceKey.Some? {
        var last := row.invoiceKey.value;
        if key.createdAt < last.createdAt || (key.createdAt == last.createdAt && key.id <= last.id) {
          return Ok(false);
        }
      }
      var payment, graceEndsAt := PaidUp, None;
      if !paid {
        graceEndsAt := if row.graceEndsAt.Some? then row.graceEndsAt else Some(key.createdAt + GRACE_MS);
        payment := if graceEndsAt.value > now then InGrace else Delinquent;
      }
      row := row.(payment := payment, graceEndsAt := graceEndsAt);
      row := row.(invoiceKey := Some(key));
      subscriptions := subscriptions[organization := row];
      var ok := ReconcileEntitlements(row, organization, now);
      return if ok then Ok(true) else Err(EndNotAfterStart);
    }

    method AssignOperatorSeat(authorized: bool, organization: Id, member: Id, now: nat)
      returns (r: Result<(), BillingError>)
      modifies this`entitlements
      ensures match AssignSeat(old(Contents()), authorized, organization, member, now)
              case Err(error) => r == Err(error) && Contents() == old(Contents())
              case Ok(tables) => r.Ok? && Contents() == tables
    {
      if !authorized || member !in members || members[member] != Member(organization, false) {
        return Err(AccessDenied);
      }
      if organization !in subscriptions {
        return Err(SubscriptionRequired);
      }
      var subscription := subscriptions[organization];
      var others := set m | m in entitlements && m != member && HoldsSeat(entitlements[m], organization);
      assert others == SeatHolders(entitlements, organization) - {member};
      if |others| >= subscription.fields.seats {
        return Err(SeatsExhausted);
      }
      var access := AccessAt(subscription, now);
      if access.endsAt.Some? && access.endsAt.value <= now {
        return Err(EndNotAfterStart);
      }
      entitlements := entitlements[member :=
        Entitlement(organization, access.state, FromStripe, now, access.endsAt)];
      return Ok(());
    }

    method RevokeOperatorSeat(authorized: bool, organization: Id, member: Id) returns (r: Result<bool, BillingError>)
      modifies this`entitlements
      ensures match RevokeSeat(old(Contents()), authorized, organization, member)
              case Err(error) => r == Err(error) && Contents() == old(Contents())
              case Ok(tables) => Contents() == tables
      ensures r.Ok? ==> r.value == (member in SeatHolders(old(entitlements), organization))
    {
      if !authorized {
        return Err(AccessDenied);
      }
      if member !in entitlements || !HoldsSeat(entitlements[member], organization) {
        return Ok(false);
      }
      entitlements := entitlements[member := entitlements[member].(state := Revoked)];
      return Ok(true);
    }
  }

  /** The webhook processor over a database. */
  class Processor {
    const database: Database

    constructor (database: Database)
      ensures this.database == database
    {
      this.database := database;
    }

    method FindCustomer(stripeId: Id) returns (owner: Option<Id>)
      requires UniqueStripeIds(database.Contents())
      ensures owner == CustomerOwner(database.customers, stripeId)
    {
      if k :| k in database.customers && database.customers[k].fields.stripeId == stripeId {
        return Some(k);
      }
      return None;
    }

    method BuildProjection(kind: EventType, payload: Payload) returns (r: Result<Projection, BillingError>)
      requires IsProjected(kind) && payload.Payload?
      requires UniqueStripeIds(database.Contents())
      ensures r == Normalize(database.Contents(), kind, payload)
    {
      var isSubscription := kind in {SubscriptionCreated, SubscriptionUpdated, SubscriptionDeleted};
      var customer := if kind == CustomerCreated || kind == CustomerUpdated then payload.id else payload.customer;
      if customer.None? || (isSubscription && payload.subscription.None?) {
        return Err(ObjectInvalid);
      }
      var organization := payload.organization;
      if organization.None? {
        organization := FindCustomer(customer.value);
      }
      if organization.None? {
        return Err(ObjectInvalid);
      }
      if isSubscription {
        return Ok(Projection(organization.value, None,
                             Some(SubscriptionInput(payload.subscription.value, payload.textValid))));
      }
      var fields := CustomerFields(customer.value, payload.email, payload.country);
      return Ok(Projection(organization.value, Some(CustomerInput(fields, payload.textValid)), None));
    }

    /** One verified delivery, with the error handler around the dispatch. */
    method ProcessDelivery(d: Delivery, now: nat) returns (reply: Reply)
      requires UniqueStripeIds(database.Contents())
      modifies database
      ensures Delivered(database.Contents(), reply) == Process(old(database.Contents()), d, now)
    {
      if d.createdAt.None? {
        return Threw(EventTimeInvalid);
      }
      var key := EventKey(d.createdAt.value, d.id);
      var registered := database.RegisterEvent(d.kind, key);
      if registered.Err? {
        return Threw(registered.error);
      }
      var event := database.events[key.id];
      if Settled(event) {
        return Duplicate(event.result);
      }
      reply := DispatchDelivery(d.kind, key, d.payload, now);
      if reply.Threw? && key.id in database.events && database.events[key.id].attempts == event.attempts {
        database.FailStripeEvent(d.kind, key);
      }
    }

    method DispatchDelivery(kind: EventType, key: EventKey, payload: Payload, now: nat) returns (reply: Reply)
      requires UniqueStripeIds(database.Contents())
      modifies database
      ensures Delivered(database.Contents(), reply) == Dispatch(old(database.Contents()), kind, key, payload, now)
    {
      if payload.Unreadable? {
        return Threw(ObjectInvalid);
      }
      if kind == InvoicePaid || kind == InvoicePaymentFailed {
        if payload.invoiceSubscription.None? || payload.invoiceSubscription.value == 0 {
          return Threw(ObjectInvalid);
        }
        reply := database.ApplyInvoiceProjection(key, kind == InvoicePaid, payload.invoiceSubscription.value, now);
      } else if kind.OtherType? {
        reply := database.IgnoreStripeEvent(kind, key);
      } else {
        var projection := BuildProjection(kind, payload);
        if projection.Err? {
          return Threw(projection.error);
        }
        reply := database.ApplyBillingProjection(kind, key, projection.value, now);
      }
    }
  }
}
