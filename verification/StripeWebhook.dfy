/** Dispatch of one verified webhook delivery, and what a delivery does to the
    record of its event: exactly one attempt while the event is unsettled,
    nothing at all once it is settled. */
module StripeWebhook {
  import opened Prelude
  import opened Billing

  /** What the normalising readers find in the payload; None where a reader throws
      or finds nothing. */
  datatype Payload =
    | Unreadable
    | Payload(
        organization: Option<Id>, id: Option<Id>, customer: Option<Id>,
        email: Option<Id>, country: Option<Id>,
        subscription: Option<SubscriptionFields>, invoiceSubscription: Option<Id>,
        textValid: bool)

  datatype Delivery = Delivery(id: Id, kind: EventType, createdAt: Option<nat>, payload: Payload)

  /** Metadata names the organization, or the known customer does. */
  ghost function CustomerOrganization(t: Tables, payload: Payload, customer: Id): Option<Id>
    requires payload.Payload?
  {
    if payload.organization.Some? then payload.organization
    else CustomerOwner(t.customers, customer)
  }

  ghost function CustomerProjection(t: Tables, payload: Payload, customer: Option<Id>)
    : Result<Projection, BillingError>
    requires payload.Payload?
  {
    if customer.None? then Err(ObjectInvalid)
    else
      match CustomerOrganization(t, payload, customer.value)
      case None => Err(ObjectInvalid)
      case Some(organization) =>
        var fields := CustomerFields(customer.value, payload.email, payload.country);
        Ok(Projection(organization, Some(CustomerInput(fields, payload.textValid)), None))
  }

  ghost function SubscriptionProjection(t: Tables, payload: Payload): Result<Projection, BillingError>
    requires payload.Payload?
  {
    if payload.customer.None? || payload.subscription.None? then Err(ObjectInvalid)
    else
      match CustomerOrganization(t, payload, payload.customer.value)
      case None => Err(ObjectInvalid)
      case Some(organization) =>
        Ok(Projection(organization, None,
                      Some(SubscriptionInput(payload.subscription.value, payload.textValid))))
  }

  predicate IsInvoice(kind: EventType) {
    kind == InvoicePaid || kind == InvoicePaymentFailed
  }

  predicate IsProjected(kind: EventType) {
    !kind.OtherType? && !IsInvoice(kind)
  }

  /** The billing projection a customer, checkout or subscription event asks for. */
  ghost function Normalize(t: Tables, kind: EventType, payload: Payload): Result<Projection, BillingError>
    requires IsProjected(kind)
  {
    if payload.Unreadable? then Err(ObjectInvalid)
    else if kind == CustomerCreated || kind == CustomerUpdated then
      CustomerProjection(t, payload, payload.id)
    else if kind == CheckoutCompleted then CustomerProjection(t, payload, payload.customer)
    else SubscriptionProjection(t, payload)
  }

  /** The guarded part of processing, on the tables after registration. */
  ghost function Dispatch(t: Tables, kind: EventType, key: EventKey, payload: Payload, now: nat): Delivered {
    if payload.Unreadable? then Delivered(t, Threw(ObjectInvalid))
    else if IsInvoice(kind) then
      if payload.invoiceSubscription.None? || payload.invoiceSubscription.value == 0 then
        Delivered(t, Threw(ObjectInvalid))
      else
        ApplyInvoice(t, key, kind == InvoicePaid, payload.invoiceSubscription.value, now)
    else if kind.OtherType? then IgnoreEvent(t, kind, key)
    else
      match Normalize(t, kind, payload)
      case Err(error) => Delivered(t, Threw(error))
      case Ok(p) => ApplyBilling(t, kind, key, p, now)
  }

  /** One delivery whose signature has been verified. */
  ghost function Process(t: Tables, d: Delivery, now: nat): Delivered {
    if d.createdAt.None? then Delivered(t, Threw(EventTimeInvalid))
    else
      var key := EventKey(d.createdAt.value, d.id);
      match Register(t, d.kind, key)
      case Err(error) => Delivered(t, Threw(error))
      case Ok(r) =>
        var registered := r.tables.events[key.id];
        if Settled(registered) then Delivered(r.tables, Duplicate(registered.result))
        else
          var out := Dispatch(r.tables, d.kind, key, d.payload, now);
          if out.reply.Threw? && key.id in out.tables.events
             && out.tables.events[key.id].attempts == registered.attempts then
            Delivered(FailEvent(out.tables, d.kind, key), out.reply)
          else out
  }

  /** Registration accepts the delivery: its id and time are usable, and any row
      already stored under its id has its type and time. */
  predicate Registrable(t: Tables, d: Delivery) {
    && d.createdAt.Some?
    && d.id != 0
    && (d.id in t.events ==>
          t.events[d.id].kind == d.kind && t.events[d.id].createdAt == d.createdAt.value)
  }

  function AttemptsOf(t: Tables, id: Id): nat {
    if id in t.events then t.events[id].attempts else 0
  }

  /** The tables a billing event projects into. */
  predicate SameProjection(a: Tables, b: Tables) {
    a.customers == b.customers && a.subscriptions == b.subscriptions && a.entitlements == b.entitlements
  }

  /** What attempting an event once looks like from outside. */
  predicate OneAttempt(before: Tables, out: Delivered, kind: EventType, key: EventKey) {
    && key.id in out.tables.events
    && out.tables.events[key.id] == StripeEvent(
         kind, key.createdAt, out.tables.events[key.id].result, AttemptsOf(before, key.id) + 1)
    && out.tables.events - {key.id} == before.events - {key.id}
    && (match out.reply
        case Duplicate(_) => false
        case Processed(result) =>
          result in {EventApplied, EventIgnored} && out.tables.events[key.id].result == result
        case Threw(_) => out.tables.events[key.id].result == EventFailed)
    && (out.reply.Threw? ==> SameProjection(before, out.tables))
    && out.tables.members == before.members
    && out.tables.organizations == before.organizations
  }

  lemma ProjectionsKeepEvents(t: Tables, key: EventKey, p: Projection, now: nat)
    ensures var out := ProjectBoth(t, key, p, now);
            out.Ok? ==> out.value.tables.events == t.events && out.value.tables.members == t.members
                        && out.value.tables.organizations == t.organizations
  {
  }

  lemma InvoicesKeepEvents(t: Tables, key: EventKey, paid: bool, stripeId: Id, now: nat)
    ensures var out := ProjectInvoice(t, key, paid, stripeId, now);
            out.Ok? ==> out.value.tables.events == t.events && out.value.tables.members == t.members
                        && out.value.tables.organizations == t.organizations
  {
  }

  /** On registered, unsettled tables every branch of the dispatch either records
      one attempt or throws before recording any. */
  lemma DispatchAttempts(t: Tables, kind: EventType, key: EventKey, payload: Payload, now: nat)
    requires key.id in t.events && key.id != 0
    requires t.events[key.id].kind == kind && t.events[key.id].createdAt == key.createdAt
    requires !Settled(t.events[key.id])
    ensures var out := Dispatch(t, kind, key, payload, now);
            OneAttempt(t, out, kind, key) || (out.tables == t && out.reply.Threw?)
  {
    if payload.Payload? {
      if IsInvoice(kind) {
        if payload.invoiceSubscription.Some? {
          InvoicesKeepEvents(t, key, kind == InvoicePaid, payload.invoiceSubscription.value, now);
        }
      } else if !kind.OtherType? {
        var n := Normalize(t, kind, payload);
        if n.Ok? {
          ProjectionsKeepEvents(t, key, n.value, now);
        }
      }
    }
  }

  /** Each delivery of an unsettled event raises its attempt count by exactly one,
      whether it is applied, ignored, refused by normalisation or rolled back;
      a thrown delivery leaves the billing projection as it was. */
  lemma EachDeliveryIsOneAttempt(t: Tables, d: Delivery, now: nat)
    requires Registrable(t, d)
    requires d.id in t.events ==> !Settled(t.events[d.id])
    ensures OneAttempt(t, Process(t, d, now), d.kind, EventKey(d.createdAt.value, d.id))
  {
    var key := EventKey(d.createdAt.value, d.id);
    var r := Register(t, d.kind, key).value;
    assert r.tables.events - {d.id} == t.events - {d.id};
    DispatchAttempts(r.tables, d.kind, key, d.payload, now);
  }

  /** A settled event, and everything else, is left alone by redelivery. */
  lemma RedeliveryChangesNothing(t: Tables, d: Delivery, now: nat)
    requires Registrable(t, d)
    requires d.id in t.events && Settled(t.events[d.id])
    ensures Process(t, d, now) == Delivered(t, Duplicate(t.events[d.id].result))
  {
  }

  /** A delivery that registration refuses leaves every table as it was. */
  lemma RefusedDeliveryChangesNothing(t: Tables, d: Delivery, now: nat)
    requires !Registrable(t, d)
    ensures Process(t, d, now).tables == t && Process(t, d, now).reply.Threw?
  {
  }
}
