/** What each billing operation comes to, read back from the columns: which deliveries are
    applied, ignored or refused and what they leave, and what seat and administration writes
    leave. */
module BillingOutcomes {
  import opened Prelude
  import opened Billing
  import opened StripeWebhook
  import opened BillingInvariants
  import opened BillingHistory

  predicate Fresh(t: Tables, d: Delivery) {
    Registrable(t, d) && (d.id in t.events ==> t.events[d.id].result in {EventPending, EventFailed})
  }

  /** The members that hold a Stripe seat of an organization. */
  function Holders(t: Tables, o: Id): set<Id> {
    set m | m in t.entitlements && t.entitlements[m].organization == o
            && t.entitlements[m].source == FromStripe && t.entitlements[m].state != Revoked
  }

  predicate NewerKey(key: EventKey, stored: EventKey) {
    key.createdAt > stored.createdAt || (key.createdAt == stored.createdAt && key.id > stored.id)
  }

  // ---------------------------------------------------------------- dispatch

  /** The tables with the event of a delivery registered. */
  function Registered(t: Tables, d: Delivery): Tables
    requires d.createdAt.Some?
  {
    if d.id in t.events then t
    else t.(events := t.events[d.id := StripeEvent(d.kind, d.createdAt.value, EventPending, 0)])
  }

  lemma ProcessingIsDispatch(t: Tables, d: Delivery, now: nat)
    requires Fresh(t, d)
    ensures var out := Dispatch(Registered(t, d), d.kind, KeyOf(d), d.payload, now);
            && Process(t, d, now).reply == out.reply
            && SameProjection(Process(t, d, now).tables, out.tables)
  {
    hide Dispatch;
  }

  /** The reply to a projection. */
  function ReplyTo(out: Result<Projected, BillingError>): Reply {
    match out
    case Err(error) => Threw(error)
    case Ok(done) => Processed(if done.applied then EventApplied else EventIgnored)
  }

  lemma ProjectionDelivery(t: Tables, d: Delivery, now: nat)
    requires Fresh(t, d) && IsProjected(d.kind) && d.payload.Payload?
    ensures var r, u, reply := Registered(t, d), Process(t, d, now).tables, Process(t, d, now).reply;
            match Normalize(r, d.kind, d.payload)
            case Err(error) => reply == Threw(error) && SameProjection(t, u)
            case Ok(p) =>
              var out := ProjectBoth(r, KeyOf(d), p, now);
              && reply == ReplyTo(out)
              && (out.Err? ==> SameProjection(t, u))
              && (out.Ok? ==> SameProjection(out.value.tables, u))
  {
    hide Process, Normalize, ProjectBoth;
    var r := Registered(t, d);
    ProcessingIsDispatch(t, d, now);
    if Normalize(r, d.kind, d.payload).Ok? {
      ProjectionsKeepEvents(r, KeyOf(d), Normalize(r, d.kind, d.payload).value, now);
    }
  }

  /** Registration tells whether the event is new, and leaves one that is not as it is.
      Registering again is accepted, tells that it is not new and writes nothing. */
  lemma RegisteringAgain(t: Tables, kind: EventType, key: EventKey)
    ensures var first := Register(t, kind, key);
            first.Ok? ==>
              && (first.value.inserted <==> key.id !in t.events)
              && (!first.value.inserted ==> first.value.tables == t)
              && Register(first.value.tables, kind, key) == Ok(Billing.Registered(first.value.tables, false))
  {
  }

  // ------------------------------------------------------ subscription events

  /** Applying a subscription snapshot, by columns. */
  ghost predicate SnapshotOutcome(
    t: Tables, o: Id, key: EventKey, input: SubscriptionInput, out: Result<Projected, BillingError>)
  {
    if input.fields.seats < |Holders(t, o)| then out == Err(SeatQuantityConflict)
    else if !input.textValid || input.fields.stripeId == 0 then out == Err(TextInvalid)
    else if o in t.subscriptions && !NewerKey(key, t.subscriptions[o].key) then
      out.Ok? && !out.value.applied && out.value.tables.subscriptions == t.subscriptions
    else if exists p :: p in t.subscriptions && p != o && t.subscriptions[p].fields.stripeId == input.fields.stripeId
    then out == Err(StripeIdTaken)
    else
      && out.Ok? && out.value.applied
      && out.value.tables.subscriptions == t.subscriptions[o :=
           if o in t.subscriptions then
             Subscription(key, input.fields, t.subscriptions[o].payment, t.subscriptions[o].graceEndsAt,
                          t.subscriptions[o].invoiceKey)
           else Subscription(key, input.fields, PaidUp, None, None)]
  }

  lemma SnapshotHasOutcome(t: Tables, o: Id, key: EventKey, input: SubscriptionInput, now: nat)
    requires Sound(t, now)
    ensures SnapshotOutcome(t, o, key, input, ProjectSubscription(t, o, key, input, now))
  {
    hide Sound;
    SnapshotsNeverTripTheWindow(t, o, key, input, now);
    assert Holders(t, o) == SeatHolders(t.entitlements, o);
    assert o in t.subscriptions ==> t.subscriptions[o := t.subscriptions[o]] == t.subscriptions;
  }

  /** Every delivery of a subscription event to sound tables: the refusals in their order, and
      otherwise the snapshot's outcome for the organization it names. */
  lemma SubscriptionDelivery(t: Tables, d: Delivery, now: nat) returns (out: Result<Projected, BillingError>)
    requires Sound(t, now) && Fresh(t, d) && d.payload.Payload?
    requires d.kind in {SubscriptionCreated, SubscriptionUpdated, SubscriptionDeleted}
    ensures var reply, u := Process(t, d, now).reply, Process(t, d, now).tables;
            if d.payload.subscription.None? || NamedOrganization(t, d).None? then
              reply == Threw(ObjectInvalid) && SameProjection(t, u)
            else
              var o := NamedOrganization(t, d).value;
              if o == 0 || o !in t.organizations then reply == Threw(OrganizationMissing) && SameProjection(t, u)
              else
                var input := SubscriptionInput(d.payload.subscription.value, d.payload.textValid);
                && SnapshotOutcome(t, o, KeyOf(d), input, out) && reply == ReplyTo(out)
                && (out.Err? ==> SameProjection(t, u))
                && (out.Ok? ==> u.customers == t.customers && u.subscriptions == out.value.tables.subscriptions)
  {
    hide Process, Sound, SnapshotOutcome, ProjectSubscription;
    var r := Registered(t, d);
    out := Err(ObjectInvalid);
    ProjectionDelivery(t, d, now);
    if d.payload.subscription.Some? && NamedOrganization(t, d).Some? {
      var o := NamedOrganization(t, d).value;
      var input := SubscriptionInput(d.payload.subscription.value, d.payload.textValid);
      out := ProjectSubscription(r, o, KeyOf(d), input, now);
      SoundIgnoresEvents(t, r, now);
      SnapshotHasOutcome(r, o, KeyOf(d), input, now);
      OutcomeIgnoresEvents(t, r, o, KeyOf(d), input, out);
      SnapshotKeepsCustomers(r, o, KeyOf(d), input, now);
    }
  }

  lemma SnapshotKeepsCustomers(t: Tables, o: Id, key: EventKey, input: SubscriptionInput, now: nat)
    ensures var out := ProjectSubscription(t, o, key, input, now);
            out.Ok? ==> out.value.tables.customers == t.customers
  {
  }

  lemma OutcomeIgnoresEvents(
    t: Tables, r: Tables, o: Id, key: EventKey, input: SubscriptionInput, out: Result<Projected, BillingError>)
    requires SameProjection(t, r) && SnapshotOutcome(r, o, key, input, out)
    ensures SnapshotOutcome(t, o, key, input, out)
  {
    assert Holders(t, o) == Holders(r, o);
  }

  // ---------------------------------------------------------- customer events

  /** Applying a customer snapshot, by columns. */
  ghost predicate CustomerOutcome(
    t: Tables, o: Id, key: EventKey, fields: CustomerFields, textValid: bool, reply: Reply, u: map<Id, Customer>)
  {
    if !textValid || fields.stripeId == 0 then reply == Threw(TextInvalid) && u == t.customers
    else if o in t.customers && !NewerKey(key, t.customers[o].key) then
      reply == Processed(EventIgnored) && u == t.customers
    else if exists p :: p in t.customers && p != o && t.customers[p].fields.stripeId == fields.stripeId then
      reply == Threw(StripeIdTaken) && u == t.customers
    else reply == Processed(EventApplied) && u == t.customers[o := Customer(key, fields)]
  }

  lemma CustomerHasOutcome(t: Tables, o: Id, key: EventKey, input: CustomerInput)
    ensures var out := ProjectCustomer(t, o, key, input);
            && CustomerOutcome(t, o, key, input.fields, input.textValid, ReplyTo(out),
                               if out.Ok? then out.value.tables.customers else t.customers)
            && (out.Ok? ==> out.value.tables.subscriptions == t.subscriptions
                            && out.value.tables.entitlements == t.entitlements)
  {
  }

  /** Every delivery of a customer or checkout event: the refusals in their order, and
      otherwise the snapshot's outcome for the organization it names. */
  lemma CustomerDelivery(t: Tables, d: Delivery, now: nat)
    requires Fresh(t, d) && d.payload.Payload?
    requires d.kind in {CustomerCreated, CustomerUpdated, CheckoutCompleted}
    ensures var reply, u := Process(t, d, now).reply, Process(t, d, now).tables;
            && u.subscriptions == t.subscriptions && u.entitlements == t.entitlements
            && if NamedOrganization(t, d).None? then reply == Threw(ObjectInvalid) && u.customers == t.customers
               else
                 var o := NamedOrganization(t, d).value;
                 if o == 0 || o !in t.organizations then
                   reply == Threw(OrganizationMissing) && u.customers == t.customers
                 else
                   var fields := CustomerFields(CarriedCustomer(d).value, d.payload.email, d.payload.country);
                   CustomerOutcome(t, o, KeyOf(d), fields, d.payload.textValid, reply, u.customers)
  {
    hide Process, ProjectCustomer, CustomerOutcome;
    var r := Registered(t, d);
    ProjectionDelivery(t, d, now);
    if NamedOrganization(t, d).Some? {
      var fields := CustomerFields(CarriedCustomer(d).value, d.payload.email, d.payload.country);
      var o, input := NamedOrganization(t, d).value, CustomerInput(fields, d.payload.textValid);
      CustomerHasOutcome(r, o, KeyOf(d), input);
      var out := ProjectCustomer(r, o, KeyOf(d), input);
      CustomerOutcomeIgnoresEvents(
        t, r, o, KeyOf(d), fields, d.payload.textValid, ReplyTo(out),
        if out.Ok? then out.value.tables.customers else r.customers);
    }
  }

  lemma CustomerOutcomeIgnoresEvents(
    t: Tables, r: Tables, o: Id, key: EventKey, fields: CustomerFields, textValid: bool, reply: Reply,
    u: map<Id, Customer>)
    requires SameProjection(t, r) && CustomerOutcome(r, o, key, fields, textValid, reply, u)
    ensures CustomerOutcome(t, o, key, fields, textValid, reply, u)
  {
  }

  // ----------------------------------------------------------- invoice events

  /** The row a newer invoice leaves, by columns: a payment clears the grace, a failure sets
      it to fourteen days after its own creation when there is none, and the subscription is
      in grace while that lies ahead. */
  predicate InvoiceLeaves(before: Subscription, after: Subscription, key: EventKey, paid: bool, now: nat) {
    && after.key == before.key && after.fields == before.fields && after.invoiceKey == Some(key)
    && (paid ==> after.payment == PaidUp && after.graceEndsAt.None?)
    && (!paid ==>
          && after.graceEndsAt == (if before.graceEndsAt.Some? then before.graceEndsAt
                                   else Some(key.createdAt + 1209600000))
          && after.payment == if after.graceEndsAt.value > now then InGrace else Delinquent)
  }

  /** A failure is too late for a member's seat: no grace runs, and its own lies before the
      seat began. */
  predicate TooLate(t: Tables, o: Id, key: EventKey, paid: bool) {
    && !paid && o in t.subscriptions && t.subscriptions[o].graceEndsAt.None?
    && exists m :: m in Holders(t, o) && key.createdAt + 1209600000 <= t.entitlements[m].startsAt
  }

  lemma InvoiceHasOutcome(r: Tables, o: Id, key: EventKey, paid: bool, now: nat)
    requires Sound(r, now) && o in r.subscriptions
    ensures var sub, out := r.subscriptions[o], ProjectInvoice(r, key, paid, r.subscriptions[o].fields.stripeId, now);
            if sub.invoiceKey.Some? && !NewerKey(key, sub.invoiceKey.value) then
              out.Ok? && !out.value.applied && SameProjection(r, out.value.tables)
            else if TooLate(r, o, key, paid) then out == Err(EndNotAfterStart)
            else
              && out.Ok? && out.value.applied && out.value.tables.customers == r.customers
              && var u := out.value.tables.subscriptions;
                 && u.Keys == r.subscriptions.Keys
                 && (forall p :: p in r.subscriptions && p != o ==> u[p] == r.subscriptions[p])
                 && InvoiceLeaves(sub, u[o], key, paid, now)
  {
    hide Sound, Reconcile;
    var stripeId := r.subscriptions[o].fields.stripeId;
    SoundHasUniqueIds(r, now);
    assert SubscriptionOwner(r.subscriptions, stripeId) == Some(o);
    assert Holders(r, o) == SeatHolders(r.entitlements, o);
    LateFailuresAreAborted(r, key, paid, stripeId, now);
    OnlyTheWindowRefuses(r, key, paid, stripeId, now);
  }

  lemma SoundHasUniqueIds(t: Tables, now: nat)
    requires Sound(t, now)
    ensures UniqueStripeIds(t)
  {
  }

  lemma InvoicesAreDispatched(t: Tables, d: Delivery, now: nat)
    requires Fresh(t, d) && d.payload.Payload? && d.kind in {InvoicePaid, InvoicePaymentFailed}
    ensures var r, u, reply := Registered(t, d), Process(t, d, now).tables, Process(t, d, now).reply;
            var id := d.payload.invoiceSubscription;
            if id.None? || id.value == 0 then reply == Threw(ObjectInvalid) && SameProjection(t, u)
            else
              var out := ProjectInvoice(r, KeyOf(d), d.kind == InvoicePaid, id.value, now);
              && reply == ReplyTo(out)
              && (out.Err? ==> SameProjection(t, u))
              && (out.Ok? ==> SameProjection(out.value.tables, u))
  {
    hide Process, ProjectInvoice;
    ProcessingIsDispatch(t, d, now);
    if d.payload.invoiceSubscription.Some? {
      InvoicesKeepEvents(Registered(t, d), KeyOf(d), d.kind == InvoicePaid, d.payload.invoiceSubscription.value, now);
    }
  }

  /** Every delivery of an invoice event that names a subscription of an organization, by
      columns: ignored when it is not newer than the last one applied, aborted when it is a
      failure that comes too late, and otherwise applied. */
  lemma InvoiceDelivery(t: Tables, d: Delivery, o: Id, now: nat)
    requires Sound(t, now) && Fresh(t, d) && d.payload.Payload?
    requires d.kind in {InvoicePaid, InvoicePaymentFailed}
    requires o in t.subscriptions && d.payload.invoiceSubscription == Some(t.subscriptions[o].fields.stripeId)
    requires t.subscriptions[o].fields.stripeId != 0
    ensures var reply, u, key := Process(t, d, now).reply, Process(t, d, now).tables, KeyOf(d);
            var sub, paid := t.subscriptions[o], d.kind == InvoicePaid;
            if sub.invoiceKey.Some? && !NewerKey(key, sub.invoiceKey.value) then
              reply == Processed(EventIgnored) && SameProjection(t, u)
            else if TooLate(t, o, key, paid) then reply == Threw(EndNotAfterStart) && SameProjection(t, u)
            else
              && reply == Processed(EventApplied) && u.customers == t.customers
              && u.subscriptions.Keys == t.subscriptions.Keys
              && (forall p :: p in t.subscriptions && p != o ==> u.subscriptions[p] == t.subscriptions[p])
              && InvoiceLeaves(sub, u.subscriptions[o], key, paid, now)
  {
    hide Process, Sound, ProjectInvoice, InvoiceLeaves;
    var r := Registered(t, d);
    InvoicesAreDispatched(t, d, now);
    SoundIgnoresEvents(t, r, now);
    InvoiceHasOutcome(r, o, KeyOf(d), d.kind == InvoicePaid, now);
    assert Holders(r, o) == Holders(t, o);
  }

  /** An invoice event that names no known subscription is refused. */
  lemma StrayInvoiceDelivery(t: Tables, d: Delivery, now: nat)
    requires Fresh(t, d) && d.payload.Payload? && d.kind in {InvoicePaid, InvoicePaymentFailed}
    requires forall p :: p in t.subscriptions ==>
               d.payload.invoiceSubscription != Some(t.subscriptions[p].fields.stripeId)
    ensures SameProjection(t, Process(t, d, now).tables)
    ensures Process(t, d, now).reply == Threw(
              if d.payload.invoiceSubscription.None? || d.payload.invoiceSubscription == Some(0) then ObjectInvalid
              else InvoiceSubscriptionMissing)
  {
    hide Process;
    InvoicesAreDispatched(t, d, now);
  }

  lemma OnlyTheWindowRefuses(r: Tables, key: EventKey, paid: bool, stripeId: Id, now: nat)
    ensures var out := ProjectInvoice(r, key, paid, stripeId, now);
            && (out.Err? ==> out.error in {InvoiceSubscriptionMissing, EndNotAfterStart})
            && (SubscriptionOwner(r.subscriptions, stripeId).Some? ==> out != Err(InvoiceSubscriptionMissing))
  {
  }

  /** An event whose object cannot be read is refused, whatever its kind. */
  lemma UnreadableDelivery(t: Tables, d: Delivery, now: nat)
    requires Fresh(t, d) && d.payload.Unreadable?
    ensures Process(t, d, now).reply == Threw(ObjectInvalid)
    ensures SameProjection(t, Process(t, d, now).tables)
  {
    hide Process;
    ProcessingIsDispatch(t, d, now);
  }

  /** An event of any other kind is ignored and changes no projection. */
  lemma OtherDelivery(t: Tables, d: Delivery, now: nat)
    requires Fresh(t, d) && d.kind.OtherType? && d.payload.Payload?
    ensures Process(t, d, now).reply == Processed(EventIgnored)
    ensures SameProjection(t, Process(t, d, now).tables)
  {
    hide Process;
    ProcessingIsDispatch(t, d, now);
  }

  // --------------------------------------------- seats and administration

  /** Assigning a seat to sound tables: the refusals in their order; otherwise the member's
      row is a Stripe seat of the organization from now on, and no other row changes. */
  lemma SeatAssignment(t: Tables, authorized: bool, o: Id, m: Id, now: nat)
    requires Sound(t, now)
    ensures var out := AssignSeat(t, authorized, o, m, now);
            if !authorized || m !in t.members || t.members[m] != Member(o, false) then out == Err(AccessDenied)
            else if o !in t.subscriptions then out == Err(SubscriptionRequired)
            else if |Holders(t, o) - {m}| >= t.subscriptions[o].fields.seats then out == Err(SeatsExhausted)
            else if t.subscriptions[o].graceEndsAt.Some? && t.subscriptions[o].graceEndsAt.value <= now then
              out == Err(EndNotAfterStart)
            else
              && out.Ok?
              && m in out.value.entitlements
              && var row := out.value.entitlements[m];
                 && out.value == t.(entitlements := t.entitlements[m := row])
                 && row.organization == o && row.source == FromStripe && row.startsAt == now && row.state != Revoked
  {
    hide Sound;
    assert Holders(t, o) == SeatHolders(t.entitlements, o);
    if m in t.members && t.members[m] == Member(o, false) && o in t.subscriptions
       && |SeatHolders(t.entitlements, o) - {m}| < t.subscriptions[o].fields.seats {
      ExpiredGraceBlocksAssignment(t, o, m, now);
    }
  }

  /** Giving a seat up: a held Stripe seat of the organization is revoked and gives no access
      from then on; anything else is left as it was. */
  lemma SeatRevocation(t: Tables, authorized: bool, o: Id, m: Id, at: nat)
    ensures var out := RevokeSeat(t, authorized, o, m);
            if !authorized then out == Err(AccessDenied)
            else if m in Holders(t, o) then
              && out == Ok(t.(entitlements := t.entitlements[m := t.entitlements[m].(state := Revoked)]))
              && Holders(out.value, o) == Holders(t, o) - {m}
              && !HasActiveEntitlement(out.value, m, o, at)
            else out == Ok(t)
  {
  }

  /** An administration write: what is refused, and otherwise the row as it was given. */
  lemma AdministrationWrite(t: Tables, m: Id, row: Entitlement)
    ensures AdminMayWrite(row.source) <==> row.source != FromStripe
    ensures var out := UpsertEntitlement(t, m, row);
            if row.endsAt.Some? && row.endsAt.value <= row.startsAt then out == Err(EntitlementInvalid)
            else if row.source == FromBeta && row.endsAt.None? then out == Err(EntitlementInvalid)
            else if m !in t.members || t.members[m].organization != row.organization then out == Err(MembershipMissing)
            else out == Ok(t.(entitlements := t.entitlements[m := row]))
  {
  }

  /** An administration revocation takes access away from that member in that organization. */
  lemma AdministrationRevocation(t: Tables, o: Id, m: Id, at: nat)
    ensures var u := RevokeEntitlement(t, o, m);
            && !HasActiveEntitlement(u, m, o, at)
            && forall k, p :: k != m || p != o ==>
                 (HasActiveEntitlement(u, k, p, at) <==> HasActiveEntitlement(t, k, p, at))
  {
  }

  /** A disabled member has no access, and its row, its entitlement and everyone else's access
      are as before; enabling it again restores the tables. */
  lemma DisablingLeaves(t: Tables, m: Id, o: Id, at: nat)
    ensures var u := SetDisabled(t, m, true);
            && !HasActiveEntitlement(u, m, o, at)
            && u.members.Keys == t.members.Keys && u == t.(members := u.members)
            && (forall k :: k != m ==>
                  (HasActiveEntitlement(u, k, o, at) <==> HasActiveEntitlement(t, k, o, at)))
            && (m in t.members && !t.members[m].disabled ==> SetDisabled(u, m, false) == t)
  {
    var u := SetDisabled(t, m, true);
    if m in t.members && !t.members[m].disabled {
      assert SetDisabled(u, m, false).members == t.members;
    }
  }

  /** A removed member is gone from the members and, with its row, from the entitlements;
      nobody else's rows change. */
  lemma RemovalLeaves(t: Tables, m: Id)
    ensures var u := RemoveMember(t, m);
            && u == t.(members := u.members, entitlements := u.entitlements)
            && m !in u.members && m !in u.entitlements
            && (forall k :: k != m ==> (k in u.members <==> k in t.members))
            && (forall k :: k != m ==> (k in u.entitlements <==> k in t.entitlements))
            && (forall k | k in u.members :: u.members[k] == t.members[k])
            && (forall k | k in u.entitlements :: u.entitlements[k] == t.entitlements[k])
  {
  }

  /** The conditions of the lookup, by columns. */
  lemma LookupConditions(t: Tables, m: Id, o: Id, at: nat)
    ensures HasActiveEntitlement(t, m, o, at)
            <==>
            && m in t.entitlements
            && var e := t.entitlements[m];
               && e.organization == o && e.state in {Active, Grace} && e.startsAt <= at
               && (e.endsAt.Some? ==> at < e.endsAt.value)
               && m in t.members && t.members[m] == Member(o, false)
  {
  }
}
