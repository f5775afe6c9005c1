/** Runs of the billing tables with a record of what was accepted on the way:
    out-of-order snapshots converge to the greatest one, and the payment grace is fixed
    by the first failure applied since the last payment. */
module BillingHistory {
  import opened Prelude
  import opened Billing
  import opened StripeWebhook
  import opened BillingRuns
  import opened BillingInvariants

  /** A snapshot that some delivery had accepted for an organization. */
  datatype Seen<T> = Seen(organization: Id, key: EventKey, value: T)

  datatype InvoiceMark = InvoiceMark(key: EventKey, paid: bool)

  /** A run's state and what it accepted: snapshots as plain sets (their order is
      forgotten), applied invoices in order of application. */
  datatype World = World(
    state: State,
    customers: set<Seen<CustomerFields>>,
    subscriptions: set<Seen<SubscriptionFields>>,
    invoices: map<Id, seq<InvoiceMark>>)

  function Marks(invoices: map<Id, seq<InvoiceMark>>, organization: Id): seq<InvoiceMark> {
    if organization in invoices then invoices[organization] else []
  }

  function KeyOf(d: Delivery): EventKey
    requires d.createdAt.Some?
  {
    EventKey(d.createdAt.value, d.id)
  }

  /** A delivery was processed as a projection. */
  ghost predicate Accepted(t: Tables, d: Delivery, now: nat) {
    Process(t, d, now).reply.Processed? && IsProjected(d.kind)
  }

  /** The Stripe customer a payload is about: its own id in a customer event, the one it
      refers to in any other. */
  function CarriedCustomer(d: Delivery): Option<Id> {
    if !d.payload.Payload? then None
    else if d.kind == CustomerCreated || d.kind == CustomerUpdated then d.payload.id
    else d.payload.customer
  }

  /** The organization it is about: the one its metadata names, or else the one that has the
      customer. */
  ghost function NamedOrganization(t: Tables, d: Delivery): Option<Id> {
    if CarriedCustomer(d).None? then None
    else if d.payload.organization.Some? then d.payload.organization
    else CustomerOwner(t.customers, CarriedCustomer(d).value)
  }

  /** The organization a delivery's invoice was applied to. */
  ghost function InvoicedOrganization(t: Tables, d: Delivery, now: nat): Option<Id> {
    if Process(t, d, now).reply == Processed(EventApplied) && IsInvoice(d.kind) then
      SubscriptionOwner(t.subscriptions, d.payload.invoiceSubscription.value)
    else None
  }

  ghost function CustomersIn(t: Tables, d: Delivery, now: nat): set<Seen<CustomerFields>> {
    if d.kind in {CustomerCreated, CustomerUpdated, CheckoutCompleted} && Accepted(t, d, now)
       && NamedOrganization(t, d).Some? then
      {Seen(NamedOrganization(t, d).value, EventKey(d.createdAt.value, d.id),
            CustomerFields(CarriedCustomer(d).value, d.payload.email, d.payload.country))}
    else {}
  }

  ghost function SubscriptionsIn(t: Tables, d: Delivery, now: nat): set<Seen<SubscriptionFields>> {
    if d.kind in {SubscriptionCreated, SubscriptionUpdated, SubscriptionDeleted} && Accepted(t, d, now)
       && NamedOrganization(t, d).Some? && d.payload.subscription.Some? then
      {Seen(NamedOrganization(t, d).value, EventKey(d.createdAt.value, d.id), d.payload.subscription.value)}
    else {}
  }

  ghost function InvoicesAfter(invoices: map<Id, seq<InvoiceMark>>, t: Tables, d: Delivery, now: nat)
    : map<Id, seq<InvoiceMark>>
  {
    var owner := InvoicedOrganization(t, d, now);
    if owner.None? then invoices
    else
      invoices[owner.value :=
        Marks(invoices, owner.value) + [InvoiceMark(KeyOf(d), d.kind == InvoicePaid)]]
  }

  ghost function Step(w: World, timed: Timed): World {
    var next := Advance(w.state, timed);
    if !timed.op.Deliver? then w.(state := next)
    else
      var d := timed.op.delivery;
      var t := w.state.tables;
      World(
        next,
        w.customers + CustomersIn(t, d, next.clock),
        w.subscriptions + SubscriptionsIn(t, d, next.clock),
        InvoicesAfter(w.invoices, t, d, next.clock))
  }

  ghost function Run(w: World, ops: seq<Timed>): World
    decreases |ops|
  {
    if ops == [] then w else Run(Step(w, ops[0]), ops[1..])
  }

  const START: World := World(EMPTY, {}, {}, map[])

  // ------------------------------------------------------- what is claimed

  function CurrentCustomer(t: Tables, o: Id): Option<Seen<CustomerFields>> {
    if o in t.customers then Some(Seen(o, t.customers[o].key, t.customers[o].fields)) else None
  }

  function CurrentSubscription(t: Tables, o: Id): Option<Seen<SubscriptionFields>> {
    if o in t.subscriptions then Some(Seen(o, t.subscriptions[o].key, t.subscriptions[o].fields)) else None
  }

  /** The stored row is the accepted snapshot with the greatest (time, id), strictly
      greater than every other; there is a row exactly when something was accepted. */
  predicate IsGreatest<T(==)>(seen: set<Seen<T>>, o: Id, current: Option<Seen<T>>) {
    match current
    case None => forall s :: s in seen ==> s.organization != o
    case Some(c) =>
      && c in seen && c.organization == o
      && forall s :: s in seen && s.organization == o ==>
           || s == c
           || c.key.createdAt > s.key.createdAt
           || (c.key.createdAt == s.key.createdAt && c.key.id > s.key.id)
  }

  /** The invoice at i is a failure, nothing after it was paid, and it is the first one
      or follows a payment. */
  predicate OpensGrace(marks: seq<InvoiceMark>, i: int) {
    && 0 <= i < |marks|
    && (i == 0 || marks[i - 1].paid)
    && forall j :: i <= j < |marks| ==> !marks[j].paid
  }

  /** The grace end is the creation time of the first failure since the last payment,
      plus fourteen days; there is none when the last applied invoice was paid. */
  ghost predicate GraceIsFixed(marks: seq<InvoiceMark>, end: Option<nat>) {
    if end.None? then marks == [] || marks[|marks| - 1].paid
    else exists i :: OpensGrace(marks, i) && end.value == marks[i].key.createdAt + GRACE_MS
  }

  predicate KeysIncrease(marks: seq<InvoiceMark>) {
    forall i, j :: 0 <= i < j < |marks| ==>
      || marks[j].key.createdAt > marks[i].key.createdAt
      || (marks[j].key.createdAt == marks[i].key.createdAt && marks[j].key.id > marks[i].key.id)
  }

  function LastKey(marks: seq<InvoiceMark>): Option<EventKey> {
    if marks == [] then None else Some(marks[|marks| - 1].key)
  }

  ghost predicate InvoicesAgree(t: Tables, invoices: map<Id, seq<InvoiceMark>>, o: Id) {
    var marks := Marks(invoices, o);
    && KeysIncrease(marks)
    && (if o in t.subscriptions then
          && GraceIsFixed(marks, t.subscriptions[o].graceEndsAt)
          && t.subscriptions[o].invoiceKey == LastKey(marks)
        else marks == [])
  }

  predicate SettledAs(t: Tables, key: EventKey) {
    key.id in t.events && Settled(t.events[key.id]) && t.events[key.id].createdAt == key.createdAt
  }

  ghost predicate Faithful(w: World) {
    var t := w.state.tables;
    && (forall s :: s in w.customers ==> SettledAs(t, s.key))
    && (forall s :: s in w.subscriptions ==> SettledAs(t, s.key))
    && (forall o :: IsGreatest(w.customers, o, CurrentCustomer(t, o)))
    && (forall o :: IsGreatest(w.subscriptions, o, CurrentSubscription(t, o)))
    && (forall o :: InvoicesAgree(t, w.invoices, o))
  }

  // ------------------------------------------------------------ one snapshot

  /** The newer of the stored snapshot and an incoming one. */
  function Newer<T>(current: Option<Seen<T>>, s: Seen<T>): Seen<T> {
    if current.None? || After(s.key, current.value.key) then s else current.value
  }

  lemma GreatestGrows<T>(seen: set<Seen<T>>, o: Id, current: Option<Seen<T>>, s: Seen<T>)
    requires IsGreatest(seen, o, current)
    requires forall x :: x in seen ==> x.key.id != s.key.id
    ensures IsGreatest(seen + {s}, o, if s.organization == o then Some(Newer(current, s)) else current)
  {
  }

  /** Two sets of accepted snapshots that are equal leave equal rows. */
  lemma GreatestIsUnique<T>(seen: set<Seen<T>>, o: Id, a: Option<Seen<T>>, b: Option<Seen<T>>)
    requires IsGreatest(seen, o, a) && IsGreatest(seen, o, b)
    ensures a == b
  {
  }

  lemma GraceAfterInvoice(marks: seq<InvoiceMark>, sub: Subscription, key: EventKey, paid: bool, now: nat)
    requires GraceIsFixed(marks, sub.graceEndsAt)
    ensures GraceIsFixed(marks + [InvoiceMark(key, paid)], AfterInvoice(sub, key, paid, now).graceEndsAt)
  {
    var after := marks + [InvoiceMark(key, paid)];
    if !paid {
      if sub.graceEndsAt.None? {
        assert OpensGrace(after, |marks|);
      } else {
        var i :| OpensGrace(marks, i) && sub.graceEndsAt.value == marks[i].key.createdAt + GRACE_MS;
        assert OpensGrace(after, i);
      }
    }
  }

  // ------------------------------------------------------------ one delivery

  lemma SettledEventsStay(t: Tables, d: Delivery, now: nat, id: Id)
    requires id in t.events && Settled(t.events[id])
    ensures id in Process(t, d, now).tables.events
    ensures Process(t, d, now).tables.events[id] == t.events[id]
  {
    hide Process;
    var out := Process(t, d, now).tables;
    if !Registrable(t, d) {
      RefusedDeliveryChangesNothing(t, d, now);
    } else if d.id in t.events && Settled(t.events[d.id]) {
      RedeliveryChangesNothing(t, d, now);
    } else {
      EachDeliveryIsOneAttempt(t, d, now);
      assert id in t.events - {d.id} && id in out.events - {d.id};
    }
  }

  /** A delivery that was not processed leaves the projection alone. */
  lemma UnprocessedChangesNothing(t: Tables, d: Delivery, now: nat)
    requires !Process(t, d, now).reply.Processed?
    ensures SameProjection(t, Process(t, d, now).tables)
  {
    hide Process;
    if !Registrable(t, d) {
      RefusedDeliveryChangesNothing(t, d, now);
    } else if d.id in t.events && Settled(t.events[d.id]) {
      RedeliveryChangesNothing(t, d, now);
    } else {
      EachDeliveryIsOneAttempt(t, d, now);
    }
  }

  lemma ProcessedWasFresh(t: Tables, d: Delivery, now: nat)
    requires Process(t, d, now).reply.Processed?
    ensures Registrable(t, d) && (d.id in t.events ==> !Settled(t.events[d.id]))
    ensures SettledAs(Process(t, d, now).tables, KeyOf(d))
  {
    hide Process;
    if !Registrable(t, d) {
      RefusedDeliveryChangesNothing(t, d, now);
    } else if d.id in t.events && Settled(t.events[d.id]) {
      RedeliveryChangesNothing(t, d, now);
    } else {
      EachDeliveryIsOneAttempt(t, d, now);
    }
  }

  /** An accepted projection leaves, for the organization it names, the newer of the
      stored and the carried snapshot; it moves no payment state and no other row. */
  ghost predicate ProjectedOnto(t: Tables, u: Tables, p: Projection, key: EventKey) {
    && (forall o :: CurrentCustomer(u, o) ==
          if p.customer.Some? && o == p.organization
          then Some(Newer(CurrentCustomer(t, o), Seen(o, key, p.customer.value.fields)))
          else CurrentCustomer(t, o))
    && (forall o :: CurrentSubscription(u, o) ==
          if p.subscription.Some? && o == p.organization
          then Some(Newer(CurrentSubscription(t, o), Seen(o, key, p.subscription.value.fields)))
          else CurrentSubscription(t, o))
    && (forall o :: o in u.subscriptions ==>
          if o in t.subscriptions then
            && u.subscriptions[o].payment == t.subscriptions[o].payment
            && u.subscriptions[o].graceEndsAt == t.subscriptions[o].graceEndsAt
            && u.subscriptions[o].invoiceKey == t.subscriptions[o].invoiceKey
          else
            && u.subscriptions[o].payment == PaidUp
            && u.subscriptions[o].graceEndsAt.None? && u.subscriptions[o].invoiceKey.None?)
  }

  lemma ProjectBothProjects(t: Tables, key: EventKey, p: Projection, now: nat)
    requires ProjectBoth(t, key, p, now).Ok?
    ensures ProjectedOnto(t, ProjectBoth(t, key, p, now).value.tables, p, key)
  {
    var middle := if p.customer.Some? then ProjectCustomer(t, p.organization, key, p.customer.value).value.tables
                  else t;
    var last := ProjectBoth(t, key, p, now).value.tables;
    assert middle.subscriptions == t.subscriptions && last.customers == middle.customers;
  }

  lemma ApplyBillingProjects(t: Tables, kind: EventType, key: EventKey, p: Projection, now: nat)
    requires ApplyBilling(t, kind, key, p, now).reply.Processed?
    ensures ProjectedOnto(t, ApplyBilling(t, kind, key, p, now).tables, p, key)
  {
    var r := Register(t, kind, key).value.tables;
    ProjectBothProjects(r, key, p, now);
    var last := ProjectBoth(r, key, p, now).value.tables;
    ProjectedIgnoresEvents(t, r, last, ApplyBilling(t, kind, key, p, now).tables, p, key);
  }

  lemma ProjectedIgnoresEvents(t: Tables, t': Tables, u: Tables, u': Tables, p: Projection, key: EventKey)
    requires ProjectedOnto(t', u, p, key)
    requires SameProjection(t, t') && SameProjection(u, u')
    ensures ProjectedOnto(t, u', p, key)
  {
    assert forall o :: CurrentCustomer(u, o) == CurrentCustomer(u', o);
    assert forall o :: CurrentSubscription(u, o) == CurrentSubscription(u', o);
  }

  /** An accepted delivery did what applying its projection does. */
  lemma AcceptedApplies(t: Tables, d: Delivery, now: nat)
    requires Accepted(t, d, now)
    ensures Registrable(t, d) && Normalize(t, d.kind, d.payload).Ok?
    ensures var p := Normalize(t, d.kind, d.payload).value;
            var out := ApplyBilling(Register(t, d.kind, KeyOf(d)).value.tables, d.kind, KeyOf(d), p, now);
            out.reply.Processed? && Process(t, d, now) == out
  {
  }

  lemma AcceptedProjects(t: Tables, d: Delivery, now: nat)
    requires Accepted(t, d, now)
    ensures Normalize(t, d.kind, d.payload).Ok?
    ensures ProjectedOnto(t, Process(t, d, now).tables, Normalize(t, d.kind, d.payload).value, KeyOf(d))
  {
    hide ApplyBilling, Process, Normalize;
    AcceptedApplies(t, d, now);
    var p := Normalize(t, d.kind, d.payload).value;
    var r := Register(t, d.kind, KeyOf(d)).value.tables;
    var u := ApplyBilling(r, d.kind, KeyOf(d), p, now).tables;
    ApplyBillingProjects(r, d.kind, KeyOf(d), p, now);
    ProjectedIgnoresEvents(t, r, u, u, p, KeyOf(d));
  }

  /** What an accepted delivery is recorded to carry is what was projected of it. */
  lemma AcceptedCarries(t: Tables, d: Delivery, now: nat)
    requires Accepted(t, d, now) && d.createdAt.Some? && Normalize(t, d.kind, d.payload).Ok?
    ensures var p := Normalize(t, d.kind, d.payload).value;
            && CustomersIn(t, d, now)
               == (if p.customer.Some? then {Seen(p.organization, KeyOf(d), p.customer.value.fields)} else {})
            && SubscriptionsIn(t, d, now)
               == (if p.subscription.Some? then {Seen(p.organization, KeyOf(d), p.subscription.value.fields)} else {})
  {
    hide Process;
  }

  lemma NothingCarried(t: Tables, d: Delivery, now: nat)
    requires !Accepted(t, d, now)
    ensures CustomersIn(t, d, now) == {} && SubscriptionsIn(t, d, now) == {}
  {
    hide Process;
  }

  /** A processed invoice was either stale, leaving every subscription alone, or newer
      than the last one applied, changing its own subscription only. */
  ghost predicate InvoicedOnto(t: Tables, u: Tables, o: Id, key: EventKey, paid: bool, now: nat) {
    && o in t.subscriptions
    && u.customers == t.customers
    && (t.subscriptions[o].invoiceKey.Some? ==> After(key, t.subscriptions[o].invoiceKey.value))
    && u.subscriptions == t.subscriptions[o := AfterInvoice(t.subscriptions[o], key, paid, now)]
  }

  lemma ProcessedInvoices(t: Tables, d: Delivery, now: nat)
    requires Process(t, d, now).reply.Processed? && IsInvoice(d.kind)
    ensures d.createdAt.Some?
    ensures var u := Process(t, d, now).tables;
            match InvoicedOrganization(t, d, now)
            case None => u.customers == t.customers && u.subscriptions == t.subscriptions
            case Some(o) => InvoicedOnto(t, u, o, KeyOf(d), d.kind == InvoicePaid, now)
  {
    ProcessedWasFresh(t, d, now);
  }

  lemma ProcessedOthers(t: Tables, d: Delivery, now: nat)
    requires Process(t, d, now).reply.Processed? && d.kind.OtherType?
    ensures SameProjection(t, Process(t, d, now).tables)
  {
  }

  // -------------------------------------------------------------- whole runs

  /** Steps that touch neither snapshots nor settled events keep the record faithful. */
  lemma FaithfulUnlessProjected(w: World, s: State)
    requires Faithful(w)
    requires s.tables.customers == w.state.tables.customers
    requires s.tables.subscriptions == w.state.tables.subscriptions
    requires forall id :: id in w.state.tables.events && Settled(w.state.tables.events[id])
               ==> id in s.tables.events && s.tables.events[id] == w.state.tables.events[id]
    ensures Faithful(w.(state := s))
  {
    assert forall o :: CurrentCustomer(s.tables, o) == CurrentCustomer(w.state.tables, o);
    assert forall o :: CurrentSubscription(s.tables, o) == CurrentSubscription(w.state.tables, o);
    assert forall o :: InvoicesAgree(w.state.tables, w.invoices, o) ==> InvoicesAgree(s.tables, w.invoices, o);
  }

  lemma ProjectingLeavesInvoices(
    t: Tables, u: Tables, invoices: map<Id, seq<InvoiceMark>>, p: Projection, key: EventKey, o: Id)
    requires ProjectedOnto(t, u, p, key) && InvoicesAgree(t, invoices, o)
    ensures InvoicesAgree(u, invoices, o)
  {
    assert CurrentSubscription(u, o).Some? <==> o in u.subscriptions;
  }

  lemma FaithfulAfterProjection(w: World, u: Tables, clock: nat, p: Projection, key: EventKey)
    requires Faithful(w)
    requires ProjectedOnto(w.state.tables, u, p, key)
    requires SettledAs(u, key)
    requires key.id in w.state.tables.events ==> !Settled(w.state.tables.events[key.id])
    requires forall id :: id in w.state.tables.events && Settled(w.state.tables.events[id])
               ==> id in u.events && u.events[id] == w.state.tables.events[id]
    ensures Faithful(World(
                State(u, clock),
                w.customers + (if p.customer.Some? then {Seen(p.organization, key, p.customer.value.fields)} else {}),
                w.subscriptions
                + (if p.subscription.Some? then {Seen(p.organization, key, p.subscription.value.fields)} else {}),
                w.invoices))
  {
    hide InvoicesAgree, IsGreatest;
    var t := w.state.tables;
    forall o ensures InvoicesAgree(u, w.invoices, o) {
      ProjectingLeavesInvoices(t, u, w.invoices, p, key, o);
    }
    if p.customer.Some? {
      var s := Seen(p.organization, key, p.customer.value.fields);
      forall o ensures IsGreatest(w.customers + {s}, o, CurrentCustomer(u, o)) {
        GreatestGrows(w.customers, o, CurrentCustomer(t, o), s);
      }
    } else {
      assert w.customers + {} == w.customers;
      assert forall o :: CurrentCustomer(u, o) == CurrentCustomer(t, o);
    }
    if p.subscription.Some? {
      var s := Seen(p.organization, key, p.subscription.value.fields);
      forall o ensures IsGreatest(w.subscriptions + {s}, o, CurrentSubscription(u, o)) {
        GreatestGrows(w.subscriptions, o, CurrentSubscription(t, o), s);
      }
    } else {
      assert w.subscriptions + {} == w.subscriptions;
      assert forall o :: CurrentSubscription(u, o) == CurrentSubscription(t, o);
    }
  }

  lemma InvoicesAgreeAfter(
    t: Tables, u: Tables, invoices: map<Id, seq<InvoiceMark>>, o: Id, key: EventKey, paid: bool, now: nat, other: Id)
    requires InvoicedOnto(t, u, o, key, paid, now)
    requires InvoicesAgree(t, invoices, o) && InvoicesAgree(t, invoices, other)
    ensures InvoicesAgree(u, invoices[o := Marks(invoices, o) + [InvoiceMark(key, paid)]], other)
  {
    if other == o {
      var marks := Marks(invoices, o);
      GraceAfterInvoice(marks, t.subscriptions[o], key, paid, now);
      forall i | 0 <= i < |marks| ensures After(key, marks[i].key) {
        assert i < |marks| - 1 ==> After(marks[|marks| - 1].key, marks[i].key);
      }
    }
  }

  lemma FaithfulAfterInvoice(w: World, u: Tables, clock: nat, o: Id, key: EventKey, paid: bool)
    requires Faithful(w)
    requires InvoicedOnto(w.state.tables, u, o, key, paid, clock)
    requires forall id :: id in w.state.tables.events && Settled(w.state.tables.events[id])
               ==> id in u.events && u.events[id] == w.state.tables.events[id]
    ensures Faithful(World(
                State(u, clock), w.customers, w.subscriptions,
                w.invoices[o := Marks(w.invoices, o) + [InvoiceMark(key, paid)]]))
  {
    var t := w.state.tables;
    assert forall k :: CurrentCustomer(u, k) == CurrentCustomer(t, k);
    assert forall k :: CurrentSubscription(u, k) == CurrentSubscription(t, k);
    var invoices := w.invoices[o := Marks(w.invoices, o) + [InvoiceMark(key, paid)]];
    forall other ensures InvoicesAgree(u, invoices, other) {
      InvoicesAgreeAfter(t, u, w.invoices, o, key, paid, clock, other);
    }
  }

  lemma DeliveryIsFaithful(w: World, timed: Timed)
    requires Faithful(w) && timed.op.Deliver?
    ensures Faithful(Step(w, timed))
  {
    hide Process, Normalize, CustomersIn, SubscriptionsIn, SettledAs, Settled;
    var t := w.state.tables;
    var d := timed.op.delivery;
    var next := Advance(w.state, timed);
    var now := next.clock;
    forall id | id in t.events && Settled(t.events[id])
      ensures id in next.tables.events && next.tables.events[id] == t.events[id]
    {
      SettledEventsStay(t, d, now, id);
    }
    if !Accepted(t, d, now) {
      NothingCarried(t, d, now);
    }
    if !Process(t, d, now).reply.Processed? {
      UnprocessedChangesNothing(t, d, now);
      FaithfulUnlessProjected(w, next);
    } else {
      ProcessedWasFresh(t, d, now);
      if d.kind.OtherType? {
        ProcessedOthers(t, d, now);
        FaithfulUnlessProjected(w, next);
      } else if IsInvoice(d.kind) {
        ProcessedInvoices(t, d, now);
        if InvoicedOrganization(t, d, now).Some? {
          FaithfulAfterInvoice(
            w, next.tables, now, InvoicedOrganization(t, d, now).value, KeyOf(d), d.kind == InvoicePaid);
        } else {
          FaithfulUnlessProjected(w, next);
        }
      } else {
        AcceptedProjects(t, d, now);
        AcceptedCarries(t, d, now);
        FaithfulAfterProjection(w, next.tables, now, Normalize(t, d.kind, d.payload).value, KeyOf(d));
      }
    }
  }

  lemma QuietStepsProjectNothing(t: Tables, op: Op, now: nat)
    requires !op.Deliver?
    ensures var u := StepTables(t, op, now);
            && u.customers == t.customers && u.subscriptions == t.subscriptions
            && forall id | id in t.events && Settled(t.events[id]) ::
                 id in u.events && u.events[id] == t.events[id]
  {
    hide Process, AccessAt, SeatHolders, EndsAfterStart, HoldsSeat, AdminMayWrite;
  }

  lemma StepIsFaithful(w: World, timed: Timed)
    requires Faithful(w)
    ensures Faithful(Step(w, timed))
  {
    hide Faithful, StepTables;
    if timed.op.Deliver? {
      DeliveryIsFaithful(w, timed);
    } else {
      QuietStepsProjectNothing(w.state.tables, timed.op, w.state.clock + timed.elapsed);
      FaithfulUnlessProjected(w, Advance(w.state, timed));
    }
  }

  lemma {:induction false} RunIsFaithful(w: World, ops: seq<Timed>)
    requires Faithful(w)
    ensures Faithful(Run(w, ops))
    decreases |ops|
  {
    if ops != [] {
      StepIsFaithful(w, ops[0]);
      RunIsFaithful(Step(w, ops[0]), ops[1..]);
    }
  }

  /** The recorded run visits the same states as the plain one. */
  lemma {:induction false} RunReaches(w: World, ops: seq<Timed>)
    ensures Run(w, ops).state == Reach(w.state, ops)
    decreases |ops|
  {
    if ops != [] {
      RunReaches(Step(w, ops[0]), ops[1..]);
    }
  }

  lemma EveryRunIsFaithful(ops: seq<Timed>)
    ensures Faithful(Run(START, ops))
  {
    forall o ensures InvoicesAgree(EMPTY.tables, map[], o) {
    }
    RunIsFaithful(START, ops);
  }

  /** Whatever the order and repetition of deliveries, and whatever happened in
      between, two runs that accepted the same subscription snapshots for an
      organization hold the same snapshot: the greatest by (creation time, id). */
  lemma SubscriptionsConverge(a: seq<Timed>, b: seq<Timed>, o: Id)
    requires (set s | s in Run(START, a).subscriptions && s.organization == o)
             == (set s | s in Run(START, b).subscriptions && s.organization == o)
    ensures CurrentSubscription(Run(START, a).state.tables, o) == CurrentSubscription(Run(START, b).state.tables, o)
    ensures IsGreatest(Run(START, a).subscriptions, o, CurrentSubscription(Run(START, a).state.tables, o))
  {
    EveryRunIsFaithful(a);
    EveryRunIsFaithful(b);
    var seen := set s | s in Run(START, a).subscriptions && s.organization == o;
    var x := CurrentSubscription(Run(START, a).state.tables, o);
    var y := CurrentSubscription(Run(START, b).state.tables, o);
    SameForOrganization(Run(START, a).subscriptions, seen, o, x);
    SameForOrganization(Run(START, b).subscriptions, seen, o, y);
    GreatestIsUnique(seen, o, x, y);
  }

  lemma SameForOrganization<T>(all: set<Seen<T>>, seen: set<Seen<T>>, o: Id, current: Option<Seen<T>>)
    requires IsGreatest(all, o, current)
    requires seen == set s | s in all && s.organization == o
    ensures IsGreatest(seen, o, current)
  {
  }

  /** The same for customer snapshots. */
  lemma CustomersConverge(a: seq<Timed>, b: seq<Timed>, o: Id)
    requires (set s | s in Run(START, a).customers && s.organization == o)
             == (set s | s in Run(START, b).customers && s.organization == o)
    ensures CurrentCustomer(Run(START, a).state.tables, o) == CurrentCustomer(Run(START, b).state.tables, o)
    ensures IsGreatest(Run(START, a).customers, o, CurrentCustomer(Run(START, a).state.tables, o))
  {
    EveryRunIsFaithful(a);
    EveryRunIsFaithful(b);
    var seen := set s | s in Run(START, a).customers && s.organization == o;
    var x := CurrentCustomer(Run(START, a).state.tables, o);
    var y := CurrentCustomer(Run(START, b).state.tables, o);
    SameForOrganization(Run(START, a).customers, seen, o, x);
    SameForOrganization(Run(START, b).customers, seen, o, y);
    GreatestIsUnique(seen, o, x, y);
  }

  /** In every reachable state the grace end is fixed by the first failure applied since
      the last payment, invoices are applied in key order, and payment is current exactly
      when there is no grace end. */
  lemma GraceIsFixedInEveryRun(ops: seq<Timed>, o: Id)
    requires o in Run(START, ops).state.tables.subscriptions
    ensures var w := Run(START, ops);
            && GraceIsFixed(Marks(w.invoices, o), w.state.tables.subscriptions[o].graceEndsAt)
            && KeysIncrease(Marks(w.invoices, o))
            && PaymentMatchesGrace(w.state.tables.subscriptions[o])
  {
    EveryRunIsFaithful(ops);
    RunReaches(START, ops);
    EveryReachableStateIsSound(ops);
    assert InvoicesAgree(Run(START, ops).state.tables, Run(START, ops).invoices, o);
  }

  /** A running grace end moves on no step but an applied payment. */
  lemma GraceEndStandsUntilPaid(w: World, timed: Timed, o: Id)
    requires o in w.state.tables.subscriptions
    requires w.state.tables.subscriptions[o].graceEndsAt.Some?
    ensures var before := w.state.tables.subscriptions[o];
            var after := Step(w, timed);
            && o in after.state.tables.subscriptions
            && (after.state.tables.subscriptions[o].graceEndsAt == before.graceEndsAt
                || (exists key :: Marks(after.invoices, o) == Marks(w.invoices, o) + [InvoiceMark(key, true)]))
  {
    hide StepTables;
    if timed.op.Deliver? {
      DeliveryKeepsGraceEnd(w, timed, o);
    } else {
      QuietStepsProjectNothing(w.state.tables, timed.op, w.state.clock + timed.elapsed);
    }
  }

  lemma DeliveryKeepsGraceEnd(w: World, timed: Timed, o: Id)
    requires timed.op.Deliver?
    requires o in w.state.tables.subscriptions
    requires w.state.tables.subscriptions[o].graceEndsAt.Some?
    ensures var before := w.state.tables.subscriptions[o];
            var after := Step(w, timed);
            && o in after.state.tables.subscriptions
            && (after.state.tables.subscriptions[o].graceEndsAt == before.graceEndsAt
                || (exists key :: Marks(after.invoices, o) == Marks(w.invoices, o) + [InvoiceMark(key, true)]))
  {
    hide Process, Normalize;
    var t := w.state.tables;
    var d := timed.op.delivery;
    var now := Advance(w.state, timed).clock;
    if !Process(t, d, now).reply.Processed? {
      UnprocessedChangesNothing(t, d, now);
    } else if d.kind.OtherType? {
      ProcessedOthers(t, d, now);
    } else if IsInvoice(d.kind) {
      ProcessedInvoices(t, d, now);
      assert Marks(Step(w, timed).invoices, o) != Marks(w.invoices, o) ==>
        Marks(Step(w, timed).invoices, o) == Marks(w.invoices, o) + [InvoiceMark(KeyOf(d), d.kind == InvoicePaid)];
    } else {
      AcceptedProjects(t, d, now);
      assert CurrentSubscription(Advance(w.state, timed).tables, o).Some?;
    }
  }
}
