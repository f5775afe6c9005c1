/** The two refusals by the entitlement window that a run can come to: a failed invoice that
    arrives too late, and a seat assigned while an expired grace end stands. */
module BillingLateFailures {
  import opened Prelude
  import opened Billing
  import opened StripeWebhook
  import opened BillingRuns
  import opened BillingInvariants
  import opened BillingHistory

  // ------------------------------------------------- how long it is aborted

  /** A failed invoice waits: its subscription is still there, no newer invoice was applied,
      and a member holds a seat. */
  predicate Waits(t: Tables, o: Id, m: Id, stripeId: Id, key: EventKey) {
    && o in t.subscriptions && t.subscriptions[o].fields.stripeId == stripeId
    && (t.subscriptions[o].invoiceKey.None? || After(key, t.subscriptions[o].invoiceKey.value))
    && m in t.entitlements && HoldsSeat(t.entitlements[m], o)
  }

  /** It is also too late: no grace runs, and its whole grace lies before the seat began. */
  predicate Blocked(t: Tables, o: Id, m: Id, stripeId: Id, key: EventKey) {
    && Waits(t, o, m, stripeId, key)
    && t.subscriptions[o].graceEndsAt.None?
    && key.createdAt + GRACE_MS <= t.entitlements[m].startsAt
  }

  lemma BlockedIsAborted(t: Tables, o: Id, m: Id, stripeId: Id, key: EventKey, now: nat)
    requires Sound(t, now) && Blocked(t, o, m, stripeId, key)
    ensures ProjectInvoice(t, key, false, stripeId, now) == Err(EndNotAfterStart)
  {
    hide Sound, ProjectInvoice;
    assert UniqueStripeIds(t) by { SoundHasUniqueIds(t, now); }
    assert SubscriptionOwner(t.subscriptions, stripeId) == Some(o);
    assert m in SeatHolders(t.entitlements, o);
    LateFailuresAreAborted(t, key, false, stripeId, now);
  }

  lemma SoundHasUniqueIds(t: Tables, now: nat)
    requires Sound(t, now)
    ensures UniqueStripeIds(t)
  {
  }

  /** The same members have entitlements. Only held Stripe seats differ, and only in state and
      end. */
  predicate OnlySeatsRewritten(t: Tables, u: Tables) {
    && u.entitlements.Keys == t.entitlements.Keys
    && forall m | m in t.entitlements ::
         var e, e' := t.entitlements[m], u.entitlements[m];
         && e' == e.(state := e'.state, endsAt := e'.endsAt)
         && (e.source != FromStripe || e.state == Revoked ==> e' == e)
  }

  lemma SnapshotRewritesSeats(t: Tables, o: Id, key: EventKey, input: SubscriptionInput, now: nat)
    ensures var out := ProjectSubscription(t, o, key, input, now); out.Ok? ==> OnlySeatsRewritten(t, out.value.tables)
  {
  }

  lemma ProjectingRewritesSeats(t: Tables, key: EventKey, p: Projection, now: nat)
    ensures var out := ProjectBoth(t, key, p, now); out.Ok? ==> OnlySeatsRewritten(t, out.value.tables)
  {
    hide ProjectSubscription;
    if p.subscription.Some? {
      var middle :=
        if p.customer.Some? && ProjectCustomer(t, p.organization, key, p.customer.value).Ok?
        then ProjectCustomer(t, p.organization, key, p.customer.value).value.tables
        else t;
      SnapshotRewritesSeats(middle, p.organization, key, p.subscription.value, now);
    }
  }

  lemma InvoicingRewritesSeats(t: Tables, key: EventKey, paid: bool, stripeId: Id, now: nat)
    ensures var out := ProjectInvoice(t, key, paid, stripeId, now); out.Ok? ==> OnlySeatsRewritten(t, out.value.tables)
  {
  }

  lemma BillingRewritesSeats(t: Tables, kind: EventType, key: EventKey, p: Projection, now: nat)
    ensures OnlySeatsRewritten(t, ApplyBilling(t, kind, key, p, now).tables)
  {
    hide ProjectBoth;
    if Register(t, kind, key).Ok? {
      ProjectingRewritesSeats(Register(t, kind, key).value.tables, key, p, now);
    }
  }

  lemma InvoiceRewritesSeats(t: Tables, key: EventKey, paid: bool, stripeId: Id, now: nat)
    ensures OnlySeatsRewritten(t, ApplyInvoice(t, key, paid, stripeId, now).tables)
  {
    hide ProjectInvoice;
    var kind := if paid then InvoicePaid else InvoicePaymentFailed;
    if Register(t, kind, key).Ok? {
      InvoicingRewritesSeats(Register(t, kind, key).value.tables, key, paid, stripeId, now);
    }
  }

  lemma DispatchRewritesSeats(t: Tables, kind: EventType, key: EventKey, payload: Payload, now: nat)
    ensures OnlySeatsRewritten(t, Dispatch(t, kind, key, payload, now).tables)
  {
    hide ApplyBilling, ApplyInvoice, Normalize;
    if payload.Payload? {
      if IsInvoice(kind) && payload.invoiceSubscription.Some? {
        InvoiceRewritesSeats(t, key, kind == InvoicePaid, payload.invoiceSubscription.value, now);
      } else if IsProjected(kind) && Normalize(t, kind, payload).Ok? {
        BillingRewritesSeats(t, kind, key, Normalize(t, kind, payload).value, now);
      }
    }
  }

  /** A delivery of any kind leaves every entitlement but the held Stripe seats alone, and of
      those all but state and end. */
  lemma DeliveryRewritesSeats(t: Tables, d: Delivery, now: nat)
    ensures OnlySeatsRewritten(t, Process(t, d, now).tables)
  {
    hide Dispatch;
    if Registrable(t, d) && !(d.id in t.events && Settled(t.events[d.id])) {
      var key := EventKey(d.createdAt.value, d.id);
      DispatchRewritesSeats(Register(t, d.kind, key).value.tables, d.kind, key, d.payload, now);
    }
  }

  /** An invoice that was applied had been projected. */
  lemma AppliedInvoiceProjected(t: Tables, d: Delivery, now: nat)
    requires InvoicedOrganization(t, d, now).Some?
    ensures Registrable(t, d) && d.payload.Payload? && d.payload.invoiceSubscription.Some?
    ensures var key := KeyOf(d);
            var r := Register(t, d.kind, key).value.tables;
            && SameProjection(t, r) && r.members == t.members
            && ProjectInvoice(r, key, d.kind == InvoicePaid, d.payload.invoiceSubscription.value, now).Ok?
  {
    hide ProjectInvoice;
    ProcessedWasFresh(t, d, now);
  }

  /** No failure that would be older can be applied before a waiting one. */
  lemma OlderFailuresAreAborted(t: Tables, d: Delivery, o: Id, m: Id, stripeId: Id, key: EventKey, now: nat)
    requires Sound(t, now) && Blocked(t, o, m, stripeId, key)
    requires InvoicedOrganization(t, d, now) == Some(o)
    requires d.createdAt.Some? && After(key, KeyOf(d))
    ensures d.kind == InvoicePaid
  {
    hide Process, ProjectInvoice, Sound;
    AppliedInvoiceProjected(t, d, now);
    var r := Register(t, d.kind, KeyOf(d)).value.tables;
    SoundIgnoresEvents(t, r, now);
    ProcessedInvoices(t, d, now);
    if d.kind != InvoicePaid {
      assert Blocked(r, o, m, stripeId, KeyOf(d));
      BlockedIsAborted(r, o, m, stripeId, KeyOf(d), now);
    }
  }

  lemma DeliveryKeepsBlocked(t: Tables, d: Delivery, o: Id, m: Id, stripeId: Id, key: EventKey, now: nat)
    requires Sound(t, now) && Blocked(t, o, m, stripeId, key)
    requires Waits(Process(t, d, now).tables, o, m, stripeId, key)
    ensures Blocked(Process(t, d, now).tables, o, m, stripeId, key)
  {
    hide Process, Normalize, Sound;
    var u := Process(t, d, now).tables;
    DeliveryRewritesSeats(t, d, now);
    if !Process(t, d, now).reply.Processed? {
      UnprocessedChangesNothing(t, d, now);
    } else if d.kind.OtherType? {
      ProcessedOthers(t, d, now);
    } else if IsInvoice(d.kind) {
      ProcessedInvoices(t, d, now);
      if InvoicedOrganization(t, d, now) == Some(o) {
        OlderFailuresAreAborted(t, d, o, m, stripeId, key, now);
      }
    } else {
      AcceptedProjects(t, d, now);
    }
  }

  lemma StepKeepsBlocked(t: Tables, op: Op, o: Id, m: Id, stripeId: Id, key: EventKey, now: nat)
    requires Sound(t, now) && Blocked(t, o, m, stripeId, key)
    requires Waits(StepTables(t, op, now), o, m, stripeId, key)
    ensures Blocked(StepTables(t, op, now), o, m, stripeId, key)
  {
    hide Process;
    if op.Deliver? {
      DeliveryKeepsBlocked(t, op.delivery, o, m, stripeId, key, now);
    } else {
      assert RowCached(t, m, now);
    }
  }

  /** The failure waits in every state of a run. */
  ghost predicate WaitsThroughout(s: State, ops: seq<Timed>, o: Id, m: Id, stripeId: Id, key: EventKey)
    decreases |ops|
  {
    && Waits(s.tables, o, m, stripeId, key)
    && (ops != [] ==> WaitsThroughout(Advance(s, ops[0]), ops[1..], o, m, stripeId, key))
  }

  /** A failed invoice that is aborted once keeps being aborted, in every state of every run,
      until a newer invoice is applied, the seat is given up or the subscription is replaced. */
  lemma {:induction false} LateFailureStaysAborted(
    s: State, ops: seq<Timed>, o: Id, m: Id, stripeId: Id, key: EventKey, now: nat)
    requires Sound(s.tables, s.clock) && Blocked(s.tables, o, m, stripeId, key)
    requires WaitsThroughout(s, ops, o, m, stripeId, key)
    requires Reach(s, ops).clock <= now
    ensures ProjectInvoice(Reach(s, ops).tables, key, false, stripeId, now) == Err(EndNotAfterStart)
    decreases |ops|
  {
    hide Sound, StepTables, ProjectInvoice, Blocked, Waits;
    if ops == [] {
      SoundLater(s.tables, s.clock, now);
      BlockedIsAborted(s.tables, o, m, stripeId, key, now);
    } else {
      var next := Advance(s, ops[0]);
      AdvanceIsSound(s, ops[0]);
      SoundLater(s.tables, s.clock, next.clock);
      assert WaitsThroughout(next, ops[1..], o, m, stripeId, key);
      StepKeepsBlocked(s.tables, ops[0].op, o, m, stripeId, key, next.clock);
      LateFailureStaysAborted(next, ops[1..], o, m, stripeId, key, now);
    }
  }

  // ------------------------------------------------------------ runs to both

  /** One organization with a subscription of one seat from the moment 0, and one member. */
  const FIELDS: SubscriptionFields := SubscriptionFields(7, 8, StatusActive, 1, false, None)
  const SUBSCRIBED: Delivery := Delivery(
    5, SubscriptionCreated, Some(0),
    Payload(Some(1), Some(7), Some(6), None, None, Some(FIELDS), None, true))
  const FAILED: Delivery := Delivery(
    9, InvoicePaymentFailed, Some(0), Payload(None, Some(10), None, None, None, None, Some(7), true))

  const BEFORE: Tables := Tables({1}, map[2 := Member(1, false)], map[], map[], map[], map[])
  const PAID: Subscription := Subscription(EventKey(0, 5), FIELDS, PaidUp, None, None)
  const OPENED: Tables := Tables(
    {1}, map[2 := Member(1, false)], map[], map[1 := PAID], map[],
    map[5 := StripeEvent(SubscriptionCreated, 0, EventApplied, 1)])

  const ASSIGNED: Tables := OPENED.(
    entitlements := map[2 := Entitlement(1, Active, FromStripe, GRACE_MS, None)])

  const OPENING: seq<Timed> :=
    [Timed(CreateOrganization(1), 0)] + [Timed(Join(1, 2), 0)] + [Timed(Deliver(SUBSCRIBED), 0)]

  lemma SnapshotOpens(r: Tables)
    requires r.organizations == {1} && r.customers == map[] && r.subscriptions == map[] && r.entitlements == map[]
    ensures ProjectSubscription(r, 1, EventKey(0, 5), SubscriptionInput(FIELDS, true), 0)
            == Ok(Projected(r.(subscriptions := map[1 := PAID]), true))
  {
    assert SeatHolders(map[], 1) == {};
    assert Rewritten(map[], 1, AccessAt(PAID, 0)) == map[];
    assert Reconcile(map[], PAID, 1, 0) == Ok(map[]);
  }

  lemma SubscribingOpens()
    ensures Process(BEFORE, SUBSCRIBED, 0).tables == OPENED
  {
    hide ProjectSubscription;
    var key := EventKey(0, 5);
    var r := BEFORE.(events := map[5 := StripeEvent(SubscriptionCreated, 0, EventPending, 0)]);
    assert Register(BEFORE, SubscriptionCreated, key) == Ok(Registered(r, true));
    SnapshotOpens(r);
  }

  lemma {:induction false} ReachConcat(s: State, ops: seq<Timed>, more: seq<Timed>)
    ensures Reach(s, ops + more) == Reach(Reach(s, ops), more)
    decreases |ops|
  {
    hide Advance;
    if ops == [] {
      assert ops + more == more;
    } else {
      assert (ops + more)[1..] == ops[1..] + more;
      ReachConcat(Advance(s, ops[0]), ops[1..], more);
    }
  }

  lemma ReachOne(s: State, timed: Timed)
    ensures Reach(s, [timed]) == Advance(s, timed)
  {
    assert [timed][1..] == [];
  }

  lemma FoundingSteps()
    ensures var one := StepTables(EMPTY.tables, CreateOrganization(1), 0);
            StepTables(one, Join(1, 2), 0) == BEFORE
  {
    hide Process;
  }

  lemma OpeningReaches()
    ensures Reach(EMPTY, OPENING) == State(OPENED, 0)
  {
    hide StepTables, Reach, Process;
    var first, second, third := Timed(CreateOrganization(1), 0), Timed(Join(1, 2), 0), Timed(Deliver(SUBSCRIBED), 0);
    FoundingSteps();
    DeliveringIsProcessing(BEFORE, SUBSCRIBED, 0);
    SubscribingOpens();
    ReachOne(EMPTY, first);
    RunOn([first], Advance(EMPTY, first), second);
    RunOn([first] + [second], State(BEFORE, 0), third);
  }

  lemma RunOn(ops: seq<Timed>, s: State, timed: Timed)
    requires Reach(EMPTY, ops) == s
    ensures Reach(EMPTY, ops + [timed]) == Advance(s, timed)
  {
    hide Advance;
    ReachConcat(EMPTY, ops, [timed]);
    ReachOne(s, timed);
  }

  lemma DeliveringIsProcessing(t: Tables, d: Delivery, now: nat)
    ensures StepTables(t, Deliver(d), now) == Process(t, d, now).tables
  {
    hide Process;
  }

  lemma AssigningTakesTheSeat()
    ensures StepTables(OPENED, Assign(true, 1, 2), GRACE_MS) == ASSIGNED
  {
    hide Process;
    assert SeatHolders(map[], 1) == {};
  }

  /** A run comes to a failed invoice that is aborted: the seat is assigned fourteen days after
      the failure was created, and the failure arrives after that. */
  lemma SomeRunAbortsAFailure()
    ensures var ops := OPENING + [Timed(Assign(true, 1, 2), GRACE_MS)];
            var s := Reach(EMPTY, ops);
            && Blocked(s.tables, 1, 2, 7, EventKey(0, 9))
            && ProjectInvoice(s.tables, EventKey(0, 9), false, 7, s.clock) == Err(EndNotAfterStart)
  {
    hide StepTables, Sound, ProjectInvoice, Blocked;
    var assigning := Timed(Assign(true, 1, 2), GRACE_MS);
    OpeningReaches();
    RunOn(OPENING, State(OPENED, 0), assigning);
    AssigningTakesTheSeat();
    EveryReachableStateIsSound(OPENING + [assigning]);
    AssignedIsBlocked();
    BlockedIsAborted(ASSIGNED, 1, 2, 7, EventKey(0, 9), GRACE_MS);
  }

  lemma AssignedIsBlocked()
    ensures Blocked(ASSIGNED, 1, 2, 7, EventKey(0, 9))
  {
  }

  lemma FailingOpensGrace()
    ensures var u := Process(OPENED, FAILED, 0).tables;
            && u.members == OPENED.members && u.entitlements == map[]
            && u.subscriptions == map[1 := AfterInvoice(PAID, EventKey(0, 9), false, 0)]
  {
    var key := EventKey(0, 9);
    var r := OPENED.(events := OPENED.events[9 := StripeEvent(InvoicePaymentFailed, 0, EventPending, 0)]);
    assert Register(OPENED, InvoicePaymentFailed, key) == Ok(Registered(r, true));
    assert SubscriptionOwner(r.subscriptions, 7) == Some(1) by {
      assert r.subscriptions[1].fields.stripeId == 7;
    }
    var row := AfterInvoice(PAID, key, false, 0);
    assert SeatHolders(map[], 1) == {};
    assert Rewritten(map[], 1, AccessAt(row, 0)) == map[];
    assert Reconcile(map[], row, 1, 0) == Ok(map[]);
  }

  /** A run comes to a free seat that cannot be assigned: a payment failed, and the grace it
      opened has ended. */
  lemma SomeRunBlocksAnAssignment()
    ensures var ops := OPENING + [Timed(Deliver(FAILED), 0)];
            var t := Reach(EMPTY, ops).tables;
            && |SeatHolders(t.entitlements, 1) - {2}| < PurchasedSeats(t, 1)
            && AssignSeat(t, true, 1, 2, GRACE_MS) == Err(EndNotAfterStart)
  {
    hide StepTables, AssignSeat, Process;
    var failing := Timed(Deliver(FAILED), 0);
    OpeningReaches();
    RunOn(OPENING, State(OPENED, 0), failing);
    DeliveringIsProcessing(OPENED, FAILED, 0);
    FailingOpensGrace();
    AssigningAfterGrace(Process(OPENED, FAILED, 0).tables);
  }

  lemma AssigningAfterGrace(u: Tables)
    requires u.members == OPENED.members && u.entitlements == map[]
    requires u.subscriptions == map[1 := AfterInvoice(PAID, EventKey(0, 9), false, 0)]
    ensures |SeatHolders(u.entitlements, 1) - {2}| < PurchasedSeats(u, 1)
    ensures AssignSeat(u, true, 1, 2, GRACE_MS) == Err(EndNotAfterStart)
  {
    assert SeatHolders(map[], 1) == {};
  }
}
