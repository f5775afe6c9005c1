/** What every reachable state of the billing tables satisfies: purchased seats bound
    assigned seats, and the entitlement rows written in the past answer every later
    access question as recomputing from the subscription would. */
module BillingInvariants {
  import opened Prelude
  import opened Billing
  import opened StripeWebhook
  import opened BillingRuns

  /** Every entitlement belongs to a member of its organization. */
  predicate Scoped(t: Tables) {
    forall m :: m in t.entitlements ==>
      m in t.members && t.members[m].organization == t.entitlements[m].organization
  }

  /** Stripe customer and subscription ids are unique columns. */
  predicate UniqueStripeIds(t: Tables) {
    && (forall a, b | a in t.customers && b in t.customers ::
          t.customers[a].fields.stripeId == t.customers[b].fields.stripeId ==> a == b)
    && (forall a, b | a in t.subscriptions && b in t.subscriptions ::
          t.subscriptions[a].fields.stripeId == t.subscriptions[b].fields.stripeId ==> a == b)
  }

  function PurchasedSeats(t: Tables, organization: Id): nat {
    if organization in t.subscriptions then t.subscriptions[organization].fields.seats else 0
  }

  predicate SeatBound(t: Tables, organization: Id) {
    |SeatHolders(t.entitlements, organization)| <= PurchasedSeats(t, organization)
  }

  /** Payment is current exactly when there is no grace end. */
  predicate PaymentMatchesGrace(sub: Subscription) {
    sub.payment == PaidUp <==> sub.graceEndsAt.None?
  }

  /** A cached row answers every question from now on as the subscription does. */
  ghost predicate AgreesFrom(sub: Subscription, e: Entitlement, clock: nat) {
    && e.startsAt <= clock
    && (forall at: nat :: clock <= at ==> (InForce(e, at) <==> AccessAt(sub, at).state != Suspended))
    && (sub.graceEndsAt.Some? ==> e.startsAt < sub.graceEndsAt.value)
  }

  ghost predicate RowCached(t: Tables, m: Id, clock: nat)
    requires m in t.entitlements
  {
    var e := t.entitlements[m];
    HoldsSeat(e, e.organization) ==>
      e.organization in t.subscriptions && AgreesFrom(t.subscriptions[e.organization], e, clock)
  }

  ghost predicate Sound(t: Tables, clock: nat) {
    && Scoped(t)
    && UniqueStripeIds(t)
    && (forall o :: SeatBound(t, o))
    && (forall o :: o in t.subscriptions ==> PaymentMatchesGrace(t.subscriptions[o]))
    && (forall m :: m in t.entitlements ==> RowCached(t, m, clock))
  }

  // ------------------------------------------------- one entitlement row

  /** A row written with the access of this moment agrees from this moment on. */
  lemma FreshRowAgrees(sub: Subscription, e: Entitlement, now: nat)
    requires e.state == AccessAt(sub, now).state && e.endsAt == AccessAt(sub, now).endsAt
    requires e.startsAt <= now && EndsAfterStart(e) && PaymentMatchesGrace(sub)
    ensures AgreesFrom(sub, e, now)
  {
  }

  lemma SoundLater(t: Tables, clock: nat, now: nat)
    requires Sound(t, clock) && clock <= now
    ensures Sound(t, now)
  {
  }

  lemma SeatsAfterWrite(t: Tables, member: Id, row: Entitlement, o: Id)
    requires SeatBound(t, o)
    requires HoldsSeat(row, o) ==> |SeatHolders(t.entitlements, o) - {member}| < PurchasedSeats(t, o)
    ensures SeatBound(t.(entitlements := t.entitlements[member := row]), o)
  {
    hide HoldsSeat;
    var before := SeatHolders(t.entitlements, o);
    var holders := SeatHolders(t.entitlements[member := row], o);
    assert holders - {member} == before - {member};
    SizeWithout(holders, member);
    SizeWithout(before, member);
  }

  /** Writing one row keeps the tables sound when it holds no seat, or holds a seat
      that was free with the access of this moment. */
  lemma WriteRow(t: Tables, member: Id, row: Entitlement, now: nat)
    requires Sound(t, now)
    requires member in t.members && t.members[member].organization == row.organization
    requires HoldsSeat(row, row.organization) ==>
               && row.organization in t.subscriptions
               && AgreesFrom(t.subscriptions[row.organization], row, now)
               && |SeatHolders(t.entitlements, row.organization) - {member}| < PurchasedSeats(t, row.organization)
    ensures Sound(t.(entitlements := t.entitlements[member := row]), now)
  {
    hide SeatBound, AgreesFrom;
    var after := t.(entitlements := t.entitlements[member := row]);
    forall o ensures SeatBound(after, o) {
      assert SeatBound(t, o);
      SeatsAfterWrite(t, member, row, o);
    }
    forall m | m in after.entitlements ensures RowCached(after, m, now) {
      assert m != member ==> RowCached(t, m, now);
    }
  }

  lemma DropMember(t: Tables, member: Id, now: nat)
    requires Sound(t, now)
    ensures Sound(RemoveMember(t, member), now)
  {
    var after := RemoveMember(t, member);
    forall o ensures SeatBound(after, o) {
      SizeMonotone(SeatHolders(after.entitlements, o), SeatHolders(t.entitlements, o));
      assert SeatBound(t, o);
    }
    forall m | m in after.entitlements ensures RowCached(after, m, now) {
      assert RowCached(t, m, now);
    }
  }

  // ------------------------------------------------- one subscription row

  /** Rewriting held seats changes who holds one for no organization. */
  lemma RewritingKeepsHolders(ents: map<Id, Entitlement>, organization: Id, access: Access, o: Id)
    requires access.state != Revoked
    ensures SeatHolders(Rewritten(ents, organization, access), o) == SeatHolders(ents, o)
  {
  }

  /** Every write of a subscription row is followed by a reconciliation; together
      they keep the tables sound when the row covers the seats already held. */
  lemma WriteSubscription(t: Tables, organization: Id, row: Subscription, now: nat)
    requires Sound(t, now)
    requires PaymentMatchesGrace(row)
    requires |SeatHolders(t.entitlements, organization)| <= row.fields.seats
    requires forall o :: o in t.subscriptions && o != organization
               ==> t.subscriptions[o].fields.stripeId != row.fields.stripeId
    requires Reconcile(t.entitlements, row, organization, now).Ok?
    ensures Sound(
        t.(subscriptions := t.subscriptions[organization := row],
           entitlements := Reconcile(t.entitlements, row, organization, now).value), now)
  {
    var ents := Reconcile(t.entitlements, row, organization, now).value;
    var after := t.(subscriptions := t.subscriptions[organization := row], entitlements := ents);
    forall o ensures SeatBound(after, o) {
      RewritingKeepsHolders(t.entitlements, organization, AccessAt(row, now), o);
      assert SeatBound(t, o);
    }
    forall m | m in after.entitlements ensures RowCached(after, m, now) {
      assert RowCached(t, m, now);
      if HoldsSeat(t.entitlements[m], organization) {
        assert m in SeatHolders(t.entitlements, organization);
        FreshRowAgrees(row, ents[m], now);
      }
    }
  }

  lemma ProjectingCustomerIsSound(t: Tables, organization: Id, key: EventKey, input: CustomerInput, now: nat)
    requires Sound(t, now) && ProjectCustomer(t, organization, key, input).Ok?
    ensures Sound(ProjectCustomer(t, organization, key, input).value.tables, now)
  {
    var after := ProjectCustomer(t, organization, key, input).value.tables;
    assert forall o :: SeatBound(t, o) ==> SeatBound(after, o);
    forall m | m in after.entitlements ensures RowCached(after, m, now) {
      assert RowCached(t, m, now);
    }
  }

  lemma ProjectingSubscriptionIsSound(
    t: Tables, organization: Id, key: EventKey, input: SubscriptionInput, now: nat)
    requires Sound(t, now) && ProjectSubscription(t, organization, key, input, now).Ok?
    ensures Sound(ProjectSubscription(t, organization, key, input, now).value.tables, now)
  {
    assert SeatBound(t, organization);
    var stale := organization in t.subscriptions && !After(key, t.subscriptions[organization].key);
    var row := if stale then t.subscriptions[organization] else Snapshot(t, organization, key, input.fields);
    WriteSubscription(t, organization, row, now);
  }

  lemma ProjectingInvoiceIsSound(t: Tables, key: EventKey, paid: bool, stripeId: Id, now: nat)
    requires Sound(t, now) && ProjectInvoice(t, key, paid, stripeId, now).Ok?
    ensures Sound(ProjectInvoice(t, key, paid, stripeId, now).value.tables, now)
  {
    var organization := SubscriptionOwner(t.subscriptions, stripeId).value;
    var sub := t.subscriptions[organization];
    if sub.invoiceKey.None? || After(key, sub.invoiceKey.value) {
      assert SeatBound(t, organization);
      WriteSubscription(t, organization, AfterInvoice(sub, key, paid, now), now);
    }
  }

  /** Tables that differ in event rows, organizations or disabled flags are equally sound. */
  lemma SoundIgnoresEvents(t: Tables, u: Tables, now: nat)
    requires Sound(t, now)
    requires SameProjection(t, u)
    requires forall m :: m in t.members ==>
               m in u.members && u.members[m].organization == t.members[m].organization
    ensures Sound(u, now)
  {
    assert forall o :: SeatBound(t, o) ==> SeatBound(u, o);
    forall m | m in u.entitlements ensures RowCached(u, m, now) {
      assert RowCached(t, m, now);
    }
  }

  // ------------------------------------------------------------ whole runs

  lemma ApplyingBillingIsSound(t: Tables, kind: EventType, key: EventKey, p: Projection, now: nat)
    requires Sound(t, now)
    ensures Sound(ApplyBilling(t, kind, key, p, now).tables, now)
  {
    var out := ApplyBilling(t, kind, key, p, now).tables;
    if Register(t, kind, key).Ok? {
      var r := Register(t, kind, key).value.tables;
      SoundIgnoresEvents(t, r, now);
      var done := ProjectBoth(r, key, p, now);
      if !Settled(r.events[key.id]) && done.Ok? {
        var middle := r;
        if p.customer.Some? {
          ProjectingCustomerIsSound(r, p.organization, key, p.customer.value, now);
          middle := ProjectCustomer(r, p.organization, key, p.customer.value).value.tables;
        }
        if p.subscription.Some? {
          ProjectingSubscriptionIsSound(middle, p.organization, key, p.subscription.value, now);
        }
        SoundIgnoresEvents(done.value.tables, out, now);
      } else {
        SoundIgnoresEvents(r, out, now);
      }
    }
  }

  lemma ApplyingInvoiceIsSound(t: Tables, key: EventKey, paid: bool, stripeId: Id, now: nat)
    requires Sound(t, now)
    ensures Sound(ApplyInvoice(t, key, paid, stripeId, now).tables, now)
  {
    var kind := if paid then InvoicePaid else InvoicePaymentFailed;
    var out := ApplyInvoice(t, key, paid, stripeId, now).tables;
    if Register(t, kind, key).Ok? {
      var r := Register(t, kind, key).value.tables;
      SoundIgnoresEvents(t, r, now);
      var done := ProjectInvoice(r, key, paid, stripeId, now);
      if !Settled(r.events[key.id]) && done.Ok? {
        ProjectingInvoiceIsSound(r, key, paid, stripeId, now);
        SoundIgnoresEvents(done.value.tables, out, now);
      } else {
        SoundIgnoresEvents(r, out, now);
      }
    }
  }

  lemma IgnoringIsSound(t: Tables, kind: EventType, key: EventKey, now: nat)
    requires Sound(t, now)
    ensures Sound(IgnoreEvent(t, kind, key).tables, now)
  {
    hide Sound;
    SoundIgnoresEvents(t, IgnoreEvent(t, kind, key).tables, now);
  }

  lemma DispatchIsSound(t: Tables, kind: EventType, key: EventKey, payload: Payload, now: nat)
    requires Sound(t, now)
    ensures Sound(Dispatch(t, kind, key, payload, now).tables, now)
  {
    hide Sound, Normalize, ApplyBilling, ApplyInvoice, IgnoreEvent;
    if payload.Payload? {
      if IsInvoice(kind) {
        if payload.invoiceSubscription.Some? {
          ApplyingInvoiceIsSound(t, key, kind == InvoicePaid, payload.invoiceSubscription.value, now);
        }
      } else if kind.OtherType? {
        IgnoringIsSound(t, kind, key, now);
      } else if Normalize(t, kind, payload).Ok? {
        ApplyingBillingIsSound(t, kind, key, Normalize(t, kind, payload).value, now);
      }
    }
  }

  lemma ProcessingIsSound(t: Tables, d: Delivery, now: nat)
    requires Sound(t, now)
    ensures Sound(Process(t, d, now).tables, now)
  {
    hide Sound, Dispatch;
    if Registrable(t, d) && !(d.id in t.events && Settled(t.events[d.id])) {
      var key := EventKey(d.createdAt.value, d.id);
      var r := Register(t, d.kind, key).value.tables;
      SoundIgnoresEvents(t, r, now);
      DispatchIsSound(r, d.kind, key, d.payload, now);
      var out := Dispatch(r, d.kind, key, d.payload, now).tables;
      SoundIgnoresEvents(out, FailEvent(out, d.kind, key), now);
    }
  }

  lemma SeatOpsAreSound(t: Tables, op: Op, now: nat)
    requires Sound(t, now) && (op.Assign? || op.Unassign?)
    ensures Sound(StepTables(t, op, now), now)
  {
    if op.Assign? {
      if AssignSeat(t, op.authorized, op.organization, op.member, now).Ok? {
        var access := AccessAt(t.subscriptions[op.organization], now);
        var row := Entitlement(op.organization, access.state, FromStripe, now, access.endsAt);
        FreshRowAgrees(t.subscriptions[op.organization], row, now);
        WriteRow(t, op.member, row, now);
      }
    } else if op.authorized && op.member in t.entitlements
              && HoldsSeat(t.entitlements[op.member], op.organization) {
      WriteRow(t, op.member, t.entitlements[op.member].(state := Revoked), now);
    }
  }

  lemma AdminOpsAreSound(t: Tables, op: Op, now: nat)
    requires Sound(t, now) && (op.AdminWrite? || op.AdminRevoke?)
    ensures Sound(StepTables(t, op, now), now)
  {
    if op.AdminWrite? {
      if AdminMayWrite(op.row.source) && UpsertEntitlement(t, op.member, op.row).Ok? {
        WriteRow(t, op.member, op.row, now);
      }
    } else if op.member in t.entitlements && t.entitlements[op.member].organization == op.organization {
      WriteRow(t, op.member, t.entitlements[op.member].(state := Revoked), now);
    }
  }

  lemma RegistrationIsSound(t: Tables, d: Delivery, now: nat)
    requires Sound(t, now)
    ensures Sound(RegisteredOnly(t, d), now)
  {
    hide Sound;
    SoundIgnoresEvents(t, RegisteredOnly(t, d), now);
  }

  lemma MembershipOpsAreSound(t: Tables, op: Op, now: nat)
    requires Sound(t, now) && (op.CreateOrganization? || op.Join? || op.Disable?)
    ensures Sound(StepTables(t, op, now), now)
  {
    hide Sound, Process;
    SoundIgnoresEvents(t, StepTables(t, op, now), now);
  }

  lemma OperationIsSound(t: Tables, op: Op, now: nat)
    requires Sound(t, now)
    ensures Sound(StepTables(t, op, now), now)
  {
    hide Sound, Process, AssignSeat, RevokeSeat, UpsertEntitlement, RevokeEntitlement, RemoveMember, RegisteredOnly;
    match op {
      case Deliver(d) => ProcessingIsSound(t, d, now);
      case Interrupted(d) => RegistrationIsSound(t, d, now);
      case Assign(_, _, _) => SeatOpsAreSound(t, op, now);
      case Unassign(_, _, _) => SeatOpsAreSound(t, op, now);
      case AdminWrite(_, _) => AdminOpsAreSound(t, op, now);
      case AdminRevoke(_, _) => AdminOpsAreSound(t, op, now);
      case Leave(member) => DropMember(t, member, now);
      case CreateOrganization(_) => MembershipOpsAreSound(t, op, now);
      case Join(_, _) => MembershipOpsAreSound(t, op, now);
      case Disable(_, _) => MembershipOpsAreSound(t, op, now);
    }
  }

  lemma AdvanceIsSound(s: State, timed: Timed)
    requires Sound(s.tables, s.clock)
    ensures Sound(Advance(s, timed).tables, Advance(s, timed).clock)
  {
    hide StepTables;
    SoundLater(s.tables, s.clock, s.clock + timed.elapsed);
    OperationIsSound(s.tables, timed.op, s.clock + timed.elapsed);
  }

  lemma {:induction false} ReachingIsSound(s: State, ops: seq<Timed>)
    requires Sound(s.tables, s.clock)
    ensures Sound(Reach(s, ops).tables, Reach(s, ops).clock)
    decreases |ops|
  {
    if ops != [] {
      AdvanceIsSound(s, ops[0]);
      ReachingIsSound(Advance(s, ops[0]), ops[1..]);
    }
  }

  lemma EveryReachableStateIsSound(ops: seq<Timed>)
    ensures Sound(Reach(EMPTY, ops).tables, Reach(EMPTY, ops).clock)
  {
    assert SeatHolders(map[], 0) == {};
    forall o ensures SeatBound(EMPTY.tables, o) {
      assert SeatHolders(EMPTY.tables.entitlements, o) == {};
    }
    ReachingIsSound(EMPTY, ops);
  }

  /** In every reachable state the held seats of an organization are at most the
      purchased ones, and none without a subscription. */
  lemma SeatsNeverExceedPurchase(ops: seq<Timed>, organization: Id)
    ensures var t := Reach(EMPTY, ops).tables;
            && |SeatHolders(t.entitlements, organization)| <= PurchasedSeats(t, organization)
            && (organization !in t.subscriptions ==> SeatHolders(t.entitlements, organization) == {})
  {
    EveryReachableStateIsSound(ops);
    assert SeatBound(Reach(EMPTY, ops).tables, organization);
  }

  /** In every reachable state and at every later time, the stored row of a seat holder
      answers as recomputing from the current subscription does; a disabled member and
      a revoked seat never count. */
  lemma CacheAgreesWithRecomputation(ops: seq<Timed>, member: Id, at: nat)
    requires member in Reach(EMPTY, ops).tables.entitlements
    requires Reach(EMPTY, ops).clock <= at
    ensures var t := Reach(EMPTY, ops).tables;
            var e := t.entitlements[member];
            && member in t.members
            && (HoldsSeat(e, e.organization) ==> e.organization in t.subscriptions)
            && (HoldsSeat(e, e.organization) && !t.members[member].disabled ==>
                  (HasActiveEntitlement(t, member, e.organization, at)
                   <==> AccessAt(t.subscriptions[e.organization], at).state != Suspended))
            && (e.state == Revoked || t.members[member].disabled ==>
                  !HasActiveEntitlement(t, member, e.organization, at))
  {
    EveryReachableStateIsSound(ops);
    assert RowCached(Reach(EMPTY, ops).tables, member, Reach(EMPTY, ops).clock);
  }

  // ------------------------------------ when the window constraint aborts

  /** In sound tables a subscription snapshot never trips the window constraint. */
  lemma SnapshotsNeverTripTheWindow(
    t: Tables, organization: Id, key: EventKey, input: SubscriptionInput, now: nat)
    requires Sound(t, now)
    ensures ProjectSubscription(t, organization, key, input, now) != Err(EndNotAfterStart)
  {
  }

  /** A stale subscription snapshot is refused exactly when it has fewer seats than are
      held, although it would not be written; otherwise it is ignored, and although the held
      seats are rewritten, nobody's access changes now or later. */
  lemma StaleSnapshotsChangeNoAccess(
    t: Tables, organization: Id, key: EventKey, input: SubscriptionInput, now: nat)
    requires Sound(t, now)
    requires organization in t.subscriptions && !After(key, t.subscriptions[organization].key)
    requires input.textValid && input.fields.stripeId != 0
    ensures var out := ProjectSubscription(t, organization, key, input, now);
            && (out.Err? <==> input.fields.seats < |SeatHolders(t.entitlements, organization)|)
            && (out.Ok? ==>
                  && !out.value.applied
                  && out.value.tables.subscriptions == t.subscriptions
                  && forall m, o, at: nat :: now <= at ==>
                       (HasActiveEntitlement(out.value.tables, m, o, at) <==> HasActiveEntitlement(t, m, o, at)))
  {
    SnapshotsNeverTripTheWindow(t, organization, key, input, now);
    var out := ProjectSubscription(t, organization, key, input, now);
    if out.Ok? {
      var row := t.subscriptions[organization];
      var u := out.value.tables;
      assert u.subscriptions == t.subscriptions;
      assert u.entitlements == Rewritten(t.entitlements, organization, AccessAt(row, now));
      forall m, o, at: nat | now <= at
        ensures HasActiveEntitlement(u, m, o, at) <==> HasActiveEntitlement(t, m, o, at)
      {
        if m in t.entitlements && HoldsSeat(t.entitlements[m], organization) {
          assert RowCached(t, m, now);
          RewrittenRowKeepsAccess(row, t.entitlements[m], u.entitlements[m], now, at);
        }
      }
    }
  }

  lemma RewrittenRowKeepsAccess(sub: Subscription, e: Entitlement, e': Entitlement, now: nat, at: nat)
    requires AgreesFrom(sub, e, now) && PaymentMatchesGrace(sub) && now <= at
    requires e' == e.(state := AccessAt(sub, now).state, endsAt := AccessAt(sub, now).endsAt)
    requires EndsAfterStart(e')
    ensures InForce(e', at) <==> InForce(e, at)
  {
    FreshRowAgrees(sub, e', now);
  }

  /** An invoice event is aborted by the window constraint exactly when it is a newer
      failure with no grace running whose whole grace lies before some held seat began. */
  lemma LateFailuresAreAborted(t: Tables, key: EventKey, paid: bool, stripeId: Id, now: nat)
    requires Sound(t, now)
    requires SubscriptionOwner(t.subscriptions, stripeId).Some?
    ensures var organization := SubscriptionOwner(t.subscriptions, stripeId).value;
            var sub := t.subscriptions[organization];
            ProjectInvoice(t, key, paid, stripeId, now) == Err(EndNotAfterStart)
            <==>
            && (sub.invoiceKey.None? || After(key, sub.invoiceKey.value))
            && !paid
            && sub.graceEndsAt.None?
            && exists m :: m in SeatHolders(t.entitlements, organization)
                           && key.createdAt + GRACE_MS <= t.entitlements[m].startsAt
  {
  }

  /** A seat that is otherwise free cannot be assigned exactly while an expired grace
      end stands. */
  lemma ExpiredGraceBlocksAssignment(t: Tables, organization: Id, member: Id, now: nat)
    requires Sound(t, now)
    requires member in t.members && t.members[member] == Member(organization, false)
    requires organization in t.subscriptions
    requires |SeatHolders(t.entitlements, organization) - {member}| < PurchasedSeats(t, organization)
    ensures var sub := t.subscriptions[organization];
            AssignSeat(t, true, organization, member, now) == Err(EndNotAfterStart)
            <==> sub.graceEndsAt.Some? && sub.graceEndsAt.value <= now
  {
  }
}
