/** Who has access, told from the events alone: the accepted snapshots and the invoices that
    were applied decide at every moment whether a seat gives access. */
module BillingAccess {
  import opened Prelude
  import opened Billing
  import opened StripeWebhook
  import opened BillingRuns
  import opened BillingInvariants
  import opened BillingHistory

  /** A subscription is delinquent only when its grace has ended. */
  predicate PaymentDue(t: Tables, clock: nat) {
    forall o | o in t.subscriptions && t.subscriptions[o].payment == Delinquent ::
      t.subscriptions[o].graceEndsAt.Some? && t.subscriptions[o].graceEndsAt.value <= clock
  }

  lemma DeliveryKeepsDue(t: Tables, d: Delivery, now: nat)
    requires PaymentDue(t, now)
    ensures PaymentDue(Process(t, d, now).tables, now)
  {
    hide Process, Normalize;
    if !Process(t, d, now).reply.Processed? {
      UnprocessedChangesNothing(t, d, now);
    } else if d.kind.OtherType? {
      ProcessedOthers(t, d, now);
    } else if IsInvoice(d.kind) {
      ProcessedInvoices(t, d, now);
    } else {
      AcceptedProjects(t, d, now);
      var u := Process(t, d, now).tables;
      forall o | o in u.subscriptions && u.subscriptions[o].payment == Delinquent
        ensures u.subscriptions[o].graceEndsAt.Some? && u.subscriptions[o].graceEndsAt.value <= now
      {
        assert o in t.subscriptions;
      }
    }
  }

  lemma StepKeepsDue(t: Tables, op: Op, now: nat)
    requires PaymentDue(t, now)
    ensures PaymentDue(StepTables(t, op, now), now)
  {
    hide StepTables;
    if op.Deliver? {
      DeliveryKeepsDue(t, op.delivery, now);
      DeliveringIsProcessing(t, op.delivery, now);
    } else {
      QuietStepsProjectNothing(t, op, now);
    }
  }

  lemma DeliveringIsProcessing(t: Tables, d: Delivery, now: nat)
    ensures StepTables(t, Deliver(d), now) == Process(t, d, now).tables
  {
    hide Process;
  }

  lemma {:induction false} ReachingKeepsDue(s: State, ops: seq<Timed>)
    requires PaymentDue(s.tables, s.clock)
    ensures PaymentDue(Reach(s, ops).tables, Reach(s, ops).clock)
    decreases |ops|
  {
    hide StepTables;
    if ops != [] {
      StepKeepsDue(s.tables, ops[0].op, s.clock + ops[0].elapsed);
      ReachingKeepsDue(Advance(s, ops[0]), ops[1..]);
    }
  }

  /** What a sound row gives, by the columns of its subscription. */
  lemma AccessOfSeat(t: Tables, member: Id, clock: nat, at: nat)
    requires Sound(t, clock) && PaymentDue(t, clock) && clock <= at
    requires member in t.entitlements && HoldsSeat(t.entitlements[member], t.entitlements[member].organization)
    requires member in t.members && !t.members[member].disabled
    ensures var o := t.entitlements[member].organization;
            && o in t.subscriptions
            && var sub := t.subscriptions[o];
               HasActiveEntitlement(t, member, o, at)
               <==>
               if sub.graceEndsAt.Some? then at < sub.graceEndsAt.value
               else
                 && (sub.fields.status == StatusActive || sub.fields.status == StatusTrialing)
                 && (sub.fields.periodEnd.None? || at < sub.fields.periodEnd.value)
  {
    assert RowCached(t, member, clock);
  }

  /** The last applied invoice was a payment, or there is none. */
  predicate Current(marks: seq<InvoiceMark>) {
    marks == [] || marks[|marks| - 1].paid
  }

  /** After any run, an enabled member with a Stripe seat that is not revoked has access at
      every later moment by the events alone. Some accepted snapshot of the organization is
      newer than all others. When the last applied invoice was a payment, or there is none,
      access is there exactly while that snapshot is active or trialing and its period has
      not ended. Otherwise it is there exactly until fourteen days after the first failure
      since the last payment. */
  lemma AccessFollowsTheEvents(ops: seq<Timed>, member: Id, at: nat) returns (s: Seen<SubscriptionFields>, i: nat)
    requires var t := Run(START, ops).state.tables;
             && member in t.entitlements
             && t.entitlements[member].source == FromStripe && t.entitlements[member].state != Revoked
             && member in t.members && !t.members[member].disabled
    requires Run(START, ops).state.clock <= at
    ensures var w := Run(START, ops);
            var o := w.state.tables.entitlements[member].organization;
            var marks := Marks(w.invoices, o);
            && s in w.subscriptions && s.organization == o
            && (forall x :: x in w.subscriptions && x.organization == o ==>
                  || x == s
                  || s.key.createdAt > x.key.createdAt
                  || (s.key.createdAt == x.key.createdAt && s.key.id > x.key.id))
            && (Current(marks) ==>
                  (HasActiveEntitlement(w.state.tables, member, o, at)
                   <==>
                   && s.value.status in {StatusActive, StatusTrialing}
                   && (s.value.periodEnd.Some? ==> at < s.value.periodEnd.value)))
            && (!Current(marks) ==>
                  && OpensGrace(marks, i)
                  && (HasActiveEntitlement(w.state.tables, member, o, at)
                      <==> at < marks[i].key.createdAt + 1209600000))
  {
    hide Run, Reach, Sound, PaymentDue, HasActiveEntitlement, Faithful;
    var w := Run(START, ops);
    var o := w.state.tables.entitlements[member].organization;
    EveryRunIsFaithful(ops);
    RunReaches(START, ops);
    EveryReachableStateIsSound(ops);
    NothingIsDue();
    ReachingKeepsDue(EMPTY, ops);
    AccessOfSeat(w.state.tables, member, w.state.clock, at);
    FaithfulAt(w, o);
    var sub := w.state.tables.subscriptions[o];
    s := Seen(o, sub.key, sub.fields);
    i := FailureThatOpened(Marks(w.invoices, o), sub.graceEndsAt);
  }

  lemma FailureThatOpened(marks: seq<InvoiceMark>, end: Option<nat>) returns (i: nat)
    requires GraceIsFixed(marks, end)
    ensures end.None? <==> Current(marks)
    ensures end.Some? ==> OpensGrace(marks, i) && end.value == marks[i].key.createdAt + 1209600000
  {
    i := 0;
    if end.Some? {
      i :| OpensGrace(marks, i) && end.value == marks[i].key.createdAt + GRACE_MS;
    }
  }

  lemma NothingIsDue()
    ensures PaymentDue(EMPTY.tables, 0)
  {
  }

  lemma FaithfulAt(w: World, o: Id)
    requires Faithful(w)
    ensures IsGreatest(w.subscriptions, o, CurrentSubscription(w.state.tables, o))
    ensures InvoicesAgree(w.state.tables, w.invoices, o)
  {
  }
}
