# Nebula Cloud control plane: a verified model

The control plane keeps its durable state in one SQLite database and a few counters in
memory. This project models the state machines behind billing, provisioning, placement,
publication, rate limiting, usage accounting and contact listing, and proves what they
keep over every run.

Two layers run through the whole project. The functions of a component say what each
transaction makes of the tables (an `Err` is a throw, and leaves the tables as they were); the
lemmas about them are the results. Those in `BillingAccess`, `BillingOutcomes`,
`ProvisioningTimes`, `PlacementChoice`, `PublicationOutcomes` and `UsageReplays` tell what
comes of the operations by columns alone, without those functions. Beside them stand classes
whose fields are the tables or the in-memory maps. Their methods perform the statements of the
code in order, restore saved tables where a transaction rolls back, and are proved to compute
those functions. A time is a number of milliseconds that never goes back; an identifier is a
natural number of which only equality and order are used, 0 standing for empty text.

| files | component |
|---|---|
| `Prelude`, `MapSums` | options, results, set sizes; sums over the rows of a table |
| `Billing`, `StripeWebhook`, `BillingRuns`, `BillingInvariants`, `BillingHistory`, `BillingAccess`, `BillingLateFailures`, `BillingOutcomes`, `BillingDatabase` | Stripe events projected into customers, subscriptions, seats and entitlements |
| `Provisioning`, `ProvisioningProtocol`, `ProvisioningInvariants`, `ProvisioningReadiness`, `ProvisioningTimes`, `ProvisioningDatabase` | the job queue under leases, with processors that crash |
| `Placement`, `PlacementRuns`, `PlacementChoice` | workspaces placed on worker hosts |
| `Publications`, `PublicationOutcomes` | published services, their limits and ports |
| `Windows`, `BandwidthLimiter`, `AuthRateLimiter` | fixed-window counting and its two users |
| `PublicationScopes`, `ConnectionLimiter`, `PublishedServiceGateway`, `TcpIngress` | connection leases and who holds them |
| `UsageLedger`, `UsageSync`, `UsageReplays`, `UsageSummaries` | the usage upsert, the loop that feeds it, what repeating it comes to, the summaries |
| `Contacts` | pages by cursor, and the export |

## What the proofs found

The model keeps the code as it is in each of these cases. A lemma gives the exact condition,
and where a run has to be shown that comes to it, another gives the run.

- A failed invoice that arrives so late that its whole grace lies before a held seat began
  is aborted by the window constraint on entitlements
  (`BillingInvariants.LateFailuresAreAborted`, `BillingLateFailures.SomeRunAbortsAFailure`).
  It stays aborted, however often it is delivered, until a newer invoice is applied, the seat
  is given up or the subscription is replaced
  (`BillingLateFailures.LateFailureStaysAborted`).
- A seat that is free cannot be assigned while an expired grace end stands on the
  subscription: the row would end before it starts
  (`BillingInvariants.ExpiredGraceBlocksAssignment`,
  `BillingLateFailures.SomeRunBlocksAnAssignment`).
- A stale subscription event with fewer seats than are held is refused, not ignored; any
  other stale event rewrites the held seats without changing anybody's access
  (`BillingInvariants.StaleSnapshotsChangeNoAccess`).
- Ensuring a workspace reads its state before the transaction that queues a job. Run late,
  that transaction queues a job for a workspace that is ready; it keeps the exact agreement
  of workspaces and jobs if and only if the workspace was not ready by then
  (`ProvisioningInvariants.LateEnqueueNeedsUnreadyWorkspace`,
  `ProvisioningReadiness.SomeRunQueuesForAReadyWorkspace`). When such a job fails for good the
  ready workspace becomes failed (`ProvisioningReadiness.SomeRunLosesAReadyWorkspace`), which
  never happens when ensuring is one step (`ProvisioningReadiness.ReadyStaysReady`).
- The lease tells processors apart, not calls. A call whose lease ran out can still finish a
  job that was claimed again if and only if it was claimed under its own processor's id
  (`ProvisioningReadiness.SupersededCallFinishesExactly`).
- A fixed window with limit n admits up to 2n in an interval of the window's length, and no
  more (`Windows.TwiceIsReached`).
- A response over its bandwidth keeps its connection lease until the cancellation of the
  upstream settles (`PublishedServiceGateway.LeasedBody.Deliver`).
- A worker tunnel that opens after its TCP connection has finished is left open
  (`TcpIngress.Ingress.WorkerSocketOutlivesFinish`).
- A log entry whose creation time in milliseconds, cost or saving is not a safe integer is
  refused and ends the synchronization there (`UsageSync.StopsExactly`). Once a log holds an
  entry created too late, neither it nor any entry after it is ever recorded
  (`UsageSync.NothingAfterTooLate`).
- Provider, model and agent are read anew by every synchronization and recorded with every
  entry, so a row keeps those of the first synchronization that recorded it: after a switch of
  models the ledger is not what the last reading alone would have left
  (`UsageReplays.SwitchingModelsKeepsTheFirst`). It is if and only if that reading decides
  every row (`UsageReplays.FurthestAloneExactly`), as it does while the model stays the same
  (`UsageReplays.OneModelSettles`). Owners, counts, outcomes and creation times never depend
  on how often, how late or with what session a log is read (`UsageReplays.FiguresSettle`);
  the time of an entry without one is that of its first recording, and the name is the last
  one given, which a late synchronization may have read earlier (`UsageSync.RowsAfterSyncs`).

## Model

| member | source | states |
|---|---|---|
| BillingInvariants.SeatsNeverExceedPurchase | packages/database/src/index.ts:4311-4375 | after any run of deliveries in any order, seat changes, administration writes and membership changes, an organization's unrevoked Stripe seats are at most its purchased ones, and none without a subscription |
| BillingInvariants.CacheAgreesWithRecomputation | packages/database/src/index.ts:3978-4001 | in every reachable state and at every later time, the stored row of an enabled seat holder counts as active exactly when recomputing access from the current subscription does not suspend it; revoked seats and disabled members never count |
| BillingInvariants.EveryReachableStateIsSound | packages/database/src/index.ts:4230-4258 | the invariant behind both: scope, unique Stripe ids, seat bound, payment state matching the grace end, and every cached row agreeing with its subscription from now on |
| BillingInvariants.WriteSubscription | packages/database/src/index.ts:4247-4258 | rewriting the held seats after a subscription write keeps the invariant when the row covers the seats held |
| BillingInvariants.SnapshotsNeverTripTheWindow | packages/database/src/index.ts:4371-4373 | in sound tables a subscription snapshot is never aborted by the window constraint |
| BillingInvariants.StaleSnapshotsChangeNoAccess | packages/database/src/index.ts:4329-4374 | a stale snapshot is refused exactly when it has fewer seats than are held; otherwise it is ignored, and rewriting the held seats changes nobody's access now or later |
| BillingInvariants.LateFailuresAreAborted | packages/database/src/index.ts:4576-4621 | an invoice event is aborted by the window constraint if and only if it is a newer failure, no grace runs, and its whole grace lies before some held seat began |
| BillingInvariants.ExpiredGraceBlocksAssignment | packages/database/src/index.ts:4668-4702 | a free seat of an enabled member cannot be assigned if and only if an expired grace end stands |
| BillingHistory.SubscriptionsConverge | packages/database/src/index.ts:4337-4358 | two runs that accepted the same subscription snapshots, in whatever order and with whatever repetition, hold the same one: the greatest by (creation time, event id) |
| BillingHistory.CustomersConverge | packages/database/src/index.ts:4279-4296 | the same for customer snapshots |
| BillingHistory.GraceIsFixedInEveryRun | packages/database/src/index.ts:4597-4618 | in every reachable state the grace end is the creation time of the first failure applied since the last payment plus fourteen days, invoices were applied in key order, and payment is current exactly without a grace end |
| BillingHistory.GraceEndStandsUntilPaid | packages/database/src/index.ts:4343-4352 | no step but an applied payment moves a running grace end |
| BillingHistory.EveryRunIsFaithful | packages/database/src/index.ts:4455-4533 | every run's rows are the greatest accepted snapshots and its grace ends follow from the invoices it applied |
| BillingAccess.AccessFollowsTheEvents | packages/database/src/index.ts:4230-4245 | after any run, an enabled seat holder has access at a later time, while the last applied invoice is paid or there is none, if and only if the greatest accepted snapshot is active or trialing and its period has not ended, and otherwise if and only if that time is before fourteen days after the creation of the failure that opened the grace |
| BillingLateFailures.LateFailureStaysAborted | packages/database/src/index.ts:4576-4621 | a failed invoice that is aborted once is aborted in every state of every run in which its subscription stays, no newer invoice is applied and the seat is held |
| BillingLateFailures.OlderFailuresAreAborted | packages/database/src/index.ts:4599-4621 | before a waiting failure no older failure can be applied, so no grace begins |
| BillingLateFailures.SomeRunAbortsAFailure | packages/database/src/index.ts:4576-4621 | a run from the empty tables comes to a failed invoice that is aborted |
| BillingLateFailures.SomeRunBlocksAnAssignment | packages/database/src/index.ts:4668-4702 | a run from the empty tables comes to a free seat that cannot be assigned |
| BillingLateFailures.DeliveryRewritesSeats | packages/database/src/index.ts:4247-4258 | a delivery of any kind changes of the entitlements only the held Stripe seats, and of those only state and end |
| BillingOutcomes.RegisteringAgain | packages/database/src/index.ts:4163-4188 | registration says whether the event is new; registering it again is accepted and writes nothing |
| BillingOutcomes.SubscriptionDelivery | packages/database/src/index.ts:4311-4375 | every delivery of a subscription event: the refusals in their order, ignored unless newer, and otherwise the row with the snapshot, keeping the payment, the grace end and the last invoice |
| BillingOutcomes.CustomerDelivery | packages/database/src/index.ts:4260-4309 | every delivery of a customer or checkout event: the refusals in their order, ignored unless newer, and otherwise the row with customer, email and country as delivered |
| BillingOutcomes.InvoiceDelivery | packages/database/src/index.ts:4535-4650 | every delivery of an invoice of a known subscription: ignored unless newer, aborted exactly when it is a failure too late for a seat, and otherwise applied: a payment clears the grace, a failure opens one of fourteen days from its own creation when there is none, in grace while that lies ahead |
| BillingOutcomes.StrayInvoiceDelivery | packages/database/src/index.ts:4570-4575 | an invoice of no known subscription is refused and changes nothing but its event row |
| BillingOutcomes.UnreadableDelivery | apps/control-plane/src/stripeWebhook.ts:216-217 | an event whose object cannot be read is refused and changes nothing but its event row |
| BillingOutcomes.OtherDelivery | apps/control-plane/src/stripeWebhook.ts:246-257 | an event of any other kind is ignored and changes nothing but its event row |
| BillingOutcomes.SeatAssignment | packages/database/src/index.ts:4652-4719 | the refusals in their order; otherwise the member holds a Stripe seat of the organization from that moment, and no other row changes |
| BillingOutcomes.SeatRevocation | packages/database/src/index.ts:4721-4749 | a held seat is given up: its holder is no longer one and has no access at any time; anything else is left alone |
| BillingOutcomes.AdministrationWrite | packages/database/src/index.ts:4003-4073 | the refusals of a written entitlement in their order, and otherwise exactly that row |
| BillingOutcomes.AdministrationRevocation | packages/database/src/index.ts:4075-4087 | takes access from that member in that organization and from nobody else |
| BillingOutcomes.DisablingLeaves | packages/database/src/index.ts:3978-4001 | a disabled member has no access, everyone else's is as before, and enabling restores the tables |
| BillingOutcomes.LookupConditions | packages/database/src/index.ts:3978-4001 | access is an entitlement row of that organization, active or in grace, begun and not ended, of an enabled member of it |
| StripeWebhook.EachDeliveryIsOneAttempt | apps/control-plane/src/stripeWebhook.ts:202-281 | each delivery of an unsettled event raises its attempt count by exactly one on every path, touches no other event, and leaves the projection alone when it throws |
| StripeWebhook.RedeliveryChangesNothing | apps/control-plane/src/stripeWebhook.ts:203-213 | a settled event delivered again changes no table and answers with the stored result |
| StripeWebhook.RefusedDeliveryChangesNothing | packages/database/src/index.ts:4163-4188 | a delivery whose id, time or type conflicts with what is stored throws and changes no table |
| BillingDatabase.Database.RegisterEvent | packages/database/src/index.ts:4163-4188 | inserting unless taken and then comparing computes the registration, including its throws |
| BillingDatabase.Database.ReconcileEntitlements | packages/database/src/index.ts:4247-4258 | the bulk update writes every held seat or, when a row would end before it starts, nothing |
| BillingDatabase.Database.ApplyBillingProjection | packages/database/src/index.ts:4455-4533 | the transaction with its roll-back computes the projection: on an error the tables are the registered ones with one failed attempt |
| BillingDatabase.Database.ApplyInvoiceProjection | packages/database/src/index.ts:4535-4650 | the same for invoices, with staleness decided by the last invoice event |
| BillingDatabase.Database.AssignOperatorSeat | packages/database/src/index.ts:4652-4719 | the seat transaction: access, subscription and capacity checks in order, then the row with the access of that moment |
| BillingDatabase.Database.RevokeOperatorSeat | packages/database/src/index.ts:4721-4749 | revokes exactly a held Stripe seat and says whether there was one |
| BillingDatabase.Database.HasActive | packages/database/src/index.ts:3978-4001 | the lookup computes the entitlement conditions |
| BillingDatabase.Processor.ProcessDelivery | apps/control-plane/src/stripeWebhook.ts:182-283 | registration, dispatch and the error handler compute the processing of one delivery |
| BillingDatabase.Processor.BuildProjection | apps/control-plane/src/stripeWebhook.ts:76-155 | the projection builders, with the organization from metadata or from the known customer |
| ProvisioningInvariants.OnlyTheLatestClaimFinishes | packages/database/src/index.ts:5375-5416 | in every reachable state of several crashing processors, a finish is not refused for the lease if and only if it comes from the latest claimer and that claim is still unfinished |
| ProvisioningInvariants.FinishIsForOwnAttempt | apps/control-plane/src/provisioningProcessor.ts:96-112 | a processor's finish is accepted only for the attempt it claimed, whatever others did in between |
| ProvisioningInvariants.AttemptsCountClaims | packages/database/src/index.ts:5319-5327 | the attempt column equals the number of claims, and a claim is finished at most once |
| ProvisioningInvariants.FinishedJobsNeverChange | packages/database/src/index.ts:5303-5345 | a succeeded or failed job is unchanged by every run that does not delete its workspace |
| ProvisioningInvariants.StepMovesJobs | packages/database/src/index.ts:5303-5416 | a job changes only by being claimed while active, which raises its attempt by one, or released while running |
| ProvisioningInvariants.RetriesAreBounded | apps/control-plane/src/provisioningProcessor.ts:125-136 | in every run, with lease expiry and reclaim, a job is requeued at most one time fewer than the attempt limit, its backoff stays within the schedule, and its claims exceed the limit by at most the leases lost |
| ProvisioningInvariants.EveryChangeLowersTheRank | packages/database/src/index.ts:5394-5406 | while no lease on it was lost every change lowers a rank that is zero exactly for an ended job |
| ProvisioningInvariants.ChangesAreBounded | packages/database/src/index.ts:5394-5406 | without lease loss a job changes at most twice per attempt it has left, over runs of any length |
| ProvisioningInvariants.ClaimsAreComplete | packages/database/src/index.ts:5303-5318 | a claim finds a job exactly when one is claimable, and the order always has a first |
| ProvisioningInvariants.WorkspacesAndJobsAgree | packages/database/src/index.ts:5221-5287 | in every reachable state a workspace has at most one active job, a provisioning workspace has one, an active job's workspace is provisioning or ready, a ready one has a worker id of its own; with ensuring as one step exactly the provisioning workspaces have an active job |
| ProvisioningInvariants.LateEnqueueNeedsUnreadyWorkspace | packages/database/src/index.ts:5225-5287 | run on its own, the second transaction keeps the exact agreement if and only if the workspace was not ready |
| ProvisioningReadiness.ReadyIsLostExactly | packages/database/src/index.ts:5418-5427 | a ready workspace stops being ready if and only if it is deleted or the holder of the lease of one of its jobs records a failure for good |
| ProvisioningReadiness.ReadyStaysReady | packages/database/src/index.ts:5221-5287 | with ensuring as one step a workspace that became ready stays ready through every run that does not delete it |
| ProvisioningReadiness.SomeRunQueuesForAReadyWorkspace | packages/database/src/index.ts:5225-5287 | a run of the split ensure comes to a ready workspace with an active job |
| ProvisioningReadiness.SomeRunLosesAReadyWorkspace | packages/database/src/index.ts:5418-5427 | the run goes on to a workspace that was ready and has failed |
| ProvisioningReadiness.SupersededCallFinishesExactly | packages/database/src/index.ts:5375-5416 | a call whose claim was superseded can finish the job if and only if the later claim was made under the same id |
| ProvisioningTimes.NextIsFirstWaiting | packages/database/src/index.ts:5303-5318 | in every reachable state the job handed out is one that is queued with its time come, or running with a whole lease passed since it was last claimed; queued before running, then the longest available, then the oldest |
| ProvisioningTimes.ClaimsWait | packages/database/src/index.ts:5319-5346 | in every reachable state a claim records its own time and processor, and comes no sooner than a lease after the previous claim when that is unfinished, and otherwise no sooner than the backoff after the last failure |
| ProvisioningTimes.LeaseKeepsOthersOff | packages/database/src/index.ts:5307-5311 | for a whole lease from its claim a running job and its history stay as they are through any run that neither finishes it nor deletes its workspace |
| ProvisioningTimes.EnsureLeaves | packages/database/src/index.ts:5221-5288 | a ready workspace is left alone; otherwise it is marked as provisioning and a job that can be claimed at once is queued unless one is active or the new id is taken |
| ProvisioningTimes.ReplyLeaves | packages/database/src/index.ts:5375-5433 | with the lease and a worker id of its own, the job has succeeded and the workspace is ready under that id; otherwise nothing is written |
| ProvisioningTimes.StepsInTurn | apps/control-plane/src/provisioningProcessor.ts:96-139 | a failed worker call leads on to giving up with what it says about retrying, and no step happens out of turn |
| ProvisioningTimes.GiveUpLeaves | apps/control-plane/src/provisioningProcessor.ts:113-139 | with the lease, a retryable failure below the attempt limit makes the job available again exactly one backoff later and leaves the workspace, any other fails both for good; without it nothing is written |
| ProvisioningTimes.DelaysDouble | apps/control-plane/src/provisioningProcessor.ts:126 | the backoff starts at a second and doubles up to a minute |
| ProvisioningInvariants.EveryRunIsCoherent | packages/database/src/index.ts:91-93 | the invariant of the protocol over every run |
| Provisioning.DelayGrows | apps/control-plane/src/provisioningProcessor.ts:126 | the delay never decreases with the attempt and is at most a minute |
| Provisioning.TotalDelayGrows | apps/control-plane/src/provisioningProcessor.ts:126 | total backoff grows with the attempts, by at most a minute each |
| ProvisioningInvariants.DefaultBackoff | apps/control-plane/src/provisioningProcessor.ts:125-126 | with the default of eight attempts no job of any run waits for more than 123 seconds in all between its attempts |
| ProvisioningDatabase.Database.EnsureWorkspaceRunning | packages/database/src/index.ts:5221-5288 | the two transactions compute the ensure step and return an active job of the workspace, or none when it is ready |
| ProvisioningDatabase.Database.ClaimProvisioningJob | packages/database/src/index.ts:5290-5346 | takes a claimable job that none precedes, and none exactly when nothing is claimable |
| ProvisioningDatabase.Database.FinishProvisioningJob | packages/database/src/index.ts:5348-5433 | the finish transaction, rolled back when the worker id is taken |
| ProvisioningDatabase.Processor.BeginNext | apps/control-plane/src/provisioningProcessor.ts:78-95 | claims, then starts the worker call or goes to the error handler when the workspace is not entitled |
| ProvisioningDatabase.Processor.Replied | apps/control-plane/src/provisioningProcessor.ts:96-112 | takes the protocol's reply step, whatever other processors are in flight |
| ProvisioningDatabase.Processor.RecordFailure | apps/control-plane/src/provisioningProcessor.ts:113-139 | takes the protocol's give-up step, swallowing a lost lease, whatever other processors are in flight |
| PlacementRuns.CapacityIsConserved | packages/database/src/index.ts:3287-3362 | over any mix of registrations, capacity changes, health reports, assignments and deletions, each resource reserved on a host is the sum over its workspaces and never exceeds the total |
| PlacementRuns.ReleaseNeverClamps | packages/database/src/index.ts:289-301 | the release on delete subtracts exactly what was reserved: its lower bound of zero never acts |
| PlacementRuns.AssignmentIsImmutable | packages/database/src/index.ts:281-288 | an assignment stays through every run without the workspace's deletion, and asking again reserves nothing |
| PlacementRuns.PlacementIsOptimalAndComplete | packages/database/src/index.ts:3265-3362 | the chosen host is eligible and precedes every other eligible one; refusal for capacity means no host is eligible, and conversely; nothing else is reserved |
| Placement.PrecedesIsTransitive | packages/database/src/index.ts:3275-3284 | the order by slot, memory, processor and disk load and then id is transitive |
| Placement.PrecedesIsTotal | packages/database/src/index.ts:3275-3284 | of two hosts exactly one precedes the other |
| Placement.ChoiceExistsAndIsUnique | packages/database/src/index.ts:3264-3285 | there is a first host exactly when one is eligible, and only one |
| PlacementChoice.PlacementLeaves | packages/database/src/index.ts:3265-3362 | the refusals in their order; otherwise the chosen host can take the workspace and, against every other that can, has the smaller reserved share of slots, on equality of memory, then processor, then disk, then the smaller id, with a total of zero counted as no share; exactly the amounts needed are reserved there |
| PlacementChoice.DeletionLeaves | packages/database/src/index.ts:289-301 | in a balanced fleet the host gets back exactly what the workspace had reserved |
| PlacementChoice.RegistrationLeaves | packages/database/src/index.ts:3039-3110 | the refusals in their order; otherwise the given columns, and for a known host its reservations, state and heartbeat as they were |
| PlacementChoice.HostUpdatesLeave | packages/database/src/index.ts:3125-3199 | scheduling changes and health reports touch no amounts, and a report leaves a draining host draining |
| PlacementRuns.Database.AssignWorkspaceWorker | packages/database/src/index.ts:3323-3362 | select, guarded reservation and assignment compute the placement; the guard never fails after the selection |
| PlacementRuns.Database.DeleteWorkspaceRow | packages/database/src/index.ts:289-301 | the delete with its trigger computes the release |
| PlacementRuns.Database.UpsertWorkerHost | packages/database/src/index.ts:3039-3110 | re-registration refuses totals below the reservations and a name or address of another host, and keeps the reservations |
| Publications.PublicationsStayWithinLimits | packages/database/src/index.ts:2505-2528 | in every reachable state and at every later time no workspace and no organization has more live services than its limit, and no two services share a port |
| Publications.PortsAreLeastAndComplete | packages/database/src/index.ts:2544-2563 | a new port is the least free one of the range, and refusal for ports means none is kept and none is free, and conversely |
| Publications.PortsAreSticky | packages/database/src/index.ts:2544-2551 | a TCP service keeps its port through every run whose steps leave its range and protocol alone |
| PublicationOutcomes.PublicationLeaves | packages/database/src/index.ts:2424-2596 | the refusals in their order, with the limits counting what is live; otherwise the row has the requested target port, visibility and expiry, its port is none, the one it had or the least one no row has, a known service keeps identity and creation time, and no other row changes |
| PublicationOutcomes.RevocationsLeave | packages/database/src/index.ts:2598-2660 | revoking one service, or those of an organization, takes exactly them out of service and changes nothing else |
| Publications.Database.SearchPort | packages/database/src/index.ts:2552-2562 | the upward search finds the first free port |
| Publications.Database.UpsertPublishedService | packages/database/src/index.ts:2424-2596 | the publication transaction with its checks in order |
| Windows.AdmitInWindow | apps/control-plane/src/publicationBandwidthLimiter.ts:66-82 | admitting within an open window keeps every interval of the window's length at twice the limit |
| Windows.AdmitInNewWindow | apps/control-plane/src/publicationBandwidthLimiter.ts:66-82 | so does opening a window |
| Windows.TwiceIsReached | apps/control-plane/src/publicationBandwidthLimiter.ts:66-82 | twice the limit is reached by filling one window and then the next |
| Windows.Expire | apps/control-plane/src/publicationBandwidthLimiter.ts:69-72 | so does dropping a counter whose window is over |
| Windows.CountingTells | apps/control-plane/src/publicationBandwidthLimiter.ts:66-82 | counting keeps a counter at exactly what the history admitted since its window began |
| BandwidthLimiter.Limiter.CanConsume | apps/control-plane/src/publicationBandwidthLimiter.ts:45-53 | answers whether the bytes fit at all four levels; reading only drops expired counters |
| BandwidthLimiter.Limiter.TryConsume | apps/control-plane/src/publicationBandwidthLimiter.ts:55-64 | admits exactly when the bytes fit at the first clock reading and counts them at the second, keeping the invariant |
| BandwidthLimiter.Limiter.AtMostTwiceTheLimit | apps/control-plane/src/publicationBandwidthLimiter.ts:45-82 | for every key at every level the bytes admitted in any interval of the window's length are at most twice the limit |
| BandwidthLimiter.Limiter.CountsFollowTheLog | apps/control-plane/src/publicationBandwidthLimiter.ts:66-82 | what a level counts against a key is what was admitted under that key in its current window |
| BandwidthLimiter.Limiter.DecisionFollowsTheLog | apps/control-plane/src/publicationBandwidthLimiter.ts:45-53 | bytes fit if and only if the current windows of the log have room for them globally, for the worker, for the organization and for the route |
| BandwidthLimiter.AdmissionIsLogged | apps/control-plane/src/publicationBandwidthLimiter.ts:55-64 | an admission counts in the whole and under its own worker, organization and route, and nowhere else |
| AuthRateLimiter.Limiter.Consume | apps/control-plane/src/authRateLimiter.ts:104-135 | reads and overwrites one bucket row and says whether it is within its limit |
| AuthRateLimiter.Limiter.Handle | apps/control-plane/src/authRateLimiter.ts:74-84 | counts the ip bucket and, only when that lets the request through, the address bucket, refused requests included |
| AuthRateLimiter.Limiter.AtMostTwiceTheLimit | apps/control-plane/src/authRateLimiter.ts:118-134 | for every bucket the requests let through in any interval of the window's length are at most twice the limit |
| AuthRateLimiter.Limiter.WorstCases | apps/control-plane/src/authRateLimiter.ts:14-35 | in figures, what one ip and one address can have let through in any interval of each action's window |
| AuthRateLimiter.Policies | apps/control-plane/src/authRateLimiter.ts:14-35 | the limits and windows of the five actions |
| ConnectionLimiter.Limiter.TryAcquire | apps/control-plane/src/publicationConnectionLimiter.ts:48-62 | a lease is handed out if and only if every level has fewer live leases under its key than its limit, and then the live leases grow by exactly that one |
| ConnectionLimiter.Limiter.Release | apps/control-plane/src/publicationConnectionLimiter.ts:63-72 | takes the lease out of the live ones, once |
| ConnectionLimiter.Limiter.LeasesAreConserved | apps/control-plane/src/publicationConnectionLimiter.ts:48-80 | at every level a key's count is the number of live leases with that key, within the limit, and a key without live leases has no entry |
| ConnectionLimiter.Configure | apps/control-plane/src/publicationConnectionLimiter.ts:19-45 | limits are accepted exactly when all are positive and none exceeds the global one |
| PublishedServiceGateway.Begin | apps/control-plane/src/publishedServiceGateway.ts:184-221 | the refusals in their order, and a lease exactly when none applies and every level has room; otherwise the live leases are as before |
| PublishedServiceGateway.Resume | apps/control-plane/src/publishedServiceGateway.ts:222-251 | whatever happened to other leases while the worker was awaited, the lease is released unless the response streams, and then the body holds it |
| PublishedServiceGateway.LeasedBody.Deliver | apps/control-plane/src/publishedServiceGateway.ts:130-155 | in any state, an event that ends the stream takes its lease out of the live ones and any other leaves them; over the limit the lease stays until the upstream cancellation settles |
| TcpIngress.Ingress.Activate | apps/control-plane/src/tcpIngress.ts:67-89 | a port listens afterwards exactly when it did before or could be bound |
| TcpIngress.Ingress.Accept | apps/control-plane/src/tcpIngress.ts:108-147 | accepts exactly with a route and room, registering the connection with its port's closers |
| TcpIngress.Ingress.Finish | apps/control-plane/src/tcpIngress.ts:137-145 | ends the connection and releases its lease once; the port's entry goes with its last connection |
| TcpIngress.Ingress.Deliver | apps/control-plane/src/tcpIngress.ts:155-171 | in any state, every event but a chunk that fits ends the connection and takes out its lease |
| TcpIngress.Ingress.TunnelOpened | apps/control-plane/src/tcpIngress.ts:149-159 | the handlers are installed exactly when the connection has not finished meanwhile |
| TcpIngress.Ingress.Deactivate | apps/control-plane/src/tcpIngress.ts:91-98 | ends exactly the port's live connections, releasing their leases, and leaves no entry for the port |
| TcpIngress.Ingress.LiveLeasesAreCounted | apps/control-plane/src/tcpIngress.ts:119-147 | the live connections hold as many live leases as there are connections |
| TcpIngress.Ingress.WorkerSocketOutlivesFinish | apps/control-plane/src/tcpIngress.ts:149-154 | the worker socket of a finished connection is open if and only if the tunnel opened only afterwards |
| UsageLedger.WritesExactlyChanges | packages/database/src/index.ts:3411-3429 | the condition on the conflict clause skips exactly the writes that would change nothing |
| UsageLedger.RowsInClosedForm | packages/database/src/index.ts:3404-3430 | on top of any ledger, the row of an id holds what was stored or else the first recording's values, the first cost and saving that are not zero, and the last name |
| UsageLedger.ReplayGivesTheSameLedger | packages/database/src/index.ts:3404-3451 | recording a beginning of a log and then the log gives the same ledger as recording the log |
| UsageSync.LegacyIdsNeverCollide | apps/control-plane/src/runtimeGateway.ts:296-312 | two legacy ids are equal if and only if workspace, chat, position and the rest are |
| UsageSync.EventIdsNeverCollide | apps/control-plane/src/runtimeGateway.ts:286-313 | an entry with an id is recorded under it, and two without one under the same id if and only if workspace, chat, position and the rest agree |
| UsageSync.RecordingLeaves | packages/database/src/index.ts:3374-3452 | a new event is stored as it is offered, and refused exactly when a needed text is empty, a figure is no safe integer, or the workspace is not that member's of that organization |
| UsageSync.Database.RecordUsageEvent | packages/database/src/index.ts:3374-3452 | refuses exactly what is malformed or out of scope, leaving the ledger alone; otherwise records, and says whether anything changed |
| UsageSync.Database.SyncChatUsage | apps/control-plane/src/runtimeGateway.ts:362-411 | records exactly the usable entries up to the first that is refused, and completes if and only if none is |
| UsageSync.StopsExactly | apps/control-plane/src/runtimeGateway.ts:362-411 | an entry ends the loop if and only if the chat is not admitted, or its creation time in milliseconds, its cost or its saving is no safe integer |
| UsageSync.ReachedIsFirstRefusal | apps/control-plane/src/runtimeGateway.ts:377-411 | the loop comes exactly to the first entry that is refused |
| UsageSync.NothingAfterTooLate | apps/control-plane/src/runtimeGateway.ts:409 | no synchronization, however long the log has grown, records an entry created too late or any entry after it |
| UsageSync.FirstOffered | apps/control-plane/src/runtimeGateway.ts:348-389 | over any run of synchronizations the first recording of an id is its first position in the log, by the first synchronization that comes so far |
| UsageSync.RowsAfterSyncs | apps/control-plane/src/runtimeGateway.ts:333-411 | the exact row of every id after any number of synchronizations with any sessions on top of any ledger: counts, outcome and owner of its first position, provider, model and agent of the first synchronization that recorded it, first cost and saving that are not zero, last name |
| UsageReplays.ColumnsAfterSyncs | apps/control-plane/src/runtimeGateway.ts:362-411 | column by column, the row of a new id after any synchronizations: owner and session of the chat, counts and outcome of its first position in the log, agent, provider and model of the first synchronization that recorded it and the cost and saving reported or estimated there unless zero, the creation time in milliseconds or else the time of that synchronization, and the latest name |
| UsageReplays.StoredColumnsStay | packages/database/src/index.ts:3411-3429 | a row that was stored keeps every column but its name and a cost or saving of zero |
| UsageReplays.FiguresSettle | apps/control-plane/src/runtimeGateway.ts:362-411 | two histories of synchronizing one log that come equally far store the same ids with the same owners, counts, outcomes and creation times |
| UsageReplays.RowIsFurthestAloneExactly | apps/control-plane/src/runtimeGateway.ts:348-411 | a row is, apart from name and times, what the furthest synchronization alone leaves if and only if its first recorder had that one's provider, model and agent and an open cost or saving is first offered as there |
| UsageReplays.FurthestAloneExactly | apps/control-plane/src/runtimeGateway.ts:348-411 | the same for the whole ledger |
| UsageReplays.OneModelSettles | apps/control-plane/src/runtimeGateway.ts:348-411 | while provider, model and agent stay the same the furthest synchronization alone decides the ledger |
| UsageReplays.SwitchingModelsKeepsTheFirst | apps/control-plane/src/runtimeGateway.ts:352-357 | one entry read under two models keeps the first, and differs from what the later reading alone leaves |
| UsageSummaries.GroupingConserves | packages/database/src/index.ts:3521-3568 | every figure of a selection of rows is the sum of that figure over the groups of any grouping |
| UsageSummaries.PersonalTotalsAreConserved | packages/database/src/index.ts:3490-3568 | personal totals are the sums over models, over days, and over days and models |
| UsageSummaries.EveryReachableRowIsOwned | packages/database/src/index.ts:128-142 | after any steps every usage row names an existing member of the row's organization |
| UsageSummaries.OrganizationTotalsAreConserved | packages/database/src/index.ts:3612-3642 | after any steps an organization's totals are the sums over its members |
| UsageSummaries.TotalsOfOneMore | packages/database/src/index.ts:3464-3499 | one more row raises each figure of the totals by its own column |
| UsageSummaries.SelectionsAreExact | packages/database/src/index.ts:3490-3568 | the selections, row by row, by owner and time, and the groups by provider and model and by day |
| UsageSummaries.StepLeaves | packages/database/src/index.ts:95-142 | recording adds exactly an admitted event, and a removal takes along exactly the events of the removed member, organization or workspace |
| MapSums.SumRegroup | packages/database/src/index.ts:3521-3568 | a total over rows is the sum of the group totals |
| Contacts.DescendingLists | packages/database/src/index.ts:2809-2820 | the list holds each row once, newest first |
| Contacts.DescendingIsUnique | packages/database/src/index.ts:2809-2820 | there is only one such list |
| Contacts.PageIsFront | packages/database/src/index.ts:2788-2828 | a page is the front of the list, its cursor stands for the rest, and it has none exactly when the rest is empty |
| Contacts.TraversalIsTheList | packages/database/src/index.ts:2788-2828 | whatever page sizes are asked for, and even while newer requests arrive, following the cursors yields every matching row exactly once, newest first, in no more pages than there are rows |
| Contacts.TraversalByColumns | packages/database/src/index.ts:2788-2828 | what following the cursors yields are exactly the rows of the status older than the first cursor, none twice, each newer than the next |
| Contacts.Export | apps/control-plane/src/server.ts:1041-1059 | the loop returns the first five thousand rows of the list and flags truncation exactly when there are more; the list is that of the whole table when no row is at the largest safe time with a last id |
| Contacts.StartListsEverything | packages/database/src/index.ts:2803-2807 | for times that are safe integers, the list without a cursor is that of the whole table if and only if every row of the status at the largest safe time has an id before the last one |
| Contacts.TraversalFromStart | packages/database/src/index.ts:2803-2828 | following the cursors from none yields the whole table on exactly that condition |

## Left out

- SQLite itself: transactions are atomic steps, and of the schema only the constraints and triggers the results name are kept, as guards.
- Migrations, backup and recovery scripts, the web application, email delivery, platform controls, pricing and host-name matching: plumbing, or settled by one branch.
- HTTP routing and validation in `apps/control-plane/src/server.ts` apart from the export loop; error codes and messages are reduced to one constructor each.
- Stripe signatures, HMAC, hashes, JSON and text normalisation: a delivery is a verified one, and texts that a check may refuse carry a flag saying whether it does.
- Audit rows and the `updated_at`, `created_at` and message columns that no result reads.
- The administrator check before seat changes is a parameter that says whether the caller may.
- Audit-event pagination: it cuts on time alone, so the traversal result does not hold of it.
- Load ratios are exact fractions compared by cross-multiplication, where the database divides floating-point numbers; rounding ties are not modelled.
- Processor timers, polling and abort signals: a processor that is stopped in the middle of a job is one that crashed.
- ProvisioningInvariants.FinishIsForOwnAttempt: calls of one processor do not overlap, which stopping and starting again can bring about; what a superseded call can then do is `ProvisioningReadiness.SupersededCallFinishesExactly`, and the retry bound is not claimed for such runs.
- BillingDatabase.Processor.ProcessDelivery: the clock is read once; a delivery cut off after its registration is a step of its own in the runs.
- BillingDatabase.Processor.BuildProjection: the readers of the event object are inputs, each value present or not.
- Health samples of worker hosts and the shape of their addresses.
- Renaming and slug rules of published services: name and slug are identifiers, and limits stay fixed during a run.
- Bandwidth checks of the gateway and the ingress: whether a chunk or a declared length fits is an input there; the limiter that answers is modelled on its own.
- Metering of request bodies, header filtering and the opening of listeners: an attempt to listen either binds its port or fails.
- Reading usage figures from runtime JSON and the pricing table: a log entry carries the figures read from it, and the estimate used for a missing cost or saving is any function of provider, model and counts.
- UsageSync.RowsAfterSyncs: the log is append-only and the workspace keeps its owner between the synchronizations.
- The session list of a personal summary, cut to twenty, and the orderings of summary rows.
- UsageSync.LegacyIdsNeverCollide: assumes that the component encoding is injective and leaves no colon, and that workspace ids hold none; an event id given by a runtime is not compared with legacy ones.
- Contacts.TraversalIsTheList: rows that are deleted, or change their status, between two pages are not covered.
- UsageSummaries.DayOf: days are numbered from the epoch; that the database renders dates after the year 9999 as no date at all is not modelled.
- Placement.Eligible: host and workspace resources are compared as unbounded integers.
