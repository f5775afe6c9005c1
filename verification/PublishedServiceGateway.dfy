/** The HTTP publication gateway: the checks before a request is forwarded, and the lease
    it holds while the response body streams. */
module PublishedServiceGateway {
  import opened Prelude
  import opened PublicationScopes
  import opened ConnectionLimiter

  /** What one read of the upstream body yields: the end, a chunk with the bandwidth
      limiter's answer for it, or a failure. */
  datatype Read = Ended | Chunk(fits: bool) | ReadFailed

  /** What happens to the response body: the client pulls; the upstream cancellation that a
      chunk over the limit started settles, either way; or the client cancels, and the flag
      says whether cancelling the upstream reader then fails. */
  datatype Event = Pull(read: Read) | UpstreamCancelled | Cancel(cancelFails: bool)

  /** What the client's side of the stream sees. */
  datatype Signal = Enqueued | Pending | Closed | Failed

  /** A response body that owns a lease until its stream is over. */
  class LeasedBody {
    const limiter: Limiter
    const lease: Lease
    var released: bool
    var cancelling: bool  // a chunk was over the limit; the upstream is being cancelled

    ghost predicate Valid()
      reads this, limiter, limiter.handedOut
    {
      limiter.Valid() && lease in limiter.handedOut && released == lease.released
    }

    constructor (limiter: Limiter, lease: Lease)
      requires limiter.Valid() && lease in limiter.handedOut && !lease.released
      ensures Valid() && this.limiter == limiter && this.lease == lease && !released && !cancelling
    {
      this.limiter, this.lease, released, cancelling := limiter, lease, false, false;
    }

    method Release()
      requires Valid()
      modifies this`released, lease, limiter`global, limiter`workers, limiter`organizations, limiter`routes
      ensures Valid() && released
      ensures limiter.Live() == old(limiter.Live()) - {lease}
    {
      if released {
        return;
      }
      released := true;
      limiter.Release(lease);
    }

    /** One event, in any state of the body: the lease leaves the live ones on every event but
        a chunk, which leaves the stream running or waiting, and an event after that finds
        nothing more to release. A chunk over the limit keeps the lease until the upstream
        cancellation settles. */
    method Deliver(e: Event) returns (signal: Signal)
      requires Valid()
      requires e.Pull? ==> !cancelling
      requires e.UpstreamCancelled? ==> cancelling
      modifies this, lease, limiter`global, limiter`workers, limiter`organizations, limiter`routes
      ensures Valid()
      ensures released == (old(released) || !e.Pull? || !e.read.Chunk?)
      ensures cancelling == (e == Pull(Chunk(false)) || (old(cancelling) && !e.UpstreamCancelled?))
      ensures limiter.Live() == old(limiter.Live()) - if e.Pull? && e.read.Chunk? then {} else {lease}
      ensures signal == Enqueued <==> e == Pull(Chunk(true))
      ensures signal == Pending <==> e == Pull(Chunk(false))
      ensures signal == Closed <==> e == Pull(Ended) || e == Cancel(false)
    {
      hide Limiter.Valid;
      match e
      case Pull(read) =>
        match read {
          case Ended =>
            Release();
            signal := Closed;
          case Chunk(fits) =>
            if fits {
              return Enqueued;
            }
            cancelling := true;
            signal := Pending;
          case ReadFailed =>
            Release();
            signal := Failed;
        }
      case UpstreamCancelled =>
        cancelling := false;
        Release();
        signal := Failed;
      case Cancel(cancelFails) =>
        Release();
        signal := if cancelFails then Failed else Closed;
    }
  }

  /** What the gateway reads of a publication. */
  datatype Publication = Publication(http: bool, isPrivate: bool, tokenPolicy: bool, hasTokenHash: bool)

  /** What forwarding to the worker comes to. Building the response can fail as well. */
  datatype Reply = Aborted | WorkerFailed | Replied(hasBody: bool, responseFails: bool)

  datatype Outcome =
    | NotFound
    | ProtocolMismatch
    | AuthenticationRequired
    | Unavailable
    | BandwidthLimited
    | ConnectionLimited
    | RethrownAbort
    | Empty
    | Streaming

  /** The part before the worker is called: the checks, then the lease. There is a lease to go
      on with exactly when nothing refused the request and every level had room. */
  method Begin(limiter: Limiter, p: Option<Publication>, tokenMatches: bool, scope: Option<Scope>, declaredFits: bool)
    returns (refused: Option<Outcome>, lease: Lease?)
    requires limiter.Valid()
    modifies limiter
    ensures limiter.Valid() && old(limiter.handedOut) <= limiter.handedOut
    ensures refused
            == if p.None? then Some(NotFound)
               else if !p.value.http then Some(ProtocolMismatch)
               else if p.value.isPrivate && !(p.value.tokenPolicy && p.value.hasTokenHash && tokenMatches) then
                 Some(AuthenticationRequired)
               else if scope.None? then Some(Unavailable)
               else if !declaredFits then Some(BandwidthLimited)
               else if !old(HasRoom(limiter.limits, limiter.Live(), scope.value)) then Some(ConnectionLimited)
               else None
    ensures lease == null <==> refused.Some?
    ensures lease == null ==> limiter.Live() == old(limiter.Live())
    ensures lease != null ==>
              && fresh(lease) && !lease.released && lease in limiter.handedOut && Some(lease.scope) == scope
              && limiter.Live() == old(limiter.Live()) + {lease}
  {
    hide HasRoom, Limiter.Valid;
    lease := null;
    if p.None? {
      return Some(NotFound), null;
    }
    if !p.value.http {
      return Some(ProtocolMismatch), null;
    }
    if p.value.isPrivate && (!p.value.tokenPolicy || !p.value.hasTokenHash || !tokenMatches) {
      return Some(AuthenticationRequired), null;
    }
    if scope.None? {
      return Some(Unavailable), null;
    }
    if !declaredFits {
      return Some(BandwidthLimited), null;
    }
    lease := limiter.TryAcquire(scope.value);
    refused := if lease == null then Some(ConnectionLimited) else None;
  }

  /** The part after the worker was awaited, when other leases may have come and gone: the
      lease is released here unless a streaming body takes it over. */
  method Resume(limiter: Limiter, lease: Lease, reply: Reply) returns (outcome: Outcome, body: LeasedBody?)
    requires limiter.Valid() && lease in limiter.handedOut && !lease.released
    modifies lease, limiter`global, limiter`workers, limiter`organizations, limiter`routes
    ensures limiter.Valid()
    ensures outcome == match reply
                       case Aborted => RethrownAbort
                       case WorkerFailed => Unavailable
                       case Replied(hasBody, responseFails) =>
                         if responseFails then Unavailable else if hasBody then Streaming else Empty
    ensures lease.released <==> outcome != Streaming
    ensures limiter.Live() == old(limiter.Live()) - if outcome == Streaming then {} else {lease}
    ensures body != null <==> outcome == Streaming
    ensures body != null ==>
              fresh(body) && body.Valid() && !body.released && body.limiter == limiter && body.lease == lease
  {
    body := null;
    if reply.Replied? && !reply.responseFails {
      if !reply.hasBody {
        limiter.Release(lease);
        return Empty, null;
      }
      body := new LeasedBody(limiter, lease);
      return Streaming, body;
    }
    limiter.Release(lease);
    outcome := if reply.Aborted? then RethrownAbort else Unavailable;
  }
}
