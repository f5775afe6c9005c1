/** The TCP ingress: connections holding leases, grouped by port in sets of closers that the
    connections themselves leave when they finish. */
module TcpIngress {
  import opened Prelude
  import opened PublicationScopes
  import opened ConnectionLimiter

  type Port = nat

  /** The closers of one port, shared by the table and by every connection in it. */
  class Closers {
    var members: set<Connection>

    constructor ()
      ensures members == {}
    {
      members := {};
    }
  }

  /** One accepted client, with the variables its handler closes over. */
  class Connection {
    const port: Port
    const lease: Lease
    const closers: Closers
    var finished: bool
    var clientOpen: bool
    var worker: Option<bool>  // the worker socket, once there is one: open or destroyed
    var attached: bool        // the handlers of both sockets are installed

    constructor (port: Port, lease: Lease, closers: Closers)
      ensures this.port == port && this.lease == lease && this.closers == closers
      ensures !finished && clientOpen && worker == None && !attached
    {
      this.port, this.lease, this.closers := port, lease, closers;
      finished, clientOpen, worker, attached := false, true, None, false;
    }
  }

  /** What ends a connection: its idle timers, an error or close of a socket, a chunk the
      bandwidth limiter refuses, or a tunnel that cannot be opened. */
  datatype Event = IdleTimeout | SocketFailed | SocketClosed | Data(fits: bool) | TunnelFailed

  ghost function LeasesOf(connections: set<Connection>): set<Lease> {
    set c | c in connections :: c.lease
  }

  class Ingress {
    const limiter: Limiter
    var listeners: set<Port>
    var closersByPort: map<Port, Closers>
    ghost var accepted: set<Connection>

    /** The accepted connections that have not finished. */
    ghost function Live(): set<Connection>
      reads this`accepted, accepted`finished
    {
      set c | c in accepted && !c.finished
    }

    ghost function LiveOn(port: Port): set<Connection>
      reads this`accepted, accepted`finished
    {
      set c | c in accepted && !c.finished && c.port == port
    }

    /** A port has an entry exactly when it has live connections, and the entry holds
        exactly those, each knowing that entry. */
    ghost predicate PortAgrees(port: Port)
      reads this`closersByPort, this`accepted, accepted`finished, closersByPort.Values
    {
      && (port in closersByPort <==> LiveOn(port) != {})
      && (port in closersByPort ==>
            && closersByPort[port].members == LiveOn(port)
            && forall c :: c in LiveOn(port) ==> c.closers == closersByPort[port])
    }

    /** A connection holds its lease exactly until it finishes. */
    ghost predicate HoldsLease(c: Connection)
      reads c`finished, c.lease, limiter`handedOut
    {
      c.lease in limiter.handedOut && c.finished == c.lease.released
    }

    /** The sockets of a connection: finishing destroys the client's, and the worker's if it
        is there by then. */
    ghost predicate SocketsAgree(c: Connection)
      reads c
    {
      && c.clientOpen == !c.finished
      && c.worker == (if c.attached then Some(!c.finished)
                      else if c.finished && c.worker.Some? then Some(true)
                      else None)
    }

    ghost predicate Grouped()
      reads this`closersByPort, this`accepted, accepted`finished, closersByPort.Values
    {
      forall port: Port :: PortAgrees(port)
    }

    ghost predicate Leased()
      reads this`accepted, limiter`handedOut, accepted`finished, set c | c in accepted :: c.lease
    {
      && (forall c :: c in accepted ==> HoldsLease(c))
      && (forall c, d :: c in accepted && d in accepted && c.lease == d.lease ==> c == d)
    }

    ghost predicate Valid()
      reads this, limiter, limiter.handedOut, accepted, closersByPort.Values, set c | c in accepted :: c.lease
    {
      limiter.Valid() && Grouped() && Leased() && forall c :: c in accepted ==> SocketsAgree(c)
    }

    constructor (limiter: Limiter)
      requires limiter.Valid()
      ensures Valid() && this.limiter == limiter && accepted == {} && listeners == {}
    {
      this.limiter := limiter;
      listeners, closersByPort, accepted := {}, map[], {};
    }

    /** Takes a connection out of its port's closers, and the entry with the last one. */
    method Leave(c: Connection)
      requires Grouped() && c in Live()
      modifies this`closersByPort, c`finished, c.closers
      ensures Grouped() && c.finished
      ensures Live() == old(Live()) - {c}
    {
      assert PortAgrees(c.port);
      assert c in LiveOn(c.port);
      c.finished := true;
      c.closers.members := c.closers.members - {c};
      if c.closers.members == {} {
        closersByPort := closersByPort - {c.port};
      }
      forall port: Port ensures PortAgrees(port) {
        assert old(PortAgrees(port));
        assert LiveOn(port) == old(LiveOn(port)) - {c};
      }
    }

    /** Registers a connection with its port's closers, making the entry for the first one. */
    method Enter(port: Port, lease: Lease) returns (c: Connection)
      requires Grouped()
      modifies this`closersByPort, this`accepted, closersByPort.Values
      ensures Grouped()
      ensures fresh(c) && c.port == port && c.lease == lease && !c.finished && SocketsAgree(c)
      ensures accepted == old(accepted) + {c} && Live() == old(Live()) + {c}
    {
      assert PortAgrees(port);
      var closers;
      if port in closersByPort {
        closers := closersByPort[port];
      } else {
        closers := new Closers();
      }
      closersByPort := closersByPort[port := closers];
      c := new Connection(port, lease, closers);
      closers.members := closers.members + {c};
      accepted := accepted + {c};
      forall p: Port ensures PortAgrees(p) {
        assert old(PortAgrees(p));
        assert LiveOn(p) == old(LiveOn(p)) + if p == port then {c} else {};
      }
    }

    /** Accepts a client when its port has a route with room for one more lease. */
    method Accept(port: Port, route: Option<Scope>) returns (c: Connection?)
      requires Valid()
      modifies this`closersByPort, this`accepted, limiter, closersByPort.Values
      ensures Valid()
      ensures c != null <==> route.Some? && old(HasRoom(limiter.limits, limiter.Live(), route.value))
      ensures c == null ==> accepted == old(accepted) && Live() == old(Live()) && limiter.Live() == old(limiter.Live())
      ensures c != null ==>
                && fresh(c) && fresh(c.lease) && c.port == port && Some(c.lease.scope) == route
                && accepted == old(accepted) + {c} && Live() == old(Live()) + {c}
                && limiter.Live() == old(limiter.Live()) + {c.lease}
    {
      hide HasRoom, PortAgrees, Limiter.Valid;
      if route.None? {
        return null;
      }
      var lease := limiter.TryAcquire(route.value);
      if lease == null {
        return null;
      }
      c := Enter(port, lease);
    }

    /** Ends a connection the first time; later calls change nothing. */
    method Finish(c: Connection)
      requires Valid() && c in accepted
      modifies this`closersByPort, c, c.closers, c.lease
      modifies limiter`global, limiter`workers, limiter`organizations, limiter`routes
      ensures Valid() && c.finished
      ensures Live() == old(Live()) - {c}
      ensures limiter.Live() == old(limiter.Live()) - {c.lease}
    {
      hide PortAgrees, Limiter.Valid;
      if c.finished {
        return;
      }
      Leave(c);
      limiter.Release(c.lease);
      Destroy(c);
    }

    method Destroy(c: Connection)
      modifies c`clientOpen, c`worker
      ensures !c.clientOpen
      ensures c.worker == if old(c.worker).Some? then Some(false) else None
    {
      c.clientOpen := false;
      if c.worker.Some? {
        c.worker := Some(false);
      }
    }

    /** The tunnel to the worker is there; a connection that finished meanwhile leaves it. */
    method TunnelOpened(c: Connection)
      requires Valid() && c in accepted && c.worker.None?
      modifies c`worker, c`attached
      ensures Valid() && c.worker == Some(true)
      ensures c.attached <==> !c.finished
    {
      c.worker := Some(true);
      if c.finished {
        return;
      }
      c.attached := true;
    }

    /** One event, in any state of the connection. The socket handlers are installed once the
        tunnel is open; before that only the idle timer and the tunnel itself can end it. */
    method Deliver(c: Connection, e: Event)
      requires Valid() && c in accepted
      requires e.SocketFailed? || e.SocketClosed? || e.Data? ==> c.attached
      modifies this`closersByPort, c, c.closers, c.lease
      modifies limiter`global, limiter`workers, limiter`organizations, limiter`routes
      ensures Valid()
      ensures Live() == old(Live()) - if e == Data(true) then {} else {c}
      ensures limiter.Live() == old(limiter.Live()) - if e == Data(true) then {} else {c.lease}
    {
      if e != Data(true) {
        Finish(c);
      }
    }

    /** Starts listening; binding a port that is taken fails. */
    method Activate(port: Port, bound: bool) returns (ok: bool)
      requires Valid()
      modifies this`listeners
      ensures Valid()
      ensures ok <==> port in old(listeners) || bound
      ensures listeners == old(listeners) + if ok then {port} else {}
    {
      if port in listeners {
        return true;
      }
      if !bound {
        return false;
      }
      listeners := listeners + {port};
      return true;
    }

    /** Ends every connection of a port, walking a copy of its closers. */
    method CloseConnections(port: Port)
      requires Valid()
      modifies this`closersByPort
      modifies LiveOn(port), set c | c in LiveOn(port) :: c.closers, set c | c in LiveOn(port) :: c.lease
      modifies limiter`global, limiter`workers, limiter`organizations, limiter`routes
      ensures Valid() && LiveOn(port) == {}
      ensures Live() == old(Live()) - old(LiveOn(port))
      ensures limiter.Live() == old(limiter.Live()) - LeasesOf(old(LiveOn(port)))
    {
      hide Limiter.Valid, Leased;
      ghost var ending := LiveOn(port);
      assert PortAgrees(port);
      var pending := if port in closersByPort then closersByPort[port].members else {};
      hide Valid, Grouped;
      while pending != {}
        invariant Valid() && pending == LiveOn(port) && pending <= ending
        invariant Live() == old(Live()) - (ending - pending)
        invariant limiter.Live() == old(limiter.Live()) - LeasesOf(ending - pending)
        decreases pending
      {
        var c :| c in pending;
        Finish(c);
        pending := pending - {c};
      }
    }

    /** Ends every connection of a port, then stops listening. */
    method Deactivate(port: Port)
      requires Valid()
      modifies this`closersByPort, this`listeners
      modifies LiveOn(port), set c | c in LiveOn(port) :: c.closers, set c | c in LiveOn(port) :: c.lease
      modifies limiter`global, limiter`workers, limiter`organizations, limiter`routes
      ensures Valid() && port !in closersByPort
      ensures listeners == old(listeners) - {port}
      ensures Live() == old(Live()) - old(LiveOn(port))
      ensures limiter.Live() == old(limiter.Live()) - LeasesOf(old(LiveOn(port)))
    {
      hide Limiter.Valid, Leased;
      CloseConnections(port);
      assert PortAgrees(port);
      listeners := listeners - {port};
    }

    /** A worker socket is still open when its connection has finished exactly when the
        tunnel opened only afterwards. */
    lemma WorkerSocketOutlivesFinish(c: Connection)
      requires Valid() && c in accepted && c.finished
      ensures !c.clientOpen
      ensures c.worker == Some(true) <==> c.worker.Some? && !c.attached
    {
    }

    /** The live connections of the ingress hold as many live leases as there are connections. */
    lemma {:induction false} LiveLeasesAreCounted(live: set<Connection>)
      requires Leased() && live <= Live()
      ensures |LeasesOf(live)| == |live|
      ensures LeasesOf(live) <= limiter.Live()
    {
      if live == {} {
        assert LeasesOf(live) == {};
      } else {
        var c :| c in live;
        SizeWithout(live, c);
        LiveLeasesAreCounted(live - {c});
        SizeWithout(LeasesOf(live), c.lease);
        assert LeasesOf(live) - {c.lease} == LeasesOf(live - {c});
      }
    }
  }
}
