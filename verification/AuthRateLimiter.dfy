/** The authentication rate limiter: one bucket row per scope, subject and action, counted
    for every request that reaches it, admitted or not. */
module AuthRateLimiter {
  import opened Prelude
  import opened Windows

  datatype Action = Signup | Login | Recovery | Resend | Invitation
  datatype BucketScope = IpScope | AddressScope
  datatype Bucket = Bucket(scope: BucketScope, subject: Id, action: Action)

  const MINUTE_MS: nat := 60 * 1000

  function LimitOf(b: Bucket): nat {
    match b.action
    case Signup => if b.scope == IpScope then 10 else 3
    case Login => if b.scope == IpScope then 60 else 30
    case Recovery => if b.scope == IpScope then 10 else 3
    case Resend => if b.scope == IpScope then 10 else 3
    case Invitation => if b.scope == IpScope then 30 else 10
  }

  function WindowOf(action: Action): (window: nat)
    ensures window > 0
  {
    match action
    case Login => 15 * MINUTE_MS
    case Invitation => 24 * 60 * MINUTE_MS
    case _ => 60 * MINUTE_MS
  }

  /** The limits per ip and per address, and the windows. */
  lemma Policies(subject: Id)
    ensures LimitOf(Bucket(IpScope, subject, Signup)) == 10 && LimitOf(Bucket(AddressScope, subject, Signup)) == 3
    ensures LimitOf(Bucket(IpScope, subject, Login)) == 60 && LimitOf(Bucket(AddressScope, subject, Login)) == 30
    ensures LimitOf(Bucket(IpScope, subject, Recovery)) == 10 && LimitOf(Bucket(AddressScope, subject, Recovery)) == 3
    ensures LimitOf(Bucket(IpScope, subject, Resend)) == 10 && LimitOf(Bucket(AddressScope, subject, Resend)) == 3
    ensures LimitOf(Bucket(IpScope, subject, Invitation)) == 30
    ensures LimitOf(Bucket(AddressScope, subject, Invitation)) == 10
    ensures WindowOf(Login) == 900000 && WindowOf(Invitation) == 86400000
    ensures WindowOf(Signup) == WindowOf(Recovery) == WindowOf(Resend) == 3600000
  {
  }

  /** A request that was let through, with the buckets it was counted in. */
  datatype Passed = Passed(action: Action, ip: Id, address: Option<Id>, at: nat)

  predicate CountedIn(p: Passed, b: Bucket) {
    && p.action == b.action
    && (match b.scope
        case IpScope => p.ip == b.subject
        case AddressScope => p.address == Some(b.subject))
  }

  /** The let-through requests of one bucket, one unit each. */
  function HistoryOf(log: seq<Passed>, b: Bucket): seq<Entry> {
    if log == [] then []
    else
      var last := log[|log| - 1];
      HistoryOf(log[..|log| - 1], b) + if CountedIn(last, b) then [Entry(last.at, 1)] else []
  }

  lemma HistoryAppend(log: seq<Passed>, p: Passed, b: Bucket)
    ensures HistoryOf(log + [p], b) == HistoryOf(log, b) + if CountedIn(p, b) then [Entry(p.at, 1)] else []
  {
  }

  function Lookup(rows: map<Bucket, Counter>, b: Bucket): Option<Counter> {
    if b in rows then Some(rows[b]) else None
  }

  predicate Open(rows: map<Bucket, Counter>, b: Bucket, now: nat) {
    b in rows && now - rows[b].start < WindowOf(b.action)
  }

  /** One request counted in one bucket: the row after. */
  function CountedRow(rows: map<Bucket, Counter>, b: Bucket, now: nat): Counter {
    if Open(rows, b, now) then Counter(rows[b].start, rows[b].spent + 1) else Counter(now, 1)
  }

  /** The address bucket is reached only when the address is known and the ip bucket let
      the request through. */
  datatype Decision = Decision(rows: map<Bucket, Counter>, allowed: bool)

  function Decide(rows: map<Bucket, Counter>, action: Action, ip: Id, address: Option<Id>, now: nat): Decision {
    var ipBucket := Bucket(IpScope, ip, action);
    var afterIp := rows[ipBucket := CountedRow(rows, ipBucket, now)];
    if afterIp[ipBucket].spent > LimitOf(ipBucket) then Decision(afterIp, false)
    else if address.None? then Decision(afterIp, true)
    else
      var addressBucket := Bucket(AddressScope, address.value, action);
      var row := CountedRow(afterIp, addressBucket, now);
      Decision(afterIp[addressBucket := row], row.spent <= LimitOf(addressBucket))
  }

  // ------------------------------------------------------- one bucket

  ghost predicate BucketAgrees(rows: map<Bucket, Counter>, log: seq<Passed>, b: Bucket, clock: nat) {
    Windowed(HistoryOf(log, b), WindowOf(b.action), LimitOf(b), Lookup(rows, b), clock)
  }

  ghost predicate Agrees(rows: map<Bucket, Counter>, log: seq<Passed>, clock: nat) {
    forall b :: BucketAgrees(rows, log, b, clock)
  }

  lemma AgreesLater(rows: map<Bucket, Counter>, log: seq<Passed>, clock: nat, now: nat)
    requires Agrees(rows, log, clock) && clock <= now
    ensures Agrees(rows, log, now)
  {
    forall b ensures BucketAgrees(rows, log, b, now) {
      assert BucketAgrees(rows, log, b, clock);
      Later(HistoryOf(log, b), WindowOf(b.action), LimitOf(b), Lookup(rows, b), clock, now);
    }
  }

  /** A counted request keeps its bucket agreeing, whether it is let through (when the
      count is within the limit) or not. */
  lemma CountingAgrees(h: seq<Entry>, rows: map<Bucket, Counter>, b: Bucket, now: nat, passed: bool)
    requires Windowed(h, WindowOf(b.action), LimitOf(b), Lookup(rows, b), now)
    requires passed ==> CountedRow(rows, b, now).spent <= LimitOf(b)
    ensures Windowed(h + if passed then [Entry(now, 1)] else [], WindowOf(b.action), LimitOf(b),
                     Some(CountedRow(rows, b, now)), now)
  {
    var window, limit := WindowOf(b.action), LimitOf(b);
    assert h + [] == h;
    if Open(rows, b, now) {
      if passed {
        AdmitInWindow(h, window, limit, rows[b], now, 1);
      } else {
        SpendInWindow(h, window, limit, rows[b], now, 1);
      }
    } else {
      if b in rows {
        Expire(h, window, limit, rows[b], now);
      }
      if passed {
        AdmitInNewWindow(h, window, limit, now, 1);
      } else {
        SpendInNewWindow(h, window, limit, now, 1);
      }
    }
  }

  /** A decided request keeps every bucket agreeing with the log of those let through. */
  lemma DecidingAgrees(
    rows: map<Bucket, Counter>, log: seq<Passed>, action: Action, ip: Id, address: Option<Id>, now: nat)
    requires Agrees(rows, log, now)
    ensures var d := Decide(rows, action, ip, address, now);
            Agrees(d.rows, if d.allowed then log + [Passed(action, ip, address, now)] else log, now)
  {
    hide Windowed;
    var d := Decide(rows, action, ip, address, now);
    var p := Passed(action, ip, address, now);
    var after := if d.allowed then log + [p] else log;
    forall b ensures BucketAgrees(d.rows, after, b, now) {
      assert BucketAgrees(rows, log, b, now);
      HistoryAppend(log, p, b);
      var h := HistoryOf(log, b);
      assert h + [] == h;
      if b in d.rows && Lookup(d.rows, b) == Some(CountedRow(rows, b, now)) {
        var touched := d.allowed && CountedIn(p, b);
        if touched || Lookup(d.rows, b) != Lookup(rows, b) {
          CountingAgrees(h, rows, b, now, touched);
        }
      }
    }
  }

  // ------------------------------------------------- counting every request

  /** The requests that were counted in a bucket, let through or not. */
  function TriedIn(tried: map<Bucket, seq<Entry>>, b: Bucket): seq<Entry> {
    if b in tried then tried[b] else []
  }

  function Counted(tried: map<Bucket, seq<Entry>>, b: Bucket, now: nat): map<Bucket, seq<Entry>> {
    tried[b := TriedIn(tried, b) + [Entry(now, 1)]]
  }

  /** Every row tells the requests counted in its bucket. */
  ghost predicate RowsTell(rows: map<Bucket, Counter>, tried: map<Bucket, seq<Entry>>, clock: nat) {
    forall b :: Tells(TriedIn(tried, b), WindowOf(b.action), Lookup(rows, b), clock)
  }

  lemma RowsTellLater(rows: map<Bucket, Counter>, tried: map<Bucket, seq<Entry>>, clock: nat, now: nat)
    requires RowsTell(rows, tried, clock) && clock <= now
    ensures RowsTell(rows, tried, now)
  {
    hide Tells;
    forall b ensures Tells(TriedIn(tried, b), WindowOf(b.action), Lookup(rows, b), now) {
      TellsLater(TriedIn(tried, b), WindowOf(b.action), Lookup(rows, b), clock, now);
    }
  }

  /** Counting one request: its row goes on telling, and is one more than the window held. */
  lemma CountingIsTold(rows: map<Bucket, Counter>, tried: map<Bucket, seq<Entry>>, b: Bucket, now: nat)
    requires RowsTell(rows, tried, now)
    ensures RowsTell(rows[b := CountedRow(rows, b, now)], Counted(tried, b, now), now)
    ensures CountedRow(rows, b, now).spent == InWindow(TriedIn(tried, b), WindowOf(b.action), now) + 1
  {
    hide Tells, InWindow;
    var h, window := TriedIn(tried, b), WindowOf(b.action);
    ReadingTells(h, window, Lookup(rows, b), now);
    CountingTells(h, window, Lookup(rows, b), now, 1);
    var rows', tried' := rows[b := CountedRow(rows, b, now)], Counted(tried, b, now);
    forall k ensures Tells(TriedIn(tried', k), WindowOf(k.action), Lookup(rows', k), now) {
      if k != b {
        assert Tells(TriedIn(tried, k), WindowOf(k.action), Lookup(rows, k), now);
      }
    }
  }

  // ---------------------------------------------------------------- limiter

  class Limiter {
    var rows: map<Bucket, Counter>
    ghost var log: seq<Passed>
    ghost var tried: map<Bucket, seq<Entry>>
    ghost var clock: nat

    ghost predicate Valid()
      reads this
    {
      Agrees(rows, log, clock) && RowsTell(rows, tried, clock)
    }

    /** A bucket has room for one more request. */
    ghost predicate HasRoom(b: Bucket, now: nat)
      reads this`tried
    {
      InWindow(TriedIn(tried, b), WindowOf(b.action), now) < LimitOf(b)
    }

    constructor ()
      ensures Valid() && rows == map[] && log == [] && tried == map[] && clock == 0
    {
      rows, log, tried, clock := map[], [], map[], 0;
      new;
      forall b ensures BucketAgrees(map[], [], b, 0) {
        NothingYet(WindowOf(b.action), LimitOf(b), 0);
      }
    }

    /** Reads and overwrites one bucket row. */
    method Consume(b: Bucket, now: nat) returns (within: bool)
      requires RowsTell(rows, tried, now)
      modifies this`rows, this`tried
      ensures rows == old(rows)[b := CountedRow(old(rows), b, now)]
      ensures within <==> rows[b].spent <= LimitOf(b)
      ensures RowsTell(rows, tried, now) && tried == Counted(old(tried), b, now)
      ensures within <==> old(HasRoom(b, now))
    {
      CountingIsTold(rows, tried, b, now);
      tried := Counted(tried, b, now);
      var start, count := now, 1;
      if b in rows && now - rows[b].start < WindowOf(b.action) {
        start := rows[b].start;
      }
      if b in rows && start == rows[b].start {
        count := rows[b].spent + 1;
      }
      rows := rows[b := Counter(start, count)];
      return count <= LimitOf(b);
    }

    /** Counts one request in its buckets, stopping at the first that is over its limit: it is
        let through exactly when the ip's bucket has room and the address's, if there is one,
        has too, and what is counted are all requests, let through or not. */
    method Handle(action: Action, ip: Id, address: Option<Id>, now: nat) returns (allowed: bool)
      requires Valid() && clock <= now
      modifies this
      ensures Valid() && clock == now
      ensures Decision(rows, allowed) == Decide(old(rows), action, ip, address, now)
      ensures log == old(log) + if allowed then [Passed(action, ip, address, now)] else []
      ensures var ipRoom := old(HasRoom(Bucket(IpScope, ip, action), now));
              var ipTried := Counted(old(tried), Bucket(IpScope, ip, action), now);
              if address.None? || !ipRoom then allowed == ipRoom && tried == ipTried
              else
                && allowed == old(HasRoom(Bucket(AddressScope, address.value, action), now))
                && tried == Counted(ipTried, Bucket(AddressScope, address.value, action), now)
    {
      hide RowsTell, HasRoom, Decide, Agrees, Counted;
      RowsTellLater(rows, tried, clock, now);
      AgreesLater(rows, log, clock, now);
      DecidingAgrees(rows, log, action, ip, address, now);
      clock := now;
      allowed := ConsumeAll(action, ip, address, now);
      if allowed {
        log := log + [Passed(action, ip, address, now)];
      }
    }

    method ConsumeAll(action: Action, ip: Id, address: Option<Id>, now: nat) returns (allowed: bool)
      requires RowsTell(rows, tried, now)
      modifies this`rows, this`tried
      ensures RowsTell(rows, tried, now)
      ensures Decision(rows, allowed) == Decide(old(rows), action, ip, address, now)
      ensures var ipRoom := old(HasRoom(Bucket(IpScope, ip, action), now));
              var ipTried := Counted(old(tried), Bucket(IpScope, ip, action), now);
              if address.None? || !ipRoom then allowed == ipRoom && tried == ipTried
              else
                && allowed == old(HasRoom(Bucket(AddressScope, address.value, action), now))
                && tried == Counted(ipTried, Bucket(AddressScope, address.value, action), now)
    {
      hide RowsTell, InWindow, CountedRow, LimitOf, WindowOf;
      allowed := Consume(Bucket(IpScope, ip, action), now);
      if allowed && address.Some? {
        var b := Bucket(AddressScope, address.value, action);
        assert TriedIn(tried, b) == old(TriedIn(tried, b));
        allowed := Consume(b, now);
      }
    }

    /** For every bucket, the requests let through in any interval of the window's length
        are at most twice the limit. */
    lemma AtMostTwiceTheLimit(b: Bucket, from: int)
      requires Valid()
      ensures Admitted(HistoryOf(log, b), from, from + WindowOf(b.action)) <= 2 * LimitOf(b)
    {
      assert BucketAgrees(rows, log, b, clock);
      assert SlidingBound(HistoryOf(log, b), WindowOf(b.action), LimitOf(b), from);
    }

    /** The worst cases in figures: what one ip, and one address, can have let through in any
        such interval. */
    lemma WorstCases(subject: Id, from: int)
      requires Valid()
      ensures Admitted(HistoryOf(log, Bucket(IpScope, subject, Signup)), from, from + 3600000) <= 20
      ensures Admitted(HistoryOf(log, Bucket(AddressScope, subject, Signup)), from, from + 3600000) <= 6
      ensures Admitted(HistoryOf(log, Bucket(IpScope, subject, Login)), from, from + 900000) <= 120
      ensures Admitted(HistoryOf(log, Bucket(AddressScope, subject, Login)), from, from + 900000) <= 60
      ensures Admitted(HistoryOf(log, Bucket(IpScope, subject, Recovery)), from, from + 3600000) <= 20
      ensures Admitted(HistoryOf(log, Bucket(AddressScope, subject, Recovery)), from, from + 3600000) <= 6
      ensures Admitted(HistoryOf(log, Bucket(IpScope, subject, Resend)), from, from + 3600000) <= 20
      ensures Admitted(HistoryOf(log, Bucket(AddressScope, subject, Resend)), from, from + 3600000) <= 6
      ensures Admitted(HistoryOf(log, Bucket(IpScope, subject, Invitation)), from, from + 86400000) <= 60
      ensures Admitted(HistoryOf(log, Bucket(AddressScope, subject, Invitation)), from, from + 86400000) <= 20
    {
      hide Valid, Admitted, HistoryOf;
      forall scope: BucketScope, action: Action
        ensures var b := Bucket(scope, subject, action);
                Admitted(HistoryOf(log, b), from, from + WindowOf(action)) <= 2 * LimitOf(b)
      {
        AtMostTwiceTheLimit(Bucket(scope, subject, action), from);
      }
    }
  }
}
