/** The publication bandwidth limiter: four tables of fixed-window byte counters updated
    in place, with the log of what was admitted. */
module BandwidthLimiter {
  import opened Prelude
  import opened PublicationScopes
  import opened Windows

  datatype Limits = Limits(window: nat, global: nat, worker: nat, organization: nat, route: nat)

  function LimitAt(limits: Limits, level: Level): nat {
    match level
    case GlobalLevel => limits.global
    case WorkerLevel => limits.worker
    case OrganizationLevel => limits.organization
    case RouteLevel => limits.route
  }

  datatype Admission = Admission(scope: Scope, at: nat, bytes: nat)

  /** What the log admitted under one key of one level. */
  function HistoryOf(log: seq<Admission>, level: Level, key: Id): seq<Entry> {
    if log == [] then []
    else
      var last := log[|log| - 1];
      HistoryOf(log[..|log| - 1], level, key)
      + if KeyAt(last.scope, level) == key then [Entry(last.at, last.bytes)] else []
  }

  lemma HistoryAppend(log: seq<Admission>, a: Admission, level: Level, key: Id)
    ensures HistoryOf(log + [a], level, key)
            == HistoryOf(log, level, key) + if KeyAt(a.scope, level) == key then [Entry(a.at, a.bytes)] else []
  {
  }

  // ------------------------------------------------------------ one table

  function Lookup(rows: map<Id, Counter>, key: Id): Option<Counter> {
    if key in rows then Some(rows[key]) else None
  }

  predicate Expired(c: Counter, window: nat, now: nat) {
    now - c.start >= window
  }

  /** The bytes counted under a key at a moment. */
  function BytesAt(rows: map<Id, Counter>, window: nat, key: Id, now: nat): nat {
    if key in rows && !Expired(rows[key], window, now) then rows[key].spent else 0
  }

  /** Reading a key deletes its counter when the window is over. */
  function Cleaned(rows: map<Id, Counter>, window: nat, key: Id, now: nat): map<Id, Counter> {
    if key in rows && Expired(rows[key], window, now) then rows - {key} else rows
  }

  function Added(rows: map<Id, Counter>, window: nat, key: Id, now: nat, bytes: nat): map<Id, Counter> {
    var current := BytesAt(rows, window, key, now);
    Cleaned(rows, window, key, now)[key :=
      Counter(if current == 0 then now else rows[key].start, current + bytes)]
  }

  /** A key agrees with the log: it is counted as the windows theory requires, and its
      counter tells what its current window admitted, which is never nothing. */
  ghost predicate KeyAgrees(h: seq<Entry>, window: nat, limit: nat, counter: Option<Counter>, clock: nat) {
    && Windowed(h, window, limit, counter, clock)
    && Tells(h, window, counter, clock)
    && (counter.Some? ==> 0 < counter.value.spent <= limit)
  }

  ghost predicate Agrees(
    rows: map<Id, Counter>, window: nat, limit: nat, log: seq<Admission>, level: Level, clock: nat)
  {
    forall key: Id :: KeyAgrees(HistoryOf(log, level, key), window, limit, Lookup(rows, key), clock)
  }

  lemma KeyAgreesLater(h: seq<Entry>, window: nat, limit: nat, counter: Option<Counter>, clock: nat, now: nat)
    requires KeyAgrees(h, window, limit, counter, clock) && clock <= now
    ensures KeyAgrees(h, window, limit, counter, now)
  {
    Later(h, window, limit, counter, clock, now);
    TellsLater(h, window, counter, clock, now);
  }

  lemma AgreesLater(
    rows: map<Id, Counter>, window: nat, limit: nat, log: seq<Admission>, level: Level, clock: nat, now: nat)
    requires Agrees(rows, window, limit, log, level, clock) && clock <= now
    ensures Agrees(rows, window, limit, log, level, now)
  {
    hide KeyAgrees;
    forall key: Id ensures KeyAgrees(HistoryOf(log, level, key), window, limit, Lookup(rows, key), now) {
      KeyAgreesLater(HistoryOf(log, level, key), window, limit, Lookup(rows, key), clock, now);
    }
  }

  lemma CleaningAgrees(
    rows: map<Id, Counter>, window: nat, limit: nat, log: seq<Admission>, level: Level, key: Id, now: nat)
    requires Agrees(rows, window, limit, log, level, now)
    ensures Agrees(Cleaned(rows, window, key, now), window, limit, log, level, now)
  {
    var after := Cleaned(rows, window, key, now);
    forall k: Id ensures KeyAgrees(HistoryOf(log, level, k), window, limit, Lookup(after, k), now) {
      assert KeyAgrees(HistoryOf(log, level, k), window, limit, Lookup(rows, k), now);
      if k == key && key in rows && Expired(rows[key], window, now) {
        Expire(HistoryOf(log, level, k), window, limit, rows[k], now);
      }
    }
  }

  lemma AddingAgreesAtKey(
    rows: map<Id, Counter>, window: nat, limit: nat, h: seq<Entry>, key: Id, now: nat, bytes: nat)
    requires KeyAgrees(h, window, limit, Lookup(Cleaned(rows, window, key, now), key), now)
    requires window > 0 && bytes > 0
    requires BytesAt(rows, window, key, now) + bytes <= limit
    ensures KeyAgrees(h + [Entry(now, bytes)], window, limit, Lookup(Added(rows, window, key, now, bytes), key), now)
  {
    var cleaned := Cleaned(rows, window, key, now);
    var after := Added(rows, window, key, now, bytes);
    CountingTells(h, window, Lookup(cleaned, key), now, bytes);
    if key in cleaned {
      AdmitInWindow(h, window, limit, cleaned[key], now, bytes);
    } else {
      AdmitInNewWindow(h, window, limit, now, bytes);
    }
  }

  lemma AddingAgrees(
    rows: map<Id, Counter>, window: nat, limit: nat, log: seq<Admission>, level: Level, a: Admission)
    requires Agrees(rows, window, limit, log, level, a.at)
    requires window > 0 && a.bytes > 0
    requires BytesAt(rows, window, KeyAt(a.scope, level), a.at) + a.bytes <= limit
    ensures Agrees(Added(rows, window, KeyAt(a.scope, level), a.at, a.bytes), window, limit, log + [a], level, a.at)
  {
    hide KeyAgrees;
    var key := KeyAt(a.scope, level);
    var after := Added(rows, window, key, a.at, a.bytes);
    CleaningAgrees(rows, window, limit, log, level, key, a.at);
    forall k: Id ensures KeyAgrees(HistoryOf(log + [a], level, k), window, limit, Lookup(after, k), a.at) {
      HistoryAppend(log, a, level, k);
      var h := HistoryOf(log, level, k);
      if k == key {
        AddingAgreesAtKey(rows, window, limit, h, key, a.at, a.bytes);
      } else {
        assert HistoryOf(log + [a], level, k) == h;
        assert Lookup(after, k) == Lookup(rows, k);
      }
    }
  }

  // ---------------------------------------------------------------- limiter

  class Limiter {
    const limits: Limits
    var global: map<Id, Counter>
    var workers: map<Id, Counter>
    var organizations: map<Id, Counter>
    var routes: map<Id, Counter>
    ghost var log: seq<Admission>
    ghost var clock: nat

    function Rows(level: Level): map<Id, Counter>
      reads this
    {
      match level
      case GlobalLevel => global
      case WorkerLevel => workers
      case OrganizationLevel => organizations
      case RouteLevel => routes
    }

    ghost predicate Valid()
      reads this
    {
      && limits.window > 0
      && forall level: Level :: Agrees(Rows(level), limits.window, LimitAt(limits, level), log, level, clock)
    }

    /** The bytes counted against a scope at one level. */
    function Counted(scope: Scope, level: Level, now: nat): nat
      reads this
    {
      BytesAt(Rows(level), limits.window, KeyAt(scope, level), now)
    }

    /** There is room for the bytes at every level. */
    predicate Fits(scope: Scope, bytes: int, now: nat)
      reads this
    {
      bytes >= 0 && forall level: Level :: Counted(scope, level, now) + bytes <= LimitAt(limits, level)
    }

    constructor (limits: Limits)
      requires limits.window > 0
      ensures Valid() && this.limits == limits && log == [] && clock == 0
    {
      this.limits := limits;
      global, workers, organizations, routes := map[], map[], map[], map[];
      log, clock := [], 0;
      new;
      forall level: Level
        ensures Agrees(Rows(level), limits.window, LimitAt(limits, level), [], level, 0)
      {
        NothingYet(limits.window, LimitAt(limits, level), 0);
      }
    }

    /** Moves the last clock reading forward. */
    ghost method Tick(now: nat)
      requires Valid() && clock <= now
      modifies this`clock
      ensures Valid() && clock == now
    {
      hide Agrees;
      forall level: Level
        ensures Agrees(Rows(level), limits.window, LimitAt(limits, level), log, level, now)
      {
        AgreesLater(Rows(level), limits.window, LimitAt(limits, level), log, level, clock, now);
      }
      clock := now;
    }

    /** Reads a counter, deleting it when its window is over. */
    method Value(rows: map<Id, Counter>, key: Id, now: nat) returns (bytes: nat, after: map<Id, Counter>)
      ensures bytes == BytesAt(rows, limits.window, key, now)
      ensures after == Cleaned(rows, limits.window, key, now)
    {
      if key !in rows {
        return 0, rows;
      }
      if now - rows[key].start >= limits.window {
        return 0, rows - {key};
      }
      return rows[key].spent, rows;
    }

    method Add(rows: map<Id, Counter>, key: Id, now: nat, bytes: nat) returns (after: map<Id, Counter>)
      ensures after == Added(rows, limits.window, key, now, bytes)
    {
      var current;
      current, after := Value(rows, key, now);
      var start := if current == 0 then now else after[key].start;
      after := after[key := Counter(start, current + bytes)];
    }

    /** What a reading may do to the tables: some keys of the scope are cleaned. */
    twostate predicate OnlyCleaned(scope: Scope, now: nat)
      reads this
    {
      forall level: Level ::
        || Rows(level) == old(Rows(level))
        || Rows(level) == Cleaned(old(Rows(level)), limits.window, KeyAt(scope, level), now)
    }

    /** Whether the bytes fit, stopping at the first level they do not. */
    method CanConsume(scope: Scope, bytes: int, now: nat) returns (fits: bool)
      requires Valid() && clock <= now
      modifies this
      ensures Valid() && clock == now && log == old(log)
      ensures fits == old(Fits(scope, bytes, now))
      ensures OnlyCleaned(scope, now)
    {
      Tick(now);
      fits := ReadAllLevels(scope, bytes, now);
    }

    method ReadAllLevels(scope: Scope, bytes: int, now: nat) returns (fits: bool)
      requires Valid() && clock == now
      modifies this`global, this`workers, this`organizations, this`routes
      ensures Valid()
      ensures fits == old(Fits(scope, bytes, now))
      ensures OnlyCleaned(scope, now)
    {
      hide Agrees;
      fits := ReadLevels(scope, bytes, now);
      forall level: Level
        ensures Agrees(Rows(level), limits.window, LimitAt(limits, level), log, level, now)
      {
        CleaningAgrees(old(Rows(level)), limits.window, LimitAt(limits, level), log, level, KeyAt(scope, level), now);
      }
    }

    lemma FitsIsEveryLevel(scope: Scope, bytes: int, now: nat)
      ensures Fits(scope, bytes, now) <==>
              && bytes >= 0
              && Counted(scope, GlobalLevel, now) + bytes <= limits.global
              && Counted(scope, WorkerLevel, now) + bytes <= limits.worker
              && Counted(scope, OrganizationLevel, now) + bytes <= limits.organization
              && Counted(scope, RouteLevel, now) + bytes <= limits.route
    {
    }

    method ReadLevels(scope: Scope, bytes: int, now: nat) returns (fits: bool)
      modifies this`global, this`workers, this`organizations, this`routes
      ensures fits == old(Fits(scope, bytes, now))
      ensures global == old(global) || global == Cleaned(old(global), limits.window, GLOBAL, now)
      ensures workers == old(workers) || workers == Cleaned(old(workers), limits.window, scope.worker, now)
      ensures || organizations == old(organizations)
              || organizations == Cleaned(old(organizations), limits.window, scope.organization, now)
      ensures routes == old(routes) || routes == Cleaned(old(routes), limits.window, scope.route, now)
    {
      hide BytesAt, Cleaned, Fits;
      FitsIsEveryLevel(scope, bytes, now);
      if bytes < 0 {
        return false;
      }
      var value;
      value, global := Value(global, GLOBAL, now);
      assert value == old(Counted(scope, GlobalLevel, now));
      if value + bytes > limits.global {
        return false;
      }
      value, workers := Value(workers, scope.worker, now);
      assert value == old(Counted(scope, WorkerLevel, now));
      if value + bytes > limits.worker {
        return false;
      }
      value, organizations := Value(organizations, scope.organization, now);
      assert value == old(Counted(scope, OrganizationLevel, now));
      if value + bytes > limits.organization {
        return false;
      }
      value, routes := Value(routes, scope.route, now);
      assert value == old(Counted(scope, RouteLevel, now));
      fits := value + bytes <= limits.route;
    }

    /** Admits the bytes when they fit at the first clock reading; they are counted, and
        logged, at the second. */
    method TryConsume(scope: Scope, bytes: int, checkedAt: nat, countedAt: nat) returns (admitted: bool)
      requires Valid() && clock <= checkedAt <= countedAt
      modifies this
      ensures Valid()
      ensures admitted == old(Fits(scope, bytes, checkedAt))
      ensures log == old(log) + if admitted && bytes > 0 then [Admission(scope, countedAt, bytes)] else []
    {
      admitted := CanConsume(scope, bytes, checkedAt);
      if !admitted || bytes == 0 {
        return;
      }
      forall level: Level ensures Counted(scope, level, countedAt) + bytes <= LimitAt(limits, level) {
        StillFits(old(Rows(level)), Rows(level), KeyAt(scope, level), checkedAt, countedAt);
        assert old(Counted(scope, level, checkedAt)) + bytes <= LimitAt(limits, level);
      }
      Tick(countedAt);
      CountBytes(scope, bytes, countedAt);
    }

    lemma StillFits(before: map<Id, Counter>, after: map<Id, Counter>, key: Id, checkedAt: nat, countedAt: nat)
      requires checkedAt <= countedAt
      requires after == before || after == Cleaned(before, limits.window, key, checkedAt)
      ensures BytesAt(after, limits.window, key, countedAt) <= BytesAt(before, limits.window, key, checkedAt)
    {
    }

    method CountBytes(scope: Scope, bytes: nat, now: nat)
      requires Valid() && clock == now && bytes > 0
      requires forall level: Level :: Counted(scope, level, now) + bytes <= LimitAt(limits, level)
      modifies this
      ensures Valid() && clock == now
      ensures log == old(log) + [Admission(scope, now, bytes)]
      ensures forall level: Level ::
                Rows(level) == Added(old(Rows(level)), limits.window, KeyAt(scope, level), now, bytes)
    {
      hide Agrees, Added, BytesAt;
      ghost var a := Admission(scope, now, bytes);
      forall level: Level
        ensures Agrees(Added(Rows(level), limits.window, KeyAt(scope, level), now, bytes),
                       limits.window, LimitAt(limits, level), log + [a], level, now)
      {
        assert Counted(scope, level, now) + bytes <= LimitAt(limits, level);
        AddingAgrees(Rows(level), limits.window, LimitAt(limits, level), log, level, a);
      }
      global := Add(global, GLOBAL, now, bytes);
      workers := Add(workers, scope.worker, now, bytes);
      organizations := Add(organizations, scope.organization, now, bytes);
      routes := Add(routes, scope.route, now, bytes);
      log := log + [a];
    }

    /** For every key at every level, what was admitted in any interval of the window's
        length is at most twice the limit. */
    lemma AtMostTwiceTheLimit(level: Level, key: Id, from: int)
      requires Valid()
      ensures Admitted(HistoryOf(log, level, key), from, from + limits.window) <= 2 * LimitAt(limits, level)
    {
      assert KeyAgrees(
          HistoryOf(log, level, key), limits.window, LimitAt(limits, level), Lookup(Rows(level), key), clock);
      assert SlidingBound(HistoryOf(log, level, key), limits.window, LimitAt(limits, level), from);
    }

    /** What a level counts against a key is what the log admitted in its current window. */
    lemma CountsFollowTheLog(level: Level, key: Id, now: nat)
      requires Valid() && clock <= now
      ensures BytesAt(Rows(level), limits.window, key, now) == InWindow(HistoryOf(log, level, key), limits.window, now)
    {
      var h := HistoryOf(log, level, key);
      assert KeyAgrees(h, limits.window, LimitAt(limits, level), Lookup(Rows(level), key), clock);
      TellsLater(h, limits.window, Lookup(Rows(level), key), clock, now);
      ReadingTells(h, limits.window, Lookup(Rows(level), key), now);
    }

    /** The limiter lets bytes through exactly when the log's current window has room for them
        globally, for the worker, for the organization and for the route. */
    lemma DecisionFollowsTheLog(scope: Scope, bytes: int, now: nat)
      requires Valid() && clock <= now
      ensures Fits(scope, bytes, now) <==>
              && bytes >= 0
              && InWindow(HistoryOf(log, GlobalLevel, GLOBAL), limits.window, now) + bytes <= limits.global
              && InWindow(HistoryOf(log, WorkerLevel, scope.worker), limits.window, now) + bytes <= limits.worker
              && InWindow(HistoryOf(log, OrganizationLevel, scope.organization), limits.window, now) + bytes
                 <= limits.organization
              && InWindow(HistoryOf(log, RouteLevel, scope.route), limits.window, now) + bytes <= limits.route
    {
      hide Valid, InWindow, HistoryOf, BytesAt;
      FitsIsEveryLevel(scope, bytes, now);
      CountsFollowTheLog(GlobalLevel, GLOBAL, now);
      CountsFollowTheLog(WorkerLevel, scope.worker, now);
      CountsFollowTheLog(OrganizationLevel, scope.organization, now);
      CountsFollowTheLog(RouteLevel, scope.route, now);
    }
  }

  /** What an admission adds to the histories: its bytes, under its own worker, organization
      and route and in the whole, and nowhere else. */
  lemma AdmissionIsLogged(log: seq<Admission>, a: Admission, key: Id)
    ensures HistoryOf(log + [a], GlobalLevel, GLOBAL) == HistoryOf(log, GlobalLevel, GLOBAL) + [Entry(a.at, a.bytes)]
    ensures HistoryOf(log + [a], WorkerLevel, key)
            == HistoryOf(log, WorkerLevel, key) + if a.scope.worker == key then [Entry(a.at, a.bytes)] else []
    ensures HistoryOf(log + [a], OrganizationLevel, key)
            == HistoryOf(log, OrganizationLevel, key)
               + if a.scope.organization == key then [Entry(a.at, a.bytes)] else []
    ensures HistoryOf(log + [a], RouteLevel, key)
            == HistoryOf(log, RouteLevel, key) + if a.scope.route == key then [Entry(a.at, a.bytes)] else []
  {
    HistoryAppend(log, a, GlobalLevel, GLOBAL);
    HistoryAppend(log, a, WorkerLevel, key);
    HistoryAppend(log, a, OrganizationLevel, key);
    HistoryAppend(log, a, RouteLevel, key);
  }
}
