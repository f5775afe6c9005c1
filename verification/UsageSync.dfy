/** Feeding the usage ledger from a chat's request log: the ids of entries without one, the
    loop that records them, and what repeated synchronizations come to. */
module UsageSync {
  import opened Prelude
  import opened UsageLedger

  // --------------------------------------------------------------- legacy ids

  const DIGITS: string := "0123456789"

  function Decimal(n: nat): string {
    if n < 10 then [DIGITS[n]] else Decimal(n / 10) + [DIGITS[n % 10]]
  }

  function DigitValue(c: char): int {
    c as int - '0' as int
  }

  function Value(text: string): int {
    if text == "" then 0 else 10 * Value(text[..|text| - 1]) + DigitValue(text[|text| - 1])
  }

  lemma DigitsAreValued(d: nat)
    requires d < 10
    ensures DigitValue(DIGITS[d]) == d && DIGITS[d] != ':'
  {
  }

  lemma {:induction false} DecimalRoundTrip(n: nat)
    ensures Value(Decimal(n)) == n
    ensures ':' !in Decimal(n)
  {
    hide DigitValue;
    DigitsAreValued(n % 10);
    if n < 10 {
      assert Value(Decimal(n)) == 10 * Value("") + DigitValue(DIGITS[n]);
    } else {
      DecimalRoundTrip(n / 10);
      assert Decimal(n)[..|Decimal(n)| - 1] == Decimal(n / 10);
    }
  }

  function Joined(parts: seq<string>): string
    requires parts != []
  {
    if |parts| == 1 then parts[0] else parts[0] + ":" + Joined(parts[1..])
  }

  lemma SplitAtColon(a: string, s: string, b: string, t: string)
    requires ':' !in a && ':' !in b
    requires a + ":" + s == b + ":" + t
    ensures a == b && s == t
  {
    var whole := a + ":" + s;
    assert whole[|a|] == ':' && whole[|b|] == ':';
    assert forall i | 0 <= i < |a| :: whole[i] == a[i] && whole[i] != ':';
    assert forall i | 0 <= i < |b| :: whole[i] == b[i] && whole[i] != ':';
    assert |a| == |b|;
    assert a == whole[..|a|] == b;
    assert s == whole[|a| + 1..] == t;
  }

  lemma {:induction false} JoinedIsInjective(a: seq<string>, b: seq<string>)
    requires |a| == |b| > 0
    requires forall i | 0 <= i < |a| :: ':' !in a[i] && ':' !in b[i]
    requires Joined(a) == Joined(b)
    ensures a == b
  {
    if |a| > 1 {
      SplitAtColon(a[0], Joined(a[1..]), b[0], Joined(b[1..]));
      JoinedIsInjective(a[1..], b[1..]);
      assert a == [a[0]] + a[1..] && b == [b[0]] + b[1..];
    }
  }

  /** What the id of an entry without one is made of. */
  datatype LegacyKey = LegacyKey(
    workspace: string, chat: string, createdAt: nat, purpose: string, messageCount: nat, index: nat)

  function LegacyParts(k: LegacyKey, encode: string -> string): seq<string> {
    ["legacy-runtime-usage", k.workspace, encode(k.chat), Decimal(k.createdAt), encode(k.purpose),
     Decimal(k.messageCount), Decimal(k.index)]
  }

  function LegacyId(k: LegacyKey, encode: string -> string): string {
    Joined(LegacyParts(k, encode))
  }

  /** What is known of the component encoding: distinct texts stay distinct and no colon is
      left in them. */
  ghost predicate Encodes(encode: string -> string) {
    && (forall s: string :: ':' !in encode(s))
    && (forall s: string, t: string :: encode(s) == encode(t) ==> s == t)
  }

  lemma LegacyPartsHaveNoColon(k: LegacyKey, encode: string -> string)
    requires Encodes(encode) && ':' !in k.workspace
    ensures forall part | part in LegacyParts(k, encode) :: ':' !in part
  {
    DecimalRoundTrip(k.createdAt);
    DecimalRoundTrip(k.messageCount);
    DecimalRoundTrip(k.index);
  }

  /** Entries of different workspaces, chats or positions never share a legacy id. */
  lemma LegacyIdsNeverCollide(a: LegacyKey, b: LegacyKey, encode: string -> string)
    requires Encodes(encode) && ':' !in a.workspace && ':' !in b.workspace
    ensures LegacyId(a, encode) == LegacyId(b, encode) <==> a == b
  {
    if LegacyId(a, encode) == LegacyId(b, encode) {
      LegacyPartsHaveNoColon(a, encode);
      LegacyPartsHaveNoColon(b, encode);
      var p, q := LegacyParts(a, encode), LegacyParts(b, encode);
      JoinedIsInjective(p, q);
      assert p[1] == q[1] && p[2] == q[2] && p[3] == q[3] && p[4] == q[4] && p[5] == q[5] && p[6] == q[6];
      DecimalRoundTrip(a.createdAt);
      DecimalRoundTrip(b.createdAt);
      DecimalRoundTrip(a.messageCount);
      DecimalRoundTrip(b.messageCount);
      DecimalRoundTrip(a.index);
      DecimalRoundTrip(b.index);
    }
  }

  // ------------------------------------------------------------ log entries

  /** An entry of a chat's request log: one without usage is skipped; of the others the
      values the gateway reads. A creation time of zero is a missing one; a cost or a saving
      is there when the runtime reported it. */
  datatype Entry =
    | Skipped
    | Usable(eventId: Option<string>, createdAt: nat, purpose: string, messageCount: nat,
             input: nat, output: nat, cached: nat, reasoning: nat,
             cost: Option<nat>, savings: Option<nat>, outcome: Outcome)

  /** The chat that is synchronized, and whose it is. */
  datatype Context = Context(organization: Id, member: Id, workspace: string, chat: string)

  /** What a synchronization reads of the chat afresh, and records with every entry. */
  datatype Session = Session(name: Option<string>, agent: Option<Id>, provider: Id, model: Id)

  datatype Estimate = Estimate(cost: nat, savings: nat)

  /** The two computations the loop calls: the component encoding, and the estimate from
      provider, model, input, output and cached tokens. */
  datatype Outside = Outside(encode: string -> string, estimate: (Id, Id, nat, nat, nat) -> Estimate)

  function CostOf(s: Session, entry: Entry, o: Outside): nat
    requires entry.Usable?
  {
    if entry.cost.Some? then entry.cost.value
    else o.estimate(s.provider, s.model, entry.input, entry.output, entry.cached).cost
  }

  function SavingsOf(s: Session, entry: Entry, o: Outside): nat
    requires entry.Usable?
  {
    if entry.savings.Some? then entry.savings.value
    else o.estimate(s.provider, s.model, entry.input, entry.output, entry.cached).savings
  }

  /** The id of an entry depends on its chat and its position, not on the session. */
  function EventIdOf(c: Context, entry: Entry, index: nat, o: Outside): string
    requires entry.Usable?
  {
    if entry.eventId.Some? then entry.eventId.value
    else LegacyId(LegacyKey(c.workspace, c.chat, entry.createdAt, entry.purpose, entry.messageCount, index), o.encode)
  }

  /** An entry with an id is recorded under it. Two entries without one are recorded under the
      same id only when workspace, chat, position and the rest agree. */
  lemma EventIdsNeverCollide(c: Context, a: Entry, i: nat, d: Context, b: Entry, j: nat, o: Outside)
    requires a.Usable? && b.Usable?
    requires Encodes(o.encode) && ':' !in c.workspace && ':' !in d.workspace
    ensures a.eventId.Some? ==> EventIdOf(c, a, i, o) == a.eventId.value
    ensures a.eventId.None? && b.eventId.None? ==>
              (EventIdOf(c, a, i, o) == EventIdOf(d, b, j, o)
               <==>
               && c.workspace == d.workspace && c.chat == d.chat && i == j
               && a.createdAt == b.createdAt && a.purpose == b.purpose && a.messageCount == b.messageCount)
  {
    hide LegacyId;
    if a.eventId.None? && b.eventId.None? {
      LegacyIdsNeverCollide(
        LegacyKey(c.workspace, c.chat, a.createdAt, a.purpose, a.messageCount, i),
        LegacyKey(d.workspace, d.chat, b.createdAt, b.purpose, b.messageCount, j), o.encode);
    }
  }

  function EventAt(c: Context, s: Session, now: nat, entry: Entry, index: nat, o: Outside): Event
    requires entry.Usable?
  {
    Event(
      EventIdOf(c, entry, index, o),
      Row(c.organization, c.member, c.workspace, c.chat, s.name, s.agent, s.provider, s.model,
          entry.input, entry.output, entry.cached, entry.reasoning, CostOf(s, entry, o), SavingsOf(s, entry, o),
          None, entry.outcome, if entry.createdAt > 0 then entry.createdAt * 1000 else now, now))
  }

  /** The events a log of entries stands for, each under its position. */
  function EventsOf(c: Context, s: Session, now: nat, log: seq<Entry>, o: Outside): seq<Event> {
    if log == [] then []
    else
      var n := |log| - 1;
      EventsOf(c, s, now, log[..n], o)
      + if log[n].Skipped? then [] else [EventAt(c, s, now, log[n], n, o)]
  }

  // ---------------------------------------------------------------- guards

  datatype Owner = Owner(organization: Id, member: Id)

  /** The tables the scope guard reads. */
  datatype Tables = Tables(workspaces: map<string, Owner>, members: map<Id, Id>)

  /** The insertion guard: the workspace belongs to that member of that organization. */
  predicate InScope(t: Tables, row: Row) {
    && row.workspace in t.workspaces
    && t.workspaces[row.workspace] == Owner(row.organization, row.member)
    && row.member in t.members
    && t.members[row.member] == row.organization
  }

  predicate WellFormed(e: Event) {
    && e.id != "" && e.row.organization != 0 && e.row.member != 0 && e.row.workspace != ""
    && e.row.session != "" && e.row.provider != 0 && e.row.model != 0
    && e.row.input <= MAX_SAFE_INTEGER && e.row.output <= MAX_SAFE_INTEGER
    && e.row.cached <= MAX_SAFE_INTEGER && e.row.reasoning <= MAX_SAFE_INTEGER
    && e.row.cost <= MAX_SAFE_INTEGER && e.row.savings <= MAX_SAFE_INTEGER
    && e.row.occurredAt <= MAX_SAFE_INTEGER && e.row.receivedAt <= MAX_SAFE_INTEGER
    && (e.row.duration.Some? ==> e.row.duration.value <= MAX_SAFE_INTEGER)
  }

  predicate Recordable(t: Tables, e: Event) {
    WellFormed(e) && InScope(t, e.row)
  }

  /** Recording one new event stores its row as it is offered. It is refused exactly when a
      text it needs is empty, a figure is no safe integer, or the workspace does not belong to
      that member of that organization. */
  lemma RecordingLeaves(t: Tables, ledger: Ledger, e: Event)
    ensures e.id !in ledger ==> Recorded(ledger, e) == ledger[e.id := e.row]
    ensures Recordable(t, e)
            <==>
            && "" !in {e.id, e.row.workspace, e.row.session}
            && 0 !in {e.row.organization, e.row.member, e.row.provider, e.row.model}
            && Max(Max(Max(e.row.input, e.row.output), Max(e.row.cached, e.row.reasoning)),
                   Max(Max(e.row.cost, e.row.savings), Max(e.row.occurredAt, e.row.receivedAt)))
               < 9007199254740992
            && (e.row.duration.Some? ==> e.row.duration.value < 9007199254740992)
            && e.row.workspace in t.workspaces
            && t.workspaces[e.row.workspace].organization == e.row.organization
            && t.workspaces[e.row.workspace].member == e.row.member
            && e.row.member in t.members && t.members[e.row.member] == e.row.organization
  {
  }

  /** The entry ends the loop: its recording is refused. */
  predicate Stops(t: Tables, c: Context, s: Session, entry: Entry, index: nat, o: Outside) {
    entry.Usable? && !Recordable(t, EventAt(c, s, 0, entry, index, o))
  }

  /** How far the loop comes in a log. */
  function Reached(t: Tables, c: Context, s: Session, log: seq<Entry>, o: Outside): (n: nat)
    ensures n <= |log|
  {
    if log == [] then 0
    else
      var n := |log| - 1;
      var m := Reached(t, c, s, log[..n], o);
      if m < n || Stops(t, c, s, log[n], n, o) then m else n + 1
  }

  // --------------------------------------------------------------- database

  class Database {
    const tables: Tables
    var events: Ledger

    constructor (tables: Tables)
      ensures this.tables == tables && events == map[]
    {
      this.tables := tables;
      events := map[];
    }

    /** Records one event, or refuses it and leaves the ledger alone. The result tells
        whether anything was written. */
    method RecordUsageEvent(e: Event) returns (written: Result<bool, ()>)
      modifies this`events
      ensures written.Ok? <==> Recordable(tables, e)
      ensures written.Err? ==> events == old(events)
      ensures written.Ok? ==> events == Recorded(old(events), e)
      ensures written.Ok? ==> (written.value <==> events != old(events))
    {
      if !WellFormed(e) {
        return Err(());
      }
      if !InScope(tables, e.row) {
        return Err(());
      }
      if e.id !in events {
        events := events[e.id := e.row];
        return Ok(true);
      }
      WritesExactlyChanges(events[e.id], e.row);
      if !Writes(events[e.id], e.row) {
        assert events == Recorded(events, e);
        return Ok(false);
      }
      events := events[e.id := Merge(events[e.id], e.row)];
      assert events[e.id] != old(events)[e.id];
      return Ok(true);
    }

    /** Records the log of a chat entry by entry; the first refusal ends it. */
    method SyncChatUsage(c: Context, s: Session, now: nat, log: seq<Entry>, o: Outside) returns (completed: bool)
      requires now <= MAX_SAFE_INTEGER
      modifies this`events
      ensures events == Fold(old(events), EventsOf(c, s, now, log[..Reached(tables, c, s, log, o)], o))
      ensures events == FoldSyncs(old(events), tables, c, log, [Sync(s, now, |log|)], o)
      ensures completed <==> forall k | 0 <= k < |log| :: !Stops(tables, c, s, log[k], k, o)
    {
      OneSyncFolds(events, tables, c, s, now, log, o);
      hide Reached, EventsOf, Fold, Recorded, Recordable, EventAt, Stops;
      var index := 0;
      NothingReached(tables, c, s, now, log, o, events);
      ReachesTheEndUnlessStopped(tables, c, s, log, o);
      while index < |log|
        invariant index <= |log| && Reached(tables, c, s, log[..index], o) == index
        invariant events == Fold(old(events), EventsOf(c, s, now, log[..index], o))
      {
        OneMoreEntry(tables, c, s, now, log, index, o, old(events));
        if log[index].Usable? {
          var e := EventAt(c, s, now, log[index], index, o);
          RefusalIgnoresTheTime(tables, c, s, now, log[index], index, o);
          var written := RecordUsageEvent(e);
          if written.Err? {
            return false;
          }
        }
        index := index + 1;
      }
      assert log[..index] == log;
      completed := true;
    }
  }

  lemma RefusalIgnoresTheTime(t: Tables, c: Context, s: Session, now: nat, entry: Entry, index: nat, o: Outside)
    requires entry.Usable? && now <= MAX_SAFE_INTEGER
    ensures Stops(t, c, s, entry, index, o) <==> !Recordable(t, EventAt(c, s, now, entry, index, o))
  {
  }

  lemma {:induction false} ReachedOfBeginning(
    t: Tables, c: Context, s: Session, log: seq<Entry>, n: nat, o: Outside)
    requires n <= |log|
    ensures Reached(t, c, s, log[..n], o) == Min(n, Reached(t, c, s, log, o))
  {
    hide Stops;
    if n == |log| {
      assert log[..n] == log;
    } else {
      var front := log[..|log| - 1];
      ReachedOfBeginning(t, c, s, front, n, o);
      assert front[..n] == log[..n];
    }
  }

  lemma {:induction false} ReachesTheEndUnlessStopped(t: Tables, c: Context, s: Session, log: seq<Entry>, o: Outside)
    ensures Reached(t, c, s, log, o) == |log| <==> forall k | 0 <= k < |log| :: !Stops(t, c, s, log[k], k, o)
  {
    hide Stops;
    if log != [] {
      var n := |log| - 1;
      ReachesTheEndUnlessStopped(t, c, s, log[..n], o);
      assert forall k | 0 <= k < n :: log[..n][k] == log[k];
    }
  }

  /** The loop comes exactly to the first entry that is refused. */
  lemma {:induction false} ReachedIsFirstRefusal(t: Tables, c: Context, s: Session, log: seq<Entry>, o: Outside)
    ensures var n := Reached(t, c, s, log, o);
            && (forall k | 0 <= k < n :: !Stops(t, c, s, log[k], k, o))
            && (n < |log| ==> Stops(t, c, s, log[n], n, o))
  {
    hide Stops;
    if log != [] {
      ReachedIsFirstRefusal(t, c, s, log[..|log| - 1], o);
      assert forall k | 0 <= k < |log| - 1 :: log[..|log| - 1][k] == log[k];
    }
  }

  lemma NothingReached(
    t: Tables, c: Context, s: Session, now: nat, log: seq<Entry>, o: Outside, ledger: Ledger)
    ensures Reached(t, c, s, log[..0], o) == 0
    ensures Fold(ledger, EventsOf(c, s, now, log[..0], o)) == ledger
  {
  }

  /** What one more entry does to how far the loop comes and to what it records. */
  lemma OneMoreEntry(
    t: Tables, c: Context, s: Session, now: nat, log: seq<Entry>, index: nat, o: Outside, ledger: Ledger)
    requires index < |log| && Reached(t, c, s, log[..index], o) == index
    ensures Stops(t, c, s, log[index], index, o) ==> Reached(t, c, s, log, o) == index < |log|
    ensures !Stops(t, c, s, log[index], index, o) ==> Reached(t, c, s, log[..index + 1], o) == index + 1
    ensures log[index].Skipped? ==>
              && !Stops(t, c, s, log[index], index, o)
              && EventsOf(c, s, now, log[..index + 1], o) == EventsOf(c, s, now, log[..index], o)
    ensures log[index].Usable? ==>
              Fold(ledger, EventsOf(c, s, now, log[..index + 1], o))
              == Recorded(Fold(ledger, EventsOf(c, s, now, log[..index], o)),
                          EventAt(c, s, now, log[index], index, o))
  {
    hide Recorded, Recordable, EventAt;
    assert log[..index + 1][..index] == log[..index];
    ReachedOfBeginning(t, c, s, log, index + 1, o);
    var before := EventsOf(c, s, now, log[..index], o);
    assert before + [] == before;
    if log[index].Usable? {
      var e := EventAt(c, s, now, log[index], index, o);
      assert (before + [e])[..|before|] == before;
    }
  }

  // ------------------------------------------------------ what ends the loop

  /** What the readers of an entry guarantee: counts are safe integers, and an id that is
      given is not blank. */
  predicate Read(entry: Entry) {
    entry.Usable? ==>
      && entry.input <= MAX_SAFE_INTEGER && entry.output <= MAX_SAFE_INTEGER
      && entry.cached <= MAX_SAFE_INTEGER && entry.reasoning <= MAX_SAFE_INTEGER
      && (entry.eventId.Some? ==> entry.eventId.value != "")
  }

  /** The chat is named, and its workspace belongs to that member of that organization. */
  predicate Admitted(t: Tables, c: Context) {
    && c.organization != 0 && c.member != 0 && c.workspace != "" && c.chat != ""
    && c.workspace in t.workspaces && t.workspaces[c.workspace] == Owner(c.organization, c.member)
    && c.member in t.members && t.members[c.member] == c.organization
  }

  lemma LegacyIdIsNotBlank(k: LegacyKey, encode: string -> string)
    ensures LegacyId(k, encode) != ""
  {
    assert LegacyParts(k, encode)[0] != "";
  }

  /** A usable entry ends the loop exactly when the chat is not admitted, its creation time
      in milliseconds is no safe integer, or its cost or its saving is none. */
  lemma StopsExactly(t: Tables, c: Context, s: Session, entry: Entry, index: nat, o: Outside)
    requires entry.Usable? && Read(entry) && s.provider != 0 && s.model != 0
    ensures Stops(t, c, s, entry, index, o)
            <==>
            || !Admitted(t, c)
            || entry.createdAt * 1000 > MAX_SAFE_INTEGER
            || CostOf(s, entry, o) > MAX_SAFE_INTEGER
            || SavingsOf(s, entry, o) > MAX_SAFE_INTEGER
  {
    hide LegacyId;
    if entry.eventId.None? {
      LegacyIdIsNotBlank(
        LegacyKey(c.workspace, c.chat, entry.createdAt, entry.purpose, entry.messageCount, index), o.encode);
    }
  }

  /** An entry created too late for its time in milliseconds to be a safe integer. */
  predicate TooLate(entry: Entry) {
    entry.Usable? && entry.createdAt * 1000 > MAX_SAFE_INTEGER
  }

  /** Once a log holds an entry created too late, no synchronization of the log, however
      long it has grown and whatever the session, records that entry or any after it. */
  lemma NothingAfterTooLate(t: Tables, c: Context, s: Session, now: nat, log: seq<Entry>, k: nat, n: nat, o: Outside)
    requires k < |log| && n <= |log| && TooLate(log[k])
    ensures var reached := Reached(t, c, s, log[..n], o);
            && reached <= k
            && EventsOf(c, s, now, log[..n][..reached], o) <= EventsOf(c, s, now, log[..k], o)
  {
    var reached := Reached(t, c, s, log[..n], o);
    if n > k {
      ReachedOfBeginning(t, c, s, log[..n], k + 1, o);
      assert log[..n][..k + 1] == log[..k + 1];
      assert log[..k + 1][k] == log[k];
    }
    assert log[..n][..reached] == log[..k][..reached];
    EventsOfBeginning(c, s, now, log[..k], reached, o);
  }

  lemma {:induction false} EventsOfBeginning(c: Context, s: Session, now: nat, log: seq<Entry>, n: nat, o: Outside)
    requires n <= |log|
    ensures EventsOf(c, s, now, log[..n], o) <= EventsOf(c, s, now, log, o)
  {
    hide EventAt;
    if n == |log| {
      assert log[..n] == log;
    } else {
      var front := log[..|log| - 1];
      EventsOfBeginning(c, s, now, front, n, o);
      assert front[..n] == log[..n];
    }
  }

  // --------------------------------------------------- repeated synchronizations

  /** One synchronization: what it read of the chat, its time, and how long the log was. */
  datatype Sync = Sync(session: Session, now: nat, length: nat)

  predicate Within(syncs: seq<Sync>, log: seq<Entry>) {
    forall x | x in syncs :: x.length <= |log|
  }

  /** How much of the log a synchronization records. */
  function ReachOf(t: Tables, c: Context, log: seq<Entry>, x: Sync, o: Outside): (n: nat)
    requires x.length <= |log|
    ensures n <= |log|
  {
    Reached(t, c, x.session, log[..x.length], o)
  }

  /** The events a synchronization records. */
  function RunOf(t: Tables, c: Context, log: seq<Entry>, x: Sync, o: Outside): seq<Event>
    requires x.length <= |log|
  {
    EventsOf(c, x.session, x.now, log[..ReachOf(t, c, log, x, o)], o)
  }

  /** The events of all synchronizations, one after the other. */
  function Offered(t: Tables, c: Context, log: seq<Entry>, syncs: seq<Sync>, o: Outside): seq<Event>
    requires Within(syncs, log)
  {
    if syncs == [] then []
    else Offered(t, c, log, syncs[..|syncs| - 1], o) + RunOf(t, c, log, syncs[|syncs| - 1], o)
  }

  /** The ledger after all synchronizations. */
  function FoldSyncs(ledger: Ledger, t: Tables, c: Context, log: seq<Entry>, syncs: seq<Sync>, o: Outside): Ledger
    requires Within(syncs, log)
  {
    if syncs == [] then ledger
    else
      Fold(FoldSyncs(ledger, t, c, log, syncs[..|syncs| - 1], o), RunOf(t, c, log, syncs[|syncs| - 1], o))
  }

  lemma OneSyncFolds(
    ledger: Ledger, t: Tables, c: Context, s: Session, now: nat, log: seq<Entry>, o: Outside)
    ensures Within([Sync(s, now, |log|)], log)
    ensures FoldSyncs(ledger, t, c, log, [Sync(s, now, |log|)], o)
            == Fold(ledger, EventsOf(c, s, now, log[..Reached(t, c, s, log, o)], o))
  {
    hide Fold, EventsOf, Reached;
    assert log[..|log|] == log;
    assert [Sync(s, now, |log|)][..0] == [];
  }

  lemma {:induction false} SyncsRecordWhatTheyOffer(
    ledger: Ledger, t: Tables, c: Context, log: seq<Entry>, syncs: seq<Sync>, o: Outside)
    requires Within(syncs, log)
    ensures FoldSyncs(ledger, t, c, log, syncs, o) == Fold(ledger, Offered(t, c, log, syncs, o))
  {
    hide RunOf, Fold;
    if syncs == [] {
      FoldNothing(ledger);
    } else {
      var front, last := syncs[..|syncs| - 1], syncs[|syncs| - 1];
      SyncsRecordWhatTheyOffer(ledger, t, c, log, front, o);
      FoldConcat(ledger, Offered(t, c, log, front, o), RunOf(t, c, log, last, o));
    }
  }

  lemma FoldNothing(ledger: Ledger)
    ensures Fold(ledger, []) == ledger
  {
  }

  /** The first position of a log with a given id. */
  function FirstAt(c: Context, log: seq<Entry>, id: string, o: Outside): (p: Option<nat>)
    ensures p.Some? ==>
              && p.value < |log| && log[p.value].Usable?
              && EventIdOf(c, log[p.value], p.value, o) == id
  {
    if log == [] then None
    else
      var n := |log| - 1;
      var p := FirstAt(c, log[..n], id, o);
      if p.Some? then p
      else if log[n].Usable? && EventIdOf(c, log[n], n, o) == id then Some(n)
      else None
  }

  lemma {:induction false} FirstAtOfBeginning(c: Context, log: seq<Entry>, n: nat, id: string, o: Outside)
    requires n <= |log|
    ensures var p := FirstAt(c, log, id, o);
            FirstAt(c, log[..n], id, o) == if p.Some? && p.value < n then p else None
  {
    hide EventIdOf;
    if n == |log| {
      assert log[..n] == log;
    } else {
      var front := log[..|log| - 1];
      FirstAtOfBeginning(c, front, n, id, o);
      assert front[..n] == log[..n];
    }
  }

  /** The first recording of an id in one synchronization is that of its first position. */
  lemma {:induction false} FirstOfEvents(c: Context, s: Session, now: nat, log: seq<Entry>, id: string, o: Outside)
    ensures var p := FirstAt(c, log, id, o);
            First(EventsOf(c, s, now, log, o), id)
            == if p.Some? then Some(EventAt(c, s, now, log[p.value], p.value, o).row) else None
  {
    hide EventIdOf;
    if log != [] {
      var n := |log| - 1;
      FirstOfEvents(c, s, now, log[..n], id, o);
      var front := EventsOf(c, s, now, log[..n], o);
      assert front + [] == front;
      if log[n].Usable? {
        FirstAppend(front, EventAt(c, s, now, log[n], n, o), id);
      }
    }
  }

  /** The first synchronization that records a position. */
  function FirstSync(t: Tables, c: Context, log: seq<Entry>, syncs: seq<Sync>, p: nat, o: Outside): (j: Option<nat>)
    requires Within(syncs, log)
    ensures j.Some? ==> j.value < |syncs| && p < ReachOf(t, c, log, syncs[j.value], o)
    ensures forall i | 0 <= i < (if j.Some? then j.value else |syncs|) :: ReachOf(t, c, log, syncs[i], o) <= p
  {
    if syncs == [] then None
    else
      var n := |syncs| - 1;
      var j := FirstSync(t, c, log, syncs[..n], p, o);
      if j.Some? then j
      else if p < ReachOf(t, c, log, syncs[n], o) then Some(n)
      else None
  }

  /** The first recording of an id in a run of synchronizations: its first position, by the
      first synchronization that comes so far. */
  lemma {:induction false} FirstOffered(
    t: Tables, c: Context, log: seq<Entry>, syncs: seq<Sync>, id: string, o: Outside)
    requires Within(syncs, log)
    ensures var p := FirstAt(c, log, id, o);
            var first := First(Offered(t, c, log, syncs, o), id);
            if p.None? then first.None?
            else
              var j := FirstSync(t, c, log, syncs, p.value, o);
              if j.None? then first.None?
              else
                var x := syncs[j.value];
                first == Some(EventAt(c, x.session, x.now, log[p.value], p.value, o).row)
  {
    hide EventAt, FirstAt, ReachOf;
    if syncs != [] {
      var front, last := syncs[..|syncs| - 1], syncs[|syncs| - 1];
      FirstOffered(t, c, log, front, id, o);
      FirstConcat(Offered(t, c, log, front, o), RunOf(t, c, log, last, o), id);
      var n := ReachOf(t, c, log, last, o);
      FirstAtOfBeginning(c, log, n, id, o);
      FirstOfEvents(c, last.session, last.now, log[..n], id, o);
    }
  }

  /** Any number of synchronizations of one append-only log, early or late, with whatever
      sessions, on top of any ledger. An id that was stored keeps all but its name and a cost
      or saving of zero. Otherwise it is stored exactly when some synchronization records its
      first position; its counts, outcome, owner and creation time are those of that
      position, its provider, model and agent those of the first such synchronization, its
      cost and saving the first offered that are not zero, its name the last one given. */
  lemma RowsAfterSyncs(
    ledger: Ledger, t: Tables, c: Context, log: seq<Entry>, syncs: seq<Sync>, id: string, o: Outside)
    requires Within(syncs, log)
    ensures var stored, after := Lookup(ledger, id), Lookup(FoldSyncs(ledger, t, c, log, syncs, o), id);
            var offered, p := Offered(t, c, log, syncs, o), FirstAt(c, log, id, o);
            if stored.Some? then after == RowAfter(stored, offered, id)
            else if p.None? || FirstSync(t, c, log, syncs, p.value, o).None? then after.None?
            else
              var x := syncs[FirstSync(t, c, log, syncs, p.value, o).value];
              after == Some(EventAt(c, x.session, x.now, log[p.value], p.value, o).row.(
                              cost := FirstCost(offered, id),
                              savings := FirstSaving(offered, id),
                              name := LastName(offered, id)))
  {
    hide EventAt, FirstAt, FirstSync, Offered, FoldSyncs, Fold;
    SyncsRecordWhatTheyOffer(ledger, t, c, log, syncs, o);
    RowsInClosedForm(ledger, Offered(t, c, log, syncs, o), id);
    FirstOffered(t, c, log, syncs, id, o);
  }
}
