/** What repeated synchronizations of one append-only log come to: which columns depend on
    how often and how late it was read, on whom, and when the last reading alone would do. */
module UsageReplays {
  import opened Prelude
  import opened UsageLedger
  import opened UsageSync

  // --------------------------------------------------- columns that settle

  /** The columns a synchronization takes from the log and from the chat's owner. */
  predicate SameFigures(a: Row, b: Row) {
    && a.organization == b.organization && a.member == b.member
    && a.workspace == b.workspace && a.session == b.session
    && a.input == b.input && a.output == b.output && a.cached == b.cached && a.reasoning == b.reasoning
    && a.duration == b.duration && a.outcome == b.outcome
  }

  /** How far the synchronizations come together. */
  function Furthest(t: Tables, c: Context, log: seq<Entry>, syncs: seq<Sync>, o: Outside): (n: nat)
    requires Within(syncs, log)
    ensures n <= |log|
  {
    if syncs == [] then 0
    else Max(Furthest(t, c, log, syncs[..|syncs| - 1], o), ReachOf(t, c, log, syncs[|syncs| - 1], o))
  }

  lemma {:induction false} RecordedIsWithinFurthest(
    t: Tables, c: Context, log: seq<Entry>, syncs: seq<Sync>, p: nat, o: Outside)
    requires Within(syncs, log)
    ensures FirstSync(t, c, log, syncs, p, o).Some? <==> p < Furthest(t, c, log, syncs, o)
  {
    hide ReachOf;
    if syncs != [] {
      RecordedIsWithinFurthest(t, c, log, syncs[..|syncs| - 1], p, o);
    }
  }

  /** The time of an id's row does not depend on when it was recorded: it was stored before,
      or its first entry has a creation time. */
  predicate Dated(ledger: Ledger, c: Context, log: seq<Entry>, id: string, o: Outside) {
    id in ledger || (var p := FirstAt(c, log, id, o); p.Some? && log[p.value].createdAt > 0)
  }

  /** Two histories of synchronizing one log that come equally far store the same ids, with
      the same owner, counts and outcome, and the same time for entries that have one: none
      of these depends on how often, how late or with what sessions the log was read. */
  lemma FiguresSettle(
    ledger: Ledger, t: Tables, c: Context, log: seq<Entry>, a: seq<Sync>, b: seq<Sync>, id: string, o: Outside)
    requires Within(a, log) && Within(b, log)
    requires Furthest(t, c, log, a, o) == Furthest(t, c, log, b, o)
    ensures var x := Lookup(FoldSyncs(ledger, t, c, log, a, o), id);
            var y := Lookup(FoldSyncs(ledger, t, c, log, b, o), id);
            && (x.Some? <==> y.Some?)
            && (x.Some? ==> SameFigures(x.value, y.value))
            && (x.Some? && Dated(ledger, c, log, id, o) ==> x.value.occurredAt == y.value.occurredAt)
  {
    hide FoldSyncs, Offered, FirstAt, FirstSync, FirstCost, FirstSaving, LastName, EventIdOf;
    RowsAfterSyncs(ledger, t, c, log, a, id, o);
    RowsAfterSyncs(ledger, t, c, log, b, id, o);
    var p := FirstAt(c, log, id, o);
    if p.Some? {
      RecordedIsWithinFurthest(t, c, log, a, p.value, o);
      RecordedIsWithinFurthest(t, c, log, b, p.value, o);
    }
  }

  // -------------------------------------------------------- column by column

  /** The name given last by a synchronization that records a position. */
  function LatestName(t: Tables, c: Context, log: seq<Entry>, syncs: seq<Sync>, p: nat, o: Outside): Option<string>
    requires Within(syncs, log)
  {
    if syncs == [] then None
    else
      var last := syncs[|syncs| - 1];
      if p < ReachOf(t, c, log, last, o) && last.session.name.Some? then last.session.name
      else LatestName(t, c, log, syncs[..|syncs| - 1], p, o)
  }

  lemma {:induction false} LastNameConcat(log: seq<Event>, more: seq<Event>, id: string)
    ensures LastName(log + more, id) == if LastName(more, id).Some? then LastName(more, id) else LastName(log, id)
  {
    if more == [] {
      assert log + more == log;
    } else {
      assert (log + more)[..|log + more| - 1] == log + more[..|more| - 1];
      LastNameConcat(log, more[..|more| - 1], id);
    }
  }

  /** All events of one synchronization carry its name. */
  lemma {:induction false} NameOfEvents(c: Context, s: Session, now: nat, log: seq<Entry>, id: string, o: Outside)
    ensures LastName(EventsOf(c, s, now, log, o), id) == if FirstAt(c, log, id, o).Some? then s.name else None
  {
    hide EventIdOf;
    if log != [] {
      var n := |log| - 1;
      NameOfEvents(c, s, now, log[..n], id, o);
      var front := EventsOf(c, s, now, log[..n], o);
      assert front + [] == front;
      if log[n].Usable? {
        LastNameConcat(front, [EventAt(c, s, now, log[n], n, o)], id);
        assert [EventAt(c, s, now, log[n], n, o)][..0] == [];
      }
    }
  }

  lemma {:induction false} LastNameIsLatest(
    t: Tables, c: Context, log: seq<Entry>, syncs: seq<Sync>, id: string, o: Outside)
    requires Within(syncs, log) && FirstAt(c, log, id, o).Some?
    ensures LastName(Offered(t, c, log, syncs, o), id)
            == LatestName(t, c, log, syncs, FirstAt(c, log, id, o).value, o)
  {
    hide ReachOf, FirstAt, LastName;
    if syncs == [] {
      assert LastName([], id) == None by { NoName(id); }
    } else {
      var front, last := syncs[..|syncs| - 1], syncs[|syncs| - 1];
      LastNameIsLatest(t, c, log, front, id, o);
      LastNameConcat(Offered(t, c, log, front, o), RunOf(t, c, log, last, o), id);
      var n := ReachOf(t, c, log, last, o);
      FirstAtOfBeginning(c, log, n, id, o);
      NameOfEvents(c, last.session, last.now, log[..n], id, o);
    }
  }

  lemma NoName(id: string)
    ensures LastName([], id) == None
  {
  }

  /** A position is the first of a log recorded under an id. */
  predicate FirstUnder(c: Context, log: seq<Entry>, p: nat, id: string, o: Outside) {
    && p < |log| && log[p].Usable? && EventIdOf(c, log[p], p, o) == id
    && forall q | 0 <= q < p && log[q].Usable? :: EventIdOf(c, log[q], q, o) != id
  }

  lemma {:induction false} FirstAtIsFirst(c: Context, log: seq<Entry>, p: nat, id: string, o: Outside)
    requires FirstUnder(c, log, p, id, o)
    ensures FirstAt(c, log, id, o) == Some(p)
  {
    hide EventIdOf;
    var n := |log| - 1;
    if p < n {
      FirstAtIsFirst(c, log[..n], p, id, o);
    } else {
      NotBefore(c, log[..n], id, o);
    }
  }

  lemma {:induction false} NotBefore(c: Context, log: seq<Entry>, id: string, o: Outside)
    requires forall q | 0 <= q < |log| && log[q].Usable? :: EventIdOf(c, log[q], q, o) != id
    ensures FirstAt(c, log, id, o) == None
  {
    hide EventIdOf;
    if log != [] {
      NotBefore(c, log[..|log| - 1], id, o);
    }
  }

  /** The first synchronization to record a position. */
  predicate FirstToRecord(t: Tables, c: Context, log: seq<Entry>, syncs: seq<Sync>, p: nat, j: nat, o: Outside)
    requires Within(syncs, log)
  {
    && j < |syncs| && p < ReachOf(t, c, log, syncs[j], o)
    && forall i | 0 <= i < j :: ReachOf(t, c, log, syncs[i], o) <= p
  }

  /** The columns of a new row after any synchronizations, one by one: owner and session of the
      chat; counts and outcome of its first position in the log; agent, provider and model of
      the synchronization that recorded it first, and its cost and saving when they are not
      zero, reported by the runtime or else estimated for that provider and model; the
      entry's creation time, or else the time of that synchronization; the latest name. */
  lemma ColumnsAfterSyncs(
    ledger: Ledger, t: Tables, c: Context, log: seq<Entry>, syncs: seq<Sync>, id: string, p: nat, j: nat, o: Outside)
    requires Within(syncs, log) && id !in ledger
    requires FirstUnder(c, log, p, id, o) && FirstToRecord(t, c, log, syncs, p, j, o)
    ensures var after := FoldSyncs(ledger, t, c, log, syncs, o);
            && id in after
            && var row, entry, x := after[id], log[p], syncs[j];
               && row.organization == c.organization && row.member == c.member
               && row.workspace == c.workspace && row.session == c.chat
               && row.input == entry.input && row.output == entry.output
               && row.cached == entry.cached && row.reasoning == entry.reasoning
               && row.outcome == entry.outcome && row.duration.None?
               && row.agent == x.session.agent && row.provider == x.session.provider && row.model == x.session.model
               && row.occurredAt == (if entry.createdAt > 0 then entry.createdAt * 1000 else x.now)
               && row.receivedAt == x.now
               && row.name == LatestName(t, c, log, syncs, p, o)
               && var estimate := o.estimate(
                    x.session.provider, x.session.model, entry.input, entry.output, entry.cached);
                  var cost := if entry.cost.Some? then entry.cost.value else estimate.cost;
                  var saving := if entry.savings.Some? then entry.savings.value else estimate.savings;
                  && (cost > 0 ==> row.cost == cost)
                  && (saving > 0 ==> row.savings == saving)
  {
    hide FoldSyncs, Offered, FirstAt, FirstCost, FirstSaving, LastName, EventIdOf, ReachOf;
    FirstAtIsFirst(c, log, p, id, o);
    RowsAfterSyncs(ledger, t, c, log, syncs, id, o);
    assert FirstSync(t, c, log, syncs, p, o) == Some(j);
    LastNameIsLatest(t, c, log, syncs, id, o);
    FirstOffered(t, c, log, syncs, id, o);
    FirstOfferIsKept(Offered(t, c, log, syncs, o), id);
  }

  /** A row that was stored keeps every column but its name, and a cost or saving of zero. */
  lemma StoredColumnsStay(
    ledger: Ledger, t: Tables, c: Context, log: seq<Entry>, syncs: seq<Sync>, id: string, o: Outside)
    requires Within(syncs, log) && id in ledger
    ensures var after := FoldSyncs(ledger, t, c, log, syncs, o);
            && id in after
            && var row, stored := after[id], ledger[id];
               && SameFigures(row, stored)
               && row.agent == stored.agent && row.provider == stored.provider && row.model == stored.model
               && row.occurredAt == stored.occurredAt && row.receivedAt == stored.receivedAt
               && (stored.cost > 0 ==> row.cost == stored.cost)
               && (stored.savings > 0 ==> row.savings == stored.savings)
  {
    hide FoldSyncs, Offered, FirstAt, FirstSync, FirstCost, FirstSaving, LastName;
    RowsAfterSyncs(ledger, t, c, log, syncs, id, o);
  }

  /** A cost or saving of the first recording that is not zero is the first such one. */
  lemma {:induction false} FirstOfferIsKept(log: seq<Event>, id: string)
    ensures First(log, id).Some? ==>
              && (First(log, id).value.cost > 0 ==> FirstCost(log, id) == First(log, id).value.cost)
              && (First(log, id).value.savings > 0 ==> FirstSaving(log, id) == First(log, id).value.savings)
  {
    if log != [] && log[0].id != id {
      FirstOfferIsKept(log[1..], id);
    }
  }

  // --------------------------------------------- the furthest reading alone

  /** Two rows alike apart from their names and times. */
  predicate Alike(a: Option<Row>, b: Option<Row>) {
    && (a.Some? <==> b.Some?)
    && (a.Some? ==>
          && SameFigures(a.value, b.value)
          && a.value.agent == b.value.agent && a.value.provider == b.value.provider && a.value.model == b.value.model
          && a.value.cost == b.value.cost && a.value.savings == b.value.savings)
  }

  ghost predicate LedgersAlike(a: Ledger, b: Ledger) {
    forall id: string :: Alike(Lookup(a, id), Lookup(b, id))
  }

  predicate SameModel(a: Session, b: Session) {
    a.agent == b.agent && a.provider == b.provider && a.model == b.model
  }

  /** For one id: whoever recorded it first had the agent, provider and model of the furthest
      reading, and a cost or saving still open is first offered as that reading offers it. */
  predicate FurthestDecides(
    ledger: Ledger, t: Tables, c: Context, log: seq<Entry>, syncs: seq<Sync>, f: nat, id: string, o: Outside)
    requires Within(syncs, log) && f < |syncs|
  {
    var stored, p := Lookup(ledger, id), FirstAt(c, log, id, o);
    var offered, alone := Offered(t, c, log, syncs, o), RunOf(t, c, log, syncs[f], o);
    && (stored.None? && p.Some? ==>
          var j := FirstSync(t, c, log, syncs, p.value, o);
          j.Some? ==> SameModel(syncs[j.value].session, syncs[f].session))
    && (stored.None? || stored.value.cost == 0 ==> FirstCost(offered, id) == FirstCost(alone, id))
    && (stored.None? || stored.value.savings == 0 ==> FirstSaving(offered, id) == FirstSaving(alone, id))
  }

  lemma OneSync(ledger: Ledger, t: Tables, c: Context, log: seq<Entry>, x: Sync, p: nat, o: Outside)
    requires x.length <= |log|
    ensures Within([x], log)
    ensures FoldSyncs(ledger, t, c, log, [x], o) == Fold(ledger, RunOf(t, c, log, x, o))
    ensures Offered(t, c, log, [x], o) == RunOf(t, c, log, x, o)
    ensures FirstSync(t, c, log, [x], p, o) == if p < ReachOf(t, c, log, x, o) then Some(0) else None
  {
    hide RunOf, ReachOf, Fold;
    assert [x][..0] == [];
  }

  lemma {:induction false} FurthestIs(t: Tables, c: Context, log: seq<Entry>, syncs: seq<Sync>, f: nat, o: Outside)
    requires Within(syncs, log) && f < |syncs|
    requires forall i | 0 <= i < |syncs| :: ReachOf(t, c, log, syncs[i], o) <= ReachOf(t, c, log, syncs[f], o)
    ensures Furthest(t, c, log, syncs, o) == ReachOf(t, c, log, syncs[f], o)
  {
    var n := ReachOf(t, c, log, syncs[f], o);
    RecordedIsWithinFurthest(t, c, log, syncs, n, o);
    if n > 0 {
      RecordedIsWithinFurthest(t, c, log, syncs, n - 1, o);
    }
  }

  /** One row after all synchronizations is, apart from name and times, what the furthest
      synchronization alone leaves, if and only if that reading decides it. */
  lemma RowIsFurthestAloneExactly(
    ledger: Ledger, t: Tables, c: Context, log: seq<Entry>, syncs: seq<Sync>, f: nat, id: string, o: Outside)
    requires Within(syncs, log) && f < |syncs|
    requires forall i | 0 <= i < |syncs| :: ReachOf(t, c, log, syncs[i], o) <= ReachOf(t, c, log, syncs[f], o)
    ensures Alike(Lookup(FoldSyncs(ledger, t, c, log, syncs, o), id),
                  Lookup(Fold(ledger, RunOf(t, c, log, syncs[f], o)), id))
            <==> FurthestDecides(ledger, t, c, log, syncs, f, id, o)
  {
    hide FoldSyncs, Offered, RunOf, Fold, FirstAt, FirstSync, FirstCost, FirstSaving, LastName, EventIdOf, ReachOf;
    var x := syncs[f];
    var p := FirstAt(c, log, id, o);
    OneSync(ledger, t, c, log, x, if p.Some? then p.value else 0, o);
    FurthestIs(t, c, log, syncs, f, o);
    RowsAfterSyncs(ledger, t, c, log, syncs, id, o);
    RowsAfterSyncs(ledger, t, c, log, [x], id, o);
    if p.Some? {
      RecordedIsWithinFurthest(t, c, log, syncs, p.value, o);
    }
    if Lookup(ledger, id).None? && (p.None? || ReachOf(t, c, log, x, o) <= p.value) {
      FirstOffered(t, c, log, syncs, id, o);
      FirstOffered(t, c, log, [x], id, o);
      NothingOfAnAbsentId(Offered(t, c, log, syncs, o), id);
      NothingOfAnAbsentId(RunOf(t, c, log, x, o), id);
    }
  }

  /** The ledger after all synchronizations is, apart from names and times, what the furthest
      of them alone leaves, if and only if that reading decides every row. */
  lemma FurthestAloneExactly(
    ledger: Ledger, t: Tables, c: Context, log: seq<Entry>, syncs: seq<Sync>, f: nat, o: Outside)
    requires Within(syncs, log) && f < |syncs|
    requires forall i | 0 <= i < |syncs| :: ReachOf(t, c, log, syncs[i], o) <= ReachOf(t, c, log, syncs[f], o)
    ensures LedgersAlike(FoldSyncs(ledger, t, c, log, syncs, o), Fold(ledger, RunOf(t, c, log, syncs[f], o)))
            <==> (forall id: string :: FurthestDecides(ledger, t, c, log, syncs, f, id, o))
  {
    hide Alike, FurthestDecides, FoldSyncs, Fold, RunOf, ReachOf;
    var all, alone := FoldSyncs(ledger, t, c, log, syncs, o), Fold(ledger, RunOf(t, c, log, syncs[f], o));
    if LedgersAlike(all, alone) {
      forall id: string ensures FurthestDecides(ledger, t, c, log, syncs, f, id, o) {
        assert Alike(Lookup(all, id), Lookup(alone, id));
        RowIsFurthestAloneExactly(ledger, t, c, log, syncs, f, id, o);
      }
    }
    if forall id: string :: FurthestDecides(ledger, t, c, log, syncs, f, id, o) {
      forall id: string ensures Alike(Lookup(all, id), Lookup(alone, id)) {
        assert FurthestDecides(ledger, t, c, log, syncs, f, id, o);
        RowIsFurthestAloneExactly(ledger, t, c, log, syncs, f, id, o);
      }
    }
  }

  // ------------------------------------------------------ one model throughout

  lemma {:induction false} CostsConcat(log: seq<Event>, more: seq<Event>, id: string)
    ensures FirstCost(log + more, id) == if FirstCost(log, id) > 0 then FirstCost(log, id) else FirstCost(more, id)
    ensures FirstSaving(log + more, id)
            == if FirstSaving(log, id) > 0 then FirstSaving(log, id) else FirstSaving(more, id)
  {
    if log == [] {
      assert log + more == more;
    } else {
      assert (log + more)[1..] == log[1..] + more;
      CostsConcat(log[1..], more, id);
    }
  }

  /** What a log offers depends on the session only through provider, model and agent. */
  lemma {:induction false} OffersOfOneModel(
    c: Context, r: Session, s: Session, now: nat, later: nat, log: seq<Entry>, id: string, o: Outside)
    requires SameModel(r, s)
    ensures FirstCost(EventsOf(c, r, now, log, o), id) == FirstCost(EventsOf(c, s, later, log, o), id)
    ensures FirstSaving(EventsOf(c, r, now, log, o), id) == FirstSaving(EventsOf(c, s, later, log, o), id)
  {
    hide EventIdOf;
    if log != [] {
      var n := |log| - 1;
      OffersOfOneModel(c, r, s, now, later, log[..n], id, o);
      var a, b := EventsOf(c, r, now, log[..n], o), EventsOf(c, s, later, log[..n], o);
      assert a + [] == a && b + [] == b;
      if log[n].Usable? {
        FirstAppend(a, EventAt(c, r, now, log[n], n, o), id);
        FirstAppend(b, EventAt(c, s, later, log[n], n, o), id);
      }
    }
  }

  /** The first offer in the beginning of a log is that of the log, or there is none. */
  lemma OffersOfBeginning(c: Context, s: Session, now: nat, log: seq<Entry>, m: nat, n: nat, id: string, o: Outside)
    requires m <= n <= |log|
    ensures var part, whole := EventsOf(c, s, now, log[..m], o), EventsOf(c, s, now, log[..n], o);
            && FirstCost(part, id) in {0, FirstCost(whole, id)}
            && FirstSaving(part, id) in {0, FirstSaving(whole, id)}
  {
    var part, whole := EventsOf(c, s, now, log[..m], o), EventsOf(c, s, now, log[..n], o);
    assert log[..n][..m] == log[..m];
    EventsOfBeginning(c, s, now, log[..n], m, o);
    assert whole == part + whole[|part|..];
    CostsConcat(part, whole[|part|..], id);
  }

  lemma {:induction false} OffersOfOneModelSettle(
    t: Tables, c: Context, log: seq<Entry>, syncs: seq<Sync>, s: Session, id: string, o: Outside)
    requires Within(syncs, log) && forall x | x in syncs :: SameModel(x.session, s)
    ensures var offered, whole := Offered(t, c, log, syncs, o),
                                  EventsOf(c, s, 0, log[..Furthest(t, c, log, syncs, o)], o);
            FirstCost(offered, id) == FirstCost(whole, id) && FirstSaving(offered, id) == FirstSaving(whole, id)
  {
    hide FirstCost, FirstSaving, ReachOf, SameModel;
    if syncs == [] {
      assert log[..0] == [];
    } else {
      var front, last := syncs[..|syncs| - 1], syncs[|syncs| - 1];
      OffersOfOneModelSettle(t, c, log, front, s, id, o);
      CostsConcat(Offered(t, c, log, front, o), RunOf(t, c, log, last, o), id);
      var m, n := Furthest(t, c, log, front, o), ReachOf(t, c, log, last, o);
      OffersOfOneModel(c, last.session, s, last.now, 0, log[..n], id, o);
      if m <= n {
        OffersOfBeginning(c, s, 0, log, m, n, id, o);
      } else {
        OffersOfBeginning(c, s, 0, log, n, m, id, o);
      }
    }
  }

  /** While provider, model and agent stay the same, any number of synchronizations, late or
      early, leave apart from names and times what the furthest of them alone leaves. */
  lemma OneModelSettles(
    ledger: Ledger, t: Tables, c: Context, log: seq<Entry>, syncs: seq<Sync>, f: nat, o: Outside)
    requires Within(syncs, log) && f < |syncs|
    requires forall i | 0 <= i < |syncs| :: ReachOf(t, c, log, syncs[i], o) <= ReachOf(t, c, log, syncs[f], o)
    requires forall x | x in syncs :: SameModel(x.session, syncs[f].session)
    ensures LedgersAlike(FoldSyncs(ledger, t, c, log, syncs, o), Fold(ledger, RunOf(t, c, log, syncs[f], o)))
  {
    hide FoldSyncs, Fold, Offered, LedgersAlike, FirstCost, FirstSaving, ReachOf, SameModel;
    var x := syncs[f];
    FurthestAloneExactly(ledger, t, c, log, syncs, f, o);
    FurthestIs(t, c, log, syncs, f, o);
    forall id: string ensures FurthestDecides(ledger, t, c, log, syncs, f, id, o) {
      OffersOfOneModelSettle(t, c, log, syncs, x.session, id, o);
      OffersOfOneModel(c, x.session, x.session, x.now, 0, log[..ReachOf(t, c, log, x, o)], id, o) by {
        assert SameModel(x.session, x.session) by { assert x in syncs; }
      }
    }
  }

  // ------------------------------------------------------- the model switched

  /** A log of one entry, read once under each of two models: the ledger keeps the first,
      and the later reading alone would have left the second. */
  lemma SwitchingModelsKeepsTheFirst(o: Outside)
    ensures var t := Tables(map["w" := Owner(1, 2)], map[2 := 1]);
            var c := Context(1, 2, "w", "chat");
            var log := [Usable(Some("e"), 1, "", 0, 5, 7, 0, 0, Some(3), Some(0), Success)];
            var early, late := Sync(Session(None, None, 4, 8), 9, 1), Sync(Session(None, None, 4, 9), 10, 1);
            var both, alone := FoldSyncs(map[], t, c, log, [early, late], o), Fold(map[], RunOf(t, c, log, late, o));
            && Within([early, late], log)
            && "e" in both && both["e"].model == 8
            && "e" in alone && alone["e"].model == 9
            && !LedgersAlike(both, alone)
  {
    var t := Tables(map["w" := Owner(1, 2)], map[2 := 1]);
    var c := Context(1, 2, "w", "chat");
    var log := [Usable(Some("e"), 1, "", 0, 5, 7, 0, 0, Some(3), Some(0), Success)];
    var early, late := Sync(Session(None, None, 4, 8), 9, 1), Sync(Session(None, None, 4, 9), 10, 1);
    ReadsOneEntry(t, c, log, early, o);
    ReadsOneEntry(t, c, log, late, o);
    RowsAfterSyncs(map[], t, c, log, [early, late], "e", o);
    RowsAfterSyncs(map[], t, c, log, [late], "e", o);
    OneSync(map[], t, c, log, late, 0, o);
    var both, alone := FoldSyncs(map[], t, c, log, [early, late], o), Fold(map[], RunOf(t, c, log, late, o));
    assert FirstSync(t, c, log, [early, late], 0, o) == Some(0);
    assert !Alike(Lookup(both, "e"), Lookup(alone, "e"));
  }

  lemma ReadsOneEntry(t: Tables, c: Context, log: seq<Entry>, x: Sync, o: Outside)
    requires |log| == 1 == x.length && !Stops(t, c, x.session, log[0], 0, o)
    ensures ReachOf(t, c, log, x, o) == 1
    ensures log[0].Usable? && log[0].eventId.Some? ==> FirstAt(c, log, log[0].eventId.value, o) == Some(0)
  {
    hide Stops;
    assert log[..1] == log;
    assert log[..0] == [];
  }
}
