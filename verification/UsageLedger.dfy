/** The usage ledger: an upsert keyed by event id, and why replaying an append-only log
    into it is harmless. */
module UsageLedger {
  import opened Prelude

  datatype Outcome = Success | Error | Cancelled

  datatype Row = Row(
    organization: Id, member: Id, workspace: string, session: string, name: Option<string>,
    agent: Option<Id>, provider: Id, model: Id,
    input: nat, output: nat, cached: nat, reasoning: nat, cost: nat, savings: nat,
    duration: Option<nat>, outcome: Outcome, occurredAt: nat, receivedAt: nat)

  /** One recording: the values offered for an event id. */
  datatype Event = Event(id: string, row: Row)

  type Ledger = map<string, Row>

  function Lookup(ledger: Ledger, id: string): Option<Row> {
    if id in ledger then Some(ledger[id]) else None
  }

  /** The conflict clause of the upsert: a given name replaces the stored one, a cost or a
      saving only replaces zero, and nothing else changes. */
  function Merge(stored: Row, offered: Row): Row {
    stored.(
      name := if offered.name.Some? then offered.name else stored.name,
      cost := if stored.cost == 0 then offered.cost else stored.cost,
      savings := if stored.savings == 0 then offered.savings else stored.savings)
  }

  /** The condition under which the conflict clause writes at all. */
  predicate Writes(stored: Row, offered: Row) {
    || (offered.name.Some? && offered.name != stored.name)
    || (stored.cost == 0 && offered.cost > 0)
    || (stored.savings == 0 && offered.savings > 0)
  }

  /** The condition skips exactly the writes that would change nothing. */
  lemma WritesExactlyChanges(stored: Row, offered: Row)
    ensures Writes(stored, offered) <==> Merge(stored, offered) != stored
  {
  }

  function Recorded(ledger: Ledger, e: Event): Ledger {
    ledger[e.id := if e.id in ledger then Merge(ledger[e.id], e.row) else e.row]
  }

  /** Recording a log from its beginning to its end. */
  function Fold(ledger: Ledger, log: seq<Event>): Ledger {
    if log == [] then ledger
    else Recorded(Fold(ledger, log[..|log| - 1]), log[|log| - 1])
  }

  // ----------------------------------------------------------- one event id

  /** Two successive contributions to one id. */
  function Join(first: Option<Row>, second: Option<Row>): Option<Row> {
    if first.None? then second
    else if second.None? then first
    else Some(Merge(first.value, second.value))
  }

  /** What a log contributes to an id. */
  function Share(log: seq<Event>, id: string): Option<Row> {
    if log == [] then None
    else
      var last := log[|log| - 1];
      Join(Share(log[..|log| - 1], id), if last.id == id then Some(last.row) else None)
  }

  lemma JoinIsAssociative(a: Option<Row>, b: Option<Row>, c: Option<Row>)
    ensures Join(Join(a, b), c) == Join(a, Join(b, c))
  {
  }

  lemma {:induction false} ShareConcat(log: seq<Event>, more: seq<Event>, id: string)
    ensures Share(log + more, id) == Join(Share(log, id), Share(more, id))
  {
    if more == [] {
      assert log + more == log;
    } else {
      var front, last := more[..|more| - 1], more[|more| - 1];
      assert (log + more)[..|log + more| - 1] == log + front;
      ShareConcat(log, front, id);
      JoinIsAssociative(Share(log, id), Share(front, id), if last.id == id then Some(last.row) else None);
    }
  }

  /** Recording a log joins its contribution to each row. */
  lemma {:induction false} FoldAt(ledger: Ledger, log: seq<Event>, id: string)
    ensures Lookup(Fold(ledger, log), id) == Join(Lookup(ledger, id), Share(log, id))
  {
    if log != [] {
      var front, last := log[..|log| - 1], log[|log| - 1];
      FoldAt(ledger, front, id);
      JoinIsAssociative(Lookup(ledger, id), Share(front, id), if last.id == id then Some(last.row) else None);
    }
  }

  lemma SameRows(a: Ledger, b: Ledger)
    requires forall id: string :: Lookup(a, id) == Lookup(b, id)
    ensures a == b
  {
    forall id: string ensures id in a <==> id in b {
      assert Lookup(a, id) == Lookup(b, id);
    }
    forall id | id in a ensures a[id] == b[id] {
      assert Lookup(a, id) == Lookup(b, id);
    }
  }

  /** Recording a log from a ledger that already holds the log's beginning, and possibly
      more that came before, gives the same ledger as recording the log once. */
  lemma ReplayGivesTheSameLedger(ledger: Ledger, log: seq<Event>, n: nat)
    requires n <= |log|
    ensures Fold(Fold(ledger, log[..n]), log) == Fold(ledger, log)
  {
    forall id: string
      ensures Lookup(Fold(Fold(ledger, log[..n]), log), id) == Lookup(Fold(ledger, log), id)
    {
      var prefix, rest := Share(log[..n], id), Share(log[n..], id);
      assert log == log[..n] + log[n..];
      ShareConcat(log[..n], log[n..], id);
      FoldAt(ledger, log[..n], id);
      FoldAt(Fold(ledger, log[..n]), log, id);
      FoldAt(ledger, log, id);
      assert Join(Join(Lookup(ledger, id), prefix), Join(prefix, rest)) == Join(Lookup(ledger, id), Join(prefix, rest));
    }
    SameRows(Fold(Fold(ledger, log[..n]), log), Fold(ledger, log));
  }

  // -------------------------------------------------------------- closed form

  /** The first recording of an id. */
  function First(log: seq<Event>, id: string): Option<Row> {
    if log == [] then None
    else if log[0].id == id then Some(log[0].row)
    else First(log[1..], id)
  }

  /** The first cost of an id that is not zero, or zero. */
  function FirstCost(log: seq<Event>, id: string): nat {
    if log == [] then 0
    else if log[0].id == id && log[0].row.cost > 0 then log[0].row.cost
    else FirstCost(log[1..], id)
  }

  /** The first saving of an id that is not zero, or zero. */
  function FirstSaving(log: seq<Event>, id: string): nat {
    if log == [] then 0
    else if log[0].id == id && log[0].row.savings > 0 then log[0].row.savings
    else FirstSaving(log[1..], id)
  }

  /** The last name given for an id. */
  function LastName(log: seq<Event>, id: string): Option<string> {
    if log == [] then None
    else
      var last := log[|log| - 1];
      if last.id == id && last.row.name.Some? then last.row.name
      else LastName(log[..|log| - 1], id)
  }

  lemma {:induction false} FirstAppend(log: seq<Event>, e: Event, id: string)
    ensures First(log + [e], id)
            == if First(log, id).Some? then First(log, id) else if e.id == id then Some(e.row) else None
    ensures FirstCost(log + [e], id)
            == if FirstCost(log, id) > 0 then FirstCost(log, id) else if e.id == id then e.row.cost else 0
    ensures FirstSaving(log + [e], id)
            == if FirstSaving(log, id) > 0 then FirstSaving(log, id) else if e.id == id then e.row.savings else 0
  {
    if log == [] {
      assert log + [e] == [e];
    } else {
      assert (log + [e])[1..] == log[1..] + [e];
      FirstAppend(log[1..], e, id);
    }
  }

  lemma {:induction false} NothingOfAnAbsentId(log: seq<Event>, id: string)
    requires First(log, id).None?
    ensures FirstCost(log, id) == 0 && FirstSaving(log, id) == 0
  {
    if log != [] {
      NothingOfAnAbsentId(log[1..], id);
    }
  }

  /** What is stored under an id after a log was recorded on top of what was stored before:
      the first recording's values, the first cost and saving that are not zero, the last
      name given. */
  function RowAfter(stored: Option<Row>, log: seq<Event>, id: string): Option<Row> {
    var base := if stored.Some? then stored else First(log, id);
    if base.None? then None
    else
      Some(base.value.(
             cost := if stored.Some? && stored.value.cost > 0 then stored.value.cost else FirstCost(log, id),
             savings := if stored.Some? && stored.value.savings > 0 then stored.value.savings
                        else FirstSaving(log, id),
             name := if stored.Some? && LastName(log, id).None? then stored.value.name else LastName(log, id)))
  }

  /** Recording a log event by event comes to the closed form, for every row. */
  lemma {:induction false} RowsInClosedForm(ledger: Ledger, log: seq<Event>, id: string)
    ensures Lookup(Fold(ledger, log), id) == RowAfter(Lookup(ledger, id), log, id)
    ensures First(log, id).None? ==> LastName(log, id).None?
  {
    if log != [] {
      var front, last := log[..|log| - 1], log[|log| - 1];
      assert log == front + [last];
      RowsInClosedForm(ledger, front, id);
      FirstAppend(front, last, id);
      if First(front, id).None? {
        NothingOfAnAbsentId(front, id);
      }
    }
  }

  lemma {:induction false} FirstConcat(log: seq<Event>, more: seq<Event>, id: string)
    ensures First(log + more, id) == if First(log, id).Some? then First(log, id) else First(more, id)
  {
    if log == [] {
      assert log + more == more;
    } else {
      assert (log + more)[1..] == log[1..] + more;
      FirstConcat(log[1..], more, id);
    }
  }

  /** Recording two logs one after the other is recording them joined. */
  lemma {:induction false} FoldConcat(ledger: Ledger, log: seq<Event>, more: seq<Event>)
    ensures Fold(ledger, log + more) == Fold(Fold(ledger, log), more)
  {
    if more == [] {
      assert log + more == log;
    } else {
      assert (log + more)[..|log + more| - 1] == log + more[..|more| - 1];
      FoldConcat(ledger, log, more[..|more| - 1]);
    }
  }
}
