/** Usage summaries: totals over the ledger, regrouped without loss, and why an
    organization's totals are those of its members. */
module UsageSummaries {
  import opened Prelude
  import opened MapSums
  import opened UsageLedger
  import opened UsageSync

  // ------------------------------------------------------------------ totals

  datatype UsageTotals = UsageTotals(
    modelTurns: int, inputTokens: int, outputTokens: int, cachedTokens: int, reasoningTokens: int,
    totalTokens: int, cost: int, savings: int)

  /** The figures of a summary. */
  datatype Metric =
    | ModelTurns | InputTokens | OutputTokens | CachedTokens | ReasoningTokens | TotalTokens | Cost | Savings

  function Figure(t: UsageTotals, metric: Metric): int {
    match metric
    case ModelTurns => t.modelTurns
    case InputTokens => t.inputTokens
    case OutputTokens => t.outputTokens
    case CachedTokens => t.cachedTokens
    case ReasoningTokens => t.reasoningTokens
    case TotalTokens => t.totalTokens
    case Cost => t.cost
    case Savings => t.savings
  }

  /** What one row adds to a figure. */
  function Amount(metric: Metric): (string, Row) -> int {
    (id: string, row: Row) =>
      match metric
      case ModelTurns => 1
      case InputTokens => row.input
      case OutputTokens => row.output
      case CachedTokens => row.cached
      case ReasoningTokens => row.reasoning
      case TotalTokens => row.input + row.output
      case Cost => row.cost
      case Savings => row.savings
  }

  /** The summary of a selection of rows. */
  ghost function Totals(rows: Ledger): UsageTotals {
    var input, output := Sum(rows, Amount(InputTokens)), Sum(rows, Amount(OutputTokens));
    UsageTotals(
      Sum(rows, Amount(ModelTurns)), input, output, Sum(rows, Amount(CachedTokens)),
      Sum(rows, Amount(ReasoningTokens)), input + output, Sum(rows, Amount(Cost)), Sum(rows, Amount(Savings)))
  }

  lemma FiguresAreSums(rows: Ledger, metric: Metric)
    ensures Figure(Totals(rows), metric) == Sum(rows, Amount(metric))
  {
  }

  /** A summary of no rows is zero, and one more row adds one turn and its own columns. */
  lemma TotalsOfOneMore(rows: Ledger, id: string, row: Row)
    requires id !in rows
    ensures Totals(map[]) == UsageTotals(0, 0, 0, 0, 0, 0, 0, 0)
    ensures var t, t' := Totals(rows), Totals(rows[id := row]);
            && t'.modelTurns == t.modelTurns + 1
            && t'.inputTokens == t.inputTokens + row.input
            && t'.outputTokens == t.outputTokens + row.output
            && t'.cachedTokens == t.cachedTokens + row.cached
            && t'.reasoningTokens == t.reasoningTokens + row.reasoning
            && t'.totalTokens == t.totalTokens + row.input + row.output
            && t'.cost == t.cost + row.cost
            && t'.savings == t.savings + row.savings
  {
    SumWrite(rows, Amount(ModelTurns), id, row);
    SumWrite(rows, Amount(InputTokens), id, row);
    SumWrite(rows, Amount(OutputTokens), id, row);
    SumWrite(rows, Amount(CachedTokens), id, row);
    SumWrite(rows, Amount(ReasoningTokens), id, row);
    SumWrite(rows, Amount(Cost), id, row);
    SumWrite(rows, Amount(Savings), id, row);
  }

  /** The summaries of the groups a grouping falls into. */
  ghost function Grouped<G>(rows: Ledger, groupOf: (string, Row) -> G, groups: set<G>): map<G, UsageTotals> {
    map g | g in groups :: Totals(Part(rows, groupOf, g))
  }

  function FigureOf<G>(metric: Metric): (G, UsageTotals) -> int {
    (g: G, t: UsageTotals) => Figure(t, metric)
  }

  /** Grouping loses and repeats nothing: every figure of the whole is the sum of that
      figure over the groups. */
  lemma GroupingConserves<G>(rows: Ledger, groupOf: (string, Row) -> G, groups: set<G>, metric: Metric)
    requires forall id | id in rows :: groupOf(id, rows[id]) in groups
    ensures Sum(Grouped(rows, groupOf, groups), FigureOf(metric)) == Figure(Totals(rows), metric)
  {
    hide Totals, Figure;
    FiguresAreSums(rows, metric);
    SumRegroup(rows, Amount(metric), groupOf, groups);
    var parts := PartSums(rows, Amount(metric), groupOf, groups);
    forall g | g in groups
      ensures FigureOf<G>(metric)(g, Grouped(rows, groupOf, groups)[g]) == Second<G>()(g, parts[g])
    {
      FiguresAreSums(Part(rows, groupOf, g), metric);
    }
    SumSame(Grouped(rows, groupOf, groups), FigureOf(metric), parts, Second());
  }

  // ---------------------------------------------------------------- personal

  /** The rows of a member from a moment on. */
  function OwnRows(events: Ledger, member: Id, since: int): Ledger {
    map id | id in events && events[id].member == member && events[id].occurredAt >= since :: events[id]
  }

  /** The day of a time, counted from the epoch. */
  function DayOf(occurredAt: nat): (day: nat)
    ensures day * 86400000 <= occurredAt < (day + 1) * 86400000
  {
    occurredAt / 1000 / 86400
  }

  const ByModel: (string, Row) -> (Id, Id) := (id: string, row: Row) => (row.provider, row.model)
  const ByDay: (string, Row) -> nat := (id: string, row: Row) => DayOf(row.occurredAt)
  const ByDayAndModel: (string, Row) -> (nat, Id, Id) :=
    (id: string, row: Row) => (DayOf(row.occurredAt), row.provider, row.model)

  /** The groups a selection has. */
  function Present<G>(rows: Ledger, groupOf: (string, Row) -> G): set<G> {
    set id | id in rows :: groupOf(id, rows[id])
  }

  /** The selections, row by row: whose rows they are, and from when on. */
  lemma SelectionsAreExact(events: Ledger, member: Id, organization: Id, since: int, id: string)
    ensures var own := OwnRows(events, member, since);
            && (id in own <==> id in events && events[id].member == member && events[id].occurredAt >= since)
            && (id in own ==> own[id] == events[id])
    ensures var all := OrganizationRows(events, organization, since);
            && (id in all <==>
                  id in events && events[id].organization == organization && events[id].occurredAt >= since)
            && (id in all ==> all[id] == events[id])
    ensures id in events ==>
              && ByModel(id, events[id]) == (events[id].provider, events[id].model)
              && ByDay(id, events[id]) == events[id].occurredAt / 86400000
              && ByDayAndModel(id, events[id])
                 == (events[id].occurredAt / 86400000, events[id].provider, events[id].model)
  {
  }

  /** A personal summary's totals are the sums over its models, over its days, and over its
      days and models. */
  lemma PersonalTotalsAreConserved(events: Ledger, member: Id, since: int, metric: Metric)
    ensures var own := OwnRows(events, member, since);
            var whole := Figure(Totals(own), metric);
            && Sum(Grouped(own, ByModel, Present(own, ByModel)), FigureOf(metric)) == whole
            && Sum(Grouped(own, ByDay, Present(own, ByDay)), FigureOf(metric)) == whole
            && Sum(Grouped(own, ByDayAndModel, Present(own, ByDayAndModel)), FigureOf(metric)) == whole
  {
    var own := OwnRows(events, member, since);
    GroupingConserves(own, ByModel, Present(own, ByModel), metric);
    GroupingConserves(own, ByDay, Present(own, ByDay), metric);
    GroupingConserves(own, ByDayAndModel, Present(own, ByDayAndModel), metric);
  }

  // ------------------------------------------------------------ organization

  datatype State = State(tables: Tables, events: Ledger)

  /** What can happen to the tables the ledger refers to, and to the ledger. */
  datatype Step =
    | Record(event: Event)
    | AddMember(member: Id, organization: Id)
    | RemoveMember(member: Id)
    | RemoveOrganization(organization: Id)
    | AddWorkspace(workspace: string, owner: Owner)
    | MoveWorkspace(workspace: string, owner: Owner)
    | RemoveWorkspace(workspace: string)

  /** The guards on inserting and on moving a workspace. */
  predicate OwnerGuard(t: Tables, owner: Owner) {
    owner.member in t.members && t.members[owner.member] == owner.organization
  }

  /** Deleting members or workspaces takes along what refers to them: a member's workspaces,
      and the events of either. */
  function Keep(s: State, members: set<Id>, workspaces: set<string>): State {
    var kept := map w | w in s.tables.workspaces && w in workspaces && s.tables.workspaces[w].member in members
                  :: s.tables.workspaces[w];
    State(
      Tables(kept, map m | m in s.tables.members && m in members :: s.tables.members[m]),
      map id | id in s.events && s.events[id].member in members && s.events[id].workspace in kept :: s.events[id])
  }

  function Next(s: State, step: Step): State {
    var t := s.tables;
    match step
    case Record(e) =>
      if Recordable(t, e) then s.(events := Recorded(s.events, e)) else s
    case AddMember(m, o) =>
      if m in t.members then s else s.(tables := t.(members := t.members[m := o]))
    case RemoveMember(m) => Keep(s, t.members.Keys - {m}, t.workspaces.Keys)
    case RemoveOrganization(o) =>
      Keep(s, (set m | m in t.members && t.members[m] != o), t.workspaces.Keys)
    case AddWorkspace(w, owner) =>
      if w in t.workspaces || !OwnerGuard(t, owner) then s
      else s.(tables := t.(workspaces := t.workspaces[w := owner]))
    case MoveWorkspace(w, owner) =>
      if w !in t.workspaces || !OwnerGuard(t, owner) then s
      else s.(tables := t.(workspaces := t.workspaces[w := owner]))
    case RemoveWorkspace(w) => Keep(s, t.members.Keys, t.workspaces.Keys - {w})
  }

  /** What each step leaves of the ledger: recording adds the event exactly when it is
      admitted and takes none away; a removal takes along the events of the removed member or
      workspace, and those on workspaces of a removed member; the others leave it alone. */
  lemma StepLeaves(s: State, step: Step)
    ensures var u := Next(s, step);
            var t := s.tables;
            match step
            case Record(e) =>
              && u.tables == t
              && u.events.Keys == s.events.Keys + (if Recordable(t, e) then {e.id} else {})
              && (forall id | id in s.events && id != e.id :: u.events[id] == s.events[id])
              && (Recordable(t, e) && e.id !in s.events ==> u.events[e.id] == e.row)
            case RemoveMember(m) =>
              && u.tables.members.Keys == t.members.Keys - {m}
              && (Owned(s) ==> forall id :: id in u.events <==>
                    && id in s.events && s.events[id].member != m
                    && t.workspaces[s.events[id].workspace].member != m)
              && (forall id | id in u.events :: u.events[id] == s.events[id])
            case RemoveOrganization(o) =>
              && (forall m | m in u.tables.members :: u.tables.members[m] == t.members[m] != o)
              && (Owned(s) ==> forall id :: id in u.events <==>
                    && id in s.events && s.events[id].organization != o
                    && t.workspaces[s.events[id].workspace].organization != o)
              && (forall id | id in u.events :: u.events[id] == s.events[id])
            case RemoveWorkspace(w) =>
              && u.tables.workspaces.Keys <= t.workspaces.Keys - {w}
              && (Owned(s) ==> forall id :: id in u.events <==> id in s.events && s.events[id].workspace != w)
              && (forall id | id in u.events :: u.events[id] == s.events[id])
            case AddMember(m, o) => u.events == s.events && m in u.tables.members
            case AddWorkspace(w, owner) => u.events == s.events
            case MoveWorkspace(w, owner) => u.events == s.events
  {
  }

  function Reach(steps: seq<Step>): State {
    if steps == [] then State(Tables(map[], map[]), map[])
    else Next(Reach(steps[..|steps| - 1]), steps[|steps| - 1])
  }

  /** Every row names a member that exists and belongs to the row's organization, and every
      workspace likewise. */
  predicate Owned(s: State) {
    && (forall id | id in s.events ::
          && s.events[id].member in s.tables.members
          && s.tables.members[s.events[id].member] == s.events[id].organization
          && s.events[id].workspace in s.tables.workspaces)
    && (forall w | w in s.tables.workspaces :: OwnerGuard(s.tables, s.tables.workspaces[w]))
  }

  lemma StepKeepsOwned(s: State, step: Step)
    requires Owned(s)
    ensures Owned(Next(s, step))
  {
  }

  lemma {:induction false} EveryReachableRowIsOwned(steps: seq<Step>)
    ensures Owned(Reach(steps))
  {
    if steps != [] {
      EveryReachableRowIsOwned(steps[..|steps| - 1]);
      StepKeepsOwned(Reach(steps[..|steps| - 1]), steps[|steps| - 1]);
    }
  }

  /** The rows an organization's totals are taken over. */
  function OrganizationRows(events: Ledger, organization: Id, since: int): Ledger {
    map id | id in events && events[id].organization == organization && events[id].occurredAt >= since :: events[id]
  }

  function MembersOf(t: Tables, organization: Id): set<Id> {
    set m | m in t.members && t.members[m] == organization
  }

  /** The member list of an organization's summary: each member with the totals of the rows
      naming the member, whatever organization those rows name. */
  ghost function MemberSummaries(s: State, organization: Id, since: int): map<Id, UsageTotals> {
    map m | m in MembersOf(s.tables, organization) :: Totals(OwnRows(s.events, m, since))
  }

  const ByMember: (string, Row) -> Id := (id: string, row: Row) => row.member

  /** After any steps an organization's totals are the sums over its members. */
  lemma OrganizationTotalsAreConserved(steps: seq<Step>, organization: Id, since: int, metric: Metric)
    ensures var s := Reach(steps);
            Sum(MemberSummaries(s, organization, since), FigureOf(metric))
            == Figure(Totals(OrganizationRows(s.events, organization, since)), metric)
  {
    hide Totals, Figure, Reach;
    var s := Reach(steps);
    EveryReachableRowIsOwned(steps);
    var rows, members := OrganizationRows(s.events, organization, since), MembersOf(s.tables, organization);
    GroupingConserves(rows, ByMember, members, metric);
    forall m | m in members ensures Part(rows, ByMember, m) == OwnRows(s.events, m, since) {
    }
    assert MemberSummaries(s, organization, since) == Grouped(rows, ByMember, members);
  }
}
