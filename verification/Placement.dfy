/** Placement of workspaces on worker hosts: eligibility, the least-loaded order, the
    reservation transaction, and the release when a workspace is deleted. */
module Placement {
  import opened Prelude

  datatype Kind = Memory | Cpu | Disk | Slots

  datatype Amounts = Amounts(memory: nat, cpu: nat, disk: nat, slots: nat)

  function Get(a: Amounts, kind: Kind): nat {
    match kind
    case Memory => a.memory
    case Cpu => a.cpu
    case Disk => a.disk
    case Slots => a.slots
  }

  const NOTHING: Amounts := Amounts(0, 0, 0, 0)

  function Plus(a: Amounts, b: Amounts): Amounts {
    Amounts(a.memory + b.memory, a.cpu + b.cpu, a.disk + b.disk, a.slots + b.slots)
  }

  /** Subtraction that stops at zero, as the release trigger computes it. */
  function MinusClamped(a: Amounts, b: Amounts): Amounts {
    Amounts(Max(0, a.memory - b.memory), Max(0, a.cpu - b.cpu), Max(0, a.disk - b.disk), Max(0, a.slots - b.slots))
  }

  predicate AtMost(a: Amounts, b: Amounts) {
    a.memory <= b.memory && a.cpu <= b.cpu && a.disk <= b.disk && a.slots <= b.slots
  }

  datatype HostState = HostUnknown | HostHealthy | HostDraining | HostUnavailable
  /** A worker host, with the two columns that no other host may share. */
  datatype Host = Host(
    name: Id, url: Id,
    enabled: bool, schedulable: bool, state: HostState, heartbeat: Option<int>,
    total: Amounts, reserved: Amounts)

  datatype Workspace = Workspace(host: Option<Id>, reserved: Amounts)

  datatype Fleet = Fleet(hosts: map<Id, Host>, workspaces: map<Id, Workspace>)

  datatype PlacementError =
    | WorkspaceMissing | HostMissing | NoCapacity | CapacityBelowReservations | IdentityTaken | InvalidRequest

  // ------------------------------------------------------------- candidates

  /** Enabled, schedulable, healthy, seen recently, and with room for every requirement. */
  predicate Eligible(h: Host, need: Amounts, since: int) {
    && h.enabled && h.schedulable && h.state == HostHealthy
    && h.heartbeat.Some? && h.heartbeat.value >= since
    && (forall kind: Kind :: Get(h.total, kind) - Get(h.reserved, kind) >= Get(need, kind))
  }

  /** The load of one resource as a fraction; an absent resource counts as unloaded. */
  function LoadPart(h: Host, kind: Kind): nat {
    if Get(h.total, kind) == 0 then 0 else Get(h.reserved, kind)
  }

  function LoadWhole(h: Host, kind: Kind): nat
    ensures LoadWhole(h, kind) > 0
  {
    if Get(h.total, kind) == 0 then 1 else Get(h.total, kind)
  }

  /** Fractions compared by cross-multiplication. */
  predicate LighterIn(a: Host, b: Host, kind: Kind) {
    LoadPart(a, kind) * LoadWhole(b, kind) < LoadPart(b, kind) * LoadWhole(a, kind)
  }

  predicate LevelIn(a: Host, b: Host, kind: Kind) {
    LoadPart(a, kind) * LoadWhole(b, kind) == LoadPart(b, kind) * LoadWhole(a, kind)
  }

  /** Slots first, then memory, processor and disk, then the host id. */
  predicate Precedes(i: Id, a: Host, j: Id, b: Host) {
    || LighterIn(a, b, Slots)
    || (LevelIn(a, b, Slots)
        && (|| LighterIn(a, b, Memory)
            || (LevelIn(a, b, Memory)
                && (|| LighterIn(a, b, Cpu)
                    || (LevelIn(a, b, Cpu)
                        && (|| LighterIn(a, b, Disk)
                            || (LevelIn(a, b, Disk) && i < j)))))))
  }

  predicate Chosen(hosts: map<Id, Host>, h: Id, need: Amounts, since: int) {
    && h in hosts
    && Eligible(hosts[h], need, since)
    && forall k :: k in hosts && k != h && Eligible(hosts[k], need, since) ==> Precedes(h, hosts[h], k, hosts[k])
  }

  // ----------------------------------------------------- the strict total order

  /** The order of fractions is transitive: from a/wholeA <= b/wholeB <= c/wholeC follows
      a/wholeA <= c/wholeC, strictly when one of the two is strict. */
  lemma CrossTransitive(a: nat, wholeA: nat, b: nat, wholeB: nat, c: nat, wholeC: nat)
    requires wholeA > 0 && wholeB > 0 && wholeC > 0
    requires a * wholeB <= b * wholeA && b * wholeC <= c * wholeB
    ensures a * wholeC <= c * wholeA
    ensures a * wholeB < b * wholeA || b * wholeC < c * wholeB ==> a * wholeC < c * wholeA
  {
    calc {
      (a * wholeC) * wholeB;
      (a * wholeB) * wholeC;
    <= { MulLe(a * wholeB, b * wholeA, wholeC); }
      (b * wholeA) * wholeC;
      (b * wholeC) * wholeA;
    <= { MulLe(b * wholeC, c * wholeB, wholeA); }
      (c * wholeB) * wholeA;
      (c * wholeA) * wholeB;
    }
    CancelLe(a * wholeC, c * wholeA, wholeB);
    if a * wholeB < b * wholeA {
      MulLt(a * wholeB, b * wholeA, wholeC);
      assert (a * wholeC) * wholeB < (c * wholeA) * wholeB;
    } else if b * wholeC < c * wholeB {
      MulLt(b * wholeC, c * wholeB, wholeA);
      assert (a * wholeC) * wholeB < (c * wholeA) * wholeB;
    }
  }

  lemma MulLe(x: nat, y: nat, z: nat)
    requires x <= y
    ensures x * z <= y * z
  {
  }

  lemma MulLt(x: nat, y: nat, z: nat)
    requires x < y && z > 0
    ensures x * z < y * z
  {
  }

  lemma CancelLe(x: nat, y: nat, z: nat)
    requires x * z <= y * z && z > 0
    ensures x <= y
  {
    if x > y {
      MulLt(y, x, z);
    }
  }

  lemma TransitiveIn(a: Host, b: Host, c: Host, kind: Kind)
    ensures !LighterIn(b, a, kind) && !LighterIn(c, b, kind) ==> !LighterIn(c, a, kind)
    ensures LighterIn(a, b, kind) && !LighterIn(c, b, kind) ==> LighterIn(a, c, kind)
    ensures !LighterIn(b, a, kind) && LighterIn(b, c, kind) ==> LighterIn(a, c, kind)
    ensures LevelIn(a, b, kind) && LevelIn(b, c, kind) ==> LevelIn(a, c, kind)
  {
    if !LighterIn(b, a, kind) && !LighterIn(c, b, kind) {
      CrossTransitive(LoadPart(a, kind), LoadWhole(a, kind), LoadPart(b, kind), LoadWhole(b, kind),
                      LoadPart(c, kind), LoadWhole(c, kind));
    }
    if LevelIn(a, b, kind) && LevelIn(b, c, kind) {
      CrossTransitive(LoadPart(c, kind), LoadWhole(c, kind), LoadPart(b, kind), LoadWhole(b, kind),
                      LoadPart(a, kind), LoadWhole(a, kind));
    }
  }

  lemma PrecedesIsTransitive(i: Id, a: Host, j: Id, b: Host, k: Id, c: Host)
    requires Precedes(i, a, j, b) && Precedes(j, b, k, c)
    ensures Precedes(i, a, k, c)
  {
    hide LighterIn, LevelIn;
    forall kind: Kind
      ensures LighterIn(a, b, kind) && LighterIn(b, c, kind) ==> LighterIn(a, c, kind)
      ensures LighterIn(a, b, kind) && LevelIn(b, c, kind) ==> LighterIn(a, c, kind)
      ensures LevelIn(a, b, kind) && LighterIn(b, c, kind) ==> LighterIn(a, c, kind)
      ensures LevelIn(a, b, kind) && LevelIn(b, c, kind) ==> LevelIn(a, c, kind)
    {
      OneOf(a, b, kind);
      OneOf(b, c, kind);
      TransitiveIn(a, b, c, kind);
    }
  }

  lemma OneOf(a: Host, b: Host, kind: Kind)
    ensures LighterIn(a, b, kind) || LighterIn(b, a, kind) || LevelIn(a, b, kind)
    ensures !(LighterIn(a, b, kind) && LighterIn(b, a, kind))
    ensures LevelIn(a, b, kind) ==> !LighterIn(a, b, kind) && !LighterIn(b, a, kind) && LevelIn(b, a, kind)
  {
  }

  /** Of two different hosts exactly one precedes the other. */
  lemma PrecedesIsTotal(i: Id, a: Host, j: Id, b: Host)
    requires i != j
    ensures Precedes(i, a, j, b) <==> !Precedes(j, b, i, a)
  {
    hide LighterIn, LevelIn;
    forall kind: Kind
      ensures LighterIn(a, b, kind) || LighterIn(b, a, kind) || LevelIn(a, b, kind)
      ensures !(LighterIn(a, b, kind) && LighterIn(b, a, kind))
      ensures LevelIn(a, b, kind) ==> !LighterIn(a, b, kind) && !LighterIn(b, a, kind)
      ensures LevelIn(a, b, kind) <==> LevelIn(b, a, kind)
    {
      OneOf(a, b, kind);
      OneOf(b, a, kind);
    }
  }

  /** A nonempty set of hosts has a first one. */
  lemma {:induction false} SomeHostIsFirst(hosts: map<Id, Host>, among: set<Id>) returns (h: Id)
    requires among != {} && among <= hosts.Keys
    ensures h in among && forall k :: k in among && k != h ==> Precedes(h, hosts[h], k, hosts[k])
    decreases |among|
  {
    hide Precedes;
    h :| h in among;
    var rest := among - {h};
    if rest == {} {
      assert among == {h};
    } else {
      var i: Id := SomeHostIsFirst(hosts, rest);
      PrecedesIsTotal(h, hosts[h], i, hosts[i]);
      var first: Id := if Precedes(h, hosts[h], i, hosts[i]) then h else i;
      forall k | k in among && k != first ensures Precedes(first, hosts[first], k, hosts[k]) {
        if first == h && k != i {
          assert k in rest;
          PrecedesIsTransitive(h, hosts[h], i, hosts[i], k, hosts[k]);
        } else if first == i && k != h {
          assert k in rest;
        }
      }
      h := first;
    }
  }

  /** There is a choice exactly when some host is eligible, and it is unique. */
  lemma ChoiceExistsAndIsUnique(hosts: map<Id, Host>, need: Amounts, since: int)
    ensures (exists h :: Chosen(hosts, h, need, since)) <==> (exists h :: h in hosts && Eligible(hosts[h], need, since))
    ensures forall g, h :: Chosen(hosts, g, need, since) && Chosen(hosts, h, need, since) ==> g == h
  {
    if h :| h in hosts && Eligible(hosts[h], need, since) {
      var among := set k | k in hosts && Eligible(hosts[k], need, since);
      assert h in among;
      var first := SomeHostIsFirst(hosts, among);
      assert Chosen(hosts, first, need, since);
    }
    forall g, h | Chosen(hosts, g, need, since) && Chosen(hosts, h, need, since) ensures g == h {
      if g != h {
        PrecedesIsTotal(g, hosts[g], h, hosts[h]);
      }
    }
  }
}
