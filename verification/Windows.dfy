/** Fixed-window counting: why a counter that resets every window admits at most twice
    its limit in any interval as long as the window, wherever the interval lies. */
module Windows {
  import opened Prelude

  /** Something admitted at a moment. */
  datatype Entry = Entry(at: nat, amount: nat)

  /** A counter: when its window opened and what was counted since. */
  datatype Counter = Counter(start: nat, spent: nat)

  /** Everything admitted from one moment to another, both included. */
  function Admitted(h: seq<Entry>, from: int, to: int): nat {
    if h == [] then 0
    else
      var last := h[|h| - 1];
      Admitted(h[..|h| - 1], from, to) + if from <= last.at <= to then last.amount else 0
  }

  lemma AdmittedAppend(h: seq<Entry>, e: Entry, from: int, to: int)
    ensures Admitted(h + [e], from, to) == Admitted(h, from, to) + if from <= e.at <= to then e.amount else 0
  {
  }

  /** A part of an interval admits no more than the whole, counting only what happened. */
  lemma {:induction false} AdmittedWithin(h: seq<Entry>, from: int, to: int, from': int, to': int)
    requires forall i :: 0 <= i < |h| && from <= h[i].at <= to ==> from' <= h[i].at <= to'
    ensures Admitted(h, from, to) <= Admitted(h, from', to')
  {
    if h != [] {
      AdmittedWithin(h[..|h| - 1], from, to, from', to');
    }
  }

  lemma {:induction false} AdmittedSplit(h: seq<Entry>, from: int, middle: int, to: int)
    requires from <= middle <= to + 1
    ensures Admitted(h, from, to) == Admitted(h, from, middle - 1) + Admitted(h, middle, to)
  {
    if h != [] {
      AdmittedSplit(h[..|h| - 1], from, middle, to);
    }
  }

  lemma {:induction false} NothingAdmitted(h: seq<Entry>, from: int, to: int)
    requires forall i :: 0 <= i < |h| ==> !(from <= h[i].at <= to)
    ensures Admitted(h, from, to) == 0
  {
    if h != [] {
      NothingAdmitted(h[..|h| - 1], from, to);
    }
  }

  predicate SlidingBound(h: seq<Entry>, window: nat, limit: nat, from: int) {
    Admitted(h, from, from + window) <= 2 * limit
  }

  /** What the counting keeps, up to the last clock reading: an open counter covers what
      its window admitted, the window length before it opened admitted at most the limit,
      and without a counter the last window length did. */
  ghost predicate Windowed(h: seq<Entry>, window: nat, limit: nat, counter: Option<Counter>, clock: nat) {
    && (forall from: int :: SlidingBound(h, window, limit, from))
    && (match counter
        case None =>
          && (forall i :: 0 <= i < |h| ==> h[i].at < clock)
          && Admitted(h, clock - window, clock) <= limit
        case Some(c) =>
          && c.start <= clock
          && (forall i :: 0 <= i < |h| ==> h[i].at <= clock && h[i].at < c.start + window)
          && Admitted(h, c.start, clock) <= Min(c.spent, limit)
          && Admitted(h, c.start - window, c.start - 1) <= limit)
  }

  lemma NothingYet(window: nat, limit: nat, clock: nat)
    ensures Windowed([], window, limit, None, clock)
  {
  }

  lemma Later(h: seq<Entry>, window: nat, limit: nat, counter: Option<Counter>, clock: nat, now: nat)
    requires Windowed(h, window, limit, counter, clock) && clock <= now
    ensures Windowed(h, window, limit, counter, now)
  {
    match counter {
      case None => AdmittedWithin(h, now - window, now, clock - window, clock);
      case Some(c) => AdmittedWithin(h, c.start, now, c.start, clock);
    }
  }

  /** Dropping a counter whose window is over. */
  lemma Expire(h: seq<Entry>, window: nat, limit: nat, c: Counter, now: nat)
    requires Windowed(h, window, limit, Some(c), now) && now - c.start >= window
    ensures Windowed(h, window, limit, None, now)
  {
    AdmittedWithin(h, now - window, now, c.start, now);
  }

  /** Admitting within an open window. */
  lemma AdmitInWindow(h: seq<Entry>, window: nat, limit: nat, c: Counter, now: nat, amount: nat)
    requires Windowed(h, window, limit, Some(c), now) && now - c.start < window
    requires c.spent + amount <= limit
    ensures Windowed(h + [Entry(now, amount)], window, limit, Some(Counter(c.start, c.spent + amount)), now)
  {
    var e := Entry(now, amount);
    forall from: int ensures SlidingBound(h + [e], window, limit, from) {
      AdmittedAppend(h, e, from, from + window);
      assert SlidingBound(h, window, limit, from);
      if from <= now <= from + window {
        if from < c.start {
          AdmittedSplit(h, from, c.start, from + window);
          AdmittedWithin(h, from, c.start - 1, c.start - window, c.start - 1);
        }
        AdmittedWithin(h, Max(from, c.start), from + window, c.start, now);
      }
    }
    AdmittedAppend(h, e, c.start, now);
    AdmittedAppend(h, e, c.start - window, c.start - 1);
  }

  /** Opening a window with an admission. */
  lemma AdmitInNewWindow(h: seq<Entry>, window: nat, limit: nat, now: nat, amount: nat)
    requires Windowed(h, window, limit, None, now)
    requires amount <= limit && window > 0
    ensures Windowed(h + [Entry(now, amount)], window, limit, Some(Counter(now, amount)), now)
  {
    var e := Entry(now, amount);
    forall from: int ensures SlidingBound(h + [e], window, limit, from) {
      AdmittedAppend(h, e, from, from + window);
      assert SlidingBound(h, window, limit, from);
      if from <= now <= from + window {
        AdmittedWithin(h, from, from + window, now - window, now);
      }
    }
    AdmittedAppend(h, e, now, now);
    NothingAdmitted(h, now, now);
    AdmittedAppend(h, e, now - window, now - 1);
    AdmittedWithin(h, now - window, now - 1, now - window, now);
  }

  /** Counting something that is then not admitted, in an open window. */
  lemma SpendInWindow(h: seq<Entry>, window: nat, limit: nat, c: Counter, now: nat, amount: nat)
    requires Windowed(h, window, limit, Some(c), now)
    ensures Windowed(h, window, limit, Some(Counter(c.start, c.spent + amount)), now)
  {
  }

  /** Opening a window with something that is then not admitted. */
  lemma SpendInNewWindow(h: seq<Entry>, window: nat, limit: nat, now: nat, amount: nat)
    requires Windowed(h, window, limit, None, now) && window > 0
    ensures Windowed(h, window, limit, Some(Counter(now, amount)), now)
  {
    NothingAdmitted(h, now, now);
    AdmittedWithin(h, now - window, now - 1, now - window, now);
  }

  /** The bound is reached: the whole limit, and the whole limit again as soon as the window
      is over. */
  lemma TwiceIsReached(window: nat, limit: nat)
    requires window > 0
    ensures var h := [Entry(0, limit)] + [Entry(window, limit)];
            && Windowed(h, window, limit, Some(Counter(window, limit)), window)
            && Admitted(h, 0, 0 + window) == 2 * limit
  {
    hide Windowed;
    var first, second := Entry(0, limit), Entry(window, limit);
    NothingYet(window, limit, 0);
    AdmitInNewWindow([], window, limit, 0, limit);
    assert [] + [first] == [first];
    Later([first], window, limit, Some(Counter(0, limit)), 0, window);
    Expire([first], window, limit, Counter(0, limit), window);
    AdmitInNewWindow([first], window, limit, window, limit);
    AdmittedAppend([], first, 0, window);
    AdmittedAppend([first], second, 0, window);
  }

  // ------------------------------------------------- the window by its history

  /** When the latest window of a history opened: with the first entry of all, and then with
      each that comes a whole window length or more after the opening before. */
  function OpenedAt(h: seq<Entry>, window: nat): Option<nat> {
    if h == [] then None
    else
      var before, last := OpenedAt(h[..|h| - 1], window), h[|h| - 1];
      if before.None? || last.at >= before.value + window then Some(last.at) else before
  }

  /** What the current window holds at a moment. */
  function InWindow(h: seq<Entry>, window: nat, now: nat): nat {
    var latest := OpenedAt(h, window);
    if latest.None? || now >= latest.value + window then 0 else Admitted(h, latest.value, now)
  }

  /** A counter tells its history: its opening and its total are those of the latest window,
      and without a counter that window is over. */
  predicate Tells(h: seq<Entry>, window: nat, counter: Option<Counter>, clock: nat) {
    var latest := OpenedAt(h, window);
    && (forall i :: 0 <= i < |h| ==> h[i].at <= clock)
    && (latest.Some? ==> latest.value <= clock && forall i :: 0 <= i < |h| ==> h[i].at < latest.value + window)
    && (counter.Some? ==> latest == Some(counter.value.start)
                          && counter.value.spent == Admitted(h, counter.value.start, clock))
    && (counter.None? && latest.Some? ==> clock >= latest.value + window)
  }

  lemma TellsLater(h: seq<Entry>, window: nat, counter: Option<Counter>, clock: nat, now: nat)
    requires Tells(h, window, counter, clock) && clock <= now
    ensures Tells(h, window, counter, now)
  {
    if counter.Some? {
      AdmittedWithin(h, counter.value.start, now, counter.value.start, clock);
      AdmittedWithin(h, counter.value.start, clock, counter.value.start, now);
    }
  }

  /** Reading a counter reads the current window of the history. */
  lemma ReadingTells(h: seq<Entry>, window: nat, counter: Option<Counter>, now: nat)
    requires Tells(h, window, counter, now)
    ensures (if counter.Some? && now - counter.value.start < window then counter.value.spent else 0)
            == InWindow(h, window, now)
  {
  }

  /** The counter after one more entry. */
  function OneMore(window: nat, counter: Option<Counter>, now: nat, amount: nat): Counter {
    if counter.Some? && now - counter.value.start < window then
      Counter(counter.value.start, counter.value.spent + amount)
    else Counter(now, amount)
  }

  lemma CountingTells(h: seq<Entry>, window: nat, counter: Option<Counter>, now: nat, amount: nat)
    requires Tells(h, window, counter, now) && window > 0
    ensures Tells(h + [Entry(now, amount)], window, Some(OneMore(window, counter, now, amount)), now)
  {
    var e, after := Entry(now, amount), OneMore(window, counter, now, amount);
    assert (h + [e])[..|h|] == h;
    AdmittedAppend(h, e, after.start, now);
    if after.start == now && !(counter.Some? && now - counter.value.start < window) {
      NothingAdmitted(h, now, now);
    }
  }
}
