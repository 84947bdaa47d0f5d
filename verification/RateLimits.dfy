/** Fixed-window request counters (app/infrastructure/aws/rate_limiter.py). A counter carries an
    expiry; the table may drop it any time after that. */
module RateLimits {
  import opened Wrappers

  type Seconds = nat

  /** A client's counter for the aligned window that starts at `start`. */
  datatype Slot = Slot(key: string, start: Seconds)

  datatype Counter = Counter(hits: nat, expiresAt: Seconds)

  type Table = map<Slot, Counter>

  datatype Limits = Limits(max: nat, window: Seconds)

  const GRACE := 60

  function WindowStart(limits: Limits, now: Seconds): (start: Seconds)
    requires limits.window >= 1
  {
    now - now % limits.window
  }

  function SlotOf(limits: Limits, key: string, now: Seconds): Slot
    requires limits.window >= 1
  {
    Slot(key, WindowStart(limits, now))
  }

  function Expiry(limits: Limits, slot: Slot): Seconds {
    slot.start + limits.window + GRACE
  }

  /** The atomic update: add one, and set the expiry of a counter that has none. */
  function Counted(limits: Limits, table: Table, slot: Slot): Table {
    table[slot := Counter(
                    if slot in table then table[slot].hits + 1 else 1,
                    if slot in table then table[slot].expiresAt else Expiry(limits, slot))]
  }

  /** `None` admits the request; a number is how long the client is told to wait. */
  function Verdict(limits: Limits, hits: nat, now: Seconds): Option<int>
    requires limits.window >= 1
  {
    if hits <= limits.max then None
    else
      var left := WindowStart(limits, now) + limits.window - now;
      Some(if left > 1 then left else 1)
  }

  class RateLimiter {
    const limits: Limits
    var table: Table

    constructor (limits: Limits)
      ensures this.limits == limits && table == map[]
    {
      this.limits := limits;
      table := map[];
    }

    /** `hit`. */
    method Hit(key: string, now: Seconds) returns (wait: Option<int>)
      requires limits.window >= 1
      modifies this
      ensures table == Counted(limits, old(table), SlotOf(limits, key, now))
      ensures wait == Verdict(limits, table[SlotOf(limits, key, now)].hits, now)
    {
      var windowStart := now - now % limits.window;
      var windowEnd := windowStart + limits.window;
      var pk := Slot(key, windowStart);
      var counter := Counter(0, windowEnd + GRACE);
      if pk in table {
        counter := table[pk];
      }
      table := table[pk := counter.(hits := counter.hits + 1)];
      var hits := table[pk].hits;
      if hits > limits.max {
        wait := Some(if windowEnd - now > 1 then windowEnd - now else 1);
      } else {
        wait := None;
      }
    }
  }

  // --- histories --------------------------------------------------------------------

  /** A hit read the clock at `now`, and its update landed at `landed`. A sweep drops expired
      counters, as many of them as it likes. */
  datatype Event = Hit(key: string, now: Seconds, landed: Seconds) | Sweep(landed: Seconds, dropped: set<Slot>)

  function After(limits: Limits, events: seq<Event>): Table
    requires limits.window >= 1
  {
    if events == [] then map[]
    else
      var table := After(limits, events[..|events| - 1]);
      match events[|events| - 1]
      case Hit(key, now, _) => Counted(limits, table, SlotOf(limits, key, now))
      case Sweep(_, dropped) => table - dropped
  }

  /** Landings follow one another in time; each update lands before its counter expires; a sweep
      drops only what has expired. */
  ghost predicate Lawful(limits: Limits, events: seq<Event>)
    requires limits.window >= 1
  {
    events == [] ||
    (var earlier, last := events[..|events| - 1], events[|events| - 1];
     && Lawful(limits, earlier)
     && (forall e <- earlier :: e.landed <= last.landed)
     && match last
        case Hit(key, now, landed) => now <= landed < Expiry(limits, SlotOf(limits, key, now))
        case Sweep(landed, dropped) =>
          forall slot <- dropped :: slot in After(limits, earlier) ==> After(limits, earlier)[slot].expiresAt <= landed)
  }

  predicate HitsSlot(limits: Limits, e: Event, slot: Slot)
    requires limits.window >= 1
  {
    e.Hit? && SlotOf(limits, e.key, e.now) == slot
  }

  /** The last event is a hit that was let through. */
  predicate AdmitsLast(limits: Limits, events: seq<Event>)
    requires limits.window >= 1
  {
    && events != [] && events[|events| - 1].Hit?
    && var e := events[|events| - 1];
       && SlotOf(limits, e.key, e.now) in After(limits, events)
       && Verdict(limits, After(limits, events)[SlotOf(limits, e.key, e.now)].hits, e.now).None?
  }

  function Hits(limits: Limits, events: seq<Event>, slot: Slot): nat
    requires limits.window >= 1
  {
    if events == [] then 0
    else Hits(limits, events[..|events| - 1], slot) + if HitsSlot(limits, events[|events| - 1], slot) then 1 else 0
  }

  function Admitted(limits: Limits, events: seq<Event>, slot: Slot): nat
    requires limits.window >= 1
  {
    if events == [] then
      0
    else
      Admitted(limits, events[..|events| - 1], slot) +
      (if HitsSlot(limits, events[|events| - 1], slot) && AdmitsLast(limits, events) then 1 else 0)
  }

  /** Admitted hits of a client whose time lies in `[from, from + window)`. */
  function AdmittedWithin(limits: Limits, events: seq<Event>, key: string, from: Seconds): nat
    requires limits.window >= 1
  {
    if events == [] then
      0
    else
      var last := events[|events| - 1];
      var counts := last.Hit? && last.key == key && from <= last.now < from + limits.window && AdmitsLast(limits, events);
      AdmittedWithin(limits, events[..|events| - 1], key, from) + (if counts then 1 else 0)
  }

  // --- what holds of them -----------------------------------------------------------

  /** A counter counts every hit of its window, as long as hits can still land. */
  ghost predicate Counts(limits: Limits, events: seq<Event>, slot: Slot)
    requires limits.window >= 1
  {
    var table := After(limits, events);
    if slot in table then table[slot] == Counter(Hits(limits, events, slot), Expiry(limits, slot))
    else Hits(limits, events, slot) == 0 || exists e <- events :: Expiry(limits, slot) <= e.landed
  }

  lemma {:induction false} CountersCount(limits: Limits, events: seq<Event>, slot: Slot)
    requires limits.window >= 1 && Lawful(limits, events)
    ensures Counts(limits, events, slot)
  {
    if events != [] {
      var earlier, last := events[..|events| - 1], events[|events| - 1];
      CountersCount(limits, earlier, slot);
      assert events == earlier + [last];
      if slot !in After(limits, earlier) && Hits(limits, earlier, slot) != 0 {
        var e :| e in earlier && Expiry(limits, slot) <= e.landed;
        assert e in events;
      }
    }
  }

  /** Each aligned window admits its first `max` hits, and no more. */
  lemma {:induction false} WindowAdmitsTheFirst(limits: Limits, events: seq<Event>, slot: Slot)
    requires limits.window >= 1 && Lawful(limits, events)
    ensures Admitted(limits, events, slot)
         == if Hits(limits, events, slot) < limits.max then Hits(limits, events, slot) else limits.max
  {
    if events != [] {
      WindowAdmitsTheFirst(limits, events[..|events| - 1], slot);
      CountersCount(limits, events, slot);
    }
  }

  lemma TwoWindows(limits: Limits, from: Seconds, now: Seconds)
    requires limits.window >= 1 && from <= now < from + limits.window
    ensures WindowStart(limits, now) == WindowStart(limits, from)
         || WindowStart(limits, now) == WindowStart(limits, from) + limits.window
  {
    var w := limits.window;
    var r := from % w;
    var start := from - r;
    var k := from / w;
    assert from == k * w + r && start == k * w;
    if now < start + w {
      SameWindow(now, k, w);
    } else {
      SameWindow(now, k + 1, w);
    }
  }

  lemma OneWindowMore(m: nat, n: nat, w: nat)
    requires m < n
    ensures m * w + w <= n * w
  {
    var d: nat := n - m - 1;
    assert d * w >= 0;
    assert n * w == (m + 1 + d) * w == m * w + w + d * w;
  }

  lemma SameWindow(now: nat, k: nat, w: nat)
    requires w >= 1 && k * w <= now < k * w + w
    ensures now - now % w == k * w
  {
    var q, r := now / w, now % w;
    assert now == q * w + r;
    if q < k {
      OneWindowMore(q, k, w);
    } else if q > k {
      OneWindowMore(k, q, w);
    }
  }

  lemma {:induction false} IntervalMeetsTwoWindows(limits: Limits, events: seq<Event>, key: string, from: Seconds)
    requires limits.window >= 1
    ensures var first := WindowStart(limits, from);
            AdmittedWithin(limits, events, key, from)
            <= Admitted(limits, events, Slot(key, first)) + Admitted(limits, events, Slot(key, first + limits.window))
  {
    if events != [] {
      IntervalMeetsTwoWindows(limits, events[..|events| - 1], key, from);
      var last := events[|events| - 1];
      if last.Hit? && from <= last.now < from + limits.window {
        TwoWindows(limits, from, last.now);
      }
    }
  }

  /** Any interval of one window's length, aligned or not, admits at most twice the limit. */
  lemma IntervalAdmitsAtMostTwice(limits: Limits, events: seq<Event>, key: string, from: Seconds)
    requires limits.window >= 1 && Lawful(limits, events)
    ensures AdmittedWithin(limits, events, key, from) <= 2 * limits.max
  {
    var first := WindowStart(limits, from);
    IntervalMeetsTwoWindows(limits, events, key, from);
    WindowAdmitsTheFirst(limits, events, Slot(key, first));
    WindowAdmitsTheFirst(limits, events, Slot(key, first + limits.window));
  }

  /** A client's earlier requests whose time falls into the k-th window. */
  function Requests(limits: Limits, events: seq<Event>, key: string, k: nat): nat {
    if events == [] then
      0
    else
      var last := events[|events| - 1];
      Requests(limits, events[..|events| - 1], key, k) +
      (if last.Hit? && last.key == key && k * limits.window <= last.now < (k + 1) * limits.window then 1 else 0)
  }

  lemma WindowOf(limits: Limits, now: Seconds, k: nat)
    requires limits.window >= 1
    ensures k * limits.window <= now < (k + 1) * limits.window <==> WindowStart(limits, now) == k * limits.window
  {
    assert (k + 1) * limits.window == k * limits.window + limits.window;
    if k * limits.window <= now < (k + 1) * limits.window {
      SameWindow(now, k, limits.window);
    }
  }

  lemma {:induction false} RequestsAreHits(limits: Limits, events: seq<Event>, key: string, k: nat)
    requires limits.window >= 1
    ensures Requests(limits, events, key, k) == Hits(limits, events, Slot(key, k * limits.window))
  {
    if events != [] {
      RequestsAreHits(limits, events[..|events| - 1], key, k);
      var last := events[|events| - 1];
      if last.Hit? {
        WindowOf(limits, last.now, k);
      }
    }
  }

  /** A request is let through exactly when the client made fewer than `max` requests before it
      in its aligned window, whatever other clients did; and its counter is kept until a minute
      after the window's end. */
  lemma RequestAdmittedExactly(limits: Limits, earlier: seq<Event>, key: string, now: Seconds, landed: Seconds)
    requires limits.window >= 1 && Lawful(limits, earlier + [Hit(key, now, landed)])
    ensures AdmitsLast(limits, earlier + [Hit(key, now, landed)])
       <==> Requests(limits, earlier, key, now / limits.window) < limits.max
    ensures var slot := SlotOf(limits, key, now);
            var table := After(limits, earlier + [Hit(key, now, landed)]);
            slot in table && table[slot].expiresAt == (now / limits.window + 1) * limits.window + 60
  {
    var events, k := earlier + [Hit(key, now, landed)], now / limits.window;
    assert events[..|events| - 1] == earlier;
    assert now == k * limits.window + now % limits.window;
    CountersCount(limits, events, SlotOf(limits, key, now));
    RequestsAreHits(limits, earlier, key, k);
  }

  /** A refused client is told to wait until exactly the next window's start. */
  lemma WaitLandsOnTheNextWindow(limits: Limits, hits: nat, now: Seconds)
    requires limits.window >= 1 && hits > limits.max
    ensures var wait := Verdict(limits, hits, now);
            && wait.Some? && 1 <= wait.value <= limits.window
            && now + wait.value == WindowStart(limits, now) + limits.window
            && WindowStart(limits, now + wait.value) == now + wait.value
  {
    var k := now / limits.window;
    assert now == k * limits.window + now % limits.window;
    SameWindow(now + limits.window - now % limits.window, k + 1, limits.window);
  }
}
