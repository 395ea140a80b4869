/**
  The bounded fixed-window request limiter against an unbounded fixed-window counter per key, and
  how many requests any interval of one window can see admitted. Keys stand for their digests.
 */
module RateLimiter {
  import opened Text
  import opened Sequences
  import opened Ordering

  const MAXIMUM_KEY: nat := 1024
  const SECOND: int := 1_000_000_000
  const ZERO_NANOS: int := -62_135_596_800_000_000_000

  datatype Limit = Limit(maximum: int, window: int)

  predicate LimitFits(limit: Limit) {
    1 <= limit.maximum <= 10000 && SECOND <= limit.window <= 86400 * SECOND
  }

  datatype Slot = Slot(started: int, count: int)

  type Slots = map<Name, Slot>

  datatype Reply = Allowed | Denied | CapacityReached | Invalid

  datatype Step = Step(slots: Slots, reply: Reply)

  predicate InputFits(key: Name, limit: Limit, now: int) {
    1 <= ByteLength(key.text) <= MAXIMUM_KEY && LimitFits(limit) && now != ZERO_NANOS
  }

  /** The slot's window has not ended. */
  predicate Alive(slot: Slot, limit: Limit, now: int) {
    now < slot.started + limit.window
  }

  function Live(slots: Slots, limit: Limit, now: int): Slots {
    map k | k in slots && Alive(slots[k], limit, now) :: slots[k]
  }

  /** A request in the window of its key's slot. */
  function Admit(slots: Slots, key: Name, limit: Limit): Step
    requires key in slots
  {
    if slots[key].count >= limit.maximum then Step(slots, Denied)
    else Step(slots[key := slots[key].(count := slots[key].count + 1)], Allowed)
  }

  function Begin(slots: Slots, key: Name, now: int): Step {
    Step(slots[key := Slot(now, 1)], Allowed)
  }

  // ----- The unbounded counter --------------------------------------------------------------

  /** Counts per key and window, forgets nothing, and refuses a key without a window while all places are taken. */
  function Plain(places: nat, slots: Slots, key: Name, limit: Limit, now: int): Step {
    if !InputFits(key, limit, now) then Step(slots, Invalid)
    else if key in Live(slots, limit, now) then Admit(slots, key, limit)
    else if |Live(slots, limit, now)| >= places then Step(slots, CapacityReached)
    else Begin(slots, key, now)
  }

  // ----- The bounded limiter ----------------------------------------------------------------

  function Bounded(places: nat, slots: Slots, key: Name, limit: Limit, now: int): Step {
    if !InputFits(key, limit, now) then Step(slots, Invalid)
    else if key in slots then
      if now < slots[key].started || !Alive(slots[key], limit, now) then Begin(slots, key, now)
      else Admit(slots, key, limit)
    else
      var swept := Live(slots, limit, now);
      if |swept| >= places then Step(swept, CapacityReached) else Begin(swept, key, now)
  }

  class RequestLimiter {
    const places: nat
    var entries: Slots

    constructor (maximumKeys: nat)
      ensures places == maximumKeys && entries == map[]
    {
      places := maximumKeys;
      entries := map[];
    }

    /** Deletes the slots whose window has ended. */
    method Sweep(limit: Limit, now: int)
      modifies this`entries
      ensures entries == Live(old(entries), limit, now)
    {
      var rest := entries.Keys;
      while rest != {}
        invariant rest <= old(entries).Keys
        invariant forall k :: k in entries <==> k in old(entries) && (k in rest || Alive(old(entries)[k], limit, now))
        invariant forall k :: k in entries ==> entries[k] == old(entries)[k]
      {
        var key :| key in rest;
        if key in entries && !Alive(entries[key], limit, now) {
          entries := entries - {key};
        }
        rest := rest - {key};
      }
    }

    method Allow(key: Name, limit: Limit, now: int) returns (reply: Reply)
      modifies this`entries
      ensures Step(entries, reply) == Bounded(places, old(entries), key, limit, now)
    {
      if !InputFits(key, limit, now) {
        return Invalid;
      }
      if key in entries {
        var entry := entries[key];
        if now < entry.started || !(now < entry.started + limit.window) {
          entries := entries[key := Slot(now, 1)];
          return Allowed;
        }
        if entry.count >= limit.maximum {
          return Denied;
        }
        entries := entries[key := entry.(count := entry.count + 1)];
        return Allowed;
      }
      Sweep(limit, now);
      if |entries| >= places {
        return CapacityReached;
      }
      entries := entries[key := Slot(now, 1)];
      return Allowed;
    }
  }

  // ----- Refinement -------------------------------------------------------------------------

  /** The limiter holds at most its places, only slots of the counter, all that are live, none from the future. */
  ghost predicate Agrees(places: nat, slots: Slots, plain: Slots, limit: Limit, now: int) {
    && |slots| <= places
    && (forall k :: k in slots ==> k in plain && plain[k] == slots[k])
    && (forall k :: k in plain && Alive(plain[k], limit, now) ==> k in slots)
    && (forall k :: k in plain ==> plain[k].started <= now)
  }

  lemma AgreesLater(places: nat, slots: Slots, plain: Slots, limit: Limit, now: int, later: int)
    requires Agrees(places, slots, plain, limit, now) && now <= later
    ensures Agrees(places, slots, plain, limit, later) && Live(slots, limit, later) == Live(plain, limit, later)
  {
  }

  lemma LiveSize(slots: Slots, limit: Limit, now: int)
    ensures |Live(slots, limit, now)| <= |slots|
    ensures forall k :: k in slots && !Alive(slots[k], limit, now) ==> |Live(slots, limit, now)| < |slots|
  {
    var live := Live(slots, limit, now);
    assert live.Keys <= slots.Keys;
    SubsetSize(live.Keys, slots.Keys);
    assert |live.Keys| == |live| && |slots.Keys| == |slots|;
    forall k | k in slots && !Alive(slots[k], limit, now) ensures |live| < |slots| {
      assert k !in live.Keys;
      assert live.Keys != slots.Keys;
    }
  }

  lemma AgreesWritten(places: nat, slots: Slots, plain: Slots, key: Name, slot: Slot, limit: Limit, now: int)
    requires Agrees(places, slots, plain, limit, now) && (key in slots || |slots| < places) && slot.started <= now
    ensures Agrees(places, slots[key := slot], plain[key := slot], limit, now)
  {
    assert slots[key := slot].Keys == slots.Keys + {key};
    assert |slots[key := slot].Keys| == |slots[key := slot]| && |slots.Keys| == |slots|;
    if key in slots {
      assert slots.Keys + {key} == slots.Keys;
    }
  }

  /** One request: the same reply, and agreement afterwards. */
  lemma StepRefines(places: nat, slots: Slots, plain: Slots, key: Name, limit: Limit, last: int, now: int)
    requires Agrees(places, slots, plain, limit, last) && last <= now
    ensures Bounded(places, slots, key, limit, now).reply == Plain(places, plain, key, limit, now).reply
    ensures Agrees(places, Bounded(places, slots, key, limit, now).slots, Plain(places, plain, key, limit, now).slots,
                   limit, now)
  {
    AgreesLater(places, slots, plain, limit, last, now);
    LiveSize(slots, limit, now);
    if key in slots {
      AgreesWritten(places, slots, plain, key, Slot(now, 1), limit, now);
      AgreesWritten(places, slots, plain, key, slots[key].(count := slots[key].count + 1), limit, now);
    } else {
      var swept := Live(slots, limit, now);
      assert Agrees(places, swept, plain, limit, now);
      if |swept| < places {
        AgreesWritten(places, swept, plain, key, Slot(now, 1), limit, now);
      }
    }
  }

  datatype Request = Request(key: Name, now: int)

  function RunBounded(places: nat, slots: Slots, limit: Limit, requests: seq<Request>): (replies: seq<Reply>)
    ensures |replies| == |requests|
    decreases requests
  {
    if requests == [] then []
    else
      var s := Bounded(places, slots, requests[0].key, limit, requests[0].now);
      [s.reply] + RunBounded(places, s.slots, limit, requests[1..])
  }

  function RunPlain(places: nat, slots: Slots, limit: Limit, requests: seq<Request>): (replies: seq<Reply>)
    ensures |replies| == |requests|
    decreases requests
  {
    if requests == [] then []
    else
      var s := Plain(places, slots, requests[0].key, limit, requests[0].now);
      [s.reply] + RunPlain(places, s.slots, limit, requests[1..])
  }

  /** The clock does not go back. */
  predicate Timed(requests: seq<Request>, last: int) {
    requests == [] || (last <= requests[0].now && Timed(requests[1..], requests[0].now))
  }

  lemma {:induction false} RunsAgree(
      places: nat, slots: Slots, plain: Slots, limit: Limit, requests: seq<Request>, last: int)
    requires Agrees(places, slots, plain, limit, last) && Timed(requests, last)
    ensures RunBounded(places, slots, limit, requests) == RunPlain(places, plain, limit, requests)
    decreases requests
  {
    if requests != [] {
      var r := requests[0];
      StepRefines(places, slots, plain, r.key, limit, last, r.now);
      RunsAgree(places, Bounded(places, slots, r.key, limit, r.now).slots,
                Plain(places, plain, r.key, limit, r.now).slots, limit, requests[1..], r.now);
    }
  }

  /** With a clock that does not go back, no sequence of requests can tell the limiter from the counter. */
  lemma EmptyRunsAgree(places: nat, limit: Limit, requests: seq<Request>, last: int)
    requires Timed(requests, last)
    ensures RunBounded(places, map[], limit, requests) == RunPlain(places, map[], limit, requests)
  {
    RunsAgree(places, map[], map[], limit, requests, last);
  }

  // ----- How many requests an interval admits -----------------------------------------------

  predicate Within(now: int, from: int, limit: Limit) {
    from <= now < from + limit.window
  }

  /** How many requests for the key are admitted in the window-long interval from the given instant. */
  function Admitted(replies: seq<Reply>, requests: seq<Request>, key: Name, from: int, limit: Limit): nat
    requires |replies| == |requests|
  {
    if replies == [] then 0
    else
      (if replies[0] == Allowed && requests[0].key == key && Within(requests[0].now, from, limit) then 1 else 0)
      + Admitted(replies[1..], requests[1..], key, from, limit)
  }

  /** How many more requests may still be admitted in the interval, given the key's slot and the last instant seen. */
  function Allowance(slots: Slots, key: Name, from: int, limit: Limit, last: int): int {
    if last < from then 2 * limit.maximum - 1
    else if key !in slots then limit.maximum
    else
      var slot := slots[key];
      if slot.started < from then 2 * limit.maximum - slot.count
      else if slot.started < from + limit.window then limit.maximum - slot.count
      else 0
  }

  ghost predicate CountsFit(slots: Slots, limit: Limit, now: int) {
    forall k :: k in slots ==> slots[k].started <= now && 1 <= slots[k].count <= limit.maximum
  }

  /** An admission in the interval uses up allowance; other steps do not add any. */
  lemma StepAllowance(places: nat, slots: Slots, r: Request, limit: Limit, key: Name, from: int, last: int)
    requires LimitFits(limit) && CountsFit(slots, limit, last) && last <= r.now
    ensures var s := Plain(places, slots, r.key, limit, r.now);
            && CountsFit(s.slots, limit, r.now)
            && Allowance(s.slots, key, from, limit, r.now)
               <= Allowance(slots, key, from, limit, last)
                  - (if s.reply == Allowed && r.key == key && Within(r.now, from, limit) then 1 else 0)
  {
  }

  lemma {:induction false} AdmittedWithinAllowance(
      places: nat, slots: Slots, limit: Limit, requests: seq<Request>, key: Name, from: int, last: int)
    requires LimitFits(limit) && CountsFit(slots, limit, last) && Timed(requests, last)
    ensures Admitted(RunPlain(places, slots, limit, requests), requests, key, from, limit)
         <= Allowance(slots, key, from, limit, last)
    decreases requests
  {
    if requests != [] {
      var s := Plain(places, slots, requests[0].key, limit, requests[0].now);
      StepAllowance(places, slots, requests[0], limit, key, from, last);
      AdmittedWithinAllowance(places, s.slots, limit, requests[1..], key, from, requests[0].now);
    }
  }

  /** Any half-open interval of one window admits fewer than twice the maximum for a key. */
  lemma FewerThanTwice(places: nat, limit: Limit, requests: seq<Request>, key: Name, from: int, last: int)
    requires LimitFits(limit) && Timed(requests, last)
    ensures Admitted(RunBounded(places, map[], limit, requests), requests, key, from, limit) <= 2 * limit.maximum - 1
  {
    EmptyRunsAgree(places, limit, requests, last);
    AdmittedWithinAllowance(places, map[], limit, requests, key, from, last);
  }

  // ----- The bound is attained --------------------------------------------------------------

  /** The same request n times. */
  function Burst(r: Request, n: nat): (requests: seq<Request>)
    ensures |requests| == n
  {
    if n == 0 then [] else [r] + Burst(r, n - 1)
  }

  /** One request at the start of a window, the rest of its maximum at its end, and the maximum of the next. */
  function Straddling(key: Name, limit: Limit): seq<Request>
    requires limit.maximum >= 1
  {
    [Request(key, 0)] + (Burst(Request(key, limit.window - 1), limit.maximum - 1)
                         + Burst(Request(key, limit.window), limit.maximum))
  }

  /** How many requests for the key the limiter admits in the interval, starting with the given slots. */
  function AdmittedFrom(places: nat, slots: Slots, limit: Limit, requests: seq<Request>, key: Name, from: int): nat {
    Admitted(RunBounded(places, slots, limit, requests), requests, key, from, limit)
  }

  lemma AdmittedFirst(places: nat, slots: Slots, limit: Limit, r: Request, rest: seq<Request>, key: Name, from: int)
    ensures var s := Bounded(places, slots, r.key, limit, r.now);
            AdmittedFrom(places, slots, limit, [r] + rest, key, from)
            == (if s.reply == Allowed && r.key == key && Within(r.now, from, limit) then 1 else 0)
               + AdmittedFrom(places, s.slots, limit, rest, key, from)
  {
    assert ([r] + rest)[1..] == rest;
    var s := Bounded(places, slots, r.key, limit, r.now);
    var replies := RunBounded(places, slots, limit, [r] + rest);
    assert replies[1..] == RunBounded(places, s.slots, limit, rest);
  }

  /** A burst in a live window is admitted while it stays within the maximum. */
  lemma {:induction false} BurstAdmitted(
      places: nat, slots: Slots, limit: Limit, r: Request, n: nat, rest: seq<Request>, from: int, slot: Slot)
    requires InputFits(r.key, limit, r.now) && r.key in slots && slots[r.key] == slot
    requires slot.started <= r.now && Alive(slot, limit, r.now) && 0 <= slot.count && slot.count + n <= limit.maximum
    ensures AdmittedFrom(places, slots, limit, Burst(r, n) + rest, r.key, from)
         == (if Within(r.now, from, limit) then n else 0)
            + AdmittedFrom(places, slots[r.key := Slot(slot.started, slot.count + n)], limit, rest, r.key, from)
    decreases n
  {
    if n == 0 {
      assert Burst(r, 0) + rest == rest && slots[r.key := Slot(slot.started, slot.count)] == slots;
    } else {
      var next := Slot(slot.started, slot.count + 1);
      assert Burst(r, n) + rest == [r] + (Burst(r, n - 1) + rest);
      AdmittedFirst(places, slots, limit, r, Burst(r, n - 1) + rest, r.key, from);
      BurstAdmitted(places, slots[r.key := next], limit, r, n - 1, rest, from, next);
      assert slots[r.key := next][r.key := Slot(slot.started, slot.count + n)]
          == slots[r.key := Slot(slot.started, slot.count + n)];
    }
  }

  lemma FirstAdmitted(places: nat, key: Name, limit: Limit, rest: seq<Request>, from: int)
    requires InputFits(key, limit, 0) && places >= 1 && from > 0
    ensures AdmittedFrom(places, map[], limit, [Request(key, 0)] + rest, key, from)
         == AdmittedFrom(places, map[key := Slot(0, 1)], limit, rest, key, from)
  {
    assert Live(map[], limit, 0) == map[];
    AdmittedFirst(places, map[], limit, Request(key, 0), rest, key, from);
  }

  /** The second window opens at the end of the first. */
  lemma SecondWindow(places: nat, key: Name, limit: Limit, slot: Slot, from: int)
    requires InputFits(key, limit, limit.window) && slot.started == 0 && from == limit.window - 1
    ensures AdmittedFrom(places, map[key := slot], limit, Burst(Request(key, limit.window), limit.maximum), key, from)
         == limit.maximum
  {
    var r, n := Request(key, limit.window), limit.maximum - 1;
    var begun := map[key := Slot(limit.window, 1)];
    assert Burst(r, limit.maximum) == [r] + (Burst(r, n) + []);
    AdmittedFirst(places, map[key := slot], limit, r, Burst(r, n) + [], key, from);
    assert map[key := slot][key := Slot(limit.window, 1)] == begun;
    BurstAdmitted(places, begun, limit, r, n, [], from, Slot(limit.window, 1));
  }

  /** The bound is attained for every limit and any number of places, across the end of a window. */
  lemma BoundAttained(places: nat, key: Name, limit: Limit)
    requires places >= 1 && InputFits(key, limit, 0)
    ensures Timed(Straddling(key, limit), 0)
    ensures AdmittedFrom(places, map[], limit, Straddling(key, limit), key, limit.window - 1) == 2 * limit.maximum - 1
  {
    var from, slot := limit.window - 1, Slot(0, limit.maximum);
    var early := Burst(Request(key, from), limit.maximum - 1);
    var late := Burst(Request(key, limit.window), limit.maximum);
    FirstAdmitted(places, key, limit, early + late, from);
    BurstAdmitted(places, map[key := Slot(0, 1)], limit, Request(key, from), limit.maximum - 1, late, from, Slot(0, 1));
    assert map[key := Slot(0, 1)][key := slot] == map[key := slot];
    SecondWindow(places, key, limit, slot, from);
    StraddlingTimed(key, limit);
  }

  lemma StraddlingTimed(key: Name, limit: Limit)
    requires LimitFits(limit)
    ensures Timed(Straddling(key, limit), 0)
  {
    var from := limit.window - 1;
    var early := Burst(Request(key, from), limit.maximum - 1);
    var late := Burst(Request(key, limit.window), limit.maximum);
    TimedBurst(Request(key, limit.window), limit.maximum, [], from);
    assert late + [] == late;
    TimedBurst(Request(key, from), limit.maximum - 1, late, 0);
    assert Straddling(key, limit)[1..] == early + late;
  }

  lemma {:induction false} TimedBurst(r: Request, n: nat, rest: seq<Request>, last: int)
    requires last <= r.now && Timed(rest, r.now)
    ensures Timed(Burst(r, n) + rest, last)
    decreases n
  {
    if n == 0 {
      assert Burst(r, 0) + rest == rest;
      TimedEarlier(rest, r.now, last);
    } else {
      TimedBurst(r, n - 1, rest, r.now);
      assert (Burst(r, n) + rest)[1..] == Burst(r, n - 1) + rest;
    }
  }

  lemma TimedEarlier(requests: seq<Request>, last: int, earlier: int)
    requires Timed(requests, last) && earlier <= last
    ensures Timed(requests, earlier)
  {
  }
}
