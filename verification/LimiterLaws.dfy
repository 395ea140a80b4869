/**
  What callers of the request limiter see, over whole runs of it: a key without a running window gets one
  while a place is free, and in a window exactly the first requests, up to the maximum, are allowed.
 */
module LimiterLaws {
  import opened Ordering
  import opened RateLimiter

  function EndPlain(places: nat, slots: Slots, limit: Limit, requests: seq<Request>): Slots
    decreases requests
  {
    if requests == [] then slots
    else EndPlain(places, Plain(places, slots, requests[0].key, limit, requests[0].now).slots, limit, requests[1..])
  }

  lemma {:induction false} PlainConcat(places: nat, slots: Slots, limit: Limit, a: seq<Request>, b: seq<Request>)
    ensures RunPlain(places, slots, limit, a + b)
         == RunPlain(places, slots, limit, a) + RunPlain(places, EndPlain(places, slots, limit, a), limit, b)
    decreases a
  {
    if a == [] {
      assert a + b == b;
    } else {
      assert (a + b)[1..] == a[1..] + b;
      PlainConcat(places, Plain(places, slots, a[0].key, limit, a[0].now).slots, limit, a[1..], b);
    }
  }

  /** How many of the requests are for the key. */
  function Asked(requests: seq<Request>, key: Name): nat {
    if requests == [] then 0 else (if requests[0].key == key then 1 else 0) + Asked(requests[1..], key)
  }

  /** The requests come before the window that started then has ended, and those for the key are well formed. */
  ghost predicate InWindow(requests: seq<Request>, key: Name, limit: Limit, started: int) {
    forall i :: 0 <= i < |requests| ==>
      requests[i].now < started + limit.window && (requests[i].key == key ==> InputFits(key, limit, requests[i].now))
  }

  function Lesser(a: int, b: int): int {
    if a <= b then a else b
  }

  /** The key's window started then and has seen n requests. */
  predicate Stands(slots: Slots, key: Name, limit: Limit, started: int, n: int) {
    key in slots && slots[key] == Slot(started, Lesser(n, limit.maximum))
  }

  predicate AnswersNth(reply: Reply, n: int, limit: Limit) {
    reply == if n <= limit.maximum then Allowed else Denied
  }

  lemma WindowStep(places: nat, slots: Slots, limit: Limit, r: Request, key: Name, started: int, n: int)
    requires Stands(slots, key, limit, started, n) && n >= 1 && LimitFits(limit) && InWindow([r], key, limit, started)
    ensures var s := Plain(places, slots, r.key, limit, r.now);
            && Stands(s.slots, key, limit, started, if r.key == key then n + 1 else n)
            && (r.key == key ==> AnswersNth(s.reply, n + 1, limit))
  {
    assert [r][0] == r;
  }

  lemma {:induction false} WindowRun(
      places: nat, slots: Slots, limit: Limit, requests: seq<Request>, key: Name, started: int, n: int, i: nat)
    requires Stands(slots, key, limit, started, n) && n >= 1 && LimitFits(limit)
    requires InWindow(requests, key, limit, started) && i < |requests| && requests[i].key == key
    ensures AnswersNth(RunPlain(places, slots, limit, requests)[i], n + Asked(requests[..i + 1], key), limit)
    decreases i
  {
    var r := requests[0];
    assert [r][0] == requests[0];
    WindowStep(places, slots, limit, r, key, started, n);
    assert requests[..i + 1][1..] == requests[1..][..i];
    if i > 0 {
      var m := if r.key == key then n + 1 else n;
      WindowRun(places, Plain(places, slots, r.key, limit, r.now).slots, limit, requests[1..], key, started, m, i - 1);
      assert requests[1..][i - 1] == requests[i];
    } else {
      assert requests[1..][..0] == [];
    }
  }

  /**
    In every run of the limiter from empty, with a clock that does not go back: a request of a key without a
    running window, while fewer windows run than there are places, is allowed and opens a window; of the key's
    requests in it, exactly the first are allowed, up to the maximum, whatever other keys ask.
   */
  lemma WindowAllows(
      places: nat, limit: Limit, before: seq<Request>, first: Request, rest: seq<Request>, last: int, i: nat)
    requires Timed(before + ([first] + rest), last) && InputFits(first.key, limit, first.now)
    requires var running := Live(EndPlain(places, map[], limit, before), limit, first.now);
             first.key !in running && |running| < places
    requires InWindow(rest, first.key, limit, first.now) && i < |rest| && rest[i].key == first.key
    ensures var replies := RunBounded(places, map[], limit, before + ([first] + rest));
            && replies[|before|] == Allowed
            && replies[|before| + 1 + i] ==
               (if 1 + Asked(rest[..i + 1], first.key) <= limit.maximum then Allowed else Denied)
  {
    EmptyRunsAgree(places, limit, before + ([first] + rest), last);
    PlainConcat(places, map[], limit, before, [first] + rest);
    var at := EndPlain(places, map[], limit, before);
    var begun := Plain(places, at, first.key, limit, first.now);
    assert ([first] + rest)[1..] == rest;
    WindowRun(places, begun.slots, limit, rest, first.key, first.now, 1, i);
  }

  /** A key without a running window is turned away exactly while all places have one. */
  lemma CapacityExactly(places: nat, slots: Slots, key: Name, limit: Limit, now: int)
    requires InputFits(key, limit, now)
    ensures Plain(places, slots, key, limit, now).reply == CapacityReached <==>
              var running := Live(slots, limit, now);
              key !in running && |running| >= places
  {
  }
}
