/**
  The bounded in-memory cache against a plain map of values with deadlines. Expired entries are
  left in place until a write needs room, and one operation may read the clock twice; neither can
  be observed while the clock does not go back.
 */
module MemoryCache {
  import opened Text
  import opened Sequences
  import opened Ordering

  const MAXIMUM_KEY: nat := 1024
  const MILLISECOND: int := 1_000_000

  // ----- Operations -------------------------------------------------------------------------

  datatype Entry = Entry(value: Name, deadline: int)

  type Entries = map<Name, Entry>

  predicate Alive(e: Entry, now: int) {
    now < e.deadline
  }

  function Live(entries: Entries, now: int): Entries {
    map k | k in entries && Alive(entries[k], now) :: entries[k]
  }

  /** An operation with the clock readings it takes, in order. */
  datatype Op =
    | Get(key: Name, now: int)
    | Set(key: Name, value: Name, ttl: int, room: int, now: int)
    | Delete(key: Name)
    | Increment(key: Name, ttl: int, now: int, room: int)
    | Ping
    | Close

  datatype Reply =
    Value(value: Name) | Done | Count(n: int) | NotFound | CapacityReached | NotACounter | Invalid | IsClosed

  predicate KeyFits(key: Name) {
    1 <= ByteLength(key.text) <= MAXIMUM_KEY
  }

  predicate OpFits(op: Op) {
    match op
    case Get(key, _) => KeyFits(key)
    case Set(key, _, ttl, _, _) => KeyFits(key) && ttl >= MILLISECOND
    case Delete(key) => KeyFits(key)
    case Increment(key, ttl, _, _) => KeyFits(key) && ttl >= MILLISECOND
    case Ping => true
    case Close => true
  }

  datatype Cache = Cache(entries: Entries, closed: bool)

  datatype Step = Step(cache: Cache, reply: Reply)

  function Counted(e: Entry): Option<int> {
    match ParseInt(e.value.text)
    case None => None
    case Some(n) => if n == MAX_INT64 then None else Some(n + 1)
  }

  const ONE := Name("1")

  // ----- The plain map ----------------------------------------------------------------------

  /** Room for a key: it is there already, or fewer keys than the maximum are live. */
  predicate HasRoom(maximum: nat, entries: Entries, key: Name, now: int) {
    key in Live(entries, now) || |Live(entries, now)| < maximum
  }

  /** A map of values with deadlines that forgets nothing and admits a key while there is room. */
  function Plain(maximum: nat, c: Cache, op: Op): Step {
    if op.Close? then Step(Cache(c.entries, true), Done)
    else if !OpFits(op) then Step(c, Invalid)
    else if c.closed then Step(c, IsClosed)
    else
      match op
      case Get(key, now) =>
        Step(c, if key in Live(c.entries, now) then Value(c.entries[key].value) else NotFound)
      case Set(key, value, ttl, room, now) =>
        if HasRoom(maximum, c.entries, key, room)
        then Step(Cache(c.entries[key := Entry(value, now + ttl)], false), Done)
        else Step(c, CapacityReached)
      case Delete(key) => Step(Cache(c.entries - {key}, false), Done)
      case Increment(key, ttl, now, room) =>
        if key in Live(c.entries, now) then
          (match Counted(c.entries[key])
           case None => Step(c, NotACounter)
           case Some(n) =>
             Step(Cache(c.entries[key := Entry(Name(FormatInt(n)), c.entries[key].deadline)], false), Count(n)))
        else Begin(maximum, c.entries, key, Entry(ONE, now + ttl), room)
      case Ping => Step(c, Done)
  }

  /** Starts a counter for a key that is not live, while fewer keys than the maximum are. */
  function Begin(maximum: nat, entries: Entries, key: Name, e: Entry, room: int): Step {
    if |Live(entries, room)| < maximum then Step(Cache(entries[key := e], false), Count(1))
    else Step(Cache(entries, false), CapacityReached)
  }

  // ----- The bounded store ------------------------------------------------------------------

  /** The entries after making room for a key, or none if there is none. */
  function Reserve(maximum: nat, entries: Entries, key: Name, room: int): Option<Entries> {
    if key in entries then Some(entries)
    else if |Live(entries, room)| >= maximum then None
    else Some(Live(entries, room))
  }

  /** What a refused reservation leaves behind. */
  function Swept(entries: Entries, key: Name, room: int): Entries {
    if key in entries then entries else Live(entries, room)
  }

  /** Writes an entry once room has been made for its key. */
  function Write(maximum: nat, entries: Entries, key: Name, e: Entry, room: int, done: Reply): Step {
    match Reserve(maximum, entries, key, room)
    case None => Step(Cache(Swept(entries, key, room), false), CapacityReached)
    case Some(reserved) => Step(Cache(reserved[key := e], false), done)
  }

  function Bounded(maximum: nat, c: Cache, op: Op): Step {
    if op.Close? then Step(Cache(if c.closed then c.entries else map[], true), Done)
    else if !OpFits(op) then Step(c, Invalid)
    else if c.closed then Step(c, IsClosed)
    else
      match op
      case Get(key, now) =>
        if key !in c.entries then Step(c, NotFound)
        else if !Alive(c.entries[key], now) then Step(Cache(c.entries - {key}, false), NotFound)
        else Step(c, Value(c.entries[key].value))
      case Set(key, value, ttl, room, now) =>
        Write(maximum, c.entries, key, Entry(value, now + ttl), room, Done)
      case Delete(key) => Step(Cache(c.entries - {key}, false), Done)
      case Increment(key, ttl, now, room) =>
        if key in c.entries && Alive(c.entries[key], now) then
          (match Counted(c.entries[key])
           case None => Step(c, NotACounter)
           case Some(n) =>
             Step(Cache(c.entries[key := Entry(Name(FormatInt(n)), c.entries[key].deadline)], false), Count(n)))
        else Write(maximum, c.entries - {key}, key, Entry(ONE, now + ttl), room, Count(1))
      case Ping => Step(c, Done)
  }

  // ----- Refinement -------------------------------------------------------------------------

  /** The store holds no more than its maximum, only entries of the plain map, and all the live ones. */
  ghost predicate Agrees(maximum: nat, store: Entries, plain: Entries, now: int) {
    && |store| <= maximum
    && (forall k :: k in store ==> k in plain && plain[k] == store[k])
    && (forall k :: k in plain && Alive(plain[k], now) ==> k in store)
  }

  ghost predicate Related(maximum: nat, store: Cache, plain: Cache, now: int) {
    store.closed == plain.closed && (!store.closed ==> Agrees(maximum, store.entries, plain.entries, now))
  }

  function FirstReading(op: Op, last: int): int {
    match op
    case Get(_, now) => now
    case Set(_, _, _, room, _) => room
    case Delete(_) => last
    case Increment(_, _, now, _) => now
    case Ping => last
    case Close => last
  }

  function LastReading(op: Op, last: int): int {
    match op
    case Get(_, now) => now
    case Set(_, _, _, _, now) => now
    case Delete(_) => last
    case Increment(_, _, _, room) => room
    case Ping => last
    case Close => last
  }

  /** The readings of an operation follow those before it and each other. */
  predicate InOrder(op: Op, last: int) {
    last <= FirstReading(op, last) <= LastReading(op, last)
  }

  /** Live entries are the same on both sides, now and later. */
  lemma SameLive(maximum: nat, store: Entries, plain: Entries, now: int, later: int)
    requires Agrees(maximum, store, plain, now) && now <= later
    ensures Live(store, later) == Live(plain, later)
  {
  }

  lemma LiveSize(entries: Entries, now: int)
    ensures |Live(entries, now)| <= |entries|
    ensures forall k :: k in entries && !Alive(entries[k], now) ==> |Live(entries, now)| < |entries|
  {
    var live := Live(entries, now);
    assert live.Keys <= entries.Keys;
    SubsetSize(live.Keys, entries.Keys);
    assert |live.Keys| == |live| && |entries.Keys| == |entries|;
    forall k | k in entries && !Alive(entries[k], now) ensures |live| < |entries| {
      assert k !in live.Keys;
      assert live.Keys != entries.Keys;
    }
  }

  lemma AgreesLater(maximum: nat, store: Entries, plain: Entries, now: int, later: int)
    requires Agrees(maximum, store, plain, now) && now <= later
    ensures Agrees(maximum, store, plain, later)
  {
  }

  lemma AgreesSwept(maximum: nat, store: Entries, plain: Entries, now: int)
    requires Agrees(maximum, store, plain, now)
    ensures Agrees(maximum, Live(store, now), plain, now)
  {
    LiveSize(store, now);
  }

  lemma RemoveSize(entries: Entries, key: Name)
    ensures |entries - {key}| <= |entries|
  {
    assert (entries - {key}).Keys == entries.Keys - {key};
    SubsetSize((entries - {key}).Keys, entries.Keys);
    assert |(entries - {key}).Keys| == |entries - {key}| && |entries.Keys| == |entries|;
  }

  lemma AgreesRemoved(maximum: nat, store: Entries, plain: Entries, key: Name, now: int)
    requires Agrees(maximum, store, plain, now)
    ensures Agrees(maximum, store - {key}, plain - {key}, now)
    ensures key in plain && !Alive(plain[key], now) ==> Agrees(maximum, store - {key}, plain, now)
  {
    RemoveSize(store, key);
  }

  lemma AgreesWritten(maximum: nat, store: Entries, plain: Entries, key: Name, e: Entry, now: int)
    requires Agrees(maximum, store, plain, now) && (key in store || |store| < maximum)
    ensures Agrees(maximum, store[key := e], plain[key := e], now)
  {
    assert store[key := e].Keys == store.Keys + {key};
    assert |store[key := e].Keys| == |store[key := e]| && |store.Keys| == |store|;
    if key in store {
      assert store.Keys + {key} == store.Keys;
    }
  }

  /** The store makes room for a key exactly when the plain map has room for it. */
  lemma ReserveAgrees(maximum: nat, store: Entries, plain: Entries, key: Name, now: int, room: int)
    requires Agrees(maximum, store, plain, now) && now <= room
    ensures Reserve(maximum, store, key, room).Some? <==> HasRoom(maximum, plain, key, room)
    ensures match Reserve(maximum, store, key, room)
            case None => Agrees(maximum, Swept(store, key, room), plain, room)
            case Some(entries) => Agrees(maximum, entries, plain, room) && (key in entries || |entries| < maximum)
  {
    SameLive(maximum, store, plain, now, room);
    AgreesLater(maximum, store, plain, now, room);
    AgreesSwept(maximum, store, plain, room);
    LiveSize(store, room);
  }

  /** A write goes through exactly when the plain map has room, and keeps the two in agreement. */
  lemma WriteAgrees(maximum: nat, store: Entries, plain: Entries, key: Name, e: Entry, done: Reply, now: int, room: int)
    requires Agrees(maximum, store, plain, now) && now <= room && done != CapacityReached
    ensures var w := Write(maximum, store, key, e, room, done);
            if HasRoom(maximum, plain, key, room)
            then w.reply == done && Agrees(maximum, w.cache.entries, plain[key := e], room)
            else w.reply == CapacityReached && Agrees(maximum, w.cache.entries, plain, room)
  {
    ReserveAgrees(maximum, store, plain, key, now, room);
    match Reserve(maximum, store, key, room)
    case None =>
    case Some(entries) => AgreesWritten(maximum, entries, plain, key, e, room);
  }

  lemma SetRefines(maximum: nat, c: Cache, p: Cache, op: Op, last: int)
    requires Related(maximum, c, p, last) && !c.closed && op.Set? && OpFits(op) && InOrder(op, last)
    ensures Bounded(maximum, c, op).reply == Plain(maximum, p, op).reply
    ensures Related(maximum, Bounded(maximum, c, op).cache, Plain(maximum, p, op).cache, op.now)
  {
    var e := Entry(op.value, op.now + op.ttl);
    WriteAgrees(maximum, c.entries, p.entries, op.key, e, Done, last, op.room);
    var entries := Write(maximum, c.entries, op.key, e, op.room, Done).cache.entries;
    AgreesLater(maximum, entries, Plain(maximum, p, op).cache.entries, op.room, op.now);
  }

  /** Removing an expired key the plain map may still list keeps them in agreement. */
  lemma AgreesWithout(maximum: nat, store: Entries, plain: Entries, key: Name, now: int)
    requires Agrees(maximum, store, plain, now) && !(key in store && Alive(store[key], now))
    ensures Agrees(maximum, store - {key}, plain, now) && key !in Live(plain, now)
  {
    AgreesRemoved(maximum, store, plain, key, now);
  }

  lemma CountRefines(maximum: nat, c: Cache, p: Cache, op: Op, last: int)
    requires Related(maximum, c, p, last) && !c.closed && op.Increment? && OpFits(op) && InOrder(op, last)
    requires op.key in c.entries && Alive(c.entries[op.key], op.now)
    ensures Bounded(maximum, c, op).reply == Plain(maximum, p, op).reply
    ensures Related(maximum, Bounded(maximum, c, op).cache, Plain(maximum, p, op).cache, op.room)
  {
    SameLive(maximum, c.entries, p.entries, last, op.now);
    AgreesLater(maximum, c.entries, p.entries, last, op.room);
    match Counted(c.entries[op.key])
    case None =>
    case Some(n) =>
      var entry := Entry(Name(FormatInt(n)), c.entries[op.key].deadline);
      AgreesWritten(maximum, c.entries, p.entries, op.key, entry, op.room);
  }

  lemma StartRefines(maximum: nat, store: Entries, plain: Entries, key: Name, e: Entry, last: int, now: int, room: int)
    requires Agrees(maximum, store, plain, last) && last <= now <= room && !(key in store && Alive(store[key], now))
    ensures key !in Live(plain, now)
    ensures Write(maximum, store - {key}, key, e, room, Count(1)).reply == Begin(maximum, plain, key, e, room).reply
    ensures Agrees(maximum, Write(maximum, store - {key}, key, e, room, Count(1)).cache.entries,
                   Begin(maximum, plain, key, e, room).cache.entries, room)
    ensures !Write(maximum, store - {key}, key, e, room, Count(1)).cache.closed
  {
    AgreesLater(maximum, store, plain, last, now);
    AgreesWithout(maximum, store, plain, key, now);
    BeginAgrees(maximum, store - {key}, plain, key, e, now, room);
  }

  lemma BeginAgrees(maximum: nat, store: Entries, plain: Entries, key: Name, e: Entry, now: int, room: int)
    requires Agrees(maximum, store, plain, now) && key !in Live(plain, now) && now <= room
    ensures Write(maximum, store, key, e, room, Count(1)).reply == Begin(maximum, plain, key, e, room).reply
    ensures Agrees(maximum, Write(maximum, store, key, e, room, Count(1)).cache.entries,
                   Begin(maximum, plain, key, e, room).cache.entries, room)
    ensures !Write(maximum, store, key, e, room, Count(1)).cache.closed
  {
    StaysExpired(plain, key, now, room);
    WriteAgrees(maximum, store, plain, key, e, Count(1), now, room);
  }

  lemma StaysExpired(entries: Entries, key: Name, now: int, later: int)
    requires key !in Live(entries, now) && now <= later
    ensures key !in Live(entries, later)
  {
  }

  lemma GetRefines(maximum: nat, c: Cache, p: Cache, op: Op, last: int)
    requires Related(maximum, c, p, last) && !c.closed && op.Get? && OpFits(op) && InOrder(op, last)
    ensures Bounded(maximum, c, op).reply == Plain(maximum, p, op).reply
    ensures Related(maximum, Bounded(maximum, c, op).cache, Plain(maximum, p, op).cache, op.now)
  {
    AgreesLater(maximum, c.entries, p.entries, last, op.now);
    if !(op.key in c.entries && Alive(c.entries[op.key], op.now)) {
      AgreesWithout(maximum, c.entries, p.entries, op.key, op.now);
    }
  }

  /** One operation: the same reply, and agreement from its last reading on. */
  lemma StepRefines(maximum: nat, c: Cache, p: Cache, op: Op, last: int)
    requires Related(maximum, c, p, last) && InOrder(op, last)
    ensures Bounded(maximum, c, op).reply == Plain(maximum, p, op).reply
    ensures Related(maximum, Bounded(maximum, c, op).cache, Plain(maximum, p, op).cache, LastReading(op, last))
  {
    if !op.Close? && !c.closed && OpFits(op) {
      match op
      case Get(_, _) => GetRefines(maximum, c, p, op, last);
      case Set(_, _, _, _, _) => SetRefines(maximum, c, p, op, last);
      case Delete(key) => AgreesRemoved(maximum, c.entries, p.entries, key, last);
      case Increment(_, _, _, _) =>
        if op.key in c.entries && Alive(c.entries[op.key], op.now) {
          CountRefines(maximum, c, p, op, last);
        } else {
          StartRefines(maximum, c.entries, p.entries, op.key, Entry(ONE, op.now + op.ttl), last, op.now, op.room);
        }
      case Ping =>
    } else if !c.closed && !op.Close? {
      AgreesLater(maximum, c.entries, p.entries, last, LastReading(op, last));
    }
  }

  function RunBounded(maximum: nat, c: Cache, ops: seq<Op>): (replies: seq<Reply>)
    ensures |replies| == |ops|
    decreases ops
  {
    if ops == [] then [] else
      var s := Bounded(maximum, c, ops[0]);
      [s.reply] + RunBounded(maximum, s.cache, ops[1..])
  }

  function RunPlain(maximum: nat, p: Cache, ops: seq<Op>): (replies: seq<Reply>)
    ensures |replies| == |ops|
    decreases ops
  {
    if ops == [] then [] else
      var s := Plain(maximum, p, ops[0]);
      [s.reply] + RunPlain(maximum, s.cache, ops[1..])
  }

  predicate Timed(ops: seq<Op>, last: int) {
    ops == [] || (InOrder(ops[0], last) && Timed(ops[1..], LastReading(ops[0], last)))
  }

  /** No run with a non-decreasing clock can tell the store from the plain map. */
  lemma {:induction false} RunsAgree(maximum: nat, c: Cache, p: Cache, ops: seq<Op>, last: int)
    requires Related(maximum, c, p, last) && Timed(ops, last)
    ensures RunBounded(maximum, c, ops) == RunPlain(maximum, p, ops)
    decreases ops
  {
    if ops != [] {
      StepRefines(maximum, c, p, ops[0], last);
      RunsAgree(
        maximum, Bounded(maximum, c, ops[0]).cache, Plain(maximum, p, ops[0]).cache, ops[1..],
        LastReading(ops[0], last));
    }
  }

  /** From an empty store, in particular. */
  lemma EmptyRunsAgree(maximum: nat, ops: seq<Op>, last: int)
    requires Timed(ops, last)
    ensures RunBounded(maximum, Cache(map[], false), ops) == RunPlain(maximum, Cache(map[], false), ops)
  {
    RunsAgree(maximum, Cache(map[], false), Cache(map[], false), ops, last);
  }

  // ----- Counter windows --------------------------------------------------------------------

  predicate Increments(op: Op, key: Name) {
    op.Increment? && op.key == key && OpFits(op)
  }

  /** An operation whose clock readings are before the deadline and that leaves the key to increments. */
  predicate InWindow(op: Op, key: Name, deadline: int) {
    match op
    case Get(_, now) => now < deadline
    case Set(k, _, _, room, now) => k != key && room <= now < deadline
    case Delete(k) => k != key
    case Increment(_, _, now, room) => now <= room < deadline
    case Ping => true
    case Close => false
  }

  function CountIncrements(ops: seq<Op>, key: Name): nat {
    if ops == [] then 0 else (if Increments(ops[0], key) then 1 else 0) + CountIncrements(ops[1..], key)
  }

  /** The store after the operations. */
  function EndBounded(maximum: nat, c: Cache, ops: seq<Op>): Cache
    decreases ops
  {
    if ops == [] then c else EndBounded(maximum, Bounded(maximum, c, ops[0]).cache, ops[1..])
  }

  ghost predicate Counter(c: Cache, key: Name, n: int, deadline: int) {
    !c.closed && key in c.entries && c.entries[key] == Entry(Name(FormatInt(n)), deadline)
  }

  lemma WriteSpares(maximum: nat, entries: Entries, other: Name, e: Entry, room: int, done: Reply, key: Name)
    requires key in entries && Alive(entries[key], room) && other != key
    ensures var after := Write(maximum, entries, other, e, room, done).cache;
            !after.closed && key in after.entries && after.entries[key] == entries[key]
  {
  }

  /** One operation inside the window: an increment counts on, everything else spares the counter. */
  lemma WindowStep(maximum: nat, c: Cache, op: Op, key: Name, n: int, deadline: int)
    requires Counter(c, key, n, deadline) && InWindow(op, key, deadline) && 0 <= n
    requires Increments(op, key) ==> n < MAX_INT64
    ensures Counter(Bounded(maximum, c, op).cache, key, if Increments(op, key) then n + 1 else n, deadline)
    ensures Increments(op, key) ==> Bounded(maximum, c, op).reply == Count(n + 1)
  {
    if OpFits(op) {
      match op
      case Get(_, _) =>
      case Set(k, value, ttl, room, now) =>
        WriteSpares(maximum, c.entries, k, Entry(value, now + ttl), room, Done, key);
      case Delete(_) =>
      case Increment(k, ttl, now, room) =>
        if k == key {
          ParseFormat(n);
        } else {
          WriteSpares(maximum, c.entries - {k}, k, Entry(ONE, now + ttl), room, Count(1), key);
        }
      case Ping =>
    }
  }

  /** A window that stands at n: the replies count on from n, and the deadline stays. */
  lemma {:induction false} WindowCounts(maximum: nat, c: Cache, ops: seq<Op>, key: Name, n: int, deadline: int)
    requires Counter(c, key, n, deadline) && 0 <= n && n + CountIncrements(ops, key) <= MAX_INT64
    requires forall j :: 0 <= j < |ops| ==> InWindow(ops[j], key, deadline)
    ensures Counter(EndBounded(maximum, c, ops), key, n + CountIncrements(ops, key), deadline)
    ensures forall i :: 0 <= i < |ops| && Increments(ops[i], key) ==>
              RunBounded(maximum, c, ops)[i] == Count(n + CountIncrements(ops[..i + 1], key))
    decreases ops
  {
    if ops != [] {
      WindowStep(maximum, c, ops[0], key, n, deadline);
      var s, m := Bounded(maximum, c, ops[0]), if Increments(ops[0], key) then n + 1 else n;
      WindowCounts(maximum, s.cache, ops[1..], key, m, deadline);
      forall i | 0 <= i < |ops| && Increments(ops[i], key)
        ensures RunBounded(maximum, c, ops)[i] == Count(n + CountIncrements(ops[..i + 1], key))
      {
        assert ops[..i + 1][1..] == ops[1..][..i];
        if i > 0 {
          assert ops[1..][i - 1] == ops[i];
          assert RunBounded(maximum, c, ops)[i] == RunBounded(maximum, s.cache, ops[1..])[i - 1];
        } else {
          assert ops[1..][..0] == [];
        }
      }
    }
  }

  /** The first increment of a key that is not live opens a window at one, if there is room. */
  lemma WindowOpens(maximum: nat, c: Cache, op: Op)
    requires !c.closed && op.Increment? && OpFits(op) && op.now <= op.room
    requires op.key !in Live(c.entries, op.now) && |Live(c.entries, op.room)| < maximum
    ensures Bounded(maximum, c, op).reply == Count(1)
    ensures Counter(Bounded(maximum, c, op).cache, op.key, 1, op.now + op.ttl)
  {
    assert FormatInt(1) == "1";
    assert c.entries - {op.key} == c.entries || op.key in c.entries;
    LiveWithout(c.entries, op.key, op.room);
  }

  lemma LiveWithout(entries: Entries, key: Name, now: int)
    ensures |Live(entries - {key}, now)| <= |Live(entries, now)|
  {
    var a, b := Live(entries - {key}, now), Live(entries, now);
    assert a.Keys <= b.Keys;
    SubsetSize(a.Keys, b.Keys);
    assert |a.Keys| == |a| && |b.Keys| == |b|;
  }

  lemma {:induction false} RunConcat(maximum: nat, c: Cache, a: seq<Op>, b: seq<Op>)
    ensures RunBounded(maximum, c, a + b)
         == RunBounded(maximum, c, a) + RunBounded(maximum, EndBounded(maximum, c, a), b)
    ensures EndBounded(maximum, c, a + b) == EndBounded(maximum, EndBounded(maximum, c, a), b)
    decreases a
  {
    if a == [] {
      assert a + b == b;
    } else {
      assert (a + b)[1..] == a[1..] + b;
      RunConcat(maximum, Bounded(maximum, c, a[0]).cache, a[1..], b);
    }
  }

  /**
    From the empty store: after any operations, an increment of a key that is not live opens a window
    when there is room; in it, as long as only increments write the key, the i-th further increment
    replies i + 1, and at the end the entry still has the deadline the window opened with.
   */
  lemma IncrementsCount(maximum: nat, prefix: seq<Op>, first: Op, rest: seq<Op>)
    requires var c := EndBounded(maximum, Cache(map[], false), prefix);
             && !c.closed && first.Increment? && OpFits(first) && first.now <= first.room
             && first.key !in Live(c.entries, first.now) && |Live(c.entries, first.room)| < maximum
    requires forall j :: 0 <= j < |rest| ==> InWindow(rest[j], first.key, first.now + first.ttl)
    requires 1 + CountIncrements(rest, first.key) <= MAX_INT64
    ensures var ops := prefix + ([first] + rest);
            var replies := RunBounded(maximum, Cache(map[], false), ops);
            && replies[|prefix|] == Count(1)
            && (forall i :: 0 <= i < |rest| && Increments(rest[i], first.key) ==>
                  replies[|prefix| + 1 + i] == Count(1 + CountIncrements(rest[..i + 1], first.key)))
            && Counter(EndBounded(maximum, Cache(map[], false), ops), first.key,
                       1 + CountIncrements(rest, first.key), first.now + first.ttl)
  {
    var c := EndBounded(maximum, Cache(map[], false), prefix);
    RunConcat(maximum, Cache(map[], false), prefix, [first] + rest);
    WindowOpens(maximum, c, first);
    var s := Bounded(maximum, c, first);
    assert ([first] + rest)[1..] == rest;
    assert RunBounded(maximum, c, [first] + rest) == [s.reply] + RunBounded(maximum, s.cache, rest);
    WindowCounts(maximum, s.cache, rest, first.key, 1, first.now + first.ttl);
  }

  // ----- The store as an object -------------------------------------------------------------

  class MemoryStore {
    const maxEntries: nat
    var entries: Entries
    var closed: bool

    constructor (capacity: nat)
      ensures maxEntries == capacity && entries == map[] && !closed
    {
      maxEntries := capacity;
      entries := map[];
      closed := false;
    }

    /** Deletes every expired entry. */
    method RemoveExpired(now: int)
      modifies this`entries
      ensures entries == Live(old(entries), now)
    {
      var rest := entries.Keys;
      while rest != {}
        invariant rest <= old(entries).Keys
        invariant forall k :: k in entries <==> k in old(entries) && (k in rest || Alive(old(entries)[k], now))
        invariant forall k :: k in entries ==> entries[k] == old(entries)[k]
      {
        var key :| key in rest;
        if key in entries && !Alive(entries[key], now) {
          entries := entries - {key};
        }
        rest := rest - {key};
      }
    }

    method ReserveRoom(key: Name, room: int) returns (ok: bool)
      modifies this`entries
      ensures ok <==> Reserve(maxEntries, old(entries), key, room).Some?
      ensures entries == Swept(old(entries), key, room)
    {
      if key in entries {
        return true;
      }
      RemoveExpired(room);
      ok := |entries| < maxEntries;
    }

    method GetValue(key: Name, now: int) returns (reply: Reply)
      modifies this
      ensures Step(Cache(entries, closed), reply) == Bounded(maxEntries, old(Cache(entries, closed)), Get(key, now))
    {
      if !KeyFits(key) {
        return Invalid;
      }
      if closed {
        return IsClosed;
      }
      if key !in entries {
        return NotFound;
      }
      if !Alive(entries[key], now) {
        entries := entries - {key};
        return NotFound;
      }
      return Value(entries[key].value);
    }

    method SetValue(key: Name, value: Name, ttl: int, room: int, now: int) returns (reply: Reply)
      modifies this
      ensures Step(Cache(entries, closed), reply)
           == Bounded(maxEntries, old(Cache(entries, closed)), Set(key, value, ttl, room, now))
    {
      if !KeyFits(key) || ttl < MILLISECOND {
        return Invalid;
      }
      if closed {
        return IsClosed;
      }
      var ok := ReserveRoom(key, room);
      if !ok {
        return CapacityReached;
      }
      entries := entries[key := Entry(value, now + ttl)];
      return Done;
    }

    method DeleteValue(key: Name) returns (reply: Reply)
      modifies this
      ensures Step(Cache(entries, closed), reply) == Bounded(maxEntries, old(Cache(entries, closed)), Delete(key))
    {
      if !KeyFits(key) {
        return Invalid;
      }
      if closed {
        return IsClosed;
      }
      entries := entries - {key};
      return Done;
    }

    method IncrementValue(key: Name, ttl: int, now: int, room: int) returns (reply: Reply)
      modifies this
      ensures Step(Cache(entries, closed), reply)
           == Bounded(maxEntries, old(Cache(entries, closed)), Increment(key, ttl, now, room))
    {
      if !KeyFits(key) || ttl < MILLISECOND {
        return Invalid;
      }
      if closed {
        return IsClosed;
      }
      if key in entries && Alive(entries[key], now) {
        var counted := Counted(entries[key]);
        if counted.None? {
          return NotACounter;
        }
        entries := entries[key := Entry(Name(FormatInt(counted.value)), entries[key].deadline)];
        return Count(counted.value);
      }
      entries := entries - {key};
      var ok := ReserveRoom(key, room);
      if !ok {
        return CapacityReached;
      }
      entries := entries[key := Entry(ONE, now + ttl)];
      return Count(1);
    }

    method CloseStore() returns (reply: Reply)
      modifies this
      ensures Step(Cache(entries, closed), reply) == Bounded(maxEntries, old(Cache(entries, closed)), Close)
    {
      if !closed {
        closed := true;
        entries := map[];
      }
      return Done;
    }
  }
}
