/**
  What readers of the memory store see, over whole runs of it: a value that was set is read until its
  deadline and not after it, a deleted key is gone, and a closed store answers nothing more.
 */
module CacheLaws {
  import opened Text
  import opened Ordering
  import opened MemoryCache

  /** The operation may change what is stored under the key. */
  predicate Touches(op: Op, key: Name) {
    match op
    case Set(k, _, _, _, _) => k == key
    case Delete(k) => k == key
    case Increment(k, _, _, _) => k == key
    case Close => true
    case Get(_, _) => false
    case Ping => false
  }

  ghost predicate Spares(ops: seq<Op>, key: Name) {
    forall i :: 0 <= i < |ops| ==> !Touches(ops[i], key)
  }

  function EndPlain(maximum: nat, c: Cache, ops: seq<Op>): Cache
    decreases ops
  {
    if ops == [] then c else EndPlain(maximum, Plain(maximum, c, ops[0]).cache, ops[1..])
  }

  lemma {:induction false} PlainConcat(maximum: nat, c: Cache, a: seq<Op>, b: seq<Op>)
    ensures RunPlain(maximum, c, a + b) == RunPlain(maximum, c, a) + RunPlain(maximum, EndPlain(maximum, c, a), b)
    ensures EndPlain(maximum, c, a + b) == EndPlain(maximum, EndPlain(maximum, c, a), b)
    decreases a
  {
    if a == [] {
      assert a + b == b;
    } else {
      assert (a + b)[1..] == a[1..] + b;
      PlainConcat(maximum, Plain(maximum, c, a[0]).cache, a[1..], b);
    }
  }

  /** What is stored under the key, if anything. */
  function Stored(c: Cache, key: Name): Option<Entry> {
    if key in c.entries then Some(c.entries[key]) else None
  }

  lemma SparedStep(maximum: nat, c: Cache, op: Op, key: Name)
    requires !Touches(op, key)
    ensures Stored(Plain(maximum, c, op).cache, key) == Stored(c, key) && Plain(maximum, c, op).cache.closed == c.closed
  {
  }

  lemma {:induction false} Spared(maximum: nat, c: Cache, ops: seq<Op>, key: Name)
    requires Spares(ops, key)
    ensures Stored(EndPlain(maximum, c, ops), key) == Stored(c, key) && EndPlain(maximum, c, ops).closed == c.closed
    decreases ops
  {
    if ops != [] {
      SparedStep(maximum, c, ops[0], key);
      Spared(maximum, Plain(maximum, c, ops[0]).cache, ops[1..], key);
    }
  }

  /** Operations, a write, operations that spare its key, and a read of it. */
  function History(before: seq<Op>, write: Op, between: seq<Op>, read: Op): seq<Op> {
    before + ([write] + (between + [read]))
  }

  lemma HistoryReplies(maximum: nat, c: Cache, before: seq<Op>, write: Op, between: seq<Op>, read: Op)
    ensures var replies := RunPlain(maximum, c, History(before, write, between, read));
            var at := EndPlain(maximum, c, before);
            var end := EndPlain(maximum, Plain(maximum, at, write).cache, between);
            && |replies| == |before| + |between| + 2 && replies[|before|] == Plain(maximum, at, write).reply
            && replies[|before| + |between| + 1] == Plain(maximum, end, read).reply
  {
    var at, rest := EndPlain(maximum, c, before), between + [read];
    PlainConcat(maximum, c, before, [write] + rest);
    assert ([write] + rest)[1..] == rest;
    PlainConcat(maximum, Plain(maximum, at, write).cache, between, [read]);
  }

  predicate Reads(op: Op, key: Name) {
    op.Get? && op.key == key && OpFits(op)
  }

  /**
    In every run of the store from empty, with a clock that does not go back: after a value has been set, and
    until something else writes its key, it is read exactly before the deadline, the setting's time plus its
    time to live.
   */
  lemma SetIsRead(maximum: nat, before: seq<Op>, write: Op, between: seq<Op>, read: Op, last: int)
    requires write.Set? && Reads(read, write.key) && Spares(between, write.key)
    requires Timed(History(before, write, between, read), last)
    requires RunBounded(maximum, Cache(map[], false), History(before, write, between, read))[|before|] == Done
    ensures RunBounded(maximum, Cache(map[], false), History(before, write, between, read))[|before| + |between| + 1]
         == if read.now < write.now + write.ttl then Value(write.value) else NotFound
  {
    var start := Cache(map[], false);
    EmptyRunsAgree(maximum, History(before, write, between, read), last);
    HistoryReplies(maximum, start, before, write, between, read);
    var at := EndPlain(maximum, start, before);
    Spared(maximum, Plain(maximum, at, write).cache, between, write.key);
  }

  /** A deleted key is not found until it is written again. */
  lemma DeletedIsGone(maximum: nat, before: seq<Op>, write: Op, between: seq<Op>, read: Op, last: int)
    requires write.Delete? && Reads(read, write.key) && Spares(between, write.key)
    requires Timed(History(before, write, between, read), last)
    requires RunBounded(maximum, Cache(map[], false), History(before, write, between, read))[|before|] == Done
    ensures RunBounded(maximum, Cache(map[], false), History(before, write, between, read))[|before| + |between| + 1]
         == NotFound
  {
    var start := Cache(map[], false);
    EmptyRunsAgree(maximum, History(before, write, between, read), last);
    HistoryReplies(maximum, start, before, write, between, read);
    Spared(maximum, Plain(maximum, EndPlain(maximum, start, before), write).cache, between, write.key);
  }

  /** A value is set exactly when the store is open, the input fits, and the key is live or there is room. */
  lemma SetExactly(maximum: nat, c: Cache, op: Op)
    requires op.Set?
    ensures Plain(maximum, c, op).reply == Done <==>
              && !c.closed && 1 <= ByteLength(op.key.text) <= 1024 && op.ttl >= 1_000_000
              && (op.key in Live(c.entries, op.room) || |Live(c.entries, op.room)| < maximum)
  {
  }

  /** Once closed, every further operation is refused, apart from closing again. */
  lemma {:induction false} ClosedStays(maximum: nat, c: Cache, ops: seq<Op>, i: nat)
    requires c.closed && i < |ops|
    ensures RunBounded(maximum, c, ops)[i]
         == if ops[i].Close? then Done else if OpFits(ops[i]) then IsClosed else Invalid
    decreases ops
  {
    if i > 0 {
      ClosedStays(maximum, Bounded(maximum, c, ops[0]).cache, ops[1..], i - 1);
    }
  }
}
