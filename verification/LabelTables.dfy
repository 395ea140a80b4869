/**
  The label batch service's shared state: three bounded first-in-first-out tables holding the
  remembered request digests, the replay records and the rendered batches, with the two critical
  sections that read and update them.

  Look is the first section: it decides whether a request conflicts, is answered from the cache,
  resumes from a replay record, or is fresh. Committed is the second: it remembers the request
  and caches its batch. LabelCache performs both on mutable fields.
 */
module LabelTables {
  import opened Sequences
  import opened LabelRequests

  const MAXIMUM_CACHED_BATCHES: nat := 128
  const MAXIMUM_CACHED_BYTES: nat := 0x80_0000
  const MAXIMUM_REMEMBERED: nat := 4096
  const MAXIMUM_ARTIFACT_BYTES: nat := 0x40_0000

  /** An idempotency key. */
  datatype Key = Key(text: string)

  datatype LabelTemplate = LabelTemplate(
    id: string, version: nat, name: string, description: string, geometry: seq<real>, symbology: string,
    payloadSource: string, safeAssetFields: seq<string>, branding: string)

  datatype LabelRecord = LabelRecord(
    identifierId: string, assetId: string, encodedPayload: string, humanReadable: string,
    assetName: string, assetTag: string, branding: string)

  /** createdAt 0 stands for the zero time. */
  datatype LabelBatch = LabelBatch(
    id: string, template: LabelTemplate, output: Output, testPrint: bool, itemCount: nat, mediaType: string,
    fileName: string, contents: seq<bv8>, sha256: string, createdAt: int)

  datatype CacheEntry = CacheEntry(digest: Digest, batch: LabelBatch)

  datatype ReplayEntry = ReplayEntry(
    digest: Digest, template: LabelTemplate, records: seq<LabelRecord>, createdAt: int)

  /** The rendered batches in insertion order, and the byte counter over them. */
  datatype Batches = Batches(entries: map<Key, CacheEntry>, order: seq<Key>, bytes: int)

  /** The remembered digests and the replay records. */
  datatype Requests = Requests(remembered: Window<Key, Digest>, replays: Window<Key, ReplayEntry>)

  datatype Tables = Tables(requests: Requests, batches: Batches)

  const EMPTY := Tables(Requests(Window([], map[]), Window([], map[])), Batches(map[], [], 0))

  // ----- The first critical section ---------------------------------------------------------

  datatype Finding = Conflict | Expired | Hit(batch: LabelBatch) | Resume(replay: ReplayEntry) | Fresh

  function Look(t: Tables, key: Key, digest: Digest): Finding {
    if key in t.requests.remembered.entries && t.requests.remembered.entries[key] != digest then Conflict
    else if key in t.batches.entries then
      if t.batches.entries[key].digest != digest then Conflict else Hit(t.batches.entries[key].batch)
    else if key in t.requests.remembered.entries then
      if key !in t.requests.replays.entries || t.requests.replays.entries[key].digest != digest then Expired
      else Resume(t.requests.replays.entries[key])
    else Fresh
  }

  // ----- The second critical section --------------------------------------------------------

  predicate Overfull(b: Batches) {
    |b.order| > MAXIMUM_CACHED_BATCHES || b.bytes > MAXIMUM_CACHED_BYTES
  }

  function Size(b: Batches, key: Key): nat {
    if key in b.entries then |b.entries[key].batch.contents| else 0
  }

  function EvictOldest(b: Batches): Batches
    requires b.order != []
  {
    Batches(b.entries - {b.order[0]}, b.order[1..], b.bytes - Size(b, b.order[0]))
  }

  function Evict(b: Batches): Batches
    decreases |b.order|
  {
    if Overfull(b) && b.order != [] then Evict(EvictOldest(b)) else b
  }

  function Insert(b: Batches, key: Key, entry: CacheEntry): Batches {
    Batches(b.entries[key := entry], b.order + [key], b.bytes + |entry.batch.contents|)
  }

  /** Remembers a request and its replay record, forgetting the oldest beyond each window. */
  function Remember(r: Requests, key: Key, replay: ReplayEntry): Requests {
    Requests(Push(r.remembered, key, replay.digest, MAXIMUM_REMEMBERED),
             Push(r.replays, key, replay, MAXIMUM_CACHED_BATCHES))
  }

  datatype Outcome = Refused | Existing(batch: LabelBatch) | Stored(batch: LabelBatch, created: bool)

  function Decide(t: Tables, key: Key, digest: Digest, batch: LabelBatch): Outcome {
    if key in t.requests.remembered.entries && t.requests.remembered.entries[key] != digest then Refused
    else if key in t.batches.entries then
      if t.batches.entries[key].digest != digest then Refused else Existing(t.batches.entries[key].batch)
    else Stored(batch, key !in t.requests.remembered.entries)
  }

  /** The requests after a commit that stores: a new key is remembered. */
  function RequestsAfter(r: Requests, key: Key, replay: ReplayEntry): Requests {
    if key in r.remembered.entries then r else Remember(r, key, replay)
  }

  function Committed(t: Tables, key: Key, replay: ReplayEntry, batch: LabelBatch): Tables {
    if Decide(t, key, replay.digest, batch).Stored? then
      Tables(RequestsAfter(t.requests, key, replay),
             Evict(Insert(t.batches, key, CacheEntry(replay.digest, batch))))
    else
      t
  }

  // ----- The invariant ----------------------------------------------------------------------

  function SizeOf(entries: map<Key, CacheEntry>, key: Key): nat {
    if key in entries then |entries[key].batch.contents| else 0
  }

  function TotalBytes(order: seq<Key>, entries: map<Key, CacheEntry>): nat {
    if order == [] then 0 else SizeOf(entries, order[0]) + TotalBytes(order[1..], entries)
  }

  predicate FitsArtifact(batch: LabelBatch) {
    1 <= |batch.contents| <= MAXIMUM_ARTIFACT_BYTES
  }

  /** The order list is exactly the table's keys, the counter exactly the cached bytes. */
  ghost predicate BatchesConsistent(b: Batches) {
    && Lists(b.order, b.entries.Keys)
    && b.bytes == TotalBytes(b.order, b.entries)
    && forall k :: k in b.entries ==> FitsArtifact(b.entries[k].batch)
  }

  /** Replays are kept for exactly the most recent of the remembered requests. */
  ghost predicate RequestsConsistent(r: Requests) {
    && WindowConsistent(r.remembered)
    && |r.remembered.order| <= MAXIMUM_REMEMBERED
    && r.replays.order == KeepLast(r.remembered.order, MAXIMUM_CACHED_BATCHES)
    && WindowConsistent(r.replays)
    && ReplayDigestsAgree(r)
  }

  ghost predicate ReplayDigestsAgree(r: Requests) {
    forall k :: k in r.replays.entries && k in r.remembered.entries ==>
                  r.replays.entries[k].digest == r.remembered.entries[k]
  }

  ghost predicate Consistent(t: Tables) {
    && BatchesConsistent(t.batches)
    && !Overfull(t.batches)
    && RequestsConsistent(t.requests)
    && CachedDigestsAgree(t.requests.remembered.entries, t.batches.entries)
  }

  ghost predicate CachedDigestsAgree(digests: map<Key, Digest>, entries: map<Key, CacheEntry>) {
    forall k :: k in entries && k in digests ==> entries[k].digest == digests[k]
  }

  lemma EmptyConsistent()
    ensures Consistent(EMPTY)
  {
  }

  // ----- Preservation: batches --------------------------------------------------------------

  lemma {:induction false} TotalBytesFrame(order: seq<Key>, a: map<Key, CacheEntry>, b: map<Key, CacheEntry>)
    requires forall i :: 0 <= i < |order| ==> SizeOf(a, order[i]) == SizeOf(b, order[i])
    ensures TotalBytes(order, a) == TotalBytes(order, b)
  {
    if order != [] {
      TotalBytesFrame(order[1..], a, b);
    }
  }

  lemma {:induction false} TotalBytesAppend(order: seq<Key>, key: Key, entries: map<Key, CacheEntry>)
    ensures TotalBytes(order + [key], entries) == TotalBytes(order, entries) + SizeOf(entries, key)
  {
    if order == [] {
      assert order + [key] == [key];
    } else {
      assert (order + [key])[1..] == order[1..] + [key];
      TotalBytesAppend(order[1..], key, entries);
    }
  }

  /** An entry under a key that is not listed does not change the sum of those listed. */
  lemma TotalBytesOther(order: seq<Key>, a: map<Key, CacheEntry>, b: map<Key, CacheEntry>, key: Key)
    requires key !in Elements(order) && forall k :: k != key ==> SizeOf(a, k) == SizeOf(b, k)
    ensures TotalBytes(order, a) == TotalBytes(order, b)
  {
    forall i | 0 <= i < |order| ensures SizeOf(a, order[i]) == SizeOf(b, order[i]) {
      assert order[i] in Elements(order);
    }
    TotalBytesFrame(order, a, b);
  }

  lemma InsertConsistent(b: Batches, key: Key, entry: CacheEntry)
    requires BatchesConsistent(b) && key !in b.entries && FitsArtifact(entry.batch)
    ensures BatchesConsistent(Insert(b, key, entry))
  {
    var entries := b.entries[key := entry];
    ListsAppend(b.order, b.entries.Keys, key);
    assert entries.Keys == b.entries.Keys + {key};
    TotalBytesOther(b.order, b.entries, entries, key);
    TotalBytesAppend(b.order, key, entries);
  }

  lemma EvictOldestConsistent(b: Batches)
    requires BatchesConsistent(b) && b.order != []
    ensures BatchesConsistent(EvictOldest(b))
  {
    var oldest, entries := b.order[0], b.entries - {b.order[0]};
    ListsTail(b.order, b.entries.Keys);
    assert entries.Keys == b.entries.Keys - {oldest};
    TotalBytesOther(b.order[1..], b.entries, entries, oldest);
  }

  lemma {:induction false} EvictConsistent(b: Batches)
    requires BatchesConsistent(b)
    ensures BatchesConsistent(Evict(b)) && !Overfull(Evict(b))
    decreases |b.order|
  {
    if Overfull(b) && b.order != [] {
      EvictOldestConsistent(b);
      EvictConsistent(EvictOldest(b));
    }
  }

  /**
    Eviction keeps the longest suffix of the insertion order that fits both bounds: a suffix is
    kept, and had the last key dropped been kept too, it would not have fitted.
   */
  lemma {:induction false} EvictKeepsLongestSuffix(b: Batches) returns (n: nat)
    requires BatchesConsistent(b)
    ensures n <= |b.order| && Evict(b).order == b.order[n..]
    ensures forall k :: k in Evict(b).entries ==> k in b.entries && Evict(b).entries[k] == b.entries[k]
    ensures n > 0 ==> |b.order| - (n - 1) > 128 || TotalBytes(b.order[n - 1..], b.entries) > 8 * 1024 * 1024
    decreases |b.order|
  {
    if Overfull(b) && b.order != [] {
      var c := EvictOldest(b);
      EvictOldestConsistent(b);
      var m := EvictKeepsLongestSuffix(c);
      n := m + 1;
      assert c.order[m..] == b.order[n..];
      if m == 0 {
        assert b.order[n - 1..] == b.order;
      } else {
        SuffixBytes(b, m);
      }
    } else {
      n := 0;
    }
  }

  lemma SuffixBytes(b: Batches, m: nat)
    requires BatchesConsistent(b) && 0 < m <= |b.order|
    ensures TotalBytes(b.order[m..], b.entries) == TotalBytes(EvictOldest(b).order[m - 1..], EvictOldest(b).entries)
  {
    var suffix := b.order[m..];
    assert b.order[1..][m - 1..] == suffix;
    ListsTail(b.order, b.entries.Keys);
    assert forall k :: k in Elements(suffix) ==> k in Elements(b.order[1..]);
    TotalBytesOther(suffix, b.entries, b.entries - {b.order[0]}, b.order[0]);
  }

  lemma NewestFits(b: Batches, key: Key, entry: CacheEntry, n: nat)
    requires FitsArtifact(entry.batch) && n <= |b.order| + 1
    requires n > 0 ==>
               || |b.order| + 1 - (n - 1) > MAXIMUM_CACHED_BATCHES
               || TotalBytes((b.order + [key])[n - 1..], b.entries[key := entry]) > MAXIMUM_CACHED_BYTES
    ensures n <= |b.order|
  {
    assert (b.order + [key])[|b.order|..] == [key] && [key][1..] == [];
    assert TotalBytes([key], b.entries[key := entry]) == |entry.batch.contents|;
  }

  /** The last of the insertion order is the last of any suffix that is left, and is kept as it was. */
  lemma LastKept(c: Batches, d: Batches, n: nat, key: Key)
    requires BatchesConsistent(d) && n < |c.order| && d.order == c.order[n..] && c.order[|c.order| - 1] == key
    requires forall k :: k in d.entries ==> k in c.entries && d.entries[k] == c.entries[k]
    ensures key in d.entries && d.entries[key] == c.entries[key]
    ensures d.order != [] && d.order[|d.order| - 1] == key
  {
    assert d.order[|d.order| - 1] in Elements(d.order);
  }

  /** The batch just inserted is the newest, and survives its own eviction loop. */
  lemma InsertedSurvives(b: Batches, key: Key, entry: CacheEntry)
    requires BatchesConsistent(b) && key !in b.entries && FitsArtifact(entry.batch)
    ensures var c := Evict(Insert(b, key, entry));
            && key in c.entries && c.entries[key] == entry
            && c.order != [] && c.order[|c.order| - 1] == key
  {
    var c := Insert(b, key, entry);
    InsertConsistent(b, key, entry);
    var n := EvictKeepsLongestSuffix(c);
    EvictConsistent(c);
    SurvivesIn(b, key, entry, Evict(c), n);
  }

  lemma SurvivesIn(b: Batches, key: Key, entry: CacheEntry, d: Batches, n: nat)
    requires FitsArtifact(entry.batch) && BatchesConsistent(d) && n <= |b.order| + 1
    requires d.order == (b.order + [key])[n..]
    requires forall k :: k in d.entries ==> k in b.entries[key := entry] && d.entries[k] == b.entries[key := entry][k]
    requires n > 0 ==>
               || |b.order| + 1 - (n - 1) > MAXIMUM_CACHED_BATCHES
               || TotalBytes((b.order + [key])[n - 1..], b.entries[key := entry]) > MAXIMUM_CACHED_BYTES
    ensures key in d.entries && d.entries[key] == entry
    ensures d.order != [] && d.order[|d.order| - 1] == key
  {
    NewestFits(b, key, entry, n);
    LastKept(Insert(b, key, entry), d, n, key);
  }

  // ----- Preservation: requests -------------------------------------------------------------

  lemma ReplaysAreRemembered(r: Requests)
    requires RequestsConsistent(r)
    ensures r.replays.entries.Keys <= r.remembered.entries.Keys
  {
    forall k | k in Elements(r.replays.order)
      ensures k in Elements(r.remembered.order)
    {
    }
  }

  lemma RememberConsistent(r: Requests, key: Key, replay: ReplayEntry)
    requires RequestsConsistent(r) && key !in r.remembered.entries
    ensures RequestsConsistent(Remember(r, key, replay))
  {
    ReplaysAreRemembered(r);
    PushConsistent(r.remembered, key, replay.digest, MAXIMUM_REMEMBERED);
    PushConsistent(r.replays, key, replay, MAXIMUM_CACHED_BATCHES);
    PushKeepsOthers(r.remembered, key, replay.digest, MAXIMUM_REMEMBERED);
    PushKeepsOthers(r.replays, key, replay, MAXIMUM_CACHED_BATCHES);
    KeepLastOfKeepLast(r.remembered.order, key, MAXIMUM_REMEMBERED, MAXIMUM_CACHED_BATCHES);
  }

  lemma InsertEvictConsistent(b: Batches, key: Key, entry: CacheEntry)
    requires BatchesConsistent(b) && key !in b.entries && FitsArtifact(entry.batch)
    ensures var c := Evict(Insert(b, key, entry));
            && BatchesConsistent(c) && !Overfull(c)
            && (forall k :: k in c.entries && k != key ==> k in b.entries && c.entries[k] == b.entries[k])
            && key in c.entries && c.entries[key] == entry
            && c.order != [] && c.order[|c.order| - 1] == key
  {
    InsertConsistent(b, key, entry);
    EvictConsistent(Insert(b, key, entry));
    var n := EvictKeepsLongestSuffix(Insert(b, key, entry));
    InsertedSurvives(b, key, entry);
  }

  lemma RequestsAfterConsistent(r: Requests, key: Key, replay: ReplayEntry)
    requires RequestsConsistent(r)
    ensures RequestsConsistent(RequestsAfter(r, key, replay))
  {
    if key !in r.remembered.entries {
      RememberConsistent(r, key, replay);
    }
  }

  lemma RequestsAfterEntries(r: Requests, key: Key, replay: ReplayEntry)
    requires WindowConsistent(r.remembered)
    requires key in r.remembered.entries ==> r.remembered.entries[key] == replay.digest
    ensures var u := RequestsAfter(r, key, replay).remembered.entries;
            && key in u && u[key] == replay.digest
            && forall k :: k in u && k != key ==> k in r.remembered.entries && u[k] == r.remembered.entries[k]
  {
    if key !in r.remembered.entries {
      PushConsistent(r.remembered, key, replay.digest, MAXIMUM_REMEMBERED);
      PushKeepsOthers(r.remembered, key, replay.digest, MAXIMUM_REMEMBERED);
    }
  }

  lemma AgreementKept(
      digests: map<Key, Digest>, entries: map<Key, CacheEntry>, key: Key, digest: Digest,
      digests': map<Key, Digest>, entries': map<Key, CacheEntry>)
    requires CachedDigestsAgree(digests, entries)
    requires forall k :: k in digests' && k != key ==> k in digests && digests'[k] == digests[k]
    requires forall k :: k in entries' && k != key ==> k in entries && entries'[k] == entries[k]
    requires key in digests' ==> digests'[key] == digest
    requires key in entries' ==> entries'[key].digest == digest
    ensures CachedDigestsAgree(digests', entries')
  {
  }

  lemma StoredConsistent(t: Tables, key: Key, digest: Digest, requests: Requests, batches: Batches)
    requires Consistent(t) && RequestsConsistent(requests) && BatchesConsistent(batches) && !Overfull(batches)
    requires key in requests.remembered.entries && requests.remembered.entries[key] == digest
    requires key in batches.entries && batches.entries[key].digest == digest
    requires forall k :: k in requests.remembered.entries && k != key ==>
               k in t.requests.remembered.entries && requests.remembered.entries[k] == t.requests.remembered.entries[k]
    requires forall k :: k in batches.entries && k != key ==>
               k in t.batches.entries && batches.entries[k] == t.batches.entries[k]
    ensures Consistent(Tables(requests, batches))
  {
    AgreementKept(t.requests.remembered.entries, t.batches.entries, key, digest,
                  requests.remembered.entries, batches.entries);
  }

  lemma StoringConsistent(t: Tables, key: Key, replay: ReplayEntry, batch: LabelBatch)
    requires Consistent(t) && FitsArtifact(batch) && key !in t.batches.entries
    requires key in t.requests.remembered.entries ==> t.requests.remembered.entries[key] == replay.digest
    ensures Consistent(Tables(RequestsAfter(t.requests, key, replay),
                              Evict(Insert(t.batches, key, CacheEntry(replay.digest, batch)))))
  {
    RequestsAfterConsistent(t.requests, key, replay);
    RequestsAfterEntries(t.requests, key, replay);
    InsertEvictConsistent(t.batches, key, CacheEntry(replay.digest, batch));
    StoredConsistent(t, key, replay.digest, RequestsAfter(t.requests, key, replay),
                     Evict(Insert(t.batches, key, CacheEntry(replay.digest, batch))));
  }

  /** Every commit, whatever was decided before it, keeps the tables consistent. */
  lemma CommitConsistent(t: Tables, key: Key, replay: ReplayEntry, batch: LabelBatch)
    requires Consistent(t) && FitsArtifact(batch)
    ensures Consistent(Committed(t, key, replay, batch))
  {
    if Decide(t, key, replay.digest, batch).Stored? {
      StoringConsistent(t, key, replay, batch);
    }
  }

  /** A commit leaves every other key's entries as they were, or forgets them. */
  lemma CommitKeepsOthers(t: Tables, key: Key, replay: ReplayEntry, batch: LabelBatch, k: Key)
    requires Consistent(t) && FitsArtifact(batch) && k != key
    ensures var u := Committed(t, key, replay, batch);
            && (k in u.requests.remembered.entries ==>
                  && k in t.requests.remembered.entries
                  && u.requests.remembered.entries[k] == t.requests.remembered.entries[k])
            && (k in u.requests.replays.entries ==>
                  && k in t.requests.replays.entries
                  && u.requests.replays.entries[k] == t.requests.replays.entries[k])
            && (k in u.batches.entries ==>
                  k in t.batches.entries && u.batches.entries[k] == t.batches.entries[k])
  {
    if Decide(t, key, replay.digest, batch).Stored? {
      PushKeepsOthers(t.requests.remembered, key, replay.digest, MAXIMUM_REMEMBERED);
      PushKeepsOthers(t.requests.replays, key, replay, MAXIMUM_CACHED_BATCHES);
      InsertEvictConsistent(t.batches, key, CacheEntry(replay.digest, batch));
    }
  }

  /** A new key is remembered with its digest and its replay record; a remembered one stays as it was. */
  lemma RequestsStore(r: Requests, key: Key, replay: ReplayEntry)
    requires RequestsConsistent(r)
    ensures var u := RequestsAfter(r, key, replay);
            if key in r.remembered.entries then u == r
            else
              && key in u.remembered.entries && u.remembered.entries[key] == replay.digest
              && key in u.replays.entries && u.replays.entries[key] == replay
  {
    if key !in r.remembered.entries {
      ReplaysAreRemembered(r);
      PushConsistent(r.remembered, key, replay.digest, MAXIMUM_REMEMBERED);
      PushConsistent(r.replays, key, replay, MAXIMUM_CACHED_BATCHES);
    }
  }

  /** The batch is cached as the newest, the digest is remembered, and for a new key the replay record too. */
  ghost predicate StoredIn(t: Tables, u: Tables, key: Key, replay: ReplayEntry, batch: LabelBatch) {
    && key in u.batches.entries && u.batches.entries[key] == CacheEntry(replay.digest, batch)
    && u.batches.order != [] && u.batches.order[|u.batches.order| - 1] == key
    && key in u.requests.remembered.entries && u.requests.remembered.entries[key] == replay.digest
    && (key in t.requests.remembered.entries ==> u.requests == t.requests)
    && (key !in t.requests.remembered.entries ==>
          key in u.requests.replays.entries && u.requests.replays.entries[key] == replay)
  }

  lemma StoredParts(t: Tables, key: Key, replay: ReplayEntry, batch: LabelBatch, u: Tables)
    requires key in u.batches.entries && u.batches.entries[key] == CacheEntry(replay.digest, batch)
    requires u.batches.order != [] && u.batches.order[|u.batches.order| - 1] == key
    requires key in t.requests.remembered.entries ==>
               u.requests == t.requests && t.requests.remembered.entries[key] == replay.digest
    requires key !in t.requests.remembered.entries ==>
               && key in u.requests.remembered.entries && u.requests.remembered.entries[key] == replay.digest
               && key in u.requests.replays.entries && u.requests.replays.entries[key] == replay
    ensures StoredIn(t, u, key, replay, batch)
  {
  }

  lemma StoredBatch(b: Batches, key: Key, entry: CacheEntry)
    requires BatchesConsistent(b) && key !in b.entries && FitsArtifact(entry.batch)
    ensures var c := Evict(Insert(b, key, entry));
            key in c.entries && c.entries[key] == entry && c.order != [] && c.order[|c.order| - 1] == key
  {
    InsertEvictConsistent(b, key, entry);
  }

  lemma StoredRequest(t: Tables, key: Key, replay: ReplayEntry)
    requires Consistent(t)
    ensures var u := RequestsAfter(t.requests, key, replay);
            if key in t.requests.remembered.entries then u == t.requests
            else
              && key in u.remembered.entries && u.remembered.entries[key] == replay.digest
              && key in u.replays.entries && u.replays.entries[key] == replay
  {
    RequestsStore(t.requests, key, replay);
  }

  /** A commit that stores caches its batch; for a new key it also keeps the digest and the replay record. */
  lemma CommitStores(t: Tables, key: Key, replay: ReplayEntry, batch: LabelBatch)
    requires Consistent(t) && FitsArtifact(batch)
    requires Decide(t, key, replay.digest, batch).Stored?
    ensures StoredIn(t, Committed(t, key, replay, batch), key, replay, batch)
  {
    StoredBatch(t.batches, key, CacheEntry(replay.digest, batch));
    StoredRequest(t, key, replay);
    var entry := CacheEntry(replay.digest, batch);
    var u := Tables(RequestsAfter(t.requests, key, replay), Evict(Insert(t.batches, key, entry)));
    StoredParts(t, key, replay, batch, u);
  }

  // ----- The tables as mutable fields -------------------------------------------------------

  class LabelCache {
    var batches: map<Key, CacheEntry>
    var batchOrder: seq<Key>
    var batchBytes: int
    var requestDigests: map<Key, Digest>
    var requestOrder: seq<Key>
    var replays: map<Key, ReplayEntry>
    var replayOrder: seq<Key>

    ghost function State(): Tables
      reads this
    {
      Tables(Requests(Window(requestOrder, requestDigests), Window(replayOrder, replays)),
             Batches(batches, batchOrder, batchBytes))
    }

    constructor ()
      ensures State() == EMPTY
    {
      batches, batchOrder, batchBytes := map[], [], 0;
      requestDigests, requestOrder := map[], [];
      replays, replayOrder := map[], [];
    }

    method Lookup(key: Key, digest: Digest) returns (f: Finding)
      ensures f == Look(State(), key, digest)
    {
      var remembered := key in requestDigests;
      if remembered && requestDigests[key] != digest {
        return Conflict;
      }
      if key in batches {
        if batches[key].digest != digest {
          return Conflict;
        }
        return Hit(batches[key].batch);
      }
      if remembered {
        if key !in replays || replays[key].digest != digest {
          return Expired;
        }
        return Resume(replays[key]);
      }
      f := Fresh;
    }

    method Commit(key: Key, replay: ReplayEntry, batch: LabelBatch) returns (outcome: Outcome)
      requires Consistent(State()) && FitsArtifact(batch)
      modifies this
      ensures outcome == Decide(old(State()), key, replay.digest, batch)
      ensures State() == Committed(old(State()), key, replay, batch)
      ensures Consistent(State())
    {
      CommitConsistent(State(), key, replay, batch);
      var remembered := key in requestDigests;
      if remembered && requestDigests[key] != replay.digest {
        return Refused;
      }
      if key in batches {
        if batches[key].digest != replay.digest {
          return Refused;
        }
        return Existing(batches[key].batch);
      }
      Store(key, replay, CacheEntry(replay.digest, batch));
      outcome := Stored(batch, !remembered);
    }

    method Store(key: Key, replay: ReplayEntry, entry: CacheEntry)
      requires BatchesConsistent(State().batches) && key !in batches && FitsArtifact(entry.batch)
      modifies this
      ensures State() == Tables(RequestsAfter(old(State()).requests, key, replay),
                                Evict(Insert(old(State()).batches, key, entry)))
    {
      if key !in requestDigests {
        RememberDigest(key, replay.digest);
        RememberReplay(key, replay);
      }
      Cache(key, entry);
    }

    method RememberDigest(key: Key, digest: Digest)
      modifies `requestDigests, `requestOrder
      ensures Window(requestOrder, requestDigests) ==
              Push(Window(old(requestOrder), old(requestDigests)), key, digest, MAXIMUM_REMEMBERED)
    {
      ghost var order, entries := requestOrder + [key], requestDigests[key := digest];
      requestDigests := requestDigests[key := digest];
      requestOrder := requestOrder + [key];
      ghost var n := 0;
      while |requestOrder| > MAXIMUM_REMEMBERED
        invariant n <= Excess(order, MAXIMUM_REMEMBERED)
        invariant requestOrder == order[n..]
        invariant requestDigests == entries - Elements(order[..n])
      {
        assert order[..n + 1] == order[..n] + [requestOrder[0]];
        requestDigests := requestDigests - {requestOrder[0]};
        requestOrder := requestOrder[1..];
        n := n + 1;
      }
    }

    method RememberReplay(key: Key, replay: ReplayEntry)
      modifies `replays, `replayOrder
      ensures Window(replayOrder, replays) ==
              Push(Window(old(replayOrder), old(replays)), key, replay, MAXIMUM_CACHED_BATCHES)
    {
      ghost var order, entries := replayOrder + [key], replays[key := replay];
      replays := replays[key := replay];
      replayOrder := replayOrder + [key];
      ghost var n := 0;
      while |replayOrder| > MAXIMUM_CACHED_BATCHES
        invariant n <= Excess(order, MAXIMUM_CACHED_BATCHES)
        invariant replayOrder == order[n..]
        invariant replays == entries - Elements(order[..n])
      {
        assert order[..n + 1] == order[..n] + [replayOrder[0]];
        replays := replays - {replayOrder[0]};
        replayOrder := replayOrder[1..];
        n := n + 1;
      }
    }

    method Cache(key: Key, entry: CacheEntry)
      requires BatchesConsistent(State().batches) && key !in batches && FitsArtifact(entry.batch)
      modifies `batches, `batchOrder, `batchBytes
      ensures State().batches == Evict(Insert(old(State()).batches, key, entry))
    {
      InsertConsistent(State().batches, key, entry);
      batches := batches[key := entry];
      batchOrder := batchOrder + [key];
      batchBytes := batchBytes + |entry.batch.contents|;
      ghost var start := Batches(batches, batchOrder, batchBytes);
      while |batchOrder| > MAXIMUM_CACHED_BATCHES || batchBytes > MAXIMUM_CACHED_BYTES
        invariant BatchesConsistent(Batches(batches, batchOrder, batchBytes))
        invariant Evict(Batches(batches, batchOrder, batchBytes)) == Evict(start)
        decreases |batchOrder|
      {
        EvictOldestConsistent(Batches(batches, batchOrder, batchBytes));
        var oldest := batchOrder[0];
        batchBytes := batchBytes - |batches[oldest].batch.contents|;
        batches := batches - {oldest};
        batchOrder := batchOrder[1..];
      }
    }
  }
}
