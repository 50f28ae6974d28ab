/** Downloads an asset in byte ranges that survive failed attempts. */
module Download {
  import opened Wrappers
  import opened Text
  import opened Ranges
  import opened Replies

  /** A chunk file, named by everything that determines its meaning. */
  datatype Part = Part(identity: string, size: nat, chunk: nat, index: nat)

  type Cache = map<Part, Bytes>

  /** Everything outside: answers per chunk and attempt, seeding writes that fail, chunks at which the partial
      destination turns out to have been cut off meanwhile, chunk files that are truncated between fetching and
      assembly, whether assembly succeeds, and files that survive the removal of the cache. */
  datatype World = World(
    answers: map<nat, seq<Reply>>, seedFaults: set<nat>, cutOff: set<nat>, truncated: set<Part>, assembles: bool,
    stuck: set<Part>)

  datatype Outcome = Invalid | AlreadyThere | Failed | Assembled

  function Name(job: Job, i: nat): Part {
    Part(job.identity, job.size, job.chunk, i)
  }

  predicate Sensible(job: Job) {
    1 <= job.chunk <= MAX_CHUNK
  }

  /** A chunk file of the right length: what the next attempt trusts. */
  predicate Valid(cache: Cache, job: Job, i: nat)
    requires Sensible(job) && i < Count(job)
  {
    Name(job, i) in cache && |cache[Name(job, i)]| == Length(job, i)
  }

  /** The body that attempts from `k` on write, if any of them does. */
  function Fetched(job: Job, i: nat, replies: seq<Reply>, k: nat): (body: Option<Bytes>)
    requires Sensible(job) && i < Count(job)
    ensures body.Some? ==> |body.value| == Length(job, i)
    decreases ATTEMPTS - k
  {
    if k >= ATTEMPTS || k >= |replies| then None
    else if Accepted(replies[k], job, i) && replies[k].written then Some(replies[k].body)
    else Fetched(job, i, replies, k + 1)
  }

  /** Attempts from `a` on write what the first usable answer brings. */
  lemma {:induction false} UsedIsFetched(job: Job, i: nat, replies: seq<Reply>, a: nat, k: nat)
    requires Sensible(job) && i < Count(job) && i * job.chunk < job.size && UsedAt(job, i, replies, k) && a <= k
    ensures Fetched(job, i, replies, a) == Some(replies[k].body)
    decreases k - a
  {
    hide ReplyRefused;
    UsableExactly(job, i, replies[a]);
    if a < k {
      UsedIsFetched(job, i, replies, a + 1, k);
    }
  }

  function Answers(w: World, i: nat): seq<Reply> {
    if i in w.answers then w.answers[i] else []
  }

  function Body(job: Job, i: nat, w: World): (body: Option<Bytes>)
    requires Sensible(job) && i < Count(job)
  {
    Fetched(job, i, Answers(w, i), 0)
  }

  // ----- seeding

  predicate Partial(destination: Option<Bytes>, job: Job) {
    destination.Some? && |destination.value| < job.size
  }

  /** Whole chunks in the partial destination. */
  function Whole(destination: Option<Bytes>, job: Job): nat
    requires Sensible(job)
  {
    if Partial(destination, job) then |destination.value| / job.chunk else 0
  }

  lemma WholeChunk(destination: Option<Bytes>, job: Job, i: nat)
    requires Sensible(job) && i < Whole(destination, job)
    ensures i < Count(job) && First(job, i + 1) == First(job, i) + job.chunk == Beyond(job, i)
    ensures First(job, i) + job.chunk <= |destination.value|
  {
    var n := |destination.value|;
    assert n / job.chunk * job.chunk + n % job.chunk == n;
    NextMultiple(i, n / job.chunk, job.chunk);
    InRange(job, i);
    assert (i + 1) * job.chunk == i * job.chunk + job.chunk;
  }

  lemma WholeAtMost(destination: Option<Bytes>, job: Job)
    requires Sensible(job)
    ensures Whole(destination, job) <= Count(job)
  {
    if Whole(destination, job) > 0 {
      WholeChunk(destination, job, Whole(destination, job) - 1);
    }
  }

  /** The cache after the first `k` chunks of the partial destination were looked at. */
  function Seeded(cache: Cache, job: Job, destination: Option<Bytes>, k: nat): Cache
    requires Sensible(job) && k <= Whole(destination, job)
  {
    if k == 0 then cache
    else
      WholeChunk(destination, job, k - 1);
      var before := Seeded(cache, job, destination, k - 1);
      if Valid(before, job, k - 1) then before
      else before[Name(job, k - 1) := destination.value[First(job, k - 1)..First(job, k)]]
  }

  function Imported(cache: Cache, job: Job, destination: Option<Bytes>): Cache
    requires Sensible(job)
  {
    Seeded(cache, job, destination, Whole(destination, job))
  }

  // ----- the asset that an attempt puts together

  /** Chunk `i` as the cache has it, or as the server delivers it. */
  function Piece(cache: Cache, job: Job, i: nat, w: World): (piece: Option<Bytes>)
    requires Sensible(job) && i < Count(job)
    ensures piece.Some? ==> |piece.value| == Length(job, i)
  {
    if Valid(cache, job, i) then Some(cache[Name(job, i)]) else Body(job, i, w)
  }

  predicate AllThere(cache: Cache, job: Job, w: World, n: nat)
    requires Sensible(job) && n <= Count(job)
  {
    forall i | 0 <= i < n :: Piece(cache, job, i, w).Some?
  }

  function Content(cache: Cache, job: Job, w: World, n: nat): Bytes
    requires Sensible(job) && n <= Count(job) && AllThere(cache, job, w, n)
  {
    if n == 0 then [] else Content(cache, job, w, n - 1) + Piece(cache, job, n - 1, w).value
  }

  /** The chunks still missing among the first `k`, in order. */
  function Missing(cache: Cache, job: Job, k: nat): seq<nat>
    requires Sensible(job) && k <= Count(job)
  {
    if k == 0 then [] else Missing(cache, job, k - 1) + if Valid(cache, job, k - 1) then [] else [k - 1]
  }

  predicate AllValid(cache: Cache, job: Job, from: nat, to: nat)
    requires Sensible(job) && from <= to <= Count(job)
  {
    forall i | from <= i < to :: Valid(cache, job, i)
  }

  lemma {:induction false} NothingMissing(cache: Cache, job: Job, from: nat, to: nat)
    requires Sensible(job) && from <= to <= Count(job) && AllValid(cache, job, from, to)
    ensures Missing(cache, job, to) == Missing(cache, job, from)
  {
    if from < to {
      NothingMissing(cache, job, from, to - 1);
    }
  }

  lemma {:induction false} MissingPrefix(cache: Cache, job: Job, from: nat, to: nat)
    requires Sensible(job) && from <= to <= Count(job)
    ensures Missing(cache, job, from) <= Missing(cache, job, to)
  {
    if from < to {
      MissingPrefix(cache, job, from, to - 1);
    }
  }

  /** What `Missing` lists: exactly the chunks that are not valid, each once, in increasing order. */
  lemma {:induction false} MissingIsExact(cache: Cache, job: Job, k: nat)
    requires Sensible(job) && k <= Count(job)
    ensures forall i: nat :: i in Missing(cache, job, k) <==> i < k && !Valid(cache, job, i)
    ensures forall a, b | 0 <= a < b < |Missing(cache, job, k)| :: Missing(cache, job, k)[a] < Missing(cache, job, k)[b]
  {
    if k > 0 {
      MissingIsExact(cache, job, k - 1);
      var before := Missing(cache, job, k - 1);
      assert forall a | 0 <= a < |before| :: before[a] in before;
    }
  }

  function Get(cache: Cache, part: Part): Option<Bytes> {
    if part in cache then Some(cache[part]) else None
  }

  /** The part is a chunk of this job that was missing and that the server delivers. */
  predicate Delivered(cache: Cache, job: Job, w: World, part: Part)
    requires Sensible(job)
  {
    && part == Name(job, part.index) && part.index < Count(job) && !Valid(cache, job, part.index)
    && Body(job, part.index, w).Some?
  }

  /** `later` is the cache with exactly the chunks of `which` fetched. */
  ghost predicate FetchedInto(cache: Cache, later: Cache, job: Job, w: World, which: set<nat>)
    requires Sensible(job)
  {
    forall part :: Get(later, part) == if part.index in which && Delivered(cache, job, w, part)
                                       then Body(job, part.index, w) else Get(cache, part)
  }

  lemma FetchedNothing(cache: Cache, job: Job, w: World)
    requires Sensible(job)
    ensures FetchedInto(cache, cache, job, w, {})
  {
  }

  lemma FetchedMore(a: Cache, b: Cache, c: Cache, job: Job, w: World, which: set<nat>, i: nat)
    requires Sensible(job) && i < Count(job) && i !in which
    requires FetchedInto(a, b, job, w, which) && FetchedInto(b, c, job, w, {i})
    ensures FetchedInto(a, c, job, w, which + {i})
    ensures Piece(b, job, i, w) == Piece(a, job, i, w)
  {
    assert Get(b, Name(job, i)) == Get(a, Name(job, i));
    forall part ensures Get(c, part) == if part.index in which + {i} && Delivered(a, job, w, part)
                                        then Body(job, part.index, w) else Get(a, part)
    {
      assert Get(c, part) == if part.index in {i} && Delivered(b, job, w, part)
                             then Body(job, part.index, w) else Get(b, part);
      assert Get(b, part) == if part.index in which && Delivered(a, job, w, part)
                             then Body(job, part.index, w) else Get(a, part);
      if part == Name(job, i) {
        assert Delivered(b, job, w, part) == Delivered(a, job, w, part);
      }
    }
  }

  /** Fetching changes which chunks are there for the fetched ones only. */
  lemma FetchedValid(a: Cache, b: Cache, job: Job, w: World, which: set<nat>, i: nat)
    requires Sensible(job) && i < Count(job) && FetchedInto(a, b, job, w, which)
    ensures Valid(b, job, i) <==> Valid(a, job, i) || (i in which && Body(job, i, w).Some?)
    ensures i !in which ==> Piece(b, job, i, w) == Piece(a, job, i, w)
    ensures Piece(a, job, i, w).Some? ==> Piece(b, job, i, w) == Piece(a, job, i, w)
    ensures Piece(b, job, i, w).Some? ==> Piece(a, job, i, w).Some?
  {
    assert Get(b, Name(job, i)) == if i in which && Delivered(a, job, w, Name(job, i)) then Body(job, i, w)
                                   else Get(a, Name(job, i));
  }

  lemma FetchedUnion(a: Cache, b: Cache, c: Cache, job: Job, w: World, first: set<nat>, rest: set<nat>)
    requires Sensible(job) && FetchedInto(a, b, job, w, first) && FetchedInto(b, c, job, w, rest)
    ensures FetchedInto(a, c, job, w, first + rest)
  {
    forall part ensures Get(c, part) == if part.index in first + rest && Delivered(a, job, w, part)
                                        then Body(job, part.index, w) else Get(a, part)
    {
      assert Get(c, part) == if part.index in rest && Delivered(b, job, w, part)
                             then Body(job, part.index, w) else Get(b, part);
      assert Get(b, part) == if part.index in first && Delivered(a, job, w, part)
                             then Body(job, part.index, w) else Get(a, part);
    }
  }

  /** Where the scheduler stands: `start` is the cache it began with, `cursor` the first chunk it has not looked at. */
  ghost predicate SchedulerOk(start: Cache, cache: Cache, job: Job, w: World, cursor: nat, pending: set<nat>,
                              requested: seq<nat>, fetched: set<nat>)
    requires Sensible(job)
  {
    && cursor <= Count(job)
    && FetchedInto(start, cache, job, w, fetched)
    && pending !! fetched
    && (forall i | i in pending :: i < cursor)
    && (forall i | i in fetched :: i < cursor && Piece(start, job, i, w).Some?)
    && (forall i: nat | i < cursor :: Valid(start, job, i) || i in pending || i in fetched)
    && requested == Missing(start, job, cursor)
  }

  /** Each of these was pending at some wait. */
  ghost predicate Waited(waits: seq<set<nat>>, which: set<nat>) {
    forall i | i in which :: exists k | 0 <= k < |waits| :: i in waits[k]
  }

  lemma WaitsFor(waits: seq<set<nat>>, pending: set<nat>, which: set<nat>)
    requires Waited(waits, which)
    ensures Waited(waits + [pending], which + pending)
  {
    var more := waits + [pending];
    forall i | i in which + pending ensures exists k | 0 <= k < |more| :: i in more[k] {
      if i in which {
        var k :| 0 <= k < |waits| && i in waits[k];
        assert more[k] == waits[k];
      } else {
        assert more[|waits|] == pending;
      }
    }
  }

  lemma RequestedAreKnown(start: Cache, cache: Cache, job: Job, w: World, cursor: nat, pending: set<nat>,
                          requested: seq<nat>, fetched: set<nat>)
    requires Sensible(job) && SchedulerOk(start, cache, job, w, cursor, pending, requested, fetched)
    ensures forall i | i in requested :: i in fetched + pending
  {
    MissingIsExact(start, job, cursor);
  }

  lemma NothingWaited()
    ensures Waited([], {})
  {
  }

  lemma WaitedLess(waits: seq<set<nat>>, which: set<nat>, fewer: set<nat>)
    requires Waited(waits, which) && fewer <= which
    ensures Waited(waits, fewer)
  {
  }

  lemma RequestedWaited(waits: seq<set<nat>>, which: set<nat>, requested: seq<nat>)
    requires Waited(waits, which) && forall i | i in requested :: i in which
    ensures forall i | i in requested :: exists k | 0 <= k < |waits| :: i in waits[k]
  {
  }

  lemma ScheduleNext(start: Cache, cache: Cache, job: Job, w: World, cursor: nat, pending: set<nat>,
                     requested: seq<nat>, fetched: set<nat>, index: Option<nat>, next: nat)
    requires Sensible(job) && SchedulerOk(start, cache, job, w, cursor, pending, requested, fetched)
    requires cursor <= next <= Count(job)
    requires index.None? ==> next == Count(job) && AllValid(cache, job, cursor, next)
    requires index.Some? ==> cursor <= index.value && next == index.value + 1 && !Valid(cache, job, index.value)
                             && AllValid(cache, job, cursor, index.value)
    ensures index.None? ==> SchedulerOk(start, cache, job, w, next, pending, requested, fetched)
    ensures index.Some? ==> SchedulerOk(start, cache, job, w, next, pending + {index.value},
                                        requested + [index.value], fetched)
    ensures index.Some? ==> index.value !in pending
  {
    hide FetchedInto;
    var last := if index.Some? then index.value else next;
    forall i | cursor <= i < Count(job) ensures Valid(cache, job, i) == Valid(start, job, i) {
      FetchedValid(start, cache, job, w, fetched, i);
    }
    NothingMissing(start, job, cursor, last);
  }

  lemma BatchDone(start: Cache, a: Cache, b: Cache, job: Job, w: World, cursor: nat, pending: set<nat>,
                  requested: seq<nat>, fetched: set<nat>, done: set<nat>)
    requires Sensible(job) && SchedulerOk(start, a, job, w, cursor, pending, requested, fetched) && done <= pending
    requires FetchedInto(a, b, job, w, done)
    ensures FetchedInto(start, b, job, w, fetched + done)
    ensures (forall i | i in done :: Piece(a, job, i, w).Some?) ==>
              SchedulerOk(start, b, job, w, cursor, pending - done, requested, fetched + done)
    ensures AllThere(start, job, w, Count(job)) ==> forall i | i in done :: Piece(a, job, i, w).Some?
  {
    FetchedUnion(start, a, b, job, w, fetched, done);
    hide FetchedInto;
    forall i | i in done ensures Piece(a, job, i, w) == Piece(start, job, i, w) {
      FetchedValid(start, a, job, w, fetched, i);
    }
  }

  lemma PendingExist(start: Cache, cache: Cache, job: Job, w: World, cursor: nat, pending: set<nat>,
                     requested: seq<nat>, fetched: set<nat>)
    requires Sensible(job) && SchedulerOk(start, cache, job, w, cursor, pending, requested, fetched)
    ensures forall i | i in pending :: i < Count(job)
    ensures requested <= Missing(start, job, Count(job))
  {
    hide FetchedInto;
    MissingPrefix(start, job, cursor, Count(job));
  }

  lemma Smaller(pending: set<nat>, done: set<nat>)
    requires done <= pending
    ensures |pending - done| + |done| == |pending|
    ensures done != {} ==> |done| > 0
  {
    assert pending == (pending - done) + done;
  }

  lemma AllFetched(start: Cache, cache: Cache, job: Job, w: World, requested: seq<nat>, fetched: set<nat>)
    requires Sensible(job) && SchedulerOk(start, cache, job, w, Count(job), {}, requested, fetched)
    ensures AllThere(start, job, w, Count(job)) && AllValid(cache, job, 0, Count(job))
    ensures requested == Missing(start, job, Count(job)) && FetchedInto(start, cache, job, w, fetched)
  {
    hide FetchedInto;
    forall i | 0 <= i < Count(job) ensures Piece(start, job, i, w).Some? && Valid(cache, job, i) {
      FetchedValid(start, cache, job, w, fetched, i);
    }
  }

  /** A chunk that is fetched or was there already is what `Piece` says. */
  lemma FetchedPieces(start: Cache, cache: Cache, job: Job, w: World, fetched: set<nat>, i: nat)
    requires Sensible(job) && FetchedInto(start, cache, job, w, fetched)
    requires i < Count(job) && Valid(cache, job, i) && Piece(start, job, i, w).Some?
    ensures cache[Name(job, i)] == Piece(start, job, i, w).value
  {
    FetchedValid(start, cache, job, w, fetched, i);
  }

  lemma {:induction false} ContentLength(cache: Cache, job: Job, w: World, n: nat)
    requires Sensible(job) && n <= Count(job) && AllThere(cache, job, w, n)
    ensures |Content(cache, job, w, n)| == Reached(job, n)
  {
    hide Valid, Body, Reached, Count, First, Beyond;
    if n == 0 {
      ReachedStep(job, 0);
    } else {
      ReachedStep(job, n - 1);
      ContentLength(cache, job, w, n - 1);
    }
  }

  /** A failed attempt leaves what it imported and what it fetched, except for files that were truncated. */
  ghost predicate FailedFrom(before: Cache, after: Cache, job: Job, w: World, destination: Option<Bytes>)
    requires Sensible(job)
  {
    exists reached: nat, which: set<nat>, parts: set<Part>, cache: Cache | reached <= Whole(destination, job) ::
      FetchedInto(Seeded(before, job, destination, reached), cache, job, w, which) && after == Truncate(cache, parts)
  }

  /** The chunk files as they are, joined in order. */
  function Stored(cache: Cache, job: Job, n: nat): Bytes
    requires Sensible(job) && n <= Count(job) && AllValid(cache, job, 0, n)
  {
    if n == 0 then []
    else
      assert Valid(cache, job, n - 1);
      Stored(cache, job, n - 1) + cache[Name(job, n - 1)]
  }

  /** Chunk files that are complete when they are joined hold what was fetched or was there. */
  lemma {:induction false} StoredIsContent(start: Cache, cache: Cache, job: Job, w: World, fetched: set<nat>, n: nat)
    requires Sensible(job) && FetchedInto(start, cache, job, w, fetched) && n <= Count(job)
    requires AllThere(start, job, w, n) && AllValid(cache, job, 0, n)
    ensures Stored(cache, job, n) == Content(start, job, w, n)
  {
    hide FetchedInto, Piece, Valid;
    if n > 0 {
      StoredIsContent(start, cache, job, w, fetched, n - 1);
      FetchedPieces(start, cache, job, w, fetched, n - 1);
    }
  }

  /** Some files lose their bytes. */
  function Truncate(cache: Cache, parts: set<Part>): Cache {
    map part | part in cache :: if part in parts then [] else cache[part]
  }

  lemma NothingTruncated(cache: Cache)
    ensures Truncate(cache, {}) == cache
  {
  }

  /** A truncated file is not complete, and the others are what they were. */
  lemma TruncatedValid(cache: Cache, job: Job, parts: set<Part>, n: nat)
    requires Sensible(job) && n <= Count(job) && AllValid(cache, job, 0, n)
    ensures AllValid(Truncate(cache, parts), job, 0, n) <==> forall i | 0 <= i < n :: Name(job, i) !in parts
    ensures AllValid(Truncate(cache, parts), job, 0, n) ==>
            Stored(Truncate(cache, parts), job, n) == Stored(cache, job, n)
  {
    forall i | 0 <= i < n ensures Valid(Truncate(cache, parts), job, i) <==> Name(job, i) !in parts {
      assert Valid(cache, job, i);
    }
    if AllValid(Truncate(cache, parts), job, 0, n) {
      StoredKept(cache, job, parts, n);
    }
  }

  lemma {:induction false} StoredKept(cache: Cache, job: Job, parts: set<Part>, n: nat)
    requires Sensible(job) && n <= Count(job) && AllValid(cache, job, 0, n)
    requires AllValid(Truncate(cache, parts), job, 0, n)
    ensures Stored(Truncate(cache, parts), job, n) == Stored(cache, job, n)
  {
    if n > 0 {
      StoredKept(cache, job, parts, n - 1);
      assert Valid(Truncate(cache, parts), job, n - 1);
    }
  }

  /** Whole chunk `i` of the partial destination can be imported, or need not be. */
  predicate Importable(before: Cache, job: Job, w: World, i: nat)
    requires Sensible(job) && i < Count(job)
  {
    Valid(before, job, i) || (i !in w.cutOff && i !in w.seedFaults)
  }

  predicate AllImportable(before: Cache, job: Job, w: World, n: nat)
    requires Sensible(job) && n <= Count(job)
  {
    forall i | 0 <= i < n :: Importable(before, job, w, i)
  }

  lemma NothingImported(before: Cache, job: Job, destination: Option<Bytes>, w: World)
    requires Sensible(job)
    ensures AllImportable(before, job, w, 0) && First(job, 0) == 0
    ensures Whole(destination, job) == if Partial(destination, job) then |destination.value| / job.chunk else 0
    ensures Seeded(before, job, destination, 0) == before
  {
  }

  /** Whether chunk `k` is still missing does not depend on the chunks before it. */
  lemma {:induction false} SeededBefore(before: Cache, job: Job, destination: Option<Bytes>, n: nat, k: nat)
    requires Sensible(job) && n <= Whole(destination, job) && n <= k < Count(job)
    ensures var cache := Seeded(before, job, destination, n);
            && (Name(job, k) in cache <==> Name(job, k) in before)
            && (Name(job, k) in cache ==> cache[Name(job, k)] == before[Name(job, k)])
  {
    if n > 0 {
      SeededBefore(before, job, destination, n - 1, k);
    }
  }

  /** One more chunk of the partial destination. */
  lemma ImportStep(before: Cache, job: Job, destination: Option<Bytes>, w: World, k: nat)
    requires Sensible(job) && k < Whole(destination, job) <= Count(job)
    requires AllImportable(before, job, w, k)
    ensures First(job, k) <= First(job, k + 1) <= |destination.value|
    ensures First(job, k) + Length(job, k) == First(job, k + 1)
    ensures Valid(Seeded(before, job, destination, k), job, k) <==> Valid(before, job, k)
    ensures Importable(before, job, w, k) <==> Valid(before, job, k) || (k !in w.cutOff && k !in w.seedFaults)
    ensures AllImportable(before, job, w, k + 1) <==> Importable(before, job, w, k)
    ensures !Importable(before, job, w, k) ==>
              forall n | k < n <= Count(job) :: !AllImportable(before, job, w, n)
    ensures var cache := Seeded(before, job, destination, k);
            Seeded(before, job, destination, k + 1)
            == if Valid(before, job, k) then cache
               else cache[Name(job, k) := destination.value[First(job, k)..First(job, k + 1)]]
  {
    WholeChunk(destination, job, k);
    SeededBefore(before, job, destination, k, k);
  }

  /** Nothing outside interferes with the files of this download. */
  predicate Undisturbed(before: Cache, job: Job, w: World, destination: Option<Bytes>)
    requires Sensible(job)
  {
    WholeAtMost(destination, job);
    && w.assembles && AllImportable(before, job, w, Whole(destination, job))
    && forall i | 0 <= i < Count(job) :: Name(job, i) !in w.truncated
  }

  /** What is left of the cache directory when some files cannot be removed. */
  function Leftover(cache: Cache, stuck: set<Part>): Cache {
    map part | part in cache && part in stuck :: cache[part]
  }

  // ----- the downloader

  class Downloader {
    var destination: Option<Bytes>
    var cache: Cache

    constructor ()
      ensures destination.None? && cache == map[]
    {
      destination, cache := None, map[];
    }

    /** Up to three attempts at one chunk. A cached chunk is left alone; otherwise the body of the first answer
        without a fault becomes the chunk file, and the download of the chunk fails exactly if there is none. */
    method FetchChunk(job: Job, i: nat, w: World) returns (ok: bool)
      requires Sensible(job) && i < Count(job)
      modifies this`cache
      ensures FetchedInto(old(cache), cache, job, w, {i})
      ensures ok <==> Piece(old(cache), job, i, w).Some?
      ensures Valid(old(cache), job, i) ==> ok && cache == old(cache)
      ensures i * job.chunk < job.size
      ensures ok && !Valid(old(cache), job, i) ==>
                exists k: nat :: UsedAt(job, i, Answers(w, i), k)
                                 && cache == old(cache)[Name(job, i) := Answers(w, i)[k].body]
      ensures !ok ==> cache == old(cache) && forall k: nat :: !UsedAt(job, i, Answers(w, i), k)
    {
      InRange(job, i);
      if Valid(cache, job, i) {
        return true;
      }
      hide ReplyRefused;
      var replies := Answers(w, i);
      for attempt := 0 to ATTEMPTS
        invariant cache == old(cache) && !Valid(cache, job, i)
        invariant Fetched(job, i, replies, attempt) == Body(job, i, w)
        invariant forall j | 0 <= j < attempt && j < |replies| :: !ReplyRefused(job, i, replies[j]).Usable?
      {
        if attempt < |replies| {
          UsableExactly(job, i, replies[attempt]);
          var reply := replies[attempt];
          if Accepted(reply, job, i) && reply.written {
            cache := cache[Name(job, i) := reply.body];
            assert UsedAt(job, i, replies, attempt);
            return true;
          }
        }
      }
      ok := false;
    }

    /** Reuses the whole chunks of the partial destination, reading it from front to back. */
    method Import(job: Job, w: World) returns (ok: bool, reached: nat)
      requires Sensible(job)
      modifies this`cache
      ensures reached <= Whole(destination, job)
      ensures cache == Seeded(old(cache), job, destination, reached)
      ensures ok <==> reached == Whole(destination, job)
      ensures Whole(destination, job) <= Count(job)
      ensures ok <==> AllImportable(old(cache), job, w, Whole(destination, job))
      ensures !ok ==> !Importable(old(cache), job, w, reached) && AllImportable(old(cache), job, w, reached)
    {
      reached := 0;
      WholeAtMost(destination, job);
      hide AllImportable, Importable, Seeded, Valid, First, Length, Whole;
      NothingImported(cache, job, destination, w);
      if !Partial(destination, job) {
        return true, 0;
      }
      var source, position := destination.value, 0;
      var complete := |source| / job.chunk;
      while reached < complete
        invariant complete == Whole(destination, job) && reached <= complete
        invariant position == First(job, reached)
        invariant cache == Seeded(old(cache), job, destination, reached)
        invariant AllImportable(old(cache), job, w, reached)
      {
        ImportStep(old(cache), job, destination, w, reached);
        var size := Length(job, reached);
        if Valid(cache, job, reached) {
          position := position + size;
        } else {
          var content := source[position..position + if reached in w.cutOff then size - 1 else size];
          if |content| != size || reached in w.seedFaults {
            return false, reached;
          }
          cache := cache[Name(job, reached) := content];
          position := position + size;
        }
        reached := reached + 1;
      }
      ok := true;
    }

    /** The requests of `which` run to their end, in any order. */
    method FetchAll(job: Job, which: set<nat>, w: World) returns (ok: bool)
      requires Sensible(job) && forall i | i in which :: i < Count(job)
      modifies this`cache
      ensures FetchedInto(old(cache), cache, job, w, which)
      ensures ok <==> forall i | i in which :: Piece(old(cache), job, i, w).Some?
    {
      ok := true;
      var rest, finished := which, {};
      FetchedNothing(cache, job, w);
      while rest != {}
        invariant rest <= which && finished == which - rest
        invariant FetchedInto(old(cache), cache, job, w, finished)
        invariant ok <==> forall i | i in finished :: Piece(old(cache), job, i, w).Some?
        decreases rest
      {
        var i :| i in rest;
        ghost var before := cache;
        var fine := FetchChunk(job, i, w);
        FetchedMore(old(cache), before, cache, job, w, finished, i);
        rest, finished := rest - {i}, finished + {i};
        ok := ok && fine;
      }
      assert finished == which;
    }

    /** The next chunk that is not cached, in order. */
    method NextMissing(job: Job, cursor: nat) returns (index: Option<nat>, next: nat)
      requires Sensible(job) && cursor <= Count(job)
      ensures cursor <= next <= Count(job)
      ensures index.None? ==> next == Count(job) && AllValid(cache, job, cursor, next)
      ensures index.Some? ==> cursor <= index.value && next == index.value + 1 && !Valid(cache, job, index.value)
                              && AllValid(cache, job, cursor, index.value)
    {
      next := cursor;
      while next < Count(job)
        invariant cursor <= next <= Count(job)
        invariant AllValid(cache, job, cursor, next)
      {
        next := next + 1;
        if !Valid(cache, job, next - 1) {
          return Some(next - 1), next;
        }
      }
      index := None;
    }

    /** Submits the next missing chunk, if there is one. */
    method Schedule(job: Job, cursor: nat, pending: set<nat>, requested: seq<nat>, ghost start: Cache, ghost w: World,
                    ghost fetched: set<nat>)
      returns (more: bool, next: nat, pending': set<nat>, requested': seq<nat>)
      requires Sensible(job) && SchedulerOk(start, cache, job, w, cursor, pending, requested, fetched)
      ensures cursor <= next <= Count(job) && SchedulerOk(start, cache, job, w, next, pending', requested', fetched)
      ensures more ==> |pending'| == |pending| + 1 && cursor < next
      ensures !more ==> pending' == pending && next == Count(job)
    {
      var index: Option<nat>;
      index, next := NextMissing(job, cursor);
      ScheduleNext(start, cache, job, w, cursor, pending, requested, fetched, index, next);
      hide SchedulerOk;
      if index.Some? {
        return true, next, pending + {index.value}, requested + [index.value];
      }
      more, pending', requested' := false, pending, requested;
    }

    /** The first requests: one per worker. */
    method Fill(job: Job, workers: nat, ghost w: World)
      returns (cursor: nat, pending: set<nat>, requested: seq<nat>)
      requires Sensible(job)
      ensures cursor <= Count(job) && SchedulerOk(cache, cache, job, w, cursor, pending, requested, {})
      ensures |pending| <= workers && (|pending| < workers ==> cursor == Count(job))
    {
      cursor, pending, requested := 0, {}, [];
      FetchedNothing(cache, job, w);
      var more := true;
      for k := 0 to workers
        invariant cursor <= Count(job) && SchedulerOk(cache, cache, job, w, cursor, pending, requested, {})
        invariant |pending| == k
      {
        more, cursor, pending, requested := Schedule(job, cursor, pending, requested, cache, w, {});
        if !more {
          break;
        }
      }
    }

    /** After `free` requests ended, as many new ones. */
    method Refill(job: Job, free: nat, c: nat, p: set<nat>, q: seq<nat>, ghost start: Cache, ghost w: World,
                  ghost fetched: set<nat>)
      returns (cursor: nat, pending: set<nat>, requested: seq<nat>)
      requires Sensible(job) && SchedulerOk(start, cache, job, w, c, p, q, fetched) && c <= Count(job) && free > 0
      ensures c <= cursor <= Count(job) && SchedulerOk(start, cache, job, w, cursor, pending, requested, fetched)
      ensures |pending| <= |p| + free && |pending| - cursor <= |p| - c
      ensures pending == {} ==> cursor == Count(job)
    {
      hide SchedulerOk;
      cursor, pending, requested := c, p, q;
      for k := 0 to free
        invariant c <= cursor <= Count(job) && SchedulerOk(start, cache, job, w, cursor, pending, requested, fetched)
        invariant |pending| <= |p| + k && |pending| - cursor <= |p| - c
        invariant k > 0 && pending == {} ==> cursor == Count(job)
      {
        var more: bool;
        more, cursor, pending, requested := Schedule(job, cursor, pending, requested, start, w, fetched);
      }
    }

    /** Each time it waits, at most one request per worker is pending, and every request is pending at some wait:
        `waits` lists the pending requests of each. Which of them finish first is open; the outcome does not depend on
        it. After a failure, requests that are already running still end, and the others are cancelled. */
    method FetchMissing(job: Job, workers: nat, w: World)
      returns (ok: bool, requested: seq<nat>, ghost waits: seq<set<nat>>, ghost fetched: set<nat>)
      requires Sensible(job) && 1 <= workers
      modifies this`cache
      ensures FetchedInto(old(cache), cache, job, w, fetched)
      ensures ok <==> AllThere(old(cache), job, w, Count(job))
      ensures ok ==> AllValid(cache, job, 0, Count(job))
      ensures requested <= Missing(old(cache), job, Count(job))
      ensures ok ==> requested == Missing(old(cache), job, Count(job))
      ensures forall pending | pending in waits :: pending != {} && |pending| <= workers
      ensures forall i | i in requested :: exists k | 0 <= k < |waits| :: i in waits[k]
    {
      hide SchedulerOk, FetchedInto, AllThere, AllValid, Missing, Count, Waited;
      NothingWaited();
      var cursor: nat;
      var pending: set<nat>;
      cursor, pending, requested := Fill(job, workers, w);
      waits, fetched := [], {};
      while pending != {}
        invariant cursor <= Count(job) && SchedulerOk(old(cache), cache, job, w, cursor, pending, requested, fetched)
        invariant |pending| <= workers && (pending == {} ==> cursor == Count(job))
        invariant forall p | p in waits :: p != {} && |p| <= workers
        invariant Waited(waits, fetched)
        decreases Count(job) - cursor + |pending|
      {
        PendingExist(old(cache), cache, job, w, cursor, pending, requested, fetched);
        RequestedAreKnown(old(cache), cache, job, w, cursor, pending, requested, fetched);
        WaitsFor(waits, pending, fetched);
        waits := waits + [pending];
        ghost var known := fetched + pending;
        RequestedWaited(waits, known, requested);
        assert pending <= pending;
        var done: set<nat> :| done != {} && done <= pending;
        ghost var before := cache;
        var fine := FetchAll(job, done, w);
        BatchDone(old(cache), before, cache, job, w, cursor, pending, requested, fetched, done);
        Smaller(pending, done);
        pending, fetched := pending - done, fetched + done;
        if !fine {
          assert {} <= pending;
          var running: set<nat> :| running <= pending;
          before := cache;
          var _ := FetchAll(job, running, w);
          FetchedUnion(old(cache), before, cache, job, w, fetched, running);
          fetched := fetched + running;
          return false, requested, waits, fetched;
        }
        WaitedLess(waits, known, fetched);
        cursor, pending, requested := Refill(job, |done|, cursor, pending, requested, old(cache), w, fetched);
      }
      RequestedAreKnown(old(cache), cache, job, w, cursor, pending, requested, fetched);
      RequestedWaited(waits, fetched, requested);
      AllFetched(old(cache), cache, job, w, requested, fetched);
      ok := true;
    }

    /** Joins the chunk files and replaces the destination, or leaves everything as it is: a chunk file that is
        missing or has the wrong length by now is refused. */
    method Assemble(job: Job, w: World) returns (ok: bool)
      requires Sensible(job)
      modifies this
      ensures ok <==> w.assembles && AllValid(old(cache), job, 0, Count(job))
      ensures ok ==> destination == Some(Stored(old(cache), job, Count(job))) && cache == Leftover(old(cache), w.stuck)
      ensures !ok ==> destination == old(destination) && cache == old(cache)
    {
      var output: Bytes := [];
      for index := 0 to Count(job)
        invariant AllValid(cache, job, 0, index) && output == Stored(cache, job, index)
        invariant cache == old(cache) && destination == old(destination)
      {
        if Name(job, index) !in cache || |cache[Name(job, index)]| != Length(job, index) {
          assert !Valid(cache, job, index);
          return false;
        }
        assert Valid(cache, job, index);
        output := output + cache[Name(job, index)];
      }
      if !w.assembles {
        return false;
      }
      destination := Some(output);
      cache := Leftover(cache, w.stuck);
      ok := true;
    }

    /** One attempt at the whole asset. */
    method DownloadParallel(job: Job, workers: int, w: World) returns (outcome: Outcome, requested: seq<nat>)
      modifies this
      ensures outcome.Invalid? <==> workers < 1 || workers > 8 || job.chunk == 0 || job.chunk > 4194304
      ensures !outcome.Invalid? ==>
                (outcome.AlreadyThere? <==> old(destination).Some? && |old(destination).value| == job.size)
      ensures !outcome.Assembled? ==> destination == old(destination)
      ensures outcome.Invalid? || outcome.AlreadyThere? ==> cache == old(cache)
      ensures outcome.Failed? ==> FailedFrom(old(cache), cache, job, w, old(destination))
      ensures outcome.Assembled? ==>
                && Sensible(job)
                && var start := Imported(old(cache), job, old(destination));
                && AllThere(start, job, w, Count(job))
                && destination == Some(Content(start, job, w, Count(job)))
                && requested == Missing(start, job, Count(job))
                && |destination.value| == job.size && (forall part | part in cache :: part in w.stuck)
      ensures outcome.Assembled? || outcome.Failed? ==>
                (outcome.Assembled? <==>
                   && Undisturbed(old(cache), job, w, old(destination))
                   && AllThere(Imported(old(cache), job, old(destination)), job, w, Count(job)))
    {
      requested := [];
      if !(1 <= workers <= MAX_WORKERS) || !Sensible(job) {
        return Invalid, [];
      }
      if destination.Some? && |destination.value| == job.size {
        return AlreadyThere, [];
      }
      outcome, requested := DownloadChunks(job, workers, w);
    }

    method DownloadChunks(job: Job, workers: nat, w: World) returns (outcome: Outcome, requested: seq<nat>)
      requires 1 <= workers && Sensible(job)
      modifies this
      ensures outcome.Failed? || outcome.Assembled?
      ensures outcome.Failed? ==> destination == old(destination) && FailedFrom(old(cache), cache, job, w, destination)
      ensures outcome.Assembled? ==>
                && var start := Imported(old(cache), job, old(destination));
                && AllThere(start, job, w, Count(job))
                && destination == Some(Content(start, job, w, Count(job)))
                && requested == Missing(start, job, Count(job))
                && |destination.value| == job.size && (forall part | part in cache :: part in w.stuck)
      ensures outcome.Assembled? <==> && Undisturbed(old(cache), job, w, old(destination))
                                      && AllThere(Imported(old(cache), job, old(destination)), job, w, Count(job))
    {
      hide FetchedInto, AllThere, AllValid, Missing, Count, Seeded, Whole, Content, Truncate, Stored;
      var seeded, reached := Import(job, w);
      ghost var start := cache;
      FetchedNothing(start, job, w);
      NothingTruncated(cache);
      if !seeded {
        return Failed, [];
      }
      var fetched;
      ghost var waits, which;
      fetched, requested, waits, which := FetchMissing(job, workers, w);
      NothingTruncated(cache);
      if !fetched {
        return Failed, requested;
      }
      ContentLength(start, job, w, Count(job));
      StoredIsContent(start, cache, job, w, which, Count(job));
      TruncatedValid(cache, job, w.truncated, Count(job));
      cache := Truncate(cache, w.truncated);
      var assembled := Assemble(job, w);
      outcome := if assembled then Assembled else Failed;
    }
  }
}
