/** What range downloads add up to: the asset, after any history of failed attempts. */
module Assets {
  import opened Wrappers
  import opened Text
  import opened Ranges
  import opened Replies
  import opened Download

  /** The job a chunk file belongs to; who may answer does not matter for its meaning. */
  function JobOf(part: Part): Job {
    Job(part.identity, part.size, part.chunk, None)
  }

  predicate Relevant(part: Part, identity: string, asset: Bytes) {
    && part.identity == identity && part.size == |asset| && Sensible(JobOf(part))
    && part.index < Count(JobOf(part))
  }

  /** Every complete chunk of the asset's URL holds the asset's bytes. */
  ghost predicate Trusted(cache: Cache, identity: string, asset: Bytes) {
    forall part | part in cache && Relevant(part, identity, asset)
        && |cache[part]| == Length(JobOf(part), part.index) ::
      cache[part] == Slice(asset, JobOf(part), part.index)
  }

  /** What the destination and the cache may look like between attempts. */
  ghost predicate Ready(destination: Option<Bytes>, cache: Cache, identity: string, asset: Bytes) {
    Trusted(cache, identity, asset)
        && (destination.Some? && |destination.value| <= |asset| ==> destination.value <= asset)
  }

  /** Chunks of other URLs do not matter. */
  lemma OtherUrlsAreFree(cache: Cache, other: Cache, identity: string, asset: Bytes)
    requires Trusted(cache, identity, asset)
    requires forall part | part in other && part.identity == identity :: part in cache && cache[part] == other[part]
    ensures Trusted(other, identity, asset)
  {
  }

  /** Every 206 answer follows range semantics for the asset; all other answers and failures are unrestricted. */
  ghost predicate HonestWorld(w: World, asset: Bytes) {
    forall i, k | i in w.answers && 0 <= k < |w.answers[i]| :: Honest(w.answers[i][k], asset)
  }

  predicate For(job: Job, identity: string, asset: Bytes) {
    job.identity == identity && job.size == |asset| && Sensible(job)
  }

  lemma {:induction false} FetchedIsSlice(job: Job, i: nat, replies: seq<Reply>, k: nat, asset: Bytes)
    requires Sensible(job) && i < Count(job) && |asset| == job.size
    requires forall a | 0 <= a < |replies| :: Honest(replies[a], asset)
    ensures Fetched(job, i, replies, k).Some? ==> Fetched(job, i, replies, k).value == Slice(asset, job, i)
    decreases ATTEMPTS - k
  {
    hide Honest;
    if k < ATTEMPTS && k < |replies| {
      if Accepted(replies[k], job, i) {
        AcceptedIsSlice(replies[k], job, i, asset);
      }
      FetchedIsSlice(job, i, replies, k + 1, asset);
    }
  }

  lemma SameChunk(job: Job, i: nat, asset: Bytes)
    requires Sensible(job) && i < Count(job) && |asset| == job.size
    ensures Relevant(Name(job, i), job.identity, asset)
    ensures Length(JobOf(Name(job, i)), i) == Length(job, i)
    ensures Slice(asset, JobOf(Name(job, i)), i) == Slice(asset, job, i)
  {
  }

  /** Chunk `i` of a trusted cache, or of an honest answer, is the asset's. */
  lemma PieceIsSlice(cache: Cache, job: Job, i: nat, w: World, identity: string, asset: Bytes)
    requires For(job, identity, asset) && i < Count(job) && Trusted(cache, identity, asset) && HonestWorld(w, asset)
    ensures Piece(cache, job, i, w).Some? ==> Piece(cache, job, i, w).value == Slice(asset, job, i)
    ensures Body(job, i, w).Some? ==> Body(job, i, w).value == Slice(asset, job, i)
  {
    SameChunk(job, i, asset);
    FetchedIsSlice(job, i, Answers(w, i), 0, asset);
  }

  lemma TrustedWith(cache: Cache, job: Job, i: nat, bytes: Bytes, identity: string, asset: Bytes)
    requires For(job, identity, asset) && i < Count(job) && Trusted(cache, identity, asset)
    requires bytes == Slice(asset, job, i)
    ensures Trusted(cache[Name(job, i) := bytes], identity, asset)
  {
    SameChunk(job, i, asset);
  }

  lemma PrefixSlices(a: Bytes, b: Bytes, from: nat, to: nat)
    requires a <= b && from <= to <= |a|
    ensures a[from..to] == b[from..to]
    ensures |a| == |b| ==> a == b
  {
  }

  lemma {:induction false} SeededIsTrusted(cache: Cache, job: Job, destination: Option<Bytes>, k: nat, identity: string,
                                           asset: Bytes)
    requires For(job, identity, asset) && k <= Whole(destination, job) && Ready(destination, cache, identity, asset)
    ensures Trusted(Seeded(cache, job, destination, k), identity, asset)
  {
    hide Trusted, Valid, Beyond;
    if k > 0 {
      SeededIsTrusted(cache, job, destination, k - 1, identity, asset);
      WholeChunk(destination, job, k - 1);
      PrefixSlices(destination.value, asset, First(job, k - 1), First(job, k));
      SliceOfWhole(destination, job, k - 1, asset);
      hide First, Whole;
      TrustedWith(Seeded(cache, job, destination, k - 1), job, k - 1, Slice(asset, job, k - 1), identity, asset);
    }
  }

  lemma SliceOfWhole(destination: Option<Bytes>, job: Job, i: nat, asset: Bytes)
    requires Sensible(job) && |asset| == job.size && i < Whole(destination, job)
    ensures i < Count(job) && First(job, i) <= First(job, i + 1) <= |asset|
    ensures Slice(asset, job, i) == asset[First(job, i)..First(job, i + 1)]
  {
    WholeChunk(destination, job, i);
  }

  lemma FetchedIsTrusted(start: Cache, after: Cache, job: Job, w: World, which: set<nat>, identity: string,
      asset: Bytes)
    requires For(job, identity, asset) && Trusted(start, identity, asset) && HonestWorld(w, asset)
    requires FetchedInto(start, after, job, w, which)
    ensures Trusted(after, identity, asset)
  {
    hide Honest, HonestWorld;
    forall part | part in after && Relevant(part, identity, asset)
                  && |after[part]| == Length(JobOf(part), part.index)
      ensures after[part] == Slice(asset, JobOf(part), part.index)
    {
      assert Get(after, part) == if part.index in which && Delivered(start, job, w, part)
                                 then Body(job, part.index, w) else Get(start, part);
      if Delivered(start, job, w, part) {
        PieceIsSlice(start, job, part.index, w, identity, asset);
        SameChunk(job, part.index, asset);
      }
    }
  }

  /** A failed attempt leaves everything fit for the next one. */
  lemma FailedStaysReady(before: Cache, after: Cache, job: Job, w: World, destination: Option<Bytes>, identity: string,
                         asset: Bytes)
    requires For(job, identity, asset) && Ready(destination, before, identity, asset) && HonestWorld(w, asset)
    requires FailedFrom(before, after, job, w, destination)
    ensures Ready(destination, after, identity, asset)
  {
    hide FetchedInto, Trusted, HonestWorld, Whole, Seeded, Truncate;
    var reached: nat, which: set<nat>, parts: set<Part>, cache: Cache :|
      reached <= Whole(destination, job)
      && FetchedInto(Seeded(before, job, destination, reached), cache, job, w, which)
      && after == Truncate(cache, parts);
    SeededIsTrusted(before, job, destination, reached, identity, asset);
    FetchedIsTrusted(Seeded(before, job, destination, reached), cache, job, w, which, identity, asset);
    TruncatedIsTrusted(cache, parts, identity, asset);
  }

  /** A file without bytes is no complete chunk. */
  lemma TruncatedIsTrusted(cache: Cache, parts: set<Part>, identity: string, asset: Bytes)
    requires Trusted(cache, identity, asset)
    ensures Trusted(Truncate(cache, parts), identity, asset)
  {
  }

  lemma SliceFollows(job: Job, i: nat, asset: Bytes)
    requires Sensible(job) && i < Count(job) && |asset| == job.size
    ensures Reached(job, i) <= Reached(job, i + 1) <= |asset|
    ensures asset[..Reached(job, i + 1)] == asset[..Reached(job, i)] + Slice(asset, job, i)
  {
    ReachedStep(job, i);
    InRange(job, i);
    InRange(job, i + 1);
  }

  /** The chunks joined in order are the asset. */
  lemma {:induction false} ContentIsPrefix(cache: Cache, job: Job, w: World, n: nat, identity: string, asset: Bytes)
    requires For(job, identity, asset) && Trusted(cache, identity, asset) && HonestWorld(w, asset)
    requires n <= Count(job) && AllThere(cache, job, w, n)
    ensures Reached(job, n) <= |asset| && Content(cache, job, w, n) == asset[..Reached(job, n)]
  {
    hide Trusted, HonestWorld, Slice, Valid, Body, Beyond;
    if n > 0 {
      ContentIsPrefix(cache, job, w, n - 1, identity, asset);
      PieceIsSlice(cache, job, n - 1, w, identity, asset);
      SliceFollows(job, n - 1, asset);
      hide Reached;
    } else {
      ReachedStep(job, 0);
    }
  }

  /** An attempt that assembles its chunks assembles the asset, whatever failed before. */
  lemma AssembledIsAsset(cache: Cache, job: Job, w: World, destination: Option<Bytes>, identity: string, asset: Bytes)
    requires For(job, identity, asset) && Ready(destination, cache, identity, asset) && HonestWorld(w, asset)
    requires AllThere(Imported(cache, job, destination), job, w, Count(job))
    ensures Content(Imported(cache, job, destination), job, w, Count(job)) == asset
  {
    hide Trusted, HonestWorld, Seeded, AllThere;
    SeededIsTrusted(cache, job, destination, Whole(destination, job), identity, asset);
    ContentIsPrefix(Imported(cache, job, destination), job, w, Count(job), identity, asset);
    assert asset[..|asset|] == asset;
  }

  /** A download of the right length. */
  predicate Finished(destination: Option<Bytes>, job: Job) {
    destination.Some? && |destination.value| == job.size
  }

  /** One try of the timer. */
  datatype Try = Try(job: Job, workers: int, world: World)

  /** Attempts until one ends with the destination in place, with any mixture of chunk lengths and worker counts. */
  method Persist(d: Downloader, tries: seq<Try>, ghost identity: string, ghost asset: Bytes) returns (outcome: Outcome)
    requires Ready(d.destination, d.cache, identity, asset)
    requires forall t | t in tries :: For(t.job, identity, asset) && HonestWorld(t.world, asset)
    modifies d
    ensures outcome.Assembled? || outcome.AlreadyThere? ==> d.destination == Some(asset)
    ensures !outcome.Assembled? ==> d.destination == old(d.destination)
    ensures outcome.Failed? || outcome.Invalid? ==> Ready(d.destination, d.cache, identity, asset)
  {
    hide Trusted, HonestWorld, FailedFrom, AllThere, Content, Seeded;
    outcome := Failed;
    for k := 0 to |tries|
      invariant d.destination == old(d.destination) && Ready(d.destination, d.cache, identity, asset)
      invariant outcome.Failed? || outcome.Invalid?
    {
      var t := tries[k];
      assert t in tries;
      ghost var before := d.cache;
      var requested: seq<nat>;
      outcome, requested := d.DownloadParallel(t.job, t.workers, t.world);
      if outcome.Assembled? {
        AssembledIsAsset(before, t.job, t.world, old(d.destination), identity, asset);
        return;
      }
      if outcome.AlreadyThere? {
        PrefixSlices(d.destination.value, asset, 0, 0);
        return;
      }
      if outcome.Failed? {
        FailedStaysReady(before, d.cache, t.job, t.world, d.destination, identity, asset);
      }
    }
  }

  /** For every chunk one of the first three answers is the one that range semantics ask for, from a listed host if
      there is a list. */
  ghost predicate Serves(w: World, job: Job, asset: Bytes)
    requires Sensible(job) && |asset| == job.size
  {
    forall i: nat | i * job.chunk < job.size ::
      exists k: nat :: k < 3 && k < |Answers(w, i)| && Serving(Answers(w, i)[k], job, i, asset)
  }

  predicate Serving(reply: Reply, job: Job, i: nat, asset: Bytes)
    requires Sensible(job) && |asset| == job.size && i * job.chunk < job.size
  {
    && reply.Response? && (job.allowed.Some? ==> reply.host in job.allowed.value)
    && reply == Conforming(asset, i * job.chunk, LastByte(job, i * job.chunk), reply.host)
  }

  lemma ServedIsThere(w: World, job: Job, asset: Bytes, cache: Cache)
    requires Sensible(job) && |asset| == job.size && Serves(w, job, asset)
    ensures AllThere(cache, job, w, Count(job))
  {
    hide Conforming, ReplyRefused;
    forall i: nat | i < Count(job) ensures Piece(cache, job, i, w).Some? {
      InRange(job, i);
      var k: nat :| k < 3 && k < |Answers(w, i)| && Serving(Answers(w, i)[k], job, i, asset);
      ConformingIsUsable(job, i, asset, Answers(w, i)[k].host);
      SomeIsUsed(job, i, Answers(w, i), k);
      var j: nat :| UsedAt(job, i, Answers(w, i), j);
      UsedIsFetched(job, i, Answers(w, i), 0, j);
    }
  }

  /** Where every chunk is served within three attempts and nothing interferes, one download ends with the asset in
      place, whatever chunks were left from before and whatever the other answers were. */
  method Deliver(d: Downloader, job: Job, workers: int, w: World, ghost identity: string, ghost asset: Bytes)
    returns (outcome: Outcome)
    requires For(job, identity, asset) && 1 <= workers <= 8
    requires Undisturbed(d.cache, job, w, d.destination)
    requires Ready(d.destination, d.cache, identity, asset) && HonestWorld(w, asset) && Serves(w, job, asset)
    modifies d
    ensures outcome.Assembled? || outcome.AlreadyThere?
    ensures d.destination == Some(asset)
  {
    hide Trusted, HonestWorld, FailedFrom, AllThere, Content, Seeded, Serves, Undisturbed;
    ghost var before := d.cache;
    ServedIsThere(w, job, asset, Imported(d.cache, job, d.destination));
    var requested: seq<nat>;
    outcome, requested := d.DownloadParallel(job, workers, w);
    if outcome.Assembled? {
      AssembledIsAsset(before, job, w, old(d.destination), identity, asset);
    } else {
      PrefixSlices(d.destination.value, asset, 0, 0);
    }
  }

  /** The updater's use of it for a large asset: the digest decides, and bytes that it rejects are removed together with
      every chunk, so that no later attempt can use them. */
  method DownloadLarge(d: Downloader, job: Job, w: World, sha: Bytes -> string, expected: string)
    returns (target: Option<Bytes>, rejected: bool)
    requires Sensible(job)
    modifies d
    ensures target.Some? ==> sha(target.value) == expected && |target.value| == job.size && d.destination == target
    ensures rejected ==> target.None? && d.destination.None? && d.cache == map[]
    ensures rejected ==> forall identity, asset :: Ready(d.destination, d.cache, identity, asset)
    ensures target.None? && !rejected ==>
              if Finished(old(d.destination), job) then d.destination.None? else d.destination == old(d.destination)
    ensures Finished(old(d.destination), job) && sha(old(d.destination).value) == expected ==>
              target == old(d.destination) && d.cache == old(d.cache)
  {
    if Finished(d.destination, job) && sha(d.destination.value) != expected {
      d.destination, d.cache := None, map[];
    }
    hide AllThere, Content, Imported, Missing, FailedFrom;
    var outcome, requested := d.DownloadParallel(job, 8, w);
    if !outcome.Assembled? && !outcome.AlreadyThere? {
      return None, false;
    }
    if sha(d.destination.value) != expected {
      d.destination, d.cache := None, map[];
      NothingLeftIsReady();
      return None, true;
    }
    target, rejected := d.destination, false;
  }

  /** Nothing is left of rejected bytes: whatever the asset is, an empty cache and no destination are fit to start
      from. */
  lemma NothingLeftIsReady()
    ensures forall identity, asset :: Ready(None, map[], identity, asset)
  {
  }
}
