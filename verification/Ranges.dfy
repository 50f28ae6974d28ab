/** How an asset is cut into byte ranges, and what a server promises about one range. */
module Ranges {
  import opened Wrappers
  import opened Text

  const ATTEMPTS := 3
  const MAX_WORKERS := 8
  const MAX_CHUNK := 4194304

  /** What is downloaded and in which pieces. `identity` is the digest of the URL. */
  datatype Job = Job(identity: string, size: nat, chunk: nat, allowed: Option<set<string>>)

  /** Number of chunks: the size divided by the chunk length, rounded up. */
  function Count(job: Job): nat
    requires job.chunk > 0
  {
    (job.size + job.chunk - 1) / job.chunk
  }

  function First(job: Job, i: nat): nat {
    i * job.chunk
  }

  /** One past the last byte of chunk `i`. */
  function Beyond(job: Job, i: nat): nat {
    if i * job.chunk + job.chunk <= job.size then i * job.chunk + job.chunk else job.size
  }

  lemma DividedBy(a: nat, n: nat)
    requires n > 0
    ensures (a + n - 1) / n * n >= a
    ensures a > 0 ==> ((a + n - 1) / n - 1) * n < a
  {
    var q, rest := (a + n - 1) / n, (a + n - 1) % n;
    assert q * n + rest == a + n - 1;
    assert (q - 1) * n == q * n - n;
  }

  lemma Monotone(a: nat, b: nat, n: nat)
    requires a <= b
    ensures a * n <= b * n
  {
  }

  lemma NextMultiple(a: nat, b: nat, n: nat)
    ensures a < b ==> a * n + n <= b * n
  {
    if a < b {
      Monotone(a + 1, b, n);
      assert (a + 1) * n == a * n + n;
    }
  }

  /** Chunk `i` exists exactly if its first byte is one of the asset's. */
  lemma InRange(job: Job, i: nat)
    requires job.chunk > 0
    ensures i < Count(job) <==> First(job, i) < job.size
    ensures i < Count(job) ==> First(job, i) < Beyond(job, i) <= job.size
    ensures i < Count(job) ==> Beyond(job, i) - First(job, i) <= job.chunk
    ensures i + 1 < Count(job) ==> Beyond(job, i) == First(job, i + 1)
    ensures i + 1 == Count(job) ==> Beyond(job, i) == job.size
  {
    var n, c := Count(job), job.chunk;
    DividedBy(job.size, c);
    if i < n {
      Monotone(i, n - 1, c);
    } else {
      Monotone(n, i, c);
    }
    assert (i + 1) * c == i * c + c;
    if i + 1 < n {
      Monotone(i + 1, n - 1, c);
    } else if i + 1 == n {
      assert n * c >= job.size;
    }
  }

  /** The chunks partition the asset: every byte lies in exactly one of them. */
  lemma RangesPartition(job: Job, k: nat)
    requires job.chunk > 0 && k < job.size
    ensures k / job.chunk < Count(job)
    ensures First(job, k / job.chunk) <= k < Beyond(job, k / job.chunk)
    ensures forall i: nat | i < Count(job) && First(job, i) <= k < Beyond(job, i) :: i == k / job.chunk
  {
    var q := k / job.chunk;
    assert q * job.chunk + k % job.chunk == k;
    InRange(job, q);
    forall i: nat | i < Count(job) && First(job, i) <= k < Beyond(job, i) ensures i == q {
      InRange(job, i);
      NextMultiple(i, q, job.chunk);
      NextMultiple(q, i, job.chunk);
    }
  }

  function Length(job: Job, i: nat): (n: nat)
    requires job.chunk > 0 && i < Count(job)
    ensures 0 < n <= job.chunk
  {
    InRange(job, i);
    Beyond(job, i) - First(job, i)
  }

  /** Length of the first `n` chunks. */
  function Reached(job: Job, n: nat): nat
    requires job.chunk > 0
  {
    if n == Count(job) then job.size else First(job, n)
  }

  lemma ReachedStep(job: Job, n: nat)
    requires job.chunk > 0
    ensures n == 0 ==> Reached(job, n) == 0
    ensures n < Count(job) ==> Reached(job, n + 1) == Reached(job, n) + Length(job, n)
    ensures n <= Count(job) ==> Reached(job, n) <= job.size
  {
    InRange(job, n);
    InRange(job, n + 1);
  }

  /** The bytes of chunk `i`. */
  function Slice(asset: Bytes, job: Job, i: nat): Bytes
    requires job.chunk > 0 && |asset| == job.size && i < Count(job)
  {
    InRange(job, i);
    asset[First(job, i)..Beyond(job, i)]
  }

  // ----- what a server answers

  /** The answer to one range request; `Failure` stands for every transport exception. `written` tells whether the
      chunk file could be replaced afterwards. */
  datatype Reply =
    | Failure
    | Response(https: bool, host: string, status: int, range: Option<string>, body: Bytes, written: bool)

  function RangeText(start: nat, end: nat, total: nat): string {
    "bytes " + Decimal(start) + "-" + Decimal(end) + "/" + Decimal(total)
  }

  lemma {:induction false} DigitsEnd(a: string, x: string, b: string, y: string, c: char)
    requires Digits(a) && Digits(b) && !IsDigit(c) && a + [c] + x == b + [c] + y
    ensures a == b && x == y
  {
    assert (a + [c] + x)[0] == (a + [c])[0] && (b + [c] + y)[0] == (b + [c])[0];
    if a == "" || b == "" {
      assert a == b == "";
      assert ([c] + x)[1..] == x && ([c] + y)[1..] == y;
      assert a + [c] + x == [c] + x && b + [c] + y == [c] + y;
    } else {
      assert (a + [c] + x)[0] == a[0] && (b + [c] + y)[0] == b[0];
      assert (a + [c] + x)[1..] == a[1..] + [c] + x && (b + [c] + y)[1..] == b[1..] + [c] + y;
      DigitsEnd(a[1..], x, b[1..], y, c);
      assert a == [a[0]] + a[1..] && b == [b[0]] + b[1..];
    }
  }

  lemma SamePrefix(prefix: string, x: string, y: string)
    requires prefix + x == prefix + y
    ensures x == y
  {
    assert (prefix + x)[|prefix|..] == x && (prefix + y)[|prefix|..] == y;
  }

  lemma RangeTextParts(s: nat, e: nat, t: nat)
    ensures RangeText(s, e, t) == "bytes " + (Decimal(s) + ['-'] + (Decimal(e) + ['/'] + Decimal(t)))
  {
    hide Decimal;
  }

  /** A Content-Range value names one range only. */
  lemma RangeTextInjective(s: nat, e: nat, t: nat, s': nat, e': nat, t': nat)
    requires RangeText(s, e, t) == RangeText(s', e', t')
    ensures s == s' && e == e' && t == t'
  {
    RangeTextParts(s, e, t);
    RangeTextParts(s', e', t');
    var a, b := Decimal(e) + ['/'] + Decimal(t), Decimal(e') + ['/'] + Decimal(t');
    hide RangeText, Decimal;
    SamePrefix("bytes ", Decimal(s) + ['-'] + a, Decimal(s') + ['-'] + b);
    DigitsEnd(Decimal(s), a, Decimal(s'), b, '-');
    DigitsEnd(Decimal(e), Decimal(t), Decimal(e'), Decimal(t'), '/');
    DecimalInjective(s, s');
    DecimalInjective(e, e');
    DecimalInjective(t, t');
  }

  /** Range semantics: a 206 answer carries the bytes that its Content-Range names, of the asset whose length it
      gives. */
  ghost predicate Honest(reply: Reply, asset: Bytes) {
    reply.Response? && reply.status == 206 ==>
      forall s: nat, e: nat, t: nat | reply.range == Some(RangeText(s, e, t)) && |reply.body| == e - s + 1 ::
        t == |asset| && s <= e < t && reply.body == asset[s..e + 1]
  }

  /** The answer that range semantics ask for is honest, so honesty excludes no conforming server. */
  lemma ConformingIsHonest(asset: Bytes, s: nat, e: nat, host: string, written: bool)
    requires s <= e < |asset|
    ensures Honest(Response(true, host, 206, Some(RangeText(s, e, |asset|)), asset[s..e + 1], written), asset)
  {
    forall s': nat, e': nat, t': nat | RangeText(s, e, |asset|) == RangeText(s', e', t')
      ensures s == s' && e == e' && |asset| == t'
    {
      RangeTextInjective(s, e, |asset|, s', e', t');
    }
  }

  /** The checks on one answer: final host, status, range and exact length. One extra byte is read to see whether the
      body is too long. */
  predicate Accepted(reply: Reply, job: Job, i: nat)
    requires job.chunk > 0 && i < Count(job)
  {
    InRange(job, i);
    && reply.Response?
    && (job.allowed.Some? ==> reply.https && reply.host in job.allowed.value)
    && reply.status == 206
    && reply.range == Some(RangeText(First(job, i), Beyond(job, i) - 1, job.size))
    && |reply.body| == Length(job, i)
  }

  /** An accepted honest answer is the chunk. */
  lemma AcceptedIsSlice(reply: Reply, job: Job, i: nat, asset: Bytes)
    requires job.chunk > 0 && i < Count(job) && |asset| == job.size && Accepted(reply, job, i) && Honest(reply, asset)
    ensures reply.body == Slice(asset, job, i)
  {
    InRange(job, i);
  }
}
