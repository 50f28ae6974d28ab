/** Which answer to a range request is used, on its own fields. */
module Replies {
  import opened Wrappers
  import opened Text
  import opened Ranges

  datatype ReplyFault = Usable | NoAnswer | OutsideHosts | NotPartial | OtherRange | WrongLength | NotWritten

  /** The last byte of the chunk that begins at `first`. */
  function LastByte(job: Job, first: nat): nat
    requires first < job.size && job.chunk > 0
  {
    if first + job.chunk < job.size then first + job.chunk - 1 else job.size - 1
  }

  /** Why an answer to the request for chunk `i` is not used, by the first check that fails. */
  function ReplyRefused(job: Job, i: nat, reply: Reply): ReplyFault
    requires job.chunk > 0 && i * job.chunk < job.size
  {
    var first := i * job.chunk;
    var last := LastByte(job, first);
    if reply.Failure? then NoAnswer
    else if job.allowed.Some? && (!reply.https || reply.host !in job.allowed.value) then OutsideHosts
    else if reply.status != 206 then NotPartial
    else if reply.range != Some("bytes " + Decimal(first) + "-" + Decimal(last) + "/" + Decimal(job.size))
      then OtherRange
    else if |reply.body| != last + 1 - first then WrongLength
    else if !reply.written then NotWritten
    else Usable
  }

  lemma UsableExactly(job: Job, i: nat, reply: Reply)
    requires job.chunk > 0 && i < Count(job)
    ensures i * job.chunk < job.size
    ensures Accepted(reply, job, i) && reply.written <==> ReplyRefused(job, i, reply).Usable?
  {
    InRange(job, i);
    hide Decimal;
  }

  /** Attempt `k` is the first of the three whose answer is used. */
  predicate UsedAt(job: Job, i: nat, replies: seq<Reply>, k: nat)
    requires job.chunk > 0 && i * job.chunk < job.size
  {
    && k < 3 && k < |replies| && ReplyRefused(job, i, replies[k]).Usable?
    && forall j | 0 <= j < k :: !ReplyRefused(job, i, replies[j]).Usable?
  }

  /** The answer that range semantics ask for: these bytes of the asset, over https from that host. */
  function Conforming(asset: Bytes, first: nat, last: nat, host: string): Reply
    requires first <= last < |asset|
  {
    Response(true, host, 206, Some(RangeText(first, last, |asset|)), asset[first..last + 1], true)
  }

  /** A conforming answer from a listed host is used, whichever host it is if there is no list. */
  lemma ConformingIsUsable(job: Job, i: nat, asset: Bytes, host: string)
    requires job.chunk > 0 && i * job.chunk < job.size && |asset| == job.size
    requires job.allowed.Some? ==> host in job.allowed.value
    ensures ReplyRefused(job, i, Conforming(asset, i * job.chunk, LastByte(job, i * job.chunk), host)).Usable?
  {
    hide Decimal;
  }

  /** Among three answers the first one that can be used is. */
  lemma SomeIsUsed(job: Job, i: nat, replies: seq<Reply>, k: nat)
    requires job.chunk > 0 && i * job.chunk < job.size
    requires k < 3 && k < |replies| && ReplyRefused(job, i, replies[k]).Usable?
    ensures exists j :: UsedAt(job, i, replies, j)
  {
    if forall j | 0 <= j < k :: !ReplyRefused(job, i, replies[j]).Usable? {
      assert UsedAt(job, i, replies, k);
    } else {
      var j: nat :| j < k && ReplyRefused(job, i, replies[j]).Usable?;
      SomeIsUsed(job, i, replies, j);
    }
  }
}
