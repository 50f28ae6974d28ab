/** Why a line of the journal or an appended page is refused, in the order of the checks. */
module JournalFaults {
  import opened Wrappers
  import opened Text
  import opened Formats
  import opened Ledger
  import opened Journal
  import opened Commitments
  import opened Evidence
  import opened Append
  import opened PageFaults

  datatype Refusal =
    | Accepted | Unread | BadPage(fault: Fault) | BadDigest | BadSignature | BrokenLink | BrokenSequence | OtherSource
    | HistoryForked | HeadRolledBack | HeadForked

  // ----- what the records before say

  /** The digest, the sequence and the chain value that the next record has to continue. */
  ghost predicate Continued(prior: seq<Signed>, previous: string, after: nat, chain: string) {
    if prior == [] then Drawn(previous, "0", 64, 64) && after == 0 && Drawn(chain, "0", 64, 64)
    else
      var last := prior[|prior| - 1];
      previous == last.sha256 && after == Number(last.body.page.next_sequence) && chain == last.body.page.next_chain
  }

  /** Some head that was announced before is contradicted: by another announcement, or by what the page shows. */
  ghost predicate Contradicted(env: Env, prior: seq<Signed>, p: Page) {
    || (exists r, s | r in prior && s in prior ::
          r.body.page.head_sequence == s.body.page.head_sequence && r.body.page.head_chain != s.body.page.head_chain)
    || (exists r | r in prior ::
          || (r.body.page.head_sequence == p.head_sequence && r.body.page.head_chain != p.head_chain)
          || (r.body.page.head_sequence == p.after_sequence && r.body.page.head_chain != p.after_chain))
    || (exists r, k | r in prior && 0 <= k < |p.items| ::
          r.body.page.head_sequence == p.items[k].sequence
          && r.body.page.head_chain != Folded(env, p.after_chain, p.items[..k + 1]))
  }

  lemma ZeroExactly(s: string)
    ensures s == ZERO <==> Drawn(s, "0", 64, 64)
  {
    if |s| == 64 {
      ZerosExactly(s);
    }
  }

  lemma ContinuedExactly(prior: seq<Signed>, previous: string, after: nat, chain: string)
    ensures Continued(prior, previous, after, chain)
       <==> previous == LastHash(prior) && after == LastSequence(prior) && chain == LastChain(prior)
  {
    ZeroExactly(previous);
    ZeroExactly(chain);
    if prior != [] {
      NumberIsNum(prior[|prior| - 1].body.page.next_sequence);
    }
    hide Number, Drawn;
  }

  lemma HeadsExactly(env: Env, prior: seq<Signed>, p: Page)
    requires Codec(env)
    ensures HeadsHonoured(env, prior, p) <==> !Contradicted(env, prior, p)
  {
    forall k | 0 <= k < |p.items|
      ensures ReachedHonoured(env, prior, p, k)
         <==> forall r | r in prior && r.body.page.head_sequence == p.items[k].sequence ::
                r.body.page.head_chain == Folded(env, p.after_chain, p.items[..k + 1])
    {
      ReachedExactly(env, prior, p, k);
    }
    AnnouncedExactly(prior, p);
    hide ReachedHonoured, Chain, Folded, Codec, Head, Digest;
  }

  lemma ReachedExactly(env: Env, prior: seq<Signed>, p: Page, k: nat)
    requires Codec(env) && k < |p.items|
    ensures ReachedHonoured(env, prior, p, k)
       <==> forall r | r in prior && r.body.page.head_sequence == p.items[k].sequence ::
              r.body.page.head_chain == Folded(env, p.after_chain, p.items[..k + 1])
  {
    FoldedExactly(env, p.after_chain, p.items[..k + 1]);
    hide Chain, Folded, Codec;
    if ReachedHonoured(env, prior, p, k) {
      forall r | r in prior && r.body.page.head_sequence == p.items[k].sequence
        ensures r.body.page.head_chain == Folded(env, p.after_chain, p.items[..k + 1])
      {
        var i :| 0 <= i < |prior| && prior[i] == r;
        assert Head(prior, i) == p.items[k].sequence;
      }
    }
  }

  lemma AnnouncedExactly(prior: seq<Signed>, p: Page)
    ensures (forall i, j | 0 <= i < |prior| && 0 <= j < |prior| && Head(prior, i) == Head(prior, j) ::
               Digest(prior, i) == Digest(prior, j))
       <==> forall r, s | r in prior && s in prior && r.body.page.head_sequence == s.body.page.head_sequence ::
              r.body.page.head_chain == s.body.page.head_chain
    ensures (forall i | 0 <= i < |prior| && Head(prior, i) == p.head_sequence :: Digest(prior, i) == p.head_chain)
       <==> forall r | r in prior && r.body.page.head_sequence == p.head_sequence ::
              r.body.page.head_chain == p.head_chain
    ensures (forall i | 0 <= i < |prior| && Head(prior, i) == p.after_sequence :: Digest(prior, i) == p.after_chain)
       <==> forall r | r in prior && r.body.page.head_sequence == p.after_sequence ::
              r.body.page.head_chain == p.after_chain
  {
    PairsExactly(prior);
    OneExactly(prior, p.head_sequence, p.head_chain);
    OneExactly(prior, p.after_sequence, p.after_chain);
    hide Head, Digest;
  }

  lemma OneExactly(prior: seq<Signed>, head: string, chain: string)
    ensures (forall i | 0 <= i < |prior| && Head(prior, i) == head :: Digest(prior, i) == chain)
       <==> forall r | r in prior && r.body.page.head_sequence == head :: r.body.page.head_chain == chain
  {
    if forall i | 0 <= i < |prior| && Head(prior, i) == head :: Digest(prior, i) == chain {
      forall r | r in prior && r.body.page.head_sequence == head ensures r.body.page.head_chain == chain {
        var i :| 0 <= i < |prior| && prior[i] == r;
        assert Head(prior, i) == head;
      }
    }
  }

  lemma PairsExactly(prior: seq<Signed>)
    ensures (forall i, j | 0 <= i < |prior| && 0 <= j < |prior| && Head(prior, i) == Head(prior, j) ::
               Digest(prior, i) == Digest(prior, j))
       <==> forall r, s | r in prior && s in prior && r.body.page.head_sequence == s.body.page.head_sequence ::
              r.body.page.head_chain == s.body.page.head_chain
  {
    if forall i, j | 0 <= i < |prior| && 0 <= j < |prior| && Head(prior, i) == Head(prior, j) ::
         Digest(prior, i) == Digest(prior, j) {
      forall r, s | r in prior && s in prior && r.body.page.head_sequence == s.body.page.head_sequence
        ensures r.body.page.head_chain == s.body.page.head_chain
      {
        var i :| 0 <= i < |prior| && prior[i] == r;
        var j :| 0 <= j < |prior| && prior[j] == s;
        assert Head(prior, i) == Head(prior, j);
      }
    } else {
      var i, j :| 0 <= i < |prior| && 0 <= j < |prior| && Head(prior, i) == Head(prior, j)
                  && Digest(prior, i) != Digest(prior, j);
      assert prior[i] in prior && prior[j] in prior;
    }
  }

  // ----- reading a record

  ghost function RecordRefusal(env: Env, key: string, now: int, prior: seq<Signed>, r: Signed): Refusal {
    var p := r.body.page;
    if r.sha256 != env.sha(env.canonical(BodyJson(r.body))) then BadDigest
    else if r.hmac != env.mac(key, env.canonical(UnsignedJson(r.body, r.sha256))) then BadSignature
    else if !PageFault(env, now, p).NoFault? then BadPage(PageFault(env, now, p))
    else if !Continued(prior, r.body.previous_sha256, Number(p.after_sequence), p.after_chain) then BrokenLink
    else if prior != [] && p.instance_id != prior[|prior| - 1].body.page.instance_id then OtherSource
    else if prior != [] && p.stream_id != prior[|prior| - 1].body.page.stream_id then OtherSource
    else if Contradicted(env, prior, p) then HeadForked
    else Accepted
  }

  lemma RecordExactly(env: Env, key: string, now: int, prior: seq<Signed>, r: Signed)
    requires Codec(env)
    ensures RecordOk(env, key, now, prior, r) <==> RecordRefusal(env, key, now, prior, r).Accepted?
  {
    var p := r.body.page;
    AcceptedExactly(env, now, p);
    NumberIsNum(p.after_sequence);
    ContinuedExactly(prior, r.body.previous_sha256, Number(p.after_sequence), p.after_chain);
    HeadsExactly(env, prior, p);
    if env.canonical(SignedJson(r)) == env.canonical(SignedJson(MakeRecord(env, r.body, key))) {
      CanonicalInjective(env, SignedJson(r), SignedJson(MakeRecord(env, r.body, key)));
    }
    hide PageOk, PageFault, Number, Continued, HeadsHonoured, Contradicted, Codec, LastHash, LastSequence, LastChain;
  }

  // ----- appending a page

  /** The page asks again where the journal ends. */
  predicate AsksAgain(p: Page, last: Page) {
    && |p.items| == 0
    && (p.after_sequence, p.after_chain) == (last.next_sequence, last.next_chain)
    && (p.head_sequence, p.head_chain) == (last.head_sequence, last.head_chain)
  }

  /** Why the page is not appended to these records; an accepted page may also leave them as they are. */
  ghost function AppendRefusal(env: Env, now: int, records: seq<Signed>, p: Page): Refusal {
    if !PageFault(env, now, p).NoFault? then BadPage(PageFault(env, now, p))
    else if records == [] then
      if Number(p.after_sequence) != 0 then BrokenSequence
      else if Contradicted(env, records, p) then HeadForked
      else Accepted
    else
      var last := records[|records| - 1].body.page;
      if p.instance_id != last.instance_id || p.stream_id != last.stream_id then OtherSource
      else if p == last || AsksAgain(p, last) then Accepted
      else if Number(p.after_sequence) != Number(last.next_sequence) then BrokenSequence
      else if p.after_chain != last.next_chain then HistoryForked
      else if Number(p.head_sequence) < Number(last.head_sequence) then HeadRolledBack
      else if Contradicted(env, records, p) then HeadForked
      else Accepted
  }

  /** The record that is written: body, digest and signature, and the link to the record before. */
  ghost predicate IsNext(env: Env, key: string, records: seq<Signed>, p: Page, r: Signed) {
    && r.body.page == p
    && (if records == [] then Drawn(r.body.previous_sha256, "0", 64, 64)
        else r.body.previous_sha256 == records[|records| - 1].sha256)
    && r.sha256 == env.sha(env.canonical(BodyJson(r.body)))
    && r.hmac == env.mac(key, env.canonical(UnsignedJson(r.body, r.sha256)))
  }

  /** A page is appended if and only if the file is readable and nothing is wrong with the page there; the file then
      stays as it is for a page that is already its last or asks again, and grows by one line otherwise. */
  lemma AppendExactly(env: Env, key: string, now: int, file: string, p: Page)
    requires Codec(env)
    ensures var read, a := ReadFile(env, key, now, file), AppendSpec(env, key, now, file, p);
            && (a.Ok? <==> read.Ok? && AppendRefusal(env, now, read.value, p).Accepted?)
            && (a.Ok? ==>
                  var rs := read.value;
                  if rs != [] && (p == rs[|rs| - 1].body.page || AsksAgain(p, rs[|rs| - 1].body.page)) then
                    a.value.file == file && a.value.pin == rs[|rs| - 1].sha256
                  else
                    exists r :: IsNext(env, key, rs, p, r) && a.value.pin == r.sha256
                                && a.value.file == file + env.canonical(SignedJson(r)) + "\n")
  {
    hide PageOk, PageFault, Number, HeadsHonoured, Contradicted, Codec, ReadFile, Drawn, Decide, AppendRefusal;
    AcceptedExactly(env, now, p);
    var read := ReadFile(env, key, now, file);
    if !PageOk(env, now, p) {
      BadPageRefused(env, now, if read.Ok? then read.value else [], p);
    } else if read.Ok? {
      var rs := read.value;
      DecidesExactly(env, now, rs, p);
      var r := NextRecord(env, key, rs, p);
      ZeroExactly(r.body.previous_sha256);
      assert IsNext(env, key, rs, p, r);
      assert file + Line(env, r) == file + env.canonical(SignedJson(r)) + "\n";
    }
  }

  lemma BadPageRefused(env: Env, now: int, records: seq<Signed>, p: Page)
    requires !PageFault(env, now, p).NoFault?
    ensures !AppendRefusal(env, now, records, p).Accepted?
  {
  }

  lemma DecidesExactly(env: Env, now: int, records: seq<Signed>, p: Page)
    requires Codec(env) && PageOk(env, now, p)
    ensures Decide(env, records, p).Ok? <==> AppendRefusal(env, now, records, p).Accepted?
    ensures Decide(env, records, p) == Ok(Decision.Unchanged)
       <==> && AppendRefusal(env, now, records, p).Accepted? && records != []
            && (p == records[|records| - 1].body.page || AsksAgain(p, records[|records| - 1].body.page))
  {
    hide PageOk, PageFault, Number, HeadsHonoured, Contradicted, Codec;
    AcceptedExactly(env, now, p);
    HeadsExactly(env, records, p);
    NumberIsNum(p.after_sequence);
    NumberIsNum(p.head_sequence);
    if records != [] {
      var last := records[|records| - 1].body.page;
      NumberIsNum(last.next_sequence);
      NumberIsNum(last.head_sequence);
      assert Repoll(p, last) <==> AsksAgain(p, last);
      hide Repoll, AsksAgain;
    }
  }

  /** The report on an accepted journal that is not empty says this and nothing else. */
  lemma SummaryExactly(env: Env, key: string, now: int, file: string, s: Summary)
    requires ReadFile(env, key, now, file).Ok? && file != ""
    ensures var rs := ReadFile(env, key, now, file).value;
            && rs != []
            && (Describes(s, rs)
                <==> var last := rs[|rs| - 1];
                     s == Summary(last.body.page.instance_id, last.body.page.stream_id, last.body.page.next_sequence,
                                  last.body.page.head_sequence, !last.body.page.has_more, last.sha256, |rs|))
  {
    hide ReadLines, JournalOk, Events;
    SomeRecord(env, key, now, file);
    var rs := ReadFile(env, key, now, file).value;
    ReadIsJournal(env, key, now, Lines(file));
    LastPageDescribes(env, key, now, rs);
    var next := rs[|rs| - 1].body.page.next_sequence;
    DecimalRoundTrip(next);
    if Integer(s.sequence) == Ok(|Events(rs)|) {
      DecimalRoundTrip(s.sequence);
    }
  }
}
