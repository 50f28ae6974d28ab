/** The signed journal file: reading it back, and what every accepted journal guarantees. */
module Journal {
  import opened Wrappers
  import opened Sequences
  import opened Text
  import opened Ledger

  // ----- records

  function MakeRecord(env: Env, body: Body, key: string): Signed {
    var digest := env.sha(env.canonical(BodyJson(body)));
    Signed(body, digest, env.mac(key, env.canonical(UnsignedJson(body, digest))))
  }

  function LastHash(records: seq<Signed>): string {
    if records == [] then ZERO else records[|records| - 1].sha256
  }

  function LastSequence(records: seq<Signed>): nat {
    if records == [] then 0 else Num(records[|records| - 1].body.page.next_sequence)
  }

  function LastChain(records: seq<Signed>): string {
    if records == [] then ZERO else records[|records| - 1].body.page.next_chain
  }

  /** All events retained by the records, in order. */
  function Events(records: seq<Signed>): seq<Item> {
    if records == [] then [] else Events(records[..|records| - 1]) + records[|records| - 1].body.page.items
  }

  // ----- head commitments

  /** `p` continues `prior` without contradicting any head that an earlier page has witnessed. */
  ghost predicate HeadsHonoured(env: Env, prior: seq<Signed>, p: Page) {
    && (forall i, j | 0 <= i < |prior| && 0 <= j < |prior| && Head(prior, i) == Head(prior, j) ::
          Digest(prior, i) == Digest(prior, j))
    && (forall i | 0 <= i < |prior| && Head(prior, i) == p.head_sequence :: Digest(prior, i) == p.head_chain)
    && (forall i | 0 <= i < |prior| && Head(prior, i) == p.after_sequence :: Digest(prior, i) == p.after_chain)
    && (forall k | 0 <= k < |p.items| :: ReachedHonoured(env, prior, p, k))
  }

  /** The chain at event `k` of `p` is the one that every record committing to that event's sequence has announced. */
  ghost predicate ReachedHonoured(env: Env, prior: seq<Signed>, p: Page, k: nat)
    requires k < |p.items|
  {
    forall i | 0 <= i < |prior| && Head(prior, i) == p.items[k].sequence ::
      Digest(prior, i) == Chain(env, p.after_chain, p.items[..k + 1])
  }

  /** The head sequence that record `i` commits to. */
  function Head(records: seq<Signed>, i: nat): string
    requires i < |records|
  {
    records[i].body.page.head_sequence
  }

  /** The chain value that record `i` commits to for its head. */
  function Digest(records: seq<Signed>, i: nat): string
    requires i < |records|
  {
    records[i].body.page.head_chain
  }

  /** The commitments of some records as a dictionary: every head, with the one digest it may have. */
  ghost predicate Commits(commitments: map<string, string>, records: seq<Signed>) {
    && (forall i | 0 <= i < |records| :: Head(records, i) in commitments
                                         && commitments[Head(records, i)] == Digest(records, i))
    && (forall s | s in commitments :: exists i | 0 <= i < |records| :: Head(records, i) == s)
  }

  /** Collect the commitments of `records`, or refuse two that disagree. */
  method CollectCommitments(records: seq<Signed>) returns (r: Result<map<string, string>>)
    ensures r.Ok? <==> forall i, j | 0 <= i < |records| && 0 <= j < |records| && Head(records, i) == Head(records, j) ::
                         Digest(records, i) == Digest(records, j)
    ensures r.Ok? ==> Commits(r.value, records)
  {
    var commitments: map<string, string> := map[];
    var i := 0;
    while i < |records|
      invariant 0 <= i <= |records|
      invariant forall k | 0 <= k < i :: Head(records, k) in commitments
                                         && commitments[Head(records, k)] == Digest(records, k)
      invariant forall s | s in commitments :: exists k | 0 <= k < i :: Head(records, k) == s
    {
      var head, digest := Head(records, i), Digest(records, i);
      if head in commitments && commitments[head] != digest {
        var k :| 0 <= k < i && Head(records, k) == head;
        return Refused;
      }
      commitments := commitments[head := digest];
      i := i + 1;
    }
    r := Ok(commitments);
  }

  /** The heads reached inside a page, against the chain recomputed event by event. */
  method WalkPage(env: Env, now: int, records: seq<Signed>, commitments: map<string, string>, p: Page)
    returns (ok: bool)
    requires PageOk(env, now, p) && Commits(commitments, records)
    ensures ok <==> forall k | 0 <= k < |p.items| :: ReachedHonoured(env, records, p, k)
  {
    hide ItemsOk, HeaderOk;
    var chain := p.after_chain;
    var k := 0;
    TakeAll(p.items);
    while k < |p.items|
      invariant 0 <= k <= |p.items|
      invariant chain == Chain(env, p.after_chain, p.items[..k])
      invariant forall j | 0 <= j < k :: ReachedHonoured(env, records, p, j)
    {
      chain := NextLink(env, now, p.after_chain, p.items, Num(p.after_sequence), k, chain);
      LookUp(commitments, records, p.items[k].sequence, chain);
      assert ReachedHonoured(env, records, p, k)
        <==> (p.items[k].sequence in commitments ==> commitments[p.items[k].sequence] == chain);
      if p.items[k].sequence in commitments && commitments[p.items[k].sequence] != chain {
        return false;
      }
      k := k + 1;
    }
    ok := true;
  }

  /** Compare a page with every head witnessed before it. */
  method ValidateHeadCommitments(env: Env, now: int, records: seq<Signed>, p: Page) returns (ok: bool)
    requires PageOk(env, now, p)
    ensures ok <==> HeadsHonoured(env, records, p)
  {
    var collected := CollectCommitments(records);
    if collected.Refused? {
      return false;
    }
    var commitments := collected.value;
    LookUp(commitments, records, p.head_sequence, p.head_chain);
    if p.head_sequence in commitments && commitments[p.head_sequence] != p.head_chain {
      return false;
    }
    LookUp(commitments, records, p.after_sequence, p.after_chain);
    if p.after_sequence in commitments && commitments[p.after_sequence] != p.after_chain {
      return false;
    }
    ok := WalkPage(env, now, records, commitments, p);
  }

  /** Asking the dictionary about one sequence is asking every record that committed to it. */
  lemma LookUp(commitments: map<string, string>, records: seq<Signed>, s: string, digest: string)
    requires Commits(commitments, records)
    ensures (s in commitments ==> commitments[s] == digest)
       <==> forall i | 0 <= i < |records| && Head(records, i) == s :: Digest(records, i) == digest
  {
  }

  // ----- reading the file

  /** One line of the file as a record; shape and length only. */
  function ParseLine(env: Env, line: string): Option<Signed> {
    if |line| <= 2 * MAX_PAGE && line != "" && line[|line| - 1] == '\n' then
      match env.parse(line)
      case Some(SignedJson(signed)) => Some(signed)
      case _ => None
    else None
  }

  /** `r` may follow the records `prior`. */
  ghost predicate RecordOk(env: Env, key: string, now: int, prior: seq<Signed>, r: Signed) {
    && env.canonical(SignedJson(r)) == env.canonical(SignedJson(MakeRecord(env, r.body, key)))
    && PageOk(env, now, r.body.page)
    && r.body.previous_sha256 == LastHash(prior)
    && Num(r.body.page.after_sequence) == LastSequence(prior)
    && (prior != [] ==> SameSource(prior[|prior| - 1].body.page, r.body.page))
    && r.body.page.after_chain == LastChain(prior)
    && HeadsHonoured(env, prior, r.body.page)
  }

  predicate SameSource(a: Page, b: Page) {
    a.instance_id == b.instance_id && a.stream_id == b.stream_id
  }

  ghost predicate JournalOk(env: Env, key: string, now: int, records: seq<Signed>) {
    records == [] ||
    (JournalOk(env, key, now, records[..|records| - 1])
     && RecordOk(env, key, now, records[..|records| - 1], records[|records| - 1]))
  }

  /** What the lines of a file hold, if the file is acceptable. */
  ghost function ReadLines(env: Env, key: string, now: int, lines: seq<string>): (r: Result<seq<Signed>>)
    ensures r.Ok? ==> |r.value| == |lines|
  {
    if lines == [] then Ok([])
    else
      var prior :- ReadLines(env, key, now, lines[..|lines| - 1]);
      match ParseLine(env, lines[|lines| - 1])
      case Some(r) => if RecordOk(env, key, now, prior, r) then Ok(prior + [r]) else Refused
      case None => Refused
  }

  ghost function ReadFile(env: Env, key: string, now: int, file: string): Result<seq<Signed>> {
    ReadLines(env, key, now, Lines(file))
  }

  lemma ReadStep(env: Env, key: string, now: int, lines: seq<string>, k: nat)
    requires k < |lines|
    ensures ReadLines(env, key, now, lines[..k]).Refused? ==> ReadLines(env, key, now, lines[..k + 1]).Refused?
    ensures var prior := ReadLines(env, key, now, lines[..k]);
            prior.Ok? ==> ReadLines(env, key, now, lines[..k + 1])
                          == match ParseLine(env, lines[k])
                             case Some(r) => (if RecordOk(env, key, now, prior.value, r) then Ok(prior.value + [r])
                                              else Refused)
                             case None => Refused
  {
    TakeTake(lines, k, k + 1);
  }

  lemma {:induction false} ReadRefusalSticks(env: Env, key: string, now: int, lines: seq<string>, k: nat)
    requires k <= |lines| && ReadLines(env, key, now, lines[..k]).Refused?
    ensures ReadLines(env, key, now, lines).Refused?
    decreases |lines| - k
  {
    if k == |lines| {
      TakeAll(lines);
    } else {
      ReadStep(env, key, now, lines, k);
      ReadRefusalSticks(env, key, now, lines, k + 1);
    }
  }

  /** Read and re-validate the whole file, line by line. */
  method ReadRecords(env: Env, key: string, now: int, file: string) returns (r: Result<seq<Signed>>)
    ensures r == ReadFile(env, key, now, file)
  {
    hide RecordOk, ParseLine;
    var lines := Lines(file);
    var records: seq<Signed> := [];
    var previous, sequence, prefix := ZERO, 0, ZERO;
    var identity: Option<(string, string)> := None;
    var k := 0;
    TakeAll(lines);
    while k < |lines|
      invariant 0 <= k <= |lines|
      invariant ReadLines(env, key, now, lines[..k]) == Ok(records)
      invariant previous == LastHash(records) && sequence == LastSequence(records) && prefix == LastChain(records)
      invariant identity == if records == [] then None
                            else Some((records[|records| - 1].body.page.instance_id,
                                       records[|records| - 1].body.page.stream_id))
    {
      ReadStep(env, key, now, lines, k);
      var checked := CheckLine(env, key, now, lines[k], records, previous, sequence, prefix, identity);
      if checked.Refused? {
        ReadRefusalSticks(env, key, now, lines, k + 1);
        return Refused;
      }
      var next := checked.value;
      previous, sequence, prefix := next.sha256, Num(next.body.page.next_sequence), next.body.page.next_chain;
      identity := Some((next.body.page.instance_id, next.body.page.stream_id));
      DropLast(records, next);
      records := records + [next];
      k := k + 1;
    }
    r := Ok(records);
  }

  /** The body of the reading loop: one line against the state carried from the lines before it. */
  method CheckLine(env: Env, key: string, now: int, line: string, records: seq<Signed>, previous: string,
                   sequence: nat, prefix: string, identity: Option<(string, string)>)
    returns (r: Result<Signed>)
    requires previous == LastHash(records) && sequence == LastSequence(records) && prefix == LastChain(records)
    requires identity == if records == [] then None
                         else Some((records[|records| - 1].body.page.instance_id,
                                    records[|records| - 1].body.page.stream_id))
    ensures r.Ok? <==> ParseLine(env, line).Some? && RecordOk(env, key, now, records, ParseLine(env, line).value)
    ensures r.Ok? ==> r.value == ParseLine(env, line).value
  {
    var item := ParseLine(env, line);
    if item.None? {
      return Refused;
    }
    var record := item.value;
    var p := record.body.page;
    if env.canonical(SignedJson(record)) != env.canonical(SignedJson(MakeRecord(env, record.body, key))) {
      return Refused;
    }
    var valid := ValidatePage(env, now, p);
    if !valid || record.body.previous_sha256 != previous || Num(p.after_sequence) != sequence
       || !(identity == None || identity == Some((p.instance_id, p.stream_id))) || p.after_chain != prefix {
      return Refused;
    }
    var honoured := ValidateHeadCommitments(env, now, records, p);
    r := if honoured then Ok(record) else Refused;
  }
}
