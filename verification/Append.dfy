/** Extending the journal: one call, any sequence of calls, a torn write and the collection loop. */
module Append {
  import opened Wrappers
  import opened Sequences
  import opened Text
  import opened Ledger
  import opened Journal
  import opened Commitments

  // ----- one call

  function Last(records: seq<Signed>): Page
    requires records != []
  {
    records[|records| - 1].body.page
  }

  /** An empty page asking again where the journal already ends. */
  predicate Repoll(p: Page, last: Page) {
    p.items == [] && p.after_sequence == last.next_sequence && p.head_sequence == last.head_sequence
    && p.after_chain == last.next_chain && p.head_chain == last.head_chain
  }

  /** `p` continues a journal that ends with `last`. */
  predicate Continues(p: Page, last: Page) {
    && Num(p.after_sequence) == Num(last.next_sequence)
    && p.after_chain == last.next_chain
    && Num(p.head_sequence) >= Num(last.head_sequence)
  }

  /** The line that is written for page `p` after `records`. */
  function NextRecord(env: Env, key: string, records: seq<Signed>, p: Page): Signed {
    MakeRecord(env, Body(LastHash(records), p), key)
  }

  function Line(env: Env, r: Signed): string {
    env.canonical(SignedJson(r)) + "\n"
  }

  datatype Decision = Unchanged | Extend

  /** What appending `p` to an accepted journal does, or a refusal. */
  ghost function Decide(env: Env, records: seq<Signed>, p: Page): Result<Decision> {
    if records == [] then
      if Num(p.after_sequence) == 0 && HeadsHonoured(env, records, p) then Ok(Extend) else Refused
    else if !SameSource(p, Last(records)) then Refused
    else if p == Last(records) || Repoll(p, Last(records)) then Ok(Unchanged)
    else if Continues(p, Last(records)) && HeadsHonoured(env, records, p) then Ok(Extend)
    else Refused
  }

  datatype Appended = Appended(file: string, pin: string)

  ghost function AppendSpec(env: Env, key: string, now: int, file: string, p: Page): Result<Appended> {
    if !PageOk(env, now, p) then Refused
    else
      var records :- ReadFile(env, key, now, file);
      var decision :- Decide(env, records, p);
      match decision
      case Unchanged => Ok(Appended(file, LastHash(records)))
      case Extend =>
        var r := NextRecord(env, key, records, p);
        Ok(Appended(file + Line(env, r), r.sha256))
  }

  /** What `verify` reports about an accepted journal. */
  datatype Summary = Summary(
    instance_id: string, stream_id: string, sequence: string, head_sequence: string, complete_to_head: bool,
    record_sha256: string, records: nat)

  /** The report is about these records: how many there are, the pin of the last, and the number of retained events,
      which is complete if the last witnessed head is not beyond it. */
  predicate Describes(s: Summary, records: seq<Signed>) {
    && records != [] && s.records == |records| && s.record_sha256 == LastHash(records)
    && s.instance_id == Last(records).instance_id && s.stream_id == Last(records).stream_id
    && Integer(s.sequence) == Ok(|Events(records)|) && s.head_sequence == Last(records).head_sequence
    && (s.complete_to_head <==> Num(s.head_sequence) == |Events(records)|)
  }

  /** One answer of the source: a page, and the time at which it is handled. */
  datatype Reply = Reply(now: int, page: Page)

  // ----- reading back what was appended

  lemma {:induction false} ReadTerminated(env: Env, key: string, now: int, file: string)
    requires ReadFile(env, key, now, file).Ok?
    ensures Terminated(file)
  {
    hide RecordOk;
    if file != "" {
      LastLine(file);
    }
  }

  /** The clock decides whether a file is accepted, never what it says. */
  lemma {:induction false} ReadAgrees(env: Env, key: string, now: int, later: int, lines: seq<string>)
    requires ReadLines(env, key, now, lines).Ok? && ReadLines(env, key, later, lines).Ok?
    ensures ReadLines(env, key, now, lines) == ReadLines(env, key, later, lines)
  {
    hide RecordOk, ParseLine;
    if lines != [] {
      ReadAgrees(env, key, now, later, lines[..|lines| - 1]);
    }
  }

  /** An accepted file stays accepted as time passes. */
  lemma {:induction false} ReadStaysValid(env: Env, key: string, now: int, later: int, lines: seq<string>)
    requires ReadLines(env, key, now, lines).Ok? && now <= later
    ensures ReadLines(env, key, later, lines) == ReadLines(env, key, now, lines)
  {
    hide PageOk, HeadsHonoured, ParseLine;
    if lines != [] {
      ReadStaysValid(env, key, now, later, lines[..|lines| - 1]);
      PageStaysValid(env, now, later, ParseLine(env, lines[|lines| - 1]).value.body.page);
    }
  }

  /** The file grown by one canonical line reads as the old records and that one, or is refused. */
  lemma ReadExtended(env: Env, key: string, now: int, file: string, r: Signed)
    requires Codec(env) && Terminated(file)
    ensures ReadFile(env, key, now, file + Line(env, r))
         == match ReadFile(env, key, now, file)
            case Ok(prior) => if |Line(env, r)| <= 1048576 && RecordOk(env, key, now, prior, r)
                              then Ok(prior + [r]) else Refused
            case Refused => Refused
  {
    hide RecordOk;
    var text := env.canonical(SignedJson(r));
    LinesAppend(file, text);
    DropLast(Lines(file), text + "\n");
  }

  /** A page without more to come leaves a journal that is complete to its captured head. */
  lemma AppendEndsComplete(env: Env, key: string, now: int, file: string, p: Page, later: int)
    requires Codec(env) && AppendSpec(env, key, now, file, p).Ok? && !p.has_more
    requires ReadFile(env, key, later, AppendSpec(env, key, now, file, p).value.file).Ok?
    ensures var rs := ReadFile(env, key, later, AppendSpec(env, key, now, file, p).value.file).value;
            rs != [] && !Last(rs).has_more
  {
    hide PageOk, HeadsHonoured, ReadLines, RecordOk, Codec;
    var a, records := AppendSpec(env, key, now, file, p).value, ReadFile(env, key, now, file).value;
    ReadTerminated(env, key, now, file);
    PageShape(env, now, p);
    if Decide(env, records, p) == Ok(Extend) {
      ReadExtended(env, key, later, file, NextRecord(env, key, records, p));
    } else {
      ReadAgrees(env, key, now, later, Lines(file));
      LastPageShape(env, key, now, file);
    }
  }

  lemma LastPageShape(env: Env, key: string, now: int, file: string)
    requires ReadFile(env, key, now, file).Ok? && ReadFile(env, key, now, file).value != []
    ensures Last(ReadFile(env, key, now, file).value).has_more
       <==> Num(Last(ReadFile(env, key, now, file).value).next_sequence)
            < Num(Last(ReadFile(env, key, now, file).value).head_sequence)
  {
    hide HeadsHonoured, PageOk;
    var lines := Lines(file);
    PageShape(env, now, ParseLine(env, lines[|lines| - 1]).value.body.page);
  }

  /** The numbers of the last page are those of the whole journal. */
  lemma LastPageDescribes(env: Env, key: string, now: int, records: seq<Signed>)
    requires JournalOk(env, key, now, records) && records != []
    ensures Integer(Last(records).next_sequence) == Ok(|Events(records)|)
    ensures Last(records).has_more <==> Num(Last(records).head_sequence) != |Events(records)|
  {
    hide HeadsHonoured, PageOk;
    RecordAt(env, key, now, records, |records| - 1);
    PageShape(env, now, Last(records));
    RetainedChain(env, key, now, records);
  }

  /** An accepted file that is not empty holds a record. */
  lemma SomeRecord(env: Env, key: string, now: int, file: string)
    requires ReadFile(env, key, now, file).Ok?
    ensures file != "" <==> ReadFile(env, key, now, file).value != []
  {
    hide RecordOk, ParseLine;
  }

  // ----- a collection

  /** The file after all the replies are appended, if none is refused. */
  ghost function AppendAll(env: Env, key: string, file: string, replies: seq<Reply>): Result<string> {
    if replies == [] then Ok(file)
    else
      var before :- AppendAll(env, key, file, replies[..|replies| - 1]);
      var last := replies[|replies| - 1];
      var appended :- AppendSpec(env, key, last.now, before, last.page);
      Ok(appended.file)
  }

  /** Reply `k` is the first without more to come, it and all before it can be appended, and the result is readable. */
  ghost predicate Collected(env: Env, key: string, file: string, replies: seq<Reply>, k: nat, later: int) {
    && k < |replies| && !replies[k].page.has_more && (forall j | 0 <= j < k :: replies[j].page.has_more)
    && AppendAll(env, key, file, replies[..k + 1]).Ok?
    && ReadFile(env, key, later, AppendAll(env, key, file, replies[..k + 1]).value).Ok?
  }

  lemma AppendAllStep(env: Env, key: string, file: string, replies: seq<Reply>, k: nat)
    requires k < |replies| && AppendAll(env, key, file, replies[..k]).Ok?
    ensures var before := AppendAll(env, key, file, replies[..k]).value;
            AppendAll(env, key, file, replies[..k + 1])
            == match AppendSpec(env, key, replies[k].now, before, replies[k].page)
               case Ok(a) => Ok(a.file)
               case Refused => Refused
  {
    hide AppendSpec;
    TakeTake(replies, k, k + 1);
  }

  lemma {:induction false} AppendAllRefused(env: Env, key: string, file: string, replies: seq<Reply>, k: nat)
    requires k <= |replies| && AppendAll(env, key, file, replies[..k]).Refused?
    ensures AppendAll(env, key, file, replies).Refused?
    decreases |replies|
  {
    hide AppendSpec;
    if k < |replies| {
      TakeTake(replies, k, |replies| - 1);
      AppendAllRefused(env, key, file, replies[..|replies| - 1], k);
    } else {
      TakeAll(replies);
    }
  }

  /** A reply that cannot be appended ends every collection that has not ended before it. */
  lemma RefusedNeverCollects(env: Env, key: string, file: string, replies: seq<Reply>, k: nat, later: int)
    requires k < |replies| && (forall j | 0 <= j < k :: replies[j].page.has_more)
    requires AppendAll(env, key, file, replies[..k + 1]).Refused?
    ensures forall n: nat :: !Collected(env, key, file, replies, n, later)
  {
    hide AppendAll, ReadFile;
    forall n: nat ensures !Collected(env, key, file, replies, n, later) {
      if k <= n < |replies| {
        TakeTake(replies, k + 1, n + 1);
        AppendAllRefused(env, key, file, replies[..n + 1], k + 1);
      }
    }
  }

  lemma AppendNeedsReadable(env: Env, key: string, now: int, file: string, p: Page)
    requires AppendSpec(env, key, now, file, p).Ok?
    ensures ReadFile(env, key, now, file).Ok?
    ensures Codec(env) ==> AppendSpec(env, key, now, file, p).value.file != ""
  {
    hide PageOk, ReadLines, HeadsHonoured, Codec;
    if file == "" && AppendSpec(env, key, now, file, p).value.file == "" {
      SomeRecord(env, key, now, file);
    }
  }

  class JournalFile {
    var present: bool
    var content: string

    constructor ()
      ensures !present && content == ""
    {
      present, content := false, "";
    }

    /** Append one page and return the pin of the record that holds it. A refusal leaves the content alone, though
        a well-formed page creates the file before it can be refused. */
    method Append(env: Env, key: string, now: int, p: Page) returns (r: Result<string>)
      modifies this
      ensures match AppendSpec(env, key, now, old(content), p)
              case Ok(a) => r == Ok(a.pin) && content == a.file
              case Refused => r == Refused && content == old(content)
      ensures present <==> old(present) || PageOk(env, now, p)
    {
      var valid := ValidatePage(env, now, p);
      if !valid {
        return Refused;
      }
      present := true;
      var read := ReadRecords(env, key, now, content);
      if read.Refused? {
        return Refused;
      }
      var records := read.value;
      if records != [] {
        var last := Last(records);
        if !SameSource(p, last) {
          return Refused;
        }
        if p == last {
          return Ok(LastHash(records));
        }
        if Repoll(p, last) {
          return Ok(LastHash(records));
        }
        if !Continues(p, last) {
          return Refused;
        }
      } else if Num(p.after_sequence) != 0 {
        return Refused;
      }
      var honoured := ValidateHeadCommitments(env, now, records, p);
      if !honoured {
        return Refused;
      }
      var item := NextRecord(env, key, records, p);
      content := content + Line(env, item);
      r := Ok(item.sha256);
    }

    /** Re-read the file and report where it ends; an empty journal is refused. */
    method Verify(env: Env, key: string, now: int) returns (r: Result<Summary>)
      ensures r.Ok? <==> ReadFile(env, key, now, content).Ok? && content != ""
      ensures r.Ok? ==> Describes(r.value, ReadFile(env, key, now, content).value)
    {
      hide ReadLines, JournalOk, Events;
      var read := ReadRecords(env, key, now, content);
      if read.Refused? {
        return Refused;
      }
      var records := read.value;
      SomeRecord(env, key, now, content);
      if records == [] {
        return Refused;
      }
      ReadIsJournal(env, key, now, Lines(content));
      LastPageDescribes(env, key, now, records);
      var p := Last(records);
      r := Ok(Summary(p.instance_id, p.stream_id, p.next_sequence, p.head_sequence, !p.has_more, LastHash(records),
                      |records|));
    }

    /** Pull pages until the source has no more, one per reply of the exporter and at most `maxPages` of them. It
        succeeds exactly if the replies up to the first without more to come are within that bound, can be appended
        and read back, and the journal file does not exist empty; the report then says that the retained journal is
        complete to the captured head. */
    method Collect(env: Env, key: string, replies: seq<Reply>, maxPages: nat, later: int) returns (r: Result<Summary>)
      requires Codec(env)
      modifies this
      ensures old(content) <= content
      ensures r.Ok? <==> !(old(present) && old(content) == "")
                         && exists k: nat :: k < maxPages && Collected(env, key, old(content), replies, k, later)
      ensures forall k: nat | r.Ok? && Collected(env, key, old(content), replies, k, later) ::
                AppendAll(env, key, old(content), replies[..k + 1]) == Ok(content)
      ensures r.Ok? ==> r.value.complete_to_head && ReadFile(env, key, later, content).Ok?
                        && Describes(r.value, ReadFile(env, key, later, content).value)
      ensures old(present) && old(content) == "" ==> content == ""
    {
      hide AppendSpec, Codec, ReadFile, Describes;
      var k := 0;
      assert replies[..0] == [];
      while k < |replies| && k < maxPages
        invariant 0 <= k <= |replies| && k <= maxPages && old(content) <= content
        invariant forall j | 0 <= j < k :: replies[j].page.has_more
        invariant AppendAll(env, key, old(content), replies[..k]) == Ok(content)
        invariant k == 0 ==> present == old(present) && content == old(content)
        invariant k > 0 ==> content != "" && !(old(present) && old(content) == "")
      {
        var p := replies[k].page;
        AppendAllStep(env, key, old(content), replies, k);
        if AppendSpec(env, key, replies[k].now, content, p).Ok? {
          AppendNeedsReadable(env, key, replies[k].now, content, p);
        } else {
          RefusedNeverCollects(env, key, old(content), replies, k, later);
        }
        if present {
          var sequence := Verify(env, key, replies[k].now);
          if sequence.Refused? {
            return Refused;
          }
        }
        ghost var before := content;
        AppendGrows(env, key, replies[k].now, content, p);
        var pin := Append(env, key, replies[k].now, p);
        if pin.Refused? {
          return Refused;
        }
        if !p.has_more {
          r := Verify(env, key, later);
          EndsHere(env, key, old(content), replies, k, later);
          if r.Ok? {
            AppendEndsComplete(env, key, replies[k].now, before, p, later);
            CompleteSummary(env, key, later, content, r.value);
          }
          return;
        }
        k := k + 1;
      }
      r := Refused;
    }
  }

  /** Where the first reply without more is, a collection ends nowhere else. */
  lemma EndsHere(env: Env, key: string, file: string, replies: seq<Reply>, k: nat, later: int)
    requires k < |replies| && !replies[k].page.has_more && forall j | 0 <= j < k :: replies[j].page.has_more
    ensures forall n: nat | Collected(env, key, file, replies, n, later) :: n == k
    ensures Collected(env, key, file, replies, k, later)
       <==> && AppendAll(env, key, file, replies[..k + 1]).Ok?
            && ReadFile(env, key, later, AppendAll(env, key, file, replies[..k + 1]).value).Ok?
  {
    hide AppendAll, ReadFile;
  }

  lemma CompleteSummary(env: Env, key: string, now: int, file: string, s: Summary)
    requires ReadFile(env, key, now, file).Ok? && Describes(s, ReadFile(env, key, now, file).value)
    requires !Last(ReadFile(env, key, now, file).value).has_more
    ensures s.complete_to_head
  {
    hide ReadLines, JournalOk, Events;
    ReadIsJournal(env, key, now, Lines(file));
    LastPageDescribes(env, key, now, ReadFile(env, key, now, file).value);
  }

  lemma AppendGrows(env: Env, key: string, now: int, file: string, p: Page)
    ensures AppendSpec(env, key, now, file, p).Ok? ==> file <= AppendSpec(env, key, now, file, p).value.file
  {
  }
}
