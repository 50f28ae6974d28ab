/** Every file that any sequence of append calls can produce. */
module Runs {
  import opened Wrappers
  import opened Sequences
  import opened Text
  import opened Ledger
  import opened Journal
  import opened Commitments
  import opened Evidence
  import opened Append
  import opened Sizes

  /** The file after the calls, starting from no file at all. A refused call changes nothing. */
  ghost function FileAfter(env: Env, key: string, calls: seq<Reply>): string {
    if calls == [] then ""
    else
      var file := FileAfter(env, key, calls[..|calls| - 1]);
      match AppendSpec(env, key, calls[|calls| - 1].now, file, calls[|calls| - 1].page)
      case Ok(a) => a.file
      case Refused => file
  }

  /** The clock never runs backwards and is at most `now` after the calls. */
  ghost predicate TimesUpTo(calls: seq<Reply>, now: int) {
    calls == [] || (calls[|calls| - 1].now <= now && TimesUpTo(calls[..|calls| - 1], calls[|calls| - 1].now))
  }

  /** Every line that these calls write is within the reader's limit. */
  ghost predicate LinesFit(env: Env, key: string, calls: seq<Reply>) {
    calls == [] ||
    var init, call := calls[..|calls| - 1], calls[|calls| - 1];
    LinesFit(env, key, init) && CallFits(env, key, call.now, FileAfter(env, key, init), call.page)
  }

  /** The call writes nothing, or a line that the reader takes. */
  ghost predicate CallFits(env: Env, key: string, now: int, file: string, p: Page) {
    var result := AppendSpec(env, key, now, file, p);
    result.Ok? && result.value.file != file ==> |result.value.file| - |file| <= 2 * MAX_PAGE
  }

  /** Every record but the first carries events, and witnessed heads never roll back. */
  ghost predicate Growing(records: seq<Signed>) {
    && (forall i | 0 < i < |records| :: records[i].body.page.items != [])
    && (forall i | 0 < i < |records| :: Num(Head(records, i - 1)) <= Num(Head(records, i)))
  }

  /** A page without events that continues an accepted journal is the empty re-poll and nothing else. */
  lemma EmptyPageIsRepoll(env: Env, now: int, p: Page, last: Page)
    requires PageOk(env, now, p) && PageOk(env, now, last) && Continues(p, last) && p.items == []
    ensures Repoll(p, last)
  {
    hide HeaderOk, FooterOk, ItemsOk, PageOk;
    PageShape(env, now, p);
    PageShape(env, now, last);
    NumInjective(p.after_sequence, last.next_sequence);
    NumInjective(p.after_sequence, p.next_sequence);
    NumInjective(p.head_sequence, last.head_sequence);
  }

  /** The record written for a page is one the reader accepts after the same records. */
  lemma WrittenRecordOk(env: Env, key: string, now: int, records: seq<Signed>, p: Page)
    requires PageOk(env, now, p) && JournalOk(env, key, now, records) && Decide(env, records, p) == Ok(Extend)
    ensures RecordOk(env, key, now, records, NextRecord(env, key, records, p))
    ensures records != [] ==> p.items != []
  {
    hide HeadsHonoured, PageOk;
    PageShape(env, now, p);
    if records != [] {
      RecordAt(env, key, now, records, |records| - 1);
      if p.items == [] {
        EmptyPageIsRepoll(env, now, p, Last(records));
      }
    } else {
      FirstPageStartsAtZero(env, now, p);
    }
  }

  lemma FirstPageStartsAtZero(env: Env, now: int, p: Page)
    requires PageOk(env, now, p) && Num(p.after_sequence) == 0
    ensures p.after_chain == ZERO
  {
  }

  /** What an accepted call does, whatever the codec's lines may be like: the result is accepted again exactly when the
      new line is within the reader's limit. */
  lemma AppendStepExactly(env: Env, key: string, now: int, file: string, p: Page)
    requires Codec(env) && ReadFile(env, key, now, file).Ok? && AppendSpec(env, key, now, file, p).Ok?
    ensures var a, rs := AppendSpec(env, key, now, file, p).value, ReadFile(env, key, now, file).value;
            || (a.file == file && rs != [] && a.pin == LastHash(rs))
            || (var r := NextRecord(env, key, rs, p);
                && a.file == file + Line(env, r) && a.pin == r.sha256 && r.body.page == p
                && (rs != [] ==> p.items != [] && Num(p.head_sequence) >= Num(Last(rs).head_sequence))
                && ReadFile(env, key, now, a.file)
                   == if |Line(env, r)| <= 2 * MAX_PAGE then Ok(rs + [r]) else Refused)
  {
    hide PageOk, HeadsHonoured, ReadLines, Codec, RecordOk;
    var rs := ReadFile(env, key, now, file).value;
    ReadIsJournal(env, key, now, Lines(file));
    ReadTerminated(env, key, now, file);
    if Decide(env, rs, p) == Ok(Extend) {
      WrittenRecordOk(env, key, now, rs, p);
      ReadExtended(env, key, now, file, NextRecord(env, key, rs, p));
    }
  }

  /** The line written for a page that is accepted after an accepted file is within the reader's limit. */
  lemma LineFits(env: Env, key: string, now: int, file: string, p: Page)
    requires Codec(env) && Compact(env) && ReadFile(env, key, now, file).Ok? && PageOk(env, now, p)
    ensures |Line(env, NextRecord(env, key, ReadFile(env, key, now, file).value, p))| <= 2 * MAX_PAGE
  {
    hide PageOk, ReadLines, RecordOk, Compact, JournalOk;
    var rs := ReadFile(env, key, now, file).value;
    ReadIsJournal(env, key, now, Lines(file));
    if rs != [] {
      RecordIsSigned(env, key, now, rs, |rs| - 1);
    }
    RecordFits(env, key, now, Body(LastHash(rs), p));
  }

  /** An accepted call on an accepted file leaves it unchanged or adds exactly one record, and the result is accepted
      again. */
  lemma AppendStep(env: Env, key: string, now: int, file: string, p: Page)
    requires Codec(env) && Compact(env)
    requires ReadFile(env, key, now, file).Ok? && AppendSpec(env, key, now, file, p).Ok?
    ensures var a, rs := AppendSpec(env, key, now, file, p).value, ReadFile(env, key, now, file).value;
            || (a.file == file && rs != [] && a.pin == LastHash(rs))
            || (var r := NextRecord(env, key, rs, p);
                && a.file == file + Line(env, r) && a.pin == r.sha256 && r.body.page == p
                && (rs != [] ==> p.items != [] && Num(p.head_sequence) >= Num(Last(rs).head_sequence))
                && ReadFile(env, key, now, a.file) == Ok(rs + [r]))
  {
    hide PageOk, HeadsHonoured, ReadFile, Codec, Compact, Decide, Line;
    AppendStepExactly(env, key, now, file, p);
    LineFits(env, key, now, file, p);
  }

  /** Whatever is appended, in whatever order, refused or accepted: at any later time the reader accepts the file, and
      every record after the first carries events. */
  lemma EveryRunIsAccepted(env: Env, key: string, calls: seq<Reply>, now: int)
    requires Codec(env) && Compact(env) && TimesUpTo(calls, now)
    ensures ReadFile(env, key, now, FileAfter(env, key, calls)).Ok?
    ensures Growing(ReadFile(env, key, now, FileAfter(env, key, calls)).value)
  {
    hide ReadFile, Codec, Compact, FileAfter, LinesFit;
    EveryLineFits(env, key, calls, now);
    FittingRunIsAccepted(env, key, calls, now);
  }

  lemma {:induction false} EveryLineFits(env: Env, key: string, calls: seq<Reply>, now: int)
    requires Codec(env) && Compact(env) && TimesUpTo(calls, now)
    ensures LinesFit(env, key, calls)
    decreases |calls|
  {
    hide PageOk, ReadFile, Codec, Compact, Decide, FileAfter;
    if calls != [] {
      var init, call := calls[..|calls| - 1], calls[|calls| - 1];
      var file := FileAfter(env, key, init);
      EveryLineFits(env, key, init, call.now);
      FittingRunIsAccepted(env, key, init, call.now);
      if PageOk(env, call.now, call.page) {
        LineFits(env, key, call.now, file, call.page);
      }
    }
  }

  /** Whatever the codec's lines may be like, at any later time the reader accepts the file exactly if every line that
      was written is within its limit. */
  lemma ReadableExactly(env: Env, key: string, calls: seq<Reply>, now: int)
    requires Codec(env) && TimesUpTo(calls, now)
    ensures ReadFile(env, key, now, FileAfter(env, key, calls)).Ok? <==> LinesFit(env, key, calls)
  {
    hide LinesFit, ReadLines, Codec, FileAfter;
    if LinesFit(env, key, calls) {
      FittingRunIsAccepted(env, key, calls, now);
    } else {
      LongLineIsRefused(env, key, calls, now);
    }
  }

  lemma {:induction false} FittingRunIsAccepted(env: Env, key: string, calls: seq<Reply>, now: int)
    requires Codec(env) && LinesFit(env, key, calls) && TimesUpTo(calls, now)
    ensures ReadFile(env, key, now, FileAfter(env, key, calls)).Ok?
    ensures Growing(ReadFile(env, key, now, FileAfter(env, key, calls)).value)
    decreases |calls|
  {
    hide PageOk, HeadsHonoured, ReadLines, Codec, RecordOk, Decide, AppendSpec, Growing;
    if calls == [] {
      NoLines(env, key, now);
    } else {
      var init, call := calls[..|calls| - 1], calls[|calls| - 1];
      var file := FileAfter(env, key, init);
      FittingRunIsAccepted(env, key, init, call.now);
      if AppendSpec(env, key, call.now, file, call.page).Ok? {
        AppendStepExactly(env, key, call.now, file, call.page);
        if FileAfter(env, key, calls) != file {
          GrowingStep(ReadFile(env, key, call.now, file).value,
                      NextRecord(env, key, ReadFile(env, key, call.now, file).value, call.page));
        }
      }
      ReadStaysValid(env, key, call.now, now, Lines(FileAfter(env, key, calls)));
    }
  }

  /** One line beyond the limit, and no reader accepts the file again, at whatever time. */
  lemma {:induction false} LongLineIsRefused(env: Env, key: string, calls: seq<Reply>, now: int)
    requires Codec(env) && !LinesFit(env, key, calls)
    ensures ReadFile(env, key, now, FileAfter(env, key, calls)).Refused?
    decreases |calls|
  {
    hide PageOk, HeadsHonoured, ReadLines, Codec, RecordOk, Decide;
    var init, call := calls[..|calls| - 1], calls[|calls| - 1];
    var file := FileAfter(env, key, init);
    if !LinesFit(env, key, init) {
      LongLineIsRefused(env, key, init, call.now);
      LongLineIsRefused(env, key, init, now);
    } else {
      var r := NextRecord(env, key, ReadFile(env, key, call.now, file).value, call.page);
      ReadTerminated(env, key, call.now, file);
      ReadExtended(env, key, now, file, r);
    }
  }

  lemma NoLines(env: Env, key: string, now: int)
    ensures ReadFile(env, key, now, "") == Ok([]) && Growing([])
  {
  }

  lemma GrowingStep(records: seq<Signed>, r: Signed)
    requires Growing(records)
    requires records != [] ==> r.body.page.items != []
    requires records != [] ==> Num(Last(records).head_sequence) <= Num(r.body.page.head_sequence)
    ensures Growing(records + [r])
  {
    var all := records + [r];
    forall i | 0 < i < |all| ensures Num(Head(all, i - 1)) <= Num(Head(all, i)) {
      if i < |records| {
        assert Head(all, i) == Head(records, i) && Head(all, i - 1) == Head(records, i - 1);
      }
    }
  }

  /** Files only ever grow. */
  lemma {:induction false} EveryRunExtends(env: Env, key: string, calls: seq<Reply>, k: nat)
    requires k <= |calls|
    ensures FileAfter(env, key, calls[..k]) <= FileAfter(env, key, calls)
    decreases |calls|
  {
    hide AppendSpec;
    if k == |calls| {
      TakeAll(calls);
    } else {
      var init, call := calls[..|calls| - 1], calls[|calls| - 1];
      EveryRunExtends(env, key, init, k);
      TakeTake(calls, k, |calls| - 1);
      AppendGrows(env, key, call.now, FileAfter(env, key, init), call.page);
    }
  }

  /** A write cut short anywhere inside its line is never mistaken for a record: the reader refuses the file. */
  lemma TornAppendRefused(env: Env, key: string, now: int, file: string, r: Signed, cut: nat)
    requires Codec(env) && ReadFile(env, key, now, file).Ok? && 0 < cut < |Line(env, r)|
    ensures ReadFile(env, key, now, file + Line(env, r)[..cut]).Refused?
  {
    hide RecordOk;
    ReadTerminated(env, key, now, file);
    var text, torn := env.canonical(SignedJson(r)), Line(env, r)[..cut];
    assert torn == text[..cut];
    assert Plain(torn);
    LinesTorn(file, torn);
    DropLast(Lines(file), torn);
    assert torn[|torn| - 1] != '\n';
  }
}
