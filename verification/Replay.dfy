/** The replay plan: what a recovery from a checkpoint has to close, and the permanent facts that it must keep. */
module Replay {
  import opened Wrappers
  import opened Sequences
  import opened Text
  import opened Ledger
  import opened Journal
  import opened Commitments

  // ----- the window: what to close, what to withdraw, which content revision was last seen

  /** The events that decide one entry of the plan. */
  datatype Selector =
    | Closing(binding: string)
    | Withdrawing(binding: string, file: string)
    | Revising(binding: string, file: string)

  predicate Selects(s: Selector, e: Item) {
    && e.binding_id == s.binding
    && match s
       case Closing(_) => !e.kind.TenantDeleted?
       case Withdrawing(_, file) => (e.kind.Withdrawn? || e.kind.Delete?) && e.file_id == Some(file)
       case Revising(_, file) => IsContent(e) && e.file_id == Some(file)
  }

  predicate IsContent(e: Item) {
    e.kind.ContentWriteBegin? || e.kind.ContentWriteComplete?
  }

  /** The last selected event, or -1. */
  function LastIndex(es: seq<Item>, s: Selector): (i: int)
    ensures -1 <= i < |es|
  {
    if es == [] then -1
    else if Selects(s, es[|es| - 1]) then |es| - 1
    else LastIndex(es[..|es| - 1], s)
  }

  lemma {:induction false} LastIndexMeaning(es: seq<Item>, s: Selector)
    ensures var i := LastIndex(es, s);
            && (i >= 0 ==> Selects(s, es[i]))
            && (forall j | i < j < |es| :: !Selects(s, es[j]))
  {
    if es != [] && !Selects(s, es[|es| - 1]) {
      LastIndexMeaning(es[..|es| - 1], s);
    }
  }

  lemma LastIndexStep(es: seq<Item>, e: Item, s: Selector)
    ensures LastIndex(es + [e], s) == if Selects(s, e) then |es| else LastIndex(es, s)
  {
    DropLast(es, e);
  }

  datatype Window = Window(
    bindings: map<string, string>,
    files: map<(string, string), string>,
    content: map<(string, string), Revision>)

  function RevisionOf(e: Item): Revision
    requires e.file_id.Some?
  {
    Revision(e.binding_id, e.file_id.value, e.source_revision, e.kind.ContentWriteBegin?)
  }

  /** Each entry reports its last event, and there is an entry exactly where there is such an event. */
  ghost predicate BindingsReport(m: map<string, string>, es: seq<Item>) {
    forall b :: && (b in m <==> LastIndex(es, Closing(b)) >= 0)
                && (b in m ==> m[b] == es[LastIndex(es, Closing(b))].sequence)
  }

  ghost predicate FilesReport(m: map<(string, string), string>, es: seq<Item>) {
    forall b, f :: && ((b, f) in m <==> LastIndex(es, Withdrawing(b, f)) >= 0)
                   && ((b, f) in m ==> m[(b, f)] == es[LastIndex(es, Withdrawing(b, f))].sequence)
  }

  ghost predicate ContentReports(m: map<(string, string), Revision>, es: seq<Item>) {
    forall b, f :: ((b, f) in m <==> LastIndex(es, Revising(b, f)) >= 0)
                   && ((b, f) in m ==> es[LastIndex(es, Revising(b, f))].file_id.Some?
                                       && m[(b, f)] == RevisionOf(es[LastIndex(es, Revising(b, f))]))
  }

  ghost predicate Reports(w: Window, es: seq<Item>) {
    BindingsReport(w.bindings, es) && FilesReport(w.files, es) && ContentReports(w.content, es)
  }

  /** Content events name their file, and no file's revision goes back. */
  ghost predicate ContentOk(es: seq<Item>) {
    && (forall i | 0 <= i < |es| && IsContent(es[i]) :: es[i].file_id.Some?)
    && (forall i, j | 0 <= i < j < |es| && SameContent(es[i], es[j]) ::
          Num(es[i].source_revision) <= Num(es[j].source_revision))
  }

  predicate SameContent(a: Item, b: Item) {
    IsContent(a) && IsContent(b) && a.binding_id == b.binding_id && a.file_id == b.file_id
  }

  /** One event of the window. Tenant deletions only matter to their namespace. */
  function WindowStep(w: Window, e: Item): Result<Window> {
    if e.kind.TenantDeleted? then Ok(w)
    else
      var bindings := w.bindings[e.binding_id := e.sequence];
      var files := if (e.kind.Withdrawn? || e.kind.Delete?) && e.file_id.Some?
                   then w.files[(e.binding_id, e.file_id.value) := e.sequence] else w.files;
      if !IsContent(e) then Ok(Window(bindings, files, w.content))
      else if e.file_id.None? then Refused
      else
        var key := (e.binding_id, e.file_id.value);
        if key in w.content && Num(e.source_revision) < Num(w.content[key].revision) then Refused
        else Ok(Window(bindings, files, w.content[key := RevisionOf(e)]))
  }

  lemma BindingsStep(m: map<string, string>, es: seq<Item>, e: Item)
    requires BindingsReport(m, es)
    ensures BindingsReport(if e.kind.TenantDeleted? then m else m[e.binding_id := e.sequence], es + [e])
  {
    hide LastIndex;
    forall b ensures LastIndex(es + [e], Closing(b)) == if Selects(Closing(b), e) then |es|
                                                        else LastIndex(es, Closing(b)) {
      LastIndexStep(es, e, Closing(b));
    }
  }

  lemma FilesStep(m: map<(string, string), string>, es: seq<Item>, e: Item)
    requires FilesReport(m, es)
    ensures FilesReport(if (e.kind.Withdrawn? || e.kind.Delete?) && e.file_id.Some?
                        then m[(e.binding_id, e.file_id.value) := e.sequence] else m, es + [e])
  {
    hide LastIndex;
    forall b, f ensures LastIndex(es + [e], Withdrawing(b, f)) == if Selects(Withdrawing(b, f), e) then |es|
                                                                  else LastIndex(es, Withdrawing(b, f)) {
      LastIndexStep(es, e, Withdrawing(b, f));
    }
  }

  lemma ContentStep(m: map<(string, string), Revision>, es: seq<Item>, e: Item)
    requires ContentReports(m, es) && (IsContent(e) ==> e.file_id.Some?)
    ensures ContentReports(if IsContent(e) then m[(e.binding_id, e.file_id.value) := RevisionOf(e)] else m, es + [e])
  {
    hide LastIndex;
    forall b, f ensures LastIndex(es + [e], Revising(b, f)) == if Selects(Revising(b, f), e) then |es|
                                                               else LastIndex(es, Revising(b, f)) {
      LastIndexStep(es, e, Revising(b, f));
    }
  }

  /** Comparing with the last revision of a file is comparing with all of them. */
  lemma ContentOkStep(es: seq<Item>, e: Item)
    requires ContentOk(es)
    ensures ContentOk(es + [e])
       <==> IsContent(e) ==>
              e.file_id.Some?
              && var i := LastIndex(es, Revising(e.binding_id, e.file_id.value));
                 i >= 0 ==> Num(es[i].source_revision) <= Num(e.source_revision)
  {
    var all := es + [e];
    assert forall i | 0 <= i < |es| :: all[i] == es[i];
    assert all[|es|] == e;
    if IsContent(e) && e.file_id.Some? {
      var s := Revising(e.binding_id, e.file_id.value);
      var last := LastIndex(es, s);
      LastIndexMeaning(es, s);
      assert forall j | 0 <= j < |es| && SameContent(all[j], e) :: Selects(s, es[j]);
      assert last >= 0 ==> SameContent(all[last], all[|es|]);
    }
  }

  lemma WindowStepOk(w: Window, es: seq<Item>, e: Item)
    requires Reports(w, es) && ContentOk(es)
    ensures WindowStep(w, e).Ok? <==> ContentOk(es + [e])
    ensures WindowStep(w, e).Ok? ==> Reports(WindowStep(w, e).value, es + [e])
  {
    hide LastIndex, ContentOk;
    ContentOkStep(es, e);
    BindingsStep(w.bindings, es, e);
    FilesStep(w.files, es, e);
    if IsContent(e) ==> e.file_id.Some? {
      ContentStep(w.content, es, e);
    }
  }

  /** The events of records start+1 .. end. */
  function WindowEvents(rs: seq<Signed>, start: nat, end: nat): (w: seq<Item>)
    requires start <= end < |rs|
  {
    EventsMonotone(rs, start + 1, end + 1);
    Events(rs[..end + 1])[|Events(rs[..start + 1])|..]
  }

  lemma DropOneMore(a: seq<Item>, k: nat, e: Item)
    requires k <= |a|
    ensures (a + [e])[k..] == a[k..] + [e]
  {
  }

  lemma ContentOkPrefix(es: seq<Item>, seen: seq<Item>)
    requires seen <= es && ContentOk(es)
    ensures ContentOk(seen)
  {
    assert forall i | 0 <= i < |seen| :: seen[i] == es[i];
  }

  lemma WindowRefused(es: seq<Item>, seen: seq<Item>, base: nat)
    requires seen <= es && base <= |seen| && !ContentOk(seen[base..])
    ensures !ContentOk(es[base..])
  {
    assert seen[base..] <= es[base..];
    if ContentOk(es[base..]) {
      ContentOkPrefix(es[base..], seen[base..]);
    }
  }

  /** Fold the window, page by page and event by event. */
  method FoldWindow(rs: seq<Signed>, start: nat, end: nat) returns (r: Result<Window>)
    requires start <= end < |rs|
    ensures r.Ok? <==> ContentOk(WindowEvents(rs, start, end))
    ensures r.Ok? ==> Reports(r.value, WindowEvents(rs, start, end))
  {
    hide LastIndex, ContentOk, Reports, WindowStep;
    var upto := rs[..end + 1];
    ghost var base := |Events(rs[..start + 1])|;
    ghost var seen := Events(rs[..start + 1]);
    var w := Window(map[], map[], map[]);
    NothingFolded();
    TakeTake(rs, start + 1, end + 1);
    assert seen[base..] == [];
    var i := start + 1;
    while i < |upto|
      invariant start + 1 <= i <= |upto| && seen == Events(upto[..i]) && base <= |seen|
      invariant ContentOk(seen[base..]) && Reports(w, seen[base..])
    {
      var items := upto[i].body.page.items;
      var k := 0;
      while k < |items|
        invariant 0 <= k <= |items| && seen == Events(upto[..i]) + items[..k] && base <= |seen|
        invariant ContentOk(seen[base..]) && Reports(w, seen[base..])
      {
        SeenSoFar(upto, i, k);
        SeenSoFar(upto, i, k + 1);
        WindowStepOk(w, seen[base..], items[k]);
        DropOneMore(seen, base, items[k]);
        var next := WindowStep(w, items[k]);
        seen := seen + [items[k]];
        if next.Refused? {
          WindowRefused(Events(upto), seen, base);
          return Refused;
        }
        w := next.value;
        k := k + 1;
      }
      EventsStep(upto, i);
      TakeAll(items);
      i := i + 1;
    }
    TakeAll(upto);
    r := Ok(w);
  }

  lemma NothingFolded()
    ensures ContentOk([]) && Reports(Window(map[], map[], map[]), [])
  {
  }

  // ----- the authenticated chain prefixes of the window

  /** One chain value for every sequence from `first` to `last`, and for no other. */
  ghost predicate PrefixesOk(env: Env, m: map<string, string>, es: seq<Item>, first: nat, last: nat) {
    && (forall n | first <= n <= last && n <= |es| :: Decimal(n) in m && m[Decimal(n)] == Chain(env, ZERO, es[..n]))
    && (forall s | s in m :: IsInteger(s) && first <= Num(s) <= last)
  }

  lemma PrefixStep(env: Env, m: map<string, string>, es: seq<Item>, first: nat, last: nat, s: string, chain: string)
    requires PrefixesOk(env, m, es, first, last) && last < |es| && first <= last
    requires Integer(s) == Ok(last + 1) && chain == Chain(env, ZERO, es[..last + 1])
    ensures PrefixesOk(env, m[s := chain], es, first, last + 1)
  {
    hide Chain;
    DecimalRoundTrip(s);
    forall n | first <= n <= last + 1
      ensures Decimal(n) in m[s := chain] && m[s := chain][Decimal(n)] == Chain(env, ZERO, es[..n])
    {
      if Decimal(n) == s {
        DecimalInjective(n, last + 1);
      }
    }
  }

  /** Recompute the chain through the window, page by page, keeping every intermediate value. */
  method CollectPrefixes(env: Env, key: string, now: int, rs: seq<Signed>, start: nat, end: nat)
    returns (m: map<string, string>)
    requires JournalOk(env, key, now, rs) && start <= end < |rs|
    ensures PrefixesOk(env, m, Events(rs[..end + 1]), |Events(rs[..start + 1])|, |Events(rs[..end + 1])|)
  {
    hide JournalOk, Chain, PrefixesOk, Events, ItemsOk;
    var upto := rs[..end + 1];
    ghost var es, first := Events(upto), |Events(rs[..start + 1])|;
    JournalPrefix(env, key, now, rs, end + 1);
    var page := rs[start].body.page;
    m := map[page.next_sequence := page.next_chain];
    FirstPrefix(env, key, now, rs, start, end);
    TakeTake(rs, start + 1, end + 1);
    EventsMonotone(rs, start + 1, end + 1);
    var i := start + 1;
    while i < |upto|
      invariant start + 1 <= i <= |upto| && first <= |Events(upto[..i])| <= |es|
      invariant PrefixesOk(env, m, es, first, |Events(upto[..i])|)
    {
      EventsStep(upto, i);
      EventsMonotone(upto, i + 1, |upto|);
      TakeAll(upto);
      m := PagePrefixes(env, key, now, upto, i, first, m);
      i := i + 1;
    }
    TakeAll(upto);
  }

  /** One page: the chain recomputed event by event, every value kept under its sequence. */
  method PagePrefixes(env: Env, key: string, now: int, rs: seq<Signed>, i: nat, ghost first: nat,
                      m: map<string, string>)
    returns (n: map<string, string>)
    requires JournalOk(env, key, now, rs) && i < |rs| && first <= |Events(rs[..i])| <= |Events(rs)|
    requires PrefixesOk(env, m, Events(rs), first, |Events(rs[..i])|)
    ensures PrefixesOk(env, n, Events(rs), first, |Events(rs[..i])| + |rs[i].body.page.items|)
  {
    hide JournalOk, Chain, PrefixesOk, Events, ItemsOk;
    var p := rs[i].body.page;
    PageFacts(env, key, now, rs, i);
    EmptyChain(env, p.after_chain);
    TakeAll(p.items);
    var chain := p.after_chain;
    n := m;
    for k := 0 to |p.items|
      invariant chain == Chain(env, p.after_chain, p.items[..k])
      invariant PrefixesOk(env, n, Events(rs), first, |Events(rs[..i])| + k)
    {
      chain := NextLink(env, now, p.after_chain, p.items, Num(p.after_sequence), k, chain);
      EventOfPage(env, key, now, rs, i, k);
      PrefixStep(env, n, Events(rs), first, |Events(rs[..i])| + k, p.items[k].sequence, chain);
      n := n[p.items[k].sequence := chain];
    }
  }

  lemma EmptyChain(env: Env, previous: string)
    ensures Chain(env, previous, []) == previous
  {
  }

  lemma {:induction false} JournalPrefix(env: Env, key: string, now: int, rs: seq<Signed>, n: nat)
    requires JournalOk(env, key, now, rs) && n <= |rs|
    ensures JournalOk(env, key, now, rs[..n])
  {
    if n < |rs| {
      RecordAt(env, key, now, rs, n);
    } else {
      TakeAll(rs);
    }
  }

  lemma PageFacts(env: Env, key: string, now: int, rs: seq<Signed>, i: nat)
    requires JournalOk(env, key, now, rs) && i < |rs|
    ensures PageOk(env, now, rs[i].body.page)
    ensures ItemsOk(env, now, rs[i].body.page.items, Num(rs[i].body.page.after_sequence))
    ensures Num(rs[i].body.page.after_sequence) == |Events(rs[..i])|
    ensures rs[i].body.page.after_chain == Chain(env, ZERO, Events(rs[..i]))
  {
    hide HeadsHonoured, ItemsOk, HeaderOk, FooterOk;
    RecordAt(env, key, now, rs, i);
    RetainedChain(env, key, now, rs[..i]);
  }

  /** Event `k` of page `i`: its sequence is its place in the history, and its chain value that of the history. */
  lemma EventOfPage(env: Env, key: string, now: int, rs: seq<Signed>, i: nat, k: nat)
    requires JournalOk(env, key, now, rs) && i < |rs| && k < |rs[i].body.page.items|
    ensures Integer(rs[i].body.page.items[k].sequence) == Ok(|Events(rs[..i])| + k + 1)
    ensures |Events(rs[..i])| + k < |Events(rs)|
    ensures Chain(env, rs[i].body.page.after_chain, rs[i].body.page.items[..k + 1])
         == Chain(env, ZERO, Events(rs)[..|Events(rs[..i])| + k + 1])
  {
    hide JournalOk, Chain, ItemsOk, PageOk, Events;
    var p, before := rs[i].body.page, Events(rs[..i]);
    PageFacts(env, key, now, rs, i);
    SequenceAt(env, now, p.items, Num(p.after_sequence), k);
    ChainConcat(env, ZERO, before, p.items[..k + 1]);
    SeenSoFar(rs, i, k + 1);
    SeenPrefix(before, p.items, Events(rs), k + 1);
  }

  lemma SequenceAt(env: Env, now: int, items: seq<Item>, after: nat, k: nat)
    requires ItemsOk(env, now, items, after) && k < |items|
    ensures Integer(items[k].sequence) == Ok(after + 1 + k)
  {
    ItemAt(env, now, items, after, k);
  }

  lemma SeenPrefix(before: seq<Item>, items: seq<Item>, all: seq<Item>, k: nat)
    requires k <= |items| && before + items[..k] <= all
    ensures |before| + k <= |all| && all[..|before| + k] == before + items[..k]
  {
  }

  lemma PrefixTake<T>(a: seq<T>, b: seq<T>, k: nat)
    requires a <= b && k <= |a|
    ensures a[..k] == b[..k]
  {
  }

  lemma SinglePrefix(env: Env, es: seq<Item>, first: nat, s: string)
    requires Integer(s) == Ok(first) && first <= |es|
    ensures PrefixesOk(env, map[s := Chain(env, ZERO, es[..first])], es, first, first)
  {
    hide Chain;
    DecimalRoundTrip(s);
  }

  lemma FirstPrefix(env: Env, key: string, now: int, rs: seq<Signed>, start: nat, end: nat)
    requires JournalOk(env, key, now, rs) && start <= end < |rs|
    ensures var p, es, first := rs[start].body.page, Events(rs[..end + 1]), |Events(rs[..start + 1])|;
            && PrefixesOk(env, map[p.next_sequence := p.next_chain], es, first, first)
            && Integer(p.next_sequence) == Ok(first) && first <= |es| && p.next_chain == Chain(env, ZERO, es[..first])
  {
    hide JournalOk, Chain, Events, PrefixesOk, PageOk, ItemsOk;
    var p := rs[start].body.page;
    JournalPrefix(env, key, now, rs, start + 1);
    RetainedChain(env, key, now, rs[..start + 1]);
    PageFacts(env, key, now, rs, start);
    PageShape(env, now, p);
    EventsMonotone(rs, start + 1, end + 1);
    PrefixTake(Events(rs[..start + 1]), Events(rs[..end + 1]), |Events(rs[..start + 1])|);
    TakeAll(Events(rs[..start + 1]));
    SinglePrefix(env, Events(rs[..end + 1]), |Events(rs[..start + 1])|, p.next_sequence);
  }
}
