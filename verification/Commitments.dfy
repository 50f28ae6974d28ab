/** What an accepted journal proves about the database history it witnessed. */
module Commitments {
  import opened Sequences
  import opened Text
  import opened Ledger
  import opened Journal

  /** Every prefix of an accepted journal is accepted, and the next record follows from it. */
  lemma {:induction false} RecordAt(env: Env, key: string, now: int, rs: seq<Signed>, i: nat)
    requires JournalOk(env, key, now, rs) && i < |rs|
    ensures JournalOk(env, key, now, rs[..i]) && RecordOk(env, key, now, rs[..i], rs[i])
    decreases |rs|
  {
    hide PageOk, HeadsHonoured;
    if i < |rs| - 1 {
      RecordAt(env, key, now, rs[..|rs| - 1], i);
      TakeTake(rs, i, |rs| - 1);
    }
  }

  lemma EventsStep(rs: seq<Signed>, i: nat)
    requires i < |rs|
    ensures Events(rs[..i + 1]) == Events(rs[..i]) + rs[i].body.page.items
  {
    TakeTake(rs, i, i + 1);
  }

  /** Walking the records page by page and event by event walks the events in order. */
  lemma SeenSoFar(rs: seq<Signed>, i: nat, k: nat)
    requires i < |rs| && k <= |rs[i].body.page.items|
    ensures Events(rs[..i]) + rs[i].body.page.items[..k] <= Events(rs)
    ensures k < |rs[i].body.page.items| ==>
              Events(rs[..i]) + rs[i].body.page.items[..k + 1]
              == Events(rs[..i]) + rs[i].body.page.items[..k] + [rs[i].body.page.items[k]]
  {
    EventsStep(rs, i);
    EventsMonotone(rs, i + 1, |rs|);
    TakeAll(rs);
  }

  lemma {:induction false} EventsMonotone(rs: seq<Signed>, i: nat, j: nat)
    requires i <= j <= |rs|
    ensures Events(rs[..i]) <= Events(rs[..j])
    decreases j
  {
    if i < j {
      EventsMonotone(rs, i, j - 1);
      EventsStep(rs, j - 1);
    }
  }

  lemma {:induction false} ItemsConcat(env: Env, now: int, a: seq<Item>, b: seq<Item>, after: nat)
    requires ItemsOk(env, now, a, after) && ItemsOk(env, now, b, after + |a|)
    ensures ItemsOk(env, now, a + b, after)
  {
    hide ItemOk;
    if b == [] {
      assert a + b == a;
    } else {
      ItemsConcat(env, now, a, b[..|b| - 1], after);
      assert (a + b)[..|a + b| - 1] == a + b[..|b| - 1];
    }
  }

  /** The retained events are exactly sequences 1, 2, ... and their recomputed chain is the one the file ends with. */
  lemma {:induction false} RetainedChain(env: Env, key: string, now: int, rs: seq<Signed>)
    requires JournalOk(env, key, now, rs)
    ensures |Events(rs)| == LastSequence(rs)
    ensures ItemsOk(env, now, Events(rs), 0)
    ensures Chain(env, ZERO, Events(rs)) == LastChain(rs)
  {
    hide HeadsHonoured, FooterOk, ItemOk;
    if rs != [] {
      var init, p := rs[..|rs| - 1], rs[|rs| - 1].body.page;
      RetainedChain(env, key, now, init);
      ChainConcat(env, ZERO, Events(init), p.items);
      ItemsConcat(env, now, Events(init), p.items, 0);
    }
  }

  /** A head announced by record `i` binds the history for good: once the retained events reach it, the chain
      recomputed from the very first event is the announced one, wherever in later pages the head falls. */
  lemma {:induction false} HeadCommitmentHonoured(env: Env, key: string, now: int, rs: seq<Signed>, i: nat)
    requires JournalOk(env, key, now, rs) && i < |rs|
    requires Num(Head(rs, i)) <= |Events(rs)|
    ensures Chain(env, ZERO, Events(rs)[..Num(Head(rs, i))]) == Digest(rs, i)
    decreases |rs|
  {
    hide PageOk, HeadsHonoured, Chain;
    var n, h := |rs| - 1, Num(Head(rs, i));
    var init, p := rs[..n], rs[n].body.page;
    RetainedChain(env, key, now, init);
    RetainedChain(env, key, now, rs);
    PageShape(env, now, p);
    if i == n {
      TakeAll(Events(rs));
    } else if h <= |Events(init)| {
      HeadCommitmentHonoured(env, key, now, init, i);
      TakeFromLeft(Events(init), p.items, h);
    } else {
      HeadReachedNow(env, key, now, init, rs[n], i);
    }
  }

  /** The case of a head that falls inside the page that follows the records `prior`. */
  lemma HeadReachedNow(env: Env, key: string, now: int, prior: seq<Signed>, r: Signed, i: nat)
    requires JournalOk(env, key, now, prior) && RecordOk(env, key, now, prior, r) && i < |prior|
    requires |Events(prior)| < Num(Head(prior, i)) <= |Events(prior)| + |r.body.page.items|
    ensures Chain(env, ZERO, (Events(prior) + r.body.page.items)[..Num(Head(prior, i))]) == Digest(prior, i)
  {
    hide ItemsOk, FooterOk, HeadsHonoured, Chain, Events, JournalOk;
    var p, k := r.body.page, Num(Head(prior, i)) - |Events(prior)| - 1;
    RetainedChain(env, key, now, prior);
    RecordAt(env, key, now, prior, i);
    SameSequence(env, now, prior, p, i, k);
    HonouredAt(env, prior, p, i, k);
    ChainConcat(env, ZERO, Events(prior), p.items[..k + 1]);
    TakeFromRight(Events(prior), p.items, k + 1);
  }

  lemma SameSequence(env: Env, now: int, prior: seq<Signed>, p: Page, i: nat, k: nat)
    requires ItemsOk(env, now, p.items, Num(p.after_sequence)) && k < |p.items|
    requires i < |prior| && IsInteger(Head(prior, i)) && Num(Head(prior, i)) == Num(p.after_sequence) + 1 + k
    ensures Head(prior, i) == p.items[k].sequence
  {
    ItemAt(env, now, p.items, Num(p.after_sequence), k);
    NumInjective(Head(prior, i), p.items[k].sequence);
  }

  lemma HonouredAt(env: Env, prior: seq<Signed>, p: Page, i: nat, k: nat)
    requires HeadsHonoured(env, prior, p) && i < |prior| && k < |p.items| && Head(prior, i) == p.items[k].sequence
    ensures Digest(prior, i) == Chain(env, p.after_chain, p.items[..k + 1])
  {
    assert ReachedHonoured(env, prior, p, k);
  }

  lemma TakeFromLeft<T>(a: seq<T>, b: seq<T>, k: nat)
    requires k <= |a|
    ensures (a + b)[..k] == a[..k]
  {
  }

  lemma TakeFromRight<T>(a: seq<T>, b: seq<T>, k: nat)
    requires k <= |b|
    ensures (a + b)[..|a| + k] == a + b[..k]
  {
  }

  /** No accepted journal holds two different announcements for one head. */
  lemma HeadCommitmentsAgree(env: Env, key: string, now: int, rs: seq<Signed>, i: nat, j: nat)
    requires JournalOk(env, key, now, rs) && i <= j < |rs|
    requires Num(Head(rs, i)) == Num(Head(rs, j))
    ensures Digest(rs, i) == Digest(rs, j)
  {
    hide ItemsOk, FooterOk;
    RecordAt(env, key, now, rs, i);
    RecordAt(env, key, now, rs, j);
    NumInjective(Head(rs, i), Head(rs, j));
    if i < j {
      assert Head(rs[..j], i) == rs[j].body.page.head_sequence;
    }
  }

  /** Whatever the reader returns is a journal in the sense of the history lemmas. */
  lemma {:induction false} ReadIsJournal(env: Env, key: string, now: int, lines: seq<string>)
    requires ReadLines(env, key, now, lines).Ok?
    ensures JournalOk(env, key, now, ReadLines(env, key, now, lines).value)
    decreases |lines|
  {
    hide RecordOk, ParseLine;
    if lines != [] {
      var init := lines[..|lines| - 1];
      ReadIsJournal(env, key, now, init);
      DropLast(ReadLines(env, key, now, init).value, ParseLine(env, lines[|lines| - 1]).value);
    }
  }
}
