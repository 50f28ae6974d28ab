/** The second program: it checks a signed plan against the checkpoint, and the live services against the plan. */
module Gate {
  import opened Wrappers
  import opened Sequences
  import opened Text
  import opened Ledger
  import opened Journal
  import opened Commitments
  import opened Evidence
  import opened Replay
  import opened Recovery

  // ----- the signed plan

  /** The plan file as the journal tool writes it. */
  function SignPlan(env: Env, key: string, plan: Plan): string {
    var payload := env.canonical(PlanJson(plan));
    env.canonical(EnvelopeJson(payload, env.mac(key, payload))) + "\n"
  }

  predicate AnchorMatches(plan: Plan, a: Anchor) {
    && plan.instance_id == a.instance_id && plan.stream_id == a.stream_id
    && plan.checkpoint_record == a.record_sha256 && plan.checkpoint_sequence == a.sequence
    && plan.checkpoint_chain == a.database_chain
  }

  function KeysBetween(first: nat, last: nat): set<string> {
    set n | first <= n <= last :: Decimal(n)
  }

  /** The range, flag and prefix checks: one authenticated chain value for every sequence of the range. */
  predicate RangeOk(plan: Plan) {
    && IsInteger(plan.checkpoint_sequence) && IsInteger(plan.through_sequence)
    && var first, last := Num(plan.checkpoint_sequence), Num(plan.through_sequence);
    && first <= last && plan.schema_version == 1 && plan.reconciliation_required && !plan.reopen_permitted
    && plan.prefix_hashes.Keys == KeysBetween(first, last)
    && (forall s | s in plan.prefix_hashes :: Hex64(plan.prefix_hashes[s]))
    && EntryIs(plan.prefix_hashes, Decimal(first), plan.checkpoint_chain)
    && EntryIs(plan.prefix_hashes, Decimal(last), plan.through_chain)
  }

  predicate EntryIs(m: map<string, string>, k: string, v: string) {
    k in m && m[k] == v
  }

  /** Authenticate a plan file and check it against the anchor of the checkpoint; yields the plan and its digest. */
  function PlanVerify(env: Env, raw: string, key: string, a: Anchor): Result<(Plan, string)> {
    match env.parse(raw)
    case Some(EnvelopeJson(payload, mac)) =>
      (if env.mac(key, payload) != mac then Refused
       else match env.parse(payload)
            case Some(PlanJson(plan)) =>
              if AnchorMatches(plan, a) && RangeOk(plan) then Ok((plan, env.sha(payload))) else Refused
            case _ => Refused)
    case _ => Refused
  }

  lemma {:induction false} SourceIsConstant(env: Env, key: string, now: int, rs: seq<Signed>, i: nat, j: nat)
    requires JournalOk(env, key, now, rs) && i <= j < |rs|
    ensures SameSource(rs[i].body.page, rs[j].body.page)
    decreases j
  {
    hide PageOk, HeadsHonoured, JournalOk;
    if i < j {
      RecordAt(env, key, now, rs, j);
      SourceIsConstant(env, key, now, rs, i, j - 1);
    }
  }

  lemma ChainHex(env: Env, es: seq<Item>)
    requires Codec(env)
    ensures Hex64(Chain(env, ZERO, es))
  {
    hide Preimage;
    if es == [] {
      assert Hex64(ZERO);
    }
  }

  /** Decimal keys from `first` to `last`: what the plan holds is what the gate asks for. */
  lemma PrefixRange(env: Env, m: map<string, string>, es: seq<Item>, first: nat, last: nat)
    requires Codec(env) && PrefixesOk(env, m, es, first, last) && first <= last <= |es|
    ensures m.Keys == KeysBetween(first, last)
    ensures forall s | s in m :: Hex64(m[s])
    ensures EntryIs(m, Decimal(first), Chain(env, ZERO, es[..first]))
    ensures EntryIs(m, Decimal(last), Chain(env, ZERO, es[..last]))
  {
    hide Chain, Codec, Hex64;
    assert forall n | first <= n <= last :: Decimal(n) in m;
    forall s | s in m ensures Hex64(m[s]) && s in KeysBetween(first, last) {
      DecimalRoundTrip(s);
      assert first <= Num(s) <= last && Decimal(Num(s)) == s;
      ChainHex(env, es[..Num(s)]);
    }
  }

  /** The two ends of the window, as the page of the pinned record states them. */
  lemma PageEnd(env: Env, key: string, now: int, rs: seq<Signed>, i: nat)
    requires JournalOk(env, key, now, rs) && i < |rs|
    ensures Integer(rs[i].body.page.next_sequence) == Ok(|Events(rs[..i + 1])|)
    ensures rs[i].body.page.next_chain == Chain(env, ZERO, Events(rs[..i + 1]))
  {
    hide JournalOk, Chain, PageOk, Events;
    JournalPrefix(env, key, now, rs, i + 1);
    RetainedChain(env, key, now, rs[..i + 1]);
    PageFacts(env, key, now, rs, i);
    PageShape(env, now, rs[i].body.page);
  }

  /** The numbers, chain values and prefixes of a plan are those of its window. */
  lemma PlanRange(env: Env, key: string, now: int, rs: seq<Signed>, pin: string, through: string, plan: Plan)
    requires Codec(env) && JournalOk(env, key, now, rs)
    requires Replayable(env, rs, pin, through) && IsPlan(env, rs, pin, through, plan)
    ensures RangeOk(plan)
    ensures |plan.journal_events| == Num(plan.through_sequence) - Num(plan.checkpoint_sequence)
    ensures forall n | Num(plan.checkpoint_sequence) <= n <= Num(plan.through_sequence) && n <= |Events(rs)| ::
              EntryIs(plan.prefix_hashes, Decimal(n), Chain(env, ZERO, Events(rs)[..n]))
  {
    hide JournalOk, Chain, Events, FactsOk, ContentOk, Reports, PrefixesOk, RangeOk;
    var start, end := FirstIndex(rs, pin), FirstIndex(rs, through);
    PageEnd(env, key, now, rs, start);
    PageEnd(env, key, now, rs, end);
    EventsMonotone(rs, start + 1, end + 1);
    PrefixTake(Events(rs[..start + 1]), Events(rs[..end + 1]), |Events(rs[..start + 1])|);
    TakeAll(Events(rs[..start + 1]));
    RangeIsOk(env, plan, Events(rs[..end + 1]), |Events(rs[..start + 1])|);
    TruePrefixes(env, rs, start, end, plan.prefix_hashes);
  }

  /** Any plan drawn up for a pin that served as checkpoint anchor passes the gate, even when the anchor was taken from
      an older copy of the journal. Its prefixes are the true chain values and it holds one event per sequence. */
  lemma PlanPassesGate(env: Env, key: string, now1: int, rs1: seq<Signed>, pin: string, a: Anchor,
                       now2: int, rs2: seq<Signed>, through: string, plan: Plan)
    requires Codec(env) && CollisionFree(env, RecordTexts(env, rs1) + RecordTexts(env, rs2))
    requires JournalOk(env, key, now1, rs1) && |Matches(rs1, pin)| == 1
    requires a == AnchorOf(Matches(rs1, pin)[0].body.page, pin)
    requires JournalOk(env, key, now2, rs2)
    requires Replayable(env, rs2, pin, through) && IsPlan(env, rs2, pin, through, plan)
    ensures PlanVerify(env, SignPlan(env, key, plan), key, a) == Ok((plan, env.sha(env.canonical(PlanJson(plan)))))
    ensures |plan.journal_events| == Num(plan.through_sequence) - Num(plan.checkpoint_sequence)
    ensures forall n | Num(plan.checkpoint_sequence) <= n <= Num(plan.through_sequence) && n <= |Events(rs2)| ::
              EntryIs(plan.prefix_hashes, Decimal(n), Chain(env, ZERO, Events(rs2)[..n]))
  {
    hide JournalOk, Chain, Events, FactsOk, ContentOk, Reports, PrefixesOk, CollisionFree, RangeOk;
    AnchorIsStart(env, key, now1, rs1, pin, now2, rs2);
    SourceIsConstant(env, key, now2, rs2, FirstIndex(rs2, pin), FirstIndex(rs2, through));
    PlanRange(env, key, now2, rs2, pin, through, plan);
  }

  lemma RangeIsOk(env: Env, plan: Plan, es: seq<Item>, first: nat)
    requires Codec(env) && PrefixesOk(env, plan.prefix_hashes, es, first, |es|) && first <= |es|
    requires Integer(plan.checkpoint_sequence) == Ok(first) && Integer(plan.through_sequence) == Ok(|es|)
    requires plan.checkpoint_chain == Chain(env, ZERO, es[..first]) && plan.through_chain == Chain(env, ZERO, es)
    requires plan.schema_version == 1 && plan.reconciliation_required && !plan.reopen_permitted
    ensures RangeOk(plan)
  {
    hide Chain, Codec, PrefixesOk, Hex64;
    PrefixRange(env, plan.prefix_hashes, es, first, |es|);
    TakeAll(es);
  }

  lemma TruePrefixes(env: Env, rs: seq<Signed>, start: nat, end: nat, m: map<string, string>)
    requires start <= end < |rs|
    requires PrefixesOk(env, m, Events(rs[..end + 1]), |Events(rs[..start + 1])|, |Events(rs[..end + 1])|)
    ensures forall n | |Events(rs[..start + 1])| <= n <= |Events(rs[..end + 1])| && n <= |Events(rs)| ::
              EntryIs(m, Decimal(n), Chain(env, ZERO, Events(rs)[..n]))
  {
    hide Chain, Events;
    EventsMonotone(rs, end + 1, |rs|);
    TakeAll(rs);
    forall n | |Events(rs[..start + 1])| <= n <= |Events(rs[..end + 1])|
      ensures EntryIs(m, Decimal(n), Chain(env, ZERO, Events(rs)[..n]))
    {
      PrefixTake(Events(rs[..end + 1]), Events(rs), n);
    }
  }

  /** The anchored record is the one that the plan starts from. */
  lemma AnchorIsStart(env: Env, key: string, now1: int, rs1: seq<Signed>, pin: string, now2: int, rs2: seq<Signed>)
    requires Codec(env) && CollisionFree(env, RecordTexts(env, rs1) + RecordTexts(env, rs2))
    requires JournalOk(env, key, now1, rs1) && |Matches(rs1, pin)| == 1 && JournalOk(env, key, now2, rs2)
    requires FirstIndex(rs2, pin) < |rs2|
    ensures Matches(rs1, pin)[0] == rs2[FirstIndex(rs2, pin)]
  {
    hide JournalOk, Codec, CollisionFree;
    MatchesMeaning(rs1, pin);
    assert Matches(rs1, pin)[0] in Matches(rs1, pin);
    var i :| 0 <= i < |rs1| && rs1[i] == Matches(rs1, pin)[0];
    var j := FirstIndex(rs2, pin);
    PinDeterminesPrefix(env, key, now1, rs1, i, now2, rs2, j);
    assert rs1[..i + 1][i] == rs2[..j + 1][j];
  }

  /** In an accepted journal a retained record can always serve as anchor once its page reached the head. */
  lemma AnchorNeverAmbiguous(env: Env, key: string, now: int, rs: seq<Signed>, i: nat)
    requires Codec(env) && JournalOk(env, key, now, rs) && CollisionFree(env, RecordTexts(env, rs)) && i < |rs|
    ensures Matches(rs, rs[i].sha256) == [rs[i]] && FirstIndex(rs, rs[i].sha256) == i
  {
    hide JournalOk, Codec, CollisionFree, RecordTexts;
    forall k | 0 <= k < |rs| && k != i ensures rs[k].sha256 != rs[i].sha256 {
      if k < i {
        PinsDistinct(env, key, now, rs, k, i);
      } else {
        PinsDistinct(env, key, now, rs, i, k);
      }
    }
    OneMatch(rs, i, rs[i].sha256);
  }
}
