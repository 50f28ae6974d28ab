/** Checkpoint anchors and replay plans, as the two halves of a recovery ask the journal for them. */
module Recovery {
  import opened Wrappers
  import opened Sequences
  import opened Text
  import opened Ledger
  import opened Journal
  import opened Commitments
  import opened Facts
  import opened Replay

  // ----- the anchor of a checkpoint

  datatype Anchor = Anchor(
    schema_version: int, instance_id: string, stream_id: string, sequence: string, database_chain: string,
    record_sha256: string, source_head_complete: bool, reconciliation_required: bool)

  /** The records that carry the pin. */
  function Matches(rs: seq<Signed>, pin: string): seq<Signed> {
    if rs == [] then []
    else Matches(rs[..|rs| - 1], pin) + if rs[|rs| - 1].sha256 == pin then [rs[|rs| - 1]] else []
  }

  function AnchorOf(p: Page, pin: string): Anchor {
    Anchor(1, p.instance_id, p.stream_id, p.next_sequence, p.next_chain, pin, true, true)
  }

  /** Exactly one record carries the pin. */
  predicate PinUnique(rs: seq<Signed>, pin: string) {
    exists i | 0 <= i < |rs| :: rs[i].sha256 == pin && forall j | 0 <= j < |rs| && rs[j].sha256 == pin :: j == i
  }

  /** An anchor is given exactly for a pin that one record of an accepted journal carries, if that record's page reached
      its head; it is the anchor of that record. */
  method CheckpointAnchor(env: Env, key: string, now: int, file: string, pin: string) returns (r: Result<Anchor>)
    ensures r.Ok? <==> && Hex64(pin) && ReadFile(env, key, now, file).Ok?
                       && var rs := ReadFile(env, key, now, file).value;
                       PinUnique(rs, pin) && !rs[FirstIndex(rs, pin)].body.page.has_more
    ensures r.Ok? ==> var rs := ReadFile(env, key, now, file).value;
                      r.value == AnchorOf(rs[FirstIndex(rs, pin)].body.page, pin)
  {
    hide ReadFile;
    if !Hex64(pin) {
      return Refused;
    }
    var read := ReadRecords(env, key, now, file);
    if read.Refused? {
      return Refused;
    }
    var matches := Matches(read.value, pin);
    OneMatchExactly(read.value, pin);
    r := if |matches| != 1 || matches[0].body.page.has_more then Refused else Ok(AnchorOf(matches[0].body.page, pin));
  }

  /** The filter finds one record exactly if one carries the pin, and then it is the first that does. */
  lemma OneMatchExactly(rs: seq<Signed>, pin: string)
    ensures |Matches(rs, pin)| == 1 <==> PinUnique(rs, pin)
    ensures PinUnique(rs, pin) ==> FirstIndex(rs, pin) < |rs| && Matches(rs, pin) == [rs[FirstIndex(rs, pin)]]
  {
    MatchesMeaning(rs, pin);
    hide Matches;
    if |Matches(rs, pin)| == 1 {
      assert Matches(rs, pin)[0] in Matches(rs, pin);
      var i :| 0 <= i < |rs| && rs[i] == Matches(rs, pin)[0];
      forall j | 0 <= j < |rs| && rs[j].sha256 == pin ensures j == i {
        if j != i {
          TwoMatches(rs, if i < j then i else j, if i < j then j else i, pin);
        }
      }
    }
    if PinUnique(rs, pin) {
      var i :| 0 <= i < |rs| && rs[i].sha256 == pin && forall j | 0 <= j < |rs| && rs[j].sha256 == pin :: j == i;
      OneMatch(rs, i, pin);
    }
  }

  lemma {:induction false} NoMatch(rs: seq<Signed>, pin: string)
    requires forall k | 0 <= k < |rs| :: rs[k].sha256 != pin
    ensures Matches(rs, pin) == []
  {
    if rs != [] {
      NoMatch(rs[..|rs| - 1], pin);
    }
  }

  lemma {:induction false} TwoMatches(rs: seq<Signed>, i: nat, j: nat, pin: string)
    requires i < j < |rs| && rs[i].sha256 == rs[j].sha256 == pin
    ensures |Matches(rs, pin)| >= 2
  {
    var init := rs[..|rs| - 1];
    if j < |rs| - 1 {
      TwoMatches(init, i, j, pin);
    } else {
      MatchesMeaning(init, pin);
      assert init[i] in Matches(init, pin);
    }
  }

  lemma {:induction false} OneMatch(rs: seq<Signed>, i: nat, pin: string)
    requires i < |rs| && rs[i].sha256 == pin && forall j | 0 <= j < |rs| && rs[j].sha256 == pin :: j == i
    ensures Matches(rs, pin) == [rs[i]]
  {
    if i == |rs| - 1 {
      NoMatch(rs[..i], pin);
    } else {
      OneMatch(rs[..|rs| - 1], i, pin);
    }
  }

  lemma {:induction false} MatchesMeaning(rs: seq<Signed>, pin: string)
    ensures forall m | m in Matches(rs, pin) :: m in rs && m.sha256 == pin
    ensures forall r | r in rs && r.sha256 == pin :: r in Matches(rs, pin)
  {
    if rs != [] {
      MatchesMeaning(rs[..|rs| - 1], pin);
      SplitLast(rs);
    }
  }

  // ----- the plan

  function FirstIndex(rs: seq<Signed>, pin: string): (i: nat)
    ensures i <= |rs|
    ensures i < |rs| ==> rs[i].sha256 == pin
    ensures forall j | 0 <= j < i :: rs[j].sha256 != pin
  {
    if rs == [] || rs[0].sha256 == pin then 0 else 1 + FirstIndex(rs[1..], pin)
  }

  /** What identifies one tenant deletion, whatever namespace retained it. */
  function Deletion(f: TenantFact): (string, string, string) {
    (f.tenant.instance_id, f.tenant.tenant_id, f.tenant.deletion_time_ms)
  }

  /** A target that its tenant's deletion closed needs that deletion among the retained tenant facts. */
  predicate Covered(targets: map<string, TargetFact>, tenants: map<Namespace, TenantFact>) {
    var coverage := set n | n in tenants :: Deletion(tenants[n]);
    forall op | op in targets :: CoveredBy(targets[op].target, coverage)
  }

  predicate CoveredBy(t: Target, coverage: set<(string, string, string)>) {
    t.reason != "tenant_deleted" || (t.instance_id, t.tenant_id, t.deletion_time_ms) in coverage
  }

  /** The plan can be drawn up: pins found in order, head reached, facts consistent, revisions never going back. */
  ghost predicate Replayable(env: Env, rs: seq<Signed>, anchor: string, through: string) {
    var start, end := FirstIndex(rs, anchor), FirstIndex(rs, through);
    && Hex64(anchor) && Hex64(through) && start < |rs| && end < |rs| && start <= end
    && !rs[end].body.page.has_more
    && FactsOk(rs, end)
    && ContentOk(WindowEvents(rs, start, end))
  }

  ghost predicate FactsOk(rs: seq<Signed>, end: nat)
    requires end < |rs|
  {
    && TargetsOk(Events(rs[..end + 1]), rs[end].body.page.instance_id)
    && TenantsOk(Events(rs[..end + 1]), rs[end].body.page.instance_id)
    && Covered(TargetMap(Events(rs[..end + 1])), TenantMap(Events(rs[..end + 1])))
  }

  /** The plan for the window between the two records. */
  ghost predicate IsPlan(env: Env, rs: seq<Signed>, anchor: string, through: string, plan: Plan)
    requires Replayable(env, rs, anchor, through)
  {
    var start, end := FirstIndex(rs, anchor), FirstIndex(rs, through);
    && PlanFrame(plan, rs[start].body.page, rs[end].body.page, anchor, through)
    && plan.journal_events == WindowEvents(rs, start, end)
    && Reports(Window(plan.close_bindings, plan.withdraw_files, plan.content), WindowEvents(rs, start, end))
    && PrefixesOk(env, plan.prefix_hashes, Events(rs[..end + 1]), |Events(rs[..start + 1])|, |Events(rs[..end + 1])|)
    && plan.targets == TargetMap(Events(rs[..end + 1]))
    && plan.tenants == TenantMap(Events(rs[..end + 1]))
  }

  predicate PlanFrame(plan: Plan, first: Page, last: Page, anchor: string, through: string) {
    && plan.schema_version == 1
    && plan.instance_id == last.instance_id && plan.stream_id == last.stream_id
    && plan.checkpoint_record == anchor && plan.recovery_record == through
    && plan.checkpoint_sequence == first.next_sequence && plan.checkpoint_chain == first.next_chain
    && plan.through_sequence == last.next_sequence && plan.through_chain == last.next_chain
    && plan.reconciliation_required && !plan.reopen_permitted
  }

  /** Draw up the plan, or refuse. */
  method ReplayPlan(env: Env, key: string, now: int, file: string, anchor: string, through: string)
    returns (r: Result<Plan>)
    ensures r.Ok? <==> ReadFile(env, key, now, file).Ok?
                       && Replayable(env, ReadFile(env, key, now, file).value, anchor, through)
    ensures r.Ok? ==> IsPlan(env, ReadFile(env, key, now, file).value, anchor, through, r.value)
  {
    hide TargetsOk, TenantsOk, ContentOk, Reports, PrefixesOk, ReadLines, JournalOk, TargetMap, TenantMap, Events;
    var read := ReadRecords(env, key, now, file);
    if read.Refused? {
      return Refused;
    }
    var rs := read.value;
    var start, end := FirstIndex(rs, anchor), FirstIndex(rs, through);
    if !Hex64(anchor) || !Hex64(through) || start == |rs| || end == |rs| || start > end || rs[end].body.page.has_more {
      return Refused;
    }
    var first, last := rs[start].body.page, rs[end].body.page;
    ReadIsJournal(env, key, now, Lines(file));
    var prefixes := CollectPrefixes(env, key, now, rs, start, end);
    var targets := CollectTargets(rs[..end + 1], last.instance_id);
    if targets.Refused? {
      return Refused;
    }
    var tenants := CollectTenants(rs[..end + 1], last.instance_id);
    if tenants.Refused? || !Covered(targets.value, tenants.value) {
      return Refused;
    }
    var window := FoldWindow(rs, start, end);
    if window.Refused? {
      return Refused;
    }
    r := Ok(Plan(1, last.instance_id, last.stream_id, anchor, through, first.next_sequence, first.next_chain,
                 last.next_sequence, last.next_chain, window.value.bindings, window.value.files,
                 WindowEvents(rs, start, end), prefixes, window.value.content, targets.value, tenants.value,
                 true, false));
  }
}
