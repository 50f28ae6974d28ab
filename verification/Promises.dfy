/** What every replay plan promises, whatever journal it was drawn from. */
module Promises {
  import opened Wrappers
  import opened Text
  import opened Ledger
  import opened Journal
  import opened Commitments
  import opened Facts
  import opened Replay
  import opened Recovery

  /** The window of the plan for these two pins. */
  ghost function PlanWindow(env: Env, rs: seq<Signed>, anchor: string, through: string): seq<Item>
    requires Replayable(env, rs, anchor, through)
  {
    WindowEvents(rs, FirstIndex(rs, anchor), FirstIndex(rs, through))
  }

  /** Event `i` of the window has the `i`-th sequence after the checkpoint. */
  lemma WindowSequence(env: Env, key: string, now: int, rs: seq<Signed>, start: nat, end: nat, i: nat)
    requires JournalOk(env, key, now, rs) && start <= end < |rs| && i < |WindowEvents(rs, start, end)|
    ensures Integer(WindowEvents(rs, start, end)[i].sequence) == Ok(|Events(rs[..start + 1])| + i + 1)
  {
    hide JournalOk, ItemsOk, Events;
    EventsMonotone(rs, start + 1, end + 1);
    JournalPrefix(env, key, now, rs, end + 1);
    RetainedChain(env, key, now, rs[..end + 1]);
    ItemAt(env, now, Events(rs[..end + 1]), 0, |Events(rs[..start + 1])| + i);
  }

  predicate Withdraws(e: Item, binding: string, file: string) {
    (e.kind.Withdrawn? || e.kind.Delete?) && e.binding_id == binding && e.file_id == Some(file)
  }

  /** The withdrawals of a plan are exactly the files withdrawn or deleted in the window. Nothing that happens to the
      file or its binding afterwards takes one back, and each one's binding is closed, at its last event or later. */
  lemma WithdrawalsAreExact(env: Env, key: string, now: int, rs: seq<Signed>, anchor: string, through: string,
                            plan: Plan, b: string, f: string)
    requires JournalOk(env, key, now, rs)
    requires Replayable(env, rs, anchor, through) && IsPlan(env, rs, anchor, through, plan)
    ensures var w := PlanWindow(env, rs, anchor, through);
            && ((b, f) in plan.withdraw_files <==> exists i | 0 <= i < |w| :: Withdraws(w[i], b, f))
            && ((b, f) in plan.withdraw_files ==>
                  && (forall i | 0 <= i < |w| && Withdraws(w[i], b, f) ::
                        Num(w[i].sequence) <= Num(plan.withdraw_files[(b, f)]))
                  && b in plan.close_bindings
                  && Num(plan.withdraw_files[(b, f)]) <= Num(plan.close_bindings[b]))
  {
    hide JournalOk, LastIndex, PrefixesOk, TargetMap, TenantMap, Events, FactsOk, ContentOk;
    var start, end := FirstIndex(rs, anchor), FirstIndex(rs, through);
    var w := PlanWindow(env, rs, anchor, through);
    var s := Withdrawing(b, f);
    LastIndexMeaning(w, s);
    LastIndexMeaning(w, Closing(b));
    assert forall i | 0 <= i < |w| :: Selects(s, w[i]) <==> Withdraws(w[i], b, f);
    assert forall i | 0 <= i < |w| :: Withdraws(w[i], b, f) ==> Selects(Closing(b), w[i]);
    forall i | 0 <= i < |w| ensures Num(w[i].sequence) == |Events(rs[..start + 1])| + i + 1 {
      WindowSequence(env, key, now, rs, start, end, i);
    }
  }

  /** The closed bindings are exactly those with any event in the window but a tenant deletion, each at its highest
      sequence. */
  lemma ClosuresAreExact(env: Env, key: string, now: int, rs: seq<Signed>, anchor: string, through: string,
                         plan: Plan, b: string)
    requires JournalOk(env, key, now, rs)
    requires Replayable(env, rs, anchor, through) && IsPlan(env, rs, anchor, through, plan)
    ensures var w := PlanWindow(env, rs, anchor, through);
            && (b in plan.close_bindings <==>
                  exists i | 0 <= i < |w| :: w[i].binding_id == b && !w[i].kind.TenantDeleted?)
            && (b in plan.close_bindings ==>
                  && (exists i | 0 <= i < |w| :: w[i].binding_id == b && w[i].sequence == plan.close_bindings[b])
                  && (forall i | 0 <= i < |w| && w[i].binding_id == b && !w[i].kind.TenantDeleted? ::
                        Num(w[i].sequence) <= Num(plan.close_bindings[b])))
  {
    hide JournalOk, LastIndex, PrefixesOk, TargetMap, TenantMap, Events, FactsOk, ContentOk;
    var start, end := FirstIndex(rs, anchor), FirstIndex(rs, through);
    var w := PlanWindow(env, rs, anchor, through);
    LastIndexMeaning(w, Closing(b));
    forall i | 0 <= i < |w| ensures Num(w[i].sequence) == |Events(rs[..start + 1])| + i + 1 {
      WindowSequence(env, key, now, rs, start, end, i);
    }
  }

  /** Each reported revision is the highest of all content events of its file in the window, and `writing` tells
      whether the last of them began or completed a write. */
  lemma RevisionsNeverRegress(env: Env, rs: seq<Signed>, anchor: string, through: string, plan: Plan,
                              b: string, f: string)
    requires Replayable(env, rs, anchor, through) && IsPlan(env, rs, anchor, through, plan)
    requires (b, f) in plan.content
    ensures var w, entry := PlanWindow(env, rs, anchor, through), plan.content[(b, f)];
            && entry.binding_id == b && entry.file_id == f
            && (forall i | 0 <= i < |w| && IsContent(w[i]) && w[i].binding_id == b && w[i].file_id == Some(f) ::
                  Num(w[i].source_revision) <= Num(entry.revision))
            && (exists i | 0 <= i < |w| ::
                  && w[i].binding_id == b && w[i].file_id == Some(f) && w[i].source_revision == entry.revision
                  && (if entry.writing then w[i].kind.ContentWriteBegin? else w[i].kind.ContentWriteComplete?)
                  && forall j | i < j < |w| && w[j].binding_id == b && w[j].file_id == Some(f) :: !IsContent(w[j]))
  {
    hide LastIndex, PrefixesOk, TargetMap, TenantMap, Events, FactsOk;
    var w := PlanWindow(env, rs, anchor, through);
    var s := Revising(b, f);
    var last := LastIndex(w, s);
    LastIndexMeaning(w, s);
    assert forall i | 0 <= i < |w| && IsContent(w[i]) && w[i].binding_id == b && w[i].file_id == Some(f) ::
        Selects(s, w[i]) && SameContent(w[i], w[last]);
    assert forall j | last < j < |w| && w[j].binding_id == b && w[j].file_id == Some(f) && IsContent(w[j]) ::
        Selects(s, w[j]);
  }

  /** A wider window withdraws at least as much, at whichever end it was widened. */
  lemma WideningKeepsWithdrawals(env: Env, key: string, now: int, rs: seq<Signed>,
                                 anchor1: string, through1: string, plan1: Plan,
                                 anchor2: string, through2: string, plan2: Plan)
    requires JournalOk(env, key, now, rs)
    requires Replayable(env, rs, anchor1, through1) && IsPlan(env, rs, anchor1, through1, plan1)
    requires Replayable(env, rs, anchor2, through2) && IsPlan(env, rs, anchor2, through2, plan2)
    requires FirstIndex(rs, anchor2) <= FirstIndex(rs, anchor1) && FirstIndex(rs, through1) <= FirstIndex(rs, through2)
    ensures plan1.withdraw_files.Keys <= plan2.withdraw_files.Keys
    ensures plan1.close_bindings.Keys <= plan2.close_bindings.Keys
  {
    hide JournalOk, IsPlan, FactsOk, ContentOk, Events;
    var w1, w2 := PlanWindow(env, rs, anchor1, through1), PlanWindow(env, rs, anchor2, through2);
    var shift := WindowInside(rs, FirstIndex(rs, anchor1), FirstIndex(rs, through1),
                              FirstIndex(rs, anchor2), FirstIndex(rs, through2));
    forall p | p in plan1.withdraw_files ensures p in plan2.withdraw_files {
      WithdrawalsAreExact(env, key, now, rs, anchor1, through1, plan1, p.0, p.1);
      WithdrawalsAreExact(env, key, now, rs, anchor2, through2, plan2, p.0, p.1);
      var i :| 0 <= i < |w1| && Withdraws(w1[i], p.0, p.1);
      assert Withdraws(w2[shift + i], p.0, p.1);
    }
    forall b | b in plan1.close_bindings ensures b in plan2.close_bindings {
      ClosuresAreExact(env, key, now, rs, anchor1, through1, plan1, b);
      ClosuresAreExact(env, key, now, rs, anchor2, through2, plan2, b);
      var i :| 0 <= i < |w1| && w1[i].binding_id == b && !w1[i].kind.TenantDeleted?;
      assert w2[shift + i] == w1[i];
    }
  }

  lemma WindowInside(rs: seq<Signed>, start1: nat, end1: nat, start2: nat, end2: nat) returns (shift: nat)
    requires start2 <= start1 <= end1 <= end2 < |rs|
    ensures shift + |WindowEvents(rs, start1, end1)| <= |WindowEvents(rs, start2, end2)|
    ensures forall i | 0 <= i < |WindowEvents(rs, start1, end1)| ::
              WindowEvents(rs, start2, end2)[shift + i] == WindowEvents(rs, start1, end1)[i]
  {
    hide Events;
    EventsMonotone(rs, start2 + 1, start1 + 1);
    EventsMonotone(rs, start1 + 1, end1 + 1);
    EventsMonotone(rs, end1 + 1, end2 + 1);
    shift := |Events(rs[..start1 + 1])| - |Events(rs[..start2 + 1])|;
  }

  /** Permanent facts are permanent: a plan that reaches further keeps every closure and every tenant deletion of a
      plan that stops earlier, unchanged, whatever checkpoint either starts from and whatever was appended between. */
  lemma PermanentFactsPersist(env: Env, rs1: seq<Signed>, anchor1: string, through1: string, plan1: Plan,
                              rs2: seq<Signed>, anchor2: string, through2: string, plan2: Plan)
    requires Replayable(env, rs1, anchor1, through1) && IsPlan(env, rs1, anchor1, through1, plan1)
    requires Replayable(env, rs2, anchor2, through2) && IsPlan(env, rs2, anchor2, through2, plan2)
    requires rs1 <= rs2 && FirstIndex(rs1, through1) <= FirstIndex(rs2, through2)
    ensures forall op | op in plan1.targets :: op in plan2.targets && plan2.targets[op] == plan1.targets[op]
    ensures forall n | n in plan1.tenants :: n in plan2.tenants && plan2.tenants[n] == plan1.tenants[n]
  {
    hide Events, Replayable, IsPlan, FirstIndex, TargetMap, TenantMap, TargetsAgree, TenantsAgree;
    PlanFacts(env, rs1, anchor1, through1, plan1);
    PlanFacts(env, rs2, anchor2, through2, plan2);
    var end1, end2 := FirstIndex(rs1, through1), FirstIndex(rs2, through2);
    assert rs1[..end1 + 1] == rs2[..end1 + 1];
    EventsMonotone(rs2, end1 + 1, end2 + 1);
    TargetsPersist(Events(rs1[..end1 + 1]), rs1[end1].body.page.instance_id,
                   Events(rs2[..end2 + 1]), rs2[end2].body.page.instance_id);
    TenantsPersist(Events(rs1[..end1 + 1]), rs1[end1].body.page.instance_id,
                   Events(rs2[..end2 + 1]), rs2[end2].body.page.instance_id);
  }

  /** The facts of a plan are those of the journal up to its end. */
  lemma PlanFacts(env: Env, rs: seq<Signed>, anchor: string, through: string, plan: Plan)
    requires Replayable(env, rs, anchor, through) && IsPlan(env, rs, anchor, through, plan)
    ensures var end := FirstIndex(rs, through);
            && end < |rs|
            && TargetsAgree(Events(rs[..end + 1]), rs[end].body.page.instance_id)
            && TenantsAgree(Events(rs[..end + 1]), rs[end].body.page.instance_id)
            && |plan.targets| <= MAX_TARGET_CLOSURES && |plan.tenants| <= MAX_TENANT_DELETIONS
            && plan.targets == TargetMap(Events(rs[..end + 1])) && plan.tenants == TenantMap(Events(rs[..end + 1]))
  {
    hide Events, Reports, PrefixesOk, ContentOk, TargetMap, TenantMap, TargetsAgree, TenantsAgree, Covered;
  }

  /** Within a plan no two closures share an operation, a binding, a knowledge base or a root, all belong to the
      plan's instance, and a target closed by its tenant's deletion has that deletion in the plan. */
  lemma IdentitiesAreDistinct(env: Env, rs: seq<Signed>, anchor: string, through: string, plan: Plan)
    requires Replayable(env, rs, anchor, through) && IsPlan(env, rs, anchor, through, plan)
    ensures forall op | op in plan.targets :: plan.targets[op].target.operation_id == op
                                              && plan.targets[op].target.instance_id == plan.instance_id
    ensures forall p, q | p in plan.targets && q in plan.targets && p != q ::
              var f, g := plan.targets[p], plan.targets[q];
              && f.target.binding_id != g.target.binding_id && f.root_file_id != g.root_file_id
              && (f.target.tenant_id, f.target.knowledge_base_id) != (g.target.tenant_id, g.target.knowledge_base_id)
    ensures forall op | op in plan.targets && plan.targets[op].target.reason == "tenant_deleted" ::
              exists n | n in plan.tenants :: var t, d := plan.targets[op].target, plan.tenants[n].tenant;
                d.instance_id == t.instance_id && d.tenant_id == t.tenant_id && d.deletion_time_ms == t.deletion_time_ms
    ensures |plan.targets| <= MAX_TARGET_CLOSURES && |plan.tenants| <= MAX_TENANT_DELETIONS
  {
    PlanFacts(env, rs, anchor, through, plan);
    PlanFrameOf(env, rs, anchor, through, plan);
    hide Events, Replayable, IsPlan, FirstIndex, TargetMap, TenantMap, TargetsAgree, TenantsAgree;
    var end := FirstIndex(rs, through);
    ClosuresAreDistinct(Events(rs[..end + 1]), rs[end].body.page.instance_id);
  }

  lemma PlanFrameOf(env: Env, rs: seq<Signed>, anchor: string, through: string, plan: Plan)
    requires Replayable(env, rs, anchor, through) && IsPlan(env, rs, anchor, through, plan)
    ensures plan.instance_id == rs[FirstIndex(rs, through)].body.page.instance_id
    ensures forall op | op in plan.targets && plan.targets[op].target.reason == "tenant_deleted" ::
              exists n | n in plan.tenants :: var t, d := plan.targets[op].target, plan.tenants[n].tenant;
                d.instance_id == t.instance_id && d.tenant_id == t.tenant_id && d.deletion_time_ms == t.deletion_time_ms
  {
    hide Events, Reports, PrefixesOk, ContentOk, TargetMap, TenantMap, TargetsOk, TenantsOk;
    forall op | op in plan.targets ensures CoveredBy(plan.targets[op].target,
                                                     set n | n in plan.tenants :: Deletion(plan.tenants[n])) {
    }
  }
}
