/** Why no replay plan is drawn up, and what one holds, on the fields of the retained events. */
module PlanFaults {
  import opened Wrappers
  import opened Text
  import opened Formats
  import opened Ledger
  import opened Journal
  import opened Commitments
  import opened Facts
  import opened Replay
  import opened Recovery
  import opened PageFaults

  // ----- the facts of the history

  function Closures(es: seq<Item>): set<TargetFact> {
    set e | e in es && e.kind.TargetDeleted? && e.target_closure.Some? :: e.target_closure.value
  }

  function Deletions(es: seq<Item>): set<TenantFact> {
    set e | e in es && e.kind.TenantDeleted? && e.tenant_deletion.Some? :: e.tenant_deletion.value
  }

  /** Two different closures share an operation, a binding, a knowledge base of a tenant, or a root. */
  predicate Collide(f: TargetFact, g: TargetFact) {
    && f != g
    && (|| f.target.operation_id == g.target.operation_id
        || (f.target.instance_id == g.target.instance_id && f.target.binding_id == g.target.binding_id)
        || (f.target.tenant_id == g.target.tenant_id && f.target.knowledge_base_id == g.target.knowledge_base_id)
        || f.root_file_id == g.root_file_id)
  }

  /** Two different deletions of one tenant under one origin. */
  ghost predicate Conflict(f: TenantFact, g: TenantFact) {
    f != g && f.origin_sha256 == g.origin_sha256 && Number(f.tenant.tenant_id) == Number(g.tenant.tenant_id)
  }

  ghost predicate ClosuresFit(es: seq<Item>, instance: string) {
    && (forall f | f in Closures(es) :: f.target.instance_id == instance)
    && (forall f, g | f in Closures(es) && g in Closures(es) :: !Collide(f, g))
    && |Closures(es)| <= 10000
  }

  ghost predicate DeletionsFit(es: seq<Item>, instance: string) {
    && (forall f | f in Deletions(es) :: f.tenant.instance_id == instance)
    && (forall f, g | f in Deletions(es) && g in Deletions(es) :: !Conflict(f, g))
    && |Deletions(es)| <= 10000
  }

  /** The map holds every closure under its operation, and nothing else. */
  ghost predicate HoldsClosures(m: map<string, TargetFact>, es: seq<Item>) {
    && (forall f | f in Closures(es) :: f.target.operation_id in m && m[f.target.operation_id] == f)
    && (forall op | op in m :: m[op] in Closures(es) && m[op].target.operation_id == op)
  }

  ghost predicate HoldsDeletions(m: map<Namespace, TenantFact>, es: seq<Item>) {
    && (forall f | f in Deletions(es) ::
          var key := (f.origin_sha256, Number(f.tenant.tenant_id)); key in m && m[key] == f)
    && (forall key | key in m :: m[key] in Deletions(es)
                                 && key == (m[key].origin_sha256, Number(m[key].tenant.tenant_id)))
  }

  lemma ClosureAt(es: seq<Item>)
    ensures forall i | 0 <= i < |es| && TargetOf(es[i]).Some? :: TargetOf(es[i]).value in Closures(es)
    ensures forall f | f in Closures(es) :: exists i | 0 <= i < |es| :: TargetOf(es[i]) == Some(f)
    ensures forall i | 0 <= i < |es| && TenantOf(es[i]).Some? :: TenantOf(es[i]).value in Deletions(es)
    ensures forall f | f in Deletions(es) :: exists i | 0 <= i < |es| :: TenantOf(es[i]) == Some(f)
  {
    forall f | f in Closures(es) ensures exists i | 0 <= i < |es| :: TargetOf(es[i]) == Some(f) {
      var e :| e in es && e.kind.TargetDeleted? && e.target_closure == Some(f);
      var i :| 0 <= i < |es| && es[i] == e;
      assert TargetOf(es[i]) == Some(f);
    }
    forall f | f in Deletions(es) ensures exists i | 0 <= i < |es| :: TenantOf(es[i]) == Some(f) {
      var e :| e in es && e.kind.TenantDeleted? && e.tenant_deletion == Some(f);
      var i :| 0 <= i < |es| && es[i] == e;
      assert TenantOf(es[i]) == Some(f);
    }
  }

  lemma AgreeExactly(es: seq<Item>, instance: string)
    ensures TargetsAgree(es, instance)
       <==> && (forall f | f in Closures(es) :: f.target.instance_id == instance)
            && (forall f, g | f in Closures(es) && g in Closures(es) :: !Collide(f, g))
  {
    ClosureAt(es);
    hide Closures, TargetOf;
    if TargetsAgree(es, instance) {
      forall f, g | f in Closures(es) && g in Closures(es) ensures !Collide(f, g) {
        var i :| 0 <= i < |es| && TargetOf(es[i]) == Some(f);
        var j :| 0 <= j < |es| && TargetOf(es[j]) == Some(g);
        assert Compatible(TargetOf(es[i]).value, TargetOf(es[j]).value);
      }
    } else if forall f, g | f in Closures(es) && g in Closures(es) :: !Collide(f, g) {
      forall i, j | 0 <= i < |es| && 0 <= j < |es| && TargetOf(es[i]).Some? && TargetOf(es[j]).Some?
        ensures Compatible(TargetOf(es[i]).value, TargetOf(es[j]).value)
      {
        assert !Collide(TargetOf(es[i]).value, TargetOf(es[j]).value);
      }
    }
  }

  /** As many keys as values. */
  lemma {:induction false} OneKeyEach<K, V>(m: map<K, V>, values: set<V>)
    requires forall v | v in values :: exists k :: k in m && m[k] == v
    requires forall k | k in m :: m[k] in values
    requires forall k, l | k in m && l in m && m[k] == m[l] :: k == l
    ensures |m| == |values|
    decreases values
  {
    if values == {} {
      assert m.Keys == {};
    } else {
      var v :| v in values;
      var k :| k in m && m[k] == v;
      forall w | w in values - {v} ensures exists l :: l in m - {k} && (m - {k})[l] == w {
        var l :| l in m && m[l] == w;
        assert l in m - {k};
      }
      OneKeyEach(m - {k}, values - {v});
      assert m.Keys == (m - {k}).Keys + {k};
    }
  }

  /** The closures of a history are accepted exactly if they fit together on their own fields, and then all are kept. */
  lemma ClosuresExactly(es: seq<Item>, instance: string)
    ensures TargetsOk(es, instance) <==> ClosuresFit(es, instance)
    ensures ClosuresFit(es, instance) ==> HoldsClosures(TargetMap(es), es)
  {
    AgreeExactly(es, instance);
    if TargetsAgree(es, instance) {
      TargetMapMeaning(es, instance);
      ClosureAt(es);
      assert HoldsClosures(TargetMap(es), es) by {
        hide TargetMap, Closures, TargetOf, TargetsAgree;
      }
      hide TargetMap, Closures, TargetOf, TargetsAgree, Collide;
      OneKeyEach(TargetMap(es), Closures(es));
    }
  }

  lemma TenantAgreeExactly(es: seq<Item>, instance: string)
    ensures TenantsAgree(es, instance)
       <==> && (forall f | f in Deletions(es) :: f.tenant.instance_id == instance)
            && (forall f, g | f in Deletions(es) && g in Deletions(es) :: !Conflict(f, g))
  {
    ClosureAt(es);
    forall f: TenantFact ensures Number(f.tenant.tenant_id) == Num(f.tenant.tenant_id) {
      NumberIsNum(f.tenant.tenant_id);
    }
    hide Deletions, TenantOf, Number;
    if TenantsAgree(es, instance) {
      forall f, g | f in Deletions(es) && g in Deletions(es) ensures !Conflict(f, g) {
        var i :| 0 <= i < |es| && TenantOf(es[i]) == Some(f);
        var j :| 0 <= j < |es| && TenantOf(es[j]) == Some(g);
        assert NamespaceOf(f) == NamespaceOf(g) ==> TenantOf(es[i]) == TenantOf(es[j]);
      }
    } else if forall f, g | f in Deletions(es) && g in Deletions(es) :: !Conflict(f, g) {
      forall i, j | 0 <= i < |es| && 0 <= j < |es| && TenantOf(es[i]).Some? && TenantOf(es[j]).Some?
        ensures NamespaceOf(TenantOf(es[i]).value) == NamespaceOf(TenantOf(es[j]).value) ==>
                  TenantOf(es[i]) == TenantOf(es[j])
      {
        assert !Conflict(TenantOf(es[i]).value, TenantOf(es[j]).value);
      }
    }
  }

  lemma DeletionsExactly(es: seq<Item>, instance: string)
    ensures TenantsOk(es, instance) <==> DeletionsFit(es, instance)
    ensures DeletionsFit(es, instance) ==> HoldsDeletions(TenantMap(es), es)
  {
    TenantAgreeExactly(es, instance);
    if TenantsAgree(es, instance) {
      TenantMapMeaning(es, instance);
      ClosureAt(es);
      forall f: TenantFact ensures Number(f.tenant.tenant_id) == Num(f.tenant.tenant_id) {
        NumberIsNum(f.tenant.tenant_id);
      }
      assert HoldsDeletions(TenantMap(es), es) by {
        hide TenantMap, Deletions, TenantOf, TenantsAgree, Number;
      }
      hide TenantMap, Deletions, TenantOf, TenantsAgree, Conflict, Number;
      OneKeyEach(TenantMap(es), Deletions(es));
    }
  }

  // ----- the window

  predicate Writing(e: Item, binding: string, file: string) {
    && (e.kind == ContentWriteBegin || e.kind == ContentWriteComplete)
    && e.binding_id == binding && e.file_id == Some(file)
  }

  /** Some content event names no file. */
  predicate Unnamed(w: seq<Item>) {
    exists e | e in w :: (e.kind == ContentWriteBegin || e.kind == ContentWriteComplete) && e.file_id == None
  }

  /** Some file's revision goes back. */
  ghost predicate Regresses(w: seq<Item>) {
    exists i, j, b, f :: 0 <= i < j < |w| && Writing(w[i], b, f) && Writing(w[j], b, f)
                         && Number(w[j].source_revision) < Number(w[i].source_revision)
  }

  lemma ContentExactly(w: seq<Item>)
    ensures ContentOk(w) <==> !Unnamed(w) && !Regresses(w)
  {
    forall s: string ensures Number(s) == Num(s) {
      NumberIsNum(s);
    }
    hide Number;
    if Regresses(w) {
      var i, j, b, f :| 0 <= i < j < |w| && Writing(w[i], b, f) && Writing(w[j], b, f)
                        && Number(w[j].source_revision) < Number(w[i].source_revision);
      assert SameContent(w[i], w[j]);
    }
    if !Unnamed(w) && !Regresses(w) {
      forall i | 0 <= i < |w| && IsContent(w[i]) ensures w[i].file_id.Some? {
        assert w[i] in w;
      }
      forall i, j | 0 <= i < j < |w| && SameContent(w[i], w[j])
        ensures Num(w[i].source_revision) <= Num(w[j].source_revision)
      {
        assert w[i] in w && w[j] in w;
        assert Writing(w[i], w[i].binding_id, w[i].file_id.value) && Writing(w[j], w[i].binding_id, w[i].file_id.value);
      }
    }
  }

  // ----- the plan

  datatype Reason =
    | Planned | InvalidPin | UnknownPin | WrongOrder | IncompleteHead | ClosuresCollide | DeletionsConflict | Uncovered
    | UnnamedContent | RevisionRegress

  /** Some target was closed by its tenant's deletion, and that deletion is not retained. */
  predicate Orphaned(es: seq<Item>) {
    exists f | f in Closures(es) :: f.target.reason == "tenant_deleted" &&
      forall g | g in Deletions(es) ::
        g.tenant.instance_id != f.target.instance_id || g.tenant.tenant_id != f.target.tenant_id
        || g.tenant.deletion_time_ms != f.target.deletion_time_ms
  }

  /** Why there is no plan for these pins, by the first check that fails. */
  ghost function PlanRefusal(rs: seq<Signed>, anchor: string, through: string): Reason {
    var start, end := FirstIndex(rs, anchor), FirstIndex(rs, through);
    if !Drawn(anchor, HEX, 64, 64) || !Drawn(through, HEX, 64, 64) then InvalidPin
    else if start == |rs| || end == |rs| then UnknownPin
    else if end < start then WrongOrder
    else if rs[end].body.page.has_more then IncompleteHead
    else
      var es, instance := Events(rs[..end + 1]), rs[end].body.page.instance_id;
      if !ClosuresFit(es, instance) then ClosuresCollide
      else if !DeletionsFit(es, instance) then DeletionsConflict
      else if Orphaned(es) then Uncovered
      else if Unnamed(WindowEvents(rs, start, end)) then UnnamedContent
      else if Regresses(WindowEvents(rs, start, end)) then RevisionRegress
      else Planned
  }

  lemma CoveredExactly(es: seq<Item>, targets: map<string, TargetFact>, tenants: map<Namespace, TenantFact>)
    requires HoldsClosures(targets, es) && HoldsDeletions(tenants, es)
    ensures Covered(targets, tenants) <==> !Orphaned(es)
  {
    hide Number;
    var coverage := set n | n in tenants :: Deletion(tenants[n]);
    forall g | g in Deletions(es) ensures Deletion(g) in coverage {
      assert tenants[(g.origin_sha256, Number(g.tenant.tenant_id))] == g;
    }
    if !Orphaned(es) {
      forall op | op in targets ensures CoveredBy(targets[op].target, coverage) {
        assert targets[op] in Closures(es);
        var f := targets[op];
        if f.target.reason == "tenant_deleted" {
          var g :| g in Deletions(es) && g.tenant.instance_id == f.target.instance_id
                   && g.tenant.tenant_id == f.target.tenant_id
                   && g.tenant.deletion_time_ms == f.target.deletion_time_ms;
          assert Deletion(g) in coverage;
        }
      }
    }
  }

  /** A plan can be drawn up if and only if none of these reasons stands against it. */
  lemma PlannedExactly(env: Env, rs: seq<Signed>, anchor: string, through: string)
    ensures Replayable(env, rs, anchor, through) <==> PlanRefusal(rs, anchor, through).Planned?
  {
    hide Events, ClosuresFit, DeletionsFit, TargetsOk, TenantsOk, Covered, Orphaned, ContentOk, Unnamed, Regresses;
    hide HoldsClosures, HoldsDeletions, TargetMap, TenantMap, Drawn, Hex64;
    DigestExactly(anchor);
    DigestExactly(through);
    var start, end := FirstIndex(rs, anchor), FirstIndex(rs, through);
    if start <= end < |rs| {
      var es, instance := Events(rs[..end + 1]), rs[end].body.page.instance_id;
      ClosuresExactly(es, instance);
      DeletionsExactly(es, instance);
      if ClosuresFit(es, instance) && DeletionsFit(es, instance) {
        CoveredExactly(es, TargetMap(es), TenantMap(es));
      }
      ContentExactly(WindowEvents(rs, start, end));
    }
  }

  /** What a plan says of the revisions in its window: for each file with a content event, the last of them. */
  ghost predicate HoldsRevisions(m: map<(string, string), Revision>, w: seq<Item>) {
    && (forall b, f :: (b, f) in m <==> exists i :: 0 <= i < |w| && Writing(w[i], b, f))
    && (forall b, f | (b, f) in m :: exists i ::
          && 0 <= i < |w| && Writing(w[i], b, f) && (forall j | i < j < |w| :: !Writing(w[j], b, f))
          && m[(b, f)] == Revision(b, f, w[i].source_revision, w[i].kind == ContentWriteBegin))
  }

  lemma RevisionsExactly(m: map<(string, string), Revision>, w: seq<Item>)
    requires ContentReports(m, w)
    ensures HoldsRevisions(m, w)
  {
    forall b, f ensures (b, f) in m <==> exists i :: 0 <= i < |w| && Writing(w[i], b, f) {
      LastWriting(w, b, f);
    }
    forall b, f | (b, f) in m
      ensures exists i :: && 0 <= i < |w| && Writing(w[i], b, f) && (forall j | i < j < |w| :: !Writing(w[j], b, f))
                          && m[(b, f)] == Revision(b, f, w[i].source_revision, w[i].kind == ContentWriteBegin)
    {
      LastWriting(w, b, f);
      assert m[(b, f)] == RevisionOf(w[LastIndex(w, Revising(b, f))]);
    }
  }

  lemma LastWriting(w: seq<Item>, b: string, f: string)
    ensures var i := LastIndex(w, Revising(b, f));
            && (i >= 0 <==> exists k :: 0 <= k < |w| && Writing(w[k], b, f))
            && (i >= 0 ==> Writing(w[i], b, f) && forall j | i < j < |w| :: !Writing(w[j], b, f))
  {
    LastIndexMeaning(w, Revising(b, f));
    assert forall k | 0 <= k < |w| :: Selects(Revising(b, f), w[k]) <==> Writing(w[k], b, f);
    hide LastIndex, Selects;
  }

  /** What a plan holds: both ends of its window, the facts of the whole history and the revisions of the window; it
      always asks for reconciliation and never permits reopening. */
  lemma PlanHolds(env: Env, rs: seq<Signed>, anchor: string, through: string, plan: Plan)
    requires Replayable(env, rs, anchor, through) && IsPlan(env, rs, anchor, through, plan)
    ensures var start, end := FirstIndex(rs, anchor), FirstIndex(rs, through);
            var es, first, last := Events(rs[..end + 1]), rs[start].body.page, rs[end].body.page;
            && (plan.instance_id, plan.stream_id) == (last.instance_id, last.stream_id)
            && (plan.checkpoint_record, plan.recovery_record) == (anchor, through)
            && (plan.checkpoint_sequence, plan.checkpoint_chain) == (first.next_sequence, first.next_chain)
            && (plan.through_sequence, plan.through_chain) == (last.next_sequence, last.next_chain)
            && plan.schema_version == 1 && plan.reconciliation_required && !plan.reopen_permitted
            && Events(rs[..start + 1]) + plan.journal_events == es
            && HoldsClosures(plan.targets, es) && HoldsDeletions(plan.tenants, es)
            && HoldsRevisions(plan.content, plan.journal_events)
  {
    hide Events, ClosuresFit, DeletionsFit, TargetsOk, TenantsOk, Covered, ContentOk, PrefixesOk, ContentReports;
    hide HoldsClosures, HoldsDeletions, TargetMap, TenantMap, Hex64, HoldsRevisions, BindingsReport, FilesReport;
    var start, end := FirstIndex(rs, anchor), FirstIndex(rs, through);
    var es, instance := Events(rs[..end + 1]), rs[end].body.page.instance_id;
    ClosuresExactly(es, instance);
    DeletionsExactly(es, instance);
    RevisionsExactly(plan.content, WindowEvents(rs, start, end));
    WindowFollows(rs, start, end);
  }

  lemma WindowFollows(rs: seq<Signed>, start: nat, end: nat)
    requires start <= end < |rs|
    ensures Events(rs[..start + 1]) + WindowEvents(rs, start, end) == Events(rs[..end + 1])
  {
    EventsMonotone(rs, start + 1, end + 1);
    hide Events;
  }

  /** What an anchor holds. */
  lemma AnchorHolds(p: Page, pin: string)
    ensures var a := AnchorOf(p, pin);
            && a.schema_version == 1 && a.record_sha256 == pin && a.source_head_complete && a.reconciliation_required
            && (a.instance_id, a.stream_id) == (p.instance_id, p.stream_id)
            && (a.sequence, a.database_chain) == (p.next_sequence, p.next_chain)
  {
  }
}
