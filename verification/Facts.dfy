/** The permanent facts that a recovery plan carries: target closures and tenant deletions of the whole journal. */
module Facts {
  import opened Wrappers
  import opened Sequences
  import opened Text
  import opened Ledger
  import opened Journal
  import opened Commitments

  type Namespace = (string, nat)

  function TargetOf(e: Item): Option<TargetFact> {
    if e.kind.TargetDeleted? then e.target_closure else None
  }

  function TenantOf(e: Item): Option<TenantFact> {
    if e.kind.TenantDeleted? then e.tenant_deletion else None
  }

  function Operation(f: TargetFact): string {
    f.target.operation_id
  }

  function Binding(f: TargetFact): (string, string) {
    (f.target.instance_id, f.target.binding_id)
  }

  function KnowledgeBase(f: TargetFact): (string, string) {
    (f.target.tenant_id, f.target.knowledge_base_id)
  }

  function Root(f: TargetFact): string {
    f.root_file_id
  }

  function NamespaceOf(f: TenantFact): Namespace {
    (f.origin_sha256, Num(f.tenant.tenant_id))
  }

  /** Two closures may share an operation only by being the same fact, and an identity only by sharing the operation. */
  predicate Compatible(f: TargetFact, g: TargetFact) {
    && (Operation(f) == Operation(g) ==> f == g)
    && (Binding(f) == Binding(g) ==> Operation(f) == Operation(g))
    && (KnowledgeBase(f) == KnowledgeBase(g) ==> Operation(f) == Operation(g))
    && (f.root_file_id == g.root_file_id ==> Operation(f) == Operation(g))
  }

  // ----- the closures of an event history

  ghost predicate TargetsAgree(es: seq<Item>, instance: string) {
    && (forall i | 0 <= i < |es| && TargetOf(es[i]).Some? :: TargetOf(es[i]).value.target.instance_id == instance)
    && (forall i, j | 0 <= i < |es| && 0 <= j < |es| && TargetOf(es[i]).Some? && TargetOf(es[j]).Some? ::
          Compatible(TargetOf(es[i]).value, TargetOf(es[j]).value))
  }

  ghost function TargetMap(es: seq<Item>): map<string, TargetFact> {
    if es == [] then map[]
    else
      var before, fact := TargetMap(es[..|es| - 1]), TargetOf(es[|es| - 1]);
      if fact.Some? then before[Operation(fact.value) := fact.value] else before
  }

  ghost predicate TargetsOk(es: seq<Item>, instance: string) {
    TargetsAgree(es, instance) && |TargetMap(es)| <= MAX_TARGET_CLOSURES
  }

  /** The collected closures are those of the history: each event's own fact, and nothing else. */
  lemma {:induction false} TargetMapMeaning(es: seq<Item>, instance: string)
    requires TargetsAgree(es, instance)
    ensures forall i | 0 <= i < |es| && TargetOf(es[i]).Some? ::
              Operation(TargetOf(es[i]).value) in TargetMap(es)
              && TargetMap(es)[Operation(TargetOf(es[i]).value)] == TargetOf(es[i]).value
    ensures forall op | op in TargetMap(es) ::
              exists i | 0 <= i < |es| :: TargetOf(es[i]) == Some(TargetMap(es)[op])
                                          && Operation(TargetMap(es)[op]) == op
  {
    if es != [] {
      var init := es[..|es| - 1];
      TargetMapMeaning(init, instance);
      forall op | op in TargetMap(es)
        ensures exists i | 0 <= i < |es| :: TargetOf(es[i]) == Some(TargetMap(es)[op])
                                            && Operation(TargetMap(es)[op]) == op
      {
        var last := TargetOf(es[|es| - 1]);
        if last.Some? && Operation(last.value) == op {
          assert TargetOf(es[|es| - 1]) == Some(TargetMap(es)[op]);
        } else {
          var i :| 0 <= i < |init| && TargetOf(init[i]) == Some(TargetMap(init)[op])
                   && Operation(TargetMap(init)[op]) == op;
          assert TargetOf(es[i]) == Some(TargetMap(es)[op]);
        }
      }
      forall i | 0 <= i < |es| && TargetOf(es[i]).Some?
        ensures Operation(TargetOf(es[i]).value) in TargetMap(es)
                && TargetMap(es)[Operation(TargetOf(es[i]).value)] == TargetOf(es[i]).value
      {
        if i < |init| {
          assert TargetOf(init[i]) == TargetOf(es[i]);
        }
      }
    }
  }

  /** Closures that agree share neither operation nor binding nor knowledge base nor root. */
  lemma ClosuresAreDistinct(es: seq<Item>, instance: string)
    requires TargetsAgree(es, instance)
    ensures forall op | op in TargetMap(es) :: TargetMap(es)[op].target.operation_id == op
                                               && TargetMap(es)[op].target.instance_id == instance
    ensures forall p, q | p in TargetMap(es) && q in TargetMap(es) && p != q ::
              var f, g := TargetMap(es)[p], TargetMap(es)[q];
              && f.target.binding_id != g.target.binding_id && f.root_file_id != g.root_file_id
              && (f.target.tenant_id, f.target.knowledge_base_id) != (g.target.tenant_id, g.target.knowledge_base_id)
  {
    TargetMapMeaning(es, instance);
    hide TargetMap;
    forall p, q | p in TargetMap(es) && q in TargetMap(es) && p != q
      ensures var f, g := TargetMap(es)[p], TargetMap(es)[q];
              && f.target.binding_id != g.target.binding_id && f.root_file_id != g.root_file_id
              && (f.target.tenant_id, f.target.knowledge_base_id) != (g.target.tenant_id, g.target.knowledge_base_id)
    {
      var i :| 0 <= i < |es| && TargetOf(es[i]) == Some(TargetMap(es)[p]) && Operation(TargetMap(es)[p]) == p;
      var j :| 0 <= j < |es| && TargetOf(es[j]) == Some(TargetMap(es)[q]) && Operation(TargetMap(es)[q]) == q;
      assert Compatible(TargetOf(es[i]).value, TargetOf(es[j]).value);
    }
  }

  lemma {:induction false} TargetMapGrows(es: seq<Item>, k: nat)
    requires k <= |es|
    ensures TargetMap(es[..k]).Keys <= TargetMap(es).Keys
    ensures |TargetMap(es[..k])| <= |TargetMap(es)|
    decreases |es|
  {
    if k == |es| {
      TakeAll(es);
    } else {
      TargetMapGrows(es[..|es| - 1], k);
      TakeTake(es, k, |es| - 1);
    }
    CardinalitySubset(TargetMap(es[..k]).Keys, TargetMap(es).Keys);
  }

  lemma {:induction false} CardinalitySubset<T>(a: set<T>, b: set<T>)
    requires a <= b
    ensures |a| <= |b|
  {
    if a != {} {
      var x :| x in a;
      CardinalitySubset(a - {x}, b - {x});
    }
  }

  lemma TargetsOkPrefix(es: seq<Item>, k: nat, instance: string)
    requires k <= |es| && TargetsOk(es, instance)
    ensures TargetsOk(es[..k], instance)
  {
    TargetMapGrows(es, k);
  }

  /** The dictionaries that the fold keeps beside the closures, one per identity. */
  datatype TargetIndex = TargetIndex(
    targets: map<string, TargetFact>,
    bindings: map<(string, string), string>,
    knowledgeBases: map<(string, string), string>,
    roots: map<string, string>)

  /** The dictionary leads from an identity to the operation of the one closure that has it. */
  ghost predicate IndexOk<K>(targets: map<string, TargetFact>, index: map<K, string>, id: TargetFact -> K) {
    && (forall op | op in targets :: id(targets[op]) in index && index[id(targets[op])] == op)
    && (forall k | k in index :: index[k] in targets && id(targets[index[k]]) == k)
  }

  ghost predicate Coherent(x: TargetIndex) {
    && (forall op | op in x.targets :: Operation(x.targets[op]) == op)
    && IndexOk(x.targets, x.bindings, Binding)
    && IndexOk(x.targets, x.knowledgeBases, KnowledgeBase)
    && IndexOk(x.targets, x.roots, Root)
  }

  /** One closure against the dictionaries. */
  predicate Admissible(x: TargetIndex, f: TargetFact, instance: string) {
    && f.target.instance_id == instance
    && (Operation(f) in x.targets ==> x.targets[Operation(f)] == f)
    && (Binding(f) in x.bindings ==> x.bindings[Binding(f)] == Operation(f))
    && (KnowledgeBase(f) in x.knowledgeBases ==> x.knowledgeBases[KnowledgeBase(f)] == Operation(f))
    && (f.root_file_id in x.roots ==> x.roots[f.root_file_id] == Operation(f))
    && (Operation(f) in x.targets || |x.targets| < MAX_TARGET_CLOSURES)
  }

  function Enter(x: TargetIndex, f: TargetFact): TargetIndex {
    TargetIndex(x.targets[Operation(f) := f], x.bindings[Binding(f) := Operation(f)],
                x.knowledgeBases[KnowledgeBase(f) := Operation(f)], x.roots[f.root_file_id := Operation(f)])
  }

  lemma IndexEnter<K>(targets: map<string, TargetFact>, index: map<K, string>, id: TargetFact -> K, f: TargetFact)
    requires IndexOk(targets, index, id)
    requires Operation(f) in targets ==> targets[Operation(f)] == f
    requires id(f) in index ==> index[id(f)] == Operation(f)
    ensures IndexOk(targets[Operation(f) := f], index[id(f) := Operation(f)], id)
  {
  }

  lemma EnterCoherent(x: TargetIndex, f: TargetFact, instance: string)
    requires Coherent(x) && Admissible(x, f, instance)
    ensures Coherent(Enter(x, f))
  {
    hide IndexOk;
    IndexEnter(x.targets, x.bindings, Binding, f);
    IndexEnter(x.targets, x.knowledgeBases, KnowledgeBase, f);
    IndexEnter(x.targets, x.roots, Root, f);
  }

  lemma AdmissibleMeansCompatible(x: TargetIndex, f: TargetFact, instance: string)
    requires Coherent(x)
    ensures Admissible(x, f, instance)
       <==> && f.target.instance_id == instance
            && (forall op | op in x.targets :: Compatible(x.targets[op], f))
            && (Operation(f) in x.targets || |x.targets| < MAX_TARGET_CLOSURES)
  {
  }

  /** `f` belongs to the instance and goes with every closure collected so far. */
  ghost predicate Joins(es: seq<Item>, f: TargetFact, instance: string) {
    f.target.instance_id == instance && forall op | op in TargetMap(es) :: Compatible(TargetMap(es)[op], f)
  }

  lemma AgreeForward(es: seq<Item>, e: Item, instance: string)
    requires TargetsAgree(es + [e], instance) && TargetsAgree(es, instance) && TargetOf(e).Some?
    ensures Joins(es, TargetOf(e).value, instance)
  {
    hide Compatible;
    var all := es + [e];
    TargetMapMeaning(es, instance);
    assert all[|es|] == e;
    assert TargetOf(all[|es|]).value.target.instance_id == instance;
    forall op | op in TargetMap(es) ensures Compatible(TargetMap(es)[op], TargetOf(e).value) {
      var i :| 0 <= i < |es| && TargetOf(es[i]) == Some(TargetMap(es)[op]);
      assert all[i] == es[i];
    }
  }

  lemma AgreeBackward(es: seq<Item>, e: Item, instance: string)
    requires TargetsAgree(es, instance) && TargetOf(e).Some? && Joins(es, TargetOf(e).value, instance)
    ensures TargetsAgree(es + [e], instance)
  {
    hide Compatible;
    var all, f := es + [e], TargetOf(e).value;
    TargetMapMeaning(es, instance);
    CompatibleSymmetric();
    assert forall i | 0 <= i < |es| :: all[i] == es[i];
    assert all[|es|] == e;
    forall i | 0 <= i < |es| && TargetOf(all[i]).Some? ensures Compatible(TargetOf(all[i]).value, f) {
      assert TargetOf(es[i]).Some?;
    }
  }

  lemma CompatibleSymmetric()
    ensures forall f, g :: Compatible(f, g) <==> Compatible(g, f)
    ensures forall f :: Compatible(f, f)
  {
  }

  lemma AgreeSkip(es: seq<Item>, e: Item, instance: string)
    requires TargetsAgree(es, instance) && TargetOf(e).None?
    ensures TargetsAgree(es + [e], instance)
  {
    hide Compatible;
    var all := es + [e];
    assert forall i | 0 <= i < |es| :: all[i] == es[i];
    assert all[|es|] == e;
  }

  lemma MapSizeStep<K, V>(m: map<K, V>, k: K, v: V)
    ensures |m[k := v]| == if k in m then |m| else |m| + 1
  {
    assert m[k := v].Keys == m.Keys + {k};
  }

  /** One more event: the history stays consistent exactly when the dictionaries admit its fact. */
  lemma TargetStep(es: seq<Item>, e: Item, x: TargetIndex, instance: string)
    requires TargetsOk(es, instance) && Coherent(x) && x.targets == TargetMap(es)
    ensures TargetOf(e).None? ==> TargetsOk(es + [e], instance) && TargetMap(es + [e]) == x.targets
    ensures TargetOf(e).Some? ==>
              && (TargetsOk(es + [e], instance) <==> Admissible(x, TargetOf(e).value, instance))
              && TargetMap(es + [e]) == Enter(x, TargetOf(e).value).targets
  {
    hide Compatible, Admissible, Coherent, TargetsAgree;
    DropLast(es, e);
    if TargetOf(e).None? {
      AgreeSkip(es, e, instance);
    } else {
      var f := TargetOf(e).value;
      AdmissibleMeansCompatible(x, f, instance);
      MapSizeStep(x.targets, Operation(f), f);
      if TargetsAgree(es + [e], instance) {
        AgreeForward(es, e, instance);
      }
      if Joins(es, f, instance) {
        AgreeBackward(es, e, instance);
      }
    }
  }

  /** Collect every target closure of the records, or refuse a history whose closures contradict each other. */
  method CollectTargets(records: seq<Signed>, instance: string) returns (r: Result<map<string, TargetFact>>)
    ensures r.Ok? <==> TargetsOk(Events(records), instance)
    ensures r.Ok? ==> r.value == TargetMap(Events(records))
  {
    hide TargetsOk, Coherent, Admissible, TargetMap;
    var x := TargetIndex(map[], map[], map[], map[]);
    ghost var seen: seq<Item> := [];
    NoTargets(instance);
    var i := 0;
    while i < |records|
      invariant 0 <= i <= |records| && seen == Events(records[..i])
      invariant TargetsOk(seen, instance) && Coherent(x) && x.targets == TargetMap(seen)
    {
      var items := records[i].body.page.items;
      var k := 0;
      while k < |items|
        invariant 0 <= k <= |items| && seen == Events(records[..i]) + items[..k]
        invariant TargetsOk(seen, instance) && Coherent(x) && x.targets == TargetMap(seen)
      {
        TargetStep(seen, items[k], x, instance);
        SeenSoFar(records, i, k);
        SeenSoFar(records, i, k + 1);
        var fact := TargetOf(items[k]);
        seen := seen + [items[k]];
        if fact.Some? {
          if !Admissible(x, fact.value, instance) {
            RefusedForGood(Events(records), seen, instance);
            return Refused;
          }
          EnterCoherent(x, fact.value, instance);
          x := Enter(x, fact.value);
        }
        k := k + 1;
      }
      EventsStep(records, i);
      TakeAll(items);
      i := i + 1;
    }
    TakeAll(records);
    r := Ok(x.targets);
  }

  lemma NoTargets(instance: string)
    ensures TargetsOk([], instance) && Coherent(TargetIndex(map[], map[], map[], map[])) && TargetMap([]) == map[]
  {
  }

  lemma RefusedForGood(es: seq<Item>, seen: seq<Item>, instance: string)
    requires seen <= es && !TargetsOk(seen, instance)
    ensures !TargetsOk(es, instance)
  {
    assert es[..|seen|] == seen;
    if TargetsOk(es, instance) {
      TargetsOkPrefix(es, |seen|, instance);
    }
  }

  // ----- the tenant deletions of an event history

  ghost predicate TenantsAgree(es: seq<Item>, instance: string) {
    && (forall i | 0 <= i < |es| && TenantOf(es[i]).Some? :: TenantOf(es[i]).value.tenant.instance_id == instance)
    && (forall i, j | 0 <= i < |es| && 0 <= j < |es| && TenantOf(es[i]).Some? && TenantOf(es[j]).Some?
                      && NamespaceOf(TenantOf(es[i]).value) == NamespaceOf(TenantOf(es[j]).value) ::
          TenantOf(es[i]) == TenantOf(es[j]))
  }

  ghost function TenantMap(es: seq<Item>): map<Namespace, TenantFact> {
    if es == [] then map[]
    else
      var before, fact := TenantMap(es[..|es| - 1]), TenantOf(es[|es| - 1]);
      if fact.Some? && NamespaceOf(fact.value) !in before then before[NamespaceOf(fact.value) := fact.value]
      else before
  }

  ghost predicate TenantsOk(es: seq<Item>, instance: string) {
    TenantsAgree(es, instance) && |TenantMap(es)| <= MAX_TENANT_DELETIONS
  }

  /** The collected deletions are those of the history: each event's own fact, and nothing else. */
  lemma {:induction false} TenantMapMeaning(es: seq<Item>, instance: string)
    requires TenantsAgree(es, instance)
    ensures forall i | 0 <= i < |es| && TenantOf(es[i]).Some? ::
              NamespaceOf(TenantOf(es[i]).value) in TenantMap(es)
              && TenantMap(es)[NamespaceOf(TenantOf(es[i]).value)] == TenantOf(es[i]).value
    ensures forall n | n in TenantMap(es) ::
              exists i | 0 <= i < |es| :: TenantOf(es[i]) == Some(TenantMap(es)[n])
                  && NamespaceOf(TenantMap(es)[n]) == n
  {
    if es != [] {
      var init := es[..|es| - 1];
      TenantMapMeaning(init, instance);
      forall n | n in TenantMap(es)
        ensures exists i | 0 <= i < |es| :: TenantOf(es[i]) == Some(TenantMap(es)[n])
                                            && NamespaceOf(TenantMap(es)[n]) == n
      {
        if n in TenantMap(init) {
          var i :| 0 <= i < |init| && TenantOf(init[i]) == Some(TenantMap(init)[n])
                   && NamespaceOf(TenantMap(init)[n]) == n;
          assert TenantOf(es[i]) == Some(TenantMap(es)[n]);
        } else {
          assert TenantOf(es[|es| - 1]) == Some(TenantMap(es)[n]);
        }
      }
      forall i | 0 <= i < |es| && TenantOf(es[i]).Some?
        ensures NamespaceOf(TenantOf(es[i]).value) in TenantMap(es)
                && TenantMap(es)[NamespaceOf(TenantOf(es[i]).value)] == TenantOf(es[i]).value
      {
        if i < |init| {
          assert TenantOf(init[i]) == TenantOf(es[i]);
        } else if NamespaceOf(TenantOf(es[i]).value) in TenantMap(init) {
          var n := NamespaceOf(TenantOf(es[i]).value);
          var j :| 0 <= j < |init| && TenantOf(init[j]) == Some(TenantMap(init)[n])
                   && NamespaceOf(TenantMap(init)[n]) == n;
          assert TenantOf(es[j]) == TenantOf(init[j]);
        }
      }
    }
  }

  lemma {:induction false} TenantMapGrows(es: seq<Item>, k: nat)
    requires k <= |es|
    ensures TenantMap(es[..k]).Keys <= TenantMap(es).Keys
    ensures |TenantMap(es[..k])| <= |TenantMap(es)|
    decreases |es|
  {
    if k == |es| {
      TakeAll(es);
    } else {
      TenantMapGrows(es[..|es| - 1], k);
      TakeTake(es, k, |es| - 1);
    }
    CardinalitySubset(TenantMap(es[..k]).Keys, TenantMap(es).Keys);
  }

  lemma TenantsOkPrefix(es: seq<Item>, k: nat, instance: string)
    requires k <= |es| && TenantsOk(es, instance)
    ensures TenantsOk(es[..k], instance)
  {
    TenantMapGrows(es, k);
  }

  predicate TenantAdmissible(m: map<Namespace, TenantFact>, f: TenantFact, instance: string) {
    && f.tenant.instance_id == instance
    && (NamespaceOf(f) in m ==> m[NamespaceOf(f)] == f)
    && (NamespaceOf(f) in m || |m| < MAX_TENANT_DELETIONS)
  }

  lemma TenantForward(es: seq<Item>, e: Item, instance: string)
    requires TenantsAgree(es + [e], instance) && TenantsAgree(es, instance) && TenantOf(e).Some?
    ensures var f := TenantOf(e).value;
            f.tenant.instance_id == instance && (NamespaceOf(f) in TenantMap(es) ==> TenantMap(es)[NamespaceOf(f)] == f)
  {
    var all, f := es + [e], TenantOf(e).value;
    TenantMapMeaning(es, instance);
    assert all[|es|] == e;
    if NamespaceOf(f) in TenantMap(es) {
      var i :| 0 <= i < |es| && TenantOf(es[i]) == Some(TenantMap(es)[NamespaceOf(f)])
               && NamespaceOf(TenantMap(es)[NamespaceOf(f)]) == NamespaceOf(f);
      assert all[i] == es[i];
    }
  }

  lemma TenantBackward(es: seq<Item>, e: Item, instance: string)
    requires TenantsAgree(es, instance) && TenantOf(e).Some?
    requires TenantOf(e).value.tenant.instance_id == instance
    requires NamespaceOf(TenantOf(e).value) in TenantMap(es) ==>
               TenantMap(es)[NamespaceOf(TenantOf(e).value)] == TenantOf(e).value
    ensures TenantsAgree(es + [e], instance)
  {
    var all := es + [e];
    TenantMapMeaning(es, instance);
    assert forall i | 0 <= i < |es| :: all[i] == es[i];
    assert all[|es|] == e;
    forall i | 0 <= i < |es| && TenantOf(all[i]).Some?
      ensures NamespaceOf(TenantOf(all[i]).value) == NamespaceOf(TenantOf(e).value) ==> TenantOf(all[i]) == TenantOf(e)
    {
      assert TenantOf(es[i]).Some?;
    }
  }

  lemma TenantStep(es: seq<Item>, e: Item, instance: string)
    requires TenantsOk(es, instance)
    ensures TenantOf(e).None? ==> TenantsOk(es + [e], instance) && TenantMap(es + [e]) == TenantMap(es)
    ensures TenantOf(e).Some? ==>
              var f, m := TenantOf(e).value, TenantMap(es);
              && (TenantsOk(es + [e], instance) <==> TenantAdmissible(m, f, instance))
              && TenantMap(es + [e]) == if NamespaceOf(f) in m then m else m[NamespaceOf(f) := f]
  {
    DropLast(es, e);
    if TenantOf(e).Some? {
      var f, m := TenantOf(e).value, TenantMap(es);
      if TenantsAgree(es + [e], instance) {
        TenantForward(es, e, instance);
      }
      if TenantAdmissible(m, f, instance) {
        TenantBackward(es, e, instance);
      }
      assert NamespaceOf(f) !in m ==> m[NamespaceOf(f) := f].Keys == m.Keys + {NamespaceOf(f)};
    }
  }

  /** Collect every tenant deletion of the records; the first fact of a namespace may never change. */
  method CollectTenants(records: seq<Signed>, instance: string) returns (r: Result<map<Namespace, TenantFact>>)
    ensures r.Ok? <==> TenantsOk(Events(records), instance)
    ensures r.Ok? ==> r.value == TenantMap(Events(records))
  {
    hide TenantsOk, TenantAdmissible;
    var tenants: map<Namespace, TenantFact> := map[];
    ghost var seen: seq<Item> := [];
    NoTenants(instance);
    var i := 0;
    while i < |records|
      invariant 0 <= i <= |records| && seen == Events(records[..i])
      invariant TenantsOk(seen, instance) && tenants == TenantMap(seen)
    {
      var items := records[i].body.page.items;
      var k := 0;
      while k < |items|
        invariant 0 <= k <= |items| && seen == Events(records[..i]) + items[..k]
        invariant TenantsOk(seen, instance) && tenants == TenantMap(seen)
      {
        TenantStep(seen, items[k], instance);
        SeenSoFar(records, i, k);
        SeenSoFar(records, i, k + 1);
        var fact := TenantOf(items[k]);
        seen := seen + [items[k]];
        if fact.Some? {
          if !TenantAdmissible(tenants, fact.value, instance) {
            TenantsRefusedForGood(Events(records), seen, instance);
            return Refused;
          }
          if NamespaceOf(fact.value) !in tenants {
            tenants := tenants[NamespaceOf(fact.value) := fact.value];
          }
        }
        k := k + 1;
      }
      EventsStep(records, i);
      TakeAll(items);
      i := i + 1;
    }
    TakeAll(records);
    r := Ok(tenants);
  }

  lemma NoTenants(instance: string)
    ensures TenantsOk([], instance) && TenantMap([]) == map[]
  {
  }

  lemma TenantsRefusedForGood(es: seq<Item>, seen: seq<Item>, instance: string)
    requires seen <= es && !TenantsOk(seen, instance)
    ensures !TenantsOk(es, instance)
  {
    assert es[..|seen|] == seen;
    if TenantsOk(es, instance) {
      TenantsOkPrefix(es, |seen|, instance);
    }
  }

  // ----- permanence

  lemma TargetsPersist(earlier: seq<Item>, instance1: string, later: seq<Item>, instance2: string)
    requires earlier <= later && TargetsAgree(earlier, instance1) && TargetsAgree(later, instance2)
    ensures forall op | op in TargetMap(earlier) ::
              op in TargetMap(later) && TargetMap(later)[op] == TargetMap(earlier)[op]
  {
    hide Compatible;
    TargetMapMeaning(earlier, instance1);
    TargetMapMeaning(later, instance2);
    forall op | op in TargetMap(earlier)
      ensures op in TargetMap(later) && TargetMap(later)[op] == TargetMap(earlier)[op]
    {
      var i :| 0 <= i < |earlier| && TargetOf(earlier[i]) == Some(TargetMap(earlier)[op])
               && Operation(TargetMap(earlier)[op]) == op;
      assert later[i] == earlier[i];
    }
  }

  lemma TenantsPersist(earlier: seq<Item>, instance1: string, later: seq<Item>, instance2: string)
    requires earlier <= later && TenantsAgree(earlier, instance1) && TenantsAgree(later, instance2)
    ensures forall n | n in TenantMap(earlier) :: n in TenantMap(later) && TenantMap(later)[n] == TenantMap(earlier)[n]
  {
    TenantMapMeaning(earlier, instance1);
    TenantMapMeaning(later, instance2);
    forall n | n in TenantMap(earlier)
      ensures n in TenantMap(later) && TenantMap(later)[n] == TenantMap(earlier)[n]
    {
      var i :| 0 <= i < |earlier| && TenantOf(earlier[i]) == Some(TenantMap(earlier)[n])
               && NamespaceOf(TenantMap(earlier)[n]) == n;
      assert later[i] == earlier[i];
    }
  }
}
