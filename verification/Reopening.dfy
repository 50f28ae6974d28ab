/** The gate's last word: the original inventory, and the live state of both services against plan and checkpoint. */
module Reopening {
  import opened Wrappers
  import opened Sequences
  import opened Text
  import opened Ledger
  import opened Journal
  import opened Recovery
  import opened Promises

  datatype Pair = Pair(
    operation_id: string, tenant_id: int, knowledge_base_id: string, datasource_id: string, instance_id: string,
    binding_id: string, base_url: string, config_sha256: string, publication_epoch: int, key_id: string, state: string)

  // ----- the original inventory

  datatype AnchorPin = AnchorPin(
    instance_id: string, stream_id: string, record_sha256: string, sequence: string, database_chain: string)

  datatype Inventory = Inventory(schema_version: int, anchor: AnchorPin, pairs: seq<Pair>, source_state_sha256: string)

  datatype Bound = Bound(
    schema_version: int, inventory_sha256: string, source_state_sha256: string, anchor: AnchorPin, pairs: seq<Pair>,
    pair_count: nat, replay_valid_lower_bound: string)

  function PinOf(a: Anchor): AnchorPin {
    AnchorPin(a.instance_id, a.stream_id, a.record_sha256, a.sequence, a.database_chain)
  }

  predicate PairOk(p: Pair, a: Anchor) {
    && p.instance_id == a.instance_id && (p.state == "active" || p.state == "pending")
    && 0 < p.tenant_id <= MAX_INT && p.publication_epoch >= 0
    && p.operation_id != "" && p.knowledge_base_id != "" && p.datasource_id != "" && p.instance_id != ""
    && p.binding_id != "" && p.base_url != "" && p.key_id != "" && Hex64(p.config_sha256)
  }

  /** Two pairs share none of their four identities. */
  predicate Apart(p: Pair, q: Pair) {
    && p.operation_id != q.operation_id && p.binding_id != q.binding_id && p.datasource_id != q.datasource_id
    && (p.tenant_id, p.knowledge_base_id) != (q.tenant_id, q.knowledge_base_id)
  }

  ghost predicate PairsOk(pairs: seq<Pair>, a: Anchor) {
    && (forall i | 0 <= i < |pairs| :: PairOk(pairs[i], a))
    && (forall i, j | 0 <= i < j < |pairs| :: Apart(pairs[i], pairs[j]))
  }

  predicate Ordered(pairs: seq<Pair>) {
    forall i | 0 < i < |pairs| :: Less(pairs[i - 1].operation_id, pairs[i].operation_id)
  }

  predicate HeadOk(inventory: Inventory, a: Anchor) {
    && inventory.schema_version == 1 && inventory.anchor == PinOf(a)
    && a.schema_version == 1 && a.source_head_complete && a.reconciliation_required
    && IsInteger(a.sequence) && Hex64(inventory.source_state_sha256) && 0 < |inventory.pairs| <= 10000
  }

  /** The four sets hold the identities of the pairs. */
  ghost predicate Lists(operations: set<string>, bindings: set<string>, sources: set<string>,
                        scopes: set<(int, string)>,
                        pairs: seq<Pair>) {
    && operations == (set p | p in pairs :: p.operation_id)
    && bindings == (set p | p in pairs :: p.binding_id)
    && sources == (set p | p in pairs :: p.datasource_id)
    && scopes == (set p | p in pairs :: (p.tenant_id, p.knowledge_base_id))
  }

  lemma NothingListed(a: Anchor)
    ensures Lists({}, {}, {}, {}, []) && PairsOk([], a)
  {
  }

  /** A pair whose identities are in none of the sets is apart from all listed ones, and the sets grow with it. */
  lemma ListsMeanApart(operations: set<string>, bindings: set<string>, sources: set<string>, scopes: set<(int, string)>,
                       pairs: seq<Pair>, p: Pair)
    requires Lists(operations, bindings, sources, scopes, pairs)
    ensures (p.operation_id in operations || p.binding_id in bindings || p.datasource_id in sources
             || (p.tenant_id, p.knowledge_base_id) in scopes) <==> exists q :: q in pairs && !Apart(q, p)
    ensures Lists(operations + {p.operation_id}, bindings + {p.binding_id}, sources + {p.datasource_id},
                  scopes + {(p.tenant_id, p.knowledge_base_id)}, pairs + [p])
  {
  }

  lemma PairsStep(pairs: seq<Pair>, k: nat, a: Anchor)
    requires k < |pairs|
    ensures PairsOk(pairs[..k + 1], a)
       <==> PairsOk(pairs[..k], a) && PairOk(pairs[k], a) && forall q | q in pairs[..k] :: Apart(q, pairs[k])
  {
    hide PairOk, Apart;
    var before, after := pairs[..k], pairs[..k + 1];
    assert forall i | 0 <= i < k :: after[i] == before[i];
    assert after[k] == pairs[k];
    if PairsOk(after, a) {
      forall q | q in before ensures Apart(q, pairs[k]) {
        var i :| 0 <= i < k && before[i] == q;
        assert Apart(after[i], after[k]);
      }
    }
  }

  lemma PairsPrefix(pairs: seq<Pair>, k: nat, a: Anchor)
    requires k <= |pairs| && PairsOk(pairs, a)
    ensures PairsOk(pairs[..k], a)
  {
    hide PairOk, Apart;
  }

  /** Bind the inventory of original sources to a checkpoint anchor; refuse an ambiguous one. */
  method InventoryBinding(a: Anchor, inventory: Inventory, pin: string) returns (r: Result<Bound>)
    ensures r.Ok? <==> HeadOk(inventory, a) && PairsOk(inventory.pairs, a) && Ordered(inventory.pairs)
    ensures r.Ok? ==> r.value == Bound(1, pin, inventory.source_state_sha256, PinOf(a), inventory.pairs,
                                       |inventory.pairs|, a.sequence)
  {
    hide PairOk, Lists, PairsOk;
    if !HeadOk(inventory, a) {
      return Refused;
    }
    var pairs := inventory.pairs;
    var operations: set<string>, bindings: set<string>, sources: set<string> := {}, {}, {};
    var scopes: set<(int, string)> := {};
    NothingListed(a);
    for k := 0 to |pairs|
      invariant PairsOk(pairs[..k], a) && Lists(operations, bindings, sources, scopes, pairs[..k])
    {
      var p := pairs[k];
      ListsMeanApart(operations, bindings, sources, scopes, pairs[..k], p);
      PairsStep(pairs, k, a);
      if !PairOk(p, a) || p.operation_id in operations || p.binding_id in bindings || p.datasource_id in sources
         || (p.tenant_id, p.knowledge_base_id) in scopes {
        if PairsOk(pairs, a) {
          PairsPrefix(pairs, k + 1, a);
        }
        return Refused;
      }
      TakeOneMore(pairs, k);
      operations, bindings := operations + {p.operation_id}, bindings + {p.binding_id};
      sources, scopes := sources + {p.datasource_id}, scopes + {(p.tenant_id, p.knowledge_base_id)};
    }
    TakeAll(pairs);
    if !Ordered(pairs) {
      return Refused;
    }
    r := Ok(Bound(1, pin, inventory.source_state_sha256, inventory.anchor, pairs, |pairs|, a.sequence));
  }

  // ----- the live state of both services

  datatype Manifest = Manifest(status: string, all_stopped: bool, anchor: Anchor, inventory: Option<Bound>)

  /** A remote pair; every field as text, because that is how the two sides are compared. */
  datatype RemotePair = RemotePair(
    operation_id: string, binding_id: string, instance_id: string, tenant_id: string, knowledge_base_id: string,
    data_source_id: string, key_id: string, state: string, publication_epoch: string)

  datatype BindingState = BindingState(id: string, publication_state: string, publication_epoch: int)

  datatype Withdrawal = Withdrawal(binding_id: string, file_id: string, state: string)

  datatype NcReceipt = NcReceipt(
    checkpoint_sha256: string, recovery_sha256: string, stream_id: string, plan_sha256: string, completed: int,
    through_sequence: string)

  datatype Nextcloud = Nextcloud(
    schema_version: int, instance_id: string, reopen_permitted: bool, receipt: NcReceipt, pairs: seq<RemotePair>,
    bindings: seq<BindingState>, withdrawals: seq<Withdrawal>)

  datatype Identity = Identity(
    instance_id: string, binding_id: string, base_url: string, publication_state: string, publication_epoch: int)

  datatype FileEntry = FileEntry(file_id: string, etag: string)

  datatype Reconciliation = Reconciliation(
    plan_sha256: string, operation_id: string, pair_sha256: string, identity: Identity, files: seq<FileEntry>,
    generation: string)

  datatype Published = Published(file_id: string, etag: string, knowledge_id: string, chunks: seq<string>)

  datatype Source = Source(
    pair: Pair, pair_sha256: string, scope_state: string, source_status: string,
    reconciliation: Option<Reconciliation>, published: seq<Published>, retired: set<string>)

  datatype WkReceipt = WkReceipt(
    checkpoint_record: string, recovery_record: string, stream_id: string, plan_sha256: string,
    through_sequence: string, instance_id: string, inventory_sha256: string, pair_count: int)

  datatype WeKnora = WeKnora(schema_version: int, receipt: WkReceipt, sources: seq<Source>)

  datatype Phase = Closed | Sources

  datatype Verdict = Verdict(
    phase: Phase, plan_sha256: string, inventory_sha256: string, operations: set<string>, reconciled: seq<string>,
    replay_verified: bool, reopen_permitted: bool)

  function Keyed<K, V>(items: seq<V>, key: V -> K): map<K, V> {
    if items == [] then map[] else Keyed(items[..|items| - 1], key)[key(items[|items| - 1]) := items[|items| - 1]]
  }

  const RemoteKey := (p: RemotePair) => p.operation_id
  const SourceKey := (s: Source) => s.pair.operation_id
  const BindingKey := (b: BindingState) => b.id
  const PublishedKey := (x: Published) => x.file_id
  const FileKey := (f: FileEntry) => f.file_id

  predicate BoundaryOk(m: Manifest, plan: Plan, digest: string, nc: Nextcloud, wk: WeKnora) {
    && m.status == "COMPLETE" && m.all_stopped
    && m.inventory.Some? && m.inventory.value.schema_version == 1
    && m.inventory.value.anchor == PinOf(m.anchor)
    && m.inventory.value.replay_valid_lower_bound == plan.checkpoint_sequence
    && m.inventory.value.pair_count == |m.inventory.value.pairs|
    && nc.schema_version == 1 && wk.schema_version == 1 && nc.instance_id == plan.instance_id && !nc.reopen_permitted
    && ReceiptsOk(m.inventory.value, plan, digest, nc.receipt, wk.receipt)
  }

  predicate ReceiptsOk(b: Bound, plan: Plan, digest: string, n: NcReceipt, w: WkReceipt) {
    && n.checkpoint_sha256 == w.checkpoint_record == plan.checkpoint_record
    && n.recovery_sha256 == w.recovery_record == plan.recovery_record
    && n.stream_id == w.stream_id == plan.stream_id
    && n.plan_sha256 == digest && w.plan_sha256 == digest && n.completed == 1
    && n.through_sequence == w.through_sequence == plan.through_sequence
    && w.instance_id == plan.instance_id && w.inventory_sha256 == b.inventory_sha256 && w.pair_count == |b.pairs|
  }

  /** The files that Nextcloud currently holds withdrawn. */
  function Withdrawn(nc: Nextcloud): set<(string, string)> {
    set x | x in nc.withdrawals && x.state == "withdrawn" :: (x.binding_id, x.file_id)
  }

  /** Both services list exactly the original sources, and Nextcloud holds withdrawn exactly what the plan demands of
      the bindings it still has. */
  predicate ScopesOk(pairs: seq<Pair>, plan: Plan, nc: Nextcloud, wk: WeKnora, phase: Phase) {
    && |Keyed(nc.pairs, RemoteKey)| == |nc.pairs| && |Keyed(wk.sources, SourceKey)| == |wk.sources|
    && Keyed(nc.pairs, RemoteKey).Keys == (set p | p in pairs :: p.operation_id)
    && Keyed(wk.sources, SourceKey).Keys == Keyed(nc.pairs, RemoteKey).Keys
    && Withdrawn(nc) == (set k | k in plan.withdraw_files && k.0 in Keyed(nc.bindings, BindingKey) :: k)
    && (phase.Closed? ==> forall b | b in nc.bindings :: b.publication_state == "stopped")
  }

  predicate SamePair(p: Pair, q: RemotePair) {
    && p.binding_id == q.binding_id && p.instance_id == q.instance_id && Str(p.tenant_id) == q.tenant_id
    && p.knowledge_base_id == q.knowledge_base_id && p.datasource_id == q.data_source_id && p.key_id == q.key_id
    && p.state == q.state && Str(p.publication_epoch) == q.publication_epoch
  }

  predicate SourceClosed(s: Source) {
    s.scope_state == "closed" && s.source_status == "paused" && s.reconciliation.None? && s.published == []
  }

  /** One published file against its manifest entry: right version, fresh generation, distinct indexed chunks. */
  predicate FreshlyIndexed(x: Published, etag: string, retired: set<string>) {
    && x.etag == etag && x.knowledge_id !in retired && x.chunks != []
    && |set c | c in x.chunks| == |x.chunks|
  }

  predicate SourceReady(p: Pair, s: Source, b: BindingState, digest: string, withdrawn: set<(string, string)>) {
    && s.scope_state == "reconciled" && s.source_status == "active" && b.publication_state == "active"
    && b.publication_epoch > p.publication_epoch
    && s.reconciliation.Some?
    && ReconciliationOk(p, s, b, s.reconciliation.value, digest)
    && ManifestPublished(p, s, s.reconciliation.value, withdrawn)
  }

  predicate ReconciliationOk(p: Pair, s: Source, b: BindingState, r: Reconciliation, digest: string) {
    && r.plan_sha256 == digest && r.operation_id == p.operation_id && r.pair_sha256 == s.pair_sha256
    && r.identity == Identity(p.instance_id, p.binding_id, p.base_url, "active", b.publication_epoch)
    && |Keyed(r.files, FileKey)| == |r.files| && r.generation != ""
  }

  predicate ManifestPublished(p: Pair, s: Source, r: Reconciliation, withdrawn: set<(string, string)>) {
    var files, published := Keyed(r.files, FileKey), Keyed(s.published, PublishedKey);
    && (forall f | f in files :: (p.binding_id, f) !in withdrawn)
    && published.Keys == files.Keys && |published| == |s.published|
    && (forall f | f in published :: f in files && FreshlyIndexed(published[f], files[f].etag, s.retired))
  }

  /** One original source, in the phase that is being verified. */
  predicate PairVerified(p: Pair, nc: Nextcloud, wk: WeKnora, digest: string, phase: Phase) {
    && p.operation_id in Keyed(nc.pairs, RemoteKey) && p.operation_id in Keyed(wk.sources, SourceKey)
    && Keyed(wk.sources, SourceKey)[p.operation_id].pair == p
    && SamePair(p, Keyed(nc.pairs, RemoteKey)[p.operation_id])
    && p.binding_id in Keyed(nc.bindings, BindingKey)
    && if phase.Closed? then SourceClosed(Keyed(wk.sources, SourceKey)[p.operation_id])
       else SourceReady(p, Keyed(wk.sources, SourceKey)[p.operation_id], Keyed(nc.bindings, BindingKey)[p.binding_id],
                        digest, Withdrawn(nc))
  }

  ghost predicate CurrentOk(m: Manifest, plan: Plan, digest: string, nc: Nextcloud, wk: WeKnora, phase: Phase) {
    && BoundaryOk(m, plan, digest, nc, wk)
    && ScopesOk(m.inventory.value.pairs, plan, nc, wk, phase)
    && forall i | 0 <= i < |m.inventory.value.pairs| ::
         PairVerified(m.inventory.value.pairs[i], nc, wk, digest, phase)
  }

  /** Verify the live state; the verdict lists the reconciled sources and never permits reopening. */
  method VerifyCurrent(m: Manifest, plan: Plan, digest: string, nc: Nextcloud, wk: WeKnora, phase: Phase)
    returns (r: Result<Verdict>)
    ensures r.Ok? <==> CurrentOk(m, plan, digest, nc, wk, phase)
    ensures r.Ok? ==> !r.value.reopen_permitted && r.value.phase == phase && r.value.plan_sha256 == digest
    ensures r.Ok? ==> r.value.reconciled == if phase.Closed? then []
                                            else seq(|m.inventory.value.pairs|,
                                                     i requires 0 <= i < |m.inventory.value.pairs| =>
                                                       m.inventory.value.pairs[i].operation_id)
    ensures r.Ok? ==> r.value.replay_verified && r.value.inventory_sha256 == m.inventory.value.inventory_sha256
    ensures r.Ok? ==> r.value.operations == set p | p in m.inventory.value.pairs :: p.operation_id
  {
    hide ScopesOk, PairVerified, Keyed;
    if !BoundaryOk(m, plan, digest, nc, wk) {
      return Refused;
    }
    var pairs := m.inventory.value.pairs;
    if !ScopesOk(pairs, plan, nc, wk, phase) {
      return Refused;
    }
    ScopesList(pairs, plan, nc, wk, phase);
    var ready: seq<string> := [];
    var k := 0;
    while k < |pairs|
      invariant 0 <= k <= |pairs|
      invariant forall i | 0 <= i < k :: PairVerified(pairs[i], nc, wk, digest, phase)
      invariant phase.Closed? ==> ready == []
      invariant phase.Sources? ==> |ready| == k && forall i | 0 <= i < k :: ready[i] == pairs[i].operation_id
    {
      if !PairVerified(pairs[k], nc, wk, digest, phase) {
        return Refused;
      }
      if phase.Sources? {
        ready := ready + [pairs[k].operation_id];
      }
      k := k + 1;
    }
    r := Ok(Verdict(phase, digest, m.inventory.value.inventory_sha256, Keyed(wk.sources, SourceKey).Keys, ready,
                    true, false));
  }

  lemma ScopesList(pairs: seq<Pair>, plan: Plan, nc: Nextcloud, wk: WeKnora, phase: Phase)
    requires ScopesOk(pairs, plan, nc, wk, phase)
    ensures Keyed(wk.sources, SourceKey).Keys == set p | p in pairs :: p.operation_id
  {
    hide Keyed;
  }

  // ----- what a verified reopening guarantees

  lemma {:induction false} KeyedMeaning<K, V>(items: seq<V>, key: V -> K)
    ensures forall k | k in Keyed(items, key) :: Keyed(items, key)[k] in items && key(Keyed(items, key)[k]) == k
    ensures forall v | v in items :: key(v) in Keyed(items, key)
  {
    if items != [] {
      KeyedMeaning(items[..|items| - 1], key);
      SplitLast(items);
    }
  }

  /** Both programs together: once the sources verify against a plan of the journal, no original source publishes a
      file that was withdrawn or deleted after the checkpoint, whatever events followed for it. */
  lemma NothingWithdrawnIsPublished(env: Env, key: string, now: int, rs: seq<Signed>, anchor: string, through: string,
                                    plan: Plan, digest: string, m: Manifest, nc: Nextcloud, wk: WeKnora,
                                    p: Pair, x: Published, i: nat)
    requires JournalOk(env, key, now, rs)
    requires Replayable(env, rs, anchor, through) && IsPlan(env, rs, anchor, through, plan)
    requires CurrentOk(m, plan, digest, nc, wk, Sources)
    requires p in m.inventory.value.pairs && x in Keyed(wk.sources, SourceKey)[p.operation_id].published
    requires i < |PlanWindow(env, rs, anchor, through)|
    ensures !Withdraws(PlanWindow(env, rs, anchor, through)[i], p.binding_id, x.file_id)
  {
    hide JournalOk, IsPlan, FactsOk, Keyed, BoundaryOk, ReconciliationOk, FreshlyIndexed, SamePair;
    WithdrawalsAreExact(env, key, now, rs, anchor, through, plan, p.binding_id, x.file_id);
    var s := Keyed(wk.sources, SourceKey)[p.operation_id];
    KeyedMeaning(s.published, PublishedKey);
    assert PublishedKey(x) in Keyed(s.published, PublishedKey);
    assert (p.binding_id, x.file_id) !in Withdrawn(nc);
  }
}
