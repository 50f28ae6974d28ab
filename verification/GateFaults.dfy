/** Why the gate refuses a plan, an inventory or the live state of the services, in the order of its checks. */
module GateFaults {
  import opened Wrappers
  import opened Text
  import opened Formats
  import opened Ledger
  import opened Recovery
  import opened Gate
  import opened Reopening
  import opened PageFaults

  // ----- the signed plan

  datatype PlanFault =
    | Fit | OtherSource | OtherCheckpoint | InvalidBound | InvalidFlags | IncompleteRange | InvalidPrefix
    | PrefixMismatch

  /** The plan against the anchor of the checkpoint. */
  ghost function PlanRefused(plan: Plan, a: Anchor): PlanFault {
    var first, last := Number(plan.checkpoint_sequence), Number(plan.through_sequence);
    if plan.instance_id != a.instance_id || plan.stream_id != a.stream_id then OtherSource
    else if plan.checkpoint_record != a.record_sha256 then OtherCheckpoint
    else if plan.checkpoint_sequence != a.sequence || plan.checkpoint_chain != a.database_chain then OtherCheckpoint
    else if !IsNumber(plan.checkpoint_sequence) || !IsNumber(plan.through_sequence) then InvalidBound
    else if first > last then InvalidBound
    else if plan.schema_version != 1 || !plan.reconciliation_required || plan.reopen_permitted then InvalidFlags
    else if Gap(plan.prefix_hashes, first, last) || Stray(plan.prefix_hashes, first, last) then IncompleteRange
    else if NoDigest(plan.prefix_hashes) then InvalidPrefix
    else if plan.prefix_hashes[Decimal(first)] != plan.checkpoint_chain then PrefixMismatch
    else if plan.prefix_hashes[Decimal(last)] != plan.through_chain then PrefixMismatch
    else Fit
  }

  /** A sequence of the range has no entry. */
  predicate Gap(m: map<string, string>, first: nat, last: nat) {
    exists n | first <= n <= last :: Decimal(n) !in m
  }

  /** An entry is for no sequence of the range. */
  predicate Stray(m: map<string, string>, first: nat, last: nat) {
    exists s | s in m :: forall n | first <= n <= last :: s != Decimal(n)
  }

  predicate NoDigest(m: map<string, string>) {
    exists s | s in m :: !Drawn(m[s], HEX, 64, 64)
  }

  lemma RangeExactly(m: map<string, string>, first: nat, last: nat)
    ensures m.Keys == KeysBetween(first, last) <==> !Gap(m, first, last) && !Stray(m, first, last)
  {
    var keys := KeysBetween(first, last);
    assert forall n | first <= n <= last :: Decimal(n) in keys;
    assert forall s | s in keys :: exists n | first <= n <= last :: s == Decimal(n);
    hide KeysBetween, Decimal;
    if !Gap(m, first, last) && !Stray(m, first, last) {
      forall s | s in keys ensures s in m {
        var n :| first <= n <= last && s == Decimal(n);
      }
      forall s | s in m ensures s in keys {
        var n :| first <= n <= last && s == Decimal(n);
      }
      assert m.Keys == keys;
    }
  }

  lemma DigestsExactly(m: map<string, string>)
    ensures (forall s | s in m :: Hex64(m[s])) <==> !NoDigest(m)
  {
    forall s | s in m ensures Hex64(m[s]) <==> Drawn(m[s], HEX, 64, 64) {
      DigestExactly(m[s]);
    }
    hide Hex64, Drawn;
  }

  lemma FitsExactly(plan: Plan, a: Anchor)
    ensures AnchorMatches(plan, a) && RangeOk(plan) <==> PlanRefused(plan, a).Fit?
  {
    hide Number, IsNumber, Decimal, KeysBetween, Hex64, Drawn, Gap, Stray, NoDigest;
    NumberIsNum(plan.checkpoint_sequence);
    NumberIsNum(plan.through_sequence);
    RangeExactly(plan.prefix_hashes, Num(plan.checkpoint_sequence), Num(plan.through_sequence));
    DigestsExactly(plan.prefix_hashes);
    EndsAreThere(plan.prefix_hashes, Num(plan.checkpoint_sequence), Num(plan.through_sequence));
    hide Num;
  }

  lemma EndsAreThere(m: map<string, string>, first: nat, last: nat)
    ensures first <= last && !Gap(m, first, last) ==> Decimal(first) in m && Decimal(last) in m
  {
  }

  /** The gate takes a plan if and only if it is signed with the key, holds a plan, and has no fault against the
      anchor. */
  lemma PlanExactly(env: Env, payload: string, mac: string, key: string, a: Anchor, plan: Plan)
    requires Codec(env) && env.parse(payload) == Some(PlanJson(plan))
    ensures var raw := env.canonical(EnvelopeJson(payload, mac));
            PlanVerify(env, raw, key, a)
            == if mac == env.mac(key, payload) && PlanRefused(plan, a).Fit? then Ok((plan, env.sha(payload)))
               else Refused
  {
    FitsExactly(plan, a);
    assert env.parse(env.canonical(EnvelopeJson(payload, mac))) == Some(EnvelopeJson(payload, mac));
    hide Codec, AnchorMatches, RangeOk, PlanRefused;
  }

  // ----- the original inventory

  datatype InventoryFault =
    | Bindable | InvalidInventory | OtherAnchor | IncompleteAnchor | InvalidSequence | InvalidState | WrongSize
    | InvalidPair | Ambiguous | Unordered

  /** A pair that is not a source of the anchor's instance, or whose tuple is incomplete. */
  predicate PairFaulty(p: Pair, a: Anchor) {
    || p.instance_id != a.instance_id || (p.state != "active" && p.state != "pending")
    || p.tenant_id <= 0 || p.tenant_id > 9223372036854775807 || p.publication_epoch < 0
    || |p.operation_id| == 0 || |p.knowledge_base_id| == 0 || |p.datasource_id| == 0 || |p.instance_id| == 0
    || |p.binding_id| == 0 || |p.base_url| == 0 || |p.key_id| == 0 || !Drawn(p.config_sha256, HEX, 64, 64)
  }

  predicate Shares(p: Pair, q: Pair) {
    || p.operation_id == q.operation_id || p.binding_id == q.binding_id || p.datasource_id == q.datasource_id
    || (p.tenant_id == q.tenant_id && p.knowledge_base_id == q.knowledge_base_id)
  }

  ghost function InventoryRefused(inventory: Inventory, a: Anchor): InventoryFault {
    var pin := inventory.anchor;
    if inventory.schema_version != 1 then InvalidInventory
    else if pin.instance_id != a.instance_id || pin.stream_id != a.stream_id then OtherAnchor
    else if pin.record_sha256 != a.record_sha256 || pin.sequence != a.sequence then OtherAnchor
    else if pin.database_chain != a.database_chain then OtherAnchor
    else if a.schema_version != 1 || !a.source_head_complete || !a.reconciliation_required then IncompleteAnchor
    else if !IsNumber(a.sequence) then InvalidSequence
    else if !Drawn(inventory.source_state_sha256, HEX, 64, 64) then InvalidState
    else if |inventory.pairs| == 0 || |inventory.pairs| > 10000 then WrongSize
    else if exists p | p in inventory.pairs :: PairFaulty(p, a) then InvalidPair
    else if exists i, j :: 0 <= i < j < |inventory.pairs| && Shares(inventory.pairs[i], inventory.pairs[j])
      then Ambiguous
    else if exists i | 1 <= i < |inventory.pairs| ::
              !Precedes(inventory.pairs[i - 1].operation_id, inventory.pairs[i].operation_id) then Unordered
    else Bindable
  }

  lemma PairExactly(p: Pair, a: Anchor)
    ensures PairOk(p, a) <==> !PairFaulty(p, a)
  {
    DigestExactly(p.config_sha256);
    hide Hex64, Drawn;
  }

  lemma PairsExactly(pairs: seq<Pair>, a: Anchor)
    ensures PairsOk(pairs, a)
       <==> !(exists p | p in pairs :: PairFaulty(p, a))
            && !(exists i, j :: 0 <= i < j < |pairs| && Shares(pairs[i], pairs[j]))
  {
    forall p | p in pairs ensures PairOk(p, a) <==> !PairFaulty(p, a) {
      PairExactly(p, a);
    }
    assert forall p, q :: Apart(p, q) <==> !Shares(p, q);
    hide PairOk, PairFaulty, Apart, Shares;
  }

  lemma OrderedExactly(pairs: seq<Pair>)
    ensures Ordered(pairs)
       <==> !(exists i | 1 <= i < |pairs| :: !Precedes(pairs[i - 1].operation_id, pairs[i].operation_id))
  {
    forall a: string, b: string ensures Less(a, b) <==> Precedes(a, b) {
      OrderExactly(a, b);
    }
    hide Less, Precedes;
  }

  /** An inventory is bound to a checkpoint exactly if it has no fault; the binding's fields are those of the inventory
      and of the anchor. */
  lemma InventoryExactly(inventory: Inventory, a: Anchor)
    ensures HeadOk(inventory, a) && PairsOk(inventory.pairs, a) && Ordered(inventory.pairs)
       <==> InventoryRefused(inventory, a).Bindable?
  {
    PairsExactly(inventory.pairs, a);
    OrderedExactly(inventory.pairs);
    NumberExactly(a.sequence);
    DigestExactly(inventory.source_state_sha256);
    hide Hex64, Drawn, IsNumber, PairsOk, Ordered, PairFaulty, Shares, Precedes;
  }

  // ----- the live state

  datatype LiveFault =
    | Current | IncompleteCheckpoint | NoInventory | LowerBound | PairCount | InvalidObservation | ReceiptBoundary
    | PlanReceipt | OtherInventory | ChangedScopes | ChangedWithdrawals | ReopenedBinding | UnverifiedSource

  /** Two entries of a list have the same key. */
  predicate Repeats<V>(items: seq<V>, key: V -> string) {
    exists i, j :: 0 <= i < j < |items| && key(items[i]) == key(items[j])
  }

  /** `v` is the last entry of its key. */
  ghost predicate IsLast<V>(items: seq<V>, key: V -> string, k: string, v: V) {
    exists i :: 0 <= i < |items| && items[i] == v && key(v) == k && forall j | i < j < |items| :: key(items[j]) != k
  }

  lemma {:induction false} KeyedIsLast<V>(items: seq<V>, key: V -> string, k: string)
    ensures k in Keyed(items, key) <==> exists v :: v in items && key(v) == k
    ensures k in Keyed(items, key) ==> IsLast(items, key, k, Keyed(items, key)[k])
  {
    if items != [] {
      var n := |items| - 1;
      var init := items[..n];
      KeyedIsLast(init, key, k);
      assert items == init + [items[n]];
      if k in Keyed(items, key) {
        if key(items[n]) == k {
          assert items[n] == Keyed(items, key)[k];
        } else {
          var v := Keyed(init, key)[k];
          var i :| 0 <= i < |init| && init[i] == v && key(v) == k && forall j | i < j < |init| :: key(init[j]) != k;
          assert items[i] == v;
          assert forall j | i < j < |items| :: key(items[j]) != k;
        }
      }
    }
  }

  lemma {:induction false} KeyedSize<V>(items: seq<V>, key: V -> string)
    ensures |Keyed(items, key)| <= |items|
    ensures |Keyed(items, key)| == |items| <==> !Repeats(items, key)
  {
    if items != [] {
      var n := |items| - 1;
      var init := items[..n];
      assert items == init + [items[n]];
      KeyedSize(init, key);
      KeyedIsLast(init, key, key(items[n]));
      assert Keyed(items, key).Keys == Keyed(init, key).Keys + {key(items[n])};
      hide Keyed;
      RepeatsStep(init, key, items[n]);
      hide Repeats;
    }
  }

  lemma RepeatsStep<V>(items: seq<V>, key: V -> string, last: V)
    ensures Repeats(items + [last], key) <==> Repeats(items, key) || exists v :: v in items && key(v) == key(last)
  {
    var all := items + [last];
    if Repeats(items, key) {
      var i, j :| 0 <= i < j < |items| && key(items[i]) == key(items[j]);
      assert all[i] == items[i] && all[j] == items[j];
    }
    if v :| v in items && key(v) == key(last) {
      var i :| 0 <= i < |items| && items[i] == v;
      assert all[i] == v && all[|items|] == last;
    }
    if Repeats(all, key) && !Repeats(items, key) {
      var i, j :| 0 <= i < j < |all| && key(all[i]) == key(all[j]);
      assert all[i] == items[i] && items[i] in items;
    }
  }

  /** Without repetition an entry is found by its key. */
  lemma KeyedFinds<V>(items: seq<V>, key: V -> string, v: V)
    requires !Repeats(items, key) && v in items
    ensures key(v) in Keyed(items, key) && Keyed(items, key)[key(v)] == v
  {
    KeyedIsLast(items, key, key(v));
    hide Keyed;
    var w := Keyed(items, key)[key(v)];
    var i :| 0 <= i < |items| && items[i] == v;
    var j :| 0 <= j < |items| && items[j] == w && key(w) == key(v);
    assert i < j ==> key(items[i]) != key(items[j]);
    assert j < i ==> key(items[j]) != key(items[i]);
  }

  lemma {:induction false} ChunksDiffer(chunks: seq<string>)
    ensures |set c | c in chunks| == |chunks| <==> forall i, j | 0 <= i < j < |chunks| :: chunks[i] != chunks[j]
    ensures |set c | c in chunks| <= |chunks|
  {
    if chunks != [] {
      var n := |chunks| - 1;
      var init := chunks[..n];
      ChunksDiffer(init);
      assert chunks == init + [chunks[n]];
      assert (set c | c in chunks) == (set c | c in init) + {chunks[n]};
      if forall i, j | 0 <= i < j < |chunks| :: chunks[i] != chunks[j] {
        assert chunks[n] !in init;
        assert forall i, j | 0 <= i < j < n :: init[i] == chunks[i] && init[j] == chunks[j];
      } else if chunks[n] !in init {
        var i, j :| 0 <= i < j < |chunks| && chunks[i] == chunks[j];
        assert init[i] == chunks[i] && init[i] in init;
        assert init[j] == chunks[j];
      }
    }
  }

  // The keys by which the gate looks entries up.
  const ByOperation := (q: RemotePair) => q.operation_id
  const ByPair := (p: Pair) => p.operation_id
  const BySource := (s: Source) => s.pair.operation_id
  const ByBinding := (b: BindingState) => b.id
  const ByFile := (f: FileEntry) => f.file_id
  const ByPublished := (x: Published) => x.file_id

  /** Nextcloud holds this file of this binding withdrawn. */
  predicate HeldWithdrawn(nc: Nextcloud, binding: string, file: string) {
    exists x | x in nc.withdrawals :: x.binding_id == binding && x.file_id == file && x.state == "withdrawn"
  }

  predicate ReceiptsFaulty(plan: Plan, n: NcReceipt, w: WkReceipt) {
    || n.checkpoint_sha256 != plan.checkpoint_record || w.checkpoint_record != plan.checkpoint_record
    || n.recovery_sha256 != plan.recovery_record || w.recovery_record != plan.recovery_record
    || n.stream_id != plan.stream_id || w.stream_id != plan.stream_id
  }

  predicate PlanReceiptsFaulty(plan: Plan, digest: string, n: NcReceipt, w: WkReceipt) {
    || n.plan_sha256 != digest || w.plan_sha256 != digest || n.completed != 1
    || n.through_sequence != plan.through_sequence || w.through_sequence != plan.through_sequence
  }

  /** Remote and original pair agree in every field. */
  predicate Agrees(p: Pair, q: RemotePair) {
    && (q.operation_id, q.binding_id, q.instance_id) == (p.operation_id, p.binding_id, p.instance_id)
    && (q.tenant_id, q.knowledge_base_id) == (Str(p.tenant_id), p.knowledge_base_id)
    && (q.data_source_id, q.key_id, q.state) == (p.datasource_id, p.key_id, p.state)
    && q.publication_epoch == Str(p.publication_epoch)
  }

  /** The source is closed: nothing is reconciled and nothing published. */
  predicate IsClosed(s: Source) {
    (s.scope_state, s.source_status) == ("closed", "paused") && s.reconciliation == None && |s.published| == 0
  }

  /** The source publishes exactly the files of a manifest made for this plan, each as a new generation. */
  ghost predicate IsReconciled(p: Pair, s: Source, b: BindingState, digest: string, nc: Nextcloud) {
    && (s.scope_state, s.source_status, b.publication_state) == ("reconciled", "active", "active")
    && b.publication_epoch > p.publication_epoch
    && s.reconciliation != None
    && var r := s.reconciliation.value;
    && (r.plan_sha256, r.operation_id, r.pair_sha256) == (digest, p.operation_id, s.pair_sha256)
    && (r.identity.instance_id, r.identity.binding_id) == (p.instance_id, p.binding_id)
    && (r.identity.base_url, r.identity.publication_state) == (p.base_url, "active")
    && r.identity.publication_epoch == b.publication_epoch && |r.generation| > 0
    && !Repeats(r.files, ByFile) && IsPublished(p, s, r.files, nc)
  }

  /** Each file is published once, none is withdrawn, and nothing else is published. */
  predicate IsPublished(p: Pair, s: Source, files: seq<FileEntry>, nc: Nextcloud) {
    && !Repeats(s.published, ByPublished)
    && (forall f | f in files :: !HeldWithdrawn(nc, p.binding_id, f.file_id))
    && (forall f | f in files :: exists x | x in s.published :: x.file_id == f.file_id)
    && (forall x | x in s.published :: exists f | f in files :: f.file_id == x.file_id && IsNewGeneration(x, f, s))
  }

  predicate IsNewGeneration(x: Published, f: FileEntry, s: Source) {
    && x.etag == f.etag && x.knowledge_id !in s.retired && |x.chunks| > 0
    && forall i, j | 0 <= i < j < |x.chunks| :: x.chunks[i] != x.chunks[j]
  }

  /** The original source is there on both sides, unchanged, and in the state that the phase asks for. */
  ghost predicate IsVerified(p: Pair, nc: Nextcloud, wk: WeKnora, digest: string, phase: Phase) {
    exists q, s, b ::
      && q in nc.pairs && s in wk.sources && IsLast(nc.bindings, ByBinding, p.binding_id, b)
      && Agrees(p, q) && s.pair == p
      && (phase == Phase.Closed ==> IsClosed(s)) && (phase == Sources ==> IsReconciled(p, s, b, digest, nc))
  }

  /** An original source is missing on one side, or one side has a source that is no original. */
  predicate ScopesChanged(pairs: seq<Pair>, nc: Nextcloud, wk: WeKnora) {
    || Repeats(nc.pairs, ByOperation) || Repeats(wk.sources, BySource)
    || (exists p | p in pairs :: forall q | q in nc.pairs :: q.operation_id != p.operation_id)
    || (exists p | p in pairs :: forall s | s in wk.sources :: s.pair.operation_id != p.operation_id)
    || (exists q | q in nc.pairs :: forall p | p in pairs :: p.operation_id != q.operation_id)
    || (exists s | s in wk.sources :: forall p | p in pairs :: p.operation_id != s.pair.operation_id)
  }

  /** Nextcloud holds withdrawn something else than what the plan demands of the bindings it still has. */
  predicate WithdrawalsChanged(plan: Plan, nc: Nextcloud) {
    || (exists x | x in nc.withdrawals :: x.state == "withdrawn" &&
          ((x.binding_id, x.file_id) !in plan.withdraw_files || forall b | b in nc.bindings :: b.id != x.binding_id))
    || (exists k | k in plan.withdraw_files ::
          (exists b | b in nc.bindings :: b.id == k.0) && !HeldWithdrawn(nc, k.0, k.1))
  }

  /** Why the live state is refused, by the first check that fails. */
  ghost function CurrentRefused(m: Reopening.Manifest, plan: Plan, digest: string, nc: Nextcloud, wk: WeKnora,
                                phase: Phase): LiveFault {
    if m.status != "COMPLETE" || !m.all_stopped then IncompleteCheckpoint
    else if m.inventory.None? || m.inventory.value.schema_version != 1 then NoInventory
    else
      var b := m.inventory.value;
      if (b.anchor.instance_id, b.anchor.stream_id) != (m.anchor.instance_id, m.anchor.stream_id) then LowerBound
      else if (b.anchor.record_sha256, b.anchor.sequence) != (m.anchor.record_sha256, m.anchor.sequence) then LowerBound
      else if b.anchor.database_chain != m.anchor.database_chain then LowerBound
      else if b.replay_valid_lower_bound != plan.checkpoint_sequence then LowerBound
      else if b.pair_count != |b.pairs| then PairCount
      else if nc.schema_version != 1 || wk.schema_version != 1 then InvalidObservation
      else if nc.instance_id != plan.instance_id || nc.reopen_permitted then InvalidObservation
      else if ReceiptsFaulty(plan, nc.receipt, wk.receipt) then ReceiptBoundary
      else if PlanReceiptsFaulty(plan, digest, nc.receipt, wk.receipt) then PlanReceipt
      else if wk.receipt.instance_id != plan.instance_id then OtherInventory
      else if wk.receipt.inventory_sha256 != b.inventory_sha256 then OtherInventory
      else if wk.receipt.pair_count != |b.pairs| then OtherInventory
      else if ScopesChanged(b.pairs, nc, wk) then ChangedScopes
      else if WithdrawalsChanged(plan, nc) then ChangedWithdrawals
      else if phase == Phase.Closed && exists x | x in nc.bindings :: x.publication_state != "stopped"
        then ReopenedBinding
      else if exists p | p in b.pairs :: !IsVerified(p, nc, wk, digest, phase) then UnverifiedSource
      else Current
  }

  // ----- the same as what is checked

  lemma SameKeys()
    ensures RemoteKey == ByOperation && SourceKey == BySource && BindingKey == ByBinding && FileKey == ByFile
    ensures PublishedKey == ByPublished
  {
  }

  /** Each list has an entry for every entry of the other. */
  ghost predicate SameEntries<V>(items: seq<V>, key: V -> string, pairs: seq<Pair>) {
    && (forall p | p in pairs :: exists v :: v in items && key(v) == p.operation_id)
    && (forall v | v in items :: exists p | p in pairs :: p.operation_id == key(v))
  }

  lemma PairKeys(pairs: seq<Pair>)
    ensures Keyed(pairs, ByPair).Keys == set p | p in pairs :: p.operation_id
  {
    forall k: string ensures k in Keyed(pairs, ByPair) <==> exists p :: p in pairs && p.operation_id == k {
      KeyedIsLast(pairs, ByPair, k);
    }
    hide Keyed;
  }

  lemma KeysExactly<V>(items: seq<V>, key: V -> string, pairs: seq<Pair>)
    ensures Keyed(items, key).Keys == (set p | p in pairs :: p.operation_id) <==> SameEntries(items, key, pairs)
  {
    KeysWithin(items, key, pairs, ByPair);
    KeysWithin(pairs, ByPair, items, key);
    PairKeys(pairs);
    assert forall p: Pair :: ByPair(p) == p.operation_id;
    hide Keyed, ByPair;
  }

  lemma WithdrawnExactly(plan: Plan, nc: Nextcloud)
    ensures Reopening.Withdrawn(nc) == (set k | k in plan.withdraw_files && k.0 in Keyed(nc.bindings, BindingKey) :: k)
       <==> !WithdrawalsChanged(plan, nc)
    ensures forall b, f :: (b, f) in Reopening.Withdrawn(nc) <==> HeldWithdrawn(nc, b, f)
  {
    SameKeys();
    var demanded := set k | k in plan.withdraw_files && k.0 in Keyed(nc.bindings, BindingKey) :: k;
    forall id ensures id in Keyed(nc.bindings, BindingKey) <==> exists b | b in nc.bindings :: b.id == id {
      KeyedIsLast(nc.bindings, ByBinding, id);
    }
    hide Keyed;
    if !WithdrawalsChanged(plan, nc) {
      assert forall k :: k in Reopening.Withdrawn(nc) <==> k in demanded;
    } else if Reopening.Withdrawn(nc) == demanded {
      forall x | x in nc.withdrawals && x.state == "withdrawn"
        ensures (x.binding_id, x.file_id) in plan.withdraw_files && exists b | b in nc.bindings :: b.id == x.binding_id
      {
        assert (x.binding_id, x.file_id) in Reopening.Withdrawn(nc);
      }
      forall k | k in plan.withdraw_files && exists b | b in nc.bindings :: b.id == k.0
        ensures HeldWithdrawn(nc, k.0, k.1)
      {
        assert k in demanded;
      }
    }
  }

  lemma ScopesExactly(pairs: seq<Pair>, plan: Plan, nc: Nextcloud, wk: WeKnora, phase: Phase)
    ensures ScopesOk(pairs, plan, nc, wk, phase)
       <==> && !ScopesChanged(pairs, nc, wk) && !WithdrawalsChanged(plan, nc)
            && !(phase == Phase.Closed && exists x | x in nc.bindings :: x.publication_state != "stopped")
  {
    SameKeys();
    KeyedSize(nc.pairs, ByOperation);
    KeyedSize(wk.sources, BySource);
    KeysExactly(nc.pairs, ByOperation, pairs);
    KeysExactly(wk.sources, BySource, pairs);
    WithdrawnExactly(plan, nc);
    ChangedExactly(pairs, nc, wk);
    hide Keyed, ScopesChanged, WithdrawalsChanged, SameEntries, Repeats, Reopening.Withdrawn;
  }

  lemma ChangedExactly(pairs: seq<Pair>, nc: Nextcloud, wk: WeKnora)
    ensures !ScopesChanged(pairs, nc, wk)
       <==> && !Repeats(nc.pairs, ByOperation) && !Repeats(wk.sources, BySource)
            && SameEntries(nc.pairs, ByOperation, pairs) && SameEntries(wk.sources, BySource, pairs)
  {
    hide Repeats;
  }

  lemma ReconciledExactly(p: Pair, s: Source, b: BindingState, digest: string, nc: Nextcloud)
    ensures SourceReady(p, s, b, digest, Reopening.Withdrawn(nc)) <==> IsReconciled(p, s, b, digest, nc)
  {
    hide Keyed, Repeats, ManifestPublished, Reopening.Withdrawn, IsPublished;
    if s.reconciliation.Some? {
      var r := s.reconciliation.value;
      SameKeys();
      KeyedSize(r.files, ByFile);
      if !Repeats(r.files, ByFile) {
        PublishedExactly(p, s, r, nc);
      }
    }
  }

  /** One dictionary has all keys of another exactly if its list has an entry for each of the other list. */
  lemma KeysWithin<V, W>(a: seq<V>, keyA: V -> string, b: seq<W>, keyB: W -> string)
    ensures Keyed(a, keyA).Keys <= Keyed(b, keyB).Keys
       <==> forall v | v in a :: exists w :: w in b && keyB(w) == keyA(v)
  {
    var left, right := Keyed(a, keyA).Keys, Keyed(b, keyB).Keys;
    forall k ensures k in left <==> exists v :: v in a && keyA(v) == k {
      KeyedIsLast(a, keyA, k);
    }
    forall k ensures k in right <==> exists w :: w in b && keyB(w) == k {
      KeyedIsLast(b, keyB, k);
    }
    hide Keyed;
    if left <= right {
      forall v | v in a ensures exists w :: w in b && keyB(w) == keyA(v) {
        assert keyA(v) in left;
      }
    }
  }

  lemma FilesMatch(files: seq<FileEntry>, published: seq<Published>)
    ensures Keyed(published, ByPublished).Keys == Keyed(files, ByFile).Keys
       <==> && (forall f | f in files :: exists x | x in published :: x.file_id == f.file_id)
            && (forall x | x in published :: exists f | f in files :: f.file_id == x.file_id)
  {
    KeysWithin(published, ByPublished, files, ByFile);
    KeysWithin(files, ByFile, published, ByPublished);
    hide Keyed;
  }

  lemma GenerationExactly(x: Published, f: FileEntry, s: Source)
    ensures FreshlyIndexed(x, f.etag, s.retired) <==> IsNewGeneration(x, f, s)
  {
    ChunksDiffer(x.chunks);
  }

  lemma PublishedExactly(p: Pair, s: Source, r: Reconciliation, nc: Nextcloud)
    requires !Repeats(r.files, ByFile)
    ensures ManifestPublished(p, s, r, Reopening.Withdrawn(nc)) <==> IsPublished(p, s, r.files, nc)
  {
    SameKeys();
    KeyedSize(s.published, ByPublished);
    FilesMatch(r.files, s.published);
    WithdrawnFiles(p, r.files, nc);
    if !Repeats(s.published, ByPublished) {
      if Keyed(s.published, ByPublished).Keys == Keyed(r.files, ByFile).Keys {
        EachIsNew(s, r.files);
      }
    }
    hide Keyed, Repeats, Reopening.Withdrawn, HeldWithdrawn, IsNewGeneration, FreshlyIndexed;
  }

  lemma WithdrawnFiles(p: Pair, files: seq<FileEntry>, nc: Nextcloud)
    ensures (forall f | f in Keyed(files, ByFile) :: (p.binding_id, f) !in Reopening.Withdrawn(nc))
       <==> forall f | f in files :: !HeldWithdrawn(nc, p.binding_id, f.file_id)
  {
    forall k ensures k in Keyed(files, ByFile) <==> exists f | f in files :: f.file_id == k {
      KeyedIsLast(files, ByFile, k);
    }
    assert forall b, f :: (b, f) in Reopening.Withdrawn(nc) <==> HeldWithdrawn(nc, b, f);
    hide Keyed, Reopening.Withdrawn, HeldWithdrawn;
    if forall f | f in Keyed(files, ByFile) :: (p.binding_id, f) !in Reopening.Withdrawn(nc) {
      forall f | f in files ensures !HeldWithdrawn(nc, p.binding_id, f.file_id) {
        assert f.file_id in Keyed(files, ByFile);
      }
    }
  }

  lemma EachIsNew(s: Source, files: seq<FileEntry>)
    requires !Repeats(s.published, ByPublished) && !Repeats(files, ByFile)
    requires Keyed(s.published, ByPublished).Keys == Keyed(files, ByFile).Keys
    ensures var m, entries := Keyed(s.published, ByPublished), Keyed(files, ByFile);
            (forall k | k in m :: k in entries && FreshlyIndexed(m[k], entries[k].etag, s.retired))
            <==> forall x | x in s.published ::
                   exists f | f in files :: f.file_id == x.file_id && IsNewGeneration(x, f, s)
  {
    var m, entries := Keyed(s.published, ByPublished), Keyed(files, ByFile);
    forall x | x in s.published ensures ByPublished(x) in m && m[x.file_id] == x {
      KeyedFinds(s.published, ByPublished, x);
    }
    forall f | f in files ensures ByFile(f) in entries && entries[f.file_id] == f {
      KeyedFinds(files, ByFile, f);
    }
    forall k | k in m ensures k in entries && m[k] in s.published && m[k].file_id == k && entries[k] in files
                              && entries[k].file_id == k
                              && (FreshlyIndexed(m[k], entries[k].etag, s.retired)
                                  <==> IsNewGeneration(m[k], entries[k], s)) {
      KeyedIsLast(s.published, ByPublished, k);
      KeyedIsLast(files, ByFile, k);
      GenerationExactly(m[k], entries[k], s);
    }
    hide Keyed, Repeats, IsNewGeneration, FreshlyIndexed;
  }

  lemma AgreesExactly(p: Pair, q: RemotePair)
    ensures Agrees(p, q) <==> q.operation_id == p.operation_id && SamePair(p, q)
  {
    hide Str;
  }

  lemma ClosedExactly(s: Source)
    ensures SourceClosed(s) <==> IsClosed(s)
  {
  }

  /** What is checked of the entries that the dictionaries hold. */
  predicate Checked(p: Pair, q: RemotePair, s: Source, b: BindingState, nc: Nextcloud, digest: string, phase: Phase) {
    && s.pair == p && SamePair(p, q)
    && if phase.Closed? then SourceClosed(s) else SourceReady(p, s, b, digest, Reopening.Withdrawn(nc))
  }

  lemma CheckedExactly(p: Pair, q: RemotePair, s: Source, b: BindingState, nc: Nextcloud, digest: string, phase: Phase)
    requires q.operation_id == p.operation_id
    ensures Checked(p, q, s, b, nc, digest, phase)
       <==> && Agrees(p, q) && s.pair == p && (phase == Phase.Closed ==> IsClosed(s))
            && (phase == Sources ==> IsReconciled(p, s, b, digest, nc))
  {
    AgreesExactly(p, q);
    ClosedExactly(s);
    ReconciledExactly(p, s, b, digest, nc);
    hide Agrees, SamePair, SourceClosed, SourceReady, IsClosed, IsReconciled;
  }

  /** One original source, once both sides list exactly the original ones. */
  lemma SourceExactly(p: Pair, nc: Nextcloud, wk: WeKnora, digest: string, phase: Phase)
    requires !Repeats(nc.pairs, ByOperation) && !Repeats(wk.sources, BySource)
    ensures PairVerified(p, nc, wk, digest, phase) <==> IsVerified(p, nc, wk, digest, phase)
  {
    SameKeys();
    hide Keyed, Repeats, SamePair, SourceReady, SourceClosed, IsReconciled, IsClosed, Agrees, IsLast;
    if PairVerified(p, nc, wk, digest, phase) {
      VerifiedIsFound(p, nc, wk, digest, phase);
    }
    if IsVerified(p, nc, wk, digest, phase) {
      FoundIsVerified(p, nc, wk, digest, phase);
    }
  }

  lemma VerifiedIsFound(p: Pair, nc: Nextcloud, wk: WeKnora, digest: string, phase: Phase)
    requires PairVerified(p, nc, wk, digest, phase)
    ensures IsVerified(p, nc, wk, digest, phase)
  {
    SameKeys();
    hide Keyed, SamePair, SourceReady, SourceClosed, IsReconciled, IsClosed, Agrees, IsLast;
    KeyedIsLast(nc.pairs, ByOperation, p.operation_id);
    KeyedIsLast(wk.sources, BySource, p.operation_id);
    KeyedIsLast(nc.bindings, ByBinding, p.binding_id);
    var q, s := Keyed(nc.pairs, ByOperation)[p.operation_id], Keyed(wk.sources, BySource)[p.operation_id];
    var b := Keyed(nc.bindings, ByBinding)[p.binding_id];
    LastIsIn(nc.pairs, ByOperation, p.operation_id, q);
    LastIsIn(wk.sources, BySource, p.operation_id, s);
    CheckedExactly(p, q, s, b, nc, digest, phase);
  }

  lemma LastIsIn<V>(items: seq<V>, key: V -> string, k: string, v: V)
    requires IsLast(items, key, k, v)
    ensures v in items && key(v) == k
  {
  }

  lemma FoundIsVerified(p: Pair, nc: Nextcloud, wk: WeKnora, digest: string, phase: Phase)
    requires !Repeats(nc.pairs, ByOperation) && !Repeats(wk.sources, BySource)
    requires IsVerified(p, nc, wk, digest, phase)
    ensures PairVerified(p, nc, wk, digest, phase)
  {
    SameKeys();
    hide Keyed, Repeats, SamePair, SourceReady, SourceClosed, IsReconciled, IsClosed, IsLast;
    var q, s, b :|
      && q in nc.pairs && s in wk.sources && IsLast(nc.bindings, ByBinding, p.binding_id, b)
      && Agrees(p, q) && s.pair == p
      && (phase == Phase.Closed ==> IsClosed(s)) && (phase == Sources ==> IsReconciled(p, s, b, digest, nc));
    KeyedFinds(nc.pairs, ByOperation, q);
    KeyedFinds(wk.sources, BySource, s);
    LastIsOne(nc.bindings, ByBinding, p.binding_id, b);
    CheckedExactly(p, q, s, b, nc, digest, phase);
  }

  lemma LastIsOne<V>(items: seq<V>, key: V -> string, k: string, v: V)
    requires IsLast(items, key, k, v)
    ensures k in Keyed(items, key) && Keyed(items, key)[k] == v
  {
    KeyedIsLast(items, key, k);
    hide Keyed;
    var i :| 0 <= i < |items| && items[i] == v && key(v) == k && forall j | i < j < |items| :: key(items[j]) != k;
    assert v in items;
    var w := Keyed(items, key)[k];
    var j :| 0 <= j < |items| && items[j] == w && key(w) == k && forall l | j < l < |items| :: key(items[l]) != k;
  }

  lemma BoundaryExactly(m: Reopening.Manifest, plan: Plan, digest: string, nc: Nextcloud, wk: WeKnora)
    ensures BoundaryOk(m, plan, digest, nc, wk)
       <==> && m.status == "COMPLETE" && m.all_stopped && m.inventory.Some? && m.inventory.value.schema_version == 1
            && var b := m.inventory.value;
            && (b.anchor.instance_id, b.anchor.stream_id) == (m.anchor.instance_id, m.anchor.stream_id)
            && (b.anchor.record_sha256, b.anchor.sequence) == (m.anchor.record_sha256, m.anchor.sequence)
            && b.anchor.database_chain == m.anchor.database_chain
            && b.replay_valid_lower_bound == plan.checkpoint_sequence && b.pair_count == |b.pairs|
            && nc.schema_version == 1 && wk.schema_version == 1
            && nc.instance_id == plan.instance_id && !nc.reopen_permitted
            && !ReceiptsFaulty(plan, nc.receipt, wk.receipt)
            && !PlanReceiptsFaulty(plan, digest, nc.receipt, wk.receipt)
            && wk.receipt.instance_id == plan.instance_id && wk.receipt.inventory_sha256 == b.inventory_sha256
            && wk.receipt.pair_count == |b.pairs|
  {
  }

  /** The live state is accepted if and only if none of these faults is found. */
  lemma CurrentExactly(m: Reopening.Manifest, plan: Plan, digest: string, nc: Nextcloud, wk: WeKnora, phase: Phase)
    ensures CurrentOk(m, plan, digest, nc, wk, phase) <==> CurrentRefused(m, plan, digest, nc, wk, phase).Current?
  {
    hide BoundaryOk, ScopesOk, PairVerified, IsVerified, ScopesChanged, WithdrawalsChanged, ReceiptsFaulty;
    hide PlanReceiptsFaulty;
    BoundaryExactly(m, plan, digest, nc, wk);
    if BoundaryOk(m, plan, digest, nc, wk) {
      var pairs := m.inventory.value.pairs;
      ScopesExactly(pairs, plan, nc, wk, phase);
      if ScopesOk(pairs, plan, nc, wk, phase) {
        ChangedExactly(pairs, nc, wk);
        forall p | p in pairs ensures PairVerified(p, nc, wk, digest, phase) <==> IsVerified(p, nc, wk, digest, phase) {
          SourceExactly(p, nc, wk, digest, phase);
        }
      }
    }
  }
}
