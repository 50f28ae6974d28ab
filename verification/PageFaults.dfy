/** Why a page is refused: the checks once more in their order, on the fields themselves, each with its own fault. */
module PageFaults {
  import opened Wrappers
  import opened Text
  import opened Formats
  import opened Ledger

  datatype Fault =
    | NoFault | InvalidPage | InvalidInstance | InvalidStream | InvalidNumber | InconsistentHead | MissingSequence
    | InvalidChain | InvalidInitialPrefix | Noncontiguous | InvalidBinding | InvalidFile | UnknownKind
    | InvalidRevision | InvalidTime | UnexpectedClosure | ClosureState | ClosureOperation | ClosureScope
    | ClosureKnowledgeBase | ClosureNumber | ClosureTime | ReceiptMismatch | RootNumber | RootMismatch | ScopeMismatch
    | Postdates | InvalidOrigin | ChainMismatch | TerminalMismatch | Truncated

  /** The number that a text writes; 0 for any other text. */
  ghost function Number(s: string): nat {
    if IsNumber(s) then (var n: nat :| Writes(s, n); n) else 0
  }

  lemma NumberIsNum(s: string)
    ensures IsInteger(s) <==> IsNumber(s)
    ensures Number(s) == Num(s)
    ensures Positive(s) <==> Number(s) > 0
  {
    NumberExactly(s);
  }

  // ----- closure facts

  /** The closure itself. */
  ghost function TargetFormFault(now: int, t: Target): Fault {
    if t.schema != "weknora-nextcloud-target-v1" || t.state != "target_deleted" then ClosureState
    else if t.reason != "knowledge_base_deleted" && t.reason != "tenant_deleted" then ClosureState
    else if !Shaped(t.operation_id, UUID) then ClosureOperation
    else if !Drawn(t.instance_id, LETTERS + "_-", 1, 64) then ClosureScope
    else if !Drawn(t.binding_id, LETTERS + "_-", 1, 128) then ClosureScope
    else if !Drawn(t.knowledge_base_id, LETTERS + "._-", 1, 128) then ClosureKnowledgeBase
    else if Number(t.tenant_id) == 0 || Number(t.operation_revision) == 0 then ClosureNumber
    else if Number(t.deletion_time_ms) == 0 || Number(t.closed_at) == 0 then ClosureNumber
    else if Number(t.deletion_time_ms) > 1000 * Number(t.closed_at) + 999 then ClosureTime
    else if Number(t.closed_at) > now + 300 then ClosureTime
    else NoFault
  }

  /** What it is bound to: its receipt, its root, and the event that carries it. */
  ghost function TargetLinkFault(env: Env, item: Item, fact: TargetFact): Fault {
    var t := fact.target;
    if t.closure_id != env.sha(Row("weknora-target-deleted-v1", Row(t.operation_id, Row(t.tenant_id,
         Row(t.knowledge_base_id, Row(t.instance_id, Row(t.binding_id, Row(t.operation_revision, Row(t.reason,
         t.deletion_time_ms))))))))) then ReceiptMismatch
    else if Number(fact.root_file_id) == 0 then RootNumber
    else if fact.root_key != env.sha("nextcloud-filecache-root-v1\0" + fact.root_file_id) then RootMismatch
    else if item.file_id.Some? || t.binding_id != item.binding_id then ScopeMismatch
    else if t.operation_revision != item.source_revision then ScopeMismatch
    else if Number(t.closed_at) > item.created_at + 300 then Postdates
    else NoFault
  }

  ghost function TargetFault(env: Env, now: int, item: Item, fact: TargetFact): Fault {
    var form := TargetFormFault(now, fact.target);
    if form.NoFault? then TargetLinkFault(env, item, fact) else form
  }

  ghost function TenantFault(env: Env, now: int, item: Item, fact: TenantFact): Fault {
    var t := fact.tenant;
    if !Drawn(fact.origin_sha256, HEX, 64, 64) then InvalidOrigin
    else if t.schema != "weknora-nextcloud-tenant-deletion-v1" || t.state != "tenant_deleted" then ClosureState
    else if !Shaped(t.operation_id, UUID) then ClosureScope
    else if !Drawn(t.instance_id, LETTERS + "_-", 1, 64) then ClosureScope
    else if !Drawn(t.binding_id, LETTERS + "_-", 1, 128) then ClosureScope
    else if Number(t.tenant_id) == 0 || Number(t.deletion_time_ms) == 0 || Number(t.closed_at) == 0 then ClosureNumber
    else if Number(t.deletion_time_ms) > 1000 * Number(t.closed_at) + 999 then ClosureTime
    else if Number(t.closed_at) > now + 300 then ClosureTime
    else if t.deletion_id != env.sha(Row("weknora-tenant-deleted-v1", Row(t.tenant_id, t.deletion_time_ms)))
      then ReceiptMismatch
    else if item.file_id.Some? || item.source_revision != "0" || t.binding_id != item.binding_id then ScopeMismatch
    else if Number(t.closed_at) > item.created_at + 300 then Postdates
    else NoFault
  }

  lemma ClosureTimeExactly(now: int, deletedMs: string, closedAt: string)
    ensures ClosureTimeOk(now, deletedMs, closedAt)
       <==> Number(deletedMs) <= 1000 * Number(closedAt) + 999 && Number(closedAt) <= now + 300
  {
    NumberIsNum(deletedMs);
    NumberIsNum(closedAt);
  }

  lemma TargetFormExactly(env: Env, now: int, t: Target)
    ensures TargetOk(env, now, t) <==> TargetFormFault(now, t).NoFault? && env.sha(TargetReceipt(t)) == t.closure_id
  {
    ClosureTimeExactly(now, t.deletion_time_ms, t.closed_at);
    UuidExactly(t.operation_id);
    IdentifierExactly(t.instance_id, 64);
    IdentifierExactly(t.binding_id, 128);
    KnowledgeBaseExactly(t.knowledge_base_id);
    NumberIsNum(t.tenant_id);
    NumberIsNum(t.operation_revision);
    NumberIsNum(t.deletion_time_ms);
    NumberIsNum(t.closed_at);
    hide Uuid, Identifier, KnowledgeBaseId, Drawn, Shaped, IsNumber, Number, ClosureTimeOk, Positive, TargetReceipt;
  }

  lemma TargetExactly(env: Env, now: int, item: Item, fact: TargetFact)
    ensures TargetClosureOk(env, now, fact) && TargetScopeOk(item, fact.target)
       <==> TargetFault(env, now, item, fact).NoFault?
  {
    var t := fact.target;
    hide TargetOk, TargetFormFault, Number, Join, Row;
    TargetFormExactly(env, now, t);
    NumberIsNum(fact.root_file_id);
    NumberIsNum(t.closed_at);
    if IsInteger(fact.root_file_id) {
      DecimalRoundTrip(fact.root_file_id);
    }
    JoinNine("weknora-target-deleted-v1", t.operation_id, t.tenant_id, t.knowledge_base_id, t.instance_id, t.binding_id,
             t.operation_revision, t.reason, t.deletion_time_ms);
  }

  lemma TenantExactly(env: Env, now: int, item: Item, fact: TenantFact)
    ensures TenantDeletionOk(env, now, fact) && TenantScopeOk(item, fact.tenant)
       <==> TenantFault(env, now, item, fact).NoFault?
  {
    var t := fact.tenant;
    ClosureTimeExactly(now, t.deletion_time_ms, t.closed_at);
    DigestExactly(fact.origin_sha256);
    UuidExactly(t.operation_id);
    IdentifierExactly(t.instance_id, 64);
    IdentifierExactly(t.binding_id, 128);
    NumberIsNum(t.tenant_id);
    NumberIsNum(t.deletion_time_ms);
    NumberIsNum(t.closed_at);
    JoinThree("weknora-tenant-deleted-v1", t.tenant_id, t.deletion_time_ms);
    hide Uuid, Identifier, Hex64, Drawn, Shaped, IsNumber, Number, ClosureTimeOk, Positive, Join, Row;
  }

  // ----- events

  /** Event number `n`. */
  ghost function ItemFault(env: Env, now: int, item: Item, n: nat): Fault {
    if !Writes(item.sequence, n) then Noncontiguous
    else if !Drawn(item.binding_id, LETTERS + "_-", 1, 128) then InvalidBinding
    else if item.file_id.Some? && Number(item.file_id.value) == 0 then InvalidFile
    else if item.kind.Unknown? then UnknownKind
    else if !IsNumber(item.source_revision) then InvalidRevision
    else if item.created_at < 0 || item.created_at > 9223372036854775807 then InvalidTime
    else if item.kind.TargetDeleted? then
      if item.target_closure.None? || item.tenant_deletion.Some? then UnexpectedClosure
      else TargetFault(env, now, item, item.target_closure.value)
    else if item.kind.TenantDeleted? then
      if item.tenant_deletion.None? || item.target_closure.Some? then UnexpectedClosure
      else TenantFault(env, now, item, item.tenant_deletion.value)
    else if item.target_closure.Some? || item.tenant_deletion.Some? then UnexpectedClosure
    else NoFault
  }

  lemma ItemExactly(env: Env, now: int, item: Item, n: nat)
    ensures ItemOk(env, now, item, n) <==> ItemFault(env, now, item, n).NoFault?
  {
    NumberExactly(item.sequence);
    IdentifierExactly(item.binding_id, 128);
    NumberIsNum(item.source_revision);
    if item.file_id.Some? {
      NumberIsNum(item.file_id.value);
    }
    if IsInteger(item.sequence) {
      DecimalRoundTrip(item.sequence);
    }
    hide Identifier, Drawn, Number, Positive, TargetClosureOk, TenantDeletionOk, TargetFault, TenantFault;
    hide TargetScopeOk, TenantScopeOk;
    if item.target_closure.Some? {
      TargetExactly(env, now, item, item.target_closure.value);
    }
    if item.tenant_deletion.Some? {
      TenantExactly(env, now, item, item.tenant_deletion.value);
    }
  }

  ghost function ItemsFault(env: Env, now: int, items: seq<Item>, after: nat): Fault {
    if items == [] then NoFault
    else
      var before := ItemsFault(env, now, items[..|items| - 1], after);
      if !before.NoFault? then before else ItemFault(env, now, items[|items| - 1], after + |items|)
  }

  lemma {:induction false} ItemsExactly(env: Env, now: int, items: seq<Item>, after: nat)
    ensures ItemsOk(env, now, items, after) <==> ItemsFault(env, now, items, after).NoFault?
  {
    hide ItemOk, ItemFault;
    if items != [] {
      ItemsExactly(env, now, items[..|items| - 1], after);
      ItemExactly(env, now, items[|items| - 1], after + |items|);
    }
  }

  // ----- the database chain

  /** The text that is hashed for an event, field by field: the closure's fields come last. */
  function EventText(previous: string, item: Item): string {
    CommonText(previous, item, EndText(item))
  }

  function FileText(file: Option<string>): string {
    match file
    case None => "-"
    case Some(id) => if id == "" then "-" else id
  }

  function TimeText(n: int): string {
    if n >= 0 then Decimal(n) else "-" + Decimal(-n)
  }

  function EndText(item: Item): string {
    if item.kind.TargetDeleted? && item.target_closure.Some? then
      Row(TimeText(item.created_at), TargetText(item.target_closure.value))
    else if item.kind.TenantDeleted? && item.tenant_deletion.Some? then
      Row(TimeText(item.created_at), TenantText(item.tenant_deletion.value))
    else TimeText(item.created_at)
  }

  function TargetText(f: TargetFact): string {
    Row(f.root_file_id, Row(f.root_key, Row(f.target.schema, Row(f.target.state, Row(f.target.reason,
        Row(f.target.operation_id, Row(f.target.instance_id, Row(f.target.binding_id, Row(f.target.tenant_id,
        Row(f.target.knowledge_base_id, Row(f.target.operation_revision, Row(f.target.closure_id,
        Row(f.target.deletion_time_ms, f.target.closed_at)))))))))))))
  }

  function TenantText(f: TenantFact): string {
    Row(f.origin_sha256, Row(f.tenant.schema, Row(f.tenant.state, Row(f.tenant.operation_id,
        Row(f.tenant.instance_id, Row(f.tenant.binding_id, Row(f.tenant.tenant_id, Row(f.tenant.deletion_id,
        Row(f.tenant.deletion_time_ms, f.tenant.closed_at)))))))))
  }

  lemma TargetTextExactly(f: TargetFact)
    ensures Join(TargetFields(f)) == TargetText(f)
  {
    var t := f.target;
    var first := [f.root_file_id, f.root_key, t.schema, t.state, t.reason];
    var second := [t.operation_id, t.instance_id, t.binding_id, t.tenant_id, t.knowledge_base_id, t.operation_revision,
                   t.closure_id, t.deletion_time_ms, t.closed_at];
    assert TargetFields(f) == first + second;
    JoinConcat(first, second);
    JoinFive(f.root_file_id, f.root_key, t.schema, t.state, t.reason);
    JoinNine(t.operation_id, t.instance_id, t.binding_id, t.tenant_id, t.knowledge_base_id, t.operation_revision,
             t.closure_id, t.deletion_time_ms, t.closed_at);
  }

  lemma TenantTextExactly(f: TenantFact)
    ensures Join(TenantFields(f)) == TenantText(f)
  {
    var t := f.tenant;
    var first := [f.origin_sha256, t.schema, t.state, t.operation_id, t.instance_id];
    var second := [t.binding_id, t.tenant_id, t.deletion_id, t.deletion_time_ms, t.closed_at];
    assert TenantFields(f) == first + second;
    JoinConcat(first, second);
    JoinFive(f.origin_sha256, t.schema, t.state, t.operation_id, t.instance_id);
    JoinFive(t.binding_id, t.tenant_id, t.deletion_id, t.deletion_time_ms, t.closed_at);
  }

  /** The fields that every event has. */
  function Common(previous: string, item: Item): seq<string> {
    [previous, item.sequence, item.binding_id, FileText(item.file_id), KindName(item.kind), item.source_revision,
     TimeText(item.created_at)]
  }

  function CommonText(previous: string, item: Item, end: string): string {
    Row(previous, Row(item.sequence, Row(item.binding_id, Row(FileText(item.file_id),
        Row(KindName(item.kind), Row(item.source_revision, end))))))
  }

  lemma CommonExactly(previous: string, item: Item)
    ensures Join(Common(previous, item)) == CommonText(previous, item, TimeText(item.created_at))
  {
    JoinSeven(previous, item.sequence, item.binding_id, FileText(item.file_id), KindName(item.kind),
              item.source_revision, TimeText(item.created_at));
    hide Join, KindName, TimeText;
  }

  lemma CommonThen(previous: string, item: Item, rest: string)
    ensures CommonText(previous, item, TimeText(item.created_at)) + "\n" + rest
         == CommonText(previous, item, Row(TimeText(item.created_at), rest))
  {
    hide KindName, TimeText;
  }

  /** The hashed text is exactly this one. */
  lemma EventTextExactly(previous: string, item: Item)
    ensures Preimage(previous, item) == EventText(previous, item)
  {
    assert Str(item.created_at) == TimeText(item.created_at);
    hide Join, TargetText, TenantText, KindName, Str, TimeText, Row;
    CommonExactly(previous, item);
    assert FileField(item) == FileText(item.file_id);
    if item.kind.TargetDeleted? && item.target_closure.Some? {
      JoinConcat(Common(previous, item), TargetFields(item.target_closure.value));
      TargetTextExactly(item.target_closure.value);
      CommonThen(previous, item, TargetText(item.target_closure.value));
      assert EventFields(previous, item) == Common(previous, item) + TargetFields(item.target_closure.value);
    } else if item.kind.TenantDeleted? && item.tenant_deletion.Some? {
      JoinConcat(Common(previous, item), TenantFields(item.tenant_deletion.value));
      TenantTextExactly(item.tenant_deletion.value);
      CommonThen(previous, item, TenantText(item.tenant_deletion.value));
      assert EventFields(previous, item) == Common(previous, item) + TenantFields(item.tenant_deletion.value);
    } else {
      assert EventFields(previous, item) == Common(previous, item);
    }
  }

  /** The names of the kinds, as they are hashed and exported. */
  lemma KindNames()
    ensures KindName(Upsert) == "upsert" && KindName(Metadata) == "metadata" && KindName(Delete) == "delete"
    ensures KindName(SubtreeScan) == "subtree_scan" && KindName(SubtreeMoved) == "subtree_moved"
    ensures KindName(SubtreeDeleted) == "subtree_deleted" && KindName(Reconcile) == "reconcile"
    ensures KindName(Withdrawn) == "withdrawn" && KindName(Eligible) == "eligible"
    ensures KindName(BindingStop) == "binding_stop" && KindName(BindingResume) == "binding_resume"
    ensures KindName(BindingRetired) == "binding_retired" && KindName(BindingCreated) == "binding_created"
    ensures KindName(ContentWriteBegin) == "content_write_begin"
    ensures KindName(ContentWriteComplete) == "content_write_complete"
    ensures KindName(TargetDeleted) == "target_deleted" && KindName(TenantDeleted) == "tenant_deleted"
  {
  }

  /** The chain value after the events, each hashed with the value before it. */
  ghost function Folded(env: Env, previous: string, items: seq<Item>): string {
    if items == [] then previous
    else env.sha(EventText(Folded(env, previous, items[..|items| - 1]), items[|items| - 1]))
  }

  lemma {:induction false} FoldedExactly(env: Env, previous: string, items: seq<Item>)
    requires Codec(env)
    ensures Chain(env, previous, items) == Folded(env, previous, items)
  {
    hide EventText, Preimage;
    if items != [] {
      FoldedExactly(env, previous, items[..|items| - 1]);
      EventTextExactly(Folded(env, previous, items[..|items| - 1]), items[|items| - 1]);
    }
  }

  // ----- the page

  ghost function HeaderFault(p: Page): Fault {
    var after, next, head := Number(p.after_sequence), Number(p.next_sequence), Number(p.head_sequence);
    if p.schema_version != 1 then InvalidPage
    else if !Drawn(p.instance_id, LETTERS + "_-", 1, 64) then InvalidInstance
    else if !Shaped(p.stream_id, UUID) then InvalidStream
    else if !IsNumber(p.after_sequence) || !IsNumber(p.next_sequence) || !IsNumber(p.head_sequence) then InvalidNumber
    else if after > next || next > head then InconsistentHead
    else if p.has_more && next == head then InconsistentHead
    else if !p.has_more && next != head then InconsistentHead
    else if |p.items| > 200 || after + |p.items| != next then MissingSequence
    else if !Drawn(p.after_chain, HEX, 64, 64) || !Drawn(p.next_chain, HEX, 64, 64) then InvalidChain
    else if !Drawn(p.head_chain, HEX, 64, 64) then InvalidChain
    else if after == 0 && (exists i | 0 <= i < |p.after_chain| :: p.after_chain[i] != '0') then InvalidInitialPrefix
    else NoFault
  }

  /** Why the page is refused: the first check that it fails. */
  ghost function PageFault(env: Env, now: int, p: Page): Fault {
    var header := HeaderFault(p);
    if !header.NoFault? then header
    else
      var items := ItemsFault(env, now, p.items, Number(p.after_sequence));
      if !items.NoFault? then items
      else if p.next_chain != Folded(env, p.after_chain, p.items) then ChainMismatch
      else if p.next_sequence == p.head_sequence && p.next_chain != p.head_chain then TerminalMismatch
      else if p.next_sequence != p.head_sequence && |p.items| != 200 then Truncated
      else NoFault
  }

  lemma ZerosExactly(s: string)
    requires |s| == 64
    ensures s == ZERO <==> forall i | 0 <= i < |s| :: s[i] == '0'
  {
  }

  lemma HeaderExactly(p: Page)
    ensures HeaderOk(p) <==> HeaderFault(p).NoFault?
  {
    IdentifierExactly(p.instance_id, 64);
    UuidExactly(p.stream_id);
    NumberIsNum(p.after_sequence);
    NumberIsNum(p.next_sequence);
    NumberIsNum(p.head_sequence);
    DigestExactly(p.after_chain);
    DigestExactly(p.next_chain);
    DigestExactly(p.head_chain);
    if Hex64(p.after_chain) {
      ZerosExactly(p.after_chain);
    }
    hide Identifier, Uuid, Drawn, Shaped, IsNumber, Number;
  }

  /** A page is accepted if and only if it has no fault, and what the chain must be is the fold of the texts hashed. */
  lemma AcceptedExactly(env: Env, now: int, p: Page)
    requires Codec(env)
    ensures PageOk(env, now, p) <==> PageFault(env, now, p).NoFault?
  {
    HeaderExactly(p);
    NumberIsNum(p.after_sequence);
    ItemsExactly(env, now, p.items, Num(p.after_sequence));
    FoldedExactly(env, p.after_chain, p.items);
    hide HeaderOk, HeaderFault, ItemsOk, ItemsFault, Chain, Folded, Codec, Number;
  }
}
