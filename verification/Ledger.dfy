/** Recovery pages: their data, the database hash chain, and what makes one page acceptable. */
module Ledger {
  import opened Wrappers
  import opened Text
  import opened Sequences

  const CLOCK_SKEW_SECONDS: nat := 300
  const FULL_PAGE: nat := 200
  const MAX_PAGE: nat := 512 * 1024
  const MAX_TARGET_CLOSURES: nat := 10000
  const MAX_TENANT_DELETIONS: nat := 10000

  /** The event kinds of the protocol; any other name is `Unknown`. */
  datatype Kind =
    | Upsert | Metadata | Delete | SubtreeScan | SubtreeMoved | SubtreeDeleted | Reconcile | Withdrawn | Eligible
    | BindingStop | BindingResume | BindingRetired | BindingCreated | ContentWriteBegin | ContentWriteComplete
    | TargetDeleted | TenantDeleted | Unknown(name: string)

  function KindName(k: Kind): string {
    match k
    case Upsert => "upsert"
    case Metadata => "metadata"
    case Delete => "delete"
    case SubtreeScan => "subtree_scan"
    case SubtreeMoved => "subtree_moved"
    case SubtreeDeleted => "subtree_deleted"
    case Reconcile => "reconcile"
    case Withdrawn => "withdrawn"
    case Eligible => "eligible"
    case BindingStop => "binding_stop"
    case BindingResume => "binding_resume"
    case BindingRetired => "binding_retired"
    case BindingCreated => "binding_created"
    case ContentWriteBegin => "content_write_begin"
    case ContentWriteComplete => "content_write_complete"
    case TargetDeleted => "target_deleted"
    case TenantDeleted => "tenant_deleted"
    case Unknown(name) => name
  }

  datatype Target = Target(
    schema: string, state: string, reason: string, operation_id: string, instance_id: string, binding_id: string,
    tenant_id: string, knowledge_base_id: string, operation_revision: string, closure_id: string,
    deletion_time_ms: string, closed_at: string)

  datatype TargetFact = TargetFact(target: Target, root_file_id: string, root_key: string)

  datatype Tenant = Tenant(
    schema: string, state: string, operation_id: string, instance_id: string, binding_id: string, tenant_id: string,
    deletion_id: string, deletion_time_ms: string, closed_at: string)

  datatype TenantFact = TenantFact(tenant: Tenant, origin_sha256: string)

  /** A journal event. The two closure fields are present for their own kind only. */
  datatype Item = Item(
    sequence: string, binding_id: string, file_id: Option<string>, kind: Kind, source_revision: string,
    created_at: int, target_closure: Option<TargetFact>, tenant_deletion: Option<TenantFact>)

  datatype Page = Page(
    schema_version: int, instance_id: string, stream_id: string, after_sequence: string, next_sequence: string,
    head_sequence: string, after_chain: string, next_chain: string, head_chain: string, items: seq<Item>,
    has_more: bool)

  datatype Body = Body(previous_sha256: string, page: Page)

  datatype Signed = Signed(body: Body, sha256: string, hmac: string)

  datatype Revision = Revision(binding_id: string, file_id: string, revision: string, writing: bool)

  datatype Plan = Plan(
    schema_version: int, instance_id: string, stream_id: string, checkpoint_record: string, recovery_record: string,
    checkpoint_sequence: string, checkpoint_chain: string, through_sequence: string, through_chain: string,
    close_bindings: map<string, string>, withdraw_files: map<(string, string), string>, journal_events: seq<Item>,
    prefix_hashes: map<string, string>, content: map<(string, string), Revision>,
    targets: map<string, TargetFact>, tenants: map<(string, nat), TenantFact>,
    reconciliation_required: bool, reopen_permitted: bool)

  /** The JSON values that the tools write, sign or hash. */
  datatype Json =
    | BodyJson(body: Body)
    | UnsignedJson(unsigned: Body, digest: string)
    | SignedJson(signed: Signed)
    | PlanJson(plan: Plan)
    | EnvelopeJson(payload: string, mac: string)

  /** SHA-256, HMAC-SHA-256, the JSON codec and the digest linking one event to the chain before it. */
  datatype Env = Env(
    sha: string -> string,
    link: (string, Item) -> string,
    mac: (string, string) -> string,
    canonical: Json -> string,
    parse: string -> Option<Json>)

  /** The codec is a round trip on one line of text, a digest is 64 hexadecimal characters, and a link is the digest
      of the event's newline-joined fields. */
  ghost predicate Codec(env: Env) {
    && (forall j :: env.parse(env.canonical(j)) == Some(j))
    && (forall j :: env.parse(env.canonical(j) + "\n") == Some(j))
    && (forall j :: Plain(env.canonical(j)))
    && (forall x :: Hex64(env.sha(x)))
    && (forall previous, item :: env.link(previous, item) == env.sha(Preimage(previous, item)))
  }

  /** No two of the listed texts share a digest, and none has the all-zero digest. */
  ghost predicate CollisionFree(env: Env, texts: set<string>) {
    && (forall x, y | x in texts && y in texts && env.sha(x) == env.sha(y) :: x == y)
    && (forall x | x in texts :: env.sha(x) != ZERO)
  }

  // ----- permanent closure facts

  predicate Positive(s: string) {
    IsInteger(s) && Num(s) > 0
  }

  predicate ClosureTimeOk(now: int, deletedMs: string, closedAt: string) {
    Num(deletedMs) / 1000 <= Num(closedAt) <= now + CLOCK_SKEW_SECONDS
  }

  function TargetReceipt(t: Target): string {
    Join(["weknora-target-deleted-v1", t.operation_id, t.tenant_id, t.knowledge_base_id, t.instance_id, t.binding_id,
          t.operation_revision, t.reason, t.deletion_time_ms])
  }

  predicate TargetOk(env: Env, now: int, t: Target) {
    && t.schema == "weknora-nextcloud-target-v1" && t.state == "target_deleted"
    && (t.reason == "knowledge_base_deleted" || t.reason == "tenant_deleted")
    && Uuid(t.operation_id)
    && Identifier(t.instance_id, 64) && Identifier(t.binding_id, 128) && KnowledgeBaseId(t.knowledge_base_id)
    && Positive(t.tenant_id) && Positive(t.operation_revision) && Positive(t.deletion_time_ms) && Positive(t.closed_at)
    && ClosureTimeOk(now, t.deletion_time_ms, t.closed_at)
    && env.sha(TargetReceipt(t)) == t.closure_id
  }

  predicate TargetClosureOk(env: Env, now: int, fact: TargetFact) {
    && TargetOk(env, now, fact.target)
    && Positive(fact.root_file_id)
    && fact.root_key == env.sha("nextcloud-filecache-root-v1\0" + Decimal(Num(fact.root_file_id)))
  }

  function TenantReceipt(t: Tenant): string {
    Join(["weknora-tenant-deleted-v1", t.tenant_id, t.deletion_time_ms])
  }

  predicate TenantOk(env: Env, now: int, t: Tenant) {
    && t.schema == "weknora-nextcloud-tenant-deletion-v1" && t.state == "tenant_deleted"
    && Uuid(t.operation_id) && Identifier(t.instance_id, 64) && Identifier(t.binding_id, 128)
    && Positive(t.tenant_id) && Positive(t.deletion_time_ms) && Positive(t.closed_at)
    && ClosureTimeOk(now, t.deletion_time_ms, t.closed_at)
    && t.deletion_id == env.sha(TenantReceipt(t))
  }

  predicate TenantDeletionOk(env: Env, now: int, fact: TenantFact) {
    Hex64(fact.origin_sha256) && TenantOk(env, now, fact.tenant)
  }

  // ----- the database hash chain

  function Str(n: int): string {
    if n < 0 then "-" + Decimal(-n) else Decimal(n)
  }

  function FileField(item: Item): string {
    if item.file_id == None || item.file_id == Some("") then "-" else item.file_id.value
  }

  function TargetFields(fact: TargetFact): seq<string> {
    var t := fact.target;
    [fact.root_file_id, fact.root_key, t.schema, t.state, t.reason, t.operation_id, t.instance_id, t.binding_id,
     t.tenant_id, t.knowledge_base_id, t.operation_revision, t.closure_id, t.deletion_time_ms, t.closed_at]
  }

  function TenantFields(fact: TenantFact): seq<string> {
    var t := fact.tenant;
    [fact.origin_sha256, t.schema, t.state, t.operation_id, t.instance_id, t.binding_id, t.tenant_id, t.deletion_id,
     t.deletion_time_ms, t.closed_at]
  }

  /** The fields hashed for one event, in order. */
  function EventFields(previous: string, item: Item): (fields: seq<string>)
    ensures |fields| >= 7
  {
    [previous, item.sequence, item.binding_id, FileField(item), KindName(item.kind), item.source_revision,
        Str(item.created_at)]
    + (if item.kind.TargetDeleted? && item.target_closure.Some? then TargetFields(item.target_closure.value)
       else if item.kind.TenantDeleted? && item.tenant_deletion.Some? then TenantFields(item.tenant_deletion.value)
       else [])
  }

  function Preimage(previous: string, item: Item): string {
    Join(EventFields(previous, item))
  }

  predicate TargetScopeOk(item: Item, t: Target) {
    && item.file_id.None? && t.binding_id == item.binding_id && t.operation_revision == item.source_revision
    && Num(t.closed_at) <= item.created_at + CLOCK_SKEW_SECONDS
  }

  predicate TenantScopeOk(item: Item, t: Tenant) {
    && item.file_id.None? && item.source_revision == "0" && item.binding_id == t.binding_id
    && Num(t.closed_at) <= item.created_at + CLOCK_SKEW_SECONDS
  }

  /** An event's closure fact agrees with the event that carries it. */
  predicate ScopeOk(env: Env, now: int, item: Item) {
    if item.kind.TargetDeleted? then
      && item.target_closure.Some? && item.tenant_deletion.None?
      && TargetClosureOk(env, now, item.target_closure.value)
      && TargetScopeOk(item, item.target_closure.value.target)
    else if item.kind.TenantDeleted? then
      && item.tenant_deletion.Some? && item.target_closure.None?
      && TenantDeletionOk(env, now, item.tenant_deletion.value)
      && TenantScopeOk(item, item.tenant_deletion.value.tenant)
    else
      item.target_closure.None? && item.tenant_deletion.None?
  }

  function EventHash(env: Env, now: int, previous: string, item: Item): Result<string> {
    if ScopeOk(env, now, item) then Ok(env.link(previous, item)) else Refused
  }

  /** The chain value after `items`, starting from `previous`. */
  ghost function Chain(env: Env, previous: string, items: seq<Item>): string
  {
    if items == [] then previous
    else env.link(Chain(env, previous, items[..|items| - 1]), items[|items| - 1])
  }

  lemma {:induction false} ChainConcat(env: Env, previous: string, a: seq<Item>, b: seq<Item>)
    ensures Chain(env, previous, a + b) == Chain(env, Chain(env, previous, a), b)
  {
    if b == [] {
      assert a + b == a;
    } else {
      var init, last := b[..|b| - 1], b[|b| - 1];
      ChainConcat(env, previous, a, init);
      assert (a + b)[..|a + b| - 1] == a + init;
    }
  }

  lemma ChainStep(env: Env, previous: string, items: seq<Item>, k: nat)
    requires k < |items|
    ensures Chain(env, previous, items[..k + 1]) == env.link(Chain(env, previous, items[..k]), items[k])
  {
    TakeTake(items, k, k + 1);
  }

  // ----- one page

  predicate ItemFieldsOk(item: Item, offset: nat) {
    && Integer(item.sequence) == Ok(offset)
    && Identifier(item.binding_id, 128)
    && (item.file_id.Some? ==> Positive(item.file_id.value))
    && !item.kind.Unknown?
    && IsInteger(item.source_revision)
    && 0 <= item.created_at <= MAX_INT
  }

  predicate ItemOk(env: Env, now: int, item: Item, offset: nat) {
    ItemFieldsOk(item, offset) && ScopeOk(env, now, item)
  }

  predicate HeaderOk(p: Page) {
    && p.schema_version == 1 && Identifier(p.instance_id, 64) && Uuid(p.stream_id)
    && IsInteger(p.after_sequence) && IsInteger(p.next_sequence) && IsInteger(p.head_sequence)
    && Num(p.after_sequence) <= Num(p.next_sequence) <= Num(p.head_sequence)
    && p.has_more == (Num(p.next_sequence) < Num(p.head_sequence))
    && |p.items| <= FULL_PAGE && |p.items| == Num(p.next_sequence) - Num(p.after_sequence)
    && Hex64(p.after_chain) && Hex64(p.next_chain) && Hex64(p.head_chain)
    && (Num(p.after_sequence) != 0 || p.after_chain == ZERO)
  }

  predicate FooterOk(p: Page) {
    && (p.next_sequence == p.head_sequence ==> p.next_chain == p.head_chain)
    && (p.next_sequence == p.head_sequence || |p.items| == FULL_PAGE)
  }

  /** Each item is acceptable at its own position, counting on from `after`. */
  ghost predicate ItemsOk(env: Env, now: int, items: seq<Item>, after: nat) {
    items == [] ||
    (ItemsOk(env, now, items[..|items| - 1], after) && ItemOk(env, now, items[|items| - 1], after + |items|))
  }

  ghost predicate PageOk(env: Env, now: int, p: Page) {
    && HeaderOk(p)
    && ItemsOk(env, now, p.items, Num(p.after_sequence))
    && Chain(env, p.after_chain, p.items) == p.next_chain
    && FooterOk(p)
  }

  /** One event of a page: its fields first, then its link of the chain. */
  function CheckItem(env: Env, now: int, prefix: string, item: Item, offset: nat): (r: Result<string>)
    ensures r.Ok? <==> ItemOk(env, now, item, offset)
    ensures r.Ok? ==> r.value == env.link(prefix, item)
  {
    if ItemFieldsOk(item, offset) then EventHash(env, now, prefix, item) else Refused
  }

  /** Check the events of a page, recomputing the database chain one event at a time. */
  method ValidateItems(env: Env, now: int, start: string, items: seq<Item>, after: nat) returns (r: Result<string>)
    ensures r.Ok? <==> ItemsOk(env, now, items, after)
    ensures r.Ok? ==> r.value == Chain(env, start, items)
  {
    var prefix := start;
    var k := 0;
    TakeAll(items);
    while k < |items|
      invariant 0 <= k <= |items|
      invariant ItemsOk(env, now, items[..k], after)
      invariant prefix == Chain(env, start, items[..k])
    {
      var next := CheckItem(env, now, prefix, items[k], after + 1 + k);
      ItemsStep(env, now, items, k, after);
      if next.Refused? {
        ItemsPrefix(env, now, items, k + 1, after);
        return Refused;
      }
      prefix := next.value;
      ChainStep(env, start, items, k);
      k := k + 1;
    }
    r := Ok(prefix);
  }

  /** The numbers of an accepted page fit together; a page that reaches its head ends with the announced chain. */
  lemma PageShape(env: Env, now: int, p: Page)
    requires PageOk(env, now, p)
    ensures IsInteger(p.after_sequence) && IsInteger(p.next_sequence) && IsInteger(p.head_sequence)
    ensures Num(p.after_sequence) + |p.items| == Num(p.next_sequence) <= Num(p.head_sequence)
    ensures Num(p.next_sequence) == Num(p.head_sequence) ==> p.next_sequence == p.head_sequence
                                                             && p.next_chain == p.head_chain
    ensures Chain(env, p.after_chain, p.items) == p.next_chain
    ensures p.items == [] ==> p.next_sequence == p.head_sequence
    ensures p.has_more <==> Num(p.next_sequence) < Num(p.head_sequence)
  {
    if Num(p.next_sequence) == Num(p.head_sequence) {
      NumInjective(p.next_sequence, p.head_sequence);
    }
  }

  /** Accept or refuse one page. */
  method ValidatePage(env: Env, now: int, p: Page) returns (ok: bool)
    ensures ok <==> PageOk(env, now, p)
  {
    if !HeaderOk(p) {
      return false;
    }
    var chain := ValidateItems(env, now, p.after_chain, p.items, Num(p.after_sequence));
    ok := chain.Ok? && chain.value == p.next_chain && FooterOk(p);
  }

  lemma ItemsStep(env: Env, now: int, items: seq<Item>, k: nat, after: nat)
    requires k < |items|
    ensures ItemsOk(env, now, items[..k + 1], after)
       <==> ItemsOk(env, now, items[..k], after) && ItemOk(env, now, items[k], after + 1 + k)
  {
    hide ItemOk;
    TakeTake(items, k, k + 1);
  }

  lemma {:induction false} ItemsPrefix(env: Env, now: int, items: seq<Item>, k: nat, after: nat)
    requires k <= |items|
    ensures ItemsOk(env, now, items, after) ==> ItemsOk(env, now, items[..k], after)
  {
    if k == |items| {
      assert items[..k] == items;
    } else {
      var init := items[..|items| - 1];
      ItemsPrefix(env, now, init, k, after);
      assert init[..k] == items[..k];
    }
  }

  lemma {:induction false} ItemAt(env: Env, now: int, items: seq<Item>, after: nat, k: nat)
    requires ItemsOk(env, now, items, after) && k < |items|
    ensures ItemOk(env, now, items[k], after + 1 + k)
  {
    if k < |items| - 1 {
      ItemAt(env, now, items[..|items| - 1], after, k);
    }
  }

  /** The events of a checked page always hash, and extend the chain by one link. */
  method NextLink(env: Env, now: int, previous: string, items: seq<Item>, ghost after: nat, k: nat, chain: string)
    returns (next: string)
    requires ItemsOk(env, now, items, after) && k < |items|
    requires chain == Chain(env, previous, items[..k])
    ensures next == Chain(env, previous, items[..k + 1])
  {
    ItemAt(env, now, items, after, k);
    ChainStep(env, previous, items, k);
    next := EventHash(env, now, chain, items[k]).value;
  }

  /** A page accepted once stays acceptable: the clock only bounds closure times from above. */
  lemma PageStaysValid(env: Env, now: int, later: int, p: Page)
    requires PageOk(env, now, p) && now <= later
    ensures PageOk(env, later, p)
  {
    ItemsStayValid(env, now, later, p.items, Num(p.after_sequence));
  }

  lemma {:induction false} ItemsStayValid(env: Env, now: int, later: int, items: seq<Item>, after: nat)
    requires ItemsOk(env, now, items, after) && now <= later
    ensures ItemsOk(env, later, items, after)
  {
    if items != [] {
      ItemsStayValid(env, now, later, items[..|items| - 1], after);
    }
  }
}
