/** How long a record can be: every line that is written fits the reader's limit. */
module Sizes {
  import opened Text
  import opened Ledger
  import opened Journal

  // ----- the size of a record as JSON

  /** A character that JSON writes as itself in ASCII; any other takes at most two escapes of six characters. */
  predicate Unescaped(c: char) {
    ' ' <= c <= '~' && c != '"' && c != '\\'
  }

  function Width(s: string): nat {
    if s == "" then 0 else Width(s[..|s| - 1]) + if Unescaped(s[|s| - 1]) then 1 else 12
  }

  /** Room for the keys, quotes and punctuation of one event, and of a record around its events. */
  const EVENT_ROOM: nat := 1000
  const RECORD_ROOM: nat := 2000

  function TargetSize(fact: TargetFact): nat {
    var t := fact.target;
    Width(fact.root_file_id) + Width(fact.root_key) + Width(t.schema) + Width(t.state) + Width(t.reason)
    + Width(t.operation_id) + Width(t.instance_id) + Width(t.binding_id) + Width(t.tenant_id)
    + Width(t.knowledge_base_id) + Width(t.operation_revision) + Width(t.closure_id) + Width(t.deletion_time_ms)
    + Width(t.closed_at)
  }

  function TenantSize(fact: TenantFact): nat {
    var t := fact.tenant;
    Width(fact.origin_sha256) + Width(t.schema) + Width(t.state) + Width(t.operation_id) + Width(t.instance_id)
    + Width(t.binding_id) + Width(t.tenant_id) + Width(t.deletion_id) + Width(t.deletion_time_ms) + Width(t.closed_at)
  }

  function ItemSize(item: Item): nat {
    EVENT_ROOM + Width(item.sequence) + Width(item.binding_id)
    + (if item.file_id.Some? then Width(item.file_id.value) else 0)
    + Width(KindName(item.kind)) + Width(item.source_revision) + Width(Str(item.created_at))
    + (if item.target_closure.Some? then TargetSize(item.target_closure.value) else 0)
    + (if item.tenant_deletion.Some? then TenantSize(item.tenant_deletion.value) else 0)
  }

  function ItemsSize(items: seq<Item>): nat {
    if items == [] then 0 else ItemsSize(items[..|items| - 1]) + ItemSize(items[|items| - 1])
  }

  function PageSize(p: Page): nat {
    Width(Str(p.schema_version)) + Width(p.instance_id) + Width(p.stream_id) + Width(p.after_sequence)
    + Width(p.next_sequence) + Width(p.head_sequence) + Width(p.after_chain) + Width(p.next_chain)
    + Width(p.head_chain) + ItemsSize(p.items)
  }

  function RecordSize(s: Signed): nat {
    RECORD_ROOM + Width(s.sha256) + Width(s.hmac) + Width(s.body.previous_sha256) + PageSize(s.body.page)
  }

  /** The codec writes no more than the texts, their escapes and the keys, and a signature is a digest. */
  ghost predicate Compact(env: Env) {
    && (forall s :: |env.canonical(SignedJson(s))| <= RecordSize(s))
    && (forall key, text :: Hex64(env.mac(key, text)))
  }

  // ----- the width of checked fields

  lemma {:induction false} UnescapedWidth(s: string)
    requires forall i | 0 <= i < |s| :: Unescaped(s[i])
    ensures Width(s) == |s|
  {
    if s != "" {
      UnescapedWidth(s[..|s| - 1]);
    }
  }

  lemma {:induction false} WidthAtMost(s: string)
    ensures Width(s) <= 12 * |s|
  {
    if s != "" {
      WidthAtMost(s[..|s| - 1]);
    }
  }

  lemma IntegerWidth(s: string)
    requires IsInteger(s)
    ensures Width(s) <= 19
  {
    UnescapedWidth(s);
  }

  lemma HexWidth(s: string)
    requires Hex64(s)
    ensures Width(s) == 64
  {
    UnescapedWidth(s);
  }

  lemma UuidWidth(s: string)
    requires Uuid(s)
    ensures Width(s) == 36
  {
    forall i | 0 <= i < |s| ensures Unescaped(s[i]) {
    }
    UnescapedWidth(s);
  }

  lemma IdentifierWidth(s: string, limit: nat)
    requires Identifier(s, limit)
    ensures Width(s) <= limit
  {
    UnescapedWidth(s);
  }

  lemma KnowledgeBaseWidth(s: string)
    requires KnowledgeBaseId(s)
    ensures Width(s) <= 128
  {
    UnescapedWidth(s);
  }

  lemma TimeWidth(n: int)
    requires 0 <= n <= MAX_INT
    ensures Width(Str(n)) <= 19
  {
    IntegerRoundTrip(n);
    IntegerWidth(Decimal(n));
  }

  lemma KindWidth(kind: Kind)
    requires !kind.Unknown?
    ensures Width(KindName(kind)) <= 264
  {
    WidthAtMost(KindName(kind));
  }

  // ----- the size of an accepted page

  lemma TargetAtMost(env: Env, now: int, fact: TargetFact)
    requires Codec(env) && TargetClosureOk(env, now, fact)
    ensures TargetSize(fact) <= 1500
  {
    hide Width, ClosureTimeOk;
    var t := fact.target;
    WidthAtMost(t.schema);
    WidthAtMost(t.state);
    WidthAtMost(t.reason);
    UuidWidth(t.operation_id);
    IdentifierWidth(t.instance_id, 64);
    IdentifierWidth(t.binding_id, 128);
    KnowledgeBaseWidth(t.knowledge_base_id);
    IntegerWidth(t.tenant_id);
    IntegerWidth(t.operation_revision);
    IntegerWidth(t.deletion_time_ms);
    IntegerWidth(t.closed_at);
    IntegerWidth(fact.root_file_id);
    HexWidth(t.closure_id);
    HexWidth(fact.root_key);
  }

  lemma TenantAtMost(env: Env, now: int, fact: TenantFact)
    requires Codec(env) && TenantDeletionOk(env, now, fact)
    ensures TenantSize(fact) <= 1500
  {
    hide Width, ClosureTimeOk;
    var t := fact.tenant;
    HexWidth(fact.origin_sha256);
    WidthAtMost(t.schema);
    WidthAtMost(t.state);
    UuidWidth(t.operation_id);
    IdentifierWidth(t.instance_id, 64);
    IdentifierWidth(t.binding_id, 128);
    IntegerWidth(t.tenant_id);
    IntegerWidth(t.deletion_time_ms);
    IntegerWidth(t.closed_at);
    HexWidth(t.deletion_id);
  }

  lemma ItemAtMost(env: Env, now: int, item: Item, offset: nat)
    requires Codec(env) && ItemOk(env, now, item, offset)
    ensures ItemSize(item) <= 3000
  {
    hide Width, Codec, TargetClosureOk, TenantDeletionOk, TargetScopeOk, TenantScopeOk;
    IntegerWidth(item.sequence);
    IdentifierWidth(item.binding_id, 128);
    KindWidth(item.kind);
    IntegerWidth(item.source_revision);
    TimeWidth(item.created_at);
    if item.file_id.Some? {
      IntegerWidth(item.file_id.value);
    }
    if item.target_closure.Some? {
      TargetAtMost(env, now, item.target_closure.value);
    }
    if item.tenant_deletion.Some? {
      TenantAtMost(env, now, item.tenant_deletion.value);
    }
  }

  lemma {:induction false} ItemsAtMost(env: Env, now: int, items: seq<Item>, after: nat)
    requires Codec(env) && ItemsOk(env, now, items, after)
    ensures ItemsSize(items) <= 3000 * |items|
  {
    hide Codec, ItemOk, ItemSize;
    if items != [] {
      ItemsAtMost(env, now, items[..|items| - 1], after);
      ItemAtMost(env, now, items[|items| - 1], after + |items|);
    }
  }

  /** An accepted page of two hundred events has room to spare. */
  lemma PageAtMost(env: Env, now: int, p: Page)
    requires Codec(env) && PageOk(env, now, p)
    ensures PageSize(p) <= 1000 + 3000 * FULL_PAGE
  {
    hide Codec, Width, ItemsOk, ItemsSize, FooterOk;
    TimeWidth(p.schema_version);
    IdentifierWidth(p.instance_id, 64);
    UuidWidth(p.stream_id);
    IntegerWidth(p.after_sequence);
    IntegerWidth(p.next_sequence);
    IntegerWidth(p.head_sequence);
    HexWidth(p.after_chain);
    HexWidth(p.next_chain);
    HexWidth(p.head_chain);
    ItemsAtMost(env, now, p.items, Num(p.after_sequence));
  }

  /** The line of a record that signs an accepted page is within the reader's limit. */
  lemma RecordFits(env: Env, key: string, now: int, body: Body)
    requires Codec(env) && Compact(env) && PageOk(env, now, body.page) && Hex64(body.previous_sha256)
    ensures |env.canonical(SignedJson(MakeRecord(env, body, key)))| < 1048576
  {
    hide Width, PageOk, PageSize;
    var s := MakeRecord(env, body, key);
    PageAtMost(env, now, body.page);
    HexWidth(s.sha256);
    HexWidth(s.hmac);
    HexWidth(body.previous_sha256);
  }
}
