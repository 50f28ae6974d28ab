/** What a chain value or a record pin determines, as long as no two of the texts actually hashed collide. */
module Evidence {
  import opened Wrappers
  import opened Sequences
  import opened Text
  import opened Ledger
  import opened Journal
  import opened Commitments

  // ----- the text hashed for an event determines the event

  lemma KindNameInjective(a: Kind, b: Kind)
    requires !a.Unknown? && !b.Unknown? && KindName(a) == KindName(b)
    ensures a == b
  {
    KindMark(a);
    KindMark(b);
  }

  /** The length and three letters tell all the names apart. */
  function Mark(name: string): (nat, char, char, char) {
    if |name| < 6 then (|name|, ' ', ' ', ' ') else (|name|, name[0], name[1], name[|name| - 5])
  }

  lemma KindMark(k: Kind)
    ensures match k
            case Upsert => Mark(KindName(k)) == (6, 'u', 'p', 'p')
            case Metadata => Mark(KindName(k)) == (8, 'm', 'e', 'a')
            case Delete => Mark(KindName(k)) == (6, 'd', 'e', 'e')
            case SubtreeScan => Mark(KindName(k)) == (12, 's', 'u', '_')
            case SubtreeMoved => Mark(KindName(k)) == (13, 's', 'u', 'm')
            case SubtreeDeleted => Mark(KindName(k)) == (15, 's', 'u', 'l')
            case Reconcile => Mark(KindName(k)) == (9, 'r', 'e', 'n')
            case Withdrawn => Mark(KindName(k)) == (9, 'w', 'i', 'd')
            case Eligible => Mark(KindName(k)) == (8, 'e', 'l', 'g')
            case BindingStop => Mark(KindName(k)) == (12, 'b', 'i', '_')
            case BindingResume => Mark(KindName(k)) == (14, 'b', 'i', 'e')
            case BindingRetired => Mark(KindName(k)) == (15, 'b', 'i', 't')
            case BindingCreated => Mark(KindName(k)) == (15, 'b', 'i', 'e')
            case ContentWriteBegin => Mark(KindName(k)) == (19, 'c', 'o', 'b')
            case ContentWriteComplete => Mark(KindName(k)) == (22, 'c', 'o', 'p')
            case TargetDeleted => Mark(KindName(k)) == (14, 't', 'a', 'l')
            case TenantDeleted => Mark(KindName(k)) == (14, 't', 'e', 'l')
            case Unknown(name) => true
  {
  }

  lemma KindNamePlain(k: Kind)
    requires !k.Unknown?
    ensures Plain(KindName(k))
  {
  }

  lemma StrInjective(m: int, n: int)
    requires m >= 0 && n >= 0 && Str(m) == Str(n)
    ensures m == n
  {
    DecimalInjective(m, n);
  }

  lemma FileFieldInjective(a: Item, b: Item)
    requires a.file_id.Some? ==> Positive(a.file_id.value)
    requires b.file_id.Some? ==> Positive(b.file_id.value)
    requires FileField(a) == FileField(b)
    ensures a.file_id == b.file_id
  {
    assert !IsDigit("-"[0]);
    assert !IsInteger("");
  }

  lemma TargetSchemaPlain()
    ensures Plain("weknora-nextcloud-target-v1") && Plain("target_deleted")
    ensures Plain("knowledge_base_deleted") && Plain("tenant_deleted")
  {
  }

  lemma TargetPlain(env: Env, now: int, t: Target)
    requires Codec(env) && TargetOk(env, now, t)
    ensures Plain(t.schema) && Plain(t.state) && Plain(t.reason) && Plain(t.operation_id) && Plain(t.instance_id)
    ensures Plain(t.binding_id) && Plain(t.tenant_id) && Plain(t.knowledge_base_id) && Plain(t.operation_revision)
    ensures Plain(t.closure_id) && Plain(t.deletion_time_ms) && Plain(t.closed_at)
  {
    hide Uuid, Identifier, KnowledgeBaseId, IsInteger, Num, TargetReceipt, Hex64, ClosureTimeOk, Plain;
    TargetSchemaPlain();
    UuidPlain(t.operation_id);
    IdentifierPlain(t.instance_id, 64);
    IdentifierPlain(t.binding_id, 128);
    KnowledgeBaseIdPlain(t.knowledge_base_id);
    IntegerPlain(t.tenant_id);
    IntegerPlain(t.operation_revision);
    IntegerPlain(t.deletion_time_ms);
    IntegerPlain(t.closed_at);
    HexPlain(t.closure_id);
  }

  lemma TargetFieldsPlain(env: Env, now: int, f: TargetFact)
    requires Codec(env) && TargetClosureOk(env, now, f)
    ensures AllPlain(TargetFields(f))
  {
    hide TargetOk, IsInteger, Num, Hex64;
    TargetPlain(env, now, f.target);
    IntegerPlain(f.root_file_id);
    HexPlain(f.root_key);
  }

  lemma TenantSchemaPlain()
    ensures Plain("weknora-nextcloud-tenant-deletion-v1") && Plain("tenant_deleted")
  {
  }

  lemma TenantPlain(env: Env, now: int, t: Tenant)
    requires Codec(env) && TenantOk(env, now, t)
    ensures Plain(t.schema) && Plain(t.state) && Plain(t.operation_id) && Plain(t.instance_id) && Plain(t.binding_id)
    ensures Plain(t.tenant_id) && Plain(t.deletion_id) && Plain(t.deletion_time_ms) && Plain(t.closed_at)
  {
    hide Uuid, Identifier, IsInteger, Num, TenantReceipt, Hex64, ClosureTimeOk, Plain;
    TenantSchemaPlain();
    UuidPlain(t.operation_id);
    IdentifierPlain(t.instance_id, 64);
    IdentifierPlain(t.binding_id, 128);
    IntegerPlain(t.tenant_id);
    IntegerPlain(t.deletion_time_ms);
    IntegerPlain(t.closed_at);
    HexPlain(t.deletion_id);
  }

  lemma TenantFieldsPlain(env: Env, now: int, f: TenantFact)
    requires Codec(env) && TenantDeletionOk(env, now, f)
    ensures AllPlain(TenantFields(f))
  {
    hide TenantOk, Hex64;
    TenantPlain(env, now, f.tenant);
    HexPlain(f.origin_sha256);
  }

  lemma AllPlainConcat(a: seq<string>, b: seq<string>)
    requires AllPlain(a) && AllPlain(b)
    ensures AllPlain(a + b)
  {
  }

  /** The seven fields every event is hashed with, and those a closure fact adds. */
  function CommonFields(previous: string, item: Item): seq<string> {
    [previous, item.sequence, item.binding_id, FileField(item), KindName(item.kind), item.source_revision,
     Str(item.created_at)]
  }

  function ClosureFields(item: Item): seq<string> {
    if item.kind.TargetDeleted? && item.target_closure.Some? then TargetFields(item.target_closure.value)
    else if item.kind.TenantDeleted? && item.tenant_deletion.Some? then TenantFields(item.tenant_deletion.value)
    else []
  }

  lemma CommonFieldsPlain(env: Env, now: int, previous: string, item: Item, offset: nat)
    requires Plain(previous) && ItemOk(env, now, item, offset)
    ensures AllPlain(CommonFields(previous, item))
  {
    hide ScopeOk, IsInteger, Identifier, KindName;
    IntegerPlain(item.sequence);
    IntegerPlain(item.source_revision);
    IdentifierPlain(item.binding_id, 128);
    if item.file_id.Some? {
      IntegerPlain(item.file_id.value);
    }
    DecimalPlain(item.created_at);
    KindNamePlain(item.kind);
  }

  lemma ClosureFieldsPlain(env: Env, now: int, item: Item)
    requires Codec(env) && ScopeOk(env, now, item)
    ensures AllPlain(ClosureFields(item))
  {
    hide TargetFields, TenantFields, TargetClosureOk, TenantDeletionOk;
    if item.kind.TargetDeleted? {
      TargetFieldsPlain(env, now, item.target_closure.value);
    } else if item.kind.TenantDeleted? {
      TenantFieldsPlain(env, now, item.tenant_deletion.value);
    }
  }

  lemma EventFieldsPlain(env: Env, now: int, previous: string, item: Item, offset: nat)
    requires Codec(env) && Plain(previous) && ItemOk(env, now, item, offset)
    ensures AllPlain(EventFields(previous, item))
  {
    hide TargetFields, TenantFields, TargetClosureOk, TenantDeletionOk;
    CommonFieldsPlain(env, now, previous, item, offset);
    ClosureFieldsPlain(env, now, item);
    AllPlainConcat(CommonFields(previous, item), ClosureFields(item));
    assert EventFields(previous, item) == CommonFields(previous, item) + ClosureFields(item);
  }

  lemma TargetFieldsInjective(a: TargetFact, b: TargetFact)
    requires TargetFields(a) == TargetFields(b)
    ensures a == b
  {
    var x, y := TargetFields(a), TargetFields(b);
    assert forall k | 0 <= k < 14 :: x[k] == y[k];
  }

  lemma TenantFieldsInjective(a: TenantFact, b: TenantFact)
    requires TenantFields(a) == TenantFields(b)
    ensures a == b
  {
    var x, y := TenantFields(a), TenantFields(b);
    assert forall k | 0 <= k < 10 :: x[k] == y[k];
  }

  lemma CommonFieldsInjective(p: string, a: Item, q: string, b: Item, m: nat, n: nat)
    requires ItemFieldsOk(a, m) && ItemFieldsOk(b, n)
    requires CommonFields(p, a) == CommonFields(q, b)
    ensures p == q && m == n
    ensures a.sequence == b.sequence && a.binding_id == b.binding_id && a.file_id == b.file_id && a.kind == b.kind
    ensures a.source_revision == b.source_revision && a.created_at == b.created_at
  {
    var x, y := CommonFields(p, a), CommonFields(q, b);
    assert forall k | 0 <= k < 7 :: x[k] == y[k];
    FileFieldInjective(a, b);
    KindNameInjective(a.kind, b.kind);
    StrInjective(a.created_at, b.created_at);
  }

  /** The kind fixes the number of fields, a `-` is never a file id, and no field holds a newline: the hashed text
      gives back the previous chain value and the whole event. */
  lemma PreimageInjective(env: Env, now: int, p: string, a: Item, m: nat, later: int, q: string, b: Item, n: nat)
    requires Codec(env) && Plain(p) && Plain(q) && ItemOk(env, now, a, m) && ItemOk(env, later, b, n)
    requires Preimage(p, a) == Preimage(q, b)
    ensures p == q && a == b && m == n
  {
    hide TargetFields, TenantFields, TargetClosureOk, TenantDeletionOk, ItemFieldsOk;
    EventFieldsPlain(env, now, p, a, m);
    EventFieldsPlain(env, later, q, b, n);
    JoinInjective(EventFields(p, a), EventFields(q, b));
    var x, y := EventFields(p, a), EventFields(q, b);
    assert x == CommonFields(p, a) + ClosureFields(a) && y == CommonFields(q, b) + ClosureFields(b);
    assert x[..7] == CommonFields(p, a) && y[..7] == CommonFields(q, b);
    CommonFieldsInjective(p, a, q, b, m, n);
    assert x[7..] == ClosureFields(a) && y[7..] == ClosureFields(b);
    if a.kind.TargetDeleted? {
      TargetFieldsInjective(a.target_closure.value, b.target_closure.value);
    } else if a.kind.TenantDeleted? {
      TenantFieldsInjective(a.tenant_deletion.value, b.tenant_deletion.value);
    }
  }

  // ----- a chain value determines the history

  /** The texts hashed while the chain runs over `items`. */
  ghost function EventTexts(env: Env, previous: string, items: seq<Item>): set<string> {
    if items == [] then {}
    else
      EventTexts(env, previous, items[..|items| - 1])
      + {Preimage(Chain(env, previous, items[..|items| - 1]), items[|items| - 1])}
  }

  lemma ChainPlain(env: Env, items: seq<Item>)
    requires Codec(env)
    ensures Plain(Chain(env, ZERO, items))
  {
    hide Preimage;
    if items == [] {
      assert Plain(ZERO);
    } else {
      var previous := Chain(env, ZERO, items[..|items| - 1]);
      HexPlain(env.sha(Preimage(previous, items[|items| - 1])));
    }
  }

  lemma CollisionFreeSubset(env: Env, big: set<string>, small: set<string>)
    requires CollisionFree(env, big) && small <= big
    ensures CollisionFree(env, small)
  {
  }

  /** The last link of two equal chains: same previous value, same event. */
  lemma LastLink(env: Env, p: string, a: Item, m: nat, now: int, q: string, b: Item, n: nat, later: int)
    requires Codec(env) && Plain(p) && Plain(q) && ItemOk(env, now, a, m) && ItemOk(env, later, b, n)
    requires CollisionFree(env, {Preimage(p, a), Preimage(q, b)})
    requires env.link(p, a) == env.link(q, b)
    ensures p == q && a == b && m == n
  {
    hide Preimage, ItemOk;
    PreimageInjective(env, now, p, a, m, later, q, b, n);
  }

  /** Equal chain values mean equal event histories, of equal length, kind by kind and field by field. */
  lemma {:induction false} ChainDeterminesEvents(env: Env, now: int, a: seq<Item>, later: int, b: seq<Item>)
    requires Codec(env) && ItemsOk(env, now, a, 0) && ItemsOk(env, later, b, 0)
    requires CollisionFree(env, EventTexts(env, ZERO, a) + EventTexts(env, ZERO, b))
    requires Chain(env, ZERO, a) == Chain(env, ZERO, b)
    ensures a == b
    decreases |a|
  {
    hide Preimage, ItemOk;
    var texts := EventTexts(env, ZERO, a) + EventTexts(env, ZERO, b);
    if a != [] && b != [] {
      var p, x, q, y := a[..|a| - 1], a[|a| - 1], b[..|b| - 1], b[|b| - 1];
      ChainPlain(env, p);
      ChainPlain(env, q);
      CollisionFreeSubset(env, texts, {Preimage(Chain(env, ZERO, p), x), Preimage(Chain(env, ZERO, q), y)});
      LastLink(env, Chain(env, ZERO, p), x, |a|, now, Chain(env, ZERO, q), y, |b|, later);
      CollisionFreeSubset(env, texts, EventTexts(env, ZERO, p) + EventTexts(env, ZERO, q));
      ChainDeterminesEvents(env, now, p, later, q);
      SplitLast(a);
      SplitLast(b);
    }
  }

  /** Two accepted journals, whoever signed them and whenever they were read, that show the same database chain value
      at some point hold the same events up to that point. */
  lemma SharedChainSharedHistory(env: Env, key1: string, now1: int, rs1: seq<Signed>, m: nat,
                                 key2: string, now2: int, rs2: seq<Signed>, n: nat)
    requires Codec(env) && JournalOk(env, key1, now1, rs1) && JournalOk(env, key2, now2, rs2)
    requires m <= |Events(rs1)| && n <= |Events(rs2)|
    requires CollisionFree(env, EventTexts(env, ZERO, Events(rs1)[..m]) + EventTexts(env, ZERO, Events(rs2)[..n]))
    requires Chain(env, ZERO, Events(rs1)[..m]) == Chain(env, ZERO, Events(rs2)[..n])
    ensures m == n && Events(rs1)[..m] == Events(rs2)[..n]
  {
    hide ItemsOk, JournalOk, Chain, EventTexts, Events;
    RetainedChain(env, key1, now1, rs1);
    RetainedChain(env, key2, now2, rs2);
    ItemsPrefix(env, now1, Events(rs1), m, 0);
    ItemsPrefix(env, now2, Events(rs2), n, 0);
    ChainDeterminesEvents(env, now1, Events(rs1)[..m], now2, Events(rs2)[..n]);
    assert |Events(rs1)[..m]| == m && |Events(rs2)[..n]| == n;
  }

  // ----- a record pin determines the record and everything before it

  /** The texts hashed into record digests. */
  ghost function RecordTexts(env: Env, rs: seq<Signed>): set<string> {
    set i | 0 <= i < |rs| :: RecordText(env, rs, i)
  }

  function RecordText(env: Env, rs: seq<Signed>, i: nat): string
    requires i < |rs|
  {
    env.canonical(BodyJson(rs[i].body))
  }

  lemma CanonicalInjective(env: Env, a: Json, b: Json)
    requires Codec(env) && env.canonical(a) == env.canonical(b)
    ensures a == b
  {
    assert env.parse(env.canonical(a)) == Some(a);
  }

  /** The records of an accepted journal are the signer's own: digest, signature and link to the record before. */
  lemma RecordIsSigned(env: Env, key: string, now: int, rs: seq<Signed>, i: nat)
    requires Codec(env) && JournalOk(env, key, now, rs) && i < |rs|
    ensures rs[i] == MakeRecord(env, rs[i].body, key)
    ensures rs[i].sha256 == env.sha(RecordText(env, rs, i))
    ensures RecordText(env, rs, i) in RecordTexts(env, rs)
    ensures rs[i].body.previous_sha256 == if i == 0 then ZERO else rs[i - 1].sha256
  {
    hide PageOk, HeadsHonoured, JournalOk, Codec;
    RecordAt(env, key, now, rs, i);
    CanonicalInjective(env, SignedJson(rs[i]), SignedJson(MakeRecord(env, rs[i].body, key)));
  }

  /** One pin names one position and the whole journal before it, also across two copies of the file. */
  lemma {:induction false} PinDeterminesPrefix(env: Env, key: string, now1: int, rs1: seq<Signed>, i: nat,
                                               now2: int, rs2: seq<Signed>, j: nat)
    requires Codec(env) && JournalOk(env, key, now1, rs1) && JournalOk(env, key, now2, rs2)
    requires CollisionFree(env, RecordTexts(env, rs1) + RecordTexts(env, rs2))
    requires i < |rs1| && j < |rs2| && rs1[i].sha256 == rs2[j].sha256
    ensures i == j && rs1[..i + 1] == rs2[..j + 1]
    decreases i
  {
    hide JournalOk, Codec, RecordTexts;
    RecordIsSigned(env, key, now1, rs1, i);
    RecordIsSigned(env, key, now2, rs2, j);
    CanonicalInjective(env, BodyJson(rs1[i].body), BodyJson(rs2[j].body));
    if i > 0 {
      RecordIsSigned(env, key, now1, rs1, i - 1);
    }
    if j > 0 {
      RecordIsSigned(env, key, now2, rs2, j - 1);
    }
    if i > 0 && j > 0 {
      PinDeterminesPrefix(env, key, now1, rs1, i - 1, now2, rs2, j - 1);
      TakeOneMore(rs1, i);
      TakeOneMore(rs2, j);
    }
  }

  /** No two records of an accepted journal share a digest. */
  lemma PinsDistinct(env: Env, key: string, now: int, rs: seq<Signed>, i: nat, j: nat)
    requires Codec(env) && JournalOk(env, key, now, rs) && CollisionFree(env, RecordTexts(env, rs))
    requires i < j < |rs|
    ensures rs[i].sha256 != rs[j].sha256
  {
    hide JournalOk, Codec, CollisionFree, RecordTexts;
    if rs[i].sha256 == rs[j].sha256 {
      assert RecordTexts(env, rs) + RecordTexts(env, rs) == RecordTexts(env, rs);
      PinDeterminesPrefix(env, key, now, rs, i, now, rs, j);
    }
  }
}
