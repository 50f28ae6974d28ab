/** What image descriptors, manifests, indexes and configurations have to say, entry by entry. */
module ImageFacts {
  import opened Wrappers
  import opened Text
  import opened Formats
  import opened ImageIdentity

  const MANIFESTS := {"application/vnd.oci.image.manifest.v1+json",
                      "application/vnd.docker.distribution.manifest.v2+json"}
  const INDEXES := {"application/vnd.oci.image.index.v1+json",
                    "application/vnd.docker.distribution.manifest.list.v2+json"}
  const CONFIGS := {"application/vnd.oci.image.config.v1+json", "application/vnd.docker.container.image.v1+json"}

  predicate Has(fields: map<string, Value>, key: string, v: Value) {
    key in fields && fields[key] == v
  }

  /** A key that is missing or null. */
  predicate Lacks(fields: map<string, Value>, key: string) {
    key !in fields || fields[key] == Null
  }

  // ----- descriptors and platforms

  /** The value is a descriptor of a blob of one of these types, of at most 4 MiB. */
  ghost predicate Describes(v: Value, types: set<string>, d: Descriptor) {
    && v.Object? && Has(v.fields, "digest", Str(d.digest)) && Has(v.fields, "size", Int(d.size))
    && Has(v.fields, "mediaType", Str(d.kind))
    && IsDigest(d.digest) && 1 <= d.size <= 4194304 && d.kind in types
  }

  lemma DescriptorExactly(v: Value, types: set<string>, d: Descriptor)
    ensures ReadDescriptor(v, types) == Ok(d) <==> Describes(v, types, d)
  {
    DigestIsExactly(d.digest);
    hide IsDigest, DigestOk;
  }

  predicate RunsOn(v: Value, os: string, architecture: string) {
    v.Object? && Has(v.fields, "os", Str(os)) && Has(v.fields, "architecture", Str(architecture))
  }

  /** The platform that images are accepted for. */
  lemma TargetExactly(v: Value)
    ensures IsTarget(v) <==> RunsOn(v, "linux", "amd64")
    ensures ReadPlatform(v).Ok? <==> exists os, architecture :: RunsOn(v, os, architecture)
  {
    if ReadPlatform(v).Ok? {
      assert RunsOn(v, ReadPlatform(v).value.0, ReadPlatform(v).value.1);
    }
  }

  // ----- the children of an index

  /** A child without a platform has to be an index of its own. */
  ghost predicate Acceptable(child: Value) {
    && (exists d :: Describes(child, MANIFESTS + INDEXES, d))
    && if Lacks(child.fields, "platform") then exists d :: Describes(child, INDEXES, d)
       else exists os, architecture :: RunsOn(child.fields["platform"], os, architecture)
  }

  /** The child that the walk goes on with. */
  ghost predicate Leads(child: Value, d: Descriptor) {
    && Acceptable(child) && Describes(child, MANIFESTS + INDEXES, d)
    && (Lacks(child.fields, "platform") || RunsOn(child.fields["platform"], "linux", "amd64"))
  }

  lemma TypesExactly()
    ensures MANIFEST_TYPES == MANIFESTS && INDEX_TYPES == INDEXES && CONFIG_TYPES == CONFIGS
  {
  }

  lemma ChildExactly(child: Value)
    ensures Candidate(child).Ok? <==> Acceptable(child)
    ensures forall d :: Candidate(child) == Ok(Some(d)) <==> Leads(child, d)
  {
    TypesExactly();
    var r := ReadDescriptor(child, MANIFEST_TYPES + INDEX_TYPES);
    forall d ensures r == Ok(d) <==> Describes(child, MANIFESTS + INDEXES, d) {
      DescriptorExactly(child, MANIFEST_TYPES + INDEX_TYPES, d);
    }
    if r.Ok? {
      assert Describes(child, MANIFESTS + INDEXES, r.value);
      assert forall d :: Describes(child, INDEXES, d) ==> d == r.value;
      assert r.value.kind in INDEXES ==> Describes(child, INDEXES, r.value);
      TargetExactly(Field(child.fields, "platform"));
    }
    hide ReadDescriptor, ReadPlatform, IsTarget, RunsOn, IsDigest;
  }

  /** Every child is acceptable, and exactly one of them leads on, to `next`. */
  ghost predicate OneLeads(children: seq<Value>, next: Descriptor) {
    && (forall c | c in children :: Acceptable(c))
    && exists i :: 0 <= i < |children| && Leads(children[i], next)
                   && forall j, d | 0 <= j < |children| && Leads(children[j], d) :: j == i
  }

  lemma ChildrenExactly(children: seq<Value>, next: Descriptor)
    ensures Candidates(children) == Ok([next]) <==> OneLeads(children, next)
  {
    hide Candidates, OneLeads;
    if Candidates(children) == Ok([next]) {
      FoundLeads(children, next);
    }
    if OneLeads(children, next) {
      LeaderIsFound(children, next);
    }
  }

  lemma FoundLeads(children: seq<Value>, next: Descriptor)
    requires Candidates(children) == Ok([next])
    ensures OneLeads(children, next)
  {
    var at := CandidatesAreExact(children);
    hide Candidates, Candidate, Acceptable, Leads;
    forall c | c in children ensures Acceptable(c) {
      ChildExactly(c);
    }
    ChildExactly(children[at[0]]);
    assert Leads(children[at[0]], next);
    forall j, d | 0 <= j < |children| && Leads(children[j], d) ensures j == at[0] {
      ChildExactly(children[j]);
      assert IsChosen(children[j]);
      assert j in at;
    }
  }

  lemma LeaderIsFound(children: seq<Value>, next: Descriptor)
    requires OneLeads(children, next)
    ensures Candidates(children) == Ok([next])
  {
    var at := CandidatesAreExact(children);
    hide Candidates, Candidate, Acceptable, Leads;
    forall c | c in children ensures Candidate(c).Ok? {
      ChildExactly(c);
    }
    var i :| 0 <= i < |children| && Leads(children[i], next)
             && forall j, d | 0 <= j < |children| && Leads(children[j], d) :: j == i;
    ChildExactly(children[i]);
    forall j | 0 <= j < |children| && IsChosen(children[j]) ensures j == i {
      ChildExactly(children[j]);
      assert Leads(children[j], Candidate(children[j]).value.value);
    }
    OnlyPosition(children, at, i, next);
    var found := Candidates(children).value;
    assert found == [found[0]] && Candidate(children[at[0]]).value == Some(found[0]);
  }

  lemma OnlyPosition(children: seq<Value>, at: seq<nat>, i: nat, next: Descriptor)
    requires Positions(at, children) && i < |children| && Candidate(children[i]) == Ok(Some(next))
    requires forall j | 0 <= j < |children| && IsChosen(children[j]) :: j == i
    ensures at == [i]
  {
    hide Candidate;
    assert IsChosen(children[i]) && i in at;
    assert forall k | 0 <= k < |at| :: at[k] == i;
    FirstTwoDiffer(children, at);
    hide Positions;
    assert |at| == 1;
  }

  lemma FirstTwoDiffer(children: seq<Value>, at: seq<nat>)
    requires Positions(at, children)
    ensures |at| >= 2 ==> at[0] != at[1]
  {
  }

  // ----- manifests and indexes

  /** What a body is: its own type, else the declared one, else what its shape says; a null type leaves it to the
      shape. */
  predicate IsTyped(body: map<string, Value>, declared: Option<string>, kind: string) {
    if !Lacks(body, "mediaType") then Has(body, "mediaType", Str(kind))
    else if "mediaType" !in body && declared.Some? then declared.value == kind
    else if "manifests" in body then
      kind == "application/vnd.oci.image.index.v1+json" && "config" !in body
    else
      kind == "application/vnd.oci.image.manifest.v1+json" && "config" in body
  }

  /** Version 2, of a known type, and of the declared one if one was declared. */
  predicate IsNode(body: map<string, Value>, declared: Option<string>, kind: string) {
    && Has(body, "schemaVersion", Int(2)) && IsTyped(body, declared, kind) && kind in MANIFESTS + INDEXES
    && (declared.Some? ==> declared.value == kind)
  }

  ghost predicate IsManifest(body: map<string, Value>, declared: Option<string>, config: Descriptor) {
    && (exists kind :: IsNode(body, declared, kind) && kind in MANIFESTS)
    && "manifests" !in body && "layers" in body && body["layers"].Items?
    && "config" in body && Describes(body["config"], CONFIGS, config)
  }

  ghost predicate IsIndex(body: map<string, Value>, declared: Option<string>, next: Descriptor, children: nat) {
    && (exists kind :: IsNode(body, declared, kind) && kind in INDEXES)
    && "config" !in body && "manifests" in body && body["manifests"].Items?
    && children == |body["manifests"].items| && 1 <= children <= 16
    && OneLeads(body["manifests"].items, next)
  }

  lemma KindExactly(body: map<string, Value>, declared: Option<string>, kind: string)
    ensures MediaType(body, declared) == Str(kind) <==> IsTyped(body, declared, kind)
  {
  }

  lemma NodeTypes(body: map<string, Value>, declared: Option<string>)
    ensures var kind := MediaType(body, declared);
            (exists k :: IsNode(body, declared, k))
            <==> && Field(body, "schemaVersion") == Int(2) && kind.Str? && kind.s in MANIFEST_TYPES + INDEX_TYPES
                 && (declared.Some? ==> kind.s == declared.value)
    ensures forall k | IsNode(body, declared, k) :: MediaType(body, declared) == Str(k)
  {
    TypesExactly();
    forall k ensures MediaType(body, declared) == Str(k) <==> IsTyped(body, declared, k) {
      KindExactly(body, declared, k);
    }
    hide MediaType, IsTyped;
    var kind := MediaType(body, declared);
    if kind.Str? && kind.s in MANIFESTS + INDEXES && Field(body, "schemaVersion") == Int(2)
       && (declared.Some? ==> kind.s == declared.value) {
      assert IsNode(body, declared, kind.s);
    }
  }

  /** A body is read as a manifest or as an index exactly if it is one, with that configuration or that one child. */
  lemma NodeExactly(body: map<string, Value>, declared: Option<string>)
    ensures forall c :: ReadNode(body, declared) == Ok(Manifest(c)) <==> IsManifest(body, declared, c)
    ensures forall next, n :: ReadNode(body, declared) == Ok(Index(next, n)) <==> IsIndex(body, declared, next, n)
  {
    TypesExactly();
    NodeTypes(body, declared);
    TypesDiffer();
    ManifestRead(body, declared);
    IndexRead(body, declared);
  }

  lemma ManifestRead(body: map<string, Value>, declared: Option<string>)
    ensures forall c :: ReadNode(body, declared) == Ok(Manifest(c)) <==> IsManifest(body, declared, c)
  {
    TypesExactly();
    NodeTypes(body, declared);
    TypesDiffer();
    forall c ensures ReadDescriptor(Field(body, "config"), CONFIG_TYPES) == Ok(c)
                <==> "config" in body && Describes(body["config"], CONFIGS, c) {
      DescriptorExactly(Field(body, "config"), CONFIG_TYPES, c);
    }
    hide MediaType, IsNode, Describes, ReadDescriptor, Candidates;
  }

  lemma IndexRead(body: map<string, Value>, declared: Option<string>)
    ensures forall next, n :: ReadNode(body, declared) == Ok(Index(next, n)) <==> IsIndex(body, declared, next, n)
  {
    TypesExactly();
    NodeTypes(body, declared);
    TypesDiffer();
    if "manifests" in body && body["manifests"].Items? {
      forall next ensures Candidates(body["manifests"].items) == Ok([next])
                     <==> OneLeads(body["manifests"].items, next) {
        ChildrenExactly(body["manifests"].items, next);
      }
      var found := Candidates(body["manifests"].items);
      assert found.Ok? && |found.value| == 1 ==> found.value == [found.value[0]];
    }
    hide MediaType, IsNode, ReadDescriptor, Candidates, OneLeads;
  }

  // ----- chains

  /** Bytes of this digest, of at most 4 MiB and of the size that was announced, that are a JSON object. */
  predicate IsBlob(e: Env, blob: Bytes, digest: string, size: Option<int>) {
    && 1 <= |blob| <= 4194304 && e.digest(blob) == digest && (size == None || size == Some(|blob|))
    && e.parse(blob) != None && e.parse(blob).value.Object?
  }

  /** A manifest whose configuration is the other blob, and that one is of an image for linux/amd64. */
  ghost predicate Ends(e: Env, blobs: seq<Bytes>, body: map<string, Value>, declared: Option<string>, config: string) {
    exists c ::
      && IsManifest(body, declared, c) && c.digest == config
      && |blobs| == 2 && IsBlob(e, blobs[1], config, Some(c.size))
      && RunsOn(e.parse(blobs[1]).value, "linux", "amd64")
  }

  /** The blobs lead from a digest through indexes and one manifest to a configuration; the indexes list at most
      `budget` children together. */
  ghost predicate Linked(e: Env, blobs: seq<Bytes>, digest: string, size: Option<int>, declared: Option<string>,
                         config: string, budget: int)
    decreases |blobs|
  {
    && |blobs| >= 2 && IsBlob(e, blobs[0], digest, size)
    && var body := e.parse(blobs[0]).value.fields;
    || Ends(e, blobs, body, declared, config)
    || exists next, n: nat ::
         && IsIndex(body, declared, next, n) && n <= budget
         && Linked(e, blobs[1..], next.digest, Some(next.size), Some(next.kind), config, budget - n)
  }

  /** What the walk leaves behind as evidence is such a chain, and each such chain is evidence. */
  lemma {:induction false} LinkedExactly(e: Env, blobs: seq<Bytes>, digest: string, size: Option<int>,
                                         declared: Option<string>, config: string, budget: int)
    ensures Chain(e, blobs, digest, size, declared, config, budget)
       <==> Linked(e, blobs, digest, size, declared, config, budget)
    decreases |blobs|
  {
    hide IsManifest, IsIndex, ReadNode, RunsOn, IsTarget;
    if |blobs| >= 2 && IsBlob(e, blobs[0], digest, size) {
      var body := e.parse(blobs[0]).value.fields;
      NodeExactly(body, declared);
      match ReadNode(body, declared)
      case Ok(Index(next, n)) =>
        assert IsIndex(body, declared, next, n);
        LinkedExactly(e, blobs[1..], next.digest, Some(next.size), Some(next.kind), config, budget - n);
      case Ok(Manifest(c)) =>
        assert IsManifest(body, declared, c);
        if |blobs| == 2 && IsBlob(e, blobs[1], config, Some(c.size)) {
          TargetExactly(e.parse(blobs[1]).value);
        }
      case Refused =>
    }
  }

  // ----- the whole verification

  /** A release image for linux/amd64 against an inspection of an image for linux/amd64, both named by digests. */
  ghost predicate Comparable(expected: Expected, inspected: Inspected) {
    && expected.platform == "linux/amd64" && IsDigest(expected.id) && IsDigest(inspected.id)
    && (inspected.os, inspected.architecture) == ("linux", "amd64")
  }

  lemma ComparableExactly(expected: Expected, inspected: Inspected)
    ensures Inspectable(expected, inspected) <==> Comparable(expected, inspected)
    ensures Classic(expected, inspected) <==> inspected.descriptor == Null && expected.id == inspected.id
  {
    DigestIsExactly(expected.id);
    DigestIsExactly(inspected.id);
    hide DigestOk, IsDigest;
  }

  /** A walk that an inspection begins and that ends well has seen at most four blobs that lead from the runtime digest,
      as the inspection describes it, to the configuration that is reported. */
  lemma VerifiedIsLinked(e: Env, reader: Reader, inspected: Inspected) returns (blobs: seq<Bytes>)
    requires Inspection(e, reader, inspected).Ok?
    ensures |blobs| <= 4
    ensures var config := Inspection(e, reader, inspected).value.config;
            if inspected.descriptor == Null then Linked(e, blobs, inspected.id, None, None, config, 16)
            else exists d :: Describes(inspected.descriptor, MANIFESTS + INDEXES, d) && d.digest == inspected.id
                             && Linked(e, blobs, inspected.id, Some(d.size), Some(d.kind), config, 16)
  {
    hide Walk, Linked, Chain, Describes, ReadDescriptor;
    TypesExactly();
    var config := Inspection(e, reader, inspected).value.config;
    if inspected.descriptor.Null? {
      blobs := WalkHasEvidence(e, reader, inspected.id, None, None, 0, START);
      LinkedExactly(e, blobs, inspected.id, None, None, config, 16);
    } else {
      var d := ReadDescriptor(inspected.descriptor, MANIFEST_TYPES + INDEX_TYPES).value;
      DescriptorExactly(inspected.descriptor, MANIFEST_TYPES + INDEX_TYPES, d);
      blobs := WalkHasEvidence(e, reader, inspected.id, Some(d.size), Some(d.kind), 0, START);
      LinkedExactly(e, blobs, inspected.id, Some(d.size), Some(d.kind), config, 16);
    }
  }

  /** Conversely, an inspection is verified for the configuration at the end of any such chain, if the store delivers
      its blobs at every time and no two of its manifests and indexes share a digest. */
  lemma LinkedIsVerified(e: Env, reader: Reader, inspected: Inspected, blobs: seq<Bytes>, config: string)
    requires |blobs| <= 4
    requires forall k, i | 0 <= i < |blobs| :: reader(k, e.digest(blobs[i])) == Some(blobs[i])
    requires forall i, j | 0 <= i < j && j + 1 < |blobs| :: e.digest(blobs[i]) != e.digest(blobs[j])
    requires if inspected.descriptor == Null then Linked(e, blobs, inspected.id, None, None, config, 16)
             else exists d :: Describes(inspected.descriptor, MANIFESTS + INDEXES, d) && d.digest == inspected.id
                              && Linked(e, blobs, inspected.id, Some(d.size), Some(d.kind), config, 16)
    ensures Inspection(e, reader, inspected).Ok? && Inspection(e, reader, inspected).value.config == config
  {
    hide Walk, Linked, Chain, Describes, ReadDescriptor;
    TypesExactly();
    if inspected.descriptor.Null? {
      LinkedExactly(e, blobs, inspected.id, None, None, config, 16);
      ChainIsFound(e, reader, blobs, inspected.id, None, None, 0, START, config);
    } else {
      var d :| Describes(inspected.descriptor, MANIFESTS + INDEXES, d) && d.digest == inspected.id
               && Linked(e, blobs, inspected.id, Some(d.size), Some(d.kind), config, 16);
      DescriptorExactly(inspected.descriptor, MANIFESTS + INDEXES, d);
      LinkedExactly(e, blobs, inspected.id, Some(d.size), Some(d.kind), config, 16);
      ChainIsFound(e, reader, blobs, inspected.id, Some(d.size), Some(d.kind), 0, START, config);
    }
  }
}
