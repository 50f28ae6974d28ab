/** Which configuration a local image has: the walk through its content-addressed graph, and why the runtime digest
    alone decides the answer. */
module ImageIdentity {
  import opened Wrappers
  import opened Text

  const MAX_BLOB := 4 * 1024 * 1024
  const MAX_DESCRIPTORS := 16
  const MAX_DEPTH := 2

  const OCI_MANIFEST := "application/vnd.oci.image.manifest.v1+json"
  const OCI_INDEX := "application/vnd.oci.image.index.v1+json"

  const MANIFEST_TYPES := {OCI_MANIFEST, "application/vnd.docker.distribution.manifest.v2+json"}
  const INDEX_TYPES := {OCI_INDEX, "application/vnd.docker.distribution.manifest.list.v2+json"}
  const CONFIG_TYPES := {"application/vnd.oci.image.config.v1+json", "application/vnd.docker.container.image.v1+json"}

  /** Decoded JSON. Booleans and fractions are `Other`: they are never accepted as a size or a version. */
  datatype Value =
    | Null
    | Int(n: int)
    | Str(s: string)
    | Items(items: seq<Value>)
    | Object(fields: map<string, Value>)
    | Other

  /** The digest of a blob, and its JSON value if it has one without duplicate keys. */
  datatype Env = Env(digest: Bytes -> string, parse: Bytes -> Option<Value>)

  /** What the content reader returns on its k-th call. It may fail, lie and change its mind. */
  type Reader = (nat, string) -> Option<Bytes>

  /** dict.get: a key that is missing and a null value look the same. */
  function Field(fields: map<string, Value>, key: string): Value {
    if key in fields then fields[key] else Null
  }

  datatype Descriptor = Descriptor(digest: string, size: int, kind: string)

  function ReadDescriptor(v: Value, allowed: set<string>): (r: Result<Descriptor>)
    ensures r.Ok? ==> r.value.kind in allowed && DigestOk(r.value.digest)
  {
    if !v.Object? then Refused
    else
      var digest, size, kind := Field(v.fields, "digest"), Field(v.fields, "size"), Field(v.fields, "mediaType");
      if digest.Str? && DigestOk(digest.s) && size.Int? && 0 < size.n <= MAX_BLOB && kind.Str? && kind.s in allowed then
        Ok(Descriptor(digest.s, size.n, kind.s))
      else
        Refused
  }

  /** Operating system and architecture, or a refusal. */
  function ReadPlatform(v: Value): Result<(string, string)> {
    if v.Object? && Field(v.fields, "os").Str? && Field(v.fields, "architecture").Str? then
      Ok((Field(v.fields, "os").s, Field(v.fields, "architecture").s))
    else
      Refused
  }

  predicate IsTarget(v: Value) {
    ReadPlatform(v) == Ok(("linux", "amd64"))
  }

  // ----- one blob

  /** A blob is believed only if its bytes have the digest that was asked for. */
  function Load(e: Env, read: Option<Bytes>, digest: string, size: Option<int>): Result<map<string, Value>> {
    if read.Some? && 0 < |read.value| <= MAX_BLOB && (size.Some? ==> |read.value| == size.value)
       && e.digest(read.value) == digest && e.parse(read.value).Some? && e.parse(read.value).value.Object?
    then Ok(e.parse(read.value).value.fields)
    else Refused
  }

  // ----- one manifest or index

  /** The child of an index that is for this platform, or that is an index of its own without a platform. */
  function Candidate(child: Value): Result<Option<Descriptor>> {
    var d := ReadDescriptor(child, MANIFEST_TYPES + INDEX_TYPES);
    if d.Refused? then Refused
    else
      var platform := Field(child.fields, "platform");
      if platform.Null? then (if d.value.kind in INDEX_TYPES then Ok(Some(d.value)) else Refused)
      else if ReadPlatform(platform).Refused? then Refused
      else if IsTarget(platform) then Ok(Some(d.value))
      else Ok(None)
  }

  function Candidates(children: seq<Value>): Result<seq<Descriptor>> {
    if children == [] then Ok([])
    else
      var before, last := Candidates(children[..|children| - 1]), Candidate(children[|children| - 1]);
      if before.Refused? || last.Refused? then Refused
      else Ok(before.value + if last.value.Some? then [last.value.value] else [])
  }

  /** The positions of the children that are for this platform, in order. */
  predicate Positions(at: seq<nat>, children: seq<Value>) {
    && (forall a, b | 0 <= a < b < |at| :: at[a] < at[b])
    && (forall k | 0 <= k < |at| :: at[k] < |children| && IsChosen(children[at[k]]))
    && (forall i | 0 <= i < |children| && IsChosen(children[i]) :: i in at)
  }

  predicate IsChosen(child: Value) {
    Candidate(child).Ok? && Candidate(child).value.Some?
  }

  /** A list of children is accepted exactly if each child is, and what is left are the descriptors of those for this
      platform, each once and in the order of the children. */
  lemma {:induction false} CandidatesAreExact(children: seq<Value>) returns (at: seq<nat>)
    ensures Candidates(children).Ok? <==> forall c | c in children :: Candidate(c).Ok?
    ensures Positions(at, children)
    ensures Candidates(children).Ok? ==>
              && |Candidates(children).value| == |at|
              && forall k | 0 <= k < |at| :: Candidate(children[at[k]]).value == Some(Candidates(children).value[k])
  {
    hide Candidate;
    if children == [] {
      at := [];
    } else {
      var n := |children| - 1;
      var init := children[..n];
      var before := CandidatesAreExact(init);
      assert children == init + [children[n]];
      assert forall i | 0 <= i < n :: init[i] == children[i];
      at := before + if IsChosen(children[n]) then [n] else [];
      PositionsStep(before, init, children[n]);
    }
  }

  lemma PositionsStep(at: seq<nat>, children: seq<Value>, child: Value)
    requires Positions(at, children)
    ensures Positions(at + if IsChosen(child) then [|children|] else [], children + [child])
  {
    hide IsChosen;
    var all, more := children + [child], at + if IsChosen(child) then [|children|] else [];
    forall i | 0 <= i < |all| && IsChosen(all[i]) ensures i in more {
      if i < |children| {
        assert all[i] == children[i] && i in at;
      } else {
        assert more[|at|] == i;
      }
    }
  }

  method SelectCandidates(children: seq<Value>) returns (candidates: Result<seq<Descriptor>>)
    ensures candidates == Candidates(children)
  {
    candidates := Ok([]);
    for k := 0 to |children|
      invariant candidates == Candidates(children[..k])
    {
      assert children[..k + 1][..k] == children[..k];
      var child := Candidate(children[k]);
      if candidates.Refused? || child.Refused? {
        candidates := Refused;
      } else if child.value.Some? {
        candidates := Ok(candidates.value + [child.value.value]);
      } else {
        assert candidates.value + [] == candidates.value;
      }
    }
    assert children[..|children|] == children;
  }

  /** What a manifest or an index says: its configuration, or the one child to follow. */
  datatype Node = Manifest(config: Descriptor) | Index(next: Descriptor, children: nat)

  /** The media type: the body's own, else the declared one, else the one that the body's shape allows. A null in the
      body is neither: there the shape decides even if a type was declared. */
  function MediaType(value: map<string, Value>, declared: Option<string>): Value {
    var own := if "mediaType" in value then value["mediaType"]
               else if declared.Some? then Str(declared.value) else Null;
    if !own.Null? then own
    else if "manifests" in value && "config" !in value then Str(OCI_INDEX)
    else if "config" in value && "manifests" !in value then Str(OCI_MANIFEST)
    else Null
  }

  function ReadNode(value: map<string, Value>, declared: Option<string>): (r: Result<Node>)
    ensures r.Ok? && r.value.Index? ==> 0 < r.value.children <= MAX_DESCRIPTORS
  {
    var kind := MediaType(value, declared);
    if Field(value, "schemaVersion") != Int(2) then Refused
    else if !kind.Str? || kind.s !in MANIFEST_TYPES + INDEX_TYPES then Refused
    else if declared.Some? && kind.s != declared.value then Refused
    else if kind.s in MANIFEST_TYPES then
      var config := ReadDescriptor(Field(value, "config"), CONFIG_TYPES);
      if "manifests" in value || !Field(value, "layers").Items? || config.Refused? then Refused
      else Ok(Manifest(config.value))
    else
      var children := Field(value, "manifests");
      if "config" in value || !children.Items? || !(0 < |children.items| <= MAX_DESCRIPTORS) then Refused
      else
        var candidates := Candidates(children.items);
        if candidates.Refused? || |candidates.value| != 1 then Refused
        else Ok(Index(candidates.value[0], |children.items|))
  }

  /** Reads a body as the program does, looking at the children one by one. */
  method InspectNode(value: map<string, Value>, declared: Option<string>) returns (node: Result<Node>)
    ensures node == ReadNode(value, declared)
  {
    var kind := MediaType(value, declared);
    if Field(value, "schemaVersion") != Int(2) || !kind.Str? || kind.s !in MANIFEST_TYPES + INDEX_TYPES
       || (declared.Some? && kind.s != declared.value) {
      return Refused;
    }
    if kind.s in MANIFEST_TYPES {
      var config := ReadDescriptor(Field(value, "config"), CONFIG_TYPES);
      if "manifests" in value || !Field(value, "layers").Items? || config.Refused? {
        return Refused;
      }
      return Ok(Manifest(config.value));
    }
    var children := Field(value, "manifests");
    if "config" in value || !children.Items? || !(0 < |children.items| <= MAX_DESCRIPTORS) {
      return Refused;
    }
    var candidates := SelectCandidates(children.items);
    if candidates.Refused? || |candidates.value| != 1 {
      return Refused;
    }
    node := Ok(Index(candidates.value[0], |children.items|));
  }

  /** What was declared decides only whether a body is accepted, never what an accepted body says. */
  lemma DeclaredTypeIsIrrelevant(value: map<string, Value>, a: Option<string>, b: Option<string>)
    requires ReadNode(value, a).Ok? && ReadNode(value, b).Ok?
    ensures ReadNode(value, a) == ReadNode(value, b)
  {
    hide Candidates, ReadDescriptor;
    assert ReadDescriptor(Null, CONFIG_TYPES).Refused? by {
      NullIsNoDescriptor();
    }
    TypesDiffer();
  }

  lemma NullIsNoDescriptor()
    ensures ReadDescriptor(Null, CONFIG_TYPES).Refused?
  {
  }

  lemma TypesDiffer()
    ensures MANIFEST_TYPES !! INDEX_TYPES
  {
    assert OCI_MANIFEST[26] == 'm' && OCI_INDEX[26] == 'i';
  }

  // ----- the walk

  /** What the walk has used up: digests visited, descriptors seen and blobs read. */
  datatype Trail = Trail(visited: set<string>, descriptors: nat, loads: nat)

  datatype Found = Found(config: string, trail: Trail)

  const START := Trail({}, 0, 0)

  /** One level of the walk: the configuration, or the child to go on with. */
  datatype Level = Here(found: Found) | Deeper(next: Descriptor, trail: Trail)

  function ReadLevel(e: Env, reader: Reader, digest: string, size: Option<int>, declared: Option<string>, t: Trail)
    : (r: Result<Level>)
    requires digest !in t.visited
  {
    var value :- Load(e, reader(t.loads, digest), digest, size);
    var node :- ReadNode(value, declared);
    var seen := Trail(t.visited + {digest}, t.descriptors, t.loads + 1);
    match node
    case Manifest(config) =>
      var body :- Load(e, reader(seen.loads, config.digest), config.digest, Some(config.size));
      if IsTarget(Object(body)) then Ok(Here(Found(config.digest, seen.(loads := seen.loads + 1)))) else Refused
    case Index(next, children) =>
      if seen.descriptors + children > MAX_DESCRIPTORS then Refused
      else Ok(Deeper(next, seen.(descriptors := seen.descriptors + children)))
  }

  function Walk(e: Env, reader: Reader, digest: string, size: Option<int>, declared: Option<string>, depth: nat,
                t: Trail)
    : (r: Result<Found>)
    decreases MAX_DEPTH + 1 - depth
  {
    if depth > MAX_DEPTH || digest in t.visited then Refused
    else
      match ReadLevel(e, reader, digest, size, declared, t)
      case Refused => Refused
      case Ok(Here(found)) => Ok(found)
      case Ok(Deeper(next, trail)) => Walk(e, reader, next.digest, Some(next.size), Some(next.kind), depth + 1, trail)
  }

  // ----- the program's own walk, which keeps its trail in variables shared by all levels

  class Verifier {
    const e: Env
    const reader: Reader
    var visited: set<string>
    var descriptors: nat
    var loads: nat

    constructor (e: Env, reader: Reader)
      ensures this.e == e && this.reader == reader && Left() == START
    {
      this.e, this.reader, visited, descriptors, loads := e, reader, {}, 0, 0;
    }

    function Left(): Trail
      reads this
    {
      Trail(visited, descriptors, loads)
    }

    method LoadBlob(digest: string, size: Option<int>) returns (value: Result<map<string, Value>>)
      modifies this`loads
      ensures value == Load(e, reader(old(loads), digest), digest, size) && loads == old(loads) + 1
    {
      var read := reader(loads, digest);
      loads := loads + 1;
      value := Load(e, read, digest, size);
    }

    /** One level, on the shared trail. */
    method WalkLevel(digest: string, size: Option<int>, declared: Option<string>) returns (level: Result<Level>)
      requires digest !in visited
      modifies this
      ensures var l := ReadLevel(e, reader, digest, size, declared, old(Left()));
              && (level.Ok? <==> l.Ok?)
              && (level.Ok? ==> level == l && Left() == if l.value.Here? then l.value.found.trail else l.value.trail)
      ensures loads <= old(loads) + 2 && (level.Ok? && level.value.Deeper? ==> loads == old(loads) + 1)
    {
      hide Load, ReadNode, IsTarget;
      visited := visited + {digest};
      var value := LoadBlob(digest, size);
      if value.Refused? {
        return Refused;
      }
      var node := InspectNode(value.value, declared);
      if node.Refused? {
        return Refused;
      }
      match node.value
      case Manifest(descriptor) =>
        var body := LoadBlob(descriptor.digest, Some(descriptor.size));
        if body.Refused? || !IsTarget(Object(body.value)) {
          return Refused;
        }
        level := Ok(Here(Found(descriptor.digest, Left())));
      case Index(next, children) =>
        descriptors := descriptors + children;
        if descriptors > MAX_DESCRIPTORS {
          return Refused;
        }
        level := Ok(Deeper(next, Left()));
    }

    /** Accepts or refuses what `Walk` does, and leaves the trail that `Walk` leaves. */
    method WalkImage(digest: string, size: Option<int>, declared: Option<string>, depth: nat)
      returns (config: Result<string>)
      modifies this
      ensures var w := Walk(e, reader, digest, size, declared, depth, old(Left()));
              && (config.Ok? <==> w.Ok?)
              && (config.Ok? ==> config.value == w.value.config && Left() == w.value.trail)
      ensures loads <= old(loads) + (if depth > MAX_DEPTH then 0 else MAX_DEPTH + 2 - depth)
      decreases MAX_DEPTH + 1 - depth
    {
      if depth > MAX_DEPTH || digest in visited {
        return Refused;
      }
      ghost var before := Left();
      var level := WalkLevel(digest, size, declared);
      LevelFinds(e, reader, digest, size, declared, before);
      hide ReadLevel;
      if level.Refused? {
        return Refused;
      }
      match level.value
      case Here(found) =>
        config := Ok(found.config);
      case Deeper(next, _) =>
        config := WalkImage(next.digest, Some(next.size), Some(next.kind), depth + 1);
    }
  }

  lemma LevelFinds(e: Env, reader: Reader, digest: string, size: Option<int>, declared: Option<string>, t: Trail)
    requires digest !in t.visited
    ensures var l := ReadLevel(e, reader, digest, size, declared, t);
            l.Ok? ==> var trail := if l.value.Here? then l.value.found.trail else l.value.trail;
                      && trail.visited == t.visited + {digest}
                      && trail.loads == t.loads + (if l.value.Here? then 2 else 1)
                      && (t.descriptors <= MAX_DESCRIPTORS ==> trail.descriptors <= MAX_DESCRIPTORS)
  {
    hide Load, ReadNode, IsTarget;
  }

  // ----- what the walk establishes

  /** No two blobs that either walk was given share a digest unless they are the same. */
  ghost predicate CollisionFree(e: Env, a: Reader, b: Reader) {
    forall i, d, j, d' | a(i, d).Some? && b(j, d').Some? && e.digest(a(i, d).value) == e.digest(b(j, d').value) ::
      a(i, d) == b(j, d')
  }

  /** One level leads the same way for both readers, whatever was declared. */
  lemma LevelsAgree(e: Env, a: Reader, b: Reader, digest: string, size: Option<int>, size': Option<int>,
                    declared: Option<string>, declared': Option<string>, t: Trail, t': Trail)
    requires CollisionFree(e, a, b) && digest !in t.visited && digest !in t'.visited
    requires ReadLevel(e, a, digest, size, declared, t).Ok? && ReadLevel(e, b, digest, size', declared', t').Ok?
    ensures var l, l' := ReadLevel(e, a, digest, size, declared, t).value,
            ReadLevel(e, b, digest, size', declared', t').value;
            && (l.Here? <==> l'.Here?)
            && (l.Here? ==> l.found.config == l'.found.config)
            && (l.Deeper? ==> l.next == l'.next)
  {
    hide ReadNode, IsTarget;
    assert a(t.loads, digest) == b(t'.loads, digest);
    DeclaredTypeIsIrrelevant(Load(e, a(t.loads, digest), digest, size).value, declared, declared');
  }

  /** Whatever the readers return and whatever was declared, two walks from one digest that find a configuration find
      the same one. */
  lemma {:induction false} ConfigDeterminedByDigest(e: Env, a: Reader, b: Reader, digest: string, size: Option<int>,
                                                    size': Option<int>, declared: Option<string>,
                                                    declared': Option<string>, depth: nat, t: Trail, t': Trail)
    requires CollisionFree(e, a, b)
    requires Walk(e, a, digest, size, declared, depth, t).Ok? && Walk(e, b, digest, size', declared', depth, t').Ok?
    ensures Walk(e, a, digest, size, declared, depth, t).value.config
         == Walk(e, b, digest, size', declared', depth, t').value.config
    decreases MAX_DEPTH + 1 - depth
  {
    hide ReadLevel, CollisionFree;
    LevelsAgree(e, a, b, digest, size, size', declared, declared', t, t');
    var l, l' := ReadLevel(e, a, digest, size, declared, t).value, ReadLevel(e, b, digest, size', declared', t').value;
    if l.Deeper? {
      ConfigDeterminedByDigest(e, a, b, l.next.digest, Some(l.next.size), Some(l.next.size), Some(l.next.kind),
                               Some(l.next.kind), depth + 1, l.trail, l'.trail);
    }
  }

  /** A walk that succeeds has read one blob per level and the configuration, four in all at most, has visited no digest
      twice and has counted no more than the descriptor limit. */
  lemma {:induction false} WalkIsBounded(e: Env, reader: Reader, digest: string, size: Option<int>,
                                         declared: Option<string>, depth: nat, t: Trail)
    requires t.descriptors <= MAX_DESCRIPTORS && Walk(e, reader, digest, size, declared, depth, t).Ok?
    ensures var end := Walk(e, reader, digest, size, declared, depth, t).value.trail;
            && depth <= MAX_DEPTH && t.loads + 2 <= end.loads <= t.loads + MAX_DEPTH + 2 - depth
            && t.visited <= end.visited && |end.visited| == |t.visited| + end.loads - t.loads - 1
            && end.descriptors <= MAX_DESCRIPTORS
    decreases MAX_DEPTH + 1 - depth
  {
    hide ReadLevel;
    LevelFinds(e, reader, digest, size, declared, t);
    var l := ReadLevel(e, reader, digest, size, declared, t).value;
    if l.Deeper? {
      WalkIsBounded(e, reader, l.next.digest, Some(l.next.size), Some(l.next.kind), depth + 1, l.trail);
    }
  }

  // ----- the evidence, independently of any reader

  predicate IsObject(e: Env, blob: Bytes) {
    0 < |blob| <= MAX_BLOB && e.parse(blob).Some? && e.parse(blob).value.Object?
  }

  /** The blobs are a chain from a digest to a configuration for this platform: indexes, one manifest, the
      configuration. Every link is by digest and size, and the indexes list at most `budget` children together. */
  predicate Chain(e: Env, blobs: seq<Bytes>, digest: string, size: Option<int>, declared: Option<string>,
                  config: string,
                  budget: int)
    decreases |blobs|
  {
    && 2 <= |blobs| && IsObject(e, blobs[0]) && e.digest(blobs[0]) == digest
    && (size.Some? ==> |blobs[0]| == size.value)
    && var node := ReadNode(e.parse(blobs[0]).value.fields, declared);
    && node.Ok?
    && match node.value
       case Manifest(c) =>
         && |blobs| == 2 && c.digest == config && e.digest(blobs[1]) == config && |blobs[1]| == c.size
         && IsObject(e, blobs[1]) && IsTarget(e.parse(blobs[1]).value)
       case Index(next, children) =>
         children <= budget && Chain(e, blobs[1..], next.digest, Some(next.size), Some(next.kind), config,
                                     budget - children)
  }

  /** A walk that succeeds has seen such a chain, of at most four blobs. */
  lemma {:induction false} WalkHasEvidence(e: Env, reader: Reader, digest: string, size: Option<int>,
                                           declared: Option<string>, depth: nat, t: Trail) returns (blobs: seq<Bytes>)
    requires Walk(e, reader, digest, size, declared, depth, t).Ok? && t.descriptors <= MAX_DESCRIPTORS
    ensures Chain(e, blobs, digest, size, declared, Walk(e, reader, digest, size, declared, depth, t).value.config,
                  MAX_DESCRIPTORS - t.descriptors)
    ensures depth + |blobs| <= MAX_DEPTH + 2
    decreases MAX_DEPTH + 1 - depth
  {
    hide ReadNode, IsTarget;
    var l := ReadLevel(e, reader, digest, size, declared, t).value;
    var blob := reader(t.loads, digest).value;
    if l.Deeper? {
      var rest := WalkHasEvidence(e, reader, l.next.digest, Some(l.next.size), Some(l.next.kind), depth + 1, l.trail);
      blobs := [blob] + rest;
      assert blobs[1..] == rest;
    } else {
      blobs := [blob, reader(t.loads + 1, l.found.config).value];
    }
  }

  /** The reader delivers the blobs of the chain. */
  ghost predicate Delivers(e: Env, reader: Reader, blobs: seq<Bytes>) {
    forall k, i | 0 <= i < |blobs| :: reader(k, e.digest(blobs[i])) == Some(blobs[i])
  }

  /** No manifest or index of the chain occurs twice, or was visited before. */
  predicate Fresh(e: Env, blobs: seq<Bytes>, visited: set<string>) {
    && (forall i | 0 <= i < |blobs| - 1 :: e.digest(blobs[i]) !in visited)
    && (forall i, j | 0 <= i < j < |blobs| - 1 :: e.digest(blobs[i]) != e.digest(blobs[j]))
  }

  /** The first link of a chain is one level of the walk, and the rest is a chain again. */
  lemma LinkIsLevel(e: Env, reader: Reader, blobs: seq<Bytes>, digest: string, size: Option<int>,
                    declared: Option<string>,
                    t: Trail, config: string)
    requires Chain(e, blobs, digest, size, declared, config, MAX_DESCRIPTORS - t.descriptors)
    requires Delivers(e, reader, blobs) && Fresh(e, blobs, t.visited)
    ensures digest !in t.visited
    ensures var l := ReadLevel(e, reader, digest, size, declared, t);
            && l.Ok? && (l.value.Here? ==> l.value.found.config == config)
            && (l.value.Deeper? ==>
                  var next, trail := l.value.next, l.value.trail;
                  && |blobs| > 2 && trail.visited == t.visited + {digest}
                  && Chain(e, blobs[1..], next.digest, Some(next.size), Some(next.kind), config,
                           MAX_DESCRIPTORS - trail.descriptors))
  {
    hide ReadNode, IsTarget;
    assert reader(t.loads, digest) == Some(blobs[0]);
    assert reader(t.loads + 1, e.digest(blobs[1])) == Some(blobs[1]);
    assert e.digest(blobs[0]) !in t.visited;
  }

  lemma RestIsFresh(e: Env, reader: Reader, blobs: seq<Bytes>, visited: set<string>)
    requires |blobs| > 2 && Delivers(e, reader, blobs) && Fresh(e, blobs, visited)
    ensures Delivers(e, reader, blobs[1..]) && Fresh(e, blobs[1..], visited + {e.digest(blobs[0])})
  {
    var rest := blobs[1..];
    assert forall i | 0 <= i < |rest| :: rest[i] == blobs[i + 1];
  }

  /** Conversely a chain that is short enough is found, if the reader delivers it. */
  lemma ChainBegins(e: Env, blobs: seq<Bytes>, digest: string, size: Option<int>, declared: Option<string>,
                    config: string, budget: int)
    requires Chain(e, blobs, digest, size, declared, config, budget)
    ensures 2 <= |blobs| && e.digest(blobs[0]) == digest
  {
  }

  lemma {:induction false} ChainIsFound(e: Env, reader: Reader, blobs: seq<Bytes>, digest: string, size: Option<int>,
                                        declared: Option<string>, depth: nat, t: Trail, config: string)
    requires Chain(e, blobs, digest, size, declared, config, MAX_DESCRIPTORS - t.descriptors)
    requires depth + |blobs| <= MAX_DEPTH + 2 && Delivers(e, reader, blobs) && Fresh(e, blobs, t.visited)
    ensures Walk(e, reader, digest, size, declared, depth, t).Ok?
    ensures Walk(e, reader, digest, size, declared, depth, t).value.config == config
    decreases MAX_DEPTH + 1 - depth
  {
    hide ReadLevel, Chain, Delivers, Fresh;
    LinkIsLevel(e, reader, blobs, digest, size, declared, t, config);
    ChainBegins(e, blobs, digest, size, declared, config, MAX_DESCRIPTORS - t.descriptors);
    var l := ReadLevel(e, reader, digest, size, declared, t).value;
    if l.Deeper? {
      RestIsFresh(e, reader, blobs, t.visited);
      ChainIsFound(e, reader, blobs[1..], l.next.digest, Some(l.next.size), Some(l.next.kind), depth + 1, l.trail,
          config);
    }
  }

  // ----- verify_image

  datatype Expected = Expected(platform: string, id: string)

  /** The parts of docker's inspection that are looked at; the descriptor may be missing or null. */
  datatype Inspected = Inspected(id: string, os: string, architecture: string, descriptor: Value)

  datatype Verdict = Verified(runtime: string) | Mismatch | Error

  /** Docker's classic store: the image ID is the configuration digest, and nothing is read. */
  predicate Classic(expected: Expected, inspected: Inspected) {
    inspected.id == expected.id && inspected.descriptor.Null?
  }

  predicate Inspectable(expected: Expected, inspected: Inspected) {
    && expected.platform == "linux/amd64" && DigestOk(expected.id) && DigestOk(inspected.id)
    && inspected.os == "linux" && inspected.architecture == "amd64"
  }

  /** The walk that the inspection asks for, if its descriptor is acceptable. */
  function Inspection(e: Env, reader: Reader, inspected: Inspected): Result<Found> {
    if inspected.descriptor.Null? then Walk(e, reader, inspected.id, None, None, 0, START)
    else
      var root :- ReadDescriptor(inspected.descriptor, MANIFEST_TYPES + INDEX_TYPES);
      if root.digest != inspected.id then Refused
      else Walk(e, reader, inspected.id, Some(root.size), Some(root.kind), 0, START)
  }

  /** Accepts exactly a classic match, or a graph that leads from the runtime digest to the expected configuration; a
      mismatch is reported only for a graph that was verified in full. */
  method VerifyImage(e: Env, reader: Reader, expected: Expected, inspected: Inspected) returns (verdict: Verdict)
    ensures verdict.Verified? <==>
              Inspectable(expected, inspected)
              && (Classic(expected, inspected)
                  || (Inspection(e, reader, inspected).Ok?
                      && Inspection(e, reader, inspected).value.config == expected.id))
    ensures verdict.Verified? ==> verdict.runtime == inspected.id
    ensures verdict.Mismatch? <==>
              && Inspectable(expected, inspected) && !Classic(expected, inspected)
              && Inspection(e, reader, inspected).Ok? && Inspection(e, reader, inspected).value.config != expected.id
  {
    if !Inspectable(expected, inspected) {
      return Error;
    }
    if Classic(expected, inspected) {
      return Verified(inspected.id);
    }
    var size, declared := None, None;
    if !inspected.descriptor.Null? {
      var root := ReadDescriptor(inspected.descriptor, MANIFEST_TYPES + INDEX_TYPES);
      if root.Refused? || root.value.digest != inspected.id {
        return Error;
      }
      size, declared := Some(root.value.size), Some(root.value.kind);
    }
    var verifier := new Verifier(e, reader);
    var config := verifier.WalkImage(inspected.id, size, declared, 0);
    if config.Refused? {
      return Error;
    }
    verdict := if config.value == expected.id then Verified(inspected.id) else Mismatch;
  }

  /** Two verifications of one runtime digest that both walked the graph had the same configuration in mind, whatever
      their readers returned and whether or not their inspections declared a descriptor. */
  lemma OneConfigPerRuntime(e: Env, a: Reader, b: Reader, x: Expected, y: Expected, i: Inspected, j: Inspected)
    requires CollisionFree(e, a, b) && i.id == j.id
    requires Inspection(e, a, i).Ok? && Inspection(e, a, i).value.config == x.id
    requires Inspection(e, b, j).Ok? && Inspection(e, b, j).value.config == y.id
    ensures x.id == y.id
  {
    hide Walk, CollisionFree;
    var root, root' := ReadDescriptor(i.descriptor, MANIFEST_TYPES + INDEX_TYPES),
                       ReadDescriptor(j.descriptor, MANIFEST_TYPES + INDEX_TYPES);
    var size, declared := if i.descriptor.Null? then None else Some(root.value.size),
                          if i.descriptor.Null? then None else Some(root.value.kind);
    var size', declared' := if j.descriptor.Null? then None else Some(root'.value.size),
                            if j.descriptor.Null? then None else Some(root'.value.kind);
    ConfigDeterminedByDigest(e, a, b, i.id, size, size', declared, declared', 0, START, START);
  }

  /** The shortcut looks at no content: where an image's runtime digest leads to some other configuration, an inspection
      without a descriptor still passes for an expected image that names the runtime digest itself. */
  lemma ShortcutSkipsTheGraph(e: Env, reader: Reader, inspected: Inspected, x: Expected, y: Expected)
    requires inspected.descriptor.Null? && Inspection(e, reader, inspected).Ok?
    requires x.id == Inspection(e, reader, inspected).value.config && y.id == inspected.id
    requires Inspectable(x, inspected) && Inspectable(y, inspected)
    ensures Classic(y, inspected)
    ensures forall r: Reader | CollisionFree(e, reader, r) && Inspection(e, r, inspected).Ok? ::
              Inspection(e, r, inspected).value.config == x.id
  {
    hide Inspection;
    forall r: Reader | CollisionFree(e, reader, r) && Inspection(e, r, inspected).Ok?
      ensures Inspection(e, r, inspected).value.config == x.id
    {
      OneConfigPerRuntime(e, reader, r, x, Expected("", Inspection(e, r, inspected).value.config), inspected,
          inspected);
    }
  }
}
