/** Which release the updater may take next, and which manifests it accepts for it. */
module Selection {
  import opened Wrappers
  import opened Text

  type Tag = string
  type Commit = string
  type Time = int

  // ----- what the updater remembers

  datatype Status =
    | Applying | Succeeded | ManualRecoveryRequired | FailedRestored | FailedBeforeChange
    | InterruptedBeforeChange | InterruptedRestored | Rejected

  datatype Seen = Seen(commit: Commit, status: Status, published: Time)

  datatype Image = Image(platform: string, id: string, registry_digest: string, source: string)

  datatype Success = Success(
    tag: Tag, commit: Commit, published: Time, images: map<string, Image>, runtime: map<string, string>)

  /** The content of release-state.json. */
  datatype State = State(
    seen: map<Tag, Seen>, success: Option<Success>, observed: map<Tag, Commit>, attempts: map<Tag, nat>)

  // ----- choosing a release

  datatype Release = Release(tag: Tag, draft: bool, prerelease: bool, published: Time)

  predicate IsAlnum(c: char) {
    IsDigit(c) || 'a' <= c <= 'z' || 'A' <= c <= 'Z'
  }

  predicate TagOk(tag: Tag) {
    && 6 <= |tag| <= 106 && tag[..5] == "prod-" && IsAlnum(tag[5])
    && forall i | 6 <= i < |tag| :: IsAlnum(tag[i]) || tag[i] in {'.', '_', '-'}
  }

  /** A release that has not been tried and is newer than the last success. */
  predicate Candidate(r: Release, s: State) {
    && !r.draft && !r.prerelease && TagOk(r.tag) && r.tag !in s.seen
    && (s.success.Some? ==> r.published > s.success.value.published)
  }

  /** The order in which candidates are preferred: publication time, then tag. */
  predicate Before(a: Release, b: Release) {
    a.published < b.published || (a.published == b.published && Less(a.tag, b.tag))
  }

  /** Filter the candidates and keep the latest. */
  method SelectRelease(releases: seq<Release>, s: State) returns (best: Option<Release>)
    ensures best == Selected(releases, s)
  {
    best := None;
    for k := 0 to |releases|
      invariant best == Selected(releases[..k], s)
    {
      var r := releases[k];
      assert releases[..k + 1][..k] == releases[..k];
      if Candidate(r, s) && (best.None? || Before(best.value, r)) {
        best := Some(r);
      }
    }
    assert releases[..|releases|] == releases;
  }

  function Selected(releases: seq<Release>, s: State): (best: Option<Release>)
    ensures best.Some? ==> best.value in releases && Candidate(best.value, s)
  {
    if releases == [] then None
    else
      var before, r := Selected(releases[..|releases| - 1], s), releases[|releases| - 1];
      if Candidate(r, s) && (before.None? || Before(before.value, r)) then Some(r) else before
  }

  lemma {:induction false} LessTransitive(a: string, b: string, c: string)
    requires Less(a, b) && Less(b, c)
    ensures Less(a, c)
  {
    if a != "" && a[0] == b[0] == c[0] {
      LessTransitive(a[1..], b[1..], c[1..]);
    }
  }

  lemma {:induction false} LessTotal(a: string, b: string)
    ensures Less(a, b) || Less(b, a) || a == b
  {
    if a != "" && b != "" && a[0] == b[0] {
      LessTotal(a[1..], b[1..]);
      assert a == [a[0]] + a[1..] && b == [b[0]] + b[1..];
    }
  }

  lemma {:induction false} LessIrreflexive(a: string)
    ensures !Less(a, a)
  {
    if a != "" {
      LessIrreflexive(a[1..]);
    }
  }

  /** A release is selected whenever there is a candidate, and no candidate comes after the selected one. */
  lemma {:induction false} SelectedIsLatest(releases: seq<Release>, s: State)
    ensures Selected(releases, s).Some? <==> exists r :: r in releases && Candidate(r, s)
    ensures forall r | r in releases && Candidate(r, s) :: !Before(Selected(releases, s).value, r)
  {
    if releases != [] {
      var init, last := releases[..|releases| - 1], releases[|releases| - 1];
      SelectedIsLatest(init, s);
      assert releases == init + [last];
      var best := Selected(releases, s);
      forall r | r in releases && Candidate(r, s) ensures best.Some? && !Before(best.value, r) {
        LessIrreflexive(r.tag);
        if r in init && best == Some(last) && Selected(init, s).Some? && Before(last, r) {
          NotBefore(Selected(init, s).value, last, r);
        }
      }
    }
  }

  /** There is only one such candidate: whichever no other comes after is the one that is selected. */
  lemma SelectedIsUnique(releases: seq<Release>, s: State, r: Release)
    requires r in releases && Candidate(r, s)
    requires forall other | other in releases && Candidate(other, s) :: !Before(r, other)
    ensures Selected(releases, s) == Some(r)
  {
    SelectedIsLatest(releases, s);
    var best := Selected(releases, s).value;
    assert !Before(best, r) && !Before(r, best);
    LessTotal(best.tag, r.tag);
  }

  lemma NotBefore(a: Release, b: Release, c: Release)
    requires Before(a, b) && Before(b, c)
    ensures Before(a, c)
  {
    if a.published == b.published == c.published {
      LessTransitive(a.tag, b.tag, c.tag);
    }
  }

  // ----- accepting a manifest

  datatype CoreUpdate = CoreUpdate(
    from_source: string, to_source: string, from_php: string, to_php: string, nextcloud_version: string,
    dockerfile_commit: string)

  datatype Manifest = Manifest(
    schema: int, repo: string, tag: Tag, commit: Commit, platform: string, nextcloud_major: int,
    images: map<string, Image>, core_update: Option<CoreUpdate>, image_assets: seq<string>)

  const FROM_SOURCE := "nextcloud:34.0.4-apache"
  const TO_SOURCE := "ghcr.io/liugang926/nextcloud-production-core:34.0.4-php8.5.12-r1"

  const CORE_UPDATE := CoreUpdate(FROM_SOURCE, TO_SOURCE, "8.5.11", "8.5.12", "34.0.4",
                                  "a1206d2467689ecb8597b7e5b753b49dda29b773")

  const CORE := "nextcloud"

  predicate CommitOk(c: Commit) {
    |c| == 40 && forall i | 0 <= i < |c| :: IsHex(c[i])
  }

  predicate RegistryOk(d: string) {
    && |d| > 72 && d[|d| - 72] == '@' && DigestOk(d[|d| - 71..])
    && forall i | 0 <= i < |d| - 72 :: IsDigit(d[i]) || 'a' <= d[i] <= 'z' || d[i] in {'.', '/', ':', '_', '-'}
  }

  /** The one reviewed change of the Nextcloud core image. */
  predicate ApprovedCoreTransition(previous: Image, next: Image, m: Manifest) {
    && previous.id != next.id && previous.source == FROM_SOURCE && next.source == TO_SOURCE
    && m.core_update == Some(CORE_UPDATE)
  }

  /** The core stays the same image, or makes the reviewed change. */
  predicate CoreOk(previous: Image, next: Image, m: Manifest) {
    previous.id == next.id || ApprovedCoreTransition(previous, next, m)
  }

  /** Name of part `i` of a split archive. */
  function PartName(i: nat): string {
    "images.tar.gz.part-" + Pad3(Decimal(i))
  }

  function Pad3(s: string): string {
    if |s| >= 3 then s else Zeros(3 - |s|) + s
  }

  predicate AssetsOk(assets: seq<string>) {
    && 0 < |assets| <= 20
    && (assets == ["images.tar.gz"] || assets == seq(|assets|, i requires 0 <= i => PartName(i)))
  }

  predicate IdentityOk(m: Manifest, repo: string, r: Release, commit: Commit, s: State) {
    && m.schema == 1 && m.repo == repo && m.tag == r.tag
    && CommitOk(commit) && m.commit == commit
    && m.platform == "linux/amd64" && m.nextcloud_major == 34
    && (r.tag in s.seen ==> s.seen[r.tag].commit == commit)
    && (s.success.Some? ==> r.published > s.success.value.published)
  }

  predicate ImagesOk(m: Manifest) {
    && m.images.Keys == {CORE, "postgres", "redis", "office", "proxy"}
    && (forall name | name in m.images ::
          && m.images[name].platform == "linux/amd64" && DigestOk(m.images[name].id)
          && RegistryOk(m.images[name].registry_digest))
    && m.images["postgres"].source == "postgres:16-alpine"
    && m.images["redis"].source == "redis:7-alpine"
    && m.images["office"].source == "collabora/code:26.04.2.4.1"
    && m.images["proxy"].source == "nginx:1.30.3-alpine"
  }

  predicate ManifestOk(m: Manifest, repo: string, r: Release, commit: Commit, s: State) {
    && IdentityOk(m, repo, r, commit, s)
    && ImagesOk(m)
    && CORE in m.images && m.images[CORE].source == TO_SOURCE && m.core_update == Some(CORE_UPDATE)
    && (s.success.Some? ==> CORE in s.success.value.images
                            && CoreOk(s.success.value.images[CORE], m.images[CORE], m))
    && AssetsOk(m.image_assets)
  }
}
