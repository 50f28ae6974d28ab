/** Why a release, its commit or its manifest is not taken, on the fields themselves and in the order of the checks. */
module OfferFaults {
  import opened Wrappers
  import opened Text
  import opened Formats
  import opened Selection
  import opened Updater

  datatype Fault =
    | NoFault | NotForProduction | InvalidTag | AlreadySeen | NotNewer | InvalidCommit | ChangedCommit | Unmerged
    | NotDescended | InvalidBaseline | UnknownSchema | OtherRelease | OtherCommit | OtherPlatform | SeenCommit
    | WrongImages | InvalidImage | ChangedSource | ChangedTransition | ChangedCore | InvalidAssets

  // ----- the release

  /** prod-, a letter or digit, and up to a hundred more characters that may also be dots, underscores and hyphens. */
  ghost predicate ProductionTag(tag: string) {
    exists first, rest ::
      tag == "prod-" + first + rest && Drawn(first, LETTERS, 1, 1) && Drawn(rest, LETTERS + "._-", 0, 100)
  }

  ghost function ReleaseFault(rel: Selection.Release, s: State): Fault {
    if rel.draft || rel.prerelease then NotForProduction
    else if !ProductionTag(rel.tag) then InvalidTag
    else if rel.tag in s.seen then AlreadySeen
    else if s.success.Some? && s.success.value.published >= rel.published then NotNewer
    else NoFault
  }

  lemma TagAlphabet()
    ensures forall c: char :: c in LETTERS <==> IsAlnum(c)
  {
    forall c: char ensures IsAlnum(c) <==> c in LETTERS {
      LetterAlphabet(c);
    }
  }

  lemma TagIsProduction(tag: string, letters: string)
    requires TagOk(tag) && forall c: char :: c in letters <==> IsAlnum(c)
    ensures tag == "prod-" + tag[5..6] + tag[6..]
    ensures Drawn(tag[5..6], letters, 1, 1) && Drawn(tag[6..], letters + "._-", 0, 100)
  {
    hide IsAlnum;
    var rest := tag[6..];
    assert tag == tag[..5] + tag[5..6] + rest;
    forall i | 0 <= i < |rest| ensures rest[i] in letters + "._-" {
      assert rest[i] == tag[i + 6];
      WithExtras(rest[i], letters, "._-");
    }
  }

  lemma ProductionIsTag(tag: string, first: string, rest: string, letters: string)
    requires forall c: char :: c in letters <==> IsAlnum(c)
    requires tag == "prod-" + first + rest && Drawn(first, letters, 1, 1) && Drawn(rest, letters + "._-", 0, 100)
    ensures TagOk(tag)
  {
    hide IsAlnum;
    assert tag[..5] == "prod-" && tag[5] == first[0] && |tag| == 6 + |rest|;
    forall i | 6 <= i < |tag| ensures IsAlnum(tag[i]) || tag[i] in {'.', '_', '-'} {
      assert tag[i] == rest[i - 6];
      WithExtras(rest[i - 6], letters, "._-");
    }
  }

  lemma TagExactly(tag: string)
    ensures TagOk(tag) <==> ProductionTag(tag)
  {
    TagAlphabet();
    hide TagOk, IsAlnum;
    if TagOk(tag) {
      TagIsProduction(tag, LETTERS);
    }
    if ProductionTag(tag) {
      var first, rest :|
        tag == "prod-" + first + rest && Drawn(first, LETTERS, 1, 1) && Drawn(rest, LETTERS + "._-", 0, 100);
      ProductionIsTag(tag, first, rest, LETTERS);
    }
  }

  /** A release is a candidate if and only if it has no fault. */
  lemma CandidateExactly(rel: Selection.Release, s: State)
    ensures Candidate(rel, s) <==> ReleaseFault(rel, s).NoFault?
  {
    TagExactly(rel.tag);
    hide TagOk, ProductionTag;
  }

  /** The selected release is the one published last; among those published together, the one with the greatest tag. */
  lemma SelectedIsNewest(releases: seq<Selection.Release>, s: State, other: Selection.Release)
    requires other in releases && ReleaseFault(other, s).NoFault?
    ensures Selected(releases, s).Some? && ReleaseFault(Selected(releases, s).value, s).NoFault?
    ensures var best := Selected(releases, s).value;
            && other.published <= best.published
            && (other.published == best.published ==> other.tag == best.tag || Precedes(other.tag, best.tag))
  {
    CandidateExactly(other, s);
    SelectedIsLatest(releases, s);
    var best := Selected(releases, s).value;
    CandidateExactly(best, s);
    OrderExactly(best.tag, other.tag);
    OrderExactly(other.tag, best.tag);
    LessTotal(best.tag, other.tag);
    hide ReleaseFault, Candidate, Selected, Precedes;
  }

  // ----- its commit

  /** A commit for a tag, on a host with this state and this deployment. */
  ghost function CommitFault(r: Repo, s: State, d: Disk, tag: Tag, commit: Commit): Fault {
    if !Drawn(commit, HEX, 40, 40) then InvalidCommit
    else if tag in s.observed && s.observed[tag] != commit then ChangedCommit
    else AncestryFault(r, s, d, commit)
  }

  /** The commit must be merged, and descend from what is deployed. */
  ghost function AncestryFault(r: Repo, s: State, d: Disk, commit: Commit): Fault {
    if (commit, r.main) !in r.ancestors then Unmerged
    else if s.success.Some? then
      if (s.success.value.commit, commit) !in r.ancestors then NotDescended else NoFault
    else if d.current.None? then NoFault
    else if d.current.value !in d.manifests then InvalidBaseline
    else
      var baseline := d.manifests[d.current.value];
      if baseline.repo != r.name || !Drawn(baseline.commit, HEX, 40, 40) then InvalidBaseline
      else if (baseline.commit, commit) !in r.ancestors then NotDescended
      else NoFault
  }

  lemma CommitExactly(c: Commit)
    ensures CommitOk(c) <==> Drawn(c, HEX, 40, 40)
  {
    forall i | 0 <= i < |c| ensures IsHex(c[i]) <==> c[i] in HEX {
      HexAlphabet(c[i]);
    }
  }

  lemma AncestryExactly(r: Repo, s: State, d: Disk, commit: Commit)
    ensures Descendant(r, s, d, commit) <==> AncestryFault(r, s, d, commit).NoFault?
  {
    if d.current.Some? && d.current.value in d.manifests {
      CommitExactly(d.manifests[d.current.value].commit);
    }
    hide CommitOk, Drawn;
  }

  // ----- its manifest

  /** A reference into a registry, pinned by a digest. */
  ghost predicate Pinned(d: string) {
    exists name, digest ::
      d == name + "@" + digest && IsDigest(digest) && Drawn(name, LOWER + DIGITS + "./:_-", 1, |d|)
  }

  ghost predicate ImageFaulty(i: Image) {
    i.platform != "linux/amd64" || !IsDigest(i.id) || !Pinned(i.registry_digest)
  }

  /** The core image is another one, and the change is not the reviewed one. */
  predicate CoreChanged(before: Image, now: Image) {
    && before.id != now.id
    && !(before.source == "nextcloud:34.0.4-apache"
         && now.source == "ghcr.io/liugang926/nextcloud-production-core:34.0.4-php8.5.12-r1")
  }

  predicate AssetsFaulty(assets: seq<string>) {
    && assets != ["images.tar.gz"]
    && (|assets| == 0 || |assets| > 20
        || exists i | 0 <= i < |assets| :: assets[i] != "images.tar.gz.part-" + ThreeDigits(i))
  }

  /** A number below a thousand, in three digits. */
  function ThreeDigits(i: nat): string {
    if i < 10 then "00" + Decimal(i) else if i < 100 then "0" + Decimal(i) else Decimal(i)
  }

  ghost function ManifestFault(m: Manifest, repo: string, rel: Selection.Release, commit: Commit, s: State): Fault {
    if m.schema != 1 then UnknownSchema
    else if m.repo != repo || m.tag != rel.tag then OtherRelease
    else if !Drawn(commit, HEX, 40, 40) || m.commit != commit then OtherCommit
    else if m.platform != "linux/amd64" || m.nextcloud_major != 34 then OtherPlatform
    else if rel.tag in s.seen && s.seen[rel.tag].commit != commit then SeenCommit
    else if s.success.Some? && s.success.value.published >= rel.published then NotNewer
    else if m.images.Keys != {"nextcloud", "postgres", "redis", "office", "proxy"} then WrongImages
    else if exists name | name in m.images :: ImageFaulty(m.images[name]) then InvalidImage
    else if m.images["nextcloud"].source != "ghcr.io/liugang926/nextcloud-production-core:34.0.4-php8.5.12-r1"
      then ChangedSource
    else if m.core_update != Some(CoreUpdate(
              "nextcloud:34.0.4-apache", "ghcr.io/liugang926/nextcloud-production-core:34.0.4-php8.5.12-r1", "8.5.11",
              "8.5.12", "34.0.4", "a1206d2467689ecb8597b7e5b753b49dda29b773")) then ChangedTransition
    else if m.images["postgres"].source != "postgres:16-alpine" || m.images["redis"].source != "redis:7-alpine"
      then ChangedSource
    else if m.images["office"].source != "collabora/code:26.04.2.4.1" then ChangedSource
    else if m.images["proxy"].source != "nginx:1.30.3-alpine" then ChangedSource
    else if s.success.Some? && "nextcloud" !in s.success.value.images then ChangedCore
    else if s.success.Some? && CoreChanged(s.success.value.images["nextcloud"], m.images["nextcloud"]) then ChangedCore
    else if AssetsFaulty(m.image_assets) then InvalidAssets
    else NoFault
  }

  lemma PinnedExactly(d: string)
    ensures RegistryOk(d) <==> Pinned(d)
  {
    forall c: char
      ensures c in LOWER + DIGITS + "./:_-"
         <==> IsDigit(c) || 'a' <= c <= 'z' || c in {'.', '/', ':', '_', '-'}
    {
      LowerAlphabet(c);
      DigitAlphabet(c);
      WithExtras(c, LOWER, DIGITS);
      WithExtras(c, LOWER + DIGITS, "./:_-");
    }
    hide IsDigit;
    if RegistryOk(d) {
      var name, digest := d[..|d| - 72], d[|d| - 71..];
      DigestIsExactly(digest);
      assert d == name + "@" + digest;
      assert Drawn(name, LOWER + DIGITS + "./:_-", 1, |d|);
    }
    if Pinned(d) {
      var name, digest :|
        d == name + "@" + digest && IsDigest(digest) && Drawn(name, LOWER + DIGITS + "./:_-", 1, |d|);
      DigestIsExactly(digest);
      assert |digest| == 71 && d[|d| - 71..] == digest && d[|d| - 72] == '@';
      assert forall i | 0 <= i < |d| - 72 :: d[i] == name[i];
    }
  }

  lemma ThreeDigitsExactly(i: nat)
    requires i < 1000
    ensures Pad3(Decimal(i)) == ThreeDigits(i)
  {
    if i < 10 {
      assert Zeros(2) == "0" + Zeros(1) && Zeros(1) == "0" + Zeros(0);
    } else if i < 100 {
      assert |Decimal(i)| == 2;
      assert Zeros(1) == "0" + Zeros(0);
    } else {
      assert |Decimal(i / 10)| >= 2;
    }
  }

  /** The parts of a split archive, by name. */
  lemma PartNameExactly(i: nat)
    requires i < 1000
    ensures PartName(i) == "images.tar.gz.part-" + ThreeDigits(i)
  {
    ThreeDigitsExactly(i);
  }

  lemma AssetsExactly(assets: seq<string>)
    ensures AssetsOk(assets) <==> !AssetsFaulty(assets)
  {
    forall i | 0 <= i < 20 ensures PartName(i) == "images.tar.gz.part-" + ThreeDigits(i) {
      PartNameExactly(i);
    }
    hide PartName, ThreeDigits;
    if 0 < |assets| <= 20 {
      var parts := seq(|assets|, i requires 0 <= i => PartName(i));
      if forall i | 0 <= i < |assets| :: assets[i] == PartName(i) {
        assert assets == parts;
      } else {
        var i :| 0 <= i < |assets| && assets[i] != PartName(i);
        assert parts[i] == PartName(i);
      }
    }
  }

  lemma ImagesExactly(m: Selection.Manifest)
    requires m.images.Keys == {"nextcloud", "postgres", "redis", "office", "proxy"}
    ensures (forall name | name in m.images ::
               && m.images[name].platform == "linux/amd64" && DigestOk(m.images[name].id)
               && RegistryOk(m.images[name].registry_digest))
       <==> !exists name | name in m.images :: ImageFaulty(m.images[name])
  {
    forall name | name in m.images
      ensures DigestOk(m.images[name].id) <==> IsDigest(m.images[name].id)
      ensures RegistryOk(m.images[name].registry_digest) <==> Pinned(m.images[name].registry_digest)
    {
      DigestIsExactly(m.images[name].id);
      PinnedExactly(m.images[name].registry_digest);
    }
    hide DigestOk, IsDigest, RegistryOk, Pinned;
  }

  /** A manifest is accepted if and only if it has no fault. */
  lemma ManifestExactly(m: Selection.Manifest, repo: string, rel: Selection.Release, commit: Commit, s: State)
    ensures ManifestOk(m, repo, rel, commit, s) <==> ManifestFault(m, repo, rel, commit, s).NoFault?
  {
    CommitExactly(commit);
    AssetsExactly(m.image_assets);
    if m.images.Keys == {"nextcloud", "postgres", "redis", "office", "proxy"} {
      ImagesExactly(m);
    }
    hide CommitOk, Drawn, AssetsOk, AssetsFaulty, DigestOk, RegistryOk, ImageFaulty;
  }
}
