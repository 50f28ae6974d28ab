/** The image archive: split into release assets where it is built, joined again where it is installed. */
module Archive {
  import opened Text
  import opened Selection

  const READ: nat := 1024 * 1024
  const PART_BYTES: nat := 1700 * 1024 * 1024
  const WHOLE := "images.tar.gz"
  const MOST_PARTS := 20

  function Min(a: nat, b: nat): nat {
    if a <= b then a else b
  }

  /** What the archive is cut into. */
  function Parts(archive: Bytes): (parts: seq<Bytes>)
    decreases |archive|
  {
    if archive == [] then []
    else [archive[..Min(PART_BYTES, |archive|)]] + Parts(archive[Min(PART_BYTES, |archive|)..])
  }

  function Concat(parts: seq<Bytes>): Bytes {
    if parts == [] then [] else Concat(parts[..|parts| - 1]) + parts[|parts| - 1]
  }

  // ----- part names

  lemma {:induction false} LeadingZeros(k: nat, s: string)
    requires Digits(s)
    ensures Digits(Zeros(k) + s) && Value(Zeros(k) + s) == Value(s)
    decreases |s|
  {
    if s == "" {
      ZeroValue(k);
      assert Zeros(k) + s == Zeros(k);
    } else {
      var init := s[..|s| - 1];
      assert (Zeros(k) + s)[..k + |s| - 1] == Zeros(k) + init;
      LeadingZeros(k, init);
    }
  }

  lemma {:induction false} ZeroValue(k: nat)
    ensures Digits(Zeros(k)) && Value(Zeros(k)) == 0
  {
    if k > 0 {
      ZeroValue(k - 1);
      assert Zeros(k)[..k - 1] == Zeros(k - 1);
    }
  }

  /** Distinct parts have distinct names, however many there are. */
  lemma PartNamesDiffer(i: nat, j: nat)
    requires PartName(i) == PartName(j)
    ensures i == j
  {
    var prefix := "images.tar.gz.part-";
    assert PartName(i)[|prefix|..] == Pad3(Decimal(i)) && PartName(j)[|prefix|..] == Pad3(Decimal(j));
    ValueOfDecimal(i);
    ValueOfDecimal(j);
    LeadingZeros(if |Decimal(i)| >= 3 then 0 else 3 - |Decimal(i)|, Decimal(i));
    LeadingZeros(if |Decimal(j)| >= 3 then 0 else 3 - |Decimal(j)|, Decimal(j));
  }

  function PartNames(n: nat): (names: seq<string>)
    ensures |names| == n && forall i | 0 <= i < n :: names[i] == PartName(i)
  {
    if n == 0 then [] else PartNames(n - 1) + [PartName(n - 1)]
  }

  // ----- splitting

  /** The files and their listed order. */
  datatype Assets = Assets(names: seq<string>, files: map<string, Bytes>)

  /** The files hold the parts under their names. */
  predicate Holds(a: Assets, parts: seq<Bytes>) {
    && a.names == PartNames(|parts|)
    && forall i | 0 <= i < |parts| :: PartName(i) in a.files && a.files[PartName(i)] == parts[i]
  }

  /** One part, read in pieces of at most a mebibyte. */
  method CopyPart(archive: Bytes, position: nat) returns (part: Bytes, next: nat)
    requires position < |archive|
    ensures next == position + Min(PART_BYTES, |archive| - position) && part == archive[position..next]
  {
    next := position + Min(READ, |archive| - position);
    part := archive[position..next];
    var remaining := PART_BYTES - |part|;
    while remaining > 0
      invariant position < next <= |archive| && part == archive[position..next]
      invariant 0 <= remaining == PART_BYTES - (next - position)
      decreases remaining
    {
      var chunk := archive[next..next + Min(Min(READ, remaining), |archive| - next)];
      if chunk == [] {
        break;
      }
      part, next, remaining := part + chunk, next + |chunk|, remaining - |chunk|;
    }
  }

  method Split(archive: Bytes) returns (a: Assets)
    ensures |archive| <= PART_BYTES ==> a == Assets([WHOLE], map[WHOLE := archive])
    ensures |archive| > PART_BYTES ==> Holds(a, Parts(archive))
  {
    if |archive| <= PART_BYTES {
      return Assets([WHOLE], map[WHOLE := archive]);
    }
    a := Assets([], map[]);
    var position, index := 0, 0;
    ghost var parts: seq<Bytes> := [];
    while position < |archive|
      invariant position <= |archive| && index == |parts| && Holds(a, parts)
      invariant Parts(archive) == parts + Parts(archive[position..])
      decreases |archive| - position
    {
      var part, next := CopyPart(archive, position);
      Slices(archive, position, next - position);
      NextPart(Parts(archive), parts, archive[position..], part, archive[next..]);
      NameIsNew(a, parts);
      a := Assets(a.names + [PartName(index)], a.files[PartName(index) := part]);
      parts, position, index := parts + [part], next, index + 1;
    }
    assert parts + [] == parts;
  }

  lemma NextPart(all: seq<Bytes>, parts: seq<Bytes>, here: Bytes, part: Bytes, rest: Bytes)
    requires all == parts + Parts(here) && here != []
    requires part == here[..Min(PART_BYTES, |here|)] && rest == here[Min(PART_BYTES, |here|)..]
    ensures all == parts + [part] + Parts(rest)
  {
    FirstPart(here);
    hide Parts;
    Associate(parts, part, Parts(rest));
  }

  lemma FirstPart(archive: Bytes)
    requires archive != []
    ensures Parts(archive) == [archive[..Min(PART_BYTES, |archive|)]] + Parts(archive[Min(PART_BYTES, |archive|)..])
  {
  }

  lemma Slices(archive: Bytes, position: nat, n: nat)
    requires position + n <= |archive|
    ensures archive[position..][..n] == archive[position..position + n]
    ensures archive[position..][n..] == archive[position + n..]
  {
  }

  lemma Associate(parts: seq<Bytes>, part: Bytes, rest: seq<Bytes>)
    ensures parts + ([part] + rest) == parts + [part] + rest
  {
  }

  lemma NameIsNew(a: Assets, parts: seq<Bytes>)
    requires Holds(a, parts)
    ensures PartName(|parts|) !in a.names
  {
    forall i | 0 <= i < |parts| ensures PartName(i) != PartName(|parts|) {
      if PartName(i) == PartName(|parts|) {
        PartNamesDiffer(i, |parts|);
      }
    }
  }

  // ----- joining

  predicate Listed(a: Assets) {
    forall name | name in a.names :: name in a.files
  }

  function Joined(names: seq<string>, files: map<string, Bytes>): Bytes
    requires forall name | name in names :: name in files
  {
    if names == [] then [] else Joined(names[..|names| - 1], files) + files[names[|names| - 1]]
  }

  method Join(a: Assets) returns (combined: Bytes)
    requires Listed(a)
    ensures combined == Joined(a.names, a.files)
  {
    combined := [];
    for k := 0 to |a.names|
      invariant combined == Joined(a.names[..k], a.files)
    {
      assert a.names[..k + 1][..k] == a.names[..k];
      combined := combined + a.files[a.names[k]];
    }
    assert a.names[..|a.names|] == a.names;
  }

  // ----- the round trip

  lemma {:induction false} JoinedIsConcat(a: Assets, parts: seq<Bytes>)
    requires Holds(a, parts)
    ensures Listed(a) && Joined(a.names, a.files) == Concat(parts) && a.names == PartNames(|parts|)
    decreases |parts|
  {
    if parts != [] {
      var n := |parts| - 1;
      JoinedIsConcat(Assets(PartNames(n), a.files), parts[..n]);
      assert a.names[..n] == PartNames(n);
    }
  }

  lemma {:induction false} ConcatFront(part: Bytes, parts: seq<Bytes>)
    ensures Concat([part] + parts) == part + Concat(parts)
    decreases |parts|
  {
    if parts == [] {
      assert [part] + parts == [part] && [part][..0] == [];
    } else {
      var n := |parts|;
      assert ([part] + parts)[..n] == [part] + parts[..n - 1];
      ConcatFront(part, parts[..n - 1]);
    }
  }

  /** The parts, in order, are the archive; each but the last is full, and none is empty. */
  lemma {:induction false} PartsAreTheArchive(archive: Bytes)
    ensures Concat(Parts(archive)) == archive
    ensures forall i | 0 <= i < |Parts(archive)| - 1 :: |Parts(archive)[i]| == 1782579200
    ensures archive != [] ==> |Parts(archive)| > 0 && 0 < |Parts(archive)[|Parts(archive)| - 1]| <= PART_BYTES
    ensures (|Parts(archive)| - 1) * PART_BYTES < |archive| || archive == []
    ensures |archive| <= |Parts(archive)| * PART_BYTES
    decreases |archive|
  {
    if archive != [] {
      var n := Min(PART_BYTES, |archive|);
      PartsAreTheArchive(archive[n..]);
      ConcatFront(archive[..n], Parts(archive[n..]));
      assert archive[..n] + archive[n..] == archive;
    }
  }

  /** Splitting and joining gives the archive back. The listed names pass the manifest check exactly if the archive fits
      in twenty parts. */
  lemma SplitJoinRoundTrip(archive: Bytes, a: Assets)
    requires |archive| <= PART_BYTES ==> a == Assets([WHOLE], map[WHOLE := archive])
    requires |archive| > PART_BYTES ==> Holds(a, Parts(archive))
    ensures Listed(a) && Joined(a.names, a.files) == archive
    ensures AssetsOk(a.names) <==> |archive| <= 20 * 1782579200
  {
    if |archive| > PART_BYTES {
      ManyAssets(archive, a, Parts(archive));
    } else {
      SingleAsset(archive);
    }
  }

  lemma ManyAssets(archive: Bytes, a: Assets, parts: seq<Bytes>)
    requires parts == Parts(archive) && |archive| > PART_BYTES && Holds(a, parts)
    ensures Listed(a) && Joined(a.names, a.files) == archive
    ensures AssetsOk(a.names) <==> |archive| <= MOST_PARTS * PART_BYTES
  {
    PartsAreTheArchive(archive);
    hide Parts, Concat, AssetsOk, PartName;
    JoinedIsConcat(a, parts);
    hide Holds, Joined, PartNames;
    Enough(|parts|, |archive|);
    NamesPass(|parts|);
  }

  lemma Enough(n: nat, length: nat)
    requires (n - 1) * PART_BYTES < length <= n * PART_BYTES && length > PART_BYTES
    ensures n > 1 && (n <= MOST_PARTS <==> length <= MOST_PARTS * PART_BYTES)
  {
  }

  lemma SingleAsset(archive: Bytes)
    ensures Joined([WHOLE], map[WHOLE := archive]) == archive && AssetsOk([WHOLE])
  {
    assert [WHOLE][..0] == [];
  }

  lemma NamesPass(n: nat)
    requires n > 1
    ensures AssetsOk(PartNames(n)) <==> n <= MOST_PARTS
  {
    hide PartName;
    assert PartNames(n) == seq(n, i requires 0 <= i => PartName(i));
  }
}
