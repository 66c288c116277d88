/**
 Manifest snapshot validation: a recorded snapshot is fresh when its digests, resolved against the
 workspace root and sorted, equal the digests of a live walk, and no walk diagnostic touches it.
 */
module ManifestValidation {
  import opened Wrappers
  import opened Ordering

  /** A path is its components; an absolute one starts with the root directory. */
  datatype Component = RootDir | Normal(name: string)

  type Path = seq<Component>

  datatype FileDigest = FileDigest(path: Path, sizeBytes: nat, mtimeNs: Option<nat>, hash: string)

  datatype FileMetadataDigest = FileMetadataDigest(path: Path, sizeBytes: nat, mtimeNs: Option<nat>)

  /** A live walk: the files it saw, and the path, if any, of each of its diagnostics. */
  datatype BuildOutput<D> = BuildOutput(entries: seq<D>, diagnostics: seq<Option<Path>>)

  // ---- the orderings ----

  function CompareComponent(a: Component, b: Component): Ordering {
    match (a, b)
    case (RootDir, RootDir) => Equal
    case (RootDir, Normal(_)) => Less
    case (Normal(_), RootDir) => Greater
    case (Normal(x), Normal(y)) => CompareSeq(CompareChar, x, y)
  }

  function ComparePath(a: Path, b: Path): Ordering {
    CompareSeq(CompareComponent, a, b)
  }

  function FileMetadataDigestOrder(left: FileMetadataDigest, right: FileMetadataDigest): Ordering {
    ComparePath(left.path, right.path)
    .Then(CompareNat(left.sizeBytes, right.sizeBytes))
    .Then(CompareOption(left.mtimeNs, right.mtimeNs))
  }

  function FileDigestOrder(left: FileDigest, right: FileDigest): Ordering {
    ComparePath(left.path, right.path)
    .Then(CompareNat(left.sizeBytes, right.sizeBytes))
    .Then(CompareOption(left.mtimeNs, right.mtimeNs))
    .Then(CompareSeq(CompareChar, left.hash, right.hash))
  }

  lemma NamesOrdered(a: string, b: string, c: string)
    ensures OrderedTriple((x, y) => CompareSeq(CompareChar, x, y), a, b, c)
  {
    assert IsOrder(CompareChar);
    CompareSeqOrdered(CompareChar, a, b, c);
  }

  lemma ComponentsOrdered()
    ensures IsOrder(CompareComponent)
  {
    forall a, b, c
      ensures OrderedTriple(CompareComponent, a, b, c)
    {
      NamesOrdered(
        if a.Normal? then a.name else "",
        if b.Normal? then b.name else "",
        if c.Normal? then c.name else "");
    }
  }

  lemma PathsOrdered(a: Path, b: Path, c: Path)
    ensures OrderedTriple(ComparePath, a, b, c)
  {
    ComponentsOrdered();
    CompareSeqOrdered(CompareComponent, a, b, c);
  }

  lemma FieldsOrdered(a: FileMetadataDigest, b: FileMetadataDigest, c: FileMetadataDigest)
    ensures OrderedTriple(FileMetadataDigestOrder, a, b, c)
  {
    PathsOrdered(a.path, b.path, c.path);
    PathsOrdered(b.path, c.path, a.path);
    PathsOrdered(a.path, c.path, b.path);
  }

  /** The three-field ordering ties only equal digests. */
  lemma MetadataDigestsOrdered()
    ensures IsOrder(FileMetadataDigestOrder)
  {
    forall a, b, c
      ensures OrderedTriple(FileMetadataDigestOrder, a, b, c)
    {
      FieldsOrdered(a, b, c);
    }
  }

  /** The four-field ordering ties only equal digests. */
  lemma FileDigestsOrdered()
    ensures IsOrder(FileDigestOrder)
  {
    hide FileMetadataDigestOrder, FileDigestOrder;
    forall a, b, c
      ensures OrderedTriple(FileDigestOrder, a, b, c)
    {
      FieldsOrdered(MetadataOf(a), MetadataOf(b), MetadataOf(c));
      FieldsOrdered(MetadataOf(b), MetadataOf(c), MetadataOf(a));
      FieldsOrdered(MetadataOf(a), MetadataOf(c), MetadataOf(b));
      NamesOrdered(a.hash, b.hash, c.hash);
      HashBreaksTies(a, b);
      HashBreaksTies(b, a);
      HashBreaksTies(b, c);
      HashBreaksTies(a, c);
    }
  }

  lemma HashBreaksTies(a: FileDigest, b: FileDigest)
    ensures FileDigestOrder(a, b) ==
              FileMetadataDigestOrder(MetadataOf(a), MetadataOf(b)).Then(CompareSeq(CompareChar, a.hash, b.hash))
  {}

  // ---- the orders they are ----

  predicate CharBefore(a: char, b: char) {
    a < b
  }

  ghost predicate NameBefore(a: string, b: string) {
    Lexicographic(CharBefore, a, b)
  }

  /** The root directory comes before every name. */
  ghost predicate ComponentBefore(a: Component, b: Component) {
    b.Normal? && (a.RootDir? || NameBefore(a.name, b.name))
  }

  ghost predicate PathBefore(a: Path, b: Path) {
    Lexicographic((x, y) => ComponentBefore(x, y), a, b)
  }

  /** Smaller path first; then smaller size; then no time or the earlier one. */
  ghost predicate MetadataBefore(a: FileMetadataDigest, b: FileMetadataDigest) {
    PathBefore(a.path, b.path) || (a.path == b.path &&
    (a.sizeBytes < b.sizeBytes || (a.sizeBytes == b.sizeBytes &&
    (b.mtimeNs.Some? && (a.mtimeNs.None? || a.mtimeNs.value < b.mtimeNs.value)))))
  }

  /** And then the smaller hash. */
  ghost predicate DigestBefore(a: FileDigest, b: FileDigest) {
    || MetadataBefore(MetadataOf(a), MetadataOf(b))
    || (a.path == b.path && a.sizeBytes == b.sizeBytes && a.mtimeNs == b.mtimeNs && NameBefore(a.hash, b.hash))
  }

  lemma NamesCompare(a: string, b: string)
    ensures CompareSeq(CompareChar, a, b) == Less <==> NameBefore(a, b)
    ensures CompareSeq(CompareChar, a, b) == Equal <==> a == b
  {
    assert Compares(CompareChar, CharBefore);
    CompareSeqMeans(CompareChar, CharBefore, a, b);
  }

  lemma PathsCompare(a: Path, b: Path)
    ensures ComparePath(a, b) == Less <==> PathBefore(a, b)
    ensures ComparePath(a, b) == Equal <==> a == b
  {
    var before := (x, y) => ComponentBefore(x, y);
    forall x, y
      ensures CompareComponent(x, y) == Less <==> before(x, y)
      ensures CompareComponent(x, y) == Equal <==> x == y
    {
      if x.Normal? && y.Normal? {
        NamesCompare(x.name, y.name);
      }
    }
    assert Compares(CompareComponent, before);
    CompareSeqMeans(CompareComponent, before, a, b);
  }

  lemma MetadataCompare(a: FileMetadataDigest, b: FileMetadataDigest)
    ensures FileMetadataDigestOrder(a, b) == Less <==> MetadataBefore(a, b)
    ensures FileMetadataDigestOrder(a, b) == Equal <==> a == b
  {
    PathsCompare(a.path, b.path);
    hide ComparePath, PathBefore;
  }

  lemma DigestsCompare(a: FileDigest, b: FileDigest)
    ensures FileDigestOrder(a, b) == Less <==> DigestBefore(a, b)
    ensures FileDigestOrder(a, b) == Equal <==> a == b
  {
    MetadataCompare(MetadataOf(a), MetadataOf(b));
    NamesCompare(a.hash, b.hash);
    HashBreaksTies(a, b);
    hide FileMetadataDigestOrder, FileDigestOrder, MetadataBefore, NameBefore;
  }

  // ---- resolving paths ----

  predicate IsAbsolute(path: Path) {
    path != [] && path[0] == RootDir
  }

  /** The place a path stands for: an absolute one itself, a relative one under the root. */
  function Resolve(root: Path, path: Path): Path {
    if path != [] && path[0].RootDir? then path else root + path
  }

  /** A relative path is always inside the root; an absolute one is when it goes through the root. */
  predicate Inside(root: Path, path: Path) {
    path != [] && path[0].RootDir? ==> root <= path
  }

  function NormalizePath(root: Path, path: Path): (r: Option<Path>)
    ensures r.Some? <==> Inside(root, path)
    ensures r.Some? ==> r.value == Resolve(root, path)
  {
    var normalized := if IsAbsolute(path) then path else root + path;
    if root <= normalized then Some(normalized) else None
  }

  /** Every digest with its path resolved against the root. */
  function Rebased(root: Path, digests: seq<FileDigest>): (r: seq<FileDigest>)
    ensures |r| == |digests|
  {
    seq(|digests|, i requires 0 <= i < |digests| => digests[i].(path := Resolve(root, digests[i].path)))
  }

  function RebasedMetadata(root: Path, digests: seq<FileMetadataDigest>): (r: seq<FileMetadataDigest>)
    ensures |r| == |digests|
  {
    seq(|digests|, i requires 0 <= i < |digests| => digests[i].(path := Resolve(root, digests[i].path)))
  }

  ghost predicate AllInside(root: Path, digests: seq<FileDigest>) {
    forall i :: 0 <= i < |digests| ==> Inside(root, digests[i].path)
  }

  ghost predicate AllMetadataInside(root: Path, digests: seq<FileMetadataDigest>) {
    forall i :: 0 <= i < |digests| ==> Inside(root, digests[i].path)
  }

  /** The digests a snapshot is remembered as: resolved and sorted. */
  function Normalized(root: Path, digests: seq<FileDigest>): seq<FileDigest> {
    SortBy(FileDigestOrder, Rebased(root, digests))
  }

  function NormalizedMetadata(root: Path, digests: seq<FileMetadataDigest>): seq<FileMetadataDigest> {
    SortBy(FileMetadataDigestOrder, RebasedMetadata(root, digests))
  }

  method NormalizedManifestFileDigests(root: Path, digests: seq<FileDigest>) returns (r: Option<seq<FileDigest>>)
    ensures r.Some? <==> AllInside(root, digests)
    ensures r.Some? ==> r.value == Normalized(root, digests)
  {
    var normalized: seq<FileDigest> := [];
    for i := 0 to |digests|
      invariant normalized == Rebased(root, digests)[..i]
      invariant forall j :: 0 <= j < i ==> Inside(root, digests[j].path)
    {
      var path := NormalizePath(root, digests[i].path);
      if path.None? {
        return None;
      }
      normalized := normalized + [FileDigest(path.value, digests[i].sizeBytes, digests[i].mtimeNs, digests[i].hash)];
    }
    assert Rebased(root, digests)[..|digests|] == Rebased(root, digests);
    normalized := SortBy(FileDigestOrder, normalized);
    return Some(normalized);
  }

  method NormalizedManifestDigests(root: Path, digests: seq<FileMetadataDigest>)
    returns (r: Option<seq<FileMetadataDigest>>)
    ensures r.Some? <==> AllMetadataInside(root, digests)
    ensures r.Some? ==> r.value == NormalizedMetadata(root, digests)
  {
    var normalized: seq<FileMetadataDigest> := [];
    for i := 0 to |digests|
      invariant normalized == RebasedMetadata(root, digests)[..i]
      invariant forall j :: 0 <= j < i ==> Inside(root, digests[j].path)
    {
      var path := NormalizePath(root, digests[i].path);
      if path.None? {
        return None;
      }
      normalized := normalized + [FileMetadataDigest(path.value, digests[i].sizeBytes, digests[i].mtimeNs)];
    }
    assert RebasedMetadata(root, digests)[..|digests|] == RebasedMetadata(root, digests);
    normalized := SortBy(FileMetadataDigestOrder, normalized);
    return Some(normalized);
  }

  function MetadataOf(digest: FileDigest): FileMetadataDigest {
    FileMetadataDigest(digest.path, digest.sizeBytes, digest.mtimeNs)
  }

  function FileMetadataDigests(digests: seq<FileDigest>): (r: seq<FileMetadataDigest>)
    ensures |r| == |digests|
  {
    seq(|digests|, i requires 0 <= i < |digests| => MetadataOf(digests[i]))
  }

  /** The digests remembered are the snapshot's, each at the place its path stands for, in ascending order. */
  lemma NormalizedAscends(root: Path, digests: seq<FileDigest>)
    ensures multiset(Normalized(root, digests)) == multiset(Rebased(root, digests))
    ensures var r := Normalized(root, digests);
      forall i, j :: 0 <= i < j < |r| ==> r[i] == r[j] || DigestBefore(r[i], r[j])
  {
    FileDigestsOrdered();
    SortBySorts(FileDigestOrder, Rebased(root, digests));
    var r := Normalized(root, digests);
    hide Normalized, DigestBefore, FileDigestOrder;
    forall i, j | 0 <= i < j < |r|
      ensures r[i] == r[j] || DigestBefore(r[i], r[j])
    {
      DigestsCompare(r[i], r[j]);
    }
  }

  lemma NormalizedMetadataAscends(root: Path, digests: seq<FileMetadataDigest>)
    ensures multiset(NormalizedMetadata(root, digests)) == multiset(RebasedMetadata(root, digests))
    ensures var r := NormalizedMetadata(root, digests);
      forall i, j :: 0 <= i < j < |r| ==> r[i] == r[j] || MetadataBefore(r[i], r[j])
  {
    MetadataDigestsOrdered();
    SortBySorts(FileMetadataDigestOrder, RebasedMetadata(root, digests));
    var r := NormalizedMetadata(root, digests);
    hide NormalizedMetadata, MetadataBefore, FileMetadataDigestOrder;
    forall i, j | 0 <= i < j < |r|
      ensures r[i] == r[j] || MetadataBefore(r[i], r[j])
    {
      MetadataCompare(r[i], r[j]);
    }
  }

  // ---- diagnostics ----

  predicate DiagnosticInvalidates(root: Path, snapshotPaths: set<Path>, diagnostic: Option<Path>) {
    diagnostic.None? ||
    var path := NormalizePath(root, diagnostic.value);
    path.None? || path.value in snapshotPaths
  }

  predicate DiagnosticsInvalidateSnapshot(root: Path, snapshot: seq<FileMetadataDigest>,
                                          diagnostics: seq<Option<Path>>) {
    diagnostics != [] &&
    var snapshotPaths := set i | 0 <= i < |snapshot| :: snapshot[i].path;
    exists i :: 0 <= i < |diagnostics| && DiagnosticInvalidates(root, snapshotPaths, diagnostics[i])
  }

  /** A diagnostic about a place inside the root at which the snapshot has no file. */
  ghost predicate Harmless(root: Path, files: seq<Path>, diagnostic: Option<Path>) {
    diagnostic.Some? && Inside(root, diagnostic.value) && Resolve(root, diagnostic.value) !in files
  }

  function PathsOf(digests: seq<FileMetadataDigest>): (r: seq<Path>)
    ensures |r| == |digests|
  {
    seq(|digests|, i requires 0 <= i < |digests| => digests[i].path)
  }

  ghost predicate AllHarmless(root: Path, files: seq<Path>, diagnostics: seq<Option<Path>>) {
    forall i :: 0 <= i < |diagnostics| ==> Harmless(root, files, diagnostics[i])
  }

  // ---- validation ----

  /** What freshness means: the same digests, however often and in whatever order each was listed. */
  ghost predicate Fresh(root: Path, snapshot: seq<FileDigest>, live: BuildOutput<FileDigest>) {
    && AllInside(root, snapshot)
    && AllInside(root, live.entries)
    && AllHarmless(root, PathsOf(FileMetadataDigests(Rebased(root, snapshot))), live.diagnostics)
    && multiset(Rebased(root, snapshot)) == multiset(Rebased(root, live.entries))
  }

  ghost predicate FreshMetadata(root: Path, snapshot: seq<FileMetadataDigest>, live: BuildOutput<FileMetadataDigest>) {
    && AllMetadataInside(root, snapshot)
    && AllMetadataInside(root, live.entries)
    && AllHarmless(root, PathsOf(RebasedMetadata(root, snapshot)), live.diagnostics)
    && multiset(RebasedMetadata(root, snapshot)) == multiset(RebasedMetadata(root, live.entries))
  }

  method ValidateFileDigests(root: Path, snapshot: seq<FileDigest>, live: BuildOutput<FileDigest>)
    returns (r: Option<seq<FileDigest>>)
    ensures r.Some? <==> Fresh(root, snapshot, live)
    ensures r.Some? ==> r.value == Normalized(root, snapshot)
  {
    var snapshotDigests := NormalizedManifestFileDigests(root, snapshot);
    if snapshotDigests.None? {
      return None;
    }
    DiagnosticsHarmless(root, snapshot, live.diagnostics);
    if DiagnosticsInvalidateSnapshot(root, FileMetadataDigests(snapshotDigests.value), live.diagnostics) {
      return None;
    }
    var liveDigests := NormalizedManifestFileDigests(root, live.entries);
    if liveDigests.None? {
      return None;
    }
    FileDigestsOrdered();
    SortByUnique(FileDigestOrder, Rebased(root, snapshot), Rebased(root, live.entries));
    return if snapshotDigests == liveDigests then snapshotDigests else None;
  }

  method ValidateDigests(root: Path, snapshot: seq<FileMetadataDigest>, live: BuildOutput<FileMetadataDigest>)
    returns (r: Option<seq<FileMetadataDigest>>)
    ensures r.Some? <==> FreshMetadata(root, snapshot, live)
    ensures r.Some? ==> r.value == NormalizedMetadata(root, snapshot)
  {
    var snapshotDigests := NormalizedManifestDigests(root, snapshot);
    if snapshotDigests.None? {
      return None;
    }
    MetadataDiagnosticsHarmless(root, snapshot, live.diagnostics);
    if DiagnosticsInvalidateSnapshot(root, snapshotDigests.value, live.diagnostics) {
      return None;
    }
    var liveDigests := NormalizedManifestDigests(root, live.entries);
    if liveDigests.None? {
      return None;
    }
    MetadataDigestsOrdered();
    SortByUnique(FileMetadataDigestOrder, RebasedMetadata(root, snapshot), RebasedMetadata(root, live.entries));
    return if snapshotDigests == liveDigests then snapshotDigests else None;
  }

  /** The diagnostics veto a sorted snapshot exactly when one of them is not harmless to the snapshot. */
  lemma MetadataDiagnosticsHarmless(root: Path, snapshot: seq<FileMetadataDigest>, diagnostics: seq<Option<Path>>)
    ensures DiagnosticsInvalidateSnapshot(root, NormalizedMetadata(root, snapshot), diagnostics)
       <==> !AllHarmless(root, PathsOf(RebasedMetadata(root, snapshot)), diagnostics)
  {
    var sorted, rebased := NormalizedMetadata(root, snapshot), RebasedMetadata(root, snapshot);
    MetadataDigestsOrdered();
    SortBySorts(FileMetadataDigestOrder, rebased);
    var pathOf := (d: FileMetadataDigest) => d.path;
    forall path ensures path in PathsOf(sorted) <==> path in PathsOf(rebased) {
      MapKeepsMembers(pathOf, sorted, rebased, path);
      assert Map(pathOf, sorted) == PathsOf(sorted) && Map(pathOf, rebased) == PathsOf(rebased);
    }
    VetoesMatch(root, sorted, PathsOf(rebased), diagnostics);
  }

  lemma DiagnosticsHarmless(root: Path, snapshot: seq<FileDigest>, diagnostics: seq<Option<Path>>)
    ensures DiagnosticsInvalidateSnapshot(root, FileMetadataDigests(Normalized(root, snapshot)), diagnostics)
       <==> !AllHarmless(root, PathsOf(FileMetadataDigests(Rebased(root, snapshot))), diagnostics)
  {
    var sorted, rebased := Normalized(root, snapshot), Rebased(root, snapshot);
    FileDigestsOrdered();
    SortBySorts(FileDigestOrder, rebased);
    var pathOf := (d: FileDigest) => d.path;
    var forgotten := FileMetadataDigests(sorted);
    forall path ensures path in PathsOf(forgotten) <==> path in PathsOf(FileMetadataDigests(rebased)) {
      MapKeepsMembers(pathOf, sorted, rebased, path);
      assert Map(pathOf, sorted) == PathsOf(forgotten) && Map(pathOf, rebased) == PathsOf(FileMetadataDigests(rebased));
    }
    VetoesMatch(root, forgotten, PathsOf(FileMetadataDigests(rebased)), diagnostics);
  }

  lemma VetoesMatch(root: Path, sorted: seq<FileMetadataDigest>, files: seq<Path>, diagnostics: seq<Option<Path>>)
    requires forall path :: path in PathsOf(sorted) <==> path in files
    ensures DiagnosticsInvalidateSnapshot(root, sorted, diagnostics) <==> !AllHarmless(root, files, diagnostics)
  {
    var snapshotPaths := set i | 0 <= i < |sorted| :: sorted[i].path;
    forall path ensures path in snapshotPaths <==> path in files {
      var listed := PathsOf(sorted);
      if path in snapshotPaths {
        var i :| 0 <= i < |sorted| && sorted[i].path == path;
        assert listed[i] == path;
      }
      if path in listed {
        var i :| 0 <= i < |listed| && listed[i] == path;
        assert sorted[i].path == path;
      }
    }
    forall i | 0 <= i < |diagnostics|
      ensures DiagnosticInvalidates(root, snapshotPaths, diagnostics[i]) <==> !Harmless(root, files, diagnostics[i])
    {}
  }

  /** Neither listing order matters: permuting the snapshot or the walk changes nothing. */
  lemma ValidationIgnoresOrder(root: Path, s: seq<FileDigest>, t: seq<FileDigest>)
    requires multiset(s) == multiset(t)
    ensures Normalized(root, s) == Normalized(root, t)
    ensures AllInside(root, s) <==> AllInside(root, t)
  {
    forall i | 0 <= i < |s| ensures s[i] in t { assert s[i] in multiset(t); }
    forall i | 0 <= i < |t| ensures t[i] in s { assert t[i] in multiset(s); }
    var rebase := (d: FileDigest) => d.(path := Resolve(root, d.path));
    MapKeepsMultiset(rebase, s, t);
    assert Map(rebase, s) == Rebased(root, s) && Map(rebase, t) == Rebased(root, t);
    FileDigestsOrdered();
    SortByUnique(FileDigestOrder, Rebased(root, s), Rebased(root, t));
  }

  // ---- forgetting the hashes ----

  /**
   The digests handed to readers, which are the remembered ones without their hashes, are exactly the
   normalised metadata digests of the snapshot.
   */
  lemma ForgettingCommutes(root: Path, digests: seq<FileDigest>)
    ensures FileMetadataDigests(Normalized(root, digests)) == NormalizedMetadata(root, FileMetadataDigests(digests))
  {
    var sorted := Normalized(root, digests);
    var rebased := Rebased(root, digests);
    FileDigestsOrdered();
    MetadataDigestsOrdered();
    SortBySorts(FileDigestOrder, rebased);
    MapKeepsMultiset(MetadataOf, sorted, rebased);
    assert Map(MetadataOf, sorted) == FileMetadataDigests(sorted);
    assert Map(MetadataOf, rebased) == FileMetadataDigests(rebased);
    assert FileMetadataDigests(rebased) == RebasedMetadata(root, FileMetadataDigests(digests));
    SortBySorts(FileMetadataDigestOrder, FileMetadataDigests(rebased));
    forall i, j | 0 <= i < j < |sorted|
      ensures FileMetadataDigestOrder(MetadataOf(sorted[i]), MetadataOf(sorted[j])) != Greater
    {
      assert FileDigestOrder(sorted[i], sorted[j]) != Greater;
      HashBreaksTies(sorted[i], sorted[j]);
    }
    SortedUnique(FileMetadataDigestOrder, FileMetadataDigests(sorted),
                 SortBy(FileMetadataDigestOrder, FileMetadataDigests(rebased)));
  }

  /** A snapshot the hash-checked validation accepts is accepted without the hashes too. */
  lemma FreshImpliesFreshMetadata(root: Path, snapshot: seq<FileDigest>, live: BuildOutput<FileDigest>)
    requires Fresh(root, snapshot, live)
    ensures FreshMetadata(root, FileMetadataDigests(snapshot),
                          BuildOutput(FileMetadataDigests(live.entries), live.diagnostics))
  {
    var s, t := FileMetadataDigests(snapshot), FileMetadataDigests(live.entries);
    FileDigestsOrdered();
    SortByUnique(FileDigestOrder, Rebased(root, snapshot), Rebased(root, live.entries));
    ForgettingCommutes(root, snapshot);
    ForgettingCommutes(root, live.entries);
    MetadataDigestsOrdered();
    SortByUnique(FileMetadataDigestOrder, RebasedMetadata(root, s), RebasedMetadata(root, t));
    assert PathsOf(RebasedMetadata(root, s)) == PathsOf(FileMetadataDigests(Rebased(root, snapshot)));
  }

  /** The converse fails: a rewrite that keeps size and time is seen by the hashes alone. */
  lemma HashSeesMore()
    ensures exists root, snapshot, live ::
      && FreshMetadata(root, FileMetadataDigests(snapshot), BuildOutput(FileMetadataDigests(live), []))
      && !Fresh(root, snapshot, BuildOutput(live, []))
  {
    var snapshot := [FileDigest([RootDir], 1, None, "a")];
    var live := [FileDigest([RootDir], 1, None, "b")];
    assert FileMetadataDigests(snapshot) == FileMetadataDigests(live);
    assert Rebased([RootDir], snapshot) == snapshot && Rebased([RootDir], live) == live;
    assert snapshot[0] in multiset(snapshot) && snapshot[0] !in multiset(live) by {
      assert snapshot[0].hash[0] != live[0].hash[0];
    }
    assert !Fresh([RootDir], snapshot, BuildOutput(live, []));
    assert FreshMetadata([RootDir], FileMetadataDigests(snapshot), BuildOutput(FileMetadataDigests(live), []));
  }
}
