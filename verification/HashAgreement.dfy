/** What the hashes of a manifest add to its metadata: that they agree file by file, and nothing else. */
module HashAgreement {
  import opened Ordering
  import opened ManifestValidation

  /** No two entries resolve to the same file. */
  predicate DistinctFiles(root: Path, digests: seq<FileDigest>) {
    forall i, j :: 0 <= i < j < |digests| ==> Resolve(root, digests[i].path) != Resolve(root, digests[j].path)
  }

  /** Wherever snapshot and walk list the same file, they list the same hash. */
  predicate HashesAgree(root: Path, snapshot: seq<FileDigest>, live: seq<FileDigest>) {
    forall i, j :: 0 <= i < |snapshot| && 0 <= j < |live| ==>
      Resolve(root, snapshot[i].path) == Resolve(root, live[j].path) ==> snapshot[i].hash == live[j].hash
  }

  /** On a snapshot without repeated files, what the hashes add is exactly that they agree file by file. */
  lemma HashesDecide(root: Path, snapshot: seq<FileDigest>, live: BuildOutput<FileDigest>)
    requires DistinctFiles(root, snapshot)
    requires FreshMetadata(root, FileMetadataDigests(snapshot),
                           BuildOutput(FileMetadataDigests(live.entries), live.diagnostics))
    ensures Fresh(root, snapshot, live) <==> HashesAgree(root, snapshot, live.entries)
  {
    var s, t := FileMetadataDigests(snapshot), FileMetadataDigests(live.entries);
    assert PathsOf(RebasedMetadata(root, s)) == PathsOf(FileMetadataDigests(Rebased(root, snapshot)));
    forall i | 0 <= i < |snapshot| ensures Inside(root, snapshot[i].path) { assert s[i].path == snapshot[i].path; }
    forall i | 0 <= i < |live.entries| ensures Inside(root, live.entries[i].path) {
      assert t[i].path == live.entries[i].path;
    }
    if Fresh(root, snapshot, live) {
      FreshHashesAgree(root, snapshot, live.entries);
    }
    if HashesAgree(root, snapshot, live.entries) {
      AgreeingHashesMatch(root, snapshot, live.entries);
    }
  }

  lemma FreshHashesAgree(root: Path, snapshot: seq<FileDigest>, live: seq<FileDigest>)
    requires DistinctFiles(root, snapshot) && multiset(Rebased(root, snapshot)) == multiset(Rebased(root, live))
    ensures HashesAgree(root, snapshot, live)
  {
    var s, t := Rebased(root, snapshot), Rebased(root, live);
    forall i, j | 0 <= i < |snapshot| && 0 <= j < |live|
                  && Resolve(root, snapshot[i].path) == Resolve(root, live[j].path)
      ensures snapshot[i].hash == live[j].hash
    {
      assert t[j] in multiset(s);
      var k :| 0 <= k < |s| && s[k] == t[j];
      assert k == i;
    }
  }

  /** The hash the snapshot has for each of its files. */
  function HashOf(root: Path, snapshot: seq<FileDigest>, path: Path): string {
    if snapshot == [] then ""
    else if Resolve(root, snapshot[0].path) == path then snapshot[0].hash
    else HashOf(root, snapshot[1..], path)
  }

  lemma {:induction false} HashFound(root: Path, snapshot: seq<FileDigest>, i: nat)
    requires DistinctFiles(root, snapshot) && i < |snapshot|
    ensures HashOf(root, snapshot, Resolve(root, snapshot[i].path)) == snapshot[i].hash
  {
    if i > 0 {
      HashFound(root, snapshot[1..], i - 1);
    }
  }

  lemma AgreeingHashesMatch(root: Path, snapshot: seq<FileDigest>, live: seq<FileDigest>)
    requires DistinctFiles(root, snapshot) && HashesAgree(root, snapshot, live)
    requires multiset(RebasedMetadata(root, FileMetadataDigests(snapshot))) ==
             multiset(RebasedMetadata(root, FileMetadataDigests(live)))
    ensures multiset(Rebased(root, snapshot)) == multiset(Rebased(root, live))
  {
    var s, t := RebasedMetadata(root, FileMetadataDigests(snapshot)), RebasedMetadata(root, FileMetadataDigests(live));
    var hashed := (m: FileMetadataDigest) =>
      FileDigest(m.path, m.sizeBytes, m.mtimeNs, HashOf(root, snapshot, m.path));
    forall i | 0 <= i < |snapshot|
      ensures hashed(s[i]) == Rebased(root, snapshot)[i]
    {
      HashFound(root, snapshot, i);
    }
    forall j | 0 <= j < |live|
      ensures hashed(t[j]) == Rebased(root, live)[j]
    {
      assert t[j] in multiset(s);
      var i :| 0 <= i < |s| && s[i] == t[j];
      HashFound(root, snapshot, i);
    }
    MapKeepsMultiset(hashed, s, t);
    assert Map(hashed, s) == Rebased(root, snapshot) && Map(hashed, t) == Rebased(root, live);
  }
}
