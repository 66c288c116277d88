/**
 The validated-manifest cache. Readers take its lock three times (dirty check, lookup, store), with an unlocked
 walk of the file system in between that has a beginning and an end; a watcher marks roots dirty and invalidates
 them at any moment. Each locked section is one atomic action, and a run interleaves the actions of any number of
 readers.
 */
module ManifestCache {
  import opened Wrappers
  import opened ManifestValidation

  type SnapshotId = string

  datatype Entry = Dirty | Ready(snapshotId: SnapshotId, digests: seq<FileDigest>)

  datatype Stats = Stats(hits: nat, misses: nat, dirtyBypasses: nat)

  datatype Cache = Cache(entries: map<Path, Entry>, stats: Stats)

  datatype CacheLookup = Hit(digests: seq<FileDigest>) | Miss | DirtyRoot

  // ---- the locked sections ----

  function EntryOf(entries: map<Path, Entry>, root: Path): Option<Entry> {
    if root in entries then Some(entries[root]) else None
  }

  predicate IsDirty(cache: Cache, root: Path) {
    EntryOf(cache.entries, root) == Some(Dirty)
  }

  function Lookup(cache: Cache, root: Path, id: SnapshotId): (Cache, CacheLookup) {
    var Cache(entries, stats) := cache;
    match EntryOf(entries, root)
    case None =>
      (Cache(entries, stats.(misses := stats.misses + 1)), Miss)
    case Some(Dirty) =>
      (Cache(entries, stats.(dirtyBypasses := stats.dirtyBypasses + 1)), DirtyRoot)
    case Some(Ready(cached, digests)) =>
      if cached == id then (Cache(entries, stats.(hits := stats.hits + 1)), Hit(digests))
      else (Cache(entries - {root}, stats.(misses := stats.misses + 1)), Miss)
  }

  function StoreValidated(cache: Cache, root: Path, id: SnapshotId, digests: seq<FileDigest>): (Cache, bool) {
    if IsDirty(cache, root) then (cache, false)
    else (cache.(entries := cache.entries[root := Ready(id, digests)]), true)
  }

  function BypassIfDirty(cache: Cache, root: Path): (Cache, bool) {
    if IsDirty(cache, root)
    then (cache.(stats := cache.stats.(dirtyBypasses := cache.stats.dirtyBypasses + 1)), true)
    else (cache, false)
  }

  class ValidatedManifestCandidateCache {
    var entries: map<Path, Entry>
    var hits: nat
    var misses: nat
    var dirtyBypasses: nat

    function Value(): Cache
      reads this
    {
      Cache(entries, Stats(hits, misses, dirtyBypasses))
    }

    constructor ()
      ensures Value() == Cache(map[], Stats(0, 0, 0))
    {
      entries := map[];
      hits, misses, dirtyBypasses := 0, 0, 0;
    }

    method LookupRoot(root: Path, id: SnapshotId) returns (r: CacheLookup)
      modifies this
      ensures (Value(), r) == Lookup(old(Value()), root, id)
    {
      if root in entries && entries[root].Ready? && entries[root].snapshotId == id {
        hits := hits + 1;
        r := Hit(entries[root].digests);
      } else if root in entries && entries[root].Dirty? {
        dirtyBypasses := dirtyBypasses + 1;
        r := DirtyRoot;
      } else if root in entries {
        entries := entries - {root};
        misses := misses + 1;
        r := Miss;
      } else {
        misses := misses + 1;
        r := Miss;
      }
    }

    method StoreValidatedShared(root: Path, id: SnapshotId, digests: seq<FileDigest>) returns (stored: bool)
      modifies this
      ensures (Value(), stored) == StoreValidated(old(Value()), root, id, digests)
    {
      if root in entries && entries[root].Dirty? {
        return false;
      }
      entries := entries[root := Ready(id, digests)];
      return true;
    }

    method InvalidateRoot(root: Path)
      modifies this`entries
      ensures entries == old(entries) - {root}
    {
      entries := entries - {root};
    }

    method MarkDirtyRoot(root: Path)
      modifies this`entries
      ensures entries == old(entries)[root := Dirty]
    {
      entries := entries[root := Dirty];
    }

    method BypassIfDirtyRoot(root: Path) returns (bypassed: bool)
      modifies this`dirtyBypasses
      ensures (Value(), bypassed) == BypassIfDirty(old(Value()), root)
    {
      bypassed := root in entries && entries[root].Dirty?;
      if bypassed {
        dirtyBypasses := dirtyBypasses + 1;
      }
    }
  }

  datatype Shared = Shared(snapshotId: SnapshotId, digests: seq<FileMetadataDigest>)

  datatype Snapshot = Snapshot(id: SnapshotId, entries: seq<FileDigest>)

  /**
   One undisturbed reader. It answers from the cache only when the newest snapshot is the cached one, and
   otherwise leaves behind exactly what it validated.
   */
  method LatestValidatedManifestSnapshot(
    cache: ValidatedManifestCandidateCache, root: Path, latest: Option<Snapshot>, live: Option<BuildOutput<FileDigest>>)
    returns (r: Option<Shared>)
    modifies cache
    ensures forall other :: other != root ==> EntryOf(cache.entries, other) == EntryOf(old(cache.entries), other)
    ensures latest.None? || old(IsDirty(cache.Value(), root)) ==> r.None? && cache.entries == old(cache.entries)
    ensures latest.Some? && !old(IsDirty(cache.Value(), root)) ==>
              var was := EntryOf(old(cache.entries), root);
              if was.Some? && was.value.snapshotId == latest.value.id then
                cache.entries == old(cache.entries)
                && r == Some(Shared(latest.value.id, FileMetadataDigests(was.value.digests)))
              else if live.Some? && Fresh(root, latest.value.entries, live.value) then
                EntryOf(cache.entries, root) == Some(Ready(latest.value.id, Normalized(root, latest.value.entries)))
                && r == Some(Shared(latest.value.id, NormalizedMetadata(root,
                  FileMetadataDigests(latest.value.entries))))
              else r.None? && EntryOf(cache.entries, root) == None
  {
    var bypassed := cache.BypassIfDirtyRoot(root);
    if bypassed || latest.None? {
      return None;
    }
    var id := latest.value.id;
    var found := cache.LookupRoot(root, id);
    match found
    case Hit(digests) =>
      return Some(Shared(id, FileMetadataDigests(digests)));
    case DirtyRoot =>
      return None;
    case Miss =>
      if live.None? {
        return None;
      }
      var validated := ValidateFileDigests(root, latest.value.entries, live.value);
      if validated.None? {
        return None;
      }
      var _ := cache.StoreValidatedShared(root, id, validated.value);
      ForgettingCommutes(root, latest.value.entries);
      return Some(Shared(id, FileMetadataDigests(validated.value)));
  }

  // ---- interleaved readers and watchers ----

  /** Where a reader is between two of its locked sections. */
  datatype Reader =
    | Entered(root: Path)
    | Loading(root: Path, cachedOnly: bool)
    | LookingUp(root: Path, cachedOnly: bool, snapshot: Snapshot)
    | Preparing(root: Path, snapshot: Snapshot)
    | Walking(root: Path, snapshot: Snapshot)
    | Storing(root: Path, snapshot: Snapshot, digests: seq<FileDigest>)
    | Done(root: Path, outcome: Option<Shared>)

  datatype Event =
    | Dirtied(root: Path)
    | Cleared(root: Path)
    | Began(reader: nat, root: Path, cachedOnly: bool)
    | FoundClean(reader: nat, root: Path)
    | Loaded(reader: nat, root: Path, latest: Option<SnapshotId>)
    | FoundDirty(reader: nat, root: Path)
    | Missed(reader: nat, root: Path, id: SnapshotId)
    | Served(reader: nat, root: Path, id: SnapshotId, digests: seq<FileDigest>)
    | WalkBegan(reader: nat, root: Path, id: SnapshotId)
    | Validated(reader: nat, root: Path, id: SnapshotId, live: BuildOutput<FileDigest>)
    | Stale(reader: nat, root: Path, id: SnapshotId, walked: Option<BuildOutput<FileDigest>>)
    | Installed(reader: nat, root: Path, id: SnapshotId, digests: seq<FileDigest>)
    | Refused(reader: nat, root: Path, id: SnapshotId)

  datatype World = World(
    cache: Cache,
    snapshots: map<SnapshotId, seq<FileDigest>>,
    readers: map<nat, Reader>,
    log: seq<Event>)

  datatype Action =
    | Begin(reader: nat, root: Path, cachedOnly: bool)
    | CheckDirty(reader: nat)
    | Load(reader: nat, latest: Option<SnapshotId>)
    | LookUp(reader: nat)
    | BeginWalk(reader: nat)
    | Validate(reader: nat, live: Option<BuildOutput<FileDigest>>)
    | Store(reader: nat)
    | MarkDirty(root: Path)
    | Invalidate(root: Path)
    | Publish(id: SnapshotId, entries: seq<FileDigest>)

  /** Readers move through their program in order; a published snapshot is never rewritten. */
  ghost predicate Enabled(w: World, a: Action) {
    match a
    case Begin(t, _, _) => t in w.readers ==> w.readers[t].Done?
    case CheckDirty(t) => t in w.readers && w.readers[t].Entered?
    case Load(t, latest) => t in w.readers && w.readers[t].Loading? && (latest.Some? ==> latest.value in w.snapshots)
    case LookUp(t) => t in w.readers && w.readers[t].LookingUp?
    case BeginWalk(t) => t in w.readers && w.readers[t].Preparing?
    case Validate(t, _) => t in w.readers && w.readers[t].Walking?
    case Store(t) => t in w.readers && w.readers[t].Storing?
    case MarkDirty(_) => true
    case Invalidate(_) => true
    case Publish(id, _) => id !in w.snapshots
  }

  ghost function Move(w: World, cache: Cache, t: nat, next: Reader, events: seq<Event>): World {
    w.(cache := cache, readers := w.readers[t := next], log := w.log + events)
  }

  ghost function LookUpAction(w: World, t: nat): World
    requires Enabled(w, LookUp(t))
  {
    var LookingUp(root, cachedOnly, snapshot) := w.readers[t];
    var (cache, found) := Lookup(w.cache, root, snapshot.id);
    match found
    case Hit(digests) =>
      Move(w, cache, t, Done(root, Some(Shared(snapshot.id, FileMetadataDigests(digests)))),
           [Served(t, root, snapshot.id, digests)])
    case DirtyRoot =>
      Move(w, cache, t, Done(root, None), [FoundDirty(t, root)])
    case Miss =>
      Move(w, cache, t, if cachedOnly then Done(root, None) else Preparing(root, snapshot),
           [Missed(t, root, snapshot.id)])
  }

  ghost function BeginWalkAction(w: World, t: nat): World
    requires Enabled(w, BeginWalk(t))
  {
    var Preparing(root, snapshot) := w.readers[t];
    Move(w, w.cache, t, Walking(root, snapshot), [WalkBegan(t, root, snapshot.id)])
  }

  ghost function ValidateAction(w: World, t: nat, live: Option<BuildOutput<FileDigest>>): World
    requires Enabled(w, Validate(t, live))
  {
    var Walking(root, snapshot) := w.readers[t];
    if live.Some? && Fresh(root, snapshot.entries, live.value)
    then Move(w, w.cache, t, Storing(root, snapshot, Normalized(root, snapshot.entries)),
              [Validated(t, root, snapshot.id, live.value)])
    else Move(w, w.cache, t, Done(root, None), [Stale(t, root, snapshot.id, live)])
  }

  ghost function StoreAction(w: World, t: nat): World
    requires Enabled(w, Store(t))
  {
    var Storing(root, snapshot, digests) := w.readers[t];
    var (cache, stored) := StoreValidated(w.cache, root, snapshot.id, digests);
    Move(w, cache, t, Done(root, Some(Shared(snapshot.id, FileMetadataDigests(digests)))),
         [if stored then Installed(t, root, snapshot.id, digests) else Refused(t, root, snapshot.id)])
  }

  ghost function Apply(w: World, a: Action): World
    requires Enabled(w, a)
  {
    match a
    case Begin(t, root, cachedOnly) =>
      Move(w, w.cache, t, if cachedOnly then Loading(root, true) else Entered(root), [Began(t, root, cachedOnly)])
    case CheckDirty(t) =>
      var root := w.readers[t].root;
      var (cache, bypassed) := BypassIfDirty(w.cache, root);
      if bypassed then Move(w, cache, t, Done(root, None), [FoundDirty(t, root)])
      else Move(w, cache, t, Loading(root, false), [FoundClean(t, root)])
    case Load(t, latest) =>
      var Loading(root, cachedOnly) := w.readers[t];
      Move(w, w.cache, t,
           if latest.None? then Done(root, None)
           else LookingUp(root, cachedOnly, Snapshot(latest.value, w.snapshots[latest.value])),
           [Loaded(t, root, latest)])
    case LookUp(t) => LookUpAction(w, t)
    case BeginWalk(t) => BeginWalkAction(w, t)
    case Validate(t, live) => ValidateAction(w, t, live)
    case Store(t) => StoreAction(w, t)
    case MarkDirty(root) =>
      w.(cache := w.cache.(entries := w.cache.entries[root := Dirty]), log := w.log + [Dirtied(root)])
    case Invalidate(root) =>
      w.(cache := w.cache.(entries := w.cache.entries - {root}), log := w.log + [Cleared(root)])
    case Publish(id, entries) =>
      w.(snapshots := w.snapshots[id := entries])
  }

  // ---- what the log says about the cache ----

  /** The entry of a root, read off the log alone: its last event that decides the entry. */
  ghost function StateOf(log: seq<Event>, root: Path): Option<Entry> {
    if log == [] then None
    else
      var last := log[|log| - 1];
      if last.root == root && last.Dirtied? then Some(Dirty)
      else if last.root == root && (last.Cleared? || last.Missed?) then None
      else if last.root == root && last.Installed? then Some(Ready(last.id, last.digests))
      else StateOf(log[..|log| - 1], root)
  }

  ghost predicate ValidatedBefore(log: seq<Event>, n: nat, reader: nat, root: Path, id: SnapshotId)
    requires n <= |log|
  {
    exists j :: 0 <= j < n && log[j].Validated? && log[j].reader == reader && log[j].root == root && log[j].id == id
  }

  ghost predicate Sound(snapshots: map<SnapshotId, seq<FileDigest>>, root: Path, id: SnapshotId,
                        digests: seq<FileDigest>) {
    id in snapshots && digests == Normalized(root, snapshots[id])
  }

  /** What each event may claim, given the events before it. */
  ghost predicate EventOk(log: seq<Event>, snapshots: map<SnapshotId, seq<FileDigest>>, i: nat)
    requires i < |log|
  {
    var before := StateOf(log[..i], log[i].root);
    match log[i]
    case Dirtied(_) => true
    case Cleared(_) => true
    case Began(_, _, _) => true
    case FoundClean(_, _) => before != Some(Dirty)
    case Loaded(_, _, latest) => latest.Some? ==> latest.value in snapshots
    case FoundDirty(_, _) => before == Some(Dirty)
    case Missed(_, _, id) => before != Some(Dirty) && (before.Some? ==> before.value.snapshotId != id)
    case Served(_, _, id, digests) => before == Some(Ready(id, digests))
    case WalkBegan(_, _, _) => true
    case Validated(_, root, id, live) => id in snapshots && Fresh(root, snapshots[id], live)
    case Stale(_, root, id, walked) => id in snapshots && (walked.Some? ==> !Fresh(root, snapshots[id], walked.value))
    case Installed(t, root, id, digests) =>
      before != Some(Dirty) && Sound(snapshots, root, id, digests) && ValidatedBefore(log, i, t, root, id)
    case Refused(t, root, id) => before == Some(Dirty) && ValidatedBefore(log, i, t, root, id)
  }

  ghost predicate LogOk(log: seq<Event>, snapshots: map<SnapshotId, seq<FileDigest>>) {
    forall i :: 0 <= i < |log| ==> EventOk(log, snapshots, i)
  }

  ghost predicate ReaderOk(w: World, t: nat)
    requires t in w.readers
  {
    match w.readers[t]
    case Entered(_) => true
    case Loading(_, _) => true
    case LookingUp(_, _, s) => s.id in w.snapshots && s.entries == w.snapshots[s.id]
    case Preparing(_, s) => s.id in w.snapshots && s.entries == w.snapshots[s.id]
    case Walking(_, s) => s.id in w.snapshots && s.entries == w.snapshots[s.id]
    case Storing(root, s, digests) =>
      Sound(w.snapshots, root, s.id, digests) && ValidatedBefore(w.log, |w.log|, t, root, s.id)
    case Done(root, outcome) =>
      outcome.Some? ==>
        && outcome.value.snapshotId in w.snapshots
        && outcome.value.digests == NormalizedMetadata(root, FileMetadataDigests(w.snapshots[outcome.value.snapshotId]))
        && exists who :: ValidatedBefore(w.log, |w.log|, who, root, outcome.value.snapshotId)
  }

  /** The counters, read off the log. */
  ghost function Tally(log: seq<Event>): Stats {
    if log == [] then Stats(0, 0, 0)
    else
      var stats := Tally(log[..|log| - 1]);
      match log[|log| - 1]
      case Served(_, _, _, _) => stats.(hits := stats.hits + 1)
      case Missed(_, _, _) => stats.(misses := stats.misses + 1)
      case FoundDirty(_, _) => stats.(dirtyBypasses := stats.dirtyBypasses + 1)
      case _ => stats
  }

  ghost predicate Inv(w: World) {
    && w.cache.stats == Tally(w.log)
    && (forall root :: EntryOf(w.cache.entries, root) == StateOf(w.log, root))
    && LogOk(w.log, w.snapshots)
    && (forall t :: t in w.readers ==> ReaderOk(w, t))
  }

  lemma StateAfter(log: seq<Event>, e: Event, root: Path)
    ensures StateOf(log + [e], root) ==
            if e.root != root then StateOf(log, root)
            else match e
                 case Dirtied(_) => Some(Dirty)
                 case Cleared(_) => None
                 case Missed(_, _, _) => None
                 case Installed(_, _, id, digests) => Some(Ready(id, digests))
                 case _ => StateOf(log, root)
  {
    assert (log + [e])[..|log|] == log;
  }

  lemma LogGrows(w: World, e: Event)
    requires LogOk(w.log, w.snapshots)
    requires EventOk(w.log + [e], w.snapshots, |w.log|)
    ensures LogOk(w.log + [e], w.snapshots)
  {
    var log := w.log + [e];
    forall i | 0 <= i < |w.log|
      ensures EventOk(log, w.snapshots, i)
    {
      assert EventOk(w.log, w.snapshots, i);
      assert log[..i] == w.log[..i];
      if w.log[i].Installed? || w.log[i].Refused? {
        ValidatedStays(w.log, [e], i, w.log[i].reader, w.log[i].root, w.log[i].id);
      }
    }
  }

  lemma ValidatedStays(log: seq<Event>, more: seq<Event>, n: nat, reader: nat, root: Path, id: SnapshotId)
    requires n <= |log| && ValidatedBefore(log, n, reader, root, id)
    ensures ValidatedBefore(log + more, n, reader, root, id)
    ensures ValidatedBefore(log + more, |log + more|, reader, root, id)
  {
    var j :| 0 <= j < n && log[j].Validated? && log[j].reader == reader && log[j].root == root && log[j].id == id;
    assert (log + more)[j] == log[j];
  }

  lemma ReadersStay(w: World, w': World, more: seq<Event>, t: nat)
    requires t in w.readers && ReaderOk(w, t)
    requires t in w'.readers && w'.readers[t] == w.readers[t]
    requires w'.log == w.log + more
    requires forall id :: id in w.snapshots ==> id in w'.snapshots && w'.snapshots[id] == w.snapshots[id]
    ensures ReaderOk(w', t)
  {
    match w.readers[t]
    case Storing(root, s, _) =>
      ValidatedStays(w.log, more, |w.log|, t, root, s.id);
    case Done(root, Some(shared)) =>
      var who :| ValidatedBefore(w.log, |w.log|, who, root, shared.snapshotId);
      ValidatedStays(w.log, more, |w.log|, who, root, shared.snapshotId);
    case _ =>
  }

  /** A ready entry was installed, after a validation by the same reader, and is untouched since. */
  lemma {:induction false} ReadyWasInstalled(log: seq<Event>, snapshots: map<SnapshotId, seq<FileDigest>>, root: Path)
    requires LogOk(log, snapshots)
    requires StateOf(log, root).Some? && StateOf(log, root).value.Ready?
    ensures var ready := StateOf(log, root).value;
            exists i ::
              && 0 <= i < |log|
              && log[i].Installed? && log[i].root == root && log[i].id == ready.snapshotId
                && log[i].digests == ready.digests
              && (forall k :: i < k < |log| && log[k].root == root ==> !log[k].Dirtied? && !log[k].Cleared?)
  {
    var n := |log| - 1;
    var last := log[n];
    if !(last.root == root && last.Installed?) {
      LogPrefix(log, snapshots, n);
      ReadyWasInstalled(log[..n], snapshots, root);
    }
  }

  lemma LogPrefix(log: seq<Event>, snapshots: map<SnapshotId, seq<FileDigest>>, n: nat)
    requires LogOk(log, snapshots) && n <= |log|
    ensures LogOk(log[..n], snapshots)
  {
    var p := log[..n];
    forall i | 0 <= i < n
      ensures EventOk(p, snapshots, i)
    {
      assert EventOk(log, snapshots, i);
      assert p[..i] == log[..i];
      if log[i].Installed? || log[i].Refused? {
        var j :| 0 <= j < i && log[j].Validated? && log[j].reader == log[i].reader && log[j].root == log[i].root
          && log[j].id == log[i].id;
        assert p[j] == log[j];
      }
    }
  }

  // ---- the invariant, kept by every action ----

  /** An action that appends one justified event and moves the cache as the event says keeps the invariant. */
  lemma EventKeepsInv(w: World, w': World, e: Event)
    requires Inv(w)
    requires w'.snapshots == w.snapshots && w'.log == w.log + [e]
    requires EventOk(w'.log, w.snapshots, |w.log|)
    requires w'.cache.stats == Tally(w.log + [e])
    requires forall root :: EntryOf(w'.cache.entries, root) ==
               if root == e.root then StateOf(w.log + [e], root) else EntryOf(w.cache.entries, root)
    requires forall t :: t in w'.readers && !(t in w.readers && w'.readers[t] == w.readers[t]) ==> ReaderOk(w', t)
    ensures Inv(w')
  {
    hide EventOk;
    LogGrows(w, e);
    forall root
      ensures EntryOf(w'.cache.entries, root) == StateOf(w'.log, root)
    {
      StateAfter(w.log, e, root);
    }
    forall t | t in w'.readers
      ensures ReaderOk(w', t)
    {
      if t in w.readers && w'.readers[t] == w.readers[t] {
        ReadersStay(w, w', [e], t);
      }
    }
  }

  lemma QuietKeepsInv(w: World, w': World)
    requires Inv(w)
    requires w'.cache == w.cache && w'.log == w.log
    requires forall id :: id in w.snapshots ==> id in w'.snapshots && w'.snapshots[id] == w.snapshots[id]
    requires forall t :: t in w'.readers && !(t in w.readers && w'.readers[t] == w.readers[t]) ==> ReaderOk(w', t)
    ensures Inv(w')
  {
    assert w'.log == w.log + [];
    forall i | 0 <= i < |w.log|
      ensures EventOk(w'.log, w'.snapshots, i)
    {
      assert EventOk(w.log, w.snapshots, i);
    }
    forall t | t in w'.readers
      ensures ReaderOk(w', t)
    {
      if t in w.readers && w'.readers[t] == w.readers[t] {
        ReadersStay(w, w', [], t);
      }
    }
  }

  lemma LastEvent(log: seq<Event>, e: Event)
    ensures (log + [e])[..|log|] == log && (log + [e])[|log|] == e
    ensures Tally(log + [e]) ==
            match e
            case Served(_, _, _, _) => Tally(log).(hits := Tally(log).hits + 1)
            case Missed(_, _, _) => Tally(log).(misses := Tally(log).misses + 1)
            case FoundDirty(_, _) => Tally(log).(dirtyBypasses := Tally(log).dirtyBypasses + 1)
            case _ => Tally(log)
  {
    assert (log + [e])[..|log|] == log;
  }

  lemma HitSource(w: World, root: Path) returns (who: nat)
    requires Inv(w) && StateOf(w.log, root).Some? && StateOf(w.log, root).value.Ready?
    ensures var Ready(id, digests) := StateOf(w.log, root).value;
      && id in w.snapshots
      && FileMetadataDigests(digests) == NormalizedMetadata(root, FileMetadataDigests(w.snapshots[id]))
      && forall e: Event :: ValidatedBefore(w.log + [e], |w.log + [e]|, who, root, id)
  {
    var Ready(id, digests) := StateOf(w.log, root).value;
    ReadyWasInstalled(w.log, w.snapshots, root);
    var i :| 0 <= i < |w.log| && w.log[i].Installed? && w.log[i].root == root && w.log[i].id == id
      && w.log[i].digests == digests;
    assert EventOk(w.log, w.snapshots, i);
    ForgettingCommutes(root, w.snapshots[id]);
    who := w.log[i].reader;
    forall e: Event
      ensures ValidatedBefore(w.log + [e], |w.log + [e]|, who, root, id)
    {
      ValidatedStays(w.log, [e], i, who, root, id);
    }
  }

  lemma LookUpKeepsInv(w: World, t: nat)
    requires Inv(w) && Enabled(w, LookUp(t))
    ensures Inv(LookUpAction(w, t))
  {
    var LookingUp(root, _, snapshot) := w.readers[t];
    var (_, found) := Lookup(w.cache, root, snapshot.id);
    hide Inv, LookUpAction;
    if found.Hit? {
      HitKeepsInv(w, t);
    } else {
      MissKeepsInv(w, t);
    }
  }

  lemma HitKeepsInv(w: World, t: nat)
    requires Inv(w) && Enabled(w, LookUp(t))
    requires Lookup(w.cache, w.readers[t].root, w.readers[t].snapshot.id).1.Hit?
    ensures Inv(LookUpAction(w, t))
  {
    var LookingUp(root, _, snapshot) := w.readers[t];
    var w' := LookUpAction(w, t);
    var e := Served(t, root, snapshot.id, w.cache.entries[root].digests);
    assert w'.log == w.log + [e];
    LastEvent(w.log, e);
    StateAfter(w.log, e, root);
    assert EntryOf(w.cache.entries, root) == StateOf(w.log, root);
    var who := HitSource(w, root);
    assert ValidatedBefore(w'.log, |w'.log|, who, root, snapshot.id);
    hide LogOk, ValidatedBefore, FileMetadataDigests, NormalizedMetadata;
    EventKeepsInv(w, w', e);
  }

  lemma MissKeepsInv(w: World, t: nat)
    requires Inv(w) && Enabled(w, LookUp(t))
    requires !Lookup(w.cache, w.readers[t].root, w.readers[t].snapshot.id).1.Hit?
    ensures Inv(LookUpAction(w, t))
  {
    var LookingUp(root, _, snapshot) := w.readers[t];
    var w' := LookUpAction(w, t);
    var e := w'.log[|w.log|];
    assert w'.log == w.log + [e];
    assert ReaderOk(w, t);
    LastEvent(w.log, e);
    StateAfter(w.log, e, root);
    assert EntryOf(w.cache.entries, root) == StateOf(w.log, root);
    EventKeepsInv(w, w', e);
  }

  /** An event of a reader that leaves the cache alone. */
  lemma PlainEvent(w: World, w': World, e: Event)
    requires Inv(w) && w'.snapshots == w.snapshots && w'.log == w.log + [e] && w'.cache == w.cache
    requires e.Began? || e.FoundClean? || e.Loaded? || e.WalkBegan? || e.Validated? || e.Stale?
    requires e.FoundClean? ==> !IsDirty(w.cache, e.root)
    requires e.Loaded? && e.latest.Some? ==> e.latest.value in w.snapshots
    requires e.Validated? ==> e.id in w.snapshots && Fresh(e.root, w.snapshots[e.id], e.live)
    requires e.Stale? ==>
      e.id in w.snapshots && (e.walked.Some? ==> !Fresh(e.root, w.snapshots[e.id], e.walked.value))
    requires e.reader in w'.readers && w'.readers == w.readers[e.reader := w'.readers[e.reader]]
    requires ReaderOk(w', e.reader)
    ensures Inv(w')
  {
    LastEvent(w.log, e);
    StateAfter(w.log, e, e.root);
    assert EntryOf(w.cache.entries, e.root) == StateOf(w.log, e.root);
    hide Fresh, ReaderOk;
    EventKeepsInv(w, w', e);
  }

  lemma BeginWalkKeepsInv(w: World, t: nat)
    requires Inv(w) && Enabled(w, BeginWalk(t))
    ensures Inv(BeginWalkAction(w, t))
  {
    var Preparing(root, snapshot) := w.readers[t];
    assert ReaderOk(w, t);
    hide Inv;
    PlainEvent(w, BeginWalkAction(w, t), WalkBegan(t, root, snapshot.id));
  }

  lemma ValidateKeepsInv(w: World, t: nat, live: Option<BuildOutput<FileDigest>>)
    requires Inv(w) && Enabled(w, Validate(t, live))
    ensures Inv(ValidateAction(w, t, live))
  {
    var Walking(root, snapshot) := w.readers[t];
    var w' := ValidateAction(w, t, live);
    assert ReaderOk(w, t);
    hide Inv, Fresh, Normalized;
    if live.Some? && Fresh(root, snapshot.entries, live.value) {
      var e := Validated(t, root, snapshot.id, live.value);
      assert w'.log[|w.log|] == e;
      PlainEvent(w, w', e);
    } else {
      PlainEvent(w, w', Stale(t, root, snapshot.id, live));
    }
  }

  lemma StoreKeepsInv(w: World, t: nat)
    requires Inv(w) && Enabled(w, Store(t))
    ensures Inv(StoreAction(w, t))
  {
    var Storing(root, snapshot, digests) := w.readers[t];
    var w' := StoreAction(w, t);
    var e := w'.log[|w.log|];
    assert w'.log == w.log + [e];
    assert ReaderOk(w, t);
    LastEvent(w.log, e);
    StateAfter(w.log, e, root);
    assert EntryOf(w.cache.entries, root) == StateOf(w.log, root);
    ForgettingCommutes(root, w.snapshots[snapshot.id]);
    ValidatedStays(w.log, [e], |w.log|, t, root, snapshot.id);
    EventKeepsInv(w, w', e);
  }

  /** Every action of every reader and of the watcher keeps the invariant. */
  lemma ActionKeepsInv(w: World, a: Action)
    requires Inv(w) && Enabled(w, a)
    ensures Inv(Apply(w, a))
  {
    hide LookUpAction, BeginWalkAction, ValidateAction, StoreAction;
    var w' := Apply(w, a);
    match a
    case Begin(t, root, cachedOnly) => PlainEvent(w, w', Began(t, root, cachedOnly));
    case CheckDirty(t) =>
      var root := w.readers[t].root;
      if IsDirty(w.cache, root) {
        WatcherEvent(w, w', FoundDirty(t, root));
      } else {
        PlainEvent(w, w', FoundClean(t, root));
      }
    case Load(t, latest) => PlainEvent(w, w', Loaded(t, w.readers[t].root, latest));
    case LookUp(t) => LookUpKeepsInv(w, t);
    case BeginWalk(t) => BeginWalkKeepsInv(w, t);
    case Validate(t, live) => ValidateKeepsInv(w, t, live);
    case Store(t) => StoreKeepsInv(w, t);
    case MarkDirty(root) => WatcherEvent(w, w', Dirtied(root));
    case Invalidate(root) => WatcherEvent(w, w', Cleared(root));
    case Publish(_, _) => QuietKeepsInv(w, w');
  }

  lemma WatcherEvent(w: World, w': World, e: Event)
    requires Inv(w) && w'.snapshots == w.snapshots && w'.log == w.log + [e]
    requires e.Dirtied? || e.Cleared? || (e.FoundDirty? && IsDirty(w.cache, e.root))
    requires e.FoundDirty? ==> w'.readers == w.readers[e.reader := Done(e.root, None)]
    requires !e.FoundDirty? ==> w'.readers == w.readers
    requires w'.cache ==
             match e
             case Dirtied(root) => w.cache.(entries := w.cache.entries[root := Dirty])
             case Cleared(root) => w.cache.(entries := w.cache.entries - {root})
             case _ => w.cache.(stats := w.cache.stats.(dirtyBypasses := w.cache.stats.dirtyBypasses + 1))
    ensures Inv(w')
  {
    LastEvent(w.log, e);
    StateAfter(w.log, e, e.root);
    assert EntryOf(w.cache.entries, e.root) == StateOf(w.log, e.root);
    EventKeepsInv(w, w', e);
  }

  // ---- runs ----

  ghost function Start(): World {
    World(Cache(map[], Stats(0, 0, 0)), map[], map[], [])
  }

  ghost predicate CanRun(w: World, run: seq<Action>)
    decreases |run|
  {
    run == [] || (Enabled(w, run[0]) && CanRun(Apply(w, run[0]), run[1..]))
  }

  ghost function After(w: World, run: seq<Action>): World
    requires CanRun(w, run)
    decreases |run|
  {
    if run == [] then w else After(Apply(w, run[0]), run[1..])
  }

  /** The invariant holds after any interleaving. */
  lemma {:induction false} RunKeepsInv(w: World, run: seq<Action>)
    requires Inv(w) && CanRun(w, run)
    ensures Inv(After(w, run))
    decreases |run|
  {
    if run != [] {
      ActionKeepsInv(w, run[0]);
      RunKeepsInv(Apply(w, run[0]), run[1..]);
    }
  }

  ghost predicate Reachable(w: World) {
    exists run :: CanRun(Start(), run) && After(Start(), run) == w
  }

  lemma ReachableInv(w: World)
    requires Reachable(w)
    ensures Inv(w)
  {
    var run :| CanRun(Start(), run) && After(Start(), run) == w;
    RunKeepsInv(Start(), run);
  }

  /** Hits, misses and dirty bypasses count exactly the lookups and checks that ended so. */
  lemma CountersCount(w: World)
    requires Reachable(w)
    ensures w.cache.stats == Tally(w.log)
  {
    ReachableInv(w);
  }

  ghost predicate ClearedBetween(log: seq<Event>, root: Path, i: nat, j: nat)
    requires j <= |log|
  {
    exists k :: i < k < j && log[k] == Cleared(root)
  }

  lemma {:induction false} DirtyPersists(log: seq<Event>, snapshots: map<SnapshotId, seq<FileDigest>>, root: Path,
                                         i: nat, j: nat)
    requires LogOk(log, snapshots) && i < j <= |log|
    requires log[i] == Dirtied(root) && !ClearedBetween(log, root, i, j)
    ensures StateOf(log[..j], root) == Some(Dirty)
  {
    assert log[..j][..j - 1] == log[..j - 1];
    if i < j - 1 {
      DirtyPersists(log, snapshots, root, i, j - 1);
      assert EventOk(log, snapshots, j - 1);
      assert log[j - 1] != Cleared(root);
    }
  }

  /**
   Once a root is marked dirty, and until it is invalidated, no lookup on it hits or even misses, and no
   validation in flight, however long ago it began, installs an entry.
   */
  lemma DirtyBlocks(w: World, root: Path, i: nat, j: nat)
    requires Reachable(w) && i < j < |w.log|
    requires w.log[i] == Dirtied(root) && w.log[j].root == root
    requires !ClearedBetween(w.log, root, i, j)
    ensures !w.log[j].Served? && !w.log[j].Missed? && !w.log[j].Installed?
  {
    ReachableInv(w);
    DirtyPersists(w.log, w.snapshots, root, i, j);
    assert EventOk(w.log, w.snapshots, j);
  }

  /**
   A hit answers with the normalised sorted digests of the snapshot asked for; they were installed since the
   root was last dirtied or invalidated, by a reader whose own earlier validation of that snapshot succeeded.
   */
  lemma HitIsValidated(w: World, h: nat)
    requires Reachable(w) && h < |w.log| && w.log[h].Served?
    ensures var hit := w.log[h];
      && Sound(w.snapshots, hit.root, hit.id, hit.digests)
      && exists v, i :: 0 <= v < i < h
           && w.log[v].Validated? && w.log[v].root == hit.root && w.log[v].id == hit.id
           && Fresh(hit.root, w.snapshots[hit.id], w.log[v].live)
           && w.log[i] == Installed(w.log[v].reader, hit.root, hit.id, hit.digests)
           && forall k :: i < k < h && w.log[k].root == hit.root ==> !w.log[k].Dirtied? && !w.log[k].Cleared?
  {
    ReachableInv(w);
    var hit := w.log[h];
    assert EventOk(w.log, w.snapshots, h);
    var p := w.log[..h];
    LogPrefix(w.log, w.snapshots, h);
    ReadyWasInstalled(p, w.snapshots, hit.root);
    var i :| 0 <= i < |p| && p[i].Installed? && p[i].root == hit.root && p[i].id == hit.id
      && p[i].digests == hit.digests
             && (forall k :: i < k < |p| && p[k].root == hit.root ==> !p[k].Dirtied? && !p[k].Cleared?);
    assert w.log[i] == p[i] && EventOk(w.log, w.snapshots, i);
    var v :| 0 <= v < i && w.log[v].Validated? && w.log[v].reader == w.log[i].reader
             && w.log[v].root == hit.root && w.log[v].id == hit.id;
    assert EventOk(w.log, w.snapshots, v);
    forall k | i < k < h && w.log[k].root == hit.root
      ensures !w.log[k].Dirtied? && !w.log[k].Cleared?
    {
      assert p[k] == w.log[k];
    }
  }

  /** A hit after a dirty mark needs an invalidation and then a new installation between them. */
  lemma HitAfterDirty(w: World, root: Path, d: nat, h: nat)
    requires Reachable(w) && d < h < |w.log|
    requires w.log[d] == Dirtied(root) && w.log[h].Served? && w.log[h].root == root
    ensures exists c, i :: d < c < i < h && w.log[c] == Cleared(root) && w.log[i].Installed? && w.log[i].root == root
  {
    HitIsValidated(w, h);
    var hit := w.log[h];
    var v, i :| 0 <= v < i < h && w.log[v].Validated?
      && w.log[i] == Installed(w.log[v].reader, hit.root, hit.id, hit.digests)
      && forall k :: i < k < h && w.log[k].root == hit.root ==> !w.log[k].Dirtied? && !w.log[k].Cleared?;
    assert d < i by {
      assert d != i;
    }
    if !ClearedBetween(w.log, root, d, i) {
      DirtyBlocks(w, root, d, i);
    }
    var c :| d < c < i && w.log[c] == Cleared(root);
  }

  /** A finished reader that answers, answers with its snapshot's normalised metadata, once validated. */
  lemma AnswersAreSound(w: World, t: nat)
    requires Reachable(w) && t in w.readers && w.readers[t].Done? && w.readers[t].outcome.Some?
    ensures var shared := w.readers[t].outcome.value;
      && shared.snapshotId in w.snapshots
      && shared.digests == NormalizedMetadata(w.readers[t].root, FileMetadataDigests(w.snapshots[shared.snapshotId]))
      && exists v :: 0 <= v < |w.log| && w.log[v].Validated? && w.log[v].root == w.readers[t].root
           && w.log[v].id == shared.snapshotId
  {
    ReachableInv(w);
    assert ReaderOk(w, t);
    var shared := w.readers[t].outcome.value;
    var who :| ValidatedBefore(w.log, |w.log|, who, w.readers[t].root, shared.snapshotId);
  }

  /** The root an action concerns. */
  ghost function RootOf(w: World, a: Action): Option<Path>
    requires Enabled(w, a)
  {
    match a
    case Begin(_, root, _) => Some(root)
    case MarkDirty(root) => Some(root)
    case Invalidate(root) => Some(root)
    case Publish(_, _) => None
    case _ => Some(w.readers[a.reader].root)
  }

  /** Whatever an action does, the entries of all other roots stay as they were. */
  lemma OtherRootsUntouched(w: World, a: Action, other: Path)
    requires Enabled(w, a) && RootOf(w, a) != Some(other)
    ensures EntryOf(Apply(w, a).cache.entries, other) == EntryOf(w.cache.entries, other)
  {}

  // ---- what invalidation does not protect against ----

  /**
   A validation that is slow to store can outlive a dirty mark: begun before the mark and stored after the
   invalidation, it is served although nothing was validated since the mark.
   */
  lemma SlowStoreIsServed(root: Path, id: SnapshotId)
    ensures exists w, v, d, h ::
      && Reachable(w) && 0 <= v < d < h < |w.log|
      && w.log[v].Validated? && w.log[d] == Dirtied(root) && w.log[h] == Served(1, root, id, [])
      && forall k :: d < k < |w.log| ==> !w.log[k].Validated?
  {
    hide Reachable, CanRun, After, Normalized, Fresh, LookUpAction, ValidateAction;
    var nothing: seq<FileDigest> := [];
    var snapshot := Snapshot(id, nothing);
    var w1 := World(Cache(map[], Stats(0, 0, 0)), map[id := nothing], map[], []);
    assert w1 == Apply(Start(), Publish(id, nothing));
    StartReachable();
    ReachableStep(Start(), Publish(id, nothing));
    var w2 := MissAndValidate(w1, root, snapshot);
    var w3 := Apply(w2, MarkDirty(root));
    ReachableStep(w2, MarkDirty(root));
    var w4 := Apply(w3, Invalidate(root));
    ReachableStep(w3, Invalidate(root));
    var w5 := Apply(w4, Store(0));
    ReachableStep(w4, Store(0));
    var w6 := HitCached(w5, root, snapshot);
    assert w6.log == w2.log + [Dirtied(root), Cleared(root), Installed(0, root, id, nothing), Began(1, root, true),
                               Loaded(1, root, Some(id)), Served(1, root, id, nothing)];
    assert w6.log[5].Validated? && w6.log[6] == Dirtied(root) && w6.log[11] == Served(1, root, id, nothing);
  }

  lemma MissAndValidate(w1: World, root: Path, snapshot: Snapshot) returns (w: World)
    requires Reachable(w1) && w1.readers == map[] && w1.log == [] && w1.cache.entries == map[]
    requires w1.snapshots == map[snapshot.id := []] && snapshot.entries == []
    ensures Reachable(w) && w.readers == map[0 := Storing(root, snapshot, [])] && w.cache.entries == map[]
    ensures w.snapshots == w1.snapshots
    ensures |w.log| == 6 && w.log[3].Missed? && w.log[4].WalkBegan? && w.log[5].Validated?
  {
    ReachableStep(w1, Begin(0, root, false));
    var a := Apply(w1, Begin(0, root, false));
    ReachableStep(a, CheckDirty(0));
    var b := Apply(a, CheckDirty(0));
    ReachableStep(b, Load(0, Some(snapshot.id)));
    var c := Apply(b, Load(0, Some(snapshot.id)));
    assert c.readers == map[0 := LookingUp(root, false, snapshot)];
    ReachableStep(c, LookUp(0));
    var d := Apply(c, LookUp(0));
    w := WalkAndValidate(d, root, snapshot);
  }

  lemma WalkAndValidate(d: World, root: Path, snapshot: Snapshot) returns (w: World)
    requires Reachable(d) && d.readers == map[0 := Preparing(root, snapshot)] && snapshot.entries == []
    ensures Reachable(w) && w.readers == map[0 := Storing(root, snapshot, [])] && w.cache == d.cache
    ensures w.snapshots == d.snapshots
    ensures w.log == d.log + [WalkBegan(0, root, snapshot.id), Validated(0, root, snapshot.id, BuildOutput([], []))]
  {
    var live := BuildOutput([], []);
    var nothing: seq<FileDigest> := [];
    assert Rebased(root, nothing) == nothing;
    assert Fresh(root, nothing, live);
    ReachableStep(d, BeginWalk(0));
    var e := Apply(d, BeginWalk(0));
    assert e.readers == map[0 := Walking(root, snapshot)];
    ReachableStep(e, Validate(0, Some(live)));
    w := Apply(e, Validate(0, Some(live)));
  }

  lemma HitCached(w5: World, root: Path, snapshot: Snapshot) returns (w: World)
    requires Reachable(w5) && 1 !in w5.readers && root in w5.cache.entries
    requires w5.cache.entries[root] == Ready(snapshot.id, [])
    requires snapshot.id in w5.snapshots && w5.snapshots[snapshot.id] == snapshot.entries
    ensures Reachable(w)
    ensures w.log == w5.log + [Began(1, root, true), Loaded(1, root, Some(snapshot.id)),
                               Served(1, root, snapshot.id, [])]
  {
    ReachableStep(w5, Begin(1, root, true));
    var a := Apply(w5, Begin(1, root, true));
    ReachableStep(a, Load(1, Some(snapshot.id)));
    var b := Apply(a, Load(1, Some(snapshot.id)));
    assert b.readers[1] == LookingUp(root, true, snapshot);
    ReachableStep(b, LookUp(1));
    w := Apply(b, LookUp(1));
  }

  lemma StartReachable()
    ensures Reachable(Start())
  {
    assert CanRun(Start(), []) && After(Start(), []) == Start();
  }

  lemma ReachableStep(w: World, a: Action)
    requires Reachable(w) && Enabled(w, a)
    ensures Reachable(Apply(w, a))
  {
    var run :| CanRun(Start(), run) && After(Start(), run) == w;
    RunExtends(Start(), run, a);
  }

  lemma {:induction false} RunExtends(w: World, run: seq<Action>, a: Action)
    requires CanRun(w, run) && Enabled(After(w, run), a)
    ensures CanRun(w, run + [a]) && After(w, run + [a]) == Apply(After(w, run), a)
    decreases |run|
  {
    if run == [] {
      assert (run + [a])[1..] == [];
    } else {
      RunExtends(Apply(w, run[0]), run[1..], a);
      assert (run + [a])[1..] == run[1..] + [a];
    }
  }
}
