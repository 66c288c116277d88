/**
 Exactly when a dirty mark protects: what is served after the mark comes from a walk of the file system that
 began after it, on every run, just when no reader was past the beginning of its walk as the mark was made.
 */
module DirtyMark {
  import opened Wrappers
  import opened ManifestValidation
  import opened ManifestCache

  /** A walk of the reader for the snapshot began after `d` and before `n`. */
  ghost predicate BeganSince(log: seq<Event>, d: nat, n: nat, reader: nat, root: Path, id: SnapshotId)
    requires n <= |log|
  {
    exists b :: d < b < n && log[b] == WalkBegan(reader, root, id)
  }

  /** A whole walk of the reader, from its beginning to its success, lies after `d` and before `n`. */
  ghost predicate WalkedSince(log: seq<Event>, d: nat, n: nat, reader: nat, root: Path, id: SnapshotId)
    requires n <= |log|
  {
    exists v :: d < v < n && log[v].Validated? && log[v].reader == reader && log[v].root == root && log[v].id == id
                && BeganSince(log, d, v, reader, root, id)
  }

  /** Every hit on the root after `d` was installed by a reader whose whole walk lies after `d`. */
  ghost predicate ServesFresh(log: seq<Event>, root: Path, d: nat) {
    forall h :: d < h < |log| && log[h].Served? && log[h].root == root ==>
      exists i :: d < i < h && log[i].Installed? && log[i].root == root
                  && log[i].id == log[h].id && log[i].digests == log[h].digests
                  && WalkedSince(log, d, i, log[i].reader, root, log[i].id)
  }

  /**
   The reader may still install on the root what an earlier walk has seen, if only in part; a snapshot with a path
   outside the root never validates.
   */
  ghost predicate Committed(reader: Reader, root: Path) {
    reader.root == root
    && (reader.Storing? || (reader.Walking? && AllInside(root, reader.snapshot.entries)))
  }

  ghost predicate NoneCommitted(w: World, root: Path) {
    forall t :: t in w.readers ==> !Committed(w.readers[t], root)
  }

  /** Since the mark at `d`, whoever may store, or has installed, on the root began its walk after it. */
  ghost predicate FreshSince(w: World, root: Path, d: nat) {
    && d < |w.log| && w.log[d] == Dirtied(root)
    && (forall t :: t in w.readers && Committed(w.readers[t], root) ==>
          var id := w.readers[t].snapshot.id;
          if w.readers[t].Walking? then BeganSince(w.log, d, |w.log|, t, root, id)
          else WalkedSince(w.log, d, |w.log|, t, root, id))
    && (forall i :: d < i < |w.log| && w.log[i].Installed? && w.log[i].root == root ==>
          WalkedSince(w.log, d, i, w.log[i].reader, root, w.log[i].id))
  }

  lemma BeganStays(log: seq<Event>, more: seq<Event>, d: nat, n: nat, reader: nat, root: Path, id: SnapshotId)
    requires n <= |log| && BeganSince(log, d, n, reader, root, id)
    ensures BeganSince(log + more, d, n, reader, root, id)
    ensures BeganSince(log + more, d, |log + more|, reader, root, id)
  {
    var b :| d < b < n && log[b] == WalkBegan(reader, root, id);
    assert (log + more)[b] == log[b];
  }

  lemma WalkedStays(log: seq<Event>, more: seq<Event>, d: nat, n: nat, reader: nat, root: Path, id: SnapshotId)
    requires n <= |log| && WalkedSince(log, d, n, reader, root, id)
    ensures WalkedSince(log + more, d, n, reader, root, id)
    ensures WalkedSince(log + more, d, |log + more|, reader, root, id)
  {
    var v :| d < v < n && log[v].Validated? && log[v].reader == reader && log[v].root == root && log[v].id == id
             && BeganSince(log, d, v, reader, root, id);
    BeganStays(log, more, d, v, reader, root, id);
    assert (log + more)[v] == log[v];
  }

  /** How a reader comes to be committed, and what an installation takes. */
  lemma ActionAppends(w: World, a: Action) returns (more: seq<Event>)
    requires Enabled(w, a)
    ensures var w' := Apply(w, a);
      && w'.log == w.log + more && |more| <= 1
      && (forall t, root :: t in w'.readers && Committed(w'.readers[t], root) ==>
            || (t in w.readers && w'.readers[t] == w.readers[t])
            || (w'.readers[t].Walking? && more == [WalkBegan(t, root, w'.readers[t].snapshot.id)])
            || (w'.readers[t].Storing? && t in w.readers && Committed(w.readers[t], root) && w.readers[t].Walking?
                && w.readers[t].snapshot == w'.readers[t].snapshot && |more| == 1 && more[0].Validated?
                && more[0].reader == t && more[0].root == root && more[0].id == w'.readers[t].snapshot.id))
      && (|more| == 1 && more[0].Installed? ==>
            var t := more[0].reader;
            && t in w.readers && w.readers[t].Storing? && w.readers[t].root == more[0].root
            && w.readers[t].snapshot.id == more[0].id)
  {
    var w' := Apply(w, a);
    assert w.log + [] == w.log;
    more := w'.log[|w.log|..];
  }

  lemma CommittedStaysFresh(w: World, w': World, more: seq<Event>, root: Path, d: nat, t: nat)
    requires FreshSince(w, root, d) && w'.log == w.log + more && t in w'.readers && Committed(w'.readers[t], root)
    requires || (t in w.readers && w'.readers[t] == w.readers[t])
             || (w'.readers[t].Walking? && more == [WalkBegan(t, root, w'.readers[t].snapshot.id)])
             || (w'.readers[t].Storing? && t in w.readers && Committed(w.readers[t], root) && w.readers[t].Walking?
                 && w.readers[t].snapshot == w'.readers[t].snapshot && |more| == 1 && more[0].Validated?
                 && more[0].reader == t && more[0].root == root && more[0].id == w'.readers[t].snapshot.id)
    ensures var id := w'.readers[t].snapshot.id;
      if w'.readers[t].Walking? then BeganSince(w'.log, d, |w'.log|, t, root, id)
      else WalkedSince(w'.log, d, |w'.log|, t, root, id)
  {
    var id := w'.readers[t].snapshot.id;
    if t in w.readers && w'.readers[t] == w.readers[t] {
      if w.readers[t].Walking? {
        BeganStays(w.log, more, d, |w.log|, t, root, id);
      } else {
        WalkedStays(w.log, more, d, |w.log|, t, root, id);
      }
    } else if w'.readers[t].Walking? {
      assert w'.log[|w.log|] == WalkBegan(t, root, id);
    } else {
      BeganStays(w.log, more, d, |w.log|, t, root, id);
      assert w'.log[|w.log|] == more[0];
    }
  }

  lemma ActionKeepsFresh(w: World, a: Action, root: Path, d: nat)
    requires Enabled(w, a) && FreshSince(w, root, d)
    ensures FreshSince(Apply(w, a), root, d)
  {
    var more := ActionAppends(w, a);
    hide Apply;
    var w' := Apply(w, a);
    forall t | t in w'.readers && Committed(w'.readers[t], root)
      ensures var id := w'.readers[t].snapshot.id;
        if w'.readers[t].Walking? then BeganSince(w'.log, d, |w'.log|, t, root, id)
        else WalkedSince(w'.log, d, |w'.log|, t, root, id)
    {
      CommittedStaysFresh(w, w', more, root, d, t);
    }
    hide Committed;
    forall i | d < i < |w'.log| && w'.log[i].Installed? && w'.log[i].root == root
      ensures WalkedSince(w'.log, d, i, w'.log[i].reader, root, w'.log[i].id)
    {
      if i < |w.log| {
        WalkedStays(w.log, more, d, i, w.log[i].reader, root, w.log[i].id);
      } else {
        StoringIsCommitted(w.readers[more[0].reader]);
        WalkedStays(w.log, more, d, i, more[0].reader, root, more[0].id);
      }
    }
  }

  lemma StoringIsCommitted(reader: Reader)
    ensures reader.Storing? ==> Committed(reader, reader.root)
  {}

  /** Once no walk from before the mark is left, none comes back, over every run. */
  lemma {:induction false} RunKeepsFresh(w: World, run: seq<Action>, root: Path, d: nat)
    requires CanRun(w, run) && FreshSince(w, root, d)
    ensures FreshSince(After(w, run), root, d)
    decreases |run|
  {
    if run != [] {
      ActionKeepsFresh(w, run[0], root, d);
      RunKeepsFresh(Apply(w, run[0]), run[1..], root, d);
    }
  }

  lemma FreshServes(w: World, root: Path, d: nat)
    requires Inv(w) && FreshSince(w, root, d)
    ensures ServesFresh(w.log, root, d)
  {
    forall h | d < h < |w.log| && w.log[h].Served? && w.log[h].root == root
      ensures exists i :: d < i < h && w.log[i].Installed? && w.log[i].root == root
                && w.log[i].id == w.log[h].id && w.log[i].digests == w.log[h].digests
                && WalkedSince(w.log, d, i, w.log[i].reader, root, w.log[i].id)
    {
      assert EventOk(w.log, w.snapshots, h);
      var p := w.log[..h];
      LogPrefix(w.log, w.snapshots, h);
      ReadyWasInstalled(p, w.snapshots, root);
      var i :| 0 <= i < |p| && p[i].Installed? && p[i].root == root && p[i].id == w.log[h].id
               && p[i].digests == w.log[h].digests
               && (forall k :: i < k < |p| && p[k].root == root ==> !p[k].Dirtied? && !p[k].Cleared?);
      assert w.log[i] == p[i] && p[d] == w.log[d];
      assert d < i;
    }
  }

  lemma UnusedReader(readers: map<nat, Reader>) returns (t: nat)
    ensures t !in readers
  {
    t := 0;
    while t in readers
      invariant forall u: nat :: u < t ==> u in readers
      decreases |readers| - t
    {
      InitialReaders(readers, t);
      t := t + 1;
    }
  }

  lemma {:induction false} InitialReaders(readers: map<nat, Reader>, t: nat)
    requires t in readers && forall u: nat :: u < t ==> u in readers
    ensures t < |readers|
  {
    if t > 0 {
      var fewer := readers - {t};
      InitialReaders(fewer, t - 1);
      assert readers == fewer[t := readers[t]];
    }
  }

  /** A run given with every state it passes through. */
  lemma {:induction false} StepsRun(w: World, run: seq<Action>, worlds: seq<World>)
    requires |worlds| == |run| + 1 && worlds[0] == w
    requires forall i :: 0 <= i < |run| ==> Enabled(worlds[i], run[i]) && worlds[i + 1] == Apply(worlds[i], run[i])
    ensures CanRun(w, run) && After(w, run) == worlds[|run|]
    decreases |run|
  {
    hide Enabled, Apply;
    if run != [] {
      StepsRun(worlds[1], run[1..], worlds[1..]);
    }
  }

  /** From an installed snapshot an unused reader is served. */
  lemma InstalledIsServed(w: World, root: Path, id: SnapshotId, digests: seq<FileDigest>, u: nat)
    returns (run: seq<Action>, worlds: seq<World>)
    requires u !in w.readers && EntryOf(w.cache.entries, root) == Some(Ready(id, digests)) && id in w.snapshots
    ensures |run| == 3 && |worlds| == 4 && worlds[0] == w
    ensures forall i :: 0 <= i < |run| ==> Enabled(worlds[i], run[i]) && worlds[i + 1] == Apply(worlds[i], run[i])
    ensures worlds[3].log == w.log + [Began(u, root, true), Loaded(u, root, Some(id)), Served(u, root, id, digests)]
  {
    var w1 := Apply(w, Begin(u, root, true));
    var w2 := Apply(w1, Load(u, Some(id)));
    assert w2.readers[u] == LookingUp(root, true, Snapshot(id, w.snapshots[id]));
    var w3 := Apply(w2, LookUp(u));
    run, worlds := [Begin(u, root, true), Load(u, Some(id)), LookUp(u)], [w, w1, w2, w3];
    assert w2.log == w.log + [Began(u, root, true), Loaded(u, root, Some(id))];
  }

  /** From a state in which a reader is about to store, invalidation and two readers serve what it has. */
  lemma StoredIsServed(w: World, root: Path, t: nat) returns (run: seq<Action>, worlds: seq<World>)
    requires t in w.readers && w.readers[t].Storing? && w.readers[t].root == root
    requires EntryOf(w.cache.entries, root) == None && w.readers[t].snapshot.id in w.snapshots
    ensures |worlds| == |run| + 1 && worlds[0] == w
    ensures forall i :: 0 <= i < |run| ==> Enabled(worlds[i], run[i]) && worlds[i + 1] == Apply(worlds[i], run[i])
    ensures var Storing(_, s, digests) := w.readers[t];
      exists u :: worlds[|run|].log == w.log + [Installed(t, root, s.id, digests), Began(u, root, true),
                                                Loaded(u, root, Some(s.id)), Served(u, root, s.id, digests)]
  {
    var Storing(_, s, digests) := w.readers[t];
    var u := UnusedReader(w.readers);
    var next := Apply(w, Store(t));
    assert next.log == w.log + [Installed(t, root, s.id, digests)];
    var rest, after := InstalledIsServed(next, root, s.id, digests, u);
    run, worlds := [Store(t)] + rest, [w] + after;
    assert worlds[|run|].log == w.log + [Installed(t, root, s.id, digests), Began(u, root, true),
                                         Loaded(u, root, Some(s.id)), Served(u, root, s.id, digests)];
  }

  /** What a walk reports that finds exactly the snapshot's files. */
  lemma SameFilesValidate(root: Path, entries: seq<FileDigest>)
    requires AllInside(root, entries)
    ensures Fresh(root, entries, BuildOutput(entries, []))
  {}

  /**
   A committed reader makes a run whose hit comes from a walk that began before the mark: it ends its walk, if it has
   not yet, and stores after an invalidation.
   */
  lemma CommittedServesStale(w: World, root: Path, t: nat) returns (run: seq<Action>)
    requires Inv(w) && t in w.readers && Committed(w.readers[t], root)
    ensures CanRun(Apply(w, MarkDirty(root)), run)
    ensures !ServesFresh(After(Apply(w, MarkDirty(root)), run).log, root, |w.log|)
  {
    hide LogOk, StateOf, Tally, Normalized, Fresh;
    assert ReaderOk(w, t);
    var w1 := Apply(w, MarkDirty(root));
    var w2 := Apply(w1, Invalidate(root));
    var first, worlds := [Invalidate(root)], [w1];
    var w3, between := w2, [];
    if w.readers[t].Walking? {
      var s := w.readers[t].snapshot;
      var live := BuildOutput(s.entries, []);
      SameFilesValidate(root, s.entries);
      w3 := Apply(w2, Validate(t, Some(live)));
      first, worlds, between := first + [Validate(t, Some(live))], worlds + [w2], [Validated(t, root, s.id, live)];
    }
    assert w3.log == w.log + [Dirtied(root), Cleared(root)] + between;
    var rest, after := StoredIsServed(w3, root, t);
    run, worlds := first + rest, worlds + after;
    StepsRun(w1, run, worlds);
    StaleLog(w.log, worlds[|run|].log, between, root);
  }

  /** A log that goes on from the mark without a walk that begins, and ends in a hit, is not fresh. */
  lemma StaleLog(was: seq<Event>, log: seq<Event>, between: seq<Event>, root: Path)
    requires |between| <= 1 && forall e :: e in between ==> e.Validated?
    requires exists t, u, id, digests :: log == was + [Dirtied(root), Cleared(root)] + between
               + [Installed(t, root, id, digests), Began(u, root, true), Loaded(u, root, Some(id)),
                  Served(u, root, id, digests)]
    ensures !ServesFresh(log, root, |was|)
  {
    var h := |log| - 1;
    assert log[h].Served? && log[h].root == root && |was| < h;
    forall b | |was| < b < |log|
      ensures !log[b].WalkBegan?
    {
      if |between| == 1 {
        assert between[0] in between;
      }
    }
  }

  /**
   A dirty mark guarantees, over every later run, that whatever is served on the root was installed by a reader whose
   walk began after the mark, if and only if, when the mark is made, no reader is about to store on the root and none
   is walking it for a snapshot that can validate.
   */
  lemma DirtyMarkProtectsIff(w: World, root: Path)
    requires Reachable(w)
    ensures (forall run :: CanRun(Apply(w, MarkDirty(root)), run) ==>
               ServesFresh(After(Apply(w, MarkDirty(root)), run).log, root, |w.log|))
       <==> NoneCommitted(w, root)
  {
    ReachableInv(w);
    var marked := Apply(w, MarkDirty(root));
    if NoneCommitted(w, root) {
      assert FreshSince(marked, root, |w.log|);
      ActionKeepsInv(w, MarkDirty(root));
      hide Apply, FreshSince, ServesFresh;
      forall run | CanRun(marked, run)
        ensures ServesFresh(After(marked, run).log, root, |w.log|)
      {
        RunKeepsInv(marked, run);
        RunKeepsFresh(marked, run, root, |w.log|);
        FreshServes(After(marked, run), root, |w.log|);
      }
    } else {
      var t :| t in w.readers && Committed(w.readers[t], root);
      var run := CommittedServesStale(w, root, t);
    }
  }
}
