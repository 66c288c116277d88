/**
 The program of one reader, read off the log of any run: which of its locked sections may follow which, and what it
 answers. A reader of cached snapshots only never walks the files.
 */
module ReaderProtocol {
  import opened Wrappers
  import opened ManifestValidation
  import opened ManifestCache

  predicate By(e: Event, t: nat) {
    !e.Dirtied? && !e.Cleared? && e.reader == t
  }

  /** The reader's last event. */
  ghost function LastOf(log: seq<Event>, t: nat): Option<Event> {
    if log == [] then None
    else if By(log[|log| - 1], t) then Some(log[|log| - 1])
    else LastOf(log[..|log| - 1], t)
  }

  /** Whether the reader last began as one of cached snapshots only. */
  ghost predicate CachedOnly(log: seq<Event>, t: nat) {
    log != [] &&
    var last := log[|log| - 1];
    if last.Began? && last.reader == t then last.cachedOnly else CachedOnly(log[..|log| - 1], t)
  }

  /** The event ends the reader's call. */
  predicate Ends(e: Event, cachedOnly: bool) {
    || e.FoundDirty? || e.Served? || e.Stale? || e.Installed? || e.Refused?
    || (e.Loaded? && e.latest.None?) || (e.Missed? && cachedOnly)
  }

  /** What must have come before an event, last by the same reader. */
  ghost predicate Legal(log: seq<Event>, e: Event) {
    match e
    case Dirtied(_) => true
    case Cleared(_) => true
    case Began(t, _, _) => LastOf(log, t).None? || Ends(LastOf(log, t).value, CachedOnly(log, t))
    case FoundClean(t, root) => LastOf(log, t) == Some(Began(t, root, false))
    case FoundDirty(t, root) =>
      || LastOf(log, t) == Some(Began(t, root, false))
      || exists id :: LastOf(log, t) == Some(Loaded(t, root, Some(id)))
    case Loaded(t, root, _) => LastOf(log, t) in {Some(Began(t, root, true)), Some(FoundClean(t, root))}
    case Missed(t, root, id) => LastOf(log, t) == Some(Loaded(t, root, Some(id)))
    case Served(t, root, id, _) => LastOf(log, t) == Some(Loaded(t, root, Some(id)))
    case WalkBegan(t, root, id) => LastOf(log, t) == Some(Missed(t, root, id)) && !CachedOnly(log, t)
    case Validated(t, root, id, _) => LastOf(log, t) == Some(WalkBegan(t, root, id))
    case Stale(t, root, id, _) => LastOf(log, t) == Some(WalkBegan(t, root, id))
    case Installed(t, root, id, _) => exists live :: LastOf(log, t) == Some(Validated(t, root, id, live))
    case Refused(t, root, id) => exists live :: LastOf(log, t) == Some(Validated(t, root, id, live))
  }

  ghost predicate AllLegal(log: seq<Event>) {
    forall i :: 0 <= i < |log| ==> Legal(log[..i], log[i])
  }

  /** What a reader is doing, and what it has answered, is what its last event says. */
  ghost predicate At(log: seq<Event>, t: nat, reader: Reader) {
    var last := LastOf(log, t);
    match reader
    case Entered(root) => !CachedOnly(log, t) && last == Some(Began(t, root, false))
    case Loading(root, cachedOnly) =>
      CachedOnly(log, t) == cachedOnly
      && last == Some(if cachedOnly then Began(t, root, true) else FoundClean(t, root))
    case LookingUp(root, cachedOnly, s) =>
      CachedOnly(log, t) == cachedOnly && last == Some(Loaded(t, root, Some(s.id)))
    case Preparing(root, s) => !CachedOnly(log, t) && last == Some(Missed(t, root, s.id))
    case Walking(root, s) => last == Some(WalkBegan(t, root, s.id))
    case Storing(root, s, _) => exists live :: last == Some(Validated(t, root, s.id, live))
    case Done(root, outcome) =>
      last.Some? && Ends(last.value, CachedOnly(log, t)) && last.value.root == root && Answers(last.value, outcome)
  }

  /** The answer a call ends with. */
  predicate Answers(last: Event, outcome: Option<Shared>) {
    match last
    case Served(_, _, id, digests) => outcome == Some(Shared(id, FileMetadataDigests(digests)))
    case Installed(_, _, id, digests) => outcome == Some(Shared(id, FileMetadataDigests(digests)))
    case Refused(_, _, id) => outcome.Some? && outcome.value.snapshotId == id
    case _ => outcome == None
  }

  ghost predicate Follows(w: World) {
    && AllLegal(w.log)
    && (forall t :: t in w.readers ==> At(w.log, t, w.readers[t]))
    && (forall t: nat :: t !in w.readers ==> LastOf(w.log, t).None?)
  }

  lemma Appended(log: seq<Event>, e: Event, t: nat)
    ensures LastOf(log + [e], t) == if By(e, t) then Some(e) else LastOf(log, t)
    ensures CachedOnly(log + [e], t) <==> if e.Began? && e.reader == t then e.cachedOnly else CachedOnly(log, t)
  {
    assert (log + [e])[..|log|] == log;
  }

  /** A legal event that says where its reader now is keeps the protocol. */
  lemma EventFollows(w: World, w': World, e: Event)
    requires Follows(w) && w'.log == w.log + [e] && Legal(w.log, e)
    requires e.Dirtied? || e.Cleared? ==> w'.readers == w.readers
    requires !e.Dirtied? && !e.Cleared? ==>
      && e.reader in w'.readers && w'.readers == w.readers[e.reader := w'.readers[e.reader]]
      && At(w'.log, e.reader, w'.readers[e.reader])
    ensures Follows(w')
  {
    hide Legal;
    forall i | 0 <= i < |w'.log|
      ensures Legal(w'.log[..i], w'.log[i])
    {
      if i < |w.log| {
        assert w'.log[..i] == w.log[..i] && w'.log[i] == w.log[i];
      } else {
        assert w'.log[..i] == w.log;
      }
    }
    forall t: nat | !By(e, t)
      ensures t in w'.readers ==> At(w'.log, t, w'.readers[t])
      ensures t !in w'.readers ==> LastOf(w'.log, t).None?
    {
      Appended(w.log, e, t);
    }
  }

  /** The event is legal, and says where its reader is then. */
  ghost predicate Stepped(w: World, w': World, e: Event) {
    && w'.log == w.log + [e] && !e.Dirtied? && !e.Cleared? && Legal(w.log, e)
    && e.reader in w'.readers && w'.readers == w.readers[e.reader := w'.readers[e.reader]]
    && At(w'.log, e.reader, w'.readers[e.reader])
  }

  lemma EntryStep(w: World, a: Action) returns (e: Event)
    requires Follows(w) && Enabled(w, a) && (a.Begin? || a.CheckDirty? || a.Load?)
    ensures Stepped(w, Apply(w, a), e)
  {
    var t := a.reader;
    assert t in w.readers ==> At(w.log, t, w.readers[t]);
    hide AllLegal, LastOf, CachedOnly;
    var w' := Apply(w, a);
    e := w'.log[|w.log|];
    assert w'.log == w.log + [e];
    Appended(w.log, e, t);
  }

  lemma LookUpStep(w: World, t: nat) returns (e: Event)
    requires Follows(w) && Enabled(w, LookUp(t))
    ensures Stepped(w, LookUpAction(w, t), e)
  {
    assert At(w.log, t, w.readers[t]);
    hide AllLegal, LastOf, CachedOnly;
    var w' := LookUpAction(w, t);
    e := w'.log[|w.log|];
    assert w'.log == w.log + [e];
    Appended(w.log, e, t);
  }

  lemma WalkStep(w: World, t: nat) returns (e: Event)
    requires Follows(w) && Enabled(w, BeginWalk(t))
    ensures Stepped(w, BeginWalkAction(w, t), e)
  {
    assert At(w.log, t, w.readers[t]);
    hide AllLegal, LastOf, CachedOnly;
    var w' := BeginWalkAction(w, t);
    e := w'.log[|w.log|];
    assert w'.log == w.log + [e];
    Appended(w.log, e, t);
  }

  lemma ValidateStep(w: World, t: nat, live: Option<BuildOutput<FileDigest>>) returns (e: Event)
    requires Follows(w) && Enabled(w, Validate(t, live))
    ensures Stepped(w, ValidateAction(w, t, live), e)
  {
    var Walking(root, snapshot) := w.readers[t];
    assert LastOf(w.log, t) == Some(WalkBegan(t, root, snapshot.id)) by {
      assert At(w.log, t, w.readers[t]);
    }
    hide Follows, LastOf, CachedOnly, Fresh, Normalized, Stepped;
    if live.Some? && Fresh(root, snapshot.entries, live.value) {
      e := Validated(t, root, snapshot.id, live.value);
      WalkEnds(w, t, root, snapshot, Storing(root, snapshot, Normalized(root, snapshot.entries)), e);
    } else {
      e := Stale(t, root, snapshot.id, live);
      WalkEnds(w, t, root, snapshot, Done(root, None), e);
    }
  }

  lemma WalkEnds(w: World, t: nat, root: Path, snapshot: Snapshot, next: Reader, e: Event)
    requires LastOf(w.log, t) == Some(WalkBegan(t, root, snapshot.id))
    requires || (e.Validated? && next.Storing? && next.root == root && next.snapshot == snapshot)
             || (e.Stale? && next == Done(root, None))
    requires By(e, t) && e.root == root && e.id == snapshot.id
    ensures Stepped(w, Move(w, w.cache, t, next, [e]), e)
  {
    Appended(w.log, e, t);
    hide LastOf, CachedOnly;
  }

  lemma StoreStep(w: World, t: nat) returns (e: Event)
    requires Follows(w) && Enabled(w, Store(t))
    ensures Stepped(w, StoreAction(w, t), e)
  {
    assert At(w.log, t, w.readers[t]);
    hide AllLegal, LastOf, CachedOnly;
    var w' := StoreAction(w, t);
    e := w'.log[|w.log|];
    assert w'.log == w.log + [e];
    Appended(w.log, e, t);
  }

  lemma ReaderStep(w: World, a: Action) returns (e: Event)
    requires Follows(w) && Enabled(w, a) && !a.MarkDirty? && !a.Invalidate? && !a.Publish?
    ensures Stepped(w, Apply(w, a), e)
  {
    hide Follows, Stepped, LookUpAction, BeginWalkAction, ValidateAction, StoreAction;
    match a {
      case LookUp(t) => e := LookUpStep(w, t);
      case BeginWalk(t) => e := WalkStep(w, t);
      case Validate(t, live) => e := ValidateStep(w, t, live);
      case Store(t) => e := StoreStep(w, t);
      case _ => e := EntryStep(w, a);
    }
  }

  lemma ActionFollows(w: World, a: Action)
    requires Follows(w) && Enabled(w, a)
    ensures Follows(Apply(w, a))
  {
    var w' := Apply(w, a);
    if a.Publish? {
    } else if a.MarkDirty? || a.Invalidate? {
      var e := w'.log[|w.log|];
      assert w'.log == w.log + [e];
      EventFollows(w, w', e);
    } else {
      var e := ReaderStep(w, a);
      hide Follows, Apply, Enabled, Legal, At;
      EventFollows(w, w', e);
    }
  }

  lemma {:induction false} RunFollows(w: World, run: seq<Action>)
    requires Follows(w) && CanRun(w, run)
    ensures Follows(After(w, run))
    decreases |run|
  {
    hide Follows, Enabled, Apply;
    if run != [] {
      ActionFollows(w, run[0]);
      RunFollows(Apply(w, run[0]), run[1..]);
    }
  }

  /** Every reader of every run follows its program. */
  lemma ReachableFollows(w: World)
    requires Reachable(w)
    ensures Follows(w)
  {
    var run :| CanRun(Start(), run) && After(Start(), run) == w;
    assert Follows(Start());
    RunFollows(Start(), run);
  }

  // ---- calls ----

  /** Up to `n` the reader is in the call it began at `b`. */
  ghost predicate InCall(log: seq<Event>, t: nat, b: nat, n: nat, root: Path, cachedOnly: bool)
    requires n <= |log|
  {
    && b < n && log[b] == Began(t, root, cachedOnly)
    && forall i :: b < i < n ==> !(log[i].Began? && log[i].reader == t)
  }

  /** The last event of the reader is one of its call, and knows what the call is. */
  lemma {:induction false} LastInCall(log: seq<Event>, t: nat, b: nat, n: nat, root: Path, cachedOnly: bool)
    returns (i: nat)
    requires n <= |log| && InCall(log, t, b, n, root, cachedOnly)
    ensures CachedOnly(log[..n], t) == cachedOnly
    ensures b <= i < n && By(log[i], t) && LastOf(log[..n], t) == Some(log[i])
    ensures forall k :: i < k < n ==> !By(log[k], t)
  {
    assert log[..n][..n - 1] == log[..n - 1] && log[..n][n - 1] == log[n - 1];
    i := n - 1;
    if b < n - 1 {
      var before := LastInCall(log, t, b, n - 1, root, cachedOnly);
      if !By(log[n - 1], t) {
        i := before;
      }
    }
  }

  lemma {:induction false} CachedOnlySteps(log: seq<Event>, t: nat, b: nat, j: nat, root: Path)
    requires AllLegal(log) && b < j < |log| && InCall(log, t, b, j + 1, root, true) && By(log[j], t)
    ensures log[j].root == root && (log[j].Loaded? || log[j].FoundDirty? || log[j].Missed? || log[j].Served?)
  {
    assert Legal(log[..j], log[j]);
    var i := LastInCall(log, t, b, j, root, true);
    hide AllLegal, LastOf, CachedOnly;
    if i > b {
      CachedOnlySteps(log, t, b, i, root);
    }
  }

  /**
   A reader of cached snapshots only, over every run, neither checks for a dirty root first nor walks, validates or
   stores; all it does is load the newest snapshot's id and look that up, on its own root.
   */
  lemma CachedOnlyNeverWalks(w: World, t: nat, b: nat, j: nat, root: Path)
    requires Reachable(w) && b < j < |w.log| && InCall(w.log, t, b, j + 1, root, true) && By(w.log[j], t)
    ensures !w.log[j].FoundClean? && !w.log[j].WalkBegan? && !w.log[j].Validated? && !w.log[j].Stale?
    ensures !w.log[j].Installed? && !w.log[j].Refused?
    ensures w.log[j].root == root
  {
    ReachableFollows(w);
    CachedOnlySteps(w.log, t, b, j, root);
  }

  /** The event that comes directly before an event of the reader, among its own. */
  ghost predicate Next(log: seq<Event>, t: nat, i: nat, j: nat) {
    i < j < |log| && By(log[i], t) && By(log[j], t) && forall k :: i < k < j ==> !By(log[k], t)
  }

  lemma {:induction false} Previous(log: seq<Event>, t: nat, n: nat) returns (i: nat)
    requires n <= |log| && LastOf(log[..n], t).Some?
    ensures i < n && LastOf(log[..n], t) == Some(log[i]) && By(log[i], t) && forall k :: i < k < n ==> !By(log[k], t)
  {
    assert log[..n][..n - 1] == log[..n - 1] && log[..n][n - 1] == log[n - 1];
    if By(log[n - 1], t) {
      i := n - 1;
    } else {
      i := Previous(log, t, n - 1);
    }
  }

  lemma {:induction false} LastIs(log: seq<Event>, t: nat, i: nat, n: nat)
    requires i < n <= |log| && By(log[i], t) && forall k :: i < k < n ==> !By(log[k], t)
    ensures LastOf(log[..n], t) == Some(log[i])
  {
    assert log[..n][..n - 1] == log[..n - 1] && log[..n][n - 1] == log[n - 1];
    if i < n - 1 {
      LastIs(log, t, i, n - 1);
    }
  }

  /** What has found the root dirty, been served, gone stale, stored or been refused, or found no snapshot, is over. */
  lemma NothingAfterTheEnd(w: World, t: nat, i: nat, j: nat)
    requires Reachable(w) && Next(w.log, t, i, j)
    requires || w.log[i].FoundDirty? || w.log[i].Served? || w.log[i].Stale? || w.log[i].Installed? || w.log[i].Refused?
             || w.log[i] == Loaded(t, w.log[i].root, None)
    ensures w.log[j].Began?
  {
    ReachableFollows(w);
    LastIs(w.log, t, i, j);
    assert Legal(w.log[..j], w.log[j]);
  }

  lemma PreviousStep(log: seq<Event>, t: nat, j: nat) returns (i: nat)
    requires AllLegal(log) && j < |log| && By(log[j], t) && !log[j].Began?
    ensures Next(log, t, i, j) && LastOf(log[..j], t) == Some(log[i]) && Legal(log[..j], log[j])
  {
    hide LastOf;
    i := Previous(log, t, j);
  }

  /** A miss a walk follows was one of a reader that may walk: it found its root clean, and loaded the snapshot's id. */
  lemma MissedAfterClean(log: seq<Event>, k: nat) returns (b: nat, c: nat, l: nat, m: nat)
    requires AllLegal(log) && k < |log| && log[k].WalkBegan?
    ensures var t, root, id := log[k].reader, log[k].root, log[k].id;
      && Next(log, t, b, c) && log[b] == Began(t, root, false)
      && Next(log, t, c, l) && log[c] == FoundClean(t, root)
      && Next(log, t, l, m) && log[l] == Loaded(t, root, Some(id))
      && Next(log, t, m, k) && log[m] == Missed(t, root, id)
  {
    var t, root := log[k].reader, log[k].root;
    hide AllLegal, LastOf, CachedOnly;
    m := PreviousStep(log, t, k);
    l := PreviousStep(log, t, m);
    c := PreviousStep(log, t, l);
    if log[c] == Began(t, root, true) {
      var _ := LastInCall(log, t, c, k, root, true);
      assert false;
    }
    b := PreviousStep(log, t, c);
  }

  /** What a reader stores, or is refused, it missed, walked and validated itself, in this order, for this snapshot. */
  lemma StoredWasWalked(w: World, i: nat) returns (b: nat, c: nat, l: nat, m: nat, k: nat, v: nat)
    requires Reachable(w) && i < |w.log| && (w.log[i].Installed? || w.log[i].Refused?)
    ensures var t, root, id := w.log[i].reader, w.log[i].root, w.log[i].id;
      && Next(w.log, t, b, c) && w.log[b] == Began(t, root, false)
      && Next(w.log, t, c, l) && w.log[c] == FoundClean(t, root)
      && Next(w.log, t, l, m) && w.log[l] == Loaded(t, root, Some(id))
      && Next(w.log, t, m, k) && w.log[m] == Missed(t, root, id)
      && Next(w.log, t, k, v) && w.log[k] == WalkBegan(t, root, id)
      && Next(w.log, t, v, i) && w.log[v].Validated? && w.log[v].root == root && w.log[v].id == id
  {
    ReachableFollows(w);
    assert AllLegal(w.log);
    hide Follows, AllLegal, LastOf, CachedOnly;
    v := PreviousStep(w.log, w.log[i].reader, i);
    k := PreviousStep(w.log, w.log[i].reader, v);
    b, c, l, m := MissedAfterClean(w.log, k);
  }

  // ---- answers ----

  /** The event a call has ended with. */
  lemma LastOfCall(w: World, t: nat) returns (n: nat)
    requires Reachable(w) && t in w.readers && w.readers[t].Done?
    ensures n < |w.log| && By(w.log[n], t) && forall k :: n < k < |w.log| ==> !By(w.log[k], t)
    ensures w.log[n].root == w.readers[t].root && Answers(w.log[n], w.readers[t].outcome)
    ensures Ends(w.log[n], CachedOnly(w.log, t))
  {
    ReachableFollows(w);
    assert At(w.log, t, w.readers[t]);
    hide LastOf, CachedOnly, Ends, Answers;
    assert w.log[..|w.log|] == w.log;
    n := Previous(w.log, t, |w.log|);
  }

  /** Once served, a call has no further event. */
  lemma {:induction false} ServedEnds(log: seq<Event>, t: nat, b: nat, h: nat, n: nat, root: Path, cachedOnly: bool)
    requires AllLegal(log) && b < h < n < |log| && InCall(log, t, b, n + 1, root, cachedOnly)
    requires By(log[h], t) && log[h].Served? && By(log[n], t)
    ensures false
  {
    hide AllLegal, LastOf, CachedOnly;
    var i := PreviousStep(log, t, n);
    if i > h {
      ServedEnds(log, t, b, h, i, root, cachedOnly);
    }
  }

  /** The event a call has ended with lies in the call. */
  lemma EndOfCall(w: World, t: nat, b: nat, root: Path, cachedOnly: bool) returns (n: nat)
    requires Reachable(w) && t in w.readers && w.readers[t].Done? && InCall(w.log, t, b, |w.log|, root, cachedOnly)
    ensures b < n < |w.log| && By(w.log[n], t) && w.log[n].root == w.readers[t].root
    ensures Answers(w.log[n], w.readers[t].outcome) && Ends(w.log[n], cachedOnly)
    ensures forall k :: n < k < |w.log| ==> !By(w.log[k], t)
  {
    n := LastOfCall(w, t);
    var i := LastInCall(w.log, t, b, |w.log|, root, cachedOnly);
    assert w.log[..|w.log|] == w.log;
    hide LastOf, CachedOnly, Answers;
    assert i == n;
  }

  lemma {:induction false} CallRoot(log: seq<Event>, t: nat, b: nat, j: nat, root: Path, cachedOnly: bool)
    requires AllLegal(log) && b <= j < |log| && InCall(log, t, b, j + 1, root, cachedOnly) && By(log[j], t)
    ensures log[j].root == root
  {
    hide AllLegal, LastOf, CachedOnly;
    if b < j {
      var i := PreviousStep(log, t, j);
      CallRoot(log, t, b, i, root, cachedOnly);
    }
  }

  lemma ServedWasLoaded(log: seq<Event>, t: nat, b: nat, n: nat) returns (l: nat)
    requires AllLegal(log) && b < n < |log| && By(log[b], t) && log[b].Began? && By(log[n], t) && log[n].Served?
    ensures b < l < n && log[l] == Loaded(t, log[n].root, Some(log[n].id))
  {
    hide AllLegal, LastOf, CachedOnly;
    l := PreviousStep(log, t, n);
  }

  /**
   A finished reader of cached snapshots only answers with what a lookup of its own has served, for the snapshot it
   has itself loaded; otherwise it has loaded none, found the root dirty, or missed, and answers nothing at once.
   */
  lemma CachedOnlyAnswers(w: World, t: nat, b: nat, root: Path) returns (n: nat)
    requires Reachable(w) && t in w.readers && w.readers[t].Done? && InCall(w.log, t, b, |w.log|, root, true)
    ensures w.readers[t].root == root && b < n < |w.log| && By(w.log[n], t) && w.log[n].root == root
    ensures w.readers[t].outcome.Some? ==>
              var shared := w.readers[t].outcome.value;
              && w.log[n].Served? && w.log[n].id == shared.snapshotId
              && FileMetadataDigests(w.log[n].digests) == shared.digests
              && exists l :: b < l < n && w.log[l] == Loaded(t, root, Some(shared.snapshotId))
    ensures w.readers[t].outcome.None? ==>
              && (w.log[n] == Loaded(t, root, None) || w.log[n].FoundDirty? || w.log[n].Missed?)
              && forall h :: b < h < |w.log| && By(w.log[h], t) ==> !w.log[h].Served?
  {
    ReachableFollows(w);
    n := EndOfCall(w, t, b, root, true);
    assert AllLegal(w.log);
    hide Follows, AllLegal;
    CachedOnlySteps(w.log, t, b, n, root);
    if w.log[n].Served? {
      var l := ServedWasLoaded(w.log, t, b, n);
    }
    forall h | b < h < n && By(w.log[h], t)
      ensures !w.log[h].Served?
    {
      if w.log[h].Served? {
        ServedEnds(w.log, t, b, h, n, root, true);
      }
    }
  }

  /**
   A finished reader that may walk answers with what a lookup of its own has served, or with what it has itself
   validated; otherwise it has loaded no snapshot, found the root dirty, or seen other files than the snapshot's. It
   never gives up on a miss.
   */
  lemma FullAnswers(w: World, t: nat, b: nat, root: Path) returns (n: nat)
    requires Reachable(w) && t in w.readers && w.readers[t].Done? && InCall(w.log, t, b, |w.log|, root, false)
    ensures w.readers[t].root == root && b < n < |w.log| && By(w.log[n], t) && w.log[n].root == root
    ensures w.readers[t].outcome.Some? ==>
              var shared := w.readers[t].outcome.value;
              && (w.log[n].Served? || w.log[n].Installed? || w.log[n].Refused?) && w.log[n].id == shared.snapshotId
              && (w.log[n].Refused? || FileMetadataDigests(w.log[n].digests) == shared.digests)
    ensures w.readers[t].outcome.None? ==>
              || w.log[n] == Loaded(t, root, None) || w.log[n].FoundDirty?
              || (w.log[n].Stale? && w.log[n].id in w.snapshots
                  && (w.log[n].walked.Some? ==> !Fresh(root, w.snapshots[w.log[n].id], w.log[n].walked.value)))
  {
    ReachableFollows(w);
    n := EndOfCall(w, t, b, root, false);
    CallRoot(w.log, t, b, n, root, false);
    ReachableInv(w);
    hide Follows;
    assert EventOk(w.log, w.snapshots, n);
  }
}
