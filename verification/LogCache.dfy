/**
 The log summary cache while the logs grow. A caller takes the file's size and time, looks the summary up under
 them, and on a miss reads the file and inserts; other callers and the writers of the logs act in between.
 */
module LogCache {
  import opened Wrappers
  import FifoCache

  /** What a summary is cached under: the file, its size and modification time, and the date window. */
  datatype Key<W> = Key(path: nat, size: nat, modified: int, window: W)

  /** Where a caller is; an answer keeps the file's size at the moment it was given. */
  datatype Caller<W, V> =
    | Starting(path: nat, window: W)
    | LookingUp(key: Key<W>)
    | Reading(key: Key<W>)
    | Storing(key: Key<W>, value: V)
    | Answered(key: Key<W>, value: V, sizeThen: nat)

  /** The logs, which only grow; the cache, as the history of its insertions; and the callers. */
  datatype System<T, W, V> = System(files: seq<seq<T>>, history: seq<(Key<W>, V)>, callers: seq<Caller<W, V>>)

  datatype Action<T> =
    | Append(path: nat, more: seq<T>)
    | Continue(caller: nat, modified: int)

  function PathOf<W, V>(caller: Caller<W, V>): nat {
    if caller.Starting? then caller.path else caller.key.path
  }

  predicate Enabled<T, W, V>(s: System<T, W, V>, a: Action<T>) {
    match a
    case Append(path, _) => path < |s.files|
    case Continue(t, _) => t < |s.callers| && PathOf(s.callers[t]) < |s.files|
  }

  function Cached<W(==), V>(history: seq<(Key<W>, V)>, limit: nat, key: Key<W>): Option<V> {
    if key in FifoCache.Newest(FifoCache.NewKeys(history, limit), limit) then FifoCache.LastValue(history, key)
      else None
  }

  /** The next step of a caller; the modification time it finds may be any. */
  function Next<T, W(==), V>(s: System<T, W, V>, limit: nat, summarize: (W, seq<T>) -> V, t: nat, modified: int):
    (r: System<T, W, V>)
    requires Enabled(s, Continue(t, modified))
  {
    var size := |s.files[PathOf(s.callers[t])]|;
    match s.callers[t]
    case Starting(path, window) => s.(callers := s.callers[t := LookingUp(Key(path, size, modified, window))])
    case LookingUp(key) =>
      var found := Cached(s.history, limit, key);
      s.(callers := s.callers[t := if found.Some? then Answered(key, found.value, size) else Reading(key)])
    case Reading(key) => s.(callers := s.callers[t := Storing(key, summarize(key.window, s.files[key.path]))])
    case Storing(key, value) =>
      s.(history := s.history + [(key, value)], callers := s.callers[t := Answered(key, value, size)])
    case Answered(_, _, _) => s
  }

  function Apply<T, W(==), V>(s: System<T, W, V>, limit: nat, summarize: (W, seq<T>) -> V, a: Action<T>):
    (r: System<T, W, V>)
    requires Enabled(s, a)
  {
    match a
    case Append(path, more) => s.(files := s.files[path := s.files[path] + more])
    case Continue(t, modified) => Next(s, limit, summarize, t, modified)
  }

  predicate CanRun<T, W(==), V>(s: System<T, W, V>, limit: nat, summarize: (W, seq<T>) -> V, run: seq<Action<T>>)
    decreases |run|
  {
    run == []
    || (Enabled(s, run[0]) && CanRun(Apply(s, limit, summarize, run[0]), limit, summarize, run[1..]))
  }

  function After<T, W(==), V>(s: System<T, W, V>, limit: nat, summarize: (W, seq<T>) -> V, run: seq<Action<T>>):
    (r: System<T, W, V>)
    requires CanRun(s, limit, summarize, run)
    decreases |run|
  {
    if run == [] then s else After(Apply(s, limit, summarize, run[0]), limit, summarize, run[1..])
  }

  /** The value is the summary the file had when its size was somewhere from the key's up to `last`. */
  ghost predicate SummaryBetween<T, W, V>(files: seq<seq<T>>, summarize: (W, seq<T>) -> V, key: Key<W>, value: V,
                                          last: nat) {
    && key.path < |files|
    && exists m ::
         key.size <= m <= last && m <= |files[key.path]| && value == summarize(key.window, files[key.path][..m])
  }

  ghost predicate CallerOk<T, W, V>(files: seq<seq<T>>, summarize: (W, seq<T>) -> V, caller: Caller<W, V>) {
    match caller
    case Starting(_, _) => true
    case LookingUp(key) => key.path < |files| && key.size <= |files[key.path]|
    case Reading(key) => key.path < |files| && key.size <= |files[key.path]|
    case Storing(key, value) => key.path < |files| && SummaryBetween(files, summarize, key, value, |files[key.path]|)
    case Answered(key, value, sizeThen) => SummaryBetween(files, summarize, key, value, sizeThen)
  }

  ghost predicate EntryOk<T, W, V>(files: seq<seq<T>>, summarize: (W, seq<T>) -> V, entry: (Key<W>, V)) {
    entry.0.path < |files| && SummaryBetween(files, summarize, entry.0, entry.1, |files[entry.0.path]|)
  }

  ghost predicate Sound<T, W, V>(s: System<T, W, V>, summarize: (W, seq<T>) -> V) {
    && (forall i :: 0 <= i < |s.history| ==> EntryOk(s.files, summarize, s.history[i]))
    && (forall t :: 0 <= t < |s.callers| ==> CallerOk(s.files, summarize, s.callers[t]))
  }

  /** A file that has grown still contains, as a prefix, what it held before. */
  lemma GrowthKeeps<T, W, V>(files: seq<seq<T>>, path: nat, more: seq<T>, summarize: (W, seq<T>) -> V, key: Key<W>,
                             value: V, last: nat)
    requires path < |files| && SummaryBetween(files, summarize, key, value, last)
    ensures SummaryBetween(files[path := files[path] + more], summarize, key, value, last)
    ensures last == |files[key.path]| ==>
      var grown := files[path := files[path] + more]; SummaryBetween(grown, summarize, key, value, |grown[key.path]|)
  {
    var grown := files[path := files[path] + more];
    var m :| key.size <= m <= last && m <= |files[key.path]| && value == summarize(key.window, files[key.path][..m]);
    assert grown[key.path][..m] == files[key.path][..m];
  }

  lemma AppendKeepsSound<T, W, V>(s: System<T, W, V>, summarize: (W, seq<T>) -> V, path: nat, more: seq<T>)
    requires Sound(s, summarize) && path < |s.files|
    ensures Sound(s.(files := s.files[path := s.files[path] + more]), summarize)
  {
    var grown := s.files[path := s.files[path] + more];
    forall i | 0 <= i < |s.history|
      ensures EntryOk(grown, summarize, s.history[i])
    {
      var (key, value) := s.history[i];
      assert EntryOk(s.files, summarize, s.history[i]);
      GrowthKeeps(s.files, path, more, summarize, key, value, |s.files[key.path]|);
    }
    forall t | 0 <= t < |s.callers|
      ensures CallerOk(grown, summarize, s.callers[t])
    {
      assert CallerOk(s.files, summarize, s.callers[t]);
      match s.callers[t]
      case Storing(key, value) => GrowthKeeps(s.files, path, more, summarize, key, value, |s.files[key.path]|);
      case Answered(key, value, sizeThen) => GrowthKeeps(s.files, path, more, summarize, key, value, sizeThen);
      case _ =>
    }
  }

  /** What a cache answers was inserted for the key. */
  lemma {:induction false} LastValueInserted<K, V>(history: seq<(K, V)>, key: K) returns (i: nat)
    requires FifoCache.LastValue(history, key).Some?
    ensures i < |history| && history[i] == (key, FifoCache.LastValue(history, key).value)
  {
    var n := |history| - 1;
    if history[n].0 == key {
      i := n;
    } else {
      i := LastValueInserted(history[..n], key);
    }
  }

  lemma NextKeepsSound<T, W, V>(s: System<T, W, V>, limit: nat, summarize: (W, seq<T>) -> V, t: nat, modified: int)
    requires Sound(s, summarize) && Enabled(s, Continue(t, modified))
    ensures Sound(Next(s, limit, summarize, t, modified), summarize)
  {
    assert CallerOk(s.files, summarize, s.callers[t]);
    match s.callers[t]
    case LookingUp(key) =>
      if Cached(s.history, limit, key).Some? {
        var i := LastValueInserted(s.history, key);
        assert EntryOk(s.files, summarize, s.history[i]);
      }
    case Reading(key) =>
      assert s.files[key.path][..|s.files[key.path]|] == s.files[key.path];
    case _ =>
  }

  lemma {:induction false} RunKeepsSound<T, W, V>(s: System<T, W, V>, limit: nat, summarize: (W, seq<T>) -> V,
                                                  run: seq<Action<T>>)
    requires Sound(s, summarize) && CanRun(s, limit, summarize, run)
    ensures Sound(After(s, limit, summarize, run), summarize)
    decreases |run|
  {
    if run != [] {
      match run[0] {
        case Append(path, more) => AppendKeepsSound(s, summarize, path, more);
        case Continue(t, modified) => NextKeepsSound(s, limit, summarize, t, modified);
      }
      RunKeepsSound(Apply(s, limit, summarize, run[0]), limit, summarize, run[1..]);
    }
  }

  /**
   However callers and writers interleave, every answer is the summary of the file's contents at some moment between
   the caller's taking of size and time and its answer.
   */
  lemma AnswersAreMoments<T, W, V>(s: System<T, W, V>, limit: nat, summarize: (W, seq<T>) -> V, run: seq<Action<T>>,
                                   t: nat)
    requires s.history == [] && forall u :: 0 <= u < |s.callers| ==> s.callers[u].Starting?
    requires CanRun(s, limit, summarize, run)
    ensures var r := After(s, limit, summarize, run);
      t < |r.callers| && r.callers[t].Answered? ==>
        SummaryBetween(r.files, summarize, r.callers[t].key, r.callers[t].value, r.callers[t].sizeThen)
  {
    RunKeepsSound(s, limit, summarize, run);
    var r := After(s, limit, summarize, run);
    if t < |r.callers| {
      assert CallerOk(r.files, summarize, r.callers[t]);
    }
  }

  /** A caller that has taken its key keeps it. */
  lemma {:induction false} KeyStays<T, W, V>(s: System<T, W, V>, limit: nat, summarize: (W, seq<T>) -> V,
                                             run: seq<Action<T>>, t: nat)
    requires CanRun(s, limit, summarize, run) && t < |s.callers| && !s.callers[t].Starting?
    ensures var r := After(s, limit, summarize, run);
      t < |r.callers| && !r.callers[t].Starting? && r.callers[t].key == s.callers[t].key
    decreases |run|
  {
    if run != [] {
      hide Cached;
      KeyStays(Apply(s, limit, summarize, run[0]), limit, summarize, run[1..], t);
    }
  }

  /**
   The key a caller answers under is of the file and the window it began with, and of the size the file had at the
   very step at which the caller took it, step `n` of the run.
   */
  lemma {:induction false} KeyIsTaken<T, W, V>(s: System<T, W, V>, limit: nat, summarize: (W, seq<T>) -> V,
                                               run: seq<Action<T>>, t: nat) returns (n: nat)
    requires CanRun(s, limit, summarize, run) && t < |s.callers| && s.callers[t].Starting?
    requires var r := After(s, limit, summarize, run); t < |r.callers| && !r.callers[t].Starting?
    ensures n < |run| && CanRun(s, limit, summarize, run[..n])
    ensures var key := After(s, limit, summarize, run).callers[t].key;
      var files := After(s, limit, summarize, run[..n]).files;
      && key.path == s.callers[t].path < |files| && key.window == s.callers[t].window
      && key.size == |files[key.path]| && run[n] == Continue(t, key.modified)
    decreases |run|
  {
    hide Cached;
    var next := Apply(s, limit, summarize, run[0]);
    if next.callers[t].Starting? {
      n := KeyIsTaken(next, limit, summarize, run[1..], t);
      n := n + 1;
      assert run[..n][1..] == run[1..][..n - 1];
    } else {
      n := 0;
      KeyStays(next, limit, summarize, run[1..], t);
    }
  }

  /**
   What was stored under a key new to the cache answers every lookup under that key, without the file being read, until
   `limit` insertions later.
   */
  lemma StoredIsFound<T, W(!new), V>(s: System<T, W, V>, limit: nat, summarize: (W, seq<T>) -> V, t: nat, modified: int,
                                     before: seq<(Key<W>, V)>, more: seq<(Key<W>, V)>, value: V)
    requires Enabled(s, Continue(t, modified)) && s.callers[t].LookingUp?
    requires s.history == before + [(s.callers[t].key, value)] + more && |more| < limit
    requires s.callers[t].key !in FifoCache.Newest(FifoCache.NewKeys(before, limit), limit)
    requires forall i :: 0 <= i < |more| ==> more[i].0 != s.callers[t].key
    ensures var next, key := Apply(s, limit, summarize, Continue(t, modified)), s.callers[t].key;
      next.history == s.history && next.callers[t] == Answered(key, value, |s.files[key.path]|)
  {
    FifoCache.HeldForAWhile(before, more, limit, s.callers[t].key, value);
  }

  /** An answer may be newer than the size it is cached under: a log that grows between the two calls shows it. */
  lemma NewerThanItsKey<T, W>(before: seq<T>, more: seq<T>, window: W)
    requires more != []
    ensures var summarize := (w: W, rows: seq<T>) => |rows|;
      var s := System([before], [], [Starting(0, window)]);
      var run := [Continue(0, 0), Append(0, more), Continue(0, 0), Continue(0, 0), Continue(0, 0)];
      && CanRun(s, 1, summarize, run)
      && After(s, 1, summarize, run).callers ==
           [Answered(Key(0, |before|, 0, window), |before| + |more|, |before| + |more|)]
  {
    var summarize := (w: W, rows: seq<T>) => |rows|;
    var key := Key(0, |before|, 0, window);
    var s := System([before], [], [Starting(0, window)]);
    var s1 := System([before], [], [LookingUp(key)]);
    var s2 := System([before + more], [], [LookingUp(key)]);
    var s3 := System([before + more], [], [Reading(key)]);
    var s4 := System([before + more], [], [Storing(key, |before| + |more|)]);
    var s5 := System([before + more], [(key, |before| + |more|)],
                     [Answered(key, |before| + |more|, |before| + |more|)]);
    var run := [Continue(0, 0), Append(0, more), Continue(0, 0), Continue(0, 0), Continue(0, 0)];
    assert Apply(s, 1, summarize, run[0]) == s1 && Apply(s1, 1, summarize, run[1]) == s2;
    assert Apply(s2, 1, summarize, run[2]) == s3 && Apply(s3, 1, summarize, run[3]) == s4;
    assert Apply(s4, 1, summarize, run[4]) == s5;
    assert run[4..][1..] == [] && run[3..][1..] == run[4..] && run[2..][1..] == run[3..] && run[1..][1..] == run[2..];
    assert CanRun(s5, 1, summarize, []) && After(s5, 1, summarize, []) == s5;
    assert CanRun(s4, 1, summarize, run[4..]) && After(s4, 1, summarize, run[4..]) == s5;
    assert CanRun(s3, 1, summarize, run[3..]) && After(s3, 1, summarize, run[3..]) == s5;
    assert CanRun(s2, 1, summarize, run[2..]) && After(s2, 1, summarize, run[2..]) == s5;
    assert CanRun(s1, 1, summarize, run[1..]) && After(s1, 1, summarize, run[1..]) == s5;
  }
}
