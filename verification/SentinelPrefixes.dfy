/** Which prefix a flushed batch is staged under, and where its files go, told from the events. */
module SentinelPrefixes {
  import opened Wrappers
  import opened SentinelBatching
  import opened SentinelRuns
  import Staging
  import Text

  /** The event makes its export the sentinel of folder `f`. */
  predicate Holds(d: Device, t: Tracker, e: Event, f: string) {
    e.Arrive? && e.a.path.folder == f && SentinelBatching.Preprocess(d, t, e.a).deed.Held?
  }

  ghost predicate HoldsAt(d: Device, events: seq<Event>, k: nat, f: string)
    requires k < |events|
  {
    Holds(d, Run(d, events[..k]).t, events[k], f)
  }

  /** Of the first `n` events, the k-th is the last that made its export the sentinel of `f`. */
  ghost predicate LastHolder(d: Device, events: seq<Event>, n: nat, f: string, k: nat)
    requires n <= |events|
  {
    k < n && HoldsAt(d, events, k, f) && forall j: nat :: k < j < n ==> !HoldsAt(d, events, j, f)
  }

  /** The sentinel is the delivered export; PSA takes its prefix from the sample name in the
      export's header, Kinexus from the file name. */
  predicate MadeBy(d: Device, s: Sentinel, a: Arrival) {
    s.exported == a.path && s.created == a.handledAt &&
    (d.variant.PsaHoriba? ==> s.prefix == Text.Strip(a.probename)) &&
    (d.variant.Kinexus? ==> s.prefix == a.path.stem)
  }

  /** What handling a path does to its folder's sentinel. */
  lemma HandlingSentinel(d: Device, t: Tracker, a: Arrival)
    ensures var h := HandleFolder(d, t, a);
            var after := h.fs.sentinel;
            after.None? ||
            if h.deed.Held? then MadeBy(d, after.value, a) else after == FolderOf(t, a.path.folder).sentinel
  {
    match KindOf(d, a.path)
    case Export =>
    case Native =>
      assert !HandleFolder(d, t, a).deed.Held?;
    case Other =>
  }

  lemma HoldsIff(d: Device, t: Tracker, a: Arrival, f: string)
    ensures Holds(d, t, Arrive(a), f) <==>
            a.path.folder == f && a.path !in t.toStage && a.onDisk && HandleFolder(d, t, a).deed.Held?
  {
    HandledFolder(d, t, a, f);
  }

  /** An event leaves a folder's sentinel as it was, makes its own export the sentinel, or leaves none. */
  lemma SentinelStep(d: Device, w: World, e: Event, f: string)
    ensures var after := FolderOf(Step(d, w, e).t, f).sentinel;
            after.None? ||
            if Holds(d, w.t, e, f) then MadeBy(d, after.value, e.a) else after == FolderOf(w.t, f).sentinel
  {
    StepByFolder(d, w, e, f);
    if e.Arrive? {
      HoldsIff(d, w.t, e.a, f);
      HandlingSentinel(d, w.t, e.a);
      FolderSentinel(d, w, e.a, f);
    }
  }

  /** Only handling and the purge touch a sentinel, and the purge can only drop it. */
  lemma FolderSentinel(d: Device, w: World, a: Arrival, f: string)
    ensures var after := FolderStep(d, w, Arrive(a), f).fs.sentinel;
            after.None? ||
            after == if f == a.path.folder && a.path !in w.t.toStage && a.onDisk
                     then HandleFolder(d, w.t, a).fs.sentinel
                     else FolderOf(w.t, f).sentinel
  {
  }

  /** A folder's sentinel is the export of the last event that made one there. */
  lemma {:induction false} SentinelFrom(d: Device, events: seq<Event>, n: nat, f: string) returns (k: nat)
    requires n <= |events| && FolderOf(Run(d, events[..n]).t, f).sentinel.Some?
    ensures LastHolder(d, events, n, f, k) && events[k].Arrive? &&
            MadeBy(d, FolderOf(Run(d, events[..n]).t, f).sentinel.value, events[k].a)
  {
    if n == 0 {
      assert false;
    } else {
      RunAt(d, events, n);
      SentinelStep(d, Run(d, events[..n - 1]), events[n - 1], f);
      if HoldsAt(d, events, n - 1, f) {
        k := n - 1;
      } else {
        k := SentinelFrom(d, events, n - 1, f);
      }
    }
  }

  /** The batch pairs the flushing native last, with the export of the arrival that became the
      sentinel; PSA files it under the trimmed sample name of that arrival, Kinexus under the
      stem of the native. */
  ghost predicate FiledFor(d: Device, events: seq<Event>, n: nat, f: Flush, k: nat)
    requires n < |events|
  {
    LastHolder(d, events, n, f.folder, k) && events[k].Arrive? && events[n].Arrive? && f.pairs != [] &&
    f.folder == events[n].a.path.folder &&
    var last, sentinel, native := f.pairs[|f.pairs| - 1], events[k].a, events[n].a;
    last == Pair(sentinel.path, native.path, native.handledAt) &&
    (d.variant.PsaHoriba? ==> f.prefix == Text.Strip(sentinel.probename)) &&
    (d.variant.Kinexus? ==> f.prefix == native.path.stem)
  }

  /** In every run, for every flush. */
  lemma FlushPrefix(d: Device, events: seq<Event>, n: nat)
    requires n < |events| && FlushAt(d, events, n).Some?
    ensures exists k: nat :: FiledFor(d, events, n, FlushAt(d, events, n).value, k)
  {
    var a := events[n].a;
    FlushIsComplete(d, events[..n], a);
    var k := SentinelFrom(d, events, n, a.path.folder);
    assert FiledFor(d, events, n, FlushAt(d, events, n).value, k);
  }

  /** The same file in another folder. */
  predicate MovedTo(p: Path, q: Path, stage: string) { q.folder == stage && q.stem == p.stem && q.suffix == p.suffix }

  /** The pairs, in their order, with both files in the staging directory. */
  ghost predicate StagedAs(pairs: seq<Pair>, staged: seq<Pair>, stage: string) {
    |staged| == |pairs| &&
    forall i :: 0 <= i < |pairs| ==>
                  MovedTo(pairs[i].exported, staged[i].exported, stage) &&
                  MovedTo(pairs[i].native, staged[i].native, stage) && staged[i].created == pairs[i].created
  }

  /** The directory a flush advertises is named after its folder and prefix, by the first free
      number if there is one; the batch waits there under the prefix, pair by pair. */
  lemma FlushStaged(d: Device, events: seq<Event>, n: nat)
    requires n < |events| && FlushAt(d, events, n).Some?
    ensures var f, a := FlushAt(d, events, n).value, events[n].a;
            var r := SentinelBatching.Preprocess(d, Run(d, events[..n]).t, a);
            Staging.FirstFreeName(f.stage, f.folder, f.prefix, a.occupied) && r.advertised == Some(f.stage) &&
            f.stage in r.t.finalizing && r.t.finalizing[f.stage].prefix == f.prefix &&
            StagedAs(f.pairs, r.t.finalizing[f.stage].pairs, f.stage)
  {
    var a := events[n].a;
    Staging.NameIsFirstFree(a.path.folder, FlushAt(d, events, n).value.prefix, a.occupied);
  }
}
