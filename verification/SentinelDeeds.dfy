/** What a delivery does to its folder, and how long a staged native is recognised. */
module SentinelDeeds {
  import opened Wrappers
  import opened Seqs
  import opened SentinelBatching
  import opened SentinelRuns
  import Text

  // ----- deliveries -----

  /** A delivery that is neither recognised as staged nor gone from disk. */
  predicate Considered(t: Tracker, a: Arrival) { a.path !in t.toStage && a.onDisk }

  predicate HasExportSuffix(d: Device, p: Path) { Text.Lower(p.suffix) in d.exportExts }

  /** A suffix listed on both sides is an export's. */
  predicate HasNativeSuffix(d: Device, p: Path) { Text.Lower(p.suffix) in d.nativeExts - d.exportExts }

  /** The path is an export of a batch that waits for processing. */
  ghost predicate WaitsAsExport(t: Tracker, p: Path) {
    exists s, i :: s in t.finalizing && 0 <= i < |t.finalizing[s].pairs| && t.finalizing[s].pairs[i].exported == p
  }

  lemma WaitingExportIff(t: Tracker, p: Path)
    ensures ExportFinalizing(t, p) <==> WaitsAsExport(t, p)
  {
    if ExportFinalizing(t, p) {
      var s :| s in t.finalizing && p in Exports(t.finalizing[s].pairs);
      var i :| 0 <= i < |t.finalizing[s].pairs| && Exports(t.finalizing[s].pairs)[i] == p;
      assert t.finalizing[s].pairs[i].exported == p;
    }
    if WaitsAsExport(t, p) {
      var s, i :| s in t.finalizing && 0 <= i < |t.finalizing[s].pairs| && t.finalizing[s].pairs[i].exported == p;
      assert Exports(t.finalizing[s].pairs)[i] == p;
    }
  }

  /** In every run: an export already tracked or in a waiting batch changes nothing; any other pairs
      with the oldest waiting native, and where none waits it becomes the sentinel. */
  lemma ExportDelivered(d: Device, events: seq<Event>, a: Arrival)
    requires Considered(Run(d, events).t, a) && HasExportSuffix(d, a.path)
    ensures var t := Run(d, events).t;
            var fs, r := FolderOf(t, a.path.folder), Handle(d, t, a);
            var known := a.path in ExportQueue(fs) || WaitsAsExport(t, a.path);
            r.deed == SentinelBatching.Preprocess(d, t, a).deed && r.advertised.None? &&
            r.deed == (if known then Ignored else if fs.pending != [] then Paired
                       else Held(if fs.sentinel.Some? then Some(fs.sentinel.value.exported) else None)) &&
            FolderOf(r.t, a.path.folder) ==
                if known then fs
                else if fs.pending != [] then
                  FolderState(fs.pending[1..], fs.bucket + [Pair(a.path, fs.pending[0].path, a.handledAt)], fs.sentinel)
                else FolderState([], fs.bucket, FolderOf(r.t, a.path.folder).sentinel)
  {
    var t := Run(d, events).t;
    WaitingExportIff(t, a.path);
    HandledFolder(d, t, a, a.path.folder);
  }

  /** In every run: a native already queued or paired changes nothing; any other flushes when a
      sentinel is held, and waits its turn when none is. */
  lemma NativeDelivered(d: Device, events: seq<Event>, a: Arrival)
    requires Considered(Run(d, events).t, a) && HasNativeSuffix(d, a.path)
    ensures var t := Run(d, events).t;
            var fs, r := FolderOf(t, a.path.folder), Handle(d, t, a);
            var known := a.path in NativeQueue(fs);
            r.deed == SentinelBatching.Preprocess(d, t, a).deed &&
            r.deed == (if known then Ignored
                       else if fs.sentinel.None? then Queued
                       else Flushed(fs.bucket + [Pair(fs.sentinel.value.exported, a.path, a.handledAt)])) &&
            FolderOf(r.t, a.path.folder) ==
                if known then fs
                else if fs.sentinel.None? then fs.(pending := fs.pending + [Pending(a.path, a.handledAt)])
                else FolderState([], [], None)
  {
    var t, f := Run(d, events).t, a.path.folder;
    RunTidy(d, events, f);
    NativeUntracked(d, f, FolderOf(t, f), a.path);
    HandledFolder(d, t, a, f);
  }

  /** A file of neither kind changes no folder. */
  lemma OtherDelivered(d: Device, t: Tracker, a: Arrival, f: string)
    requires !HasExportSuffix(d, a.path) && !HasNativeSuffix(d, a.path)
    ensures Handle(d, t, a).deed == Ignored && FolderOf(Handle(d, t, a).t, f) == FolderOf(t, f)
  {
  }

  // ----- ages -----

  /** A purge keeps exactly the entries that are at most a time-to-live old, and the folders that
      have any left. */
  lemma PurgeByAge(d: Device, t: Tracker, now: int, staleDirs: set<string>, f: string)
    ensures var fs, g := FolderOf(t, f), FolderOf(Purge(d, t, now, staleDirs), f);
            (forall q :: q in g.pending <==> q in fs.pending && now - q.created <= d.ttl) &&
            (forall q :: q in g.bucket <==> q in fs.bucket && now - q.created <= d.ttl) &&
            (forall q :: g.sentinel == Some(q) <==> fs.sentinel == Some(q) && now - q.created <= d.ttl) &&
            (f in Purge(d, t, now, staleDirs).state <==>
             f in t.state && (g.pending != [] || g.bucket != [] || g.sentinel.Some?))
  {
    var fs := FolderOf(t, f);
    forall q ensures q in PurgeFolder(fs, now, d.ttl).pending <==> q in fs.pending && now - q.created <= d.ttl {
      FilterIn(fs.pending, (q: Pending) => !Stale(q.created, now, d.ttl), q);
    }
    forall q ensures q in PurgeFolder(fs, now, d.ttl).bucket <==> q in fs.bucket && now - q.created <= d.ttl {
      FilterIn(fs.bucket, (q: Pair) => !Stale(q.created, now, d.ttl), q);
    }
    assert FolderOf(Purge(d, t, now, staleDirs), f) == PurgeFolder(fs, now, d.ttl);
  }

  /** Nothing in the folder is more than a time-to-live old. */
  ghost predicate AllYoung(fs: FolderState, now: int, ttl: int) {
    (forall q :: q in fs.pending ==> now - q.created <= ttl) &&
    (forall q :: q in fs.bucket ==> now - q.created <= ttl) &&
    (fs.sentinel.Some? ==> now - fs.sentinel.value.created <= ttl)
  }

  /** A delivery of an export or a native, and on a Kinexus of any file, leaves nothing too old in
      any folder; a PSA delivery of another file leaves every folder as it was. */
  lemma DeliveryPurges(d: Device, w: World, a: Arrival, f: string)
    requires Considered(w.t, a)
    ensures var fs := FolderOf(Step(d, w, Arrive(a)).t, f);
            if d.variant.Kinexus? || HasExportSuffix(d, a.path) || HasNativeSuffix(d, a.path) then
              AllYoung(fs, a.purgedAt, d.ttl)
            else fs == FolderOf(w.t, f)
  {
    PurgedFolder(d, w, a, f);
    if PurgesAfter(d, a.path) {
      PurgeByAge(d, Handle(d, w.t, a).t, a.purgedAt, a.staleDirs, f);
    } else {
      OtherDelivered(d, w.t, a, f);
    }
  }

  // ----- recognised natives -----

  /** A staged native is not queued any more. */
  ghost predicate Settled(t: Tracker, p: Path) { p in t.toStage ==> p !in NativeQueue(FolderOf(t, p.folder)) }

  lemma PurgedQueue(fs: FolderState, now: int, ttl: int, p: Path)
    requires p !in NativeQueue(fs)
    ensures p !in NativeQueue(PurgeFolder(fs, now, ttl))
  {
    PurgeSubseq(fs, now, ttl);
    if p in NativeQueue(PurgeFolder(fs, now, ttl)) {
      SubseqIn(NativeQueue(PurgeFolder(fs, now, ttl)), NativeQueue(fs), p);
    }
  }

  lemma NativeOfBatch(bucket: seq<Pair>, q: Pair, p: Path)
    ensures p in Natives(bucket + [q]) <==> p in Natives(bucket) || p == q.native
  {
    assert Natives(bucket + [q]) == Natives(bucket) + [q.native];
  }

  /** Handling adds no native but the arriving one to a folder's queue. */
  lemma HandledQueue(d: Device, t: Tracker, a: Arrival, f: string, p: Path)
    requires p in NativeQueue(FolderOf(Handle(d, t, a).t, f))
    ensures p in NativeQueue(FolderOf(t, f)) || p == a.path
  {
    HandledFolder(d, t, a, f);
    if f == a.path.folder {
      var fs := FolderOf(t, f);
      match KindOf(d, a.path)
      case Export =>
        if fs.pending != [] {
          PairNatives(fs.bucket, fs.pending, a.path, a.handledAt);
        }
      case Native =>
        NativeQueued(Natives(fs.bucket), fs.pending, a.path, a.handledAt);
      case Other =>
    }
  }

  /** A flush has the folder's natives and leaves its queue empty. */
  lemma FlushedNatives(d: Device, t: Tracker, a: Arrival, p: Path)
    requires Handle(d, t, a).deed.Flushed? && Tidy(d, a.path.folder, FolderOf(t, a.path.folder))
    ensures FolderOf(Handle(d, t, a).t, a.path.folder) == EMPTY && a.path in Natives(Handle(d, t, a).deed.pairs)
    ensures p in Natives(Handle(d, t, a).deed.pairs) ==>
              p.folder == a.path.folder && (p == a.path || p in NativeQueue(FolderOf(t, a.path.folder)))
  {
    var fs := FolderOf(t, a.path.folder);
    var q := Pair(fs.sentinel.value.exported, a.path, a.handledAt);
    assert Handle(d, t, a).deed.pairs == fs.bucket + [q];
    NativeOfBatch(fs.bucket, q, p);
    NativeOfBatch(fs.bucket, q, a.path);
  }

  /** What handling adds to the natives to recognise. */
  lemma HandledRecall(d: Device, t: Tracker, a: Arrival, p: Path)
    ensures var r := Handle(d, t, a);
            var mine := r.deed.Flushed? && if d.variant.Kinexus? then p in Natives(r.deed.pairs) else p == a.path;
            (p in r.t.toStage <==> p in t.toStage || mine) &&
            (p in r.t.toStage ==> if mine then r.advertised == Some(r.t.toStage[p]) && r.t.toStage[p] in r.t.finalizing
                                  else r.t.toStage[p] == t.toStage[p])
  {
  }

  lemma HandlingSettles(d: Device, t: Tracker, a: Arrival, p: Path)
    requires Considered(t, a) && Settled(t, p) && Tidy(d, a.path.folder, FolderOf(t, a.path.folder))
    ensures Settled(Handle(d, t, a).t, p)
  {
    HandledRecall(d, t, a, p);
    if p in t.toStage && p in NativeQueue(FolderOf(Handle(d, t, a).t, p.folder)) {
      HandledQueue(d, t, a, p.folder, p);
    }
    if Handle(d, t, a).deed.Flushed? {
      FlushedNatives(d, t, a, p);
      assert Natives([]) == [] && Paths([]) == [];
    }
  }

  /** A folder after the purge that may follow. */
  lemma PurgedFolder(d: Device, w: World, a: Arrival, f: string)
    requires Considered(w.t, a)
    ensures var fs := FolderOf(Handle(d, w.t, a).t, f);
            FolderOf(Step(d, w, Arrive(a)).t, f) ==
            if PurgesAfter(d, a.path) then PurgeFolder(fs, a.purgedAt, d.ttl) else fs
  {
    StepByFolder(d, w, Arrive(a), f);
    HandledFolder(d, w.t, a, f);
  }

  lemma DeliverySettles(d: Device, w: World, a: Arrival, p: Path)
    requires Considered(w.t, a) && Settled(Handle(d, w.t, a).t, p)
    ensures Settled(Step(d, w, Arrive(a)).t, p)
  {
    var t := Handle(d, w.t, a).t;
    PurgedFolder(d, w, a, p.folder);
    if p in t.toStage {
      PurgedRecall(d, w.t, a, p);
      PurgedQueue(FolderOf(t, p.folder), a.purgedAt, d.ttl, p);
    } else {
      NotRecalled(d, w.t, a, p);
    }
  }

  lemma NotRecalled(d: Device, t: Tracker, a: Arrival, p: Path)
    requires Considered(t, a) && p !in Handle(d, t, a).t.toStage
    ensures p !in SentinelBatching.Preprocess(d, t, a).t.toStage
  {
  }

  lemma StepSettles(d: Device, w: World, e: Event, p: Path)
    requires WorldOk(d, w) && Settled(w.t, p)
    ensures Settled(Step(d, w, e).t, p)
  {
    if e.Arrive? && Considered(w.t, e.a) {
      var f := e.a.path.folder;
      assert FolderOk(d, f, FolderOf(w.t, f), BookOf(w.books, f));
      HandlingSettles(d, w.t, e.a, p);
      DeliverySettles(d, w, e.a, p);
    } else {
      UnconsideredStays(d, w, e, p);
    }
  }

  lemma UnconsideredStays(d: Device, w: World, e: Event, p: Path)
    requires e.Arrive? ==> !Considered(w.t, e.a)
    ensures Step(d, w, e).t.state == w.t.state
    ensures p in Step(d, w, e).t.toStage ==> p in w.t.toStage
  {
  }

  /** In every run, a staged native that is still recognised is not queued. */
  lemma {:induction false} RunSettled(d: Device, events: seq<Event>, p: Path)
    ensures Settled(Run(d, events).t, p)
    decreases |events|
  {
    if events != [] {
      var before := events[..|events| - 1];
      RunSettled(d, before, p);
      RunKeeps(d, before);
      StepSettles(d, Run(d, before), events[|events| - 1], p);
    }
  }

  /** In every run, a native remembered for a staging directory is forgotten by an event if and
      only if the event ends a completed pass over that directory or, on a Kinexus, is a
      delivery whose purge moves the directory away, and no batch waits in it. */
  lemma ForgottenIff(d: Device, events: seq<Event>, e: Event, p: Path)
    requires p in Run(d, events).t.toStage
    ensures var t, t' := Run(d, events).t, Step(d, Run(d, events), e).t;
            var stage := t.toStage[p];
            (p !in t'.toStage <==>
             (e.Process? && e.completed && e.src == stage) ||
             (e.Arrive? && Considered(t, e.a) && d.variant.Kinexus? && stage in e.a.staleDirs &&
                 stage !in t'.finalizing)) &&
            (p in t'.toStage ==> t'.toStage[p] == stage)
  {
    var t := Run(d, events).t;
    if e.Arrive? && Considered(t, e.a) {
      RunSettled(d, events, p);
      RunTidy(d, events, e.a.path.folder);
      HandledRecall(d, t, e.a, p);
      if Handle(d, t, e.a).deed.Flushed? {
        FlushedNatives(d, t, e.a, p);
      }
      PurgedRecall(d, t, e.a, p);
    }
  }

  lemma PurgedRecall(d: Device, t: Tracker, a: Arrival, p: Path)
    requires Considered(t, a) && p in Handle(d, t, a).t.toStage
    ensures var r, t' := Handle(d, t, a).t, SentinelBatching.Preprocess(d, t, a).t;
            t'.finalizing == r.finalizing &&
            (p !in t'.toStage <==>
             d.variant.Kinexus? && r.toStage[p] in a.staleDirs && r.toStage[p] !in r.finalizing) &&
            (p in t'.toStage ==> t'.toStage[p] == r.toStage[p])
  {
  }

  /** No processing pass over `stage` lies between the m-th and the n-th event. */
  ghost predicate Unprocessed(events: seq<Event>, m: nat, n: nat, stage: string)
    requires m <= n <= |events|
  {
    forall j :: m <= j < n && events[j].Process? ==> events[j].src != stage
  }

  /** The native is recognised as staged in a directory whose batch waits. */
  predicate RecalledAt(t: Tracker, p: Path, stage: string) {
    p in t.toStage && t.toStage[p] == stage && stage in t.finalizing
  }

  lemma FlushRecalls(d: Device, w: World, e: Event, p: Path)
    requires FlushOf(d, w.t, e).Some? && p in Natives(FlushOf(d, w.t, e).value.pairs)
    requires d.variant.Kinexus? || p == e.a.path
    ensures RecalledAt(Step(d, w, e).t, p, FlushOf(d, w.t, e).value.stage)
  {
    HandledRecall(d, w.t, e.a, p);
    PurgedRecall(d, w.t, e.a, p);
  }

  lemma StaysRecalled(d: Device, events: seq<Event>, e: Event, p: Path, stage: string)
    requires RecalledAt(Run(d, events).t, p, stage) && (e.Process? ==> e.src != stage)
    ensures RecalledAt(Step(d, Run(d, events), e).t, p, stage)
  {
    ForgottenIff(d, events, e, p);
    StillWaits(d, Run(d, events), e, stage);
  }

  lemma RecalledFirst(d: Device, events: seq<Event>, m: nat, flush: Flush, p: Path)
    requires m < |events| && FlushAt(d, events, m) == Some(flush) && p in Natives(flush.pairs)
    requires d.variant.Kinexus? || p == events[m].a.path
    ensures RecalledAt(Run(d, events[..m + 1]).t, p, flush.stage)
  {
    RunAt(d, events, m + 1);
    FlushRecalls(d, Run(d, events[..m]), events[m], p);
  }

  lemma {:induction false} RecallStays(d: Device, events: seq<Event>, k: nat, n: nat, p: Path, stage: string)
    requires k <= n <= |events| && RecalledAt(Run(d, events[..k]).t, p, stage) && Unprocessed(events, k, n, stage)
    ensures RecalledAt(Run(d, events[..n]).t, p, stage)
    decreases n
  {
    if k < n {
      RecallStays(d, events, k, n - 1, p, stage);
      RunAt(d, events, n);
      StaysRecalled(d, events[..n - 1], events[n - 1], p, stage);
    }
  }

  /** From its flush until its directory is processed, every native of a Kinexus batch, and the
      native that flushed a PSA batch, is recognised as staged there. */
  lemma StillRecognised(d: Device, events: seq<Event>, m: nat, n: nat, flush: Flush, p: Path)
    requires m < n <= |events| && FlushAt(d, events, m) == Some(flush) && p in Natives(flush.pairs)
    requires d.variant.Kinexus? || p == events[m].a.path
    requires Unprocessed(events, m + 1, n, flush.stage)
    ensures RecalledAt(Run(d, events[..n]).t, p, flush.stage)
    ensures forall again: Arrival :: again.path == p ==>
              SentinelBatching.Preprocess(d, Run(d, events[..n]).t, again) ==
              Reaction(Run(d, events[..n]).t, Some(flush.stage), Ignored)
  {
    RecalledFirst(d, events, m, flush, p);
    RecallStays(d, events, m + 1, n, p, flush.stage);
  }

  lemma StillWaits(d: Device, w: World, e: Event, stage: string)
    requires stage in w.t.finalizing && (e.Process? ==> e.src != stage)
    ensures stage in Step(d, w, e).t.finalizing
  {
  }
}
