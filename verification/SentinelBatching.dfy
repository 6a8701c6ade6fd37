/** The native/export pairing protocol of the PSA Horiba and Kinexus processors, on values.

    Files of a folder arrive one by one and are often delivered again. A native file waits in
    a queue for its export; an export that finds the queue empty is held as the sentinel; the
    native that follows a sentinel flushes the bucket of finished pairs into a staging
    directory. A time-to-live purge follows the events. */
module SentinelBatching {
  import opened Wrappers
  import opened Seqs
  import Staging
  import Text

  datatype Path = Path(folder: string, stem: string, suffix: string)

  datatype Pending = Pending(path: Path, created: int)

  datatype Pair = Pair(exported: Path, native: Path, created: int)

  datatype Sentinel = Sentinel(exported: Path, prefix: string, created: int)

  datatype FolderState = FolderState(pending: seq<Pending>, bucket: seq<Pair>, sentinel: Option<Sentinel>)

  datatype Batch = Batch(prefix: string, pairs: seq<Pair>)

  /** The dictionaries of a processor object. */
  datatype Tracker = Tracker(
    state: map<string, FolderState>,
    finalizing: map<string, Batch>,
    toStage: map<Path, string>)

  datatype Variant = PsaHoriba | Kinexus

  datatype Device = Device(variant: Variant, exportExts: set<string>, nativeExts: set<string>, ttl: int)

  datatype Kind = Export | Native | Other

  function KindOf(d: Device, p: Path): Kind {
    var ext := Text.Lower(p.suffix);
    if ext in d.exportExts then Export else if ext in d.nativeExts then Native else Other
  }

  /** One delivery of a path, with everything the processor asks its surroundings. */
  datatype Arrival = Arrival(
    path: Path,
    onDisk: bool,            // the path is on disk
    probename: string,       // the sample name in the export's header
    handledAt: int,          // clock reading while handling
    occupied: set<string>,   // names on disk when a staging directory is created
    purgedAt: int,           // clock reading of the purge
    staleDirs: set<string>)  // old staging directories the purge finds and moves away

  const EMPTY := FolderState([], [], None)

  predicate Idle(fs: FolderState) { fs.pending == [] && fs.bucket == [] && fs.sentinel.None? }

  function FolderOf(t: Tracker, f: string): FolderState {
    if f in t.state then t.state[f] else EMPTY
  }

  // ----- handling one path -----

  /** What handling a path did to the folder's bookkeeping. */
  datatype Deed =
    | Ignored
    | Queued
    | Paired
    | Held(superseded: Option<Path>)
    | Flushed(pairs: seq<Pair>)

  datatype Handled = Handled(fs: FolderState, deed: Deed)

  predicate ExportTracked(fs: FolderState, p: Path) {
    (fs.sentinel.Some? && fs.sentinel.value.exported == p) ||
    p in Exports(fs.bucket)
  }

  predicate ExportFinalizing(t: Tracker, p: Path) {
    exists s :: s in t.finalizing && p in Exports(t.finalizing[s].pairs)
  }

  predicate NativeTracked(d: Device, fs: FolderState, p: Path) {
    if d.variant.PsaHoriba? && fs.sentinel.Some? && fs.sentinel.value.exported == p then false
    else p in Natives(fs.bucket) || p in Paths(fs.pending)
  }

  function HandleExport(fs: FolderState, finalizing: bool, p: Path, prefix: string, now: int): Handled {
    if finalizing || ExportTracked(fs, p) then Handled(fs, Ignored)
    else if fs.pending != [] then
      Handled(fs.(pending := fs.pending[1..], bucket := fs.bucket + [Pair(p, fs.pending[0].path, now)]), Paired)
    else
      Handled(fs.(sentinel := Some(Sentinel(p, prefix, now))),
              Held(if fs.sentinel.Some? then Some(fs.sentinel.value.exported) else None))
  }

  function HandleNative(d: Device, fs: FolderState, p: Path, now: int): Handled {
    if NativeTracked(d, fs, p) then Handled(fs, Ignored)
    else if fs.sentinel.Some? then
      Handled(EMPTY, Flushed(fs.bucket + [Pair(fs.sentinel.value.exported, p, now)]))
    else Handled(fs.(pending := fs.pending + [Pending(p, now)]), Queued)
  }

  function SentinelPrefix(d: Device, a: Arrival): string {
    if d.variant.PsaHoriba? then Text.Strip(a.probename) else a.path.stem
  }

  function BatchPrefix(d: Device, fs: FolderState, p: Path): string
    requires fs.sentinel.Some?
  {
    if d.variant.PsaHoriba? then fs.sentinel.value.prefix else p.stem
  }

  function Relocate(pairs: seq<Pair>, stage: string): seq<Pair> {
    Map(pairs, (q: Pair) => Pair(q.exported.(folder := stage), q.native.(folder := stage), q.created))
  }

  /** PSA remembers only the flushing native; Kinexus every native of the batch. */
  function Remembered(d: Device, pairs: seq<Pair>, p: Path, stage: string): map<Path, string> {
    if d.variant.PsaHoriba? then map[p := stage] else map q | q in Natives(pairs) :: stage
  }

  datatype Reaction = Reaction(t: Tracker, advertised: Option<string>, deed: Deed)

  /** The folder's side of handling a path. */
  function HandleFolder(d: Device, t: Tracker, a: Arrival): Handled {
    var fs := FolderOf(t, a.path.folder);
    match KindOf(d, a.path)
    case Export => HandleExport(fs, ExportFinalizing(t, a.path), a.path, SentinelPrefix(d, a), a.handledAt)
    case Native => HandleNative(d, fs, a.path, a.handledAt)
    case Other => Handled(fs, Ignored)
  }

  function Handle(d: Device, t: Tracker, a: Arrival): Reaction {
    var p, f := a.path, a.path.folder;
    var h := HandleFolder(d, t, a);
    if h.deed.Flushed? then
      var prefix := BatchPrefix(d, FolderOf(t, f), p);
      var stage := Staging.UniqueStageDir(f, prefix, a.occupied);
      Reaction(
        Tracker(t.state - {f},
                t.finalizing[stage := Batch(prefix, Relocate(h.deed.pairs, stage))],
                t.toStage + Remembered(d, h.deed.pairs, p, stage)),
        Some(stage), h.deed)
    else Reaction(t.(state := t.state[f := h.fs]), None, h.deed)
  }

  // ----- purging -----

  predicate Stale(created: int, now: int, ttl: int) { now - created > ttl }

  function FreshPending(s: seq<Pending>, now: int, ttl: int): seq<Pending> {
    Filter(s, (q: Pending) => !Stale(q.created, now, ttl))
  }

  function StalePending(s: seq<Pending>, now: int, ttl: int): seq<Pending> {
    Filter(s, (q: Pending) => Stale(q.created, now, ttl))
  }

  function FreshPairs(s: seq<Pair>, now: int, ttl: int): seq<Pair> {
    Filter(s, (q: Pair) => !Stale(q.created, now, ttl))
  }

  function StalePairs(s: seq<Pair>, now: int, ttl: int): seq<Pair> {
    Filter(s, (q: Pair) => Stale(q.created, now, ttl))
  }

  function FreshSentinel(s: Option<Sentinel>, now: int, ttl: int): Option<Sentinel> {
    if s.Some? && Stale(s.value.created, now, ttl) then None else s
  }

  function PurgeFolder(fs: FolderState, now: int, ttl: int): FolderState {
    FolderState(FreshPending(fs.pending, now, ttl), FreshPairs(fs.bucket, now, ttl),
        FreshSentinel(fs.sentinel, now, ttl))
  }

  function PurgeState(state: map<string, FolderState>, now: int, ttl: int): map<string, FolderState> {
    map f | f in state && !Idle(PurgeFolder(state[f], now, ttl)) :: PurgeFolder(state[f], now, ttl)
  }

  /** Kinexus forgets natives whose abandoned staging directory was moved away; PSA does not. */
  function PurgeToStage(d: Device, t: Tracker, staleDirs: set<string>): map<Path, string> {
    if d.variant.PsaHoriba? then t.toStage
    else map p | p in t.toStage && t.toStage[p] !in staleDirs - t.finalizing.Keys :: t.toStage[p]
  }

  function Purge(d: Device, t: Tracker, now: int, staleDirs: set<string>): Tracker {
    Tracker(PurgeState(t.state, now, d.ttl), t.finalizing, PurgeToStage(d, t, staleDirs))
  }

  // ----- the two entry points -----

  predicate PurgesAfter(d: Device, p: Path) { d.variant.Kinexus? || !KindOf(d, p).Other? }

  function Preprocess(d: Device, t: Tracker, a: Arrival): Reaction {
    if a.path in t.toStage then Reaction(t, Some(t.toStage[a.path]), Ignored)
    else if !a.onDisk then Reaction(t, None, Ignored)
    else
      var r := Handle(d, t, a);
      if PurgesAfter(d, a.path) then r.(t := Purge(d, r.t, a.purgedAt, a.staleDirs)) else r
  }

  /** Processing takes the batch; only a successful pass also forgets the staging directory. */
  function Finalise(t: Tracker, src: string, completed: bool): Tracker {
    Tracker(t.state, t.finalizing - {src},
            if completed then map p | p in t.toStage && t.toStage[p] != src :: t.toStage[p] else t.toStage)
  }

  // ----- the two queues of a folder -----

  function Exports(s: seq<Pair>): (r: seq<Path>)
    ensures |r| == |s| && forall i :: 0 <= i < |s| ==> r[i] == s[i].exported
  {
    Map(s, (q: Pair) => q.exported)
  }

  function Natives(s: seq<Pair>): (r: seq<Path>)
    ensures |r| == |s| && forall i :: 0 <= i < |s| ==> r[i] == s[i].native
  {
    Map(s, (q: Pair) => q.native)
  }

  function Paths(s: seq<Pending>): (r: seq<Path>)
    ensures |r| == |s| && forall i :: 0 <= i < |s| ==> r[i] == s[i].path
  {
    Map(s, (q: Pending) => q.path)
  }

  function HeldExport(s: Option<Sentinel>): seq<Path> { if s.Some? then [s.value.exported] else [] }

  function ExportQueue(fs: FolderState): seq<Path> { Exports(fs.bucket) + HeldExport(fs.sentinel) }

  function NativeQueue(fs: FolderState): seq<Path> { Natives(fs.bucket) + Paths(fs.pending) }
}
