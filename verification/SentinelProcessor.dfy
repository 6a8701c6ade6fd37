/** The processor object of the pairing protocol: dictionaries updated in place, and the loops
    of the purge and of staging, each proved to compute what `SentinelBatching` says. */
module SentinelProcessor {
  import opened Wrappers
  import opened SentinelBatching
  import Staging

  class Processor {
    const device: Device
    var state: map<string, FolderState>
    var finalizing: map<string, Batch>
    var toStage: map<Path, string>

    constructor (device: Device)
      ensures this.device == device && View() == Tracker(map[], map[], map[])
    {
      this.device := device;
      state, finalizing, toStage := map[], map[], map[];
    }

    function View(): Tracker
      reads this
    {
      Tracker(state, finalizing, toStage)
    }

    method Preprocess(a: Arrival) returns (advertised: Option<string>)
      modifies this
      ensures var r := SentinelBatching.Preprocess(device, old(View()), a);
              View() == r.t && advertised == r.advertised
    {
      if a.path in toStage {
        return Some(toStage[a.path]);
      }
      if !a.onDisk {
        return None;
      }
      advertised := None;
      match KindOf(device, a.path)
      case Export =>
        HandleExport(a);
        PurgeStale(a.purgedAt, a.staleDirs);
      case Native =>
        advertised := HandleNative(a);
        PurgeStale(a.purgedAt, a.staleDirs);
      case Other =>
        state := state[a.path.folder := FolderOf(View(), a.path.folder)];
        if device.variant.Kinexus? {
          PurgeStale(a.purgedAt, a.staleDirs);
        }
    }

    method HandleExport(a: Arrival)
      requires KindOf(device, a.path) == Export
      modifies this`state
      ensures View() == Handle(device, old(View()), a).t
      ensures Handle(device, old(View()), a).advertised == None
    {
      var p, f := a.path, a.path.folder;
      var fs := FolderOf(View(), f);
      state := state[f := fs];
      if ExportFinalizing(View(), p) || ExportTracked(fs, p) {
        return;
      }
      if fs.pending != [] {
        var waiting := fs.pending[0];
        state := state[f := fs.(pending := fs.pending[1..], bucket := fs.bucket +
            [Pair(p, waiting.path, a.handledAt)])];
        return;
      }
      state := state[f := fs.(sentinel := Some(Sentinel(p, SentinelPrefix(device, a), a.handledAt)))];
    }

    method HandleNative(a: Arrival) returns (advertised: Option<string>)
      requires KindOf(device, a.path) == Native
      modifies this
      ensures var r := Handle(device, old(View()), a);
              View() == r.t && advertised == r.advertised
    {
      var p, f := a.path, a.path.folder;
      var fs := FolderOf(View(), f);
      state := state[f := fs];
      if NativeTracked(device, fs, p) {
        return None;
      }
      if fs.sentinel.Some? {
        var stage := Flush(a, fs);
        return Some(stage);
      }
      state := state[f := fs.(pending := fs.pending + [Pending(p, a.handledAt)])];
      return None;
    }

    /** The flush: stages the bucket with the sentinel pair and forgets the folder. */
    method Flush(a: Arrival, fs: FolderState) returns (stage: string)
      requires fs.sentinel.Some?
      modifies this
      ensures var pairs := fs.bucket + [Pair(fs.sentinel.value.exported, a.path, a.handledAt)];
              var prefix := if device.variant.PsaHoriba? then fs.sentinel.value.prefix else a.path.stem;
              stage == Staging.UniqueStageDir(a.path.folder, prefix, a.occupied) &&
              View() == Tracker(old(state) - {a.path.folder},
                                old(finalizing)[stage := Batch(prefix, Relocate(pairs, stage))],
                                old(toStage) + Remembered(device, pairs, a.path, stage))
    {
      var batch := fs.bucket + [Pair(fs.sentinel.value.exported, a.path, a.handledAt)];
      var prefix := BatchPrefix(device, fs, a.path);
      stage := Staging.UniqueStageDir(a.path.folder, prefix, a.occupied);
      var relocated := StageBatch(batch, a.path, stage);
      finalizing := finalizing[stage := Batch(prefix, relocated)];
      state := state - {a.path.folder};
    }

    /** The relocation loop: rewrites every pair and remembers the natives to recognise. */
    method StageBatch(batch: seq<Pair>, p: Path, stage: string) returns (relocated: seq<Pair>)
      modifies this`toStage
      ensures relocated == Relocate(batch, stage)
      ensures toStage == old(toStage) + Remembered(device, batch, p, stage)
    {
      relocated := [];
      var recognised: map<Path, string> := map[];
      for i := 0 to |batch|
        invariant relocated == Relocate(batch[..i], stage) && toStage == old(toStage)
        invariant device.variant.Kinexus? ==> recognised == Remembered(device, batch[..i], p, stage)
      {
        var pair := batch[i];
        relocated := relocated + [Pair(pair.exported.(folder := stage), pair.native.(folder := stage), pair.created)];
        recognised := recognised[pair.native := stage];
      }
      assert batch[..|batch|] == batch;
      if device.variant.PsaHoriba? {
        recognised := map[p := stage];
      }
      assert recognised == Remembered(device, batch, p, stage);
      toStage := toStage + recognised;
    }

    method PurgeStale(now: int, staleDirs: set<string>)
      modifies this
      ensures View() == Purge(device, old(View()), now, staleDirs)
    {
      state := PurgeFolders(state, now);
      if device.variant.Kinexus? {
        toStage := map p | p in toStage && toStage[p] !in staleDirs - finalizing.Keys :: toStage[p];
      }
    }

    /** The loop over the folders: purge each, and drop it when that leaves it idle. */
    method PurgeFolders(folders: map<string, FolderState>, now: int) returns (kept: map<string, FolderState>)
      ensures kept == PurgeState(folders, now, device.ttl)
    {
      kept := map[];
      var rest := folders.Keys;
      while rest != {}
        invariant rest <= folders.Keys
        invariant kept == PurgeState(folders - rest, now, device.ttl)
      {
        var f :| f in rest;
        var purged := KeepFolder(folders[f], now);
        if !Idle(purged) {
          kept := kept[f := purged];
        }
        rest := rest - {f};
      }
      assert folders - {} == folders;
    }

    method KeepFolder(fs: FolderState, now: int) returns (kept: FolderState)
      ensures kept == PurgeFolder(fs, now, device.ttl)
    {
      var pending := KeepPending(fs.pending, now);
      var bucket := KeepPairs(fs.bucket, now);
      var sentinel := fs.sentinel;
      if sentinel.Some? && now - sentinel.value.created > device.ttl {
        sentinel := None;
      }
      kept := FolderState(pending, bucket, sentinel);
    }

    method KeepPending(s: seq<Pending>, now: int) returns (kept: seq<Pending>)
      ensures kept == FreshPending(s, now, device.ttl)
    {
      kept := [];
      for i := 0 to |s|
        invariant kept == FreshPending(s[..i], now, device.ttl)
      {
        assert s[..i + 1][..i] == s[..i];
        if !(now - s[i].created > device.ttl) {
          kept := kept + [s[i]];
        }
      }
      assert s[..|s|] == s;
    }

    method KeepPairs(s: seq<Pair>, now: int) returns (kept: seq<Pair>)
      ensures kept == FreshPairs(s, now, device.ttl)
    {
      kept := [];
      for i := 0 to |s|
        invariant kept == FreshPairs(s[..i], now, device.ttl)
      {
        assert s[..i + 1][..i] == s[..i];
        if !(now - s[i].created > device.ttl) {
          kept := kept + [s[i]];
        }
      }
      assert s[..|s|] == s;
    }

    /** The start and the end of a processing pass over a staging directory: the waiting batch, else
        for a directory the one `recovered` from its files, else an error, `None`. */
    method FinishBatch(src: string, isDir: bool, recovered: Option<Batch>, completed: bool)
        returns (batch: Option<Batch>)
      modifies this
      ensures View() == Finalise(old(View()), src, completed)
      ensures batch == if src in old(finalizing) then Some(old(finalizing)[src]) else if isDir then recovered else None
    {
      batch := if src in finalizing then Some(finalizing[src]) else None;
      finalizing := finalizing - {src};
      if batch.None? && isDir {
        batch := recovered;
      }
      if completed {
        toStage := map p | p in toStage && toStage[p] != src :: toStage[p];
      }
    }
  }
}
