/** What every run of the pairing protocol keeps: conservation, exclusivity and order. */
module SentinelRuns {
  import opened Wrappers
  import opened Seqs
  import opened SentinelBatching
  import Staging

  /** The history of one folder: every path the processor ever took in, in order, and where
      the paths it no longer tracks have gone. */
  datatype Ledger = Ledger(
    accepted: seq<Path>,
    staged: seq<Pair>,
    exceptions: seq<Path>,
    superseded: seq<Path>)

  const BLANK := Ledger([], [], [], [])

  datatype World = World(t: Tracker, books: map<string, Ledger>)

  datatype Event =
    | Arrive(a: Arrival)
    | Process(src: string, completed: bool)

  function BookOf(books: map<string, Ledger>, f: string): Ledger {
    if f in books then books[f] else BLANK
  }

  function Enter(l: Ledger, p: Path, deed: Deed): Ledger {
    if deed.Ignored? then l
    else
      Ledger(l.accepted + [p],
             if deed.Flushed? then l.staged + deed.pairs else l.staged,
             l.exceptions,
             if deed.Held? && deed.superseded.Some? then l.superseded + [deed.superseded.value] else l.superseded)
  }

  function StaleSentinel(s: Option<Sentinel>, now: int, ttl: int): seq<Path> {
    if s.Some? && Stale(s.value.created, now, ttl) then [s.value.exported] else []
  }

  function Expire(fs: FolderState, l: Ledger, now: int, ttl: int): Ledger {
    l.(exceptions := l.exceptions + Paths(StalePending(fs.pending, now, ttl))
                     + Exports(StalePairs(fs.bucket, now, ttl)) + Natives(StalePairs(fs.bucket, now, ttl))
                     + StaleSentinel(fs.sentinel, now, ttl))
  }

  /** The tracker part is exactly `Preprocess` and `Finalise`; the ledgers record what happened. */
  function Step(d: Device, w: World, e: Event): World {
    match e
    case Process(src, completed) => World(Finalise(w.t, src, completed), w.books)
    case Arrive(a) =>
      var after := Preprocess(d, w.t, a).t;
      if a.path in w.t.toStage || !a.onDisk then World(after, w.books)
      else
        var r := Handle(d, w.t, a);
        var f := a.path.folder;
        var books := w.books[f := Enter(BookOf(w.books, f), a.path, r.deed)];
        World(after,
              if PurgesAfter(d, a.path) then
                map g | g in r.t.state.Keys +
                    books.Keys :: Expire(FolderOf(r.t, g), BookOf(books, g), a.purgedAt, d.ttl)
              else books)
  }

  function Run(d: Device, events: seq<Event>): World {
    if events == [] then World(Tracker(map[], map[], map[]), map[])
    else Step(d, Run(d, events[..|events| - 1]), events[|events| - 1])
  }

  lemma RunAt(d: Device, events: seq<Event>, n: nat)
    requires 0 < n <= |events|
    ensures Run(d, events[..n]) == Step(d, Run(d, events[..n - 1]), events[n - 1])
  {
    assert events[..n][..n - 1] == events[..n - 1];
  }

  // ----- the invariants of one folder -----

  function AllExports(fs: FolderState, l: Ledger): seq<Path> { Exports(l.staged) + ExportQueue(fs) }

  function AllNatives(fs: FolderState, l: Ledger): seq<Path> { Natives(l.staged) + NativeQueue(fs) }

  /** A held sentinel means that no native is waiting. */
  predicate Exclusive(fs: FolderState) { fs.sentinel.Some? ==> fs.pending == [] }

  /** Every accepted path is accounted for, with multiplicity. */
  ghost predicate Conserved(fs: FolderState, l: Ledger) {
    multiset(l.accepted) ==
    multiset(AllExports(fs, l)) + multiset(AllNatives(fs, l)) + multiset(l.exceptions) + multiset(l.superseded)
  }

  /** Staged, bucketed and waiting files stand in the order in which they were accepted. */
  ghost predicate InOrder(fs: FolderState, l: Ledger) {
    Subseq(AllExports(fs, l), l.accepted) && Subseq(AllNatives(fs, l), l.accepted)
  }

  /** No path is tracked twice, and each queue holds files of its kind and folder. */
  ghost predicate Tidy(d: Device, f: string, fs: FolderState) {
    NoDup(ExportQueue(fs)) && NoDup(NativeQueue(fs)) &&
    (forall p :: p in ExportQueue(fs) ==> p.folder == f && KindOf(d, p) == Export) &&
    (forall p :: p in NativeQueue(fs) ==> p.folder == f && KindOf(d, p) == Native)
  }

  ghost predicate FolderOk(d: Device, f: string, fs: FolderState, l: Ledger) {
    Exclusive(fs) && Conserved(fs, l) && InOrder(fs, l) && Tidy(d, f, fs)
  }

  ghost predicate WorldOk(d: Device, w: World) {
    forall f :: FolderOk(d, f, FolderOf(w.t, f), BookOf(w.books, f))
  }

  // ----- how the queues move -----

  lemma PairExports(fs: FolderState, p: Path, now: int)
    requires Exclusive(fs) && fs.pending != []
    ensures Exports(fs.bucket + [Pair(p, fs.pending[0].path, now)]) + HeldExport(fs.sentinel) == ExportQueue(fs) + [p]
  {
  }

  lemma PairNatives(bucket: seq<Pair>, pending: seq<Pending>, p: Path, now: int)
    requires pending != []
    ensures Natives(bucket + [Pair(p, pending[0].path, now)]) + Paths(pending[1..]) == Natives(bucket) + Paths(pending)
  {
  }

  lemma Assoc(a: seq<Path>, b: seq<Path>, c: seq<Path>)
    ensures (a + b) + c == a + (b + c)
  {
  }

  lemma FlushMoves(fs: FolderState, l: Ledger, p: Path, now: int)
    requires Exclusive(fs) && fs.sentinel.Some?
    ensures var pairs := fs.bucket + [Pair(fs.sentinel.value.exported, p, now)];
            Exports(l.staged + pairs) == AllExports(fs, l) && Natives(l.staged + pairs) == AllNatives(fs, l) + [p]
  {
  }

  lemma TidyGrows(d: Device, f: string, queue: seq<Path>, kind: Kind, p: Path)
    requires NoDup(queue) && p !in queue && p.folder == f && KindOf(d, p) == kind
    requires forall q :: q in queue ==> q.folder == f && KindOf(d, q) == kind
    ensures NoDup(queue + [p])
    ensures forall q :: q in queue + [p] ==> q.folder == f && KindOf(d, q) == kind
  {
  }

  /** Where one more accepted path is one more path in some queue, all stays accounted for. */
  lemma OneMoreCounted(e: multiset<Path>, n: multiset<Path>, x: multiset<Path>, s: multiset<Path>,
      e': multiset<Path>, n': multiset<Path>, accepted: seq<Path>, p: Path)
    requires multiset(accepted) == e + n + x + s && e' + n' == e + n + multiset{p}
    ensures multiset(accepted + [p]) == e' + n' + x + s
  {
    assert multiset(accepted + [p]) == multiset(accepted) + multiset{p};
  }

  /** `after` is `before`, or `before` with `p` at its end. */
  predicate Appended(before: seq<Path>, after: seq<Path>, p: Path, here: bool) {
    after == if here then before + [p] else before
  }

  /** An accepted path at the end of one of the two histories keeps the books. */
  lemma BookedOneMore(fs: FolderState, l: Ledger, g: FolderState, staged: seq<Pair>, p: Path, exported: bool)
    requires Conserved(fs, l)
    requires var l' := l.(accepted := l.accepted + [p], staged := staged);
             Appended(AllExports(fs, l), AllExports(g, l'), p, exported) &&
             Appended(AllNatives(fs, l), AllNatives(g, l'), p, !exported)
    ensures Conserved(g, l.(accepted := l.accepted + [p], staged := staged))
  {
    var l' := l.(accepted := l.accepted + [p], staged := staged);
    var e, n, e', n' := AllExports(fs, l), AllNatives(fs, l), AllExports(g, l'), AllNatives(g, l');
    OneMoreCounted(multiset(e), multiset(n), multiset(l.exceptions), multiset(l.superseded), multiset(e'), multiset(n'),
                   l.accepted, p);
  }

  lemma OrderedOneMore(fs: FolderState, l: Ledger, g: FolderState, staged: seq<Pair>, p: Path, exported: bool)
    requires InOrder(fs, l)
    requires var l' := l.(accepted := l.accepted + [p], staged := staged);
             Appended(AllExports(fs, l), AllExports(g, l'), p, exported) &&
             Appended(AllNatives(fs, l), AllNatives(g, l'), p, !exported)
    ensures InOrder(g, l.(accepted := l.accepted + [p], staged := staged))
  {
    SubseqGrow(AllExports(fs, l), l.accepted, p);
    SubseqGrow(AllNatives(fs, l), l.accepted, p);
  }

  /** A new export joins the end of the export queue. */
  lemma ExportJoins(d: Device, f: string, fs: FolderState, l: Ledger, g: FolderState, p: Path)
    requires FolderOk(d, f, fs, l) && p.folder == f && KindOf(d, p) == Export && p !in ExportQueue(fs)
    requires Exclusive(g) && ExportQueue(g) == ExportQueue(fs) + [p] && NativeQueue(g) == NativeQueue(fs)
    ensures FolderOk(d, f, g, l.(accepted := l.accepted + [p]))
  {
    var l' := l.(accepted := l.accepted + [p], staged := l.staged);
    Assoc(Exports(l.staged), ExportQueue(fs), [p]);
    assert AllExports(g, l') == AllExports(fs, l) + [p] && AllNatives(g, l') == AllNatives(fs, l);
    BookedOneMore(fs, l, g, l.staged, p, true);
    OrderedOneMore(fs, l, g, l.staged, p, true);
    TidyGrows(d, f, ExportQueue(fs), Export, p);
  }

  lemma ExportPairs(d: Device, f: string, fs: FolderState, l: Ledger, p: Path, now: int)
    requires FolderOk(d, f, fs, l) && p.folder == f && KindOf(d, p) == Export && p !in ExportQueue(fs)
    requires fs.pending != []
    ensures FolderOk(d, f, fs.(pending := fs.pending[1..], bucket := fs.bucket + [Pair(p, fs.pending[0].path, now)]),
                     l.(accepted := l.accepted + [p]))
  {
    PairExports(fs, p, now);
    PairNatives(fs.bucket, fs.pending, p, now);
    ExportJoins(d, f, fs, l,
        fs.(pending := fs.pending[1..], bucket := fs.bucket + [Pair(p, fs.pending[0].path, now)]), p);
  }

  /** The sentinel held so far, the last of its queue, gives way to `p`. */
  lemma TailReplaced(staged: seq<Path>, bucket: seq<Path>, held: seq<Path>, accepted: seq<Path>, p: Path)
    requires Subseq(staged + (bucket + held), accepted) && NoDup(bucket + held)
    ensures Subseq(staged + (bucket + [p]), accepted + [p]) && NoDup(bucket)
    ensures multiset(staged + (bucket + held)) == multiset(staged + bucket) + multiset(held)
    ensures multiset(staged + (bucket + [p])) == multiset(staged + bucket) + multiset{p}
  {
    Assoc(staged, bucket, held);
    Assoc(staged, bucket, [p]);
    SubseqReplaceTail(staged + bucket, held, accepted, p);
    assert forall i :: 0 <= i < |bucket| ==> bucket[i] == (bucket + held)[i];
  }

  lemma ReplacedConserves(fs: FolderState, l: Ledger, p: Path, prefix: string, now: int)
    requires Conserved(fs, l) && InOrder(fs, l) && NoDup(ExportQueue(fs))
    ensures Conserved(fs.(sentinel := Some(Sentinel(p, prefix, now))),
                      l.(accepted := l.accepted + [p], superseded := l.superseded + HeldExport(fs.sentinel)))
    ensures InOrder(fs.(sentinel := Some(Sentinel(p, prefix, now))),
                    l.(accepted := l.accepted + [p], superseded := l.superseded + HeldExport(fs.sentinel)))
  {
    var st, b, q := Exports(l.staged), Exports(fs.bucket), HeldExport(fs.sentinel);
    TailReplaced(st, b, q, l.accepted, p);
    SubseqGrow(AllNatives(fs, l), l.accepted, p);
  }

  lemma ReplacedTidy(d: Device, f: string, fs: FolderState, p: Path, prefix: string, now: int)
    requires Tidy(d, f, fs) && p.folder == f && KindOf(d, p) == Export && p !in ExportQueue(fs)
    ensures Tidy(d, f, fs.(sentinel := Some(Sentinel(p, prefix, now))))
  {
    var b := Exports(fs.bucket);
    assert NoDup(b) by {
      assert forall i :: 0 <= i < |b| ==> b[i] == ExportQueue(fs)[i];
    }
    TidyGrows(d, f, b, Export, p);
  }

  /** A new sentinel takes the place of the one held so far. */
  lemma SentinelReplaced(d: Device, f: string, fs: FolderState, l: Ledger, p: Path, prefix: string, now: int)
    requires FolderOk(d, f, fs, l) && p.folder == f && KindOf(d, p) == Export && p !in ExportQueue(fs)
    requires fs.pending == []
    ensures FolderOk(d, f, fs.(sentinel := Some(Sentinel(p, prefix, now))),
                     l.(accepted := l.accepted + [p], superseded := l.superseded + HeldExport(fs.sentinel)))
  {
    ReplacedConserves(fs, l, p, prefix, now);
    ReplacedTidy(d, f, fs, p, prefix, now);
  }

  lemma ExportKeeps(d: Device, f: string, fs: FolderState, l: Ledger, finalizing: bool, p: Path, prefix: string,
      now: int)
    requires FolderOk(d, f, fs, l) && p.folder == f && KindOf(d, p) == Export
    ensures var h := HandleExport(fs, finalizing, p, prefix, now);
            FolderOk(d, f, h.fs, Enter(l, p, h.deed))
  {
    var h := HandleExport(fs, finalizing, p, prefix, now);
    ExportDeed(fs, l, finalizing, p, prefix, now);
    if h.deed.Paired? {
      ExportPairs(d, f, fs, l, p, now);
    } else if h.deed.Held? {
      SentinelReplaced(d, f, fs, l, p, prefix, now);
    }
  }

  /** The three outcomes of an export, with the ledger entry each makes. */
  lemma ExportDeed(fs: FolderState, l: Ledger, finalizing: bool, p: Path, prefix: string, now: int)
    ensures var h := HandleExport(fs, finalizing, p, prefix, now);
            var l' := Enter(l, p, h.deed);
            match h.deed
            case Paired =>
              p !in ExportQueue(fs) && fs.pending != [] && l' == l.(accepted := l.accepted + [p]) &&
              h.fs == fs.(pending := fs.pending[1..], bucket := fs.bucket + [Pair(p, fs.pending[0].path, now)])
            case Held(_) =>
              p !in ExportQueue(fs) && fs.pending == [] &&
              h.fs == fs.(sentinel := Some(Sentinel(p, prefix, now))) &&
              l' == l.(accepted := l.accepted + [p], superseded := l.superseded + HeldExport(fs.sentinel))
            case Ignored => h.fs == fs && l' == l
            case _ => false
  {
  }

  lemma NativeUntracked(d: Device, f: string, fs: FolderState, p: Path)
    requires Tidy(d, f, fs) && KindOf(d, p) == Native
    ensures NativeTracked(d, fs, p) <==> p in NativeQueue(fs)
  {
  }

  /** The flush: pending is empty, so nothing is dropped, and the queues move on whole. */
  lemma FlushKeeps(d: Device, f: string, fs: FolderState, l: Ledger, p: Path, now: int)
    requires FolderOk(d, f, fs, l) && fs.sentinel.Some?
    ensures fs.pending == []
    ensures FolderOk(d, f, EMPTY,
                     l.(accepted := l.accepted + [p],
                        staged := l.staged + (fs.bucket + [Pair(fs.sentinel.value.exported, p, now)])))
  {
    var staged := l.staged + (fs.bucket + [Pair(fs.sentinel.value.exported, p, now)]);
    FlushMoves(fs, l, p, now);
    EmptyQueues(l.(accepted := l.accepted + [p], staged := staged));
    BookedOneMore(fs, l, EMPTY, staged, p, false);
    OrderedOneMore(fs, l, EMPTY, staged, p, false);
  }

  lemma EmptyQueues(l: Ledger)
    ensures AllExports(EMPTY, l) == Exports(l.staged) && AllNatives(EMPTY, l) == Natives(l.staged)
  {
  }

  lemma NativeQueued(bucket: seq<Path>, pending: seq<Pending>, p: Path, now: int)
    ensures bucket + Paths(pending + [Pending(p, now)]) == (bucket + Paths(pending)) + [p]
  {
  }

  /** A new native joins the end of the native queue. */
  lemma NativeJoins(d: Device, f: string, fs: FolderState, l: Ledger, g: FolderState, p: Path)
    requires FolderOk(d, f, fs, l) && p.folder == f && KindOf(d, p) == Native && p !in NativeQueue(fs)
    requires Exclusive(g) && NativeQueue(g) == NativeQueue(fs) + [p] && ExportQueue(g) == ExportQueue(fs)
    ensures FolderOk(d, f, g, l.(accepted := l.accepted + [p]))
  {
    var l' := l.(accepted := l.accepted + [p], staged := l.staged);
    Assoc(Natives(l.staged), NativeQueue(fs), [p]);
    assert AllNatives(g, l') == AllNatives(fs, l) + [p] && AllExports(g, l') == AllExports(fs, l);
    BookedOneMore(fs, l, g, l.staged, p, false);
    OrderedOneMore(fs, l, g, l.staged, p, false);
    TidyGrows(d, f, NativeQueue(fs), Native, p);
  }

  lemma NativeWaits(d: Device, f: string, fs: FolderState, l: Ledger, p: Path, now: int)
    requires FolderOk(d, f, fs, l) && p.folder == f && KindOf(d, p) == Native && p !in NativeQueue(fs)
    requires fs.sentinel.None?
    ensures FolderOk(d, f, fs.(pending := fs.pending + [Pending(p, now)]), l.(accepted := l.accepted + [p]))
  {
    NativeQueued(Natives(fs.bucket), fs.pending, p, now);
    NativeJoins(d, f, fs, l, fs.(pending := fs.pending + [Pending(p, now)]), p);
  }

  lemma NativeKeeps(d: Device, f: string, fs: FolderState, l: Ledger, p: Path, now: int)
    requires FolderOk(d, f, fs, l) && p.folder == f && KindOf(d, p) == Native
    ensures var h := HandleNative(d, fs, p, now);
            FolderOk(d, f, h.fs, Enter(l, p, h.deed))
  {
    var h := HandleNative(d, fs, p, now);
    NativeDeed(d, f, fs, l, p, now);
    if h.deed.Queued? {
      NativeWaits(d, f, fs, l, p, now);
    } else if h.deed.Flushed? {
      FlushKeeps(d, f, fs, l, p, now);
    }
  }

  /** The three outcomes of a native, with the ledger entry each makes. */
  lemma NativeDeed(d: Device, f: string, fs: FolderState, l: Ledger, p: Path, now: int)
    requires Tidy(d, f, fs) && KindOf(d, p) == Native
    ensures var h := HandleNative(d, fs, p, now);
            var l' := Enter(l, p, h.deed);
            match h.deed
            case Queued =>
              p !in NativeQueue(fs) && fs.sentinel.None? && l' == l.(accepted := l.accepted + [p]) &&
              h.fs == fs.(pending := fs.pending + [Pending(p, now)])
            case Flushed(_) =>
              fs.sentinel.Some? && h.fs == EMPTY &&
              l' == l.(accepted := l.accepted + [p],
                       staged := l.staged + (fs.bucket + [Pair(fs.sentinel.value.exported, p, now)]))
            case Ignored => h.fs == fs && l' == l
            case _ => false
  {
  }

  lemma PurgeSubseq(fs: FolderState, now: int, ttl: int)
    ensures var g := PurgeFolder(fs, now, ttl);
            Subseq(ExportQueue(g), ExportQueue(fs)) && Subseq(NativeQueue(g), NativeQueue(fs))
  {
    var g := PurgeFolder(fs, now, ttl);
    FilterSubseq(fs.pending, (q: Pending) => !Stale(q.created, now, ttl));
    FilterSubseq(fs.bucket, (q: Pair) => !Stale(q.created, now, ttl));
    SubseqMap(g.pending, fs.pending, (q: Pending) => q.path);
    SubseqMap(g.bucket, fs.bucket, (q: Pair) => q.exported);
    SubseqMap(g.bucket, fs.bucket, (q: Pair) => q.native);
    SubseqRefl(HeldExport(fs.sentinel));
    SubseqConcat(Exports(g.bucket), Exports(fs.bucket), HeldExport(g.sentinel), HeldExport(fs.sentinel));
    SubseqConcat(Natives(g.bucket), Natives(fs.bucket), Paths(g.pending), Paths(fs.pending));
  }

  lemma PurgeConserves(fs: FolderState, l: Ledger, now: int, ttl: int)
    requires Conserved(fs, l)
    ensures Conserved(PurgeFolder(fs, now, ttl), Expire(fs, l, now, ttl))
  {
    FilterPartition(fs.pending, (q: Pending) => !Stale(q.created, now, ttl),
                    (q: Pending) => Stale(q.created, now, ttl), (q: Pending) => q.path);
    FilterPartition(fs.bucket, (q: Pair) => !Stale(q.created, now, ttl),
                    (q: Pair) => Stale(q.created, now, ttl), (q: Pair) => q.exported);
    FilterPartition(fs.bucket, (q: Pair) => !Stale(q.created, now, ttl),
                    (q: Pair) => Stale(q.created, now, ttl), (q: Pair) => q.native);
  }

  lemma PurgeKeeps(d: Device, f: string, fs: FolderState, l: Ledger, now: int, ttl: int)
    requires FolderOk(d, f, fs, l)
    ensures FolderOk(d, f, PurgeFolder(fs, now, ttl), Expire(fs, l, now, ttl))
  {
    var g := PurgeFolder(fs, now, ttl);
    PurgeSubseq(fs, now, ttl);
    PurgeConserves(fs, l, now, ttl);
    SubseqRefl(Exports(l.staged));
    SubseqRefl(Natives(l.staged));
    SubseqConcat(Exports(l.staged), Exports(l.staged), ExportQueue(g), ExportQueue(fs));
    SubseqConcat(Natives(l.staged), Natives(l.staged), NativeQueue(g), NativeQueue(fs));
    SubseqTrans(AllExports(g, l), AllExports(fs, l), l.accepted);
    SubseqTrans(AllNatives(g, l), AllNatives(fs, l), l.accepted);
    SubseqNoDup(ExportQueue(g), ExportQueue(fs));
    SubseqNoDup(NativeQueue(g), NativeQueue(fs));
    forall p | p in ExportQueue(g) ensures p in ExportQueue(fs) {
      SubseqIn(ExportQueue(g), ExportQueue(fs), p);
    }
    forall p | p in NativeQueue(g) ensures p in NativeQueue(fs) {
      SubseqIn(NativeQueue(g), NativeQueue(fs), p);
    }
  }

  // ----- every step, every run -----

  /** Handling touches the arriving path's folder only. */
  lemma HandledFolder(d: Device, t: Tracker, a: Arrival, f: string)
    ensures var r := Handle(d, t, a);
            var h := HandleFolder(d, t, a);
            r.deed == h.deed && FolderOf(r.t, f) == if f == a.path.folder then h.fs else FolderOf(t, f)
  {
  }

  lemma HandleKeeps(d: Device, t: Tracker, l: Ledger, a: Arrival)
    requires FolderOk(d, a.path.folder, FolderOf(t, a.path.folder), l)
    ensures var h := HandleFolder(d, t, a);
            FolderOk(d, a.path.folder, h.fs, Enter(l, a.path, h.deed))
  {
    var fs := FolderOf(t, a.path.folder);
    match KindOf(d, a.path)
    case Export =>
      ExportKeeps(d, a.path.folder, fs, l, ExportFinalizing(t, a.path), a.path, SentinelPrefix(d, a), a.handledAt);
    case Native =>
      NativeKeeps(d, a.path.folder, fs, l, a.path, a.handledAt);
    case Other =>
  }

  /** One folder and its ledger. */
  datatype Account = Account(fs: FolderState, l: Ledger)

  function AccountOf(w: World, f: string): Account { Account(FolderOf(w.t, f), BookOf(w.books, f)) }

  function AfterHandling(d: Device, w: World, a: Arrival, f: string): Account {
    var h := HandleFolder(d, w.t, a);
    if f == a.path.folder then Account(h.fs, Enter(BookOf(w.books, f), a.path, h.deed)) else AccountOf(w, f)
  }

  function AfterPurging(d: Device, x: Account, a: Arrival): Account {
    if PurgesAfter(d, a.path) then Account(PurgeFolder(x.fs, a.purgedAt, d.ttl), Expire(x.fs, x.l, a.purgedAt, d.ttl))
    else x
  }

  /** What one event makes of one folder. */
  function FolderStep(d: Device, w: World, e: Event, f: string): Account {
    if e.Process? || e.a.path in w.t.toStage || !e.a.onDisk then AccountOf(w, f)
    else AfterPurging(d, AfterHandling(d, w, e.a, f), e.a)
  }

  lemma StepByFolder(d: Device, w: World, e: Event, f: string)
    ensures AccountOf(Step(d, w, e), f) == FolderStep(d, w, e, f)
  {
    if e.Arrive? && e.a.path !in w.t.toStage && e.a.onDisk {
      var a := e.a;
      var r := Handle(d, w.t, a);
      HandledFolder(d, w.t, a, f);
      if PurgesAfter(d, a.path) {
        var books := w.books[a.path.folder := Enter(BookOf(w.books, a.path.folder), a.path, r.deed)];
        if f !in r.t.state.Keys + books.Keys {
          NothingExpires(a.purgedAt, d.ttl);
        }
      }
    }
  }

  lemma NothingExpires(now: int, ttl: int)
    ensures Expire(EMPTY, BLANK, now, ttl) == BLANK && PurgeFolder(EMPTY, now, ttl) == EMPTY
  {
  }

  lemma HandlingKeeps(d: Device, w: World, a: Arrival, f: string)
    requires FolderOk(d, f, FolderOf(w.t, f), BookOf(w.books, f))
    ensures var x := AfterHandling(d, w, a, f); FolderOk(d, f, x.fs, x.l)
  {
    if f == a.path.folder {
      HandleKeeps(d, w.t, BookOf(w.books, f), a);
    }
  }

  lemma PurgingKeeps(d: Device, x: Account, a: Arrival, f: string)
    requires FolderOk(d, f, x.fs, x.l)
    ensures var y := AfterPurging(d, x, a); FolderOk(d, f, y.fs, y.l)
  {
    PurgeKeeps(d, f, x.fs, x.l, a.purgedAt, d.ttl);
  }

  lemma FolderStepKeeps(d: Device, w: World, e: Event, f: string)
    requires FolderOk(d, f, FolderOf(w.t, f), BookOf(w.books, f))
    ensures var x := FolderStep(d, w, e, f); FolderOk(d, f, x.fs, x.l)
  {
    if e.Process? || e.a.path in w.t.toStage || !e.a.onDisk {
      assert FolderStep(d, w, e, f) == AccountOf(w, f);
    } else {
      HandlingKeeps(d, w, e.a, f);
      PurgingKeeps(d, AfterHandling(d, w, e.a, f), e.a, f);
    }
  }

  lemma StepKeeps(d: Device, w: World, e: Event)
    requires WorldOk(d, w)
    ensures WorldOk(d, Step(d, w, e))
  {
    var w' := Step(d, w, e);
    forall f ensures FolderOk(d, f, FolderOf(w'.t, f), BookOf(w'.books, f)) {
      FolderStepKeeps(d, w, e, f);
      StepByFolder(d, w, e, f);
    }
  }

  /** In every run, in every folder: conservation, exclusivity, order, and no path twice. */
  lemma {:induction false} RunKeeps(d: Device, events: seq<Event>)
    ensures WorldOk(d, Run(d, events))
    decreases |events|
  {
    if events == [] {
      var w := Run(d, events);
      forall f ensures FolderOk(d, f, FolderOf(w.t, f), BookOf(w.books, f)) {
        assert Exports([]) == [] && Natives([]) == [] && Paths([]) == [];
      }
    } else {
      RunKeeps(d, events[..|events| - 1]);
      StepKeeps(d, Run(d, events[..|events| - 1]), events[|events| - 1]);
    }
  }

  /** Conservation, path by path: the times a path was accepted are the places it is in now.
      A path accepted once is in exactly one of the eight places. */
  lemma Conservation(d: Device, events: seq<Event>, f: string, p: Path)
    ensures var w := Run(d, events);
            var fs, l := FolderOf(w.t, f), BookOf(w.books, f);
            multiset(l.accepted)[p] ==
            multiset(Paths(fs.pending))[p] + multiset(Exports(fs.bucket))[p] + multiset(Natives(fs.bucket))[p]
            + multiset(HeldExport(fs.sentinel))[p]
            + multiset(Exports(l.staged))[p] + multiset(Natives(l.staged))[p]
            + multiset(l.exceptions)[p] + multiset(l.superseded)[p]
  {
    var w := Run(d, events);
    RunKeeps(d, events);
    assert FolderOk(d, f, FolderOf(w.t, f), BookOf(w.books, f));
  }

  lemma TrackedIgnored(d: Device, t: Tracker, a: Arrival)
    requires var fs := FolderOf(t, a.path.folder);
             Tidy(d, a.path.folder, fs) && (a.path in ExportQueue(fs) || a.path in NativeQueue(fs))
    ensures HandleFolder(d, t, a) == Handled(FolderOf(t, a.path.folder), Ignored)
  {
  }

  lemma RunTidy(d: Device, events: seq<Event>, f: string)
    ensures var fs := FolderOf(Run(d, events).t, f); Tidy(d, f, fs) && Exclusive(fs)
  {
    var w := Run(d, events);
    RunKeeps(d, events);
    assert FolderOk(d, f, FolderOf(w.t, f), BookOf(w.books, f));
  }

  /** Delivering a tracked path again changes nothing at all before the purge. */
  lemma RedeliveryIgnored(d: Device, events: seq<Event>, a: Arrival)
    requires var fs := FolderOf(Run(d, events).t, a.path.folder);
             a.path in ExportQueue(fs) || a.path in NativeQueue(fs)
    ensures var t := Run(d, events).t; Handle(d, t, a) == Reaction(t, None, Ignored)
  {
    var t, f := Run(d, events).t, a.path.folder;
    RunTidy(d, events, f);
    TrackedIgnored(d, t, a);
    assert f in t.state;
    assert t.state[f := t.state[f]] == t.state;
  }

  /** The flushed batch is the bucket followed by the sentinel pair, the queue it clears is
      empty, and the staged names are distinct, so staging overwrites none of its own files. */
  lemma FlushIsComplete(d: Device, events: seq<Event>, a: Arrival)
    requires Handle(d, Run(d, events).t, a).deed.Flushed?
    ensures var t := Run(d, events).t;
            var fs := FolderOf(t, a.path.folder);
            var r := Handle(d, t, a);
            fs.sentinel.Some? && fs.pending == [] && r.advertised.Some? && r.advertised.value in r.t.finalizing &&
            var stage := r.advertised.value;
            var pairs := fs.bucket + [Pair(fs.sentinel.value.exported, a.path, a.handledAt)];
            r.t.finalizing[stage] == Batch(BatchPrefix(d, fs, a.path), Relocate(pairs, stage)) &&
            r.t.finalizing - {stage} == t.finalizing - {stage} &&
            FolderOf(r.t, a.path.folder) == EMPTY &&
            a.path in r.t.toStage && r.t.toStage[a.path] == stage &&
            NoDup(Exports(r.t.finalizing[stage].pairs) + Natives(r.t.finalizing[stage].pairs))
  {
    var t, f := Run(d, events).t, a.path.folder;
    var fs := FolderOf(t, f);
    RunTidy(d, events, f);
    var r := Handle(d, t, a);
    var pairs := fs.bucket + [Pair(fs.sentinel.value.exported, a.path, a.handledAt)];
    assert r.deed == Flushed(pairs);
    assert Natives(pairs)[|fs.bucket|] == a.path;
    assert a.path in Natives(pairs);
    NativeUntracked(d, f, fs, a.path);
    StagedNames(d, f, fs, a.path, a.handledAt, r.advertised.value);
  }

  /** A staged native that is still on disk (its move failed) and is delivered again right
      after the flush is recognised by Kinexus always, by PSA only if it did the flushing. */
  lemma FlushedNativeAgain(d: Device, t: Tracker, a: Arrival, again: Arrival)
    requires Handle(d, t, a).deed.Flushed? && again.path in Natives(Handle(d, t, a).deed.pairs)
    requires again.path !in t.toStage && again.onDisk
    requires again.path.folder == a.path.folder && KindOf(d, again.path) == Native
    ensures Preprocess(d, Handle(d, t, a).t, again).deed.Ignored? <==> d.variant.Kinexus? || again.path == a.path
    ensures d.variant.Kinexus? || again.path == a.path ==>
              Preprocess(d, Handle(d, t, a).t, again) ==
              Reaction(Handle(d, t, a).t, Handle(d, t, a).advertised, Ignored)
  {
    var t1 := Handle(d, t, a).t;
    assert FolderOf(t1, a.path.folder) == EMPTY;
    assert Natives([]) == [] && Paths([]) == [];
  }

  lemma RelocatedDistinct(s: seq<Path>, f: string, stage: string)
    requires NoDup(s) && forall p :: p in s ==> p.folder == f
    ensures NoDup(Map(s, (p: Path) => p.(folder := stage)))
  {
  }

  lemma StagedNames(d: Device, f: string, fs: FolderState, p: Path, now: int, stage: string)
    requires Tidy(d, f, fs) && fs.sentinel.Some? && fs.pending == []
    requires p.folder == f && KindOf(d, p) == Native && p !in NativeQueue(fs)
    ensures var staged := Relocate(fs.bucket + [Pair(fs.sentinel.value.exported, p, now)], stage);
            NoDup(Exports(staged) + Natives(staged))
  {
    var pairs := fs.bucket + [Pair(fs.sentinel.value.exported, p, now)];
    var staged := Relocate(pairs, stage);
    TidyGrows(d, f, NativeQueue(fs), Native, p);
    var both := ExportQueue(fs) + (NativeQueue(fs) + [p]);
    DisjointQueues(d, ExportQueue(fs), NativeQueue(fs) + [p]);
    RelocatedDistinct(both, f, stage);
    assert Exports(staged) + Natives(staged) == Map(both, (q: Path) => q.(folder := stage));
  }

  lemma DisjointQueues(d: Device, exports: seq<Path>, natives: seq<Path>)
    requires NoDup(exports) && NoDup(natives)
    requires forall p :: p in exports ==> KindOf(d, p) == Export
    requires forall p :: p in natives ==> KindOf(d, p) == Native
    ensures NoDup(exports + natives)
  {
    forall i, j | 0 <= i < |exports| && 0 <= j < |natives| ensures exports[i] != natives[j] {
      assert exports[i] in exports && natives[j] in natives;
    }
  }

  // ----- the clock -----

  /** Waiting entries are sorted by age and none is younger than `now`. */
  ghost predicate Clocked(fs: FolderState, now: int) {
    (forall i, j :: 0 <= i < j < |fs.pending| ==> fs.pending[i].created <= fs.pending[j].created) &&
    (forall i, j :: 0 <= i < j < |fs.bucket| ==> fs.bucket[i].created <= fs.bucket[j].created) &&
    (forall i :: 0 <= i < |fs.pending| ==> fs.pending[i].created <= now) &&
    (forall i :: 0 <= i < |fs.bucket| ==> fs.bucket[i].created <= now)
  }

  /** The clock readings of a run never go back, and the last is at most `now`. */
  ghost predicate ClockRuns(events: seq<Event>, now: int)
    decreases |events|
  {
    events == [] ||
    var e, before := events[|events| - 1], events[..|events| - 1];
    match e
    case Process(_, _) => ClockRuns(before, now)
    case Arrive(a) => a.handledAt <= a.purgedAt <= now && ClockRuns(before, a.handledAt)
  }

  /** Under a clock that never goes back, a purge takes exactly a prefix of each queue. */
  lemma PurgeTakesPrefix(fs: FolderState, now: int, last: int, ttl: int)
    requires Clocked(fs, last)
    ensures var k := |StalePending(fs.pending, now, ttl)|;
            k <= |fs.pending| && StalePending(fs.pending, now, ttl) == fs.pending[..k] &&
            PurgeFolder(fs, now, ttl).pending == fs.pending[k..]
    ensures var k := |StalePairs(fs.bucket, now, ttl)|;
            k <= |fs.bucket| && StalePairs(fs.bucket, now, ttl) == fs.bucket[..k] &&
            PurgeFolder(fs, now, ttl).bucket == fs.bucket[k..]
  {
    FilterSplits(fs.pending, (q: Pending) => Stale(q.created, now, ttl), (q: Pending) => !Stale(q.created, now, ttl));
    FilterSplits(fs.bucket, (q: Pair) => Stale(q.created, now, ttl), (q: Pair) => !Stale(q.created, now, ttl));
  }

  lemma PurgeClocked(fs: FolderState, before: int, now: int, ttl: int)
    requires Clocked(fs, before) && before <= now
    ensures Clocked(PurgeFolder(fs, now, ttl), now)
  {
    PurgeTakesPrefix(fs, now, before, ttl);
  }

  lemma StaysClocked(fs: FolderState, before: int, now: int)
    requires Clocked(fs, before) && before <= now
    ensures Clocked(fs, now)
  {
  }

  lemma ExportClocked(fs: FolderState, finalizing: bool, p: Path, prefix: string, before: int, now: int)
    requires Clocked(fs, before) && before <= now
    ensures Clocked(HandleExport(fs, finalizing, p, prefix, now).fs, now)
  {
  }

  lemma NativeClocked(d: Device, fs: FolderState, p: Path, before: int, now: int)
    requires Clocked(fs, before) && before <= now
    ensures Clocked(HandleNative(d, fs, p, now).fs, now)
  {
  }

  lemma HandlingClocked(d: Device, w: World, a: Arrival, f: string, before: int)
    requires Clocked(FolderOf(w.t, f), before) && before <= a.handledAt
    ensures Clocked(AfterHandling(d, w, a, f).fs, a.handledAt)
  {
    var fs := FolderOf(w.t, f);
    if f == a.path.folder {
      match KindOf(d, a.path)
      case Export =>
        ExportClocked(fs, ExportFinalizing(w.t, a.path), a.path, SentinelPrefix(d, a), before, a.handledAt);
      case Native =>
        NativeClocked(d, fs, a.path, before, a.handledAt);
      case Other =>
        StaysClocked(fs, before, a.handledAt);
    } else {
      StaysClocked(fs, before, a.handledAt);
    }
  }

  lemma PurgingClocked(d: Device, x: Account, a: Arrival, now: int)
    requires Clocked(x.fs, a.handledAt) && a.handledAt <= a.purgedAt <= now
    ensures Clocked(AfterPurging(d, x, a).fs, now)
  {
    PurgeClocked(x.fs, a.handledAt, a.purgedAt, d.ttl);
  }

  lemma FolderStepClocked(d: Device, w: World, e: Event, f: string, before: int, now: int)
    requires Clocked(FolderOf(w.t, f), before)
    requires e.Process? ==> before <= now
    requires e.Arrive? ==> before <= e.a.handledAt <= e.a.purgedAt <= now
    ensures Clocked(FolderStep(d, w, e, f).fs, now)
  {
    if e.Process? || e.a.path in w.t.toStage || !e.a.onDisk {
      assert FolderStep(d, w, e, f) == AccountOf(w, f);
    } else {
      HandlingClocked(d, w, e.a, f, before);
      PurgingClocked(d, AfterHandling(d, w, e.a, f), e.a, now);
    }
  }

  lemma {:induction false} RunClocked(d: Device, events: seq<Event>, now: int, f: string)
    requires ClockRuns(events, now)
    ensures Clocked(FolderOf(Run(d, events).t, f), now)
    decreases |events|
  {
    if events != [] {
      var e, before := events[|events| - 1], events[..|events| - 1];
      var reading := if e.Process? then now else e.a.handledAt;
      RunClocked(d, before, reading, f);
      FolderStepClocked(d, Run(d, before), e, f, reading, now);
      StepByFolder(d, Run(d, before), e, f);
    }
  }

  /** Over a whole run with a clock that never goes back, the next purge sends exactly a
      prefix of each queue to the exceptions and keeps the rest. */
  lemma PurgesArePrefixes(d: Device, events: seq<Event>, f: string, last: int, now: int)
    requires ClockRuns(events, last) && last <= now
    ensures var fs := FolderOf(Run(d, events).t, f);
            var g := PurgeFolder(fs, now, d.ttl);
            |g.pending| <= |fs.pending| && |g.bucket| <= |fs.bucket| &&
            g.pending == fs.pending[|fs.pending| - |g.pending|..] &&
                g.bucket == fs.bucket[|fs.bucket| - |g.bucket|..] &&
            StalePending(fs.pending, now, d.ttl) == fs.pending[..|fs.pending| - |g.pending|] &&
            StalePairs(fs.bucket, now, d.ttl) == fs.bucket[..|fs.bucket| - |g.bucket|]
  {
    RunClocked(d, events, last, f);
    PurgeTakesPrefix(FolderOf(Run(d, events).t, f), now, last, d.ttl);
  }

  // ----- the batches that wait for processing -----

  /** A flush: where it was staged, and the pairs as they were in the folder. */
  datatype Flush = Flush(folder: string, stage: string, prefix: string, pairs: seq<Pair>)

  /** The entry a flush makes among the waiting batches. */
  function Filed(f: Flush): (string, Batch) { (f.stage, Batch(f.prefix, Relocate(f.pairs, f.stage))) }

  function FlushOf(d: Device, t: Tracker, e: Event): Option<Flush> {
    if e.Arrive? && e.a.path !in t.toStage && e.a.onDisk && Handle(d, t, e.a).deed.Flushed? then
      var r := Handle(d, t, e.a);
      Some(Flush(e.a.path.folder, r.advertised.value, r.t.finalizing[r.advertised.value].prefix, r.deed.pairs))
    else None
  }

  /** The flush that the n-th event brought about. */
  function FlushAt(d: Device, events: seq<Event>, n: nat): Option<Flush>
    requires n < |events|
  {
    FlushOf(d, Run(d, events[..n]).t, events[n])
  }

  /** The flushes of a run, in order. */
  function Flushes(d: Device, events: seq<Event>): seq<Flush> {
    if events == [] then []
    else
      var n := |events| - 1;
      var f := FlushOf(d, Run(d, events[..n]).t, events[n]);
      Flushes(d, events[..n]) + if f.Some? then [f.value] else []
  }

  /** The batches that processing took out, in order. */
  function TakenOut(d: Device, events: seq<Event>): seq<(string, Batch)> {
    if events == [] then []
    else
      var n := |events| - 1;
      var t, e := Run(d, events[..n]).t, events[n];
      TakenOut(d, events[..n]) + if e.Process? && e.src in t.finalizing then [(e.src, t.finalizing[e.src])] else []
  }

  function PairsOf(flushes: seq<Flush>, f: string): seq<Pair> {
    if flushes == [] then []
    else
      var n := |flushes| - 1;
      PairsOf(flushes[..n], f) + if flushes[n].folder == f then flushes[n].pairs else []
  }

  lemma StagedStep(d: Device, w: World, e: Event, f: string)
    ensures var fl := FlushOf(d, w.t, e);
            BookOf(Step(d, w, e).books, f).staged ==
            BookOf(w.books, f).staged + if fl.Some? && fl.value.folder == f then fl.value.pairs else []
  {
    StepByFolder(d, w, e, f);
    StagedFolderStep(d, w, e, f);
  }

  lemma StagedFolderStep(d: Device, w: World, e: Event, f: string)
    ensures var fl := FlushOf(d, w.t, e);
            FolderStep(d, w, e, f).l.staged ==
            BookOf(w.books, f).staged + if fl.Some? && fl.value.folder == f then fl.value.pairs else []
  {
    if e.Arrive? {
      HandledFolder(d, w.t, e.a, f);
    }
  }

  /** The pairs booked as staged in a folder are those of its flushes, in order. */
  lemma {:induction false} StagedAreFlushes(d: Device, events: seq<Event>, f: string)
    ensures BookOf(Run(d, events).books, f).staged == PairsOf(Flushes(d, events), f)
    decreases |events|
  {
    if events != [] {
      var n := |events| - 1;
      StagedAreFlushes(d, events[..n], f);
      StagedStep(d, Run(d, events[..n]), events[n], f);
      var before, fl := Flushes(d, events[..n]), FlushOf(d, Run(d, events[..n]).t, events[n]);
      if fl.Some? {
        assert (before + [fl.value])[..|before|] == before;
      } else {
        assert before + [] == before;
      }
    }
  }

  /** The waiting batch, if any, that an event's flush overwrites. */
  function Reuse(d: Device, t: Tracker, e: Event): seq<(string, Batch)> {
    var f := FlushOf(d, t, e);
    if f.Some? && f.value.stage in t.finalizing then [(f.value.stage, t.finalizing[f.value.stage])] else []
  }

  /** The waiting batches that flushes into their directories overwrote, in order. */
  function Overwritten(d: Device, events: seq<Event>): seq<(string, Batch)> {
    if events == [] then []
    else
      var n := |events| - 1;
      Overwritten(d, events[..n]) + Reuse(d, Run(d, events[..n]).t, events[n])
  }

  /** Whether `x` is among the waiting batches. */
  function Waits(t: Tracker, x: (string, Batch)): nat {
    if x.0 in t.finalizing && t.finalizing[x.0] == x.1 then 1 else 0
  }

  lemma WaitingStep(d: Device, w: World, e: Event, x: (string, Batch))
    ensures var f := FlushOf(d, w.t, e);
            var gone := e.Process? && e.src in w.t.finalizing && x == (e.src, w.t.finalizing[e.src]);
            Waits(Step(d, w, e).t, x) + (if gone then 1 else 0) + multiset(Reuse(d, w.t, e))[x] ==
            Waits(w.t, x) + if f.Some? && x == Filed(f.value) then 1 else 0
  {
  }

  /** Over every run, each batch that was flushed waits, was taken out, or was overwritten. */
  lemma {:induction false} FlushedAccounted(d: Device, events: seq<Event>, x: (string, Batch))
    ensures multiset(Map(Flushes(d, events), Filed))[x] ==
            Waits(Run(d, events).t, x) + multiset(TakenOut(d, events))[x] + multiset(Overwritten(d, events))[x]
    decreases |events|
  {
    if events != [] {
      var n := |events| - 1;
      FlushedAccounted(d, events[..n], x);
      WaitingStep(d, Run(d, events[..n]), events[n], x);
      GrowFlushes(d, events, x);
      GrowTaken(d, events, x);
    }
  }

  /** Every flush of the run got a staging directory that no waiting batch has. */
  ghost predicate FreshStages(d: Device, events: seq<Event>) {
    forall n: nat :: n < |events| ==> FreshAt(d, events, n)
  }

  ghost predicate FreshAt(d: Device, events: seq<Event>, n: nat)
    requires n < |events|
  {
    Reuse(d, Run(d, events[..n]).t, events[n]) == []
  }

  lemma {:induction false} OverwrittenNoneIff(d: Device, events: seq<Event>)
    ensures Overwritten(d, events) == [] <==> FreshStages(d, events)
    decreases |events|
  {
    if events != [] {
      var n := |events| - 1;
      OverwrittenNoneIff(d, events[..n]);
      FreshBefore(d, events);
    }
  }

  lemma FreshBefore(d: Device, events: seq<Event>)
    requires events != []
    ensures var n := |events| - 1; FreshStages(d, events) <==> FreshStages(d, events[..n]) && FreshAt(d, events, n)
  {
    var n := |events| - 1;
    var init := events[..n];
    forall k: nat | k < n ensures FreshAt(d, events, k) <==> FreshAt(d, init, k) {
      assert init[..k] == events[..k];
    }
    if FreshStages(d, events) {
      forall k: nat | k < n ensures FreshAt(d, init, k) {
        assert FreshAt(d, events, k);
      }
      assert FreshAt(d, events, n);
    }
  }

  /** The relocated batches of a run's flushes are exactly those that wait and those taken out. */
  ghost predicate NothingLost(d: Device, events: seq<Event>) {
    forall x :: multiset(Map(Flushes(d, events), Filed))[x] ==
        Waits(Run(d, events).t, x) + multiset(TakenOut(d, events))[x]
  }

  /** Nothing that was staged is lost if and only if every flush of the run got a directory that no
      waiting batch had. */
  lemma NothingLostIff(d: Device, events: seq<Event>)
    ensures NothingLost(d, events) <==> FreshStages(d, events)
  {
    var gone := Overwritten(d, events);
    OverwrittenNoneIff(d, events);
    forall x ensures multiset(Map(Flushes(d, events), Filed))[x] ==
                     Waits(Run(d, events).t, x) + multiset(TakenOut(d, events))[x] + multiset(gone)[x]
    {
      FlushedAccounted(d, events, x);
    }
    if gone != [] {
      var x := gone[0];
      assert multiset(gone)[x] > 0;
      assert multiset(Map(Flushes(d, events), Filed))[x] != Waits(Run(d, events).t, x) +
          multiset(TakenOut(d, events))[x];
    }
  }

  /** A flush gets a directory of its own when the waiting ones are on disk and a name is free. */
  lemma StageIsFresh(d: Device, t: Tracker, a: Arrival)
    requires Handle(d, t, a).deed.Flushed? && RoomFor(d, t, a)
    ensures Handle(d, t, a).advertised.Some? && Handle(d, t, a).advertised.value !in t.finalizing
  {
    Staging.StageDirFresh(a.path.folder, BatchPrefix(d, FolderOf(t, a.path.folder), a.path), a.occupied);
  }

  /** Should the arrival flush: the waiting directories are on disk and one of the names is free. */
  ghost predicate RoomFor(d: Device, t: Tracker, a: Arrival) {
    Handle(d, t, a).deed.Flushed? ==>
      t.finalizing.Keys <= a.occupied &&
      Staging.NameFree(a.path.folder, BatchPrefix(d, FolderOf(t, a.path.folder), a.path), a.occupied)
  }

  ghost predicate AlwaysRoom(d: Device, events: seq<Event>) {
    forall n: nat :: n < |events| && events[n].Arrive? ==> RoomFor(d, Run(d, events[..n]).t, events[n].a)
  }

  /** While there always is room, no run loses a staged batch. */
  lemma RoomKeepsBatches(d: Device, events: seq<Event>)
    requires AlwaysRoom(d, events)
    ensures NothingLost(d, events)
  {
    forall n: nat | n < |events| ensures FreshAt(d, events, n) {
      var t, e := Run(d, events[..n]).t, events[n];
      if FlushOf(d, t, e).Some? {
        StageIsFresh(d, t, e.a);
      }
    }
    NothingLostIff(d, events);
  }

  lemma GrowFlushes(d: Device, events: seq<Event>, x: (string, Batch))
    requires events != []
    ensures var n := |events| - 1;
            var f := FlushOf(d, Run(d, events[..n]).t, events[n]);
            multiset(Map(Flushes(d, events), Filed))[x] ==
            multiset(Map(Flushes(d, events[..n]), Filed))[x] + if f.Some? && x == Filed(f.value) then 1 else 0
  {
    var n := |events| - 1;
    var before, f := Flushes(d, events[..n]), FlushOf(d, Run(d, events[..n]).t, events[n]);
    if f.Some? {
      assert Map(before + [f.value], Filed) == Map(before, Filed) + [Filed(f.value)];
    } else {
      assert before + [] == before;
    }
  }

  lemma GrowTaken(d: Device, events: seq<Event>, x: (string, Batch))
    requires events != []
    ensures var n := |events| - 1;
            var t, e := Run(d, events[..n]).t, events[n];
            multiset(TakenOut(d, events))[x] == multiset(TakenOut(d, events[..n]))[x]
            + if e.Process? && e.src in t.finalizing && x == (e.src, t.finalizing[e.src]) then 1 else 0
  {
    var n := |events| - 1;
    var t, e := Run(d, events[..n]).t, events[n];
    if e.Process? && e.src in t.finalizing {
    } else {
      assert TakenOut(d, events[..n]) + [] == TakenOut(d, events[..n]);
    }
  }
}
