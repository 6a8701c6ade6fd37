/** A local record's upload ledger and the pass that uploads what is pending. */
module UploadLedger {
  import opened Wrappers
  import opened Seqs

  /** What happened to a file, in order; the ledger keeps no such history, the claims need it. */
  datatype Event =
    | Tracked(file: string)
    | Dropped(file: string)
    | Marked(file: string)                  // declared uploaded
    | Uploaded(file: string, forced: bool)

  datatype Ledger = Ledger(files: map<string, bool>, force: set<string>, inDb: bool)

  /** A ledger with the history that led to it. */
  datatype Book = Book(ledger: Ledger, history: seq<Event>)

  const EMPTY := Book(Ledger(map[], {}, false), [])

  /** Files uploaded, or declared uploaded, since they were last tracked. */
  function Done(h: seq<Event>): set<string> {
    if h == [] then {} else Next(Done(h[..|h| - 1]), h[|h| - 1])
  }

  function Next(done: set<string>, e: Event): set<string> {
    if e.Tracked? || e.Dropped? then done - {e.file} else done + {e.file}
  }

  /** No upload of the history is unforced unless it is the first since the file was tracked. */
  ghost predicate FirstUnforced(h: seq<Event>) {
    forall i :: 0 <= i < |h| ==> UnforcedAt(h, i)
  }

  ghost predicate UnforcedAt(h: seq<Event>, i: int)
    requires 0 <= i < |h|
  {
    h[i].Uploaded? && !h[i].forced ==> h[i].file !in Done(h[..i])
  }

  ghost predicate Sound(b: Book) {
    var l, done := b.ledger, Done(b.history);
    (forall f :: f in l.force ==> f in l.files && !l.files[f]) &&
    (forall f :: f in l.files && l.files[f] ==> f in done) &&
    (forall f :: f in done ==> f in l.files && (l.files[f] || f in l.force)) &&
    FirstUnforced(b.history)
  }

  lemma HistoryGrows(h: seq<Event>, e: Event)
    requires FirstUnforced(h) && (e.Uploaded? && !e.forced ==> e.file !in Done(h))
    ensures FirstUnforced(h + [e]) && Done(h + [e]) == Next(Done(h), e)
  {
    var more := h + [e];
    assert more[..|h|] == h;
    forall i | 0 <= i < |more| ensures UnforcedAt(more, i) {
      if i < |h| {
        assert UnforcedAt(h, i) && more[..i] == h[..i];
      }
    }
  }

  // ----- single steps -----

  function Register(b: Book, f: string): Book {
    var l := b.ledger;
    var was := if f in l.files then Some(l.files[f]) else None;
    Book(Ledger(l.files[f := false],
                if was == Some(true) then l.force + {f} else if was == None then l.force - {f} else l.force,
                l.inDb),
         if was == None then b.history + [Tracked(f)] else b.history)
  }

  function MarkUploaded(b: Book, f: string): Book {
    var l := b.ledger;
    if f in l.files then Book(l.(files := l.files[f := true], force := l.force - {f}), b.history + [Marked(f)])
    else b
  }

  function MarkRecordUnsynced(b: Book): Book {
    var l := b.ledger;
    b.(ledger := Ledger(map f | f in l.files :: false, l.force + l.files.Keys, false))
  }

  function MarkFileUnsynced(b: Book, f: string): Book {
    var l := b.ledger;
    b.(ledger := if f in l.files then Ledger(l.files[f := false], l.force + {f}, false) else l.(inDb := false))
  }

  datatype Answer = Accepted | NotFound | Error

  datatype Pass = Pass(book: Book, missing: seq<string>, aborted: bool)

  /** One file of the pass. */
  function Attempt(p: Pass, f: string, a: Answer): Pass {
    var l := p.book.ledger;
    if p.aborted || f !in l.files || l.files[f] then p
    else
      match a
      case Accepted =>
        p.(book := Book(l.(files := l.files[f := true], force := l.force - {f}),
                        p.book.history + [Uploaded(f, f in l.force)]))
      case NotFound => p.(missing := p.missing + [f])
      case Error => p.(aborted := true)
  }

  function Attempts(b: Book, order: seq<string>, answer: string -> Answer): Pass {
    if order == [] then Pass(b, [], false)
    else Attempt(Attempts(b, order[..|order| - 1], answer), order[|order| - 1], answer(order[|order| - 1]))
  }

  function Drop(b: Book, f: string): Book {
    Book(b.ledger.(files := b.ledger.files - {f}, force := b.ledger.force - {f}), b.history + [Dropped(f)])
  }

  function DropAll(b: Book, missing: seq<string>): Book {
    if missing == [] then b else Drop(DropAll(b, missing[..|missing| - 1]), missing[|missing| - 1])
  }

  /** The whole pass; `order` is the order in which the dictionary lists its keys. */
  function Upload(b: Book, order: seq<string>, answer: string -> Answer): Pass {
    var p := Attempts(b, order, answer);
    if p.aborted then p else p.(book := DropAll(p.book, p.missing))
  }

  predicate Outstanding(l: Ledger) { exists f :: f in l.files && !l.files[f] }

  // ----- what the steps keep -----

  lemma RegisterKeeps(b: Book, f: string)
    requires Sound(b)
    ensures Sound(Register(b, f))
  {
    if f !in b.ledger.files {
      HistoryGrows(b.history, Tracked(f));
    }
  }

  lemma MarkUploadedKeeps(b: Book, f: string)
    requires Sound(b)
    ensures Sound(MarkUploaded(b, f))
  {
    HistoryGrows(b.history, Marked(f));
  }

  lemma UnsyncedKeeps(b: Book, f: string)
    requires Sound(b)
    ensures Sound(MarkRecordUnsynced(b)) && Sound(MarkFileUnsynced(b, f))
  {
  }

  lemma AttemptKeeps(p: Pass, f: string, a: Answer)
    requires Sound(p.book)
    ensures Sound(Attempt(p, f, a).book)
  {
    var l := p.book.ledger;
    if !p.aborted && f in l.files && !l.files[f] && a == Accepted {
      HistoryGrows(p.book.history, Uploaded(f, f in l.force));
    }
  }

  lemma DropKeeps(b: Book, f: string)
    requires Sound(b)
    ensures Sound(Drop(b, f))
  {
    HistoryGrows(b.history, Dropped(f));
  }

  lemma {:induction false} AttemptsKeep(b: Book, order: seq<string>, answer: string -> Answer)
    requires Sound(b)
    ensures Sound(Attempts(b, order, answer).book)
    decreases |order|
  {
    if order != [] {
      AttemptsKeep(b, order[..|order| - 1], answer);
      AttemptKeeps(Attempts(b, order[..|order| - 1], answer), order[|order| - 1], answer(order[|order| - 1]));
    }
  }

  lemma {:induction false} DropAllKeeps(b: Book, missing: seq<string>)
    requires Sound(b)
    ensures Sound(DropAll(b, missing))
    ensures DropAll(b, missing).ledger.files == b.ledger.files - (set f | f in missing)
    decreases |missing|
  {
    if missing != [] {
      DropAllKeeps(b, missing[..|missing| - 1]);
      DropKeeps(DropAll(b, missing[..|missing| - 1]), missing[|missing| - 1]);
      assert missing == missing[..|missing| - 1] + [missing[|missing| - 1]];
    }
  }

  lemma UploadKeeps(b: Book, order: seq<string>, answer: string -> Answer)
    requires Sound(b)
    ensures Sound(Upload(b, order, answer).book)
  {
    AttemptsKeep(b, order, answer);
    var p := Attempts(b, order, answer);
    DropAllKeeps(p.book, p.missing);
  }

  // ----- whole runs -----

  datatype Op =
    | OpRegister(file: string)
    | OpMarkUploaded(file: string)
    | OpMarkRecordUnsynced
    | OpMarkFileUnsynced(file: string)
    | OpUpload(order: seq<string>, answer: string -> Answer)

  function Step(b: Book, op: Op): Book {
    match op
    case OpRegister(f) => Register(b, f)
    case OpMarkUploaded(f) => MarkUploaded(b, f)
    case OpMarkRecordUnsynced => MarkRecordUnsynced(b)
    case OpMarkFileUnsynced(f) => MarkFileUnsynced(b, f)
    case OpUpload(order, answer) => Upload(b, order, answer).book
  }

  function Run(ops: seq<Op>): Book {
    if ops == [] then EMPTY else Step(Run(ops[..|ops| - 1]), ops[|ops| - 1])
  }

  /** Every sequence of steps from an empty record, aborted passes included, keeps the force set
      within the tracked files not yet uploaded and never uploads unforced twice. */
  lemma {:induction false} RunSound(ops: seq<Op>)
    ensures Sound(Run(ops))
    decreases |ops|
  {
    if ops != [] {
      var b, op := Run(ops[..|ops| - 1]), ops[|ops| - 1];
      RunSound(ops[..|ops| - 1]);
      match op
      case OpRegister(f) => RegisterKeeps(b, f);
      case OpMarkUploaded(f) => MarkUploadedKeeps(b, f);
      case OpMarkRecordUnsynced => UnsyncedKeeps(b, "");
      case OpMarkFileUnsynced(f) => UnsyncedKeeps(b, f);
      case OpUpload(order, answer) => UploadKeeps(b, order, answer);
    }
  }

  lemma {:induction false} DoneStays(h: seq<Event>, j: nat, i: nat)
    requires j < i <= |h| && (h[j].Uploaded? || h[j].Marked?)
    requires forall k :: j < k < i ==> h[k] != Tracked(h[j].file) && h[k] != Dropped(h[j].file)
    ensures h[j].file in Done(h[..i])
    decreases i
  {
    assert h[..i][..i - 1] == h[..i - 1];
    if j < i - 1 {
      DoneStays(h, j, i - 1);
    }
  }

  /** Between an upload of a file and a later unforced one, the file was dropped or tracked anew. */
  lemma UnforcedIsFirst(ops: seq<Op>, j: nat, i: nat)
    requires j < i < |Run(ops).history|
    requires Run(ops).history[j].Uploaded? || Run(ops).history[j].Marked?
    requires Run(ops).history[i] == Uploaded(Run(ops).history[j].file, false)
    ensures exists k :: j < k < i &&
              (Run(ops).history[k] == Tracked(Run(ops).history[j].file) ||
                  Run(ops).history[k] == Dropped(Run(ops).history[j].file))
  {
    var h := Run(ops).history;
    RunSound(ops);
    assert UnforcedAt(h, i);
    if forall k :: j < k < i ==> h[k] != Tracked(h[j].file) && h[k] != Dropped(h[j].file) {
      DoneStays(h, j, i);
    }
  }

  // ----- a pass that returns -----

  /** After a stretch of the keys, `f` is uploaded if it was or was accepted, and missing if the
      stretch holds it and it was not found. */
  ghost predicate Covers(b: Book, p: Pass, order: seq<string>, answer: string -> Answer, f: string) {
    p.book.ledger.files.Keys == b.ledger.files.Keys &&
    (f in b.ledger.files ==> p.book.ledger.files[f] == (b.ledger.files[f] || (f in order && answer(f) == Accepted))) &&
    (f in p.missing <==> f in order && f in b.ledger.files && !b.ledger.files[f] && answer(f) == NotFound) &&
    (f in order && f in b.ledger.files && !b.ledger.files[f] ==> answer(f) != Error)
  }

  lemma CoversNext(b: Book, p: Pass, order: seq<string>, g: string, answer: string -> Answer, f: string)
    requires Covers(b, p, order, answer, f) && Covers(b, p, order, answer, g)
    requires g !in order && g in b.ledger.files && !Attempt(p, g, answer(g)).aborted
    ensures Covers(b, Attempt(p, g, answer(g)), order + [g], answer, f)
  {
  }

  lemma {:induction false} AttemptsCover(b: Book, order: seq<string>, answer: string -> Answer, f: string)
    requires NoDup(order) && !Attempts(b, order, answer).aborted && (forall g :: g in order ==> g in b.ledger.files)
    ensures Covers(b, Attempts(b, order, answer), order, answer, f)
    decreases |order|
  {
    if order != [] {
      var init, last := order[..|order| - 1], order[|order| - 1];
      assert order == init + [last];
      AttemptsCover(b, init, answer, f);
      AttemptsCover(b, init, answer, last);
      CoversNext(b, Attempts(b, init, answer), init, last, answer, f);
    }
  }

  /** A pass that returns leaves nothing outstanding: every file it listed is uploaded or, if it
      has vanished, no longer tracked; the force set is empty and the answer is "no". */
  lemma ReturnedPassIsComplete(b: Book, order: seq<string>, answer: string -> Answer)
    requires Sound(b) && NoDup(order) && forall f :: f in order <==> f in b.ledger.files
    requires !Upload(b, order, answer).aborted
    ensures var l := Upload(b, order, answer).book.ledger;
            !Outstanding(l) && l.force == {} &&
            (forall f :: f in l.files <==> f in b.ledger.files && (b.ledger.files[f] || answer(f) == Accepted))
  {
    var p := Attempts(b, order, answer);
    UploadKeeps(b, order, answer);
    AttemptsKeep(b, order, answer);
    DropAllKeeps(p.book, p.missing);
    forall f ensures f in Upload(b, order, answer).book.ledger.files <==>
                       f in b.ledger.files && (b.ledger.files[f] || answer(f) == Accepted)
      ensures f in Upload(b, order, answer).book.ledger.files ==> Upload(b, order, answer).book.ledger.files[f]
    {
      AttemptsCover(b, order, answer, f);
    }
  }

  // ----- what a pass sends -----

  /** None of the first `n` keys that are still to be uploaded meets an error. */
  ghost predicate Calm(l: Ledger, order: seq<string>, answer: string -> Answer, n: nat)
    requires n <= |order|
  {
    forall i :: 0 <= i < n && Pending(l, order[i]) ==> answer(order[i]) != Error
  }

  predicate Pending(l: Ledger, f: string) { f in l.files && !l.files[f] }

  /** `f` is still to be uploaded, no error comes before it, and it is accepted. */
  ghost predicate Sends(l: Ledger, order: seq<string>, answer: string -> Answer, f: string) {
    Pending(l, f) && answer(f) == Accepted && exists i :: 0 <= i < |order| && order[i] == f && Calm(l, order, answer, i)
  }

  /** The history grows by an upload of `f` exactly when the pass sends it, with force exactly
      when the force set asked for it; its entries change with that and not otherwise. */
  ghost predicate Tells(l: Ledger, h: seq<Event>, after: Ledger, h': seq<Event>, f: string, sent: bool) {
    h <= h' && after.inDb == l.inDb && (f in after.files <==> f in l.files) &&
    (forall forced :: Uploaded(f, forced) in h'[|h|..] <==> sent && forced == (f in l.force)) &&
    (f in l.files ==> after.files[f] == (l.files[f] || sent)) && (f in after.force <==> f in l.force && !sent)
  }

  lemma SendsNext(l: Ledger, order: seq<string>, answer: string -> Answer, f: string)
    requires order != [] && NoDup(order)
    ensures var n := |order| - 1;
            Sends(l, order, answer, f) <==>
            Sends(l, order[..n], answer, f) ||
            (f == order[n] && Pending(l, f) && answer(f) == Accepted && Calm(l, order[..n], answer, n))
    ensures var n := |order| - 1;
            Calm(l, order, answer, n + 1) <==>
            Calm(l, order[..n], answer, n) && (Pending(l, order[n]) ==> answer(order[n]) != Error)
  {
    var n := |order| - 1;
    forall i: nat | i <= n ensures Calm(l, order, answer, i) <==> Calm(l, order[..n], answer, i) {
    }
    if Sends(l, order[..n], answer, f) {
      var i :| 0 <= i < n && order[..n][i] == f && Calm(l, order[..n], answer, i);
      assert order[i] == f;
    }
    if Sends(l, order, answer, f) {
      var i :| 0 <= i < |order| && order[i] == f && Calm(l, order, answer, i);
      assert i < n ==> order[..n][i] == f;
    }
  }

  lemma SentOnce(l: Ledger, order: seq<string>, answer: string -> Answer, f: string, n: nat)
    requires n < |order| && NoDup(order) && Sends(l, order[..n], answer, f)
    ensures f != order[n]
  {
    var i :| 0 <= i < n && order[..n][i] == f && Calm(l, order[..n], answer, i);
    assert order[i] == f;
  }

  lemma NotYetSent(l: Ledger, order: seq<string>, answer: string -> Answer, n: nat)
    requires n < |order| && NoDup(order)
    ensures !Sends(l, order[..n], answer, order[n])
  {
    if Sends(l, order[..n], answer, order[n]) {
      SentOnce(l, order, answer, order[n], n);
    }
  }

  /** One more key. */
  lemma AttemptTells(b: Book, p: Pass, g: string, a: Answer, f: string, sent: bool)
    requires Tells(b.ledger, b.history, p.book.ledger, p.book.history, f, sent)
    requires f == g ==> !sent
    ensures var q := Attempt(p, g, a);
            var now := sent || (f == g && !p.aborted && Pending(b.ledger, f) && a == Accepted);
            Tells(b.ledger, b.history, q.book.ledger, q.book.history, f, now)
  {
    var q, h, h' := Attempt(p, g, a), b.history, p.book.history;
    if q.book.history != h' {
      var e := Uploaded(g, g in p.book.ledger.force);
      assert q.book.history == h' + [e];
      assert (h' + [e])[|h|..] == h'[|h|..] + [e];
    }
  }

  lemma {:induction false} AttemptsTell(b: Book, order: seq<string>, answer: string -> Answer, f: string)
    requires NoDup(order)
    ensures var p := Attempts(b, order, answer);
            Tells(b.ledger, b.history, p.book.ledger, p.book.history, f, Sends(b.ledger, order, answer, f)) &&
            (p.aborted <==> !Calm(b.ledger, order, answer, |order|))
    decreases |order|
  {
    if order == [] {
      assert b.history[|b.history|..] == [];
    } else {
      var n := |order| - 1;
      var p, g := Attempts(b, order[..n], answer), order[n];
      AttemptsTell(b, order[..n], answer, f);
      AttemptsTell(b, order[..n], answer, g);
      SendsNext(b.ledger, order, answer, f);
      NotYetSent(b.ledger, order, answer, n);
      AttemptTells(b, p, g, answer(g), f, Sends(b.ledger, order[..n], answer, f));
    }
  }

  /** Dropping what is missing uploads nothing. */
  lemma {:induction false} DropsNoUpload(b: Book, missing: seq<string>, e: Event, n: nat)
    requires e.Uploaded? && n <= |b.history|
    ensures var h := DropAll(b, missing).history;
            b.history <= h && (e in h[n..] <==> e in b.history[n..])
    decreases |missing|
  {
    if missing != [] {
      var init, f := missing[..|missing| - 1], missing[|missing| - 1];
      DropsNoUpload(b, init, e, n);
      var h := DropAll(b, init).history;
      assert (h + [Dropped(f)])[n..] == h[n..] + [Dropped(f)];
    }
  }

  /** A pass uploads exactly the files that are still to be uploaded and accepted, up to the first
      error, each with force exactly when the force set asks for it; it aborts at an error only. */
  lemma PassSends(b: Book, order: seq<string>, answer: string -> Answer, f: string, forced: bool)
    requires NoDup(order)
    ensures var p := Upload(b, order, answer);
            b.history <= p.book.history && (p.aborted <==> !Calm(b.ledger, order, answer, |order|)) &&
            (Uploaded(f, forced) in p.book.history[|b.history|..] <==>
             Sends(b.ledger, order, answer, f) && forced == (f in b.ledger.force))
  {
    var p := Attempts(b, order, answer);
    AttemptsTell(b, order, answer, f);
    DropsNoUpload(p.book, p.missing, Uploaded(f, forced), |b.history|);
  }

  /** What a pass makes of one file. */
  lemma PassFile(b: Book, order: seq<string>, answer: string -> Answer, f: string)
    requires Sound(b) && NoDup(order) && forall g :: g in order <==> g in b.ledger.files
    ensures var p := Upload(b, order, answer);
            var after := p.book.ledger.files;
            (f in after <==> f in b.ledger.files && (p.aborted || b.ledger.files[f] || answer(f) == Accepted)) &&
            (f in after ==> after[f] == (b.ledger.files[f] || Sends(b.ledger, order, answer, f)))
  {
    var p := Upload(b, order, answer);
    AttemptsTell(b, order, answer, f);
    if !p.aborted {
      ReturnedPassIsComplete(b, order, answer);
      if f in b.ledger.files {
        var i :| 0 <= i < |order| && order[i] == f;
        assert Calm(b.ledger, order, answer, i);
      }
    }
  }

  /** All a pass does, file by file. */
  lemma PassOutcome(b: Book, order: seq<string>, answer: string -> Answer)
    requires Sound(b) && NoDup(order) && forall f :: f in order <==> f in b.ledger.files
    ensures var p := Upload(b, order, answer);
            b.history <= p.book.history && (p.aborted <==> !Calm(b.ledger, order, answer, |order|)) &&
            (forall f, forced :: Uploaded(f, forced) in p.book.history[|b.history|..] <==>
                Sends(b.ledger, order, answer, f) && forced == (f in b.ledger.force)) &&
            (forall f :: f in p.book.ledger.files <==>
                f in b.ledger.files && (p.aborted || b.ledger.files[f] || answer(f) == Accepted)) &&
            (forall f :: f in p.book.ledger.files ==>
                p.book.ledger.files[f] == (b.ledger.files[f] || Sends(b.ledger, order, answer, f)))
  {
    PassSends(b, order, answer, "", false);
    forall f, forced
      ensures Uploaded(f, forced) in Upload(b, order, answer).book.history[|b.history|..] <==>
              Sends(b.ledger, order, answer, f) && forced == (f in b.ledger.force)
    {
      PassSends(b, order, answer, f, forced);
    }
    forall f
      ensures var p := Upload(b, order, answer);
              f in p.book.ledger.files <==>
              f in b.ledger.files && (p.aborted || b.ledger.files[f] || answer(f) == Accepted)
      ensures var after := Upload(b, order, answer).book.ledger.files;
              f in after ==> after[f] == (b.ledger.files[f] || Sends(b.ledger, order, answer, f))
    {
      PassFile(b, order, answer, f);
    }
  }

  // ----- a mark makes the next pass upload with force -----

  predicate Owes(b: Book, f: string) { Pending(b.ledger, f) && f in b.ledger.force }

  /** The operation declares the record or `f` unsynced. */
  predicate Marks(op: Op, f: string) { op.OpMarkRecordUnsynced? || op == OpMarkFileUnsynced(f) }

  /** Until `f` is declared uploaded or a pass begins, the mark stands. */
  predicate Leaves(op: Op, f: string) { !op.OpUpload? && op != OpMarkUploaded(f) }

  lemma {:induction false} MarkStands(ops: seq<Op>, k: nat, n: nat, f: string)
    requires k < n <= |ops| && Marks(ops[k], f) && f in Run(ops[..k]).ledger.files
    requires forall i :: k < i < n ==> Leaves(ops[i], f)
    ensures Owes(Run(ops[..n]), f)
    decreases n
  {
    assert ops[..n][..n - 1] == ops[..n - 1];
    if n > k + 1 {
      MarkStands(ops, k, n - 1, f);
      assert Leaves(ops[n - 1], f);
    }
  }

  /** In the first pass after a mark, whatever was registered or marked in between, every tracked
      file that is accepted before any error is uploaded, and with force only; in a pass that
      returns, that is every accepted file. */
  lemma MarkedIsForced(ops: seq<Op>, k: nat, f: string, order: seq<string>, answer: string -> Answer)
    requires k < |ops| && Marks(ops[k], f) && f in Run(ops[..k]).ledger.files
    requires forall i :: k < i < |ops| ==> Leaves(ops[i], f)
    requires NoDup(order) && forall g :: g in order <==> g in Run(ops).ledger.files
    ensures var b, p := Run(ops), Upload(Run(ops), order, answer);
            b.history <= p.book.history &&
            var now := p.book.history[|b.history|..];
            Uploaded(f, false) !in now && (Uploaded(f, true) in now <==> Sends(b.ledger, order, answer, f)) &&
            (!p.aborted && answer(f) == Accepted ==> Uploaded(f, true) in now)
  {
    var b := Run(ops);
    assert ops[..|ops|] == ops;
    MarkStands(ops, k, |ops|, f);
    PassSends(b, order, answer, f, true);
    PassSends(b, order, answer, f, false);
    assert f in order;
    var i :| 0 <= i < |order| && order[i] == f;
  }

  // ----- the record object -----

  class LocalRecord {
    var files: map<string, bool>
    var force: set<string>
    var inDb: bool
    ghost var history: seq<Event>

    ghost function Value(): Book
      reads this
    {
      Book(Ledger(files, force, inDb), history)
    }

    constructor ()
      ensures Value() == EMPTY
    {
      files, force, inDb, history := map[], {}, false, [];
    }

    method RegisterFile(f: string)
      requires Sound(Value())
      modifies this
      ensures Value() == Register(old(Value()), f) && Sound(Value())
      ensures files == old(files)[f := false] && inDb == old(inDb)
      ensures f in force <==> f in old(files) && (old(files)[f] || f in old(force))
      ensures forall g :: g != f ==> (g in force <==> g in old(force))
      ensures history == old(history) + if f in old(files) then [] else [Tracked(f)]
    {
      RegisterKeeps(Value(), f);
      if f !in files {
        force := force - {f};
        history := history + [Tracked(f)];
      } else if files[f] {
        force := force + {f};
      }
      files := files[f := false];
    }

    method MarkAsUploaded(f: string)
      requires Sound(Value())
      modifies this
      ensures Value() == MarkUploaded(old(Value()), f) && Sound(Value())
      ensures files.Keys == old(files.Keys) && inDb == old(inDb) && (f in files ==> files[f]) && f !in force
      ensures forall g :: g in files && g != f ==> files[g] == old(files)[g] && (g in force <==> g in old(force))
    {
      MarkUploadedKeeps(Value(), f);
      if f in files {
        files := files[f := true];
        force := force - {f};
        history := history + [Marked(f)];
      }
    }

    method MarkUnsynced()
      requires Sound(Value())
      modifies this
      ensures Value() == MarkRecordUnsynced(old(Value())) && Sound(Value())
      ensures files.Keys == old(files.Keys) && force == files.Keys && !inDb && history == old(history)
      ensures forall f :: f in files ==> !files[f]
    {
      UnsyncedKeeps(Value(), "");
      files := map f | f in files :: false;
      force := force + files.Keys;
      inDb := false;
    }

    method MarkFileAsUnsynced(f: string)
      requires Sound(Value())
      modifies this
      ensures Value() == MarkFileUnsynced(old(Value()), f) && Sound(Value())
      ensures files.Keys == old(files.Keys) && !inDb && history == old(history)
      ensures f in files ==> !files[f] && f in force
      ensures forall g :: g in files && g != f ==> files[g] == old(files)[g] && (g in force <==> g in old(force))
    {
      UnsyncedKeeps(Value(), f);
      if f in files {
        files := files[f := false];
        force := force + {f};
      }
      inDb := false;
    }

    /** `_upload_record_files`: whether it returned, and if so whether anything is outstanding. */
    method UploadRecordFiles(order: seq<string>, answer: string -> Answer) returns (returned: bool, outstanding: bool)
      requires Sound(Value()) && NoDup(order) && forall f :: f in order <==> f in files
      modifies this
      ensures Value() == Upload(old(Value()), order, answer).book && Sound(Value())
      ensures returned == !Upload(old(Value()), order, answer).aborted
      ensures returned ==> !outstanding && force == {} && forall f :: f in files ==> files[f]
      ensures returned <==> Calm(old(Value().ledger), order, answer, |order|)
      ensures old(history) <= history &&
              forall f, forced :: Uploaded(f, forced) in history[|old(history)|..] <==>
                  Sends(old(Value().ledger), order, answer, f) && forced == (f in old(force))
      ensures forall f :: f in files <==>
                  f in old(files) && (!returned || old(files)[f] || answer(f) == Accepted)
      ensures forall f :: f in files ==>
                  files[f] == (old(files)[f] || Sends(old(Value().ledger), order, answer, f))
    {
      UploadKeeps(Value(), order, answer);
      PassOutcome(Value(), order, answer);
      ghost var start := Value();
      var missing: seq<string> := [];
      for i := 0 to |order|
        invariant Pass(Value(), missing, false) == Attempts(start, order[..i], answer)
        invariant files.Keys == start.ledger.files.Keys
      {
        assert order[..i + 1][..i] == order[..i];
        var aborted;
        missing, aborted := UploadFile(order[i], answer(order[i]), missing);
        if aborted {
          Aborts(start, order, answer, i + 1);
          return false, true;
        }
      }
      assert order[..|order|] == order;
      ReturnedPassIsComplete(start, order, answer);
      DropMissing(missing);
      outstanding := exists f :: f in files && !files[f];
      returned := true;
    }

    /** One turn of the loop over the tracked files. */
    method UploadFile(f: string, answer: Answer, missing: seq<string>) returns (missing': seq<string>, aborted: bool)
      requires f in files
      modifies this
      ensures Pass(Value(), missing', aborted) == Attempt(Pass(old(Value()), missing, false), f, answer)
      ensures files.Keys == old(files).Keys
    {
      missing', aborted := missing, false;
      if files[f] {
        return;
      }
      match answer
      case Accepted =>
        history := history + [Uploaded(f, f in force)];
        files := files[f := true];
        if f in force {
          force := force - {f};
        }
      case NotFound =>
        missing' := missing + [f];
      case Error =>
        aborted := true;
    }

    method DropMissing(missing: seq<string>)
      modifies this
      ensures Value() == DropAll(old(Value()), missing)
    {
      for i := 0 to |missing|
        invariant Value() == DropAll(old(Value()), missing[..i])
      {
        assert missing[..i + 1][..i] == missing[..i];
        files := files - {missing[i]};
        force := force - {missing[i]};
        history := history + [Dropped(missing[i])];
      }
      assert missing[..|missing|] == missing;
    }
  }

  /** An aborted pass stays where it was aborted. */
  lemma {:induction false} Aborts(b: Book, order: seq<string>, answer: string -> Answer, i: nat)
    requires i <= |order| && Attempts(b, order[..i], answer).aborted
    ensures Attempts(b, order, answer) == Attempts(b, order[..i], answer)
    decreases |order| - i
  {
    if i < |order| {
      assert order[..i + 1][..i] == order[..i];
      Aborts(b, order, answer, i + 1);
    } else {
      assert order[..i] == order;
    }
  }
}
