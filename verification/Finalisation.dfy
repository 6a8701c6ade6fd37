/** Numbering the files of a batch in the record directory. */
module Finalisation {
  import opened Wrappers
  import opened Text
  import B = SentinelBatching

  type OtherText = t: string | t != ".csv" && t != ".zip" && t != ".ngb" witness ""

  /** A file suffix; the ones the code names itself are singled out. */
  datatype Suffix = Csv | Zipped | Ngb | OtherSuffix(text: OtherText)

  function Spelled(s: Suffix): string {
    match s
    case Csv => ".csv"
    case Zipped => ".zip"
    case Ngb => ".ngb"
    case OtherSuffix(text) => text
  }

  /** `path.suffix.lower()`; spelling is one to one. */
  function SuffixOf(p: B.Path): (s: Suffix)
    ensures Spelled(s) == Lower(p.suffix)
  {
    var text := Lower(p.suffix);
    if text == ".csv" then Csv else if text == ".zip" then Zipped else if text == ".ngb" then Ngb else OtherSuffix(text)
  }

  /** A file name as `pathlib` takes it apart. */
  datatype Name = Name(stem: string, suffix: Suffix)

  datatype Content = Plain(bytes: string) | Zip(arcname: Name, inner: Content)

  /** The regular files of a directory. */
  type Dir = map<Name, Content>

  function Base(prefix: string, sep: string, n: nat): string { prefix + sep + Pad2(n) }

  /** The sequence number a stem carries for `prefix`, if any. */
  function IndexOf(prefix: string, sep: string, stem: string): Option<nat> {
    match RSplit(stem, sep)
    case None => None
    case Some((base, digits)) => if base == prefix then ParseInt(digits) else None
  }

  /** How a batch's files are numbered: printing a number, and reading one off a stem. */
  datatype Numbering = Numbering(name: nat -> string, index: string -> Option<nat>)

  function Numbered(prefix: string, sep: string): Numbering {
    Numbering((n: nat) => Base(prefix, sep, n), stem => IndexOf(prefix, sep, stem))
  }

  /** Every printed number is read back. */
  ghost predicate Lawful(nb: Numbering) {
    forall n: nat :: nb.index(nb.name(n)) == Some(n)
  }

  predicate HasNonDigit(s: string) { exists i :: 0 <= i < |s| && !IsDigit(s[i]) }

  // ----- printing and parsing a number undo each other -----

  lemma SplitLaw(prefix: string, sep: string, digits: string)
    requires HasNonDigit(sep) && AllDigits(digits)
    ensures RSplit(prefix + sep + digits, sep) == Some((prefix, digits))
  {
    var s := prefix + sep + digits;
    var j := LastNonDigit(sep);
    forall q | |prefix| < q <= |s| - |sep| ensures !OccursAt(sep, s, q) {
      assert IsDigit(s[q + j]);
      assert s[q..q + |sep|][j] == s[q + j];
    }
    assert s[|prefix|..|prefix| + |sep|] == sep;
    assert OccursAt(sep, s, |prefix|);
    assert s[..|prefix|] == prefix && s[|prefix| + |sep|..] == digits;
  }

  lemma {:induction false} LastNonDigit(s: string) returns (j: nat)
    requires HasNonDigit(s)
    ensures j < |s| && !IsDigit(s[j]) && forall k :: j < k < |s| ==> IsDigit(s[k])
  {
    if !IsDigit(s[|s| - 1]) {
      j := |s| - 1;
    } else {
      var i :| 0 <= i < |s| && !IsDigit(s[i]);
      assert s[..|s| - 1][i] == s[i];
      j := LastNonDigit(s[..|s| - 1]);
    }
  }

  lemma IndexOfBase(prefix: string, sep: string, n: nat)
    requires HasNonDigit(sep)
    ensures IndexOf(prefix, sep, Base(prefix, sep, n)) == Some(n)
  {
    SplitLaw(prefix, sep, Pad2(n));
    ParsePadded(n);
  }

  /** For a separator made of digits only, some number is not read back. */
  lemma SplitFails(prefix: string, sep: string) returns (n: nat)
    requires sep != "" && AllDigits(sep)
    ensures n >= 1 && IndexOf(prefix, sep, Base(prefix, sep, n)) == None
  {
    n := Value("1" + sep);
    ValueLeadingOne("1" + sep);
    DecimalOfValue("1" + sep);
    var s := Base(prefix, sep, n);
    assert Pad2(n) == "1" + sep;
    assert OccursAt(sep, s, |s| - |sep|);
    assert RSplit(s, sep).value.0 == s[..|s| - |sep|];
  }

  lemma {:induction false} ValueLeadingOne(s: string)
    requires AllDigits(s) && s != "" && s[0] == '1'
    ensures Value(s) >= 1 && (|s| >= 2 ==> Value(s) >= 10)
  {
    if |s| > 1 {
      ValueLeadingOne(s[..|s| - 1]);
    } else {
      assert s[..0] == "" && s == "1";
    }
  }

  lemma {:induction false} DecimalOfValue(s: string)
    requires AllDigits(s) && s != "" && s[0] == '1'
    ensures Decimal(Value(s)) == s
  {
    if |s| == 1 {
      assert s[..0] == "" && s == "1";
    } else {
      var init := s[..|s| - 1];
      ValueLeadingOne(init);
      DecimalOfValue(init);
      var v, d := Value(init), s[|s| - 1] as int - '0' as int;
      assert Value(s) == 10 * v + d && (10 * v + d) / 10 == v && (10 * v + d) % 10 == d;
      assert s == init + [s[|s| - 1]];
    }
  }

  /** Numbers are read back exactly when the separator has a character that is not a digit. */
  lemma LawfulIff(prefix: string, sep: string)
    requires sep != ""
    ensures Lawful(Numbered(prefix, sep)) <==> HasNonDigit(sep)
  {
    var nb := Numbered(prefix, sep);
    if HasNonDigit(sep) {
      forall n: nat ensures nb.index(nb.name(n)) == Some(n) {
        IndexOfBase(prefix, sep, n);
      }
    } else {
      var n := SplitFails(prefix, sep);
      assert nb.index(nb.name(n)) == None;
    }
  }

  /** A numbered stem is the prefix, the separator and the number in two digits, or more where two
      are not enough. */
  predicate NumberedStem(stem: string, prefix: string, sep: string, n: nat) {
    |prefix| + |sep| <= |stem| && stem[..|prefix|] == prefix && stem[|prefix|..|prefix| + |sep|] == sep &&
    var digits := stem[|prefix| + |sep|..];
    ParseInt(digits) == Some(n) && |digits| >= 2 && (|digits| > 2 ==> digits[0] != '0')
  }

  lemma NameIsNumbered(prefix: string, sep: string, n: nat)
    ensures NumberedStem(Numbered(prefix, sep).name(n), prefix, sep, n)
  {
    var stem := Base(prefix, sep, n);
    ParsePadded(n);
    assert stem[..|prefix|] == prefix && stem[|prefix|..|prefix| + |sep|] == sep;
    assert stem[|prefix| + |sep|..] == Pad2(n);
  }

  /** A stem counts for a prefix if and only if it is the prefix, the separator and digits, with
      however many leading zeros; no other prefix's numbers count. */
  lemma CountsIff(prefix: string, sep: string, stem: string, n: nat)
    requires HasNonDigit(sep)
    ensures Numbered(prefix, sep).index(stem) == Some(n) <==>
            exists digits :: ParseInt(digits) == Some(n) && stem == prefix + sep + digits
  {
    if IndexOf(prefix, sep, stem) == Some(n) {
      var (base, digits) := RSplit(stem, sep).value;
      var i := LastBelow(sep, stem, |stem| + 1);
      assert stem == stem[..i] + stem[i..i + |sep|] + stem[i + |sep|..];
      assert ParseInt(digits) == Some(n) && stem == prefix + sep + digits;
    }
    if digits :| ParseInt(digits) == Some(n) && stem == prefix + sep + digits {
      SplitLaw(prefix, sep, digits);
    }
  }

  // ----- the next number in a directory -----

  /** `m` is the largest number in use, whatever the suffix, or 0. */
  ghost predicate IsMaxIndex(dir: Dir, nb: Numbering, m: nat) {
    (forall f :: f in dir && nb.index(f.stem).Some? ==> nb.index(f.stem).value <= m) &&
    (m == 0 || exists f :: f in dir && nb.index(f.stem) == Some(m))
  }

  /** `_next_sequence_basename`: the loop over the directory. */
  method MaxIndex(dir: Dir, nb: Numbering) returns (m: nat)
    ensures IsMaxIndex(dir, nb, m)
  {
    m := 0;
    var rest := dir.Keys;
    while rest != {}
      invariant rest <= dir.Keys
      invariant forall f :: f in dir && f !in rest && nb.index(f.stem).Some? ==> nb.index(f.stem).value <= m
      invariant m == 0 || exists f :: f in dir && nb.index(f.stem) == Some(m)
    {
      var f :| f in rest;
      rest := rest - {f};
      match nb.index(f.stem)
      case None =>
      case Some(i) => m := if i > m then i else m;
    }
  }

  ghost predicate NumberFree(dir: Dir, base: string) { forall f :: f in dir ==> f.stem != base }

  /** The next name is free in every directory. */
  ghost predicate AlwaysFree(nb: Numbering) {
    forall dir: Dir, m: nat :: IsMaxIndex(dir, nb, m) ==> NumberFree(dir, nb.name(m + 1))
  }

  /** Numbering never picks a name in use exactly when the separator has a character that is
      not a digit. */
  lemma AlwaysFreeIff(prefix: string, sep: string)
    requires sep != ""
    ensures AlwaysFree(Numbered(prefix, sep)) <==> HasNonDigit(sep)
  {
    var nb := Numbered(prefix, sep);
    LawfulIff(prefix, sep);
    if HasNonDigit(sep) {
      forall dir: Dir, m: nat | IsMaxIndex(dir, nb, m) ensures NumberFree(dir, nb.name(m + 1)) {
      }
    } else {
      var n := SplitFails(prefix, sep);
      forall k: nat ensures nb.index(nb.name(k)) in {None, Some(k)} {
        ReadBackOrNone(prefix, sep, k);
      }
      var least := LeastUnread(nb, 1, n);
      Clash(nb, least);
    }
  }

  /** The first number that is not read back. */
  lemma {:induction false} LeastUnread(nb: Numbering, lo: nat, n: nat) returns (k: nat)
    requires 1 <= lo <= n && nb.index(nb.name(n)) == None
    requires forall k: nat :: nb.index(nb.name(k)) in {None, Some(k)}
    requires lo > 1 ==> nb.index(nb.name(lo - 1)) == Some(lo - 1)
    ensures 1 <= k && nb.index(nb.name(k)) == None
    ensures k > 1 ==> nb.index(nb.name(k - 1)) == Some(k - 1)
    decreases n - lo
  {
    assert nb.index(nb.name(lo)) in {None, Some(lo)};
    if nb.index(nb.name(lo)) == None {
      k := lo;
    } else {
      k := LeastUnread(nb, lo + 1, n);
    }
  }

  /** A stem that yields a number for the prefix yields the number it was printed from. */
  lemma ReadBackOrNone(prefix: string, sep: string, n: nat)
    ensures IndexOf(prefix, sep, Base(prefix, sep, n)) in {None, Some(n)}
  {
    var s := Base(prefix, sep, n);
    var i := LastBelow(sep, s, |s| + 1);
    if i == |prefix| {
      assert s[..i] == prefix && s[i + |sep|..] == Pad2(n);
      ParsePadded(n);
    } else if i >= 0 {
      assert |s[..i]| == i;
    }
  }

  /** A directory in which the number after the largest one read is already there. */
  lemma Clash(nb: Numbering, k: nat)
    requires 1 <= k && nb.index(nb.name(k)) == None
    requires k > 1 ==> nb.index(nb.name(k - 1)) == Some(k - 1)
    ensures !AlwaysFree(nb)
  {
    var taken := Name(nb.name(k), Csv);
    var dir: Dir := map[taken := Plain("")];
    if k > 1 {
      var previous := Name(nb.name(k - 1), Csv);
      dir := dir[previous := Plain("")];
      assert previous in dir && nb.index(previous.stem) == Some(k - 1);
    }
    assert IsMaxIndex(dir, nb, k - 1);
    assert !NumberFree(dir, nb.name(k - 1 + 1)) by {
      assert k - 1 + 1 == k && taken in dir;
    }
  }

  // ----- PSA: moving a batch into the record directory -----

  /** The contents of a staged pair: the export's and the native's. */
  type PairContent = (Content, Content)

  /** The files one PSA pair becomes. */
  function PlacePsa(dir: Dir, base: string, pair: PairContent): Dir {
    dir[Name(base, Csv) := pair.0][Name(base, Zipped) := Zip(Name(base, Ngb), pair.1)]
  }

  ghost predicate Keeps(before: Dir, after: Dir) {
    forall f :: f in before ==> f in after && after[f] == before[f]
  }

  /** A pair's two files are new in `after` and hold the pair's contents. */
  ghost predicate Landed(before: Dir, after: Dir, base: string, pair: PairContent) {
    Name(base, Csv) !in before && Name(base, Zipped) !in before &&
    Name(base, Csv) in after && after[Name(base, Csv)] == pair.0 &&
    Name(base, Zipped) in after && after[Name(base, Zipped)] == Zip(Name(base, Ngb), pair.1)
  }

  /** A file name given to one of the first `n` pairs. */
  predicate Assigned(f: Name, nb: Numbering, start: nat, n: nat) {
    f.suffix in {Csv, Zipped} && nb.index(f.stem).Some? &&
    var k := nb.index(f.stem).value; start < k <= start + n && f.stem == nb.name(k)
  }

  /** The pairs sit in batch order under the numbers after `start`, every file of `dir` is still
      there unchanged, and nothing else was added. */
  ghost predicate AllLanded(dir: Dir, after: Dir, contents: seq<PairContent>, nb: Numbering, start: nat) {
    Keeps(dir, after) &&
    (forall k :: 0 <= k < |contents| ==> Landed(dir, after, nb.name(start + k + 1), contents[k])) &&
    (forall f :: f in after ==> f in dir || Assigned(f, nb, start, |contents|))
  }

  datatype Outcome = Completed | ExportMissing(at: nat) | NativeMissing(at: nat)

  /** What the given pairs leave in the staging directory. */
  function Remaining(stage: map<B.Path, Content>, pairs: seq<B.Pair>): map<B.Path, Content> {
    stage - (set p | p in B.Exports(pairs)) - (set p | p in B.Natives(pairs))
  }

  /** Where a PSA batch stands after the pairs `placed`. */
  ghost predicate PsaOk(dir: Dir, after: Dir, placed: seq<PairContent>, nb: Numbering, start: nat) {
    LandedOk(dir, after, placed, nb, start) && IndexOk(after, nb, start + |placed|)
  }

  ghost predicate LandedOk(dir: Dir, after: Dir, placed: seq<PairContent>, nb: Numbering, start: nat) {
    Lawful(nb) ==> AllLanded(dir, after, placed, nb, start)
  }

  ghost predicate IndexOk(after: Dir, nb: Numbering, m: nat) { Lawful(nb) ==> IsMaxIndex(after, nb, m) }

  /** `placed` are the contents of the first pairs as they were staged, and `left` what remains. */
  ghost predicate Taken(stage: map<B.Path, Content>, left: map<B.Path, Content>, pairs: seq<B.Pair>,
      placed: seq<PairContent>)
    requires |placed| <= |pairs|
  {
    left == Remaining(stage, pairs[..|placed|]) &&
    forall i :: 0 <= i < |placed| ==>
                  pairs[i].exported in stage && pairs[i].native in stage &&
                  placed[i] == (stage[pairs[i].exported], stage[pairs[i].native])
  }

  method PlaceOnePsa(ghost dir: Dir, before: Dir, ghost placed: seq<PairContent>, nb: Numbering, ghost start: nat,
      pair: PairContent)
    returns (after: Dir)
    requires PsaOk(dir, before, placed, nb, start)
    ensures PsaOk(dir, after, placed + [pair], nb, start)
  {
    var n := MaxIndex(before, nb);
    if Lawful(nb) {
      SameMaxIndex(before, nb, n, start + |placed|);
      NextFree(before, nb, n);
    }
    StepLanded(dir, before, placed, nb, start, n, pair);
    StepIndex(before, nb, n, pair);
    after := PlacePsa(before, nb.name(n + 1), pair);
  }

  lemma StepLanded(dir: Dir, before: Dir, placed: seq<PairContent>, nb: Numbering, start: nat, n: nat,
      pair: PairContent)
    requires LandedOk(dir, before, placed, nb, start)
    requires Lawful(nb) ==> n == start + |placed| && NumberFree(before, nb.name(n + 1))
    ensures LandedOk(dir, PlacePsa(before, nb.name(n + 1), pair), placed + [pair], nb, start)
  {
    if Lawful(nb) {
      OneMoreLanded(dir, before, placed, nb, start, pair);
    }
  }

  lemma StepIndex(before: Dir, nb: Numbering, n: nat, pair: PairContent)
    requires IsMaxIndex(before, nb, n)
    ensures IndexOk(PlacePsa(before, nb.name(n + 1), pair), nb, n + 1)
  {
    if Lawful(nb) {
      NextIndex(before, nb, n, pair);
    }
  }

  lemma SameMaxIndex(dir: Dir, nb: Numbering, m: nat, n: nat)
    requires IsMaxIndex(dir, nb, m) && IsMaxIndex(dir, nb, n)
    ensures m == n
  {
  }

  /** The number after the largest is free ... */
  lemma NextFree(before: Dir, nb: Numbering, n: nat)
    requires Lawful(nb) && IsMaxIndex(before, nb, n)
    ensures NumberFree(before, nb.name(n + 1))
  {
    assert nb.index(nb.name(n + 1)) == Some(n + 1);
  }

  /** ... and becomes the largest. */
  lemma NextIndex(before: Dir, nb: Numbering, n: nat, pair: PairContent)
    requires Lawful(nb) && IsMaxIndex(before, nb, n)
    ensures IsMaxIndex(PlacePsa(before, nb.name(n + 1), pair), nb, n + 1)
  {
    var after, base := PlacePsa(before, nb.name(n + 1), pair), nb.name(n + 1);
    assert nb.index(base) == Some(n + 1);
    assert Name(base, Csv) in after && nb.index(Name(base, Csv).stem) == Some(n + 1);
  }

  lemma OneMoreLanded(dir: Dir, before: Dir, placed: seq<PairContent>, nb: Numbering, start: nat, pair: PairContent)
    requires Lawful(nb) && AllLanded(dir, before, placed, nb, start)
    requires NumberFree(before, nb.name(start + |placed| + 1))
    ensures AllLanded(dir, PlacePsa(before, nb.name(start + |placed| + 1), pair), placed + [pair], nb, start)
  {
    var base, all := nb.name(start + |placed| + 1), placed + [pair];
    var after := PlacePsa(before, base, pair);
    assert nb.index(base) == Some(start + |placed| + 1);
    forall k | 0 <= k < |all| ensures Landed(dir, after, nb.name(start + k + 1), all[k]) {
      if k < |placed| {
        assert Landed(dir, before, nb.name(start + k + 1), placed[k]);
      }
    }
    forall f | f in after ensures f in dir || Assigned(f, nb, start, |all|) {
      if f in before && f !in dir {
        assert Assigned(f, nb, start, |placed|);
      }
    }
  }

  /** The pair loop of PSA `device_specific_processing`; stops at the first missing file.
      `placed` are the contents of the pairs that were finalised. */
  method FinalisePsa(dir: Dir, stage: map<B.Path, Content>, pairs: seq<B.Pair>, nb: Numbering)
    returns (after: Dir, left: map<B.Path, Content>, outcome: Outcome, placed: seq<PairContent>, ghost start: nat)
    ensures |placed| <= |pairs| && (outcome.Completed? <==> |placed| == |pairs|)
    ensures outcome.ExportMissing? ==> outcome.at == |placed| && pairs[outcome.at].exported !in left
    ensures outcome.NativeMissing? ==>
              outcome.at == |placed| && pairs[outcome.at].exported in left && pairs[outcome.at].native !in left
    ensures Taken(stage, left, pairs, placed)
    ensures IsMaxIndex(dir, nb, start)
    ensures PsaOk(dir, after, placed, nb, start)
  {
    after, left, placed := dir, stage, [];
    start := MaxIndex(dir, nb);
    while |placed| < |pairs|
      invariant |placed| <= |pairs|
      invariant Taken(stage, left, pairs, placed)
      invariant PsaOk(dir, after, placed, nb, start)
      decreases |pairs| - |placed|
    {
      var pair := pairs[|placed|];
      if pair.exported !in left {
        return after, left, ExportMissing(|placed|), placed, start;
      }
      if pair.native !in left {
        return after, left, NativeMissing(|placed|), placed, start;
      }
      var contents := (left[pair.exported], left[pair.native]);
      after := PlaceOnePsa(dir, after, placed, nb, start, contents);
      TakeOne(stage, left, pairs, placed);
      left := left - {pair.exported} - {pair.native};
      placed := placed + [contents];
    }
    return after, left, Completed, placed, start;
  }

  /** With a separator that has a non-digit, the pairs get the numbers after the largest one in
      batch order, every file that was there stays, and nothing else is added. */
  method FinalisePsaAs(dir: Dir, stage: map<B.Path, Content>, pairs: seq<B.Pair>, prefix: string, sep: string)
    returns (after: Dir, left: map<B.Path, Content>, outcome: Outcome, placed: seq<PairContent>, ghost start: nat)
    ensures |placed| <= |pairs| && (outcome.Completed? <==> |placed| == |pairs|) && Taken(stage, left, pairs, placed)
    ensures IsMaxIndex(dir, Numbered(prefix, sep), start)
    ensures HasNonDigit(sep) ==> AllLanded(dir, after, placed, Numbered(prefix, sep), start)
    ensures forall k: nat :: NumberedStem(Numbered(prefix, sep).name(k), prefix, sep, k)
  {
    forall k: nat ensures NumberedStem(Numbered(prefix, sep).name(k), prefix, sep, k) {
      NameIsNumbered(prefix, sep, k);
    }
    after, left, outcome, placed, start := FinalisePsa(dir, stage, pairs, Numbered(prefix, sep));
    if HasNonDigit(sep) {
      LawfulIff(prefix, sep);
    }
  }

  lemma TakeOne(stage: map<B.Path, Content>, left: map<B.Path, Content>, pairs: seq<B.Pair>, placed: seq<PairContent>)
    requires |placed| < |pairs| && Taken(stage, left, pairs, placed)
    requires pairs[|placed|].exported in left && pairs[|placed|].native in left
    ensures var pair := pairs[|placed|];
            Taken(stage, left - {pair.exported} - {pair.native}, pairs, placed +
                [(left[pair.exported], left[pair.native])])
  {
  }

  // ----- Kinexus: numbering through `get_unique_filename` -----

  /** `c` is one more than the largest number in use under the suffix `ext`, or 1. */
  ghost predicate IsCounter(dir: Dir, nb: Numbering, ext: Suffix, c: nat) {
    c >= 1 &&
    (forall f :: f in dir && f.suffix == ext && nb.index(f.stem).Some? ==> nb.index(f.stem).value < c) &&
    (c == 1 || exists f :: f in dir && f.suffix == ext && nb.index(f.stem) == Some(c - 1))
  }

  /** The loop of `get_unique_filename`. */
  method UniqueCounter(dir: Dir, nb: Numbering, ext: Suffix) returns (c: nat)
    ensures IsCounter(dir, nb, ext, c)
  {
    c := 1;
    var rest := dir.Keys;
    while rest != {}
      invariant rest <= dir.Keys && c >= 1
      invariant forall f :: f in dir && f !in rest && f.suffix == ext && nb.index(f.stem).Some? ==>
                nb.index(f.stem).value < c
      invariant c == 1 || exists f :: f in dir && f.suffix == ext && nb.index(f.stem) == Some(c - 1)
    {
      var f :| f in rest;
      rest := rest - {f};
      if f.suffix == ext {
        match nb.index(f.stem)
        case None =>
        case Some(i) => c := if i + 1 > c then i + 1 else c;
      }
    }
  }

  /** A staged Kinexus pair: the suffixes of its two files and their contents. */
  datatype Item = Item(ext: Suffix, inner: Suffix, exported: Content, native: Content)

  /** The files one Kinexus pair becomes; the native keeps its own suffix inside the zip. */
  function PlaceKinexus(dir: Dir, base: string, item: Item): Dir {
    dir[Name(base, item.ext) := item.exported][Name(base, Zipped) := Zip(Name(base, item.inner), item.native)]
  }

  /** How many of the first `n` exports have the suffix `e`. */
  function Before(items: seq<Item>, n: nat, e: Suffix): nat
    requires n <= |items|
  {
    if n == 0 then 0 else Before(items, n - 1, e) + if items[n - 1].ext == e then 1 else 0
  }

  /** The directory after the first `n` pairs. */
  function Placed(dir: Dir, nb: Numbering, items: seq<Item>, numbers: seq<nat>, n: nat): Dir
    requires n <= |items| == |numbers|
  {
    if n == 0 then dir else PlaceKinexus(Placed(dir, nb, items, numbers, n - 1), nb.name(numbers[n - 1]), items[n - 1])
  }

  /** Each pair's number continues the count of its own export suffix, whatever the others do. */
  ghost predicate Continues(dir: Dir, nb: Numbering, items: seq<Item>, numbers: seq<nat>) {
    |items| == |numbers| &&
    forall i: nat :: i < |items| ==> ContinuesAt(dir, nb, items, numbers, i)
  }

  ghost predicate ContinuesAt(dir: Dir, nb: Numbering, items: seq<Item>, numbers: seq<nat>, i: nat)
    requires i < |items| == |numbers|
  {
    var k := Before(items, i, items[i].ext);
    k <= numbers[i] && IsCounter(dir, nb, items[i].ext, numbers[i] - k)
  }

  /** The i-th pair's zip is already there: from before the batch, or from an earlier pair. */
  ghost predicate ZipTaken(dir: Dir, nb: Numbering, numbers: seq<nat>, i: nat)
    requires i < |numbers|
  {
    Name(nb.name(numbers[i]), Zipped) in dir || exists j :: 0 <= j < i && numbers[j] == numbers[i]
  }

  ghost predicate NoZips(items: seq<Item>) { forall i :: 0 <= i < |items| ==> items[i].ext != Zipped }

  /** One pair moves the counter of its own suffix by one and leaves the others alone. */
  lemma CounterMoves(dir: Dir, nb: Numbering, item: Item, n: nat, e: Suffix, c: nat)
    requires Lawful(nb) && e != Zipped && item.ext != Zipped && IsCounter(dir, nb, item.ext, n) &&
             IsCounter(dir, nb, e, c)
    ensures IsCounter(PlaceKinexus(dir, nb.name(n), item), nb, e, if e == item.ext then c + 1 else c)
  {
    var base := nb.name(n);
    var after := PlaceKinexus(dir, base, item);
    assert nb.index(base) == Some(n);
    assert forall f :: f in after && f.suffix == e ==> f in dir || (e == item.ext && f.stem == base);
    if e == item.ext {
      assert Name(base, e) in after && nb.index(Name(base, e).stem) == Some(c + 1 - 1);
    } else if c != 1 {
      var f :| f in dir && f.suffix == e && nb.index(f.stem) == Some(c - 1);
      assert f in after;
    }
  }

  /** Next numbers as a function of directory and suffix. */
  type Next = (Dir, Suffix) -> nat

  /** A pair that takes its suffix's next number moves that number by one and no other. */
  ghost predicate Moving(nb: Numbering, next: Next) {
    forall dir: Dir, item: Item, e: Suffix :: MovesAt(nb, next, dir, item, e)
  }

  ghost predicate MovesAt(nb: Numbering, next: Next, dir: Dir, item: Item, e: Suffix) {
    item.ext != Zipped && e != Zipped ==>
      next(PlaceKinexus(dir, nb.name(next(dir, item.ext)), item), e) == next(dir, e) + if e == item.ext then 1 else 0
  }

  ghost predicate Follows(next: Next, dir: Dir, items: seq<Item>, numbers: seq<nat>) {
    |items| == |numbers| && forall i: nat :: i < |items| ==> FollowsAt(next, dir, items, numbers, i)
  }

  ghost predicate FollowsAt(next: Next, dir: Dir, items: seq<Item>, numbers: seq<nat>, i: nat)
    requires i < |items| == |numbers|
  {
    numbers[i] == next(dir, items[i].ext) + Before(items, i, items[i].ext)
  }

  lemma {:induction false} NumbersAt(next: Next, dir: Dir, nb: Numbering, items: seq<Item>, numbers: seq<nat>, n: nat,
      e: Suffix)
    requires Moving(nb, next) && NoZips(items) && Follows(next, dir, items, numbers) && n <= |items| && e != Zipped
    ensures next(Placed(dir, nb, items, numbers, n), e) == next(dir, e) + Before(items, n, e)
  {
    if n > 0 {
      NumbersAt(next, dir, nb, items, numbers, n - 1, e);
      NumbersAt(next, dir, nb, items, numbers, n - 1, items[n - 1].ext);
      assert FollowsAt(next, dir, items, numbers, n - 1);
      assert MovesAt(nb, next, Placed(dir, nb, items, numbers, n - 1), items[n - 1], e);
    }
  }

  /** Every directory has exactly one next number for every suffix. */
  lemma NumberExists(dir: Dir, nb: Numbering, ext: Suffix)
    ensures exists c: nat :: IsCounter(dir, nb, ext, c)
  {
    var c: nat, rest := 1, dir.Keys;
    while rest != {}
      invariant rest <= dir.Keys && c >= 1
      invariant forall f :: f in dir && f !in rest && f.suffix == ext && nb.index(f.stem).Some? ==>
                nb.index(f.stem).value < c
      invariant c == 1 || exists f :: f in dir && f.suffix == ext && nb.index(f.stem) == Some(c - 1)
    {
      var f :| f in rest;
      rest := rest - {f};
      if f.suffix == ext && nb.index(f.stem).Some? && nb.index(f.stem).value >= c {
        c := nb.index(f.stem).value + 1;
      }
    }
    assert IsCounter(dir, nb, ext, c);
  }

  ghost function NextNumber(dir: Dir, nb: Numbering, ext: Suffix): nat {
    NumberExists(dir, nb, ext);
    var c: nat :| IsCounter(dir, nb, ext, c);
    c
  }

  lemma NextNumberIff(dir: Dir, nb: Numbering, ext: Suffix, c: nat)
    ensures IsCounter(dir, nb, ext, c) <==> c == NextNumber(dir, nb, ext)
  {
  }

  ghost function NextOf(nb: Numbering): Next { (dir, ext) => NextNumber(dir, nb, ext) }

  lemma NextOfMoves(nb: Numbering)
    requires Lawful(nb)
    ensures Moving(nb, NextOf(nb))
  {
    var next := NextOf(nb);
    forall dir: Dir, item: Item, e: Suffix ensures MovesAt(nb, next, dir, item, e) {
      if item.ext != Zipped && e != Zipped {
        var n, c := next(dir, item.ext), next(dir, e);
        NextNumberIff(dir, nb, item.ext, n);
        NextNumberIff(dir, nb, e, c);
        CounterMoves(dir, nb, item, n, e, c);
        NextNumberIff(PlaceKinexus(dir, nb.name(n), item), nb, e, if e == item.ext then c + 1 else c);
      }
    }
  }

  lemma NextOfFollows(dir: Dir, nb: Numbering, items: seq<Item>, numbers: seq<nat>)
    requires Continues(dir, nb, items, numbers)
    ensures Follows(NextOf(nb), dir, items, numbers)
  {
    var next := NextOf(nb);
    forall i: nat | i < |items| ensures FollowsAt(next, dir, items, numbers, i) {
      assert ContinuesAt(dir, nb, items, numbers, i);
      NextNumberIff(dir, nb, items[i].ext, numbers[i] - Before(items, i, items[i].ext));
    }
  }

  /** Before the n-th pair every suffix's next number has moved by its own occurrences. */
  lemma CountersAt(dir: Dir, nb: Numbering, items: seq<Item>, numbers: seq<nat>, n: nat, e: Suffix, c: nat)
    requires Lawful(nb) && NoZips(items) && Continues(dir, nb, items, numbers) && n <= |items|
    requires e != Zipped && IsCounter(dir, nb, e, c)
    ensures IsCounter(Placed(dir, nb, items, numbers, n), nb, e, c + Before(items, n, e))
  {
    NextOfMoves(nb);
    NextOfFollows(dir, nb, items, numbers);
    NumbersAt(NextOf(nb), dir, nb, items, numbers, n, e);
    NextNumberIff(dir, nb, e, c);
    NextNumberIff(Placed(dir, nb, items, numbers, n), nb, e, c + Before(items, n, e));
  }

  /** The zips after `n` pairs: those from before and one for each number given out. */
  lemma {:induction false} ZipsAt(dir: Dir, nb: Numbering, items: seq<Item>, numbers: seq<nat>, n: nat, m: nat)
    requires Lawful(nb) && NoZips(items) && n <= |items| == |numbers|
    ensures Name(nb.name(m), Zipped) in Placed(dir, nb, items, numbers, n) <==>
            Name(nb.name(m), Zipped) in dir || exists j :: 0 <= j < n && numbers[j] == m
  {
    if n > 0 {
      ZipsAt(dir, nb, items, numbers, n - 1, m);
      assert nb.name(m) == nb.name(numbers[n - 1]) <==> m == numbers[n - 1] by {
        assert nb.index(nb.name(m)) == Some(m) && nb.index(nb.name(numbers[n - 1])) == Some(numbers[n - 1]);
      }
    }
  }

  /** For every directory and every batch: no export is overwritten, and a pair overwrites a zip
      if and only if its number was zipped before the batch or given to an earlier pair. */
  lemma OverwritesIff(dir: Dir, nb: Numbering, items: seq<Item>, numbers: seq<nat>, i: nat)
    requires Lawful(nb) && NoZips(items) && Continues(dir, nb, items, numbers) && i < |items|
    ensures Name(nb.name(numbers[i]), items[i].ext) !in Placed(dir, nb, items, numbers, i)
    ensures Name(nb.name(numbers[i]), Zipped) in Placed(dir, nb, items, numbers, i) <==> ZipTaken(dir, nb, numbers, i)
  {
    ExportFreeAt(dir, nb, items, numbers, i);
    ZipsAt(dir, nb, items, numbers, i, numbers[i]);
  }

  lemma ExportFreeAt(dir: Dir, nb: Numbering, items: seq<Item>, numbers: seq<nat>, i: nat)
    requires Lawful(nb) && NoZips(items) && Continues(dir, nb, items, numbers) && i < |items|
    ensures Name(nb.name(numbers[i]), items[i].ext) !in Placed(dir, nb, items, numbers, i)
  {
    assert ContinuesAt(dir, nb, items, numbers, i);
    var k := Before(items, i, items[i].ext);
    CountersAt(dir, nb, items, numbers, i, items[i].ext, numbers[i] - k);
    ExportIsFree(Placed(dir, nb, items, numbers, i), nb, items[i].ext, numbers[i] - k + k);
  }

  /** The chosen export name is never in use. */
  lemma ExportIsFree(dir: Dir, nb: Numbering, ext: Suffix, c: nat)
    requires Lawful(nb) && IsCounter(dir, nb, ext, c)
    ensures Name(nb.name(c), ext) !in dir
  {
  }

  /** A zip of the batch's numbers. */
  ghost predicate GivenZip(nb: Numbering, numbers: seq<nat>, n: nat, f: Name)
    requires n <= |numbers|
  {
    f.suffix == Zipped && exists j :: 0 <= j < n && f.stem == nb.name(numbers[j])
  }

  /** An export of the batch. */
  ghost predicate GivenExport(nb: Numbering, items: seq<Item>, numbers: seq<nat>, n: nat, f: Name)
    requires n <= |items| == |numbers|
  {
    exists j :: 0 <= j < n && f == Name(nb.name(numbers[j]), items[j].ext)
  }

  ghost predicate KeptAndLanded(dir: Dir, after: Dir, nb: Numbering, items: seq<Item>, numbers: seq<nat>, n: nat)
    requires n <= |items| == |numbers|
  {
    (forall f :: f in dir ==> f in after && (after[f] == dir[f] || GivenZip(nb, numbers, n, f))) &&
    (forall i: nat :: i < n ==> ExportLanded(after, nb, items[i], numbers[i])) &&
    (forall i: nat :: i < n && (forall j :: i < j < n ==> numbers[j] != numbers[i]) ==>
        ZipLanded(after, nb, items[i], numbers[i]))
  }

  ghost predicate NothingElse(dir: Dir, after: Dir, nb: Numbering, items: seq<Item>, numbers: seq<nat>, n: nat)
    requires n <= |items| == |numbers|
  {
    forall f :: f in after ==> f in dir || GivenZip(nb, numbers, n, f) || GivenExport(nb, items, numbers, n, f)
  }

  /** What a batch leaves: all that was there except zips of its own numbers, every export with its
      contents, under each number the zip of the last pair that got it, and nothing else. */
  ghost predicate BatchLanded(dir: Dir, after: Dir, nb: Numbering, items: seq<Item>, numbers: seq<nat>, n: nat)
    requires n <= |items| == |numbers|
  {
    KeptAndLanded(dir, after, nb, items, numbers, n) && NothingElse(dir, after, nb, items, numbers, n)
  }

  ghost predicate ExportLanded(after: Dir, nb: Numbering, item: Item, n: nat) {
    Name(nb.name(n), item.ext) in after && after[Name(nb.name(n), item.ext)] == item.exported
  }

  ghost predicate ZipLanded(after: Dir, nb: Numbering, item: Item, n: nat) {
    Name(nb.name(n), Zipped) in after &&
        after[Name(nb.name(n), Zipped)] == Zip(Name(nb.name(n), item.inner), item.native)
  }

  lemma {:induction false} BatchKeeps(dir: Dir, nb: Numbering, items: seq<Item>, numbers: seq<nat>, n: nat)
    requires Lawful(nb) && NoZips(items) && Continues(dir, nb, items, numbers) && n <= |items|
    ensures KeptAndLanded(dir, Placed(dir, nb, items, numbers, n), nb, items, numbers, n)
  {
    if n > 0 {
      var k := n - 1;
      var before, after := Placed(dir, nb, items, numbers, k), Placed(dir, nb, items, numbers, n);
      BatchKeeps(dir, nb, items, numbers, k);
      OverwritesIff(dir, nb, items, numbers, k);
      ExportsStay(dir, before, after, nb, items, numbers, k);
      FilesStay(dir, before, after, nb, items, numbers, k);
    }
  }

  lemma ExportsStay(dir: Dir, before: Dir, after: Dir, nb: Numbering, items: seq<Item>, numbers: seq<nat>, k: nat)
    requires k < |items| == |numbers| && NoZips(items) && KeptAndLanded(dir, before, nb, items, numbers, k)
    requires after == PlaceKinexus(before, nb.name(numbers[k]), items[k])
    requires Name(nb.name(numbers[k]), items[k].ext) !in before
    ensures forall i: nat :: i <= k ==> ExportLanded(after, nb, items[i], numbers[i])
  {
  }

  lemma FilesStay(dir: Dir, before: Dir, after: Dir, nb: Numbering, items: seq<Item>, numbers: seq<nat>, k: nat)
    requires k < |items| == |numbers| && KeptAndLanded(dir, before, nb, items, numbers, k)
    requires after == PlaceKinexus(before, nb.name(numbers[k]), items[k])
    requires Name(nb.name(numbers[k]), items[k].ext) !in before
    ensures forall f :: f in dir ==> f in after && (after[f] == dir[f] || GivenZip(nb, numbers, k + 1, f))
  {
  }

  lemma {:induction false} BatchAdds(dir: Dir, nb: Numbering, items: seq<Item>, numbers: seq<nat>, n: nat)
    requires n <= |items| == |numbers|
    ensures NothingElse(dir, Placed(dir, nb, items, numbers, n), nb, items, numbers, n)
  {
    if n > 0 {
      BatchAdds(dir, nb, items, numbers, n - 1);
      var before := Placed(dir, nb, items, numbers, n - 1);
      forall f | f in Placed(dir, nb, items, numbers, n)
        ensures f in dir || GivenZip(nb, numbers, n, f) || GivenExport(nb, items, numbers, n, f)
      {
        assert f in before || f == Name(nb.name(numbers[n - 1]), items[n - 1].ext) ||
               f == Name(nb.name(numbers[n - 1]), Zipped);
      }
    }
  }

  lemma BatchLands(dir: Dir, nb: Numbering, items: seq<Item>, numbers: seq<nat>, n: nat)
    requires Lawful(nb) && NoZips(items) && Continues(dir, nb, items, numbers) && n <= |items|
    ensures BatchLanded(dir, Placed(dir, nb, items, numbers, n), nb, items, numbers, n)
  {
    BatchKeeps(dir, nb, items, numbers, n);
    BatchAdds(dir, nb, items, numbers, n);
  }

  // ----- when a Kinexus batch overwrites nothing -----

  ghost predicate OverwritesNothing(dir: Dir, nb: Numbering, numbers: seq<nat>) {
    forall i: nat :: i < |numbers| ==> !ZipTaken(dir, nb, numbers, i)
  }

  /** Every numbered zip has an export of the same number under `ext`. */
  ghost predicate ZipsCovered(dir: Dir, nb: Numbering, ext: Suffix) {
    forall n: nat :: Name(nb.name(n), Zipped) in dir ==> Name(nb.name(n), ext) in dir
  }

  ghost predicate Uniform(items: seq<Item>, ext: Suffix) { forall i :: 0 <= i < |items| ==> items[i].ext == ext }

  lemma {:induction false} UniformBefore(items: seq<Item>, ext: Suffix, n: nat)
    requires Uniform(items, ext) && n <= |items|
    ensures Before(items, n, ext) == n
  {
    if n > 0 {
      UniformBefore(items, ext, n - 1);
    }
  }

  lemma UniformNumbers(dir: Dir, nb: Numbering, items: seq<Item>, numbers: seq<nat>, ext: Suffix, i: nat)
    requires Continues(dir, nb, items, numbers) && Uniform(items, ext) && i < |items|
    ensures numbers[i] >= i && IsCounter(dir, nb, ext, numbers[i] - i)
  {
    assert ContinuesAt(dir, nb, items, numbers, i);
    UniformBefore(items, ext, i);
  }

  /** A batch of one export suffix, in a directory where every numbered zip has such an export,
      overwrites nothing and leaves every numbered zip with such an export. */
  lemma CoveredBatch(dir: Dir, nb: Numbering, items: seq<Item>, numbers: seq<nat>, ext: Suffix)
    requires Lawful(nb) && ext != Zipped && Uniform(items, ext) && ZipsCovered(dir, nb, ext)
    requires Continues(dir, nb, items, numbers)
    ensures OverwritesNothing(dir, nb, numbers) && ZipsCovered(Placed(dir, nb, items, numbers, |items|), nb, ext)
    ensures forall i :: 0 <= i < |numbers| ==> numbers[i] == numbers[0] + i
  {
    forall i: nat | i < |numbers| ensures numbers[i] == numbers[0] + i && Name(nb.name(numbers[i]), ext) !in dir {
      UniformNumbers(dir, nb, items, numbers, ext, i);
      UniformNumbers(dir, nb, items, numbers, ext, 0);
      CounterUnique(dir, nb, ext, numbers[i] - i, numbers[0]);
      assert nb.index(nb.name(numbers[i])) == Some(numbers[i]);
      assert Name(nb.name(numbers[i]), ext).suffix == ext;
    }
    var after := Placed(dir, nb, items, numbers, |items|);
    BatchLands(dir, nb, items, numbers, |items|);
    forall n: nat | Name(nb.name(n), Zipped) in after ensures Name(nb.name(n), ext) in after {
      ZipsAt(dir, nb, items, numbers, |items|, n);
      if Name(nb.name(n), Zipped) !in dir {
        var j: nat :| j < |items| && numbers[j] == n;
        assert ExportLanded(after, nb, items[j], numbers[j]);
      }
    }
  }

  lemma CounterUnique(dir: Dir, nb: Numbering, ext: Suffix, c: nat, d: nat)
    requires IsCounter(dir, nb, ext, c) && IsCounter(dir, nb, ext, d)
    ensures c == d
  {
  }

  /** A record directory without any number of this prefix. */
  ghost predicate Unnumbered(dir: Dir, nb: Numbering) { forall f :: f in dir ==> nb.index(f.stem).None? }

  lemma FreshNumber(dir: Dir, nb: Numbering, items: seq<Item>, numbers: seq<nat>, i: nat)
    requires Lawful(nb) && Unnumbered(dir, nb) && Continues(dir, nb, items, numbers) && i < |items|
    ensures numbers[i] == 1 + Before(items, i, items[i].ext) && Name(nb.name(numbers[i]), Zipped) !in dir
  {
    assert ContinuesAt(dir, nb, items, numbers, i);
    assert nb.index(nb.name(numbers[i])) == Some(numbers[i]);
    assert Name(nb.name(numbers[i]), Zipped).stem == nb.name(numbers[i]);
  }

  /** Every count below the total was reached just before some occurrence. */
  lemma {:induction false} Occurrence(items: seq<Item>, n: nat, e: Suffix, c: nat) returns (j: nat)
    requires n <= |items| && c < Before(items, n, e)
    ensures j < n && items[j].ext == e && Before(items, j, e) == c
  {
    if items[n - 1].ext == e && Before(items, n - 1, e) == c {
      j := n - 1;
    } else {
      j := Occurrence(items, n - 1, e, c);
    }
  }

  lemma {:induction false} BeforeGrows(items: seq<Item>, m: nat, n: nat, e: Suffix)
    requires m <= n <= |items|
    ensures Before(items, m, e) <= Before(items, n, e)
  {
    if m < n {
      BeforeGrows(items, m, n - 1, e);
    }
  }

  /** Starting without numbers, a pair overwrites a zip if and only if some other export suffix
      has occurred more often before it than its own. */
  lemma FreshOverwritesIff(dir: Dir, nb: Numbering, items: seq<Item>, numbers: seq<nat>, i: nat)
    requires Lawful(nb) && NoZips(items) && Unnumbered(dir, nb) && Continues(dir, nb, items, numbers) && i < |items|
    ensures ZipTaken(dir, nb, numbers, i) <==>
            exists e :: Before(items, i, e) > Before(items, i, items[i].ext)
  {
    FreshNumber(dir, nb, items, numbers, i);
    var k := Before(items, i, items[i].ext);
    if e :| Before(items, i, e) > k {
      var j := Occurrence(items, i, e, k);
      FreshNumber(dir, nb, items, numbers, j);
      assert numbers[j] == numbers[i];
    }
    if j: nat :| j < i && numbers[j] == numbers[i] {
      FreshNumber(dir, nb, items, numbers, j);
      BeforeGrows(items, j + 1, i, items[j].ext);
      assert Before(items, i, items[j].ext) > k;
    }
  }

  lemma {:induction false} NeverBefore(items: seq<Item>, n: nat, e: Suffix)
    requires n <= |items| && forall j :: 0 <= j < n ==> items[j].ext != e
    ensures Before(items, n, e) == 0
  {
    if n > 0 {
      NeverBefore(items, n - 1, e);
    }
  }

  /** Starting without numbers, a batch overwrites nothing if and only if all its exports have
      the same suffix. */
  lemma FreshBatchIff(dir: Dir, nb: Numbering, items: seq<Item>, numbers: seq<nat>)
    requires Lawful(nb) && NoZips(items) && Unnumbered(dir, nb) && Continues(dir, nb, items, numbers)
    ensures OverwritesNothing(dir, nb, numbers) <==> items == [] || Uniform(items, items[0].ext)
  {
    if items != [] && Uniform(items, items[0].ext) {
      assert ZipsCovered(dir, nb, items[0].ext) by {
        forall n: nat ensures Name(nb.name(n), Zipped) !in dir {
          assert nb.index(nb.name(n)) == Some(n) && Name(nb.name(n), Zipped).stem == nb.name(n);
        }
      }
      CoveredBatch(dir, nb, items, numbers, items[0].ext);
    } else if items != [] {
      var i := FirstOther(items);
      NeverBefore(items, i, items[i].ext);
      FreshNumber(dir, nb, items, numbers, i);
      FreshNumber(dir, nb, items, numbers, 0);
      assert numbers[0] == numbers[i];
      assert ZipTaken(dir, nb, numbers, i);
    }
  }

  lemma FirstOther(items: seq<Item>) returns (i: nat)
    requires items != [] && !Uniform(items, items[0].ext)
    ensures 0 < i < |items| && items[i].ext != items[0].ext && forall j :: 0 <= j < i ==> items[j].ext == items[0].ext
  {
    i := 0;
    while items[i].ext == items[0].ext
      invariant i < |items| && forall j :: 0 <= j < i ==> items[j].ext == items[0].ext
      decreases |items| - i
    {
      i := i + 1;
    }
  }

  // ----- the Kinexus loop -----

  /** The first pairs as they were staged, and what is left of the staging directory. */
  ghost predicate TakenItems(stage: map<B.Path, Content>, left: map<B.Path, Content>, pairs: seq<B.Pair>,
      items: seq<Item>)
    requires |items| <= |pairs|
  {
    left == Remaining(stage, pairs[..|items|]) &&
    forall i :: 0 <= i < |items| ==> pairs[i].exported in stage && pairs[i].native in stage &&
                                     Pictures(items[i], stage, pairs[i])
  }

  /** The item has the contents of the pair's files and their suffixes in lower case. */
  predicate Pictures(item: Item, stage: map<B.Path, Content>, pair: B.Pair)
    requires pair.exported in stage && pair.native in stage
  {
    item.exported == stage[pair.exported] && item.native == stage[pair.native] &&
    Spelled(item.ext) == Lower(pair.exported.suffix) && Spelled(item.inner) == Lower(pair.native.suffix)
  }

  function ItemOf(stage: map<B.Path, Content>, pair: B.Pair): Item
    requires pair.exported in stage && pair.native in stage
  {
    Item(SuffixOf(pair.exported), SuffixOf(pair.native), stage[pair.exported], stage[pair.native])
  }

  lemma TakeItem(stage: map<B.Path, Content>, left: map<B.Path, Content>, pairs: seq<B.Pair>, items: seq<Item>)
    requires |items| < |pairs| && TakenItems(stage, left, pairs, items)
    requires pairs[|items|].exported in left && pairs[|items|].native in left
    ensures var pair := pairs[|items|];
            TakenItems(stage, left - {pair.exported} - {pair.native}, pairs, items + [ItemOf(left, pair)])
  {
    var all := items + [ItemOf(left, pairs[|items|])];
    forall i | 0 <= i < |all|
      ensures pairs[i].exported in stage && pairs[i].native in stage && Pictures(all[i], stage, pairs[i])
    {
      if i < |items| {
        assert all[i] == items[i];
      }
    }
    TakeFiles(stage, pairs, |items|);
  }

  lemma TakeFiles(stage: map<B.Path, Content>, pairs: seq<B.Pair>, n: nat)
    requires n < |pairs|
    ensures Remaining(stage, pairs[..n + 1]) ==
            Remaining(stage, pairs[..n]) - {pairs[n].exported} - {pairs[n].native}
  {
    assert B.Exports(pairs[..n + 1]) == B.Exports(pairs[..n]) + [pairs[n].exported];
    assert B.Natives(pairs[..n + 1]) == B.Natives(pairs[..n]) + [pairs[n].native];
  }

  lemma {:induction false} PlacedOfPrefix(dir: Dir, nb: Numbering, items: seq<Item>, numbers: seq<nat>, item: Item,
      m: nat, n: nat)
    requires n <= |items| == |numbers|
    ensures Placed(dir, nb, items + [item], numbers + [m], n) == Placed(dir, nb, items, numbers, n)
  {
    if n > 0 {
      PlacedOfPrefix(dir, nb, items, numbers, item, m, n - 1);
    }
  }

  lemma {:induction false} BeforeOfPrefix(items: seq<Item>, item: Item, n: nat, e: Suffix)
    requires n <= |items|
    ensures Before(items + [item], n, e) == Before(items, n, e)
  {
    if n > 0 {
      BeforeOfPrefix(items, item, n - 1, e);
    }
  }

  lemma NoZipsBefore(items: seq<Item>, item: Item)
    requires NoZips(items + [item])
    ensures NoZips(items) && item.ext != Zipped
  {
    var all := items + [item];
    assert all[|items|] == item;
    forall i | 0 <= i < |items| ensures items[i].ext != Zipped {
      assert all[i] == items[i];
    }
  }

  /** The number found in the directory so far continues the count of the pair's suffix. */
  lemma OneMore(dir: Dir, nb: Numbering, items: seq<Item>, numbers: seq<nat>, item: Item, m: nat)
    requires Lawful(nb) && NoZips(items + [item]) && Continues(dir, nb, items, numbers)
    requires IsCounter(Placed(dir, nb, items, numbers, |items|), nb, item.ext, m)
    ensures Continues(dir, nb, items + [item], numbers + [m])
  {
    var all, ns, n := items + [item], numbers + [m], |items|;
    NoZipsBefore(items, item);
    var c := NextNumber(dir, nb, item.ext);
    NextNumberIff(dir, nb, item.ext, c);
    CountersAt(dir, nb, items, numbers, n, item.ext, c);
    CounterUnique(Placed(dir, nb, items, numbers, n), nb, item.ext, m, c + Before(items, n, item.ext));
    forall i: nat | i < |all| ensures ContinuesAt(dir, nb, all, ns, i) {
      BeforeOfPrefix(items, item, i, all[i].ext);
      if i < n {
        assert ContinuesAt(dir, nb, items, numbers, i);
      }
    }
  }

  /** What is known of the pairs placed so far. */
  ghost predicate KinexusOk(dir: Dir, after: Dir, nb: Numbering, items: seq<Item>, numbers: seq<nat>,
      overwrote: seq<bool>)
    requires |items| == |numbers| == |overwrote|
  {
    after == Placed(dir, nb, items, numbers, |items|) &&
    (Lawful(nb) && NoZips(items) ==>
       Continues(dir, nb, items, numbers) && forall i: nat :: i < |items| ==>
           overwrote[i] == ZipTaken(dir, nb, numbers, i))
  }

  lemma KinexusStep(dir: Dir, after: Dir, nb: Numbering, items: seq<Item>, numbers: seq<nat>, overwrote: seq<bool>,
      item: Item, m: nat)
    requires |items| == |numbers| == |overwrote| && KinexusOk(dir, after, nb, items, numbers, overwrote)
    requires IsCounter(after, nb, item.ext, m)
    ensures KinexusOk(dir, PlaceKinexus(after, nb.name(m), item), nb, items + [item], numbers + [m],
                      overwrote + [Name(nb.name(m), Zipped) in after])
  {
    var all, ns, n := items + [item], numbers + [m], |items|;
    PlacedOfPrefix(dir, nb, items, numbers, item, m, n);
    if Lawful(nb) && NoZips(all) {
      NoZipsBefore(items, item);
      OneMore(dir, nb, items, numbers, item, m);
      OverwritesIff(dir, nb, all, ns, n);
      forall i: nat | i < n ensures overwrote[i] == ZipTaken(dir, nb, ns, i) {
        TakenOfPrefix(dir, nb, numbers, m, i);
      }
    }
  }

  lemma TakenOfPrefix(dir: Dir, nb: Numbering, numbers: seq<nat>, m: nat, i: nat)
    requires i < |numbers|
    ensures ZipTaken(dir, nb, numbers + [m], i) == ZipTaken(dir, nb, numbers, i)
  {
    var ns := numbers + [m];
    assert forall j :: 0 <= j <= i ==> ns[j] == numbers[j];
  }

  /** The pair loop of Kinexus `device_specific_processing`; stops at the first missing file.
      `overwrote` tells which pairs found their zip's name in use. */
  method FinaliseKinexus(dir: Dir, stage: map<B.Path, Content>, pairs: seq<B.Pair>, nb: Numbering)
    returns (after: Dir, left: map<B.Path, Content>, outcome: Outcome, items: seq<Item>, numbers: seq<nat>,
        overwrote: seq<bool>)
    ensures |items| == |numbers| == |overwrote| <= |pairs| && (outcome.Completed? <==> |items| == |pairs|)
    ensures outcome.ExportMissing? ==> outcome.at == |items| && pairs[outcome.at].exported !in left
    ensures outcome.NativeMissing? ==>
              outcome.at == |items| && pairs[outcome.at].exported in left && pairs[outcome.at].native !in left
    ensures TakenItems(stage, left, pairs, items)
    ensures Lawful(nb) && NoZips(items) ==>
              Continues(dir, nb, items, numbers) && BatchLanded(dir, after, nb, items, numbers, |items|) &&
              forall i: nat :: i < |items| ==> overwrote[i] == ZipTaken(dir, nb, numbers, i)
  {
    after, left, items, numbers, overwrote := dir, stage, [], [], [];
    outcome := Completed;
    while |items| < |pairs|
      invariant |items| == |numbers| == |overwrote| <= |pairs|
      invariant TakenItems(stage, left, pairs, items)
      invariant KinexusOk(dir, after, nb, items, numbers, overwrote)
      decreases |pairs| - |items|
    {
      var pair := pairs[|items|];
      if pair.exported !in left {
        outcome := ExportMissing(|items|);
        break;
      }
      if pair.native !in left {
        outcome := NativeMissing(|items|);
        break;
      }
      var item := ItemOf(left, pair);
      TakeItem(stage, left, pairs, items);
      var m := UniqueCounter(after, nb, item.ext);
      KinexusStep(dir, after, nb, items, numbers, overwrote, item, m);
      overwrote := overwrote + [Name(nb.name(m), Zipped) in after];
      after := PlaceKinexus(after, nb.name(m), item);
      left := left - {pair.exported} - {pair.native};
      items, numbers := items + [item], numbers + [m];
    }
    if Lawful(nb) && NoZips(items) {
      BatchLands(dir, nb, items, numbers, |items|);
    }
  }
}
